/** The repair loop of the compiler: ask the planner, validate, and ask again
    with the issues until a proposal passes or the attempts run out. */
module Repair {
  import opened Validation
  import opened Compilation

  datatype Parsed = Parsed(proposal: Proposal) | Unparsed(issues: seq<Issue>)

  /** The planner, the parser, the validator and the rendering of feedback. */
  datatype Planner = Planner(
    generate: string -> string,
    parse: string -> Parsed,
    validate: Proposal -> seq<Issue>,
    feedback: (string, string, seq<Issue>) -> string)

  datatype RepairResult = Compiled(proposal: Proposal) | Exhausted(lastErrors: seq<Issue>, lastRaw: string)

  function Errors(p: Planner, raw: string): seq<Issue> {
    match p.parse(raw)
    case Parsed(proposal) => p.validate(proposal)
    case Unparsed(issues) => issues
  }

  predicate Passes(p: Planner, raw: string) {
    p.parse(raw).Parsed? && p.validate(p.parse(raw).proposal) == []
  }

  /** The planner's output at the k-th attempt: each prompt quotes the previous
      output and its issues. */
  function Output(p: Planner, prompt: string, k: nat): string {
    if k == 0 then p.generate(prompt)
    else
      var raw := Output(p, prompt, k - 1);
      p.generate(p.feedback(prompt, raw, Errors(p, raw)))
  }

  /** The k-th attempt yields the proposal, and none before it passes. */
  ghost predicate FirstToPass(p: Planner, prompt: string, k: nat, proposal: Proposal) {
    && p.parse(Output(p, prompt, k)) == Parsed(proposal) && p.validate(proposal) == []
    && forall j: nat :: j < k ==> !Passes(p, Output(p, prompt, j))
  }

  /** The first attempt that passes decides; when none does, the last attempt's
      issues are reported. */
  method CompileWithRepair(p: Planner, plannerPrompt: string, maxAttempts: int) returns (r: RepairResult)
    ensures r.Compiled? <==> exists k: nat :: k < maxAttempts && Passes(p, Output(p, plannerPrompt, k))
    ensures r.Compiled? ==> exists k: nat :: k < maxAttempts && FirstToPass(p, plannerPrompt, k, r.proposal)
    ensures r.Exhausted? && maxAttempts > 0 ==>
      r.lastRaw == Output(p, plannerPrompt, maxAttempts - 1) && r.lastErrors == Errors(p, r.lastRaw)
    ensures r.Exhausted? && maxAttempts <= 0 ==> r == Exhausted([], "")
  {
    var prompt := plannerPrompt;
    var lastErrors: seq<Issue>, lastRaw := [], "";
    var attempt: nat := 0;
    while attempt < maxAttempts
      invariant attempt == 0 || attempt <= maxAttempts
      invariant p.generate(prompt) == Output(p, plannerPrompt, attempt)
      invariant forall j: nat :: j < attempt ==> !Passes(p, Output(p, plannerPrompt, j))
      invariant attempt > 0 ==> lastRaw == Output(p, plannerPrompt, attempt - 1) && lastErrors == Errors(p, lastRaw)
      invariant attempt == 0 ==> lastErrors == [] && lastRaw == ""
    {
      lastRaw := p.generate(prompt);
      var parsed := p.parse(lastRaw);
      match parsed {
        case Unparsed(issues) => lastErrors := issues;
        case Parsed(proposal) =>
          lastErrors := p.validate(proposal);
          if lastErrors == [] {
            assert FirstToPass(p, plannerPrompt, attempt, proposal);
            return Compiled(proposal);
          }
      }
      prompt := p.feedback(plannerPrompt, lastRaw, lastErrors);
      attempt := attempt + 1;
    }
    r := Exhausted(lastErrors, lastRaw);
  }

  // ----- the attempts, one after the other -----

  /** The next output answers a prompt that quotes this one with what is wrong with
      it: what the parser says or, if it parses, what the validator says. */
  ghost predicate Follows(p: Planner, prompt: string, raw: string, next: string) {
    match p.parse(raw)
    case Parsed(proposal) => next == p.generate(p.feedback(prompt, raw, p.validate(proposal)))
    case Unparsed(found) => next == p.generate(p.feedback(prompt, raw, found))
  }

  /** The first output answers the planner's prompt, each later one follows the
      one before it. */
  ghost predicate Attempts(p: Planner, prompt: string, raws: seq<string>) {
    && (raws != [] ==> raws[0] == p.generate(prompt))
    && forall k :: 0 < k < |raws| ==> Follows(p, prompt, raws[k - 1], raws[k])
  }

  lemma {:induction false} AttemptsExactly(p: Planner, prompt: string, raws: seq<string>, k: nat)
    requires Attempts(p, prompt, raws) && k < |raws|
    ensures raws[k] == Output(p, prompt, k)
  {
    if k > 0 {
      AttemptsExactly(p, prompt, raws, k - 1);
      assert Follows(p, prompt, raws[k - 1], raws[k]);
    }
  }
}
