/** Typed data transforms used on task edges. */
module Transforms {
  import opened TaskGraphs

  /** The result of code that may raise: the three kinds of exception the
      executor tells apart. */
  datatype Outcome<+T> = Ok(value: T) | Fatal(message: string) | Retry(message: string) | Error(message: string)

  type TransformFn = (Value, map<string, string>) -> Outcome<Value>

  datatype TransformSpec = TransformSpec(fromSchema: string, toSchema: string, fn: TransformFn)

  type Registry = map<string, TransformSpec>

  function CanTransform(registry: Registry, fromSchema: string, toSchema: string, name: Option<string>): bool {
    || fromSchema == toSchema
    || (name.Some? && name.value in registry
        && var spec := registry[name.value];
           (spec.fromSchema == fromSchema || spec.fromSchema == "*") && spec.toSchema == toSchema)
  }

  function ApplyTransform(registry: Registry, name: string, value: Value,
                          metadata: map<string, string>): Outcome<Value> {
    if name in registry then registry[name].fn(value, metadata) else Error("Unknown transform: " + name)
  }

  function ExtractText(value: Value, metadata: map<string, string>): Outcome<Value> {
    match Field(value.content, "text")
    case None => Error("extract_text requires a text field")
    case Some(text) => Ok(Value("ConversationText", map["text" := text]))
  }

  function ToJsonString(dump: Content -> string, value: Value, metadata: map<string, string>): Outcome<Value> {
    Ok(Value("RawText", map["text" := dump(value.content)]))
  }

  function SelectField(value: Value, metadata: map<string, string>): Outcome<Value> {
    var field := Field(metadata, "field");
    if field == None || field == Some("") then Error("select_field requires metadata.field")
    else match Field(value.content, field.value)
      case None => Error("select_field unknown field: " + field.value)
      case Some(text) => Ok(Value("RawText", map["text" := text]))
  }

  function DefaultRegistry(dump: Content -> string): Registry {
    map["extract_text" := TransformSpec("ConversationRecord", "ConversationText", ExtractText),
        "to_json_string" := TransformSpec("*", "RawText", (v, m) => ToJsonString(dump, v, m)),
        "select_field" := TransformSpec("*", "RawText", SelectField)]
  }

  /** Every transform that returns a value returns one of its declared schema. */
  ghost predicate WellTyped(registry: Registry) {
    forall name, value, metadata :: name in registry && registry[name].fn(value, metadata).Ok? ==>
      registry[name].fn(value, metadata).value.schema == registry[name].toSchema
  }

  lemma DefaultRegistryIsWellTyped(dump: Content -> string)
    ensures WellTyped(DefaultRegistry(dump))
  {}

  /** The built-in transforms between different schemas: each from its own source
      schema, or from any, to its own target. */
  lemma DefaultTransformsExactly(dump: Content -> string, fromSchema: string, toSchema: string, name: Option<string>)
    requires fromSchema != toSchema
    ensures CanTransform(DefaultRegistry(dump), fromSchema, toSchema, name) <==>
      || (name == Some("extract_text") && fromSchema == "ConversationRecord" && toSchema == "ConversationText")
      || (name == Some("to_json_string") && toSchema == "RawText")
      || (name == Some("select_field") && toSchema == "RawText")
  {}

  /** A registered transform may be used from its own source schema or, marked "*",
      from any, and only to its own target; between equal schemas none is needed. */
  lemma CanTransformExactly(registry: Registry, fromSchema: string, toSchema: string, name: Option<string>)
    ensures CanTransform(registry, fromSchema, toSchema, None) <==> fromSchema == toSchema
    ensures CanTransform(registry, fromSchema, fromSchema, name)
    ensures fromSchema != toSchema && CanTransform(registry, fromSchema, toSchema, name) ==>
      name.Some? && name.value in registry && registry[name.value].toSchema == toSchema
      && registry[name.value].fromSchema in {fromSchema, "*"}
    ensures forall key :: key in registry && registry[key].fromSchema in {fromSchema, "*"} ==>
      CanTransform(registry, fromSchema, registry[key].toSchema, Some(key))
  {}

  /** What the built-in transforms return, and when they raise. */
  lemma DefaultResultsExactly(dump: Content -> string, value: Value, metadata: map<string, string>)
    ensures var text := ApplyTransform(DefaultRegistry(dump), "extract_text", value, metadata);
      if "text" in value.content then text == Ok(Value("ConversationText", map["text" := value.content["text"]]))
      else text.Error?
    ensures ApplyTransform(DefaultRegistry(dump), "to_json_string", value, metadata)
         == Ok(Value("RawText", map["text" := dump(value.content)]))
    ensures var selected := ApplyTransform(DefaultRegistry(dump), "select_field", value, metadata);
      if "field" in metadata && metadata["field"] != "" && metadata["field"] in value.content
      then selected == Ok(Value("RawText", map["text" := value.content[metadata["field"]]]))
      else selected.Error?
    ensures forall name :: name !in {"extract_text", "to_json_string", "select_field"} ==>
      ApplyTransform(DefaultRegistry(dump), name, value, metadata).Error?
  {}
}
