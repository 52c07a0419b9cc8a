/**
 * The directive annotations and their decoders. An annotation's arguments
 * are looked up by name (`associateBy`, so a repeated name means its last
 * occurrence); a missing required string is a fatal error, a missing
 * `filter` means `"*"`.
 */
module Directives {
  import opened Ir

  datatype ZodIgnore = ZodIgnore(filter: string)
  datatype ZodType = ZodType(value: string, filter: string)
  datatype ZodOverrideSchema = ZodOverrideSchema(content: string, filter: string)
  datatype ZodImport = ZodImport(name: string, source: string, filter: string, isInvariable: bool)

  const Wildcard: string := "*"

  /** `arguments.associateBy { it.name }[key]?.value`: the value of the last argument named `key`. */
  function Lookup(args: seq<AnnotationArg>, key: string): (r: Option<ArgValue>)
    ensures r.Some? <==> exists i :: 0 <= i < |args| && args[i].name == Some(key)
    ensures r.Some? ==> exists i :: 0 <= i < |args| && args[i].name == Some(key) && args[i].value == r.value
                                    && forall j :: i < j < |args| ==> args[j].name != Some(key)
  {
    if |args| == 0 then None
    else if args[|args| - 1].name == Some(key) then Some(args[|args| - 1].value)
    else
      var r := Lookup(args[..|args| - 1], key);
      assert forall i :: 0 <= i < |args| - 1 ==> args[..|args| - 1][i] == args[i];
      r
  }

  /** `...?.value as? String`: present only when the looked-up value is a string. */
  function StringArg(args: seq<AnnotationArg>, key: string): Option<string>
  {
    match Lookup(args, key)
    case Some(StringValue(s)) => Some(s)
    case _ => None
  }

  function FilterOf(args: seq<AnnotationArg>): string
  {
    match StringArg(args, "filter")
    case Some(f) => f
    case None => Wildcard
  }

  function DecodeZodIgnore(a: Annotation): ZodIgnore
  {
    ZodIgnore(FilterOf(a.arguments))
  }

  function DecodeZodType(a: Annotation): (r: Result<ZodType>)
    ensures r.Err? <==> StringArg(a.arguments, "value").None?
  {
    match StringArg(a.arguments, "value")
    case None => Err("Missing 'type'")
    case Some(v) => Ok(ZodType(v, FilterOf(a.arguments)))
  }

  function DecodeZodOverrideSchema(a: Annotation): (r: Result<ZodOverrideSchema>)
    ensures r.Err? <==> StringArg(a.arguments, "content").None?
  {
    match StringArg(a.arguments, "content")
    case None => Err("Missing 'content'")
    case Some(c) => Ok(ZodOverrideSchema(c, FilterOf(a.arguments)))
  }

  function DecodeZodImport(a: Annotation): (r: Result<ZodImport>)
    ensures r.Err? <==> StringArg(a.arguments, "name").None? || StringArg(a.arguments, "source").None?
    ensures r.Ok? ==> (r.value.isInvariable <==> Lookup(a.arguments, "isInvariable") == Some(BoolValue(true)))
  {
    match StringArg(a.arguments, "name")
    case None => Err("Missing 'name'")
    case Some(n) =>
      match StringArg(a.arguments, "source")
      case None => Err("Missing 'source'")
      case Some(s) =>
        Ok(ZodImport(n, s, FilterOf(a.arguments), Lookup(a.arguments, "isInvariable") == Some(BoolValue(true))))
  }

  /** The `value` of a `@SerialName`, `"*"` when it cannot be read. */
  function DecodeSerialName(a: Annotation): string
  {
    match StringArg(a.arguments, "value")
    case Some(v) => v
    case None => Wildcard
  }

  function Named(key: string, v: ArgValue): AnnotationArg
  {
    AnnotationArg(Some(key), v)
  }

  /** The annotations as written in Kotlin source, with every argument named. */
  function EncodeZodIgnore(d: ZodIgnore): Annotation
  {
    Annotation("ZodIgnore", [Named("filter", StringValue(d.filter))])
  }

  function EncodeZodType(d: ZodType): Annotation
  {
    Annotation("ZodType", [Named("value", StringValue(d.value)), Named("filter", StringValue(d.filter))])
  }

  function EncodeZodOverrideSchema(d: ZodOverrideSchema): Annotation
  {
    Annotation("ZodOverrideSchema", [Named("content", StringValue(d.content)), Named("filter", StringValue(d.filter))])
  }

  function EncodeZodImport(d: ZodImport): Annotation
  {
    Annotation("ZodImport", [
      Named("name", StringValue(d.name)),
      Named("source", StringValue(d.source)),
      Named("filter", StringValue(d.filter)),
      Named("isInvariable", BoolValue(d.isInvariable))])
  }

  /** An argument whose name occurs once is found by its name. */
  lemma LookupSingle(args: seq<AnnotationArg>, i: nat, key: string)
    requires i < |args| && args[i].name == Some(key)
    requires forall j :: 0 <= j < |args| && j != i ==> args[j].name != Some(key)
    ensures Lookup(args, key) == Some(args[i].value)
  {
  }

  /** Decoding gives back exactly the directive that was written. */
  lemma ZodIgnoreRoundTrip(d: ZodIgnore)
    ensures DecodeZodIgnore(EncodeZodIgnore(d)) == d
  {
    LookupSingle(EncodeZodIgnore(d).arguments, 0, "filter");
  }

  lemma ZodTypeRoundTrip(d: ZodType)
    ensures DecodeZodType(EncodeZodType(d)) == Ok(d)
  {
    var args := EncodeZodType(d).arguments;
    LookupSingle(args, 0, "value");
    LookupSingle(args, 1, "filter");
  }

  lemma ZodOverrideSchemaRoundTrip(d: ZodOverrideSchema)
    ensures DecodeZodOverrideSchema(EncodeZodOverrideSchema(d)) == Ok(d)
  {
    var args := EncodeZodOverrideSchema(d).arguments;
    LookupSingle(args, 0, "content");
    LookupSingle(args, 1, "filter");
  }

  lemma ZodImportRoundTrip(d: ZodImport)
    ensures DecodeZodImport(EncodeZodImport(d)) == Ok(d)
  {
    var args := EncodeZodImport(d).arguments;
    assert |"name"| == 4 && |"source"| == 6 && |"filter"| == 6 && |"isInvariable"| == 12;
    assert "source"[0] != "filter"[0];
    LookupSingle(args, 0, "name");
    LookupSingle(args, 1, "source");
    LookupSingle(args, 2, "filter");
    LookupSingle(args, 3, "isInvariable");
  }

  /** A directive written without `filter` applies with the wildcard filter `"*"`. */
  lemma FilterDefaultsToWildcard(value: string, content: string)
    ensures DecodeZodIgnore(Annotation("ZodIgnore", [])).filter == "*"
    ensures DecodeZodType(Annotation("ZodType", [Named("value", StringValue(value))])) == Ok(ZodType(value, "*"))
    ensures DecodeZodOverrideSchema(Annotation("ZodOverrideSchema", [Named("content", StringValue(content))]))
            == Ok(ZodOverrideSchema(content, "*"))
  {
  }

  /** A `@ZodType` whose value is missing or not a string cannot be decoded, whatever its filter. */
  lemma ZodTypeWithoutValueFails(filter: string, v: ArgValue)
    requires !v.StringValue?
    ensures DecodeZodType(Annotation("ZodType", [Named("filter", StringValue(filter))])).Err?
    ensures DecodeZodType(Annotation("ZodType", [Named("value", v), Named("filter", StringValue(filter))])).Err?
  {
    var args := [Named("value", v), Named("filter", StringValue(filter))];
    assert Lookup(args, "value") == Some(v) by {
      assert args[..1] == [Named("value", v)];
    }
  }
}
