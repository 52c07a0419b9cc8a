/**
 * The earlier single-file processor: every `@Zodable` class becomes a Zod
 * object schema and an inferred type in one `zodable/schemas.ts`.
 */
module ZodSchemaProcessor {
  import opened Ir
  import opened Text
  import TypescriptGenerator

  const Nullish: string := ".nullish()"

  /** The TypeScript generator's fixed table without its `Instant` entry. */
  function ZspScalar(q: string): (r: Option<string>)
    ensures r.Some? ==> StartsWith(r.value, "z.")
    ensures r.Some? <==> q in TypescriptGenerator.ScalarKeys && q != "kotlinx.datetime.Instant"
    ensures r.Some? ==> r == TypescriptGenerator.ScalarSchema(q)
  {
    match q
    case "kotlin.String" => Some("z.string()")
    case "kotlin.Int" => Some("z.number().int()")
    case "kotlin.Long" => Some("z.number()")
    case "kotlin.Double" => Some("z.number()")
    case "kotlin.Float" => Some("z.number()")
    case "kotlin.Boolean" => Some("z.boolean()")
    case "dev.kaccelero.models.UUID" => Some("z.string().uuid()")
    case _ => None
  }

  /**
   * Resolves a type occurrence: lists from their first argument, maps from
   * their first two, scalars from the table, `@Zodable` classes by schema
   * name, anything else `z.unknown()`; a nullable occurrence gets `.nullish()`.
   */
  function ZspResolveType(t: TypeNode): string
    decreases t, 1
  {
    var base := ZspBase(t);
    if t.nullable then base + Nullish else base
  }

  function ZspBase(t: TypeNode): string
    decreases t, 0
  {
    match t.decl.qualifiedName
    case Some(q) =>
      if q == "kotlin.collections.List" then
        if |t.args| > 0 && t.args[0].Some? then
          assert t.args[0] in t.args;
          "z.array(" + ZspResolveType(t.args[0].value) + ")"
        else "z.array(z.unknown())"
      else if q == "kotlin.collections.Map" then
        if |t.args| > 1 && t.args[0].Some? && t.args[1].Some? then
          assert t.args[0] in t.args && t.args[1] in t.args;
          "z.record(" + ZspResolveType(t.args[0].value) + ", " + ZspResolveType(t.args[1].value) + ")"
        else "z.record(z.string(), z.unknown())"
      else if ZspScalar(q).Some? then ZspScalar(q).value
      else ZspClassOrUnknown(t.decl)
    case None => ZspClassOrUnknown(t.decl)
  }

  /** A nullable occurrence is the non-nullable one with `.nullish()` appended, once. */
  lemma NullishAppliedOnce(t: TypeNode)
    ensures !t.nullable ==> ZspResolveType(t) == ZspResolveType(t.(nullable := false))
    ensures t.nullable ==> ZspResolveType(t) == ZspResolveType(t.(nullable := false)) + Nullish
  {
    assert ZspBase(t) == ZspBase(t.(nullable := false));
  }

  /** The `.nullish()` suffix a nullable occurrence gets. */
  function NullishSuffix(t: TypeNode): (r: string)
    ensures t.nullable ==> r == Nullish
    ensures !t.nullable ==> r == ""
  {
    if t.nullable then Nullish else ""
  }

  /** `List<E>` is `z.array(E)`; `Map<K, V>` is `z.record(K, V)`, with no key coercion. */
  lemma ZspContainers(t: TypeNode)
    ensures t.decl.qualifiedName == Some("kotlin.collections.List") && |t.args| > 0 && t.args[0].Some? ==>
              ZspResolveType(t) == "z.array(" + ZspResolveType(t.args[0].value) + ")" + NullishSuffix(t)
    ensures t.decl.qualifiedName == Some("kotlin.collections.Map") && |t.args| > 1 && t.args[0].Some? && t.args[1].Some? ==>
              ZspResolveType(t)
              == "z.record(" + ZspResolveType(t.args[0].value) + ", " + ZspResolveType(t.args[1].value) + ")" + NullishSuffix(t)
  {
  }

  /** A list or map whose arguments are missing or star projections gets unknown elements. */
  lemma ZspMissingArguments(t: TypeNode)
    ensures t.decl.qualifiedName == Some("kotlin.collections.List") && (|t.args| == 0 || t.args[0].None?) ==>
              ZspResolveType(t) == "z.array(z.unknown())" + NullishSuffix(t)
    ensures t.decl.qualifiedName == Some("kotlin.collections.Map") && (|t.args| < 2 || t.args[0].None? || t.args[1].None?) ==>
              ZspResolveType(t) == "z.record(z.string(), z.unknown())" + NullishSuffix(t)
  {
  }

  function ZspClassOrUnknown(d: TypeDecl): string
  {
    if d.zodable then d.simpleName + "Schema" else "z.unknown()"
  }

  /** No `kotlinx.datetime.Instant` anywhere in the occurrence. */
  ghost predicate NoInstant(t: TypeNode)
    decreases t
  {
    && t.decl.qualifiedName != Some("kotlinx.datetime.Instant")
    && forall i :: 0 <= i < |t.args| && t.args[i].Some? && t.args[i] in t.args ==> NoInstant(t.args[i].value)
  }

  /**
   * Apart from the `Instant` entry, this processor is the TypeScript
   * generator run without map-key coercion and with `.nullish()` as the
   * optional suffix.
   */
  lemma {:induction false} AgreesWithTypescript(config: GeneratorConfig, t: TypeNode)
    requires config.optionals == Nullish && !config.coerceMapKeys
    requires NoInstant(t)
    ensures ZspResolveType(t) == TypescriptGenerator.TsResolveType(config, t).expr
    decreases t
  {
    if |t.args| > 0 && t.args[0].Some? {
      assert t.args[0] in t.args;
      AgreesWithTypescript(config, t.args[0].value);
    }
    if |t.args| > 1 && t.args[1].Some? {
      assert t.args[1] in t.args;
      AgreesWithTypescript(config, t.args[1].value);
    }
  }

  /**
   * The property's schema: the string first argument of its first
   * `@ZodType`, and the resolution of its type when that annotation is
   * missing or carries no string first argument.
   */
  function ZspResolveProperty(p: Property): (r: string)
    ensures TypescriptGenerator.FirstZodTypeArgument(p.annotations).Some? ==>
              r == TypescriptGenerator.FirstZodTypeArgument(p.annotations).value
    ensures TypescriptGenerator.FirstZodTypeArgument(p.annotations).None? ==> r == ZspResolveType(p.typ)
    ensures (forall i :: 0 <= i < |p.annotations| ==> p.annotations[i].shortName != "ZodType") ==> r == ZspResolveType(p.typ)
    ensures forall i :: 0 <= i < |p.annotations| && p.annotations[i].shortName == "ZodType"
                        && (forall j :: 0 <= j < i ==> p.annotations[j].shortName != "ZodType") ==>
                        if TypescriptGenerator.FirstStringArgument(p.annotations[i]).Some?
                        then r == TypescriptGenerator.FirstStringArgument(p.annotations[i]).value
                        else r == ZspResolveType(p.typ)
  {
    match TypescriptGenerator.FirstZodTypeArgument(p.annotations)
    case Some(s) => s
    case None => ZspResolveType(p.typ)
  }

  function Entries(props: seq<Property>): (r: seq<string>)
    ensures |r| == |props|
    ensures forall i :: 0 <= i < |props| ==> r[i] == props[i].simpleName + ": " + ZspResolveProperty(props[i])
  {
    if |props| == 0 then []
    else
      var rest := Entries(props[1..]);
      assert forall i :: 1 <= i < |props| ==> rest[i - 1] == props[i].simpleName + ": " + ZspResolveProperty(props[i]);
      [props[0].simpleName + ": " + ZspResolveProperty(props[0])] + rest
  }

  /** Every property, with or without a backing field, is a field of the object schema. */
  function ClassBlock(c: ClassDecl): string
  {
    "export const " + c.simpleName + "Schema = z.object({\n    " + Join(Entries(c.properties), ",\n    ") + "\n})\n"
    + "export type " + c.simpleName + " = z.infer<typeof " + c.simpleName + "Schema>\n\n"
  }

  function ClassBlocks(classes: seq<ClassDecl>): (r: seq<string>)
    ensures |r| == |classes| && forall i :: 0 <= i < |classes| ==> r[i] == ClassBlock(classes[i])
  {
    if |classes| == 0 then [] else [ClassBlock(classes[0])] + ClassBlocks(classes[1..])
  }

  const Header: string := "import {z} from \"zod\";\n\n"

  /** One `zodable/schemas.ts` holding every class in order, and no file at all without classes. */
  function Process(classes: seq<ClassDecl>): (r: Option<OutputFile>)
    ensures r.None? <==> |classes| == 0
    ensures r.Some? ==> r.value.path == "zodable/schemas.ts" && StartsWith(r.value.content, Header)
    ensures r.Some? ==> r.value.content == Header + Concat(ClassBlocks(classes))
  {
    if |classes| == 0 then None
    else
      var content := Header + Concat(ClassBlocks(classes));
      assert content[..|Header|] == Header;
      Some(OutputFile("zodable/schemas.ts", content))
  }

  /**
   * For a class whose properties all have backing fields and mention no
   * `Instant`, the fields listed here are the ones the TypeScript generator
   * lists with `.nullish()` and no coercion.
   */
  lemma EntriesAgreeWithTypescript(config: GeneratorConfig, props: seq<Property>)
    requires config.optionals == Nullish && !config.coerceMapKeys
    requires forall i :: 0 <= i < |props| ==> props[i].hasBackingField && NoInstant(props[i].typ)
    ensures TypescriptGenerator.Emitted(props) == props
    ensures Entries(props) == TypescriptGenerator.FieldEntries(config, props)
  {
    TypescriptGenerator.EmittedAll(props);
    var mine := Entries(props);
    var theirs := TypescriptGenerator.FieldEntries(config, props);
    forall i | 0 <= i < |props|
      ensures mine[i] == theirs[i]
    {
      AgreesWithTypescript(config, props[i].typ);
    }
  }
}
