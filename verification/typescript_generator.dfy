/**
 * The stand-alone TypeScript generator: Kotlin types become Zod schema
 * expressions, every class gets its own `.ts` file under `src/`, an index
 * re-exports them all, and the npm packages named by class-level
 * `@ZodImport`s are listed in `dependencies.txt`.
 */
module TypescriptGenerator {
  import opened Ir
  import opened Text
  import opened ImportSets
  import opened ZodableGenerator

  /** A resolved occurrence: the Zod expression, the class paths it imports in order, the warnings logged. */
  datatype TsResolution = TsResolution(expr: string, imports: seq<string>, warnings: seq<string>)

  const ListName: string := "kotlin.collections.List"
  const MapName: string := "kotlin.collections.Map"
  const Unknown: string := "z.unknown()"

  /** The Kotlin types with a fixed Zod schema. */
  const ScalarKeys: set<string> := {
    "kotlin.String", "kotlin.Int", "kotlin.Long", "kotlin.Double", "kotlin.Float", "kotlin.Boolean",
    "kotlinx.datetime.Instant", "dev.kaccelero.models.UUID"}

  function ScalarSchema(q: string): (r: Option<string>)
    ensures r.Some? <==> q in ScalarKeys
    ensures r.Some? ==> StartsWith(r.value, "z.")
  {
    match q
    case "kotlin.String" => Some("z.string()")
    case "kotlin.Int" => Some("z.number().int()")
    case "kotlin.Long" => Some("z.number()")
    case "kotlin.Double" => Some("z.number()")
    case "kotlin.Float" => Some("z.number()")
    case "kotlin.Boolean" => Some("z.boolean()")
    case "kotlinx.datetime.Instant" => Some("z.coerce.date()")
    case "dev.kaccelero.models.UUID" => Some("z.string().uuid()")
    case _ => None
  }

  /**
   * Map-key coercion as the generator writes it: a key schema starting with
   * `z.` has its first `z.` replaced by `z.coerce.`, whatever follows.
   */
  function CoerceKeyAsWritten(key: string): (r: string)
    ensures StartsWith(key, "z.") ==> r == "z.coerce." + key[2..]
    ensures !StartsWith(key, "z.") ==> r == key
  {
    if StartsWith(key, "z.") then ReplaceFirst(key, "z.", "z.coerce.") else key
  }

  /** Map-key coercion that leaves an already coercing key (`z.coerce.date()`) alone. */
  function CoerceKey(key: string): (r: string)
    ensures StartsWith(r, "z.coerce.") <==> StartsWith(key, "z.")
    ensures !StartsWith(key, "z.") ==> r == key
    ensures StartsWith(key, "z.coerce.") ==> r == key
    ensures StartsWith(key, "z.") && !StartsWith(key, "z.coerce.") ==> r == "z.coerce." + key[2..]
  {
    if StartsWith(key, "z.") && !StartsWith(key, "z.coerce.") then "z.coerce." + key[2..] else key
  }

  /** Coercing twice is coercing once. */
  lemma CoerceKeyIdempotent(key: string)
    ensures CoerceKey(CoerceKey(key)) == CoerceKey(key)
  {
    if StartsWith(key, "z.") && !StartsWith(key, "z.coerce.") {
      var r := "z.coerce." + key[2..];
      assert r[..9] == "z.coerce.";
    }
  }

  /** The correction changes nothing except for keys that already coerce. */
  lemma CoerceKeyAgreesWhenNotCoerced(key: string)
    requires !StartsWith(key, "z.coerce.")
    ensures CoerceKey(key) == CoerceKeyAsWritten(key)
  {
  }

  /** As written, the `Instant` key schema is coerced a second time, which Zod does not define. */
  lemma InstantKeyCoercedTwice()
    ensures ScalarSchema("kotlinx.datetime.Instant") == Some("z.coerce.date()")
    ensures CoerceKeyAsWritten("z.coerce.date()") == "z.coerce.coerce.date()"
    ensures CoerceKey("z.coerce.date()") == "z.coerce.date()"
  {
    assert StartsWith("z.coerce.date()", "z.");
    assert "z.coerce.date()"[2..] == "coerce.date()";
  }

  /** The coercion as written is not idempotent: every coerced key is coerced again. */
  lemma CoerceKeyAsWrittenNotIdempotent(key: string)
    requires StartsWith(key, "z.")
    ensures CoerceKeyAsWritten(CoerceKeyAsWritten(key)) == "z.coerce." + "coerce." + key[2..]
    ensures CoerceKeyAsWritten(CoerceKeyAsWritten(key)) != CoerceKeyAsWritten(key)
  {
    var once := "z.coerce." + key[2..];
    assert once[..2] == "z.";
    assert once[2..] == "coerce." + key[2..];
  }

  /** The key schema of a map, coerced as the generator writes it when map keys are to be coerced. */
  function KeyOf(config: GeneratorConfig, key: string): string
  {
    if config.coerceMapKeys then CoerceKeyAsWritten(key) else key
  }

  /**
   * Resolves a type occurrence: its base schema, followed by the configured
   * optional suffix when the occurrence is nullable.
   */
  function TsResolveType(config: GeneratorConfig, t: TypeNode): (r: TsResolution)
    ensures t.nullable ==> r.expr == TsBase(config, t).expr + config.optionals
    ensures !t.nullable ==> r.expr == TsBase(config, t).expr
    decreases t, 1
  {
    var base := TsBase(config, t);
    TsResolution(if t.nullable then base.expr + config.optionals else base.expr, base.imports, base.warnings)
  }

  /**
   * The base schema: a list from its first argument, a map from its first
   * two, a scalar from the table, a `@Zodable` class by its schema name and
   * path, anything else `z.unknown()` with a warning. Missing or star
   * arguments fall back to unknown elements.
   */
  function TsBase(config: GeneratorConfig, t: TypeNode): (r: TsResolution)
    decreases t, 0
  {
    match t.decl.qualifiedName
    case Some(q) =>
      if q == ListName then
        if |t.args| > 0 && t.args[0].Some? then
          assert t.args[0] in t.args;
          var element := TsResolveType(config, t.args[0].value);
          TsResolution("z.array(" + element.expr + ")", element.imports, element.warnings)
        else TsResolution("z.array(z.unknown())", [], [])
      else if q == MapName then
        if |t.args| > 1 && t.args[0].Some? && t.args[1].Some? then
          assert t.args[0] in t.args && t.args[1] in t.args;
          var key := TsResolveType(config, t.args[0].value);
          var value := TsResolveType(config, t.args[1].value);
          TsResolution("z.record(" + KeyOf(config, key.expr) + ", " + value.expr + ")",
                       key.imports + value.imports, key.warnings + value.warnings)
        else TsResolution("z.record(z.string(), z.unknown())", [], [])
      else if ScalarSchema(q).Some? then TsResolution(ScalarSchema(q).value, [], [])
      else TsClassOrUnknown(t.decl)
    case None => TsClassOrUnknown(t.decl)
  }

  function TsClassOrUnknown(d: TypeDecl): (r: TsResolution)
    ensures r.imports != [] <==> d.zodable
    ensures r.warnings != [] <==> !d.zodable
  {
    if d.zodable then TsResolution(d.simpleName + "Schema", [ClassPath(d)], [])
    else TsResolution(Unknown, [], [UnsupportedWarning(d.simpleName, Unknown)])
  }

  /** A nullable occurrence is the non-nullable one followed by the optional suffix, once. */
  lemma OptionalAppliedOnce(config: GeneratorConfig, t: TypeNode)
    ensures var plain := TsResolveType(config, t.(nullable := false));
            var r := TsResolveType(config, t);
            && r.imports == plain.imports && r.warnings == plain.warnings
            && (t.nullable ==> r.expr == plain.expr + config.optionals)
            && (!t.nullable ==> r.expr == plain.expr)
  {
    assert TsBase(config, t) == TsBase(config, t.(nullable := false));
  }

  /** The optional suffix a nullable occurrence gets. */
  function Suffix(config: GeneratorConfig, t: TypeNode): (r: string)
    ensures t.nullable ==> r == config.optionals
    ensures !t.nullable ==> r == ""
  {
    if t.nullable then config.optionals else ""
  }

  /** A table type is its fixed schema, importing and warning nothing. */
  lemma TsScalarOf(config: GeneratorConfig, t: TypeNode)
    requires t.decl.qualifiedName.Some? && t.decl.qualifiedName.value in ScalarKeys
    ensures var r := TsResolveType(config, t);
            && r.expr == ScalarSchema(t.decl.qualifiedName.value).value + Suffix(config, t)
            && r.imports == [] && r.warnings == []
  {
  }

  /** `List<E>` is `z.array(E)`, with the imports and warnings of `E`, for every element type. */
  lemma TsListOf(config: GeneratorConfig, t: TypeNode)
    requires t.decl.qualifiedName == Some(ListName) && |t.args| > 0 && t.args[0].Some?
    ensures var e := TsResolveType(config, t.args[0].value);
            var r := TsResolveType(config, t);
            && r.expr == "z.array(" + e.expr + ")" + Suffix(config, t)
            && r.imports == e.imports && r.warnings == e.warnings
  {
  }

  /**
   * `Map<K, V>` is `z.record(K, V)`, importing the classes of `K` then those
   * of `V`; with map keys coerced, a key starting with `z.` has its first
   * `z.` rewritten to `z.coerce.`, even when it already coerces.
   */
  lemma TsMapOf(config: GeneratorConfig, t: TypeNode)
    requires t.decl.qualifiedName == Some(MapName) && |t.args| > 1 && t.args[0].Some? && t.args[1].Some?
    ensures var k := TsResolveType(config, t.args[0].value);
            var v := TsResolveType(config, t.args[1].value);
            var key := if config.coerceMapKeys && StartsWith(k.expr, "z.") then "z.coerce." + k.expr[2..] else k.expr;
            var r := TsResolveType(config, t);
            && r.expr == "z.record(" + key + ", " + v.expr + ")" + Suffix(config, t)
            && r.imports == k.imports + v.imports && r.warnings == k.warnings + v.warnings
  {
  }

  /** A list or map whose arguments are missing or star projections gets unknown elements, silently. */
  lemma TsMissingArguments(config: GeneratorConfig, t: TypeNode)
    ensures t.decl.qualifiedName == Some(ListName) && (|t.args| == 0 || t.args[0].None?) ==>
              TsResolveType(config, t) == TsResolution("z.array(z.unknown())" + Suffix(config, t), [], [])
    ensures t.decl.qualifiedName == Some(MapName) && (|t.args| < 2 || t.args[0].None? || t.args[1].None?) ==>
              TsResolveType(config, t) == TsResolution("z.record(z.string(), z.unknown())" + Suffix(config, t), [], [])
  {
  }

  /** Any other type that is not a `@Zodable` class is `z.unknown()`, with one warning naming it. */
  lemma TsUnknownOf(config: GeneratorConfig, t: TypeNode)
    requires !t.decl.zodable
    requires t.decl.qualifiedName.Some? ==>
               var q := t.decl.qualifiedName.value; q != ListName && q != MapName && q !in ScalarKeys
    ensures TsResolveType(config, t)
            == TsResolution(Unknown + Suffix(config, t), [], [UnsupportedWarning(t.decl.simpleName, Unknown)])
  {
    assert TsBase(config, t) == TsClassOrUnknown(t.decl);
  }

  /** As written, a `Map<Instant, V>` with map keys coerced gets the key `z.coerce.coerce.date()`. */
  lemma InstantMapKeyAsWritten(config: GeneratorConfig, instant: TypeDecl, s: TypeDecl)
    requires config.coerceMapKeys
    requires instant.qualifiedName == Some("kotlinx.datetime.Instant") && s.qualifiedName == Some("kotlin.String")
    ensures var t := TypeNode(TypeDecl(Some(MapName), "Map", "kotlin.collections", false, true), false,
                              [Some(TypeNode(instant, false, [])), Some(TypeNode(s, false, []))]);
            TsResolveType(config, t).expr == "z.record(" + "z.coerce.coerce.date()" + ", " + "z.string()" + ")"
  {
    var t := TypeNode(TypeDecl(Some(MapName), "Map", "kotlin.collections", false, true), false,
                      [Some(TypeNode(instant, false, [])), Some(TypeNode(s, false, []))]);
    var k := TsResolveType(config, TypeNode(instant, false, []));
    var v := TsResolveType(config, TypeNode(s, false, []));
    assert k.expr == "z.coerce.date()" by {
      TsScalarOf(config, TypeNode(instant, false, []));
    }
    assert v.expr == "z.string()" by {
      TsScalarOf(config, TypeNode(s, false, []));
    }
    assert KeyOf(config, k.expr) == "z.coerce.coerce.date()" by {
      InstantKeyCoercedTwice();
    }
    assert TsResolveType(config, t).expr == "z.record(" + KeyOf(config, k.expr) + ", " + v.expr + ")" by {
      assert t.args[0].value == TypeNode(instant, false, []) && t.args[1].value == TypeNode(s, false, []);
      assert TsResolveType(config, t).expr == TsBase(config, t).expr;
    }
  }

  /** The path `x` is that of a `@Zodable` class named anywhere in the occurrence, arguments included. */
  ghost predicate Mentions(t: TypeNode, x: string)
    decreases t
  {
    || (t.decl.zodable && ClassPath(t.decl) == x)
    || exists i :: 0 <= i < |t.args| && t.args[i].Some? && t.args[i] in t.args && Mentions(t.args[i].value, x)
  }

  /** Only classes the type names are imported (arguments of a class reference are not even looked at). */
  lemma {:induction false} TsImportsAreMentioned(config: GeneratorConfig, t: TypeNode, x: string)
    requires x in TsResolveType(config, t).imports
    ensures Mentions(t, x)
    decreases t
  {
    var q := t.decl.qualifiedName;
    if q == Some(ListName) && |t.args| > 0 && t.args[0].Some? {
      assert t.args[0] in t.args;
      TsImportsAreMentioned(config, t.args[0].value, x);
    } else if q == Some(MapName) && |t.args| > 1 && t.args[0].Some? && t.args[1].Some? {
      assert t.args[0] in t.args && t.args[1] in t.args;
      if x in TsResolveType(config, t.args[0].value).imports {
        TsImportsAreMentioned(config, t.args[0].value, x);
      } else {
        TsImportsAreMentioned(config, t.args[1].value, x);
      }
    }
  }

  /** Map-key coercion rewrites schema text only: the imports and warnings of any occurrence do not depend on it. */
  lemma {:induction false} CoercionKeepsImportsAndWarnings(config: GeneratorConfig, t: TypeNode)
    ensures TsResolveType(config.(coerceMapKeys := true), t).imports == TsResolveType(config.(coerceMapKeys := false), t).imports
    ensures TsResolveType(config.(coerceMapKeys := true), t).warnings == TsResolveType(config.(coerceMapKeys := false), t).warnings
    decreases t
  {
    var q := t.decl.qualifiedName;
    if q == Some(ListName) && |t.args| > 0 && t.args[0].Some? {
      assert t.args[0] in t.args;
      CoercionKeepsImportsAndWarnings(config, t.args[0].value);
    } else if q == Some(MapName) && |t.args| > 1 && t.args[0].Some? && t.args[1].Some? {
      assert t.args[0] in t.args && t.args[1] in t.args;
      CoercionKeepsImportsAndWarnings(config, t.args[0].value);
      CoercionKeepsImportsAndWarnings(config, t.args[1].value);
    }
  }

  /**
   * A reference to a `@Zodable` class outside the fixed table imports one
   * path, and the import line written for that path brings in exactly the
   * schema name the expression uses.
   */
  lemma ReferenceImportLineNamesSchema(config: GeneratorConfig, t: TypeNode)
    requires t.decl.zodable && '/' !in t.decl.simpleName
    requires t.decl.qualifiedName.Some? ==>
               var q := t.decl.qualifiedName.value; q != ListName && q != MapName && q !in ScalarKeys
    ensures var r := TsResolveType(config, t);
            && r.imports == [ClassPath(t.decl)]
            && SchemaImportLines(r.imports) == ["import {" + TsBase(config, t).expr + "} from 'src/" + ClassPath(t.decl) + "'\n"]
  {
    var path := ClassPath(t.decl);
    LastSegmentOfPath(ReplaceChar(t.decl.packageName, '.', '/'), t.decl.simpleName, '/');
    assert TsBase(config, t) == TsResolution(t.decl.simpleName + "Schema", [path], []);
    assert "import {" + LastSegment(path, '/') + "Schema} from 'src/" + path + "'\n"
        == "import {" + (t.decl.simpleName + "Schema") + "} from 'src/" + path + "'\n";
  }

  /**
   * The property's schema: the first argument of its first `@ZodType`, when
   * that argument is a string, and the resolution of its type otherwise.
   */
  function TsResolveProperty(config: GeneratorConfig, p: Property): (r: TsResolution)
    ensures FirstZodTypeArgument(p.annotations).Some? ==> r == TsResolution(FirstZodTypeArgument(p.annotations).value, [], [])
    ensures FirstZodTypeArgument(p.annotations).None? ==> r == TsResolveType(config, p.typ)
    ensures (forall i :: 0 <= i < |p.annotations| ==> p.annotations[i].shortName != "ZodType") ==> r == TsResolveType(config, p.typ)
    ensures forall i :: 0 <= i < |p.annotations| && p.annotations[i].shortName == "ZodType"
                        && (forall j :: 0 <= j < i ==> p.annotations[j].shortName != "ZodType") ==>
                        if FirstStringArgument(p.annotations[i]).Some?
                        then r == TsResolution(FirstStringArgument(p.annotations[i]).value, [], [])
                        else r == TsResolveType(config, p.typ)
  {
    match FirstZodTypeArgument(p.annotations)
    case Some(s) => TsResolution(s, [], [])
    case None => TsResolveType(config, p.typ)
  }

  /** The schema text an annotation carries: its first argument, when that is a string. */
  function FirstStringArgument(a: Annotation): (r: Option<string>)
    ensures r.Some? <==> |a.arguments| > 0 && a.arguments[0].value.StringValue?
    ensures r.Some? ==> r.value == a.arguments[0].value.s
  {
    if |a.arguments| > 0 && a.arguments[0].value.StringValue? then Some(a.arguments[0].value.s) else None
  }

  /**
   * The first `@ZodType` decides alone: its first argument when that is a
   * string, and nothing otherwise, whatever later `@ZodType`s carry.
   */
  function FirstZodTypeArgument(annotations: seq<Annotation>): (r: Option<string>)
    ensures r.Some? ==> exists i :: 0 <= i < |annotations| && annotations[i].shortName == "ZodType"
    ensures (forall i :: 0 <= i < |annotations| ==> annotations[i].shortName != "ZodType") ==> r.None?
    ensures forall i :: 0 <= i < |annotations| && annotations[i].shortName == "ZodType"
                        && (forall j :: 0 <= j < i ==> annotations[j].shortName != "ZodType")
                        ==> r == FirstStringArgument(annotations[i])
  {
    if |annotations| == 0 then None
    else if annotations[0].shortName == "ZodType" then FirstStringArgument(annotations[0])
    else
      var r := FirstZodTypeArgument(annotations[1..]);
      assert forall i :: 0 <= i < |annotations| - 1 ==> annotations[1..][i] == annotations[i + 1];
      r
  }

  /** Annotations after a `@ZodType` never change the override. */
  lemma {:induction false} FirstZodTypeDecides(annotations: seq<Annotation>, more: seq<Annotation>)
    requires exists i :: 0 <= i < |annotations| && annotations[i].shortName == "ZodType"
    ensures FirstZodTypeArgument(annotations + more) == FirstZodTypeArgument(annotations)
  {
    assert (annotations + more)[0] == annotations[0];
    if annotations[0].shortName != "ZodType" {
      var i :| 0 <= i < |annotations| && annotations[i].shortName == "ZodType";
      assert annotations[1..][i - 1] == annotations[i];
      assert (annotations + more)[1..] == annotations[1..] + more;
      FirstZodTypeDecides(annotations[1..], more);
    }
  }

  /** The properties emitted for an object: those with a backing field, in order. */
  function Emitted(props: seq<Property>): (r: seq<Property>)
    ensures forall p :: p in r <==> p in props && p.hasBackingField
    ensures |r| <= |props|
  {
    if |props| == 0 then []
    else (if props[0].hasBackingField then [props[0]] else []) + Emitted(props[1..])
  }

  /** A single property is emitted exactly when it has a backing field. */
  lemma EmittedSingleton(p: Property)
    ensures Emitted([p]) == (if p.hasBackingField then [p] else [])
  {
    assert [p][1..] == [];
  }

  /** Emission keeps the order of the properties: it distributes over concatenation. */
  lemma {:induction false} EmittedAppend(a: seq<Property>, b: seq<Property>)
    ensures Emitted(a + b) == Emitted(a) + Emitted(b)
  {
    if |a| == 0 {
      assert a + b == b;
    } else {
      assert (a + b)[0] == a[0];
      assert (a + b)[1..] == a[1..] + b;
      EmittedAppend(a[1..], b);
    }
  }

  /** When every property has a backing field, all of them are emitted, in order. */
  lemma {:induction false} EmittedAll(props: seq<Property>)
    requires forall i :: 0 <= i < |props| ==> props[i].hasBackingField
    ensures Emitted(props) == props
  {
    if |props| > 0 {
      EmittedAll(props[1..]);
      assert props == [props[0]] + props[1..];
    }
  }

  function FieldEntries(config: GeneratorConfig, props: seq<Property>): (r: seq<string>)
    ensures |r| == |props|
    ensures forall i :: 0 <= i < |props| ==> r[i] == props[i].simpleName + ": " + TsResolveProperty(config, props[i]).expr
  {
    if |props| == 0 then []
    else [props[0].simpleName + ": " + TsResolveProperty(config, props[0]).expr] + FieldEntries(config, props[1..])
  }

  /** The class paths imported by the properties, in the order they were resolved (repeats included). */
  function PropertyImports(config: GeneratorConfig, props: seq<Property>): (r: seq<string>)
    ensures forall x :: x in r <==> exists i :: 0 <= i < |props| && x in TsResolveProperty(config, props[i]).imports
  {
    if |props| == 0 then []
    else
      var rest := PropertyImports(config, props[1..]);
      assert forall i :: 0 <= i < |props| - 1 ==> props[1..][i] == props[i + 1];
      TsResolveProperty(config, props[0]).imports + rest
  }

  function PropertyWarnings(config: GeneratorConfig, props: seq<Property>): seq<string>
  {
    if |props| == 0 then [] else TsResolveProperty(config, props[0]).warnings + PropertyWarnings(config, props[1..])
  }

  /** A class-level `@ZodImport`: its first and last arguments, when both are strings. */
  function TsExternalImport(a: Annotation): Option<(string, string)>
  {
    if a.shortName == "ZodImport" && |a.arguments| > 0
       && a.arguments[0].value.StringValue? && a.arguments[|a.arguments| - 1].value.StringValue?
    then Some((a.arguments[0].value.s, a.arguments[|a.arguments| - 1].value.s))
    else None
  }

  function ExternalImports(annotations: seq<Annotation>): (r: seq<(string, string)>)
    ensures forall e :: e in r <==> exists i :: 0 <= i < |annotations| && TsExternalImport(annotations[i]) == Some(e)
  {
    if |annotations| == 0 then []
    else
      var rest := ExternalImports(annotations[1..]);
      assert forall i :: 0 <= i < |annotations| - 1 ==> annotations[1..][i] == annotations[i + 1];
      (match TsExternalImport(annotations[0]) case Some(e) => [e] case None => []) + rest
  }

  function SchemaImportLines(paths: seq<string>): (r: seq<string>)
    ensures |r| == |paths|
    ensures forall i :: 0 <= i < |paths| ==>
              r[i] == "import {" + LastSegment(paths[i], '/') + "Schema} from 'src/" + paths[i] + "'\n"
  {
    if |paths| == 0 then []
    else ["import {" + LastSegment(paths[0], '/') + "Schema} from 'src/" + paths[0] + "'\n"] + SchemaImportLines(paths[1..])
  }

  function ExternalImportLines(imports: seq<(string, string)>): (r: seq<string>)
    ensures |r| == |imports|
    ensures forall i :: 0 <= i < |imports| ==> r[i] == "import {" + imports[i].0 + "Schema} from '" + imports[i].1 + "'\n"
  {
    if |imports| == 0 then []
    else ["import {" + imports[0].0 + "Schema} from '" + imports[0].1 + "'\n"] + ExternalImportLines(imports[1..])
  }

  function EnumEntries(names: seq<string>): (r: seq<string>)
    ensures |r| == |names| && forall i :: 0 <= i < |names| ==> r[i] == "\"" + names[i] + "\""
  {
    if |names| == 0 then [] else ["\"" + names[0] + "\""] + EnumEntries(names[1..])
  }

  /** What the generator produces for one class. */
  datatype TsClassOutput = TsClassOutput(
    file: OutputFile,
    indexLine: string,
    imports: seq<string>,
    packages: seq<string>,
    warnings: seq<string>)

  function SchemaBody(config: GeneratorConfig, c: ClassDecl): string
  {
    if c.kind == EnumClass then "z.enum([\n  " + Join(EnumEntries(c.nestedClasses), ", ") + "\n])\n"
    else "z.object({\n  " + Join(FieldEntries(config, Emitted(c.properties)), ",\n  ") + "\n})\n"
  }

  /** The inferred type alias, only when type inference is configured; it names the class and its schema. */
  function InferLine(config: GeneratorConfig, c: ClassDecl): (r: string)
    ensures r != "" <==> config.inferTypes
    ensures config.inferTypes ==> StartsWith(r, "export type " + c.simpleName + " = ")
  {
    if config.inferTypes then "export type " + c.simpleName + " = z.infer<typeof " + c.simpleName + "Schema>\n" else ""
  }

  /** The imported class paths of a class: each once, in first-use order; none for an enum. */
  function ClassPaths(config: GeneratorConfig, c: ClassDecl): (r: seq<string>)
    ensures NoDuplicates(r)
    ensures c.kind == EnumClass ==> r == []
    ensures c.kind != EnumClass ==>
              forall x :: x in r <==> exists p :: p in c.properties && p.hasBackingField && x in TsResolveProperty(config, p).imports
  {
    if c.kind == EnumClass then []
    else
      var emitted := Emitted(c.properties);
      var r := Distinct(PropertyImports(config, emitted));
      assert forall x :: x in r <==> exists i :: 0 <= i < |emitted| && x in TsResolveProperty(config, emitted[i]).imports;
      assert forall p :: p in emitted <==> p in c.properties && p.hasBackingField;
      r
  }

  /** The packages named by the string `@ZodImport`s of a class, in order. */
  function Packages(annotations: seq<Annotation>): (r: seq<string>)
    ensures forall x :: x in r <==>
              exists i :: 0 <= i < |annotations| && TsExternalImport(annotations[i]).Some?
                          && TsExternalImport(annotations[i]).value.1 == x
  {
    if |annotations| == 0 then []
    else
      var rest := Packages(annotations[1..]);
      assert forall i :: 0 <= i < |annotations| - 1 ==> annotations[1..][i] == annotations[i + 1];
      (match TsExternalImport(annotations[0]) case Some(e) => [e.1] case None => []) + rest
  }

  /**
   * The class file, written piece by piece: the `zod` import, one line per
   * imported class path, one per string `@ZodImport`, a blank line, the
   * schema constant and, when configured, the inferred type.
   */
  lemma ClassTextLayout(config: GeneratorConfig, c: ClassDecl)
    ensures ClassText(config, c)
            == Concat(["import {z} from 'zod'\n"] + SchemaImportLines(ClassPaths(config, c))
                      + ExternalImportLines(ExternalImports(c.annotations))
                      + ["\nexport const " + c.simpleName + "Schema = ", SchemaBody(config, c), InferLine(config, c)])
  {
    var schemas := SchemaImportLines(ClassPaths(config, c));
    var externals := ExternalImportLines(ExternalImports(c.annotations));
    var tail := ["\nexport const " + c.simpleName + "Schema = ", SchemaBody(config, c), InferLine(config, c)];
    ConcatAppend(["import {z} from 'zod'\n"] + schemas + externals, tail);
    ConcatAppend(["import {z} from 'zod'\n"] + schemas, externals);
    ConcatAppend(["import {z} from 'zod'\n"], schemas);
    ConcatThree(tail[0], tail[1], tail[2]);
    assert Concat(["import {z} from 'zod'\n"]) == "import {z} from 'zod'\n" + Concat([]);
    RegroupClassText("import {z} from 'zod'\n", Concat(schemas), Concat(externals), "\nexport const ", c.simpleName,
                     "Schema = ", SchemaBody(config, c), InferLine(config, c));
  }

  lemma RegroupClassText<T>(h: seq<T>, a: seq<T>, b: seq<T>, x: seq<T>, n: seq<T>, y: seq<T>, body: seq<T>, tail: seq<T>)
    ensures h + (a + b + x + n + y + body + tail) == h + a + b + (x + n + y + body + tail)
  {
  }

  /** The text of a class file. */
  function ClassText(config: GeneratorConfig, c: ClassDecl): (r: string)
    ensures StartsWith(r, "import {z} from 'zod'\n")
  {
    var head := "import {z} from 'zod'\n";
    var r := head + (Concat(SchemaImportLines(ClassPaths(config, c))) + Concat(ExternalImportLines(ExternalImports(c.annotations)))
                     + "\nexport const " + c.simpleName + "Schema = " + SchemaBody(config, c) + InferLine(config, c));
    assert r[..|head|] == head;
    r
  }

  /**
   * The class file: the `zod` import, one import per class path, one per
   * string `@ZodImport`, then the schema constant and the optional type.
   */
  function TsClass(config: GeneratorConfig, c: ClassDecl): (r: TsClassOutput)
    ensures r.file.path == config.outputPath + "/src/" + ReplaceChar(c.packageName, '.', '/') + "/" + c.simpleName + ".ts"
    ensures r.indexLine == "export * from 'src/" + ReplaceChar(c.packageName, '.', '/') + "/" + c.simpleName + "'\n"
    ensures StartsWith(r.file.content, "import {z} from 'zod'\n")
    ensures r.imports == ClassPaths(config, c)
    ensures r.packages == Packages(c.annotations)
    ensures c.kind == EnumClass ==> r.warnings == []
  {
    var pkg := ReplaceChar(c.packageName, '.', '/');
    TsClassOutput(
      OutputFile(config.outputPath + "/src/" + pkg + "/" + c.simpleName + ".ts", ClassText(config, c)),
      "export * from 'src/" + pkg + "/" + c.simpleName + "'\n",
      ClassPaths(config, c),
      Packages(c.annotations),
      if c.kind == EnumClass then [] else PropertyWarnings(config, Emitted(c.properties)))
  }

  /** The index file, one class file per class and the dependency list, with the warnings logged. */
  datatype TsGeneration = TsGeneration(files: seq<OutputFile>, dependencies: seq<string>, warnings: seq<string>)

  function ClassFiles(config: GeneratorConfig, classes: seq<ClassDecl>): (r: seq<OutputFile>)
    ensures |r| == |classes| && forall i :: 0 <= i < |classes| ==> r[i] == TsClass(config, classes[i]).file
  {
    if |classes| == 0 then [] else [TsClass(config, classes[0]).file] + ClassFiles(config, classes[1..])
  }

  function IndexLines(config: GeneratorConfig, classes: seq<ClassDecl>): (r: seq<string>)
    ensures |r| == |classes| && forall i :: 0 <= i < |classes| ==> r[i] == TsClass(config, classes[i]).indexLine
  {
    if |classes| == 0 then [] else [TsClass(config, classes[0]).indexLine] + IndexLines(config, classes[1..])
  }

  function AllPackages(classes: seq<ClassDecl>): (r: seq<string>)
    ensures forall x :: x in r <==> exists i :: 0 <= i < |classes| && x in Packages(classes[i].annotations)
  {
    if |classes| == 0 then []
    else
      var rest := AllPackages(classes[1..]);
      assert forall i :: 0 <= i < |classes| - 1 ==> classes[1..][i] == classes[i + 1];
      Packages(classes[0].annotations) + rest
  }

  function AllTsWarnings(config: GeneratorConfig, classes: seq<ClassDecl>): seq<string>
  {
    if |classes| == 0 then [] else TsClass(config, classes[0]).warnings + AllTsWarnings(config, classes[1..])
  }

  function DependencyLines(packages: seq<string>): (r: seq<string>)
    ensures |r| == |packages| && forall i :: 0 <= i < |packages| ==> r[i] == packages[i] + "\n"
  {
    if |packages| == 0 then [] else [packages[0] + "\n"] + DependencyLines(packages[1..])
  }

  /**
   * The whole run: one file per class in order, then `src/index.ts`
   * re-exporting every class in order, then `dependencies.txt` naming every
   * imported package once.
   */
  function TsGenerateFiles(config: GeneratorConfig, classes: seq<ClassDecl>): (r: TsGeneration)
    ensures |r.files| == |classes| + 2
    ensures forall i :: 0 <= i < |classes| ==> r.files[i] == TsClass(config, classes[i]).file
    ensures r.files[|classes|] == OutputFile(config.outputPath + "/src/index.ts", Concat(IndexLines(config, classes)))
    ensures r.files[|classes| + 1] == OutputFile(config.outputPath + "/dependencies.txt", Concat(DependencyLines(r.dependencies)))
    ensures NoDuplicates(r.dependencies)
    ensures forall x :: x in r.dependencies <==> exists i :: 0 <= i < |classes| && x in Packages(classes[i].annotations)
  {
    var dependencies := Distinct(AllPackages(classes));
    var files := ClassFiles(config, classes)
                 + [OutputFile(config.outputPath + "/src/index.ts", Concat(IndexLines(config, classes))),
                    OutputFile(config.outputPath + "/dependencies.txt", Concat(DependencyLines(dependencies)))];
    TsGeneration(files, dependencies, AllTsWarnings(config, classes))
  }
}
