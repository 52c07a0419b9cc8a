/**
 * The backend-independent generator: a type occurrence is resolved to a
 * schema expression plus the imports it needs, property directives are
 * applied, and every class becomes one file, one export and a list of
 * dependencies. The backend supplies the leaf mappings and combinators.
 */
module ZodableGenerator {
  import opened Ir
  import opened Text
  import opened ImportSets
  import opened Directives

  /**
   * The hooks a backend implements. File locations are plain strings:
   * `sourceFolder`, `dependenciesFile`, `indexFile(sourceFolder)` and
   * `classFile(sourceFolder, packagePath, name)`.
   */
  datatype Backend = Backend(
    shouldKeepAnnotation: (string, string) -> bool,
    sourceFolder: string,
    dependenciesFile: string,
    indexFile: string -> string,
    classFile: (string, string, string) -> string,
    defaultImports: ClassDecl -> seq<Import>,
    generateImports: (string, string, seq<Import>) -> string,
    generateIndexExport: seq<Export> -> string,
    generateClassSchema: (string, seq<string>, seq<(string, string)>) -> string,
    generateEnumSchema: (string, seq<string>, seq<string>) -> string,
    resolvePrimitiveType: string -> Option<Schema>,
    resolveZodableType: (string, bool) -> Schema,
    resolveGenericArgument: string -> Schema,
    unknownType: Schema,
    addGenericArguments: (string, seq<string>) -> Schema,
    markAsNullable: string -> Schema)

  /** A resolved occurrence: expression, imports in the order they were collected, warnings logged. */
  datatype Resolution = Resolution(expr: string, imports: seq<Import>, warnings: seq<string>)

  /** The resolved type arguments of one occurrence. */
  datatype Arguments = Arguments(exprs: seq<string>, imports: seq<Import>, warnings: seq<string>)

  /** The base type: its schema, the internal import of a referenced class, and a warning for the fallback. */
  datatype Base = Base(schema: Schema, reference: seq<Import>, warnings: seq<string>)

  /** The `/`-separated path of a class: its package with dots as slashes, then its simple name. */
  function ClassPath(d: TypeDecl): string
  {
    ReplaceChar(d.packageName, '.', '/') + "/" + d.simpleName
  }

  /** The internal import of a `@Zodable` class: the last segment of its path, from that path. */
  function ReferenceImport(d: TypeDecl): Import
  {
    InternalImport(LastSegment(ClassPath(d), '/'), ClassPath(d))
  }

  /** A class is imported under its own simple name, from its path. */
  lemma ReferenceImportNamesClass(d: TypeDecl)
    requires '/' !in d.simpleName
    ensures ReferenceImport(d) == InternalImport(d.simpleName, ClassPath(d))
  {
    LastSegmentOfPath(ReplaceChar(d.packageName, '.', '/'), d.simpleName, '/');
  }

  function UnsupportedWarning(typeName: string, fallback: string): string
  {
    "Unsupported type " + typeName + ", using " + fallback
  }

  /**
   * Base-type lookup in its fixed order: the primitive table, a `@Zodable`
   * class, a type parameter of the enclosing class, and the unknown fallback,
   * which alone logs a warning.
   */
  function ResolveBase(b: Backend, t: TypeNode, typeParameters: seq<string>): (r: Base)
    ensures b.resolvePrimitiveType(QualifiedKey(t.decl)).Some? ==>
              r == Base(b.resolvePrimitiveType(QualifiedKey(t.decl)).value, [], [])
    ensures r.reference != [] <==> b.resolvePrimitiveType(QualifiedKey(t.decl)).None? && t.decl.zodable
    ensures r.reference != [] ==>
              r.reference == [ReferenceImport(t.decl)] && r.warnings == []
              && r.schema == b.resolveZodableType(t.decl.simpleName, t.decl.hasTypeParameters)
    ensures r.warnings != [] <==>
              b.resolvePrimitiveType(QualifiedKey(t.decl)).None? && !t.decl.zodable && t.decl.simpleName !in typeParameters
    ensures r.warnings != [] ==>
              r.schema == b.unknownType && r.reference == []
              && r.warnings == [UnsupportedWarning(t.decl.simpleName, b.unknownType.expr)]
    ensures b.resolvePrimitiveType(QualifiedKey(t.decl)).None? && !t.decl.zodable && t.decl.simpleName in typeParameters ==>
              r == Base(b.resolveGenericArgument(t.decl.simpleName), [], [])
  {
    match b.resolvePrimitiveType(QualifiedKey(t.decl))
    case Some(s) => Base(s, [], [])
    case None =>
      if t.decl.zodable then
        Base(b.resolveZodableType(t.decl.simpleName, t.decl.hasTypeParameters), [ReferenceImport(t.decl)], [])
      else if t.decl.simpleName in typeParameters then
        Base(b.resolveGenericArgument(t.decl.simpleName), [], [])
      else
        Base(b.unknownType, [], [UnsupportedWarning(t.decl.simpleName, b.unknownType.expr)])
  }

  /**
   * Resolves a type occurrence: its arguments first (depth first), then its
   * base type, then generic substitution when it has arguments, then
   * nullability.
   */
  function ResolveType(b: Backend, t: TypeNode, typeParameters: seq<string>): Resolution
    decreases t, 1, 0
  {
    var args := ResolveArgs(b, t, typeParameters, |t.args|);
    var base := ResolveBase(b, t, typeParameters);
    var collected := base.reference + args.imports + base.schema.imports;
    var generic := if |t.args| > 0 then b.addGenericArguments(base.schema.expr, args.exprs) else Schema(base.schema.expr, []);
    var nullable := if t.nullable then b.markAsNullable(generic.expr) else Schema(generic.expr, []);
    Resolution(nullable.expr, collected + generic.imports + nullable.imports, args.warnings + base.warnings)
  }

  /** The resolution of one type argument; a star projection is the unknown type. */
  function ResolveArgument(b: Backend, t: TypeNode, typeParameters: seq<string>, i: nat): Resolution
    requires i < |t.args|
    decreases t, 0, 0
  {
    match t.args[i]
    case None => Resolution(b.unknownType.expr, b.unknownType.imports, [])
    case Some(a) =>
      assert t.args[i] in t.args;
      ResolveType(b, a, typeParameters)
  }

  /** The first `n` arguments of `t`, resolved left to right. */
  function ResolveArgs(b: Backend, t: TypeNode, typeParameters: seq<string>, n: nat): (r: Arguments)
    requires n <= |t.args|
    ensures |r.exprs| == n
    ensures forall i :: 0 <= i < n && t.args[i].None? ==> r.exprs[i] == b.unknownType.expr
    ensures forall i :: 0 <= i < n ==> r.exprs[i] == ResolveArgument(b, t, typeParameters, i).expr
    ensures forall i, x :: 0 <= i < n && x in ResolveArgument(b, t, typeParameters, i).imports ==> x in r.imports
    decreases t, 0, n
  {
    if n == 0 then Arguments([], [], [])
    else
      var prev := ResolveArgs(b, t, typeParameters, n - 1);
      var one := ResolveArgument(b, t, typeParameters, n - 1);
      Arguments(prev.exprs + [one.expr], prev.imports + one.imports, prev.warnings + one.warnings)
  }

  /** `x` is an import of one of the first `n` arguments. */
  ghost predicate ArgumentImport(b: Backend, t: TypeNode, typeParameters: seq<string>, n: nat, x: Import)
    requires n <= |t.args|
  {
    exists i :: 0 <= i < n && x in ResolveArgument(b, t, typeParameters, i).imports
  }

  /** `w` is a warning of one of the first `n` arguments. */
  ghost predicate ArgumentWarning(b: Backend, t: TypeNode, typeParameters: seq<string>, n: nat, w: string)
    requires n <= |t.args|
  {
    exists i :: 0 <= i < n && w in ResolveArgument(b, t, typeParameters, i).warnings
  }

  /** The imports and warnings of the arguments are those of each argument, and nothing else. */
  lemma {:induction false} ResolveArgsContents(b: Backend, t: TypeNode, typeParameters: seq<string>, n: nat)
    requires n <= |t.args|
    ensures forall x :: x in ResolveArgs(b, t, typeParameters, n).imports <==> ArgumentImport(b, t, typeParameters, n, x)
    ensures forall w :: w in ResolveArgs(b, t, typeParameters, n).warnings <==> ArgumentWarning(b, t, typeParameters, n, w)
  {
    if n > 0 {
      ResolveArgsContents(b, t, typeParameters, n - 1);
      var prev := ResolveArgs(b, t, typeParameters, n - 1);
      var one := ResolveArgument(b, t, typeParameters, n - 1);
      var r := ResolveArgs(b, t, typeParameters, n);
      assert r.imports == prev.imports + one.imports;
      assert r.warnings == prev.warnings + one.warnings;
      forall x | x in one.imports
        ensures ArgumentImport(b, t, typeParameters, n, x)
      {
        assert 0 <= n - 1 < n && x in ResolveArgument(b, t, typeParameters, n - 1).imports;
      }
      forall w | w in one.warnings
        ensures ArgumentWarning(b, t, typeParameters, n, w)
      {
        assert 0 <= n - 1 < n && w in ResolveArgument(b, t, typeParameters, n - 1).warnings;
      }
      forall x | ArgumentImport(b, t, typeParameters, n, x)
        ensures x in r.imports
      {
        var i :| 0 <= i < n && x in ResolveArgument(b, t, typeParameters, i).imports;
        if i < n - 1 {
          assert ArgumentImport(b, t, typeParameters, n - 1, x);
        }
      }
      forall w | ArgumentWarning(b, t, typeParameters, n, w)
        ensures w in r.warnings
      {
        var i :| 0 <= i < n && w in ResolveArgument(b, t, typeParameters, i).warnings;
        if i < n - 1 {
          assert ArgumentWarning(b, t, typeParameters, n - 1, w);
        }
      }
      forall x | ArgumentImport(b, t, typeParameters, n - 1, x)
        ensures ArgumentImport(b, t, typeParameters, n, x)
      {
      }
      forall w | ArgumentWarning(b, t, typeParameters, n - 1, w)
        ensures ArgumentWarning(b, t, typeParameters, n, w)
      {
      }
    }
  }

  /** The arguments are resolved left to right: what the first `m` contribute comes first, in every component. */
  lemma {:induction false} ResolveArgsExtends(b: Backend, t: TypeNode, typeParameters: seq<string>, m: nat, n: nat)
    requires m <= n <= |t.args|
    ensures var p := ResolveArgs(b, t, typeParameters, m);
            var r := ResolveArgs(b, t, typeParameters, n);
            p.exprs <= r.exprs && p.imports <= r.imports && p.warnings <= r.warnings
    decreases n - m
  {
    if m < n {
      ResolveArgsExtends(b, t, typeParameters, m, n - 1);
    }
  }

  /** Resolving the arguments looks only at the arguments. */
  lemma {:induction false} ResolveArgsCongruence(b: Backend, t: TypeNode, u: TypeNode, typeParameters: seq<string>, n: nat)
    requires t.args == u.args && n <= |t.args|
    ensures ResolveArgs(b, t, typeParameters, n) == ResolveArgs(b, u, typeParameters, n)
  {
    if n > 0 {
      ResolveArgsCongruence(b, t, u, typeParameters, n - 1);
      assert ResolveArgument(b, t, typeParameters, n - 1) == ResolveArgument(b, u, typeParameters, n - 1);
    }
  }

  /**
   * Nullability is applied last and once: a nullable occurrence is the
   * non-nullable one passed through `markAsNullable`, whose imports come
   * after all others; a non-nullable occurrence is left as it is.
   */
  lemma NullableAppliedLast(b: Backend, t: TypeNode, typeParameters: seq<string>)
    ensures var s := ResolveType(b, t.(nullable := false), typeParameters);
            var r := ResolveType(b, t, typeParameters);
            && (!t.nullable ==> r == s)
            && (t.nullable ==>
                  && r.expr == b.markAsNullable(s.expr).expr
                  && r.imports == s.imports + b.markAsNullable(s.expr).imports
                  && r.warnings == s.warnings)
  {
    ResolveArgsCongruence(b, t, t.(nullable := false), typeParameters, |t.args|);
  }

  /**
   * `addGenericArguments` is used exactly when the occurrence has arguments:
   * without arguments the occurrence resolves like its bare base type, with
   * arguments the base expression is combined with the resolved arguments.
   */
  lemma GenericArgumentsOnlyWithArguments(b: Backend, t: TypeNode, typeParameters: seq<string>)
    requires !t.nullable
    ensures var base := ResolveBase(b, t, typeParameters);
            var r := ResolveType(b, t, typeParameters);
            && (|t.args| == 0 ==>
                  r == Resolution(base.schema.expr, base.reference + base.schema.imports, base.warnings))
            && (|t.args| > 0 ==>
                  r.expr == b.addGenericArguments(base.schema.expr, ResolveArgs(b, t, typeParameters, |t.args|).exprs).expr)
  {
    var base := ResolveBase(b, t, typeParameters);
    if |t.args| == 0 {
      assert base.reference + [] + base.schema.imports + [] + [] == base.reference + base.schema.imports;
      assert [] + base.warnings == base.warnings;
    }
  }

  /** A primitive with arguments: the table's entry combined with the resolved arguments, argument imports first. */
  lemma PrimitiveWithArguments(b: Backend, t: TypeNode, typeParameters: seq<string>, base: Schema)
    requires !t.nullable && |t.args| > 0
    requires b.resolvePrimitiveType(QualifiedKey(t.decl)) == Some(base)
    ensures var args := ResolveArgs(b, t, typeParameters, |t.args|);
            var g := b.addGenericArguments(base.expr, args.exprs);
            ResolveType(b, t, typeParameters) == Resolution(g.expr, args.imports + base.imports + g.imports, args.warnings)
  {
    var args := ResolveArgs(b, t, typeParameters, |t.args|);
    assert [] + args.imports + base.imports == args.imports + base.imports;
    assert args.warnings + [] == args.warnings;
  }

  /** The imports of every type argument are kept, even when the base type ignores its arguments. */
  lemma ArgumentImportsKept(b: Backend, t: TypeNode, typeParameters: seq<string>, i: nat, x: Import)
    requires i < |t.args| && t.args[i].Some?
    requires x in ResolveType(b, t.args[i].value, typeParameters).imports
    ensures x in ResolveType(b, t, typeParameters).imports
  {
    var args := ResolveArgs(b, t, typeParameters, |t.args|);
    assert x in ResolveArgument(b, t, typeParameters, i).imports;
    assert x in args.imports;
  }

  /** Every combinator of the backend asks only for external imports. */
  ghost predicate ExternalCombinators(b: Backend)
  {
    && (forall k :: b.resolvePrimitiveType(k).Some? ==> AllExternal(b.resolvePrimitiveType(k).value.imports))
    && (forall n, g :: AllExternal(b.resolveZodableType(n, g).imports))
    && (forall n :: AllExternal(b.resolveGenericArgument(n).imports))
    && AllExternal(b.unknownType.imports)
    && (forall e, xs :: AllExternal(b.addGenericArguments(e, xs).imports))
    && (forall e :: AllExternal(b.markAsNullable(e).imports))
  }

  predicate AllExternal(imports: seq<Import>)
  {
    forall i :: i in imports ==> i.isExternal
  }

  /** The `@Zodable` classes an occurrence refers to, at any depth, by their internal imports. */
  ghost function References(b: Backend, t: TypeNode): set<Import>
    decreases t, 1, 0
  {
    (if b.resolvePrimitiveType(QualifiedKey(t.decl)).None? && t.decl.zodable then {ReferenceImport(t.decl)} else {})
    + ArgReferences(b, t, |t.args|)
  }

  ghost function ArgReferences(b: Backend, t: TypeNode, n: nat): set<Import>
    requires n <= |t.args|
    decreases t, 0, n
  {
    if n == 0 then {}
    else
      ArgReferences(b, t, n - 1)
      + match t.args[n - 1]
        case None => {}
        case Some(a) =>
          assert t.args[n - 1] in t.args;
          References(b, a)
  }

  /**
   * With a backend whose combinators only ask for external imports, the
   * internal imports of a resolved occurrence are exactly the `@Zodable`
   * classes it refers to.
   */
  lemma {:induction false} InternalImportsAreReferences(b: Backend, t: TypeNode, typeParameters: seq<string>)
    requires ExternalCombinators(b)
    ensures forall x :: x in ResolveType(b, t, typeParameters).imports && !x.isExternal <==> x in References(b, t)
    decreases t, 1, 0
  {
    ArgsInternalImports(b, t, typeParameters, |t.args|);
  }

  lemma {:induction false} ArgsInternalImports(b: Backend, t: TypeNode, typeParameters: seq<string>, n: nat)
    requires ExternalCombinators(b)
    requires n <= |t.args|
    ensures forall x :: x in ResolveArgs(b, t, typeParameters, n).imports && !x.isExternal <==> x in ArgReferences(b, t, n)
    decreases t, 0, n
  {
    if n > 0 {
      ArgsInternalImports(b, t, typeParameters, n - 1);
      match t.args[n - 1]
      case None =>
      case Some(a) =>
        assert t.args[n - 1] in t.args;
        InternalImportsAreReferences(b, a, typeParameters);
    }
  }

  /** A `@ZodIgnore` the backend keeps. */
  predicate Ignored(b: Backend, annotations: seq<Annotation>)
  {
    exists i :: 0 <= i < |annotations| && KeptIgnore(b, annotations[i])
  }

  predicate KeptIgnore(b: Backend, a: Annotation)
  {
    a.shortName == "ZodIgnore" && b.shouldKeepAnnotation("ZodIgnore", DecodeZodIgnore(a).filter)
  }

  /** Every annotation of `kind` before position `k` decodes and is filtered out. */
  predicate SkippedBefore<D>(b: Backend, annotations: seq<Annotation>, kind: string,
                             decode: Annotation -> Result<D>, filterOf: D -> string, k: nat)
    requires k <= |annotations|
  {
    forall j :: 0 <= j < k && annotations[j].shortName == kind ==>
      decode(annotations[j]).Ok? && !b.shouldKeepAnnotation(kind, filterOf(decode(annotations[j]).value))
  }

  /**
   * `firstNotNullOfOrNull` over the annotations of `kind`: each is decoded in
   * order (a decoding error aborts) and the first one whose filter the
   * backend keeps is the answer.
   */
  function FirstKept<D>(b: Backend, annotations: seq<Annotation>, kind: string,
                        decode: Annotation -> Result<D>, filterOf: D -> string): (r: Result<Option<D>>)
    ensures r == Ok(None) <==> SkippedBefore(b, annotations, kind, decode, filterOf, |annotations|)
    ensures r.Ok? && r.value.Some? ==>
              exists i :: 0 <= i < |annotations| && SkippedBefore(b, annotations, kind, decode, filterOf, i)
                          && annotations[i].shortName == kind && decode(annotations[i]) == Ok(r.value.value)
                          && b.shouldKeepAnnotation(kind, filterOf(r.value.value))
    ensures r.Err? ==>
              exists i :: 0 <= i < |annotations| && SkippedBefore(b, annotations, kind, decode, filterOf, i)
                          && annotations[i].shortName == kind && decode(annotations[i]).Err?
    decreases |annotations|
  {
    if |annotations| == 0 then Ok(None)
    else
      var rest := FirstKept(b, annotations[1..], kind, decode, filterOf);
      ShiftSkipped(b, annotations, kind, decode, filterOf);
      if annotations[0].shortName != kind then rest
      else
        match decode(annotations[0])
        case Err(m) => Err(m)
        case Ok(d) => if b.shouldKeepAnnotation(kind, filterOf(d)) then Ok(Some(d)) else rest
  }

  lemma ShiftSkipped<D>(b: Backend, annotations: seq<Annotation>, kind: string,
                        decode: Annotation -> Result<D>, filterOf: D -> string)
    requires |annotations| > 0
    ensures forall k :: 0 <= k < |annotations| ==>
              (SkippedBefore(b, annotations, kind, decode, filterOf, k + 1) <==>
                 SkippedBefore(b, annotations, kind, decode, filterOf, 1)
                 && SkippedBefore(b, annotations[1..], kind, decode, filterOf, k))
  {
    forall k | 0 <= k < |annotations|
      ensures SkippedBefore(b, annotations, kind, decode, filterOf, k + 1) <==>
                SkippedBefore(b, annotations, kind, decode, filterOf, 1)
                && SkippedBefore(b, annotations[1..], kind, decode, filterOf, k)
    {
      if SkippedBefore(b, annotations, kind, decode, filterOf, 1) && SkippedBefore(b, annotations[1..], kind, decode, filterOf, k) {
        forall j | 0 <= j < k + 1 && annotations[j].shortName == kind
          ensures decode(annotations[j]).Ok? && !b.shouldKeepAnnotation(kind, filterOf(decode(annotations[j]).value))
        {
          if j > 0 {
            assert annotations[1..][j - 1] == annotations[j];
          }
        }
      }
      if SkippedBefore(b, annotations, kind, decode, filterOf, k + 1) {
        forall j | 0 <= j < k && annotations[1..][j].shortName == kind
          ensures decode(annotations[1..][j]).Ok? && !b.shouldKeepAnnotation(kind, filterOf(decode(annotations[1..][j]).value))
        {
          assert annotations[1..][j] == annotations[j + 1];
        }
      }
    }
  }

  function TypeFilter(d: ZodType): string { d.filter }
  function OverrideFilter(d: ZodOverrideSchema): string { d.filter }
  function ImportFilter(d: ZodImport): string { d.filter }

  /** The first `@ZodType` the backend keeps. */
  function CustomType(b: Backend, annotations: seq<Annotation>): Result<Option<ZodType>>
  {
    FirstKept(b, annotations, "ZodType", DecodeZodType, TypeFilter)
  }

  /**
   * Resolves a property: `None` when a kept `@ZodIgnore` drops it (checked
   * before any `@ZodType` is decoded), else the first kept `@ZodType` value
   * verbatim with no imports, else the resolution of its declared type.
   */
  function ResolveProperty(b: Backend, p: Property, typeParameters: seq<string>): (r: Result<Option<Resolution>>)
    ensures r == Ok(None) <==> Ignored(b, p.annotations)
    ensures !Ignored(b, p.annotations) ==>
              match CustomType(b, p.annotations)
              case Err(m) => r == Err(m)
              case Ok(Some(d)) => r == Ok(Some(Resolution(d.value, [], [])))
              case Ok(None) => r == Ok(Some(ResolveType(b, p.typ, typeParameters)))
  {
    if Ignored(b, p.annotations) then Ok(None)
    else
      match CustomType(b, p.annotations)
      case Err(m) => Err(m)
      case Ok(Some(d)) => Ok(Some(Resolution(d.value, [], [])))
      case Ok(None) => Ok(Some(ResolveType(b, p.typ, typeParameters)))
  }

  /** A property-level directive as written in Kotlin source. */
  datatype PropertyDirective = IgnoreDirective(ignore: ZodIgnore) | TypeDirective(custom: ZodType)

  function EncodeDirective(d: PropertyDirective): Annotation
  {
    match d
    case IgnoreDirective(i) => EncodeZodIgnore(i)
    case TypeDirective(t) => EncodeZodType(t)
  }

  function EncodeDirectives(ds: seq<PropertyDirective>): (r: seq<Annotation>)
    ensures |r| == |ds| && forall i :: 0 <= i < |ds| ==> r[i] == EncodeDirective(ds[i])
  {
    if |ds| == 0 then [] else [EncodeDirective(ds[0])] + EncodeDirectives(ds[1..])
  }

  /** The backend's filter rejects the directive. */
  predicate FilteredOut(b: Backend, d: PropertyDirective)
  {
    match d
    case IgnoreDirective(i) => !b.shouldKeepAnnotation("ZodIgnore", i.filter)
    case TypeDirective(t) => !b.shouldKeepAnnotation("ZodType", t.filter)
  }

  /** A filtered-out directive is never a kept `@ZodIgnore`. */
  lemma FilteredOutNotIgnoring(b: Backend, d: PropertyDirective)
    requires FilteredOut(b, d)
    ensures !KeptIgnore(b, EncodeDirective(d))
  {
    match d
    case IgnoreDirective(i) => ZodIgnoreRoundTrip(i);
    case TypeDirective(t) =>
  }

  lemma IgnoredSkipsFilteredOut(b: Backend, ds: seq<PropertyDirective>, rest: seq<Annotation>)
    requires forall i :: 0 <= i < |ds| ==> FilteredOut(b, ds[i])
    ensures Ignored(b, EncodeDirectives(ds) + rest) <==> Ignored(b, rest)
  {
    var enc := EncodeDirectives(ds);
    forall i | 0 <= i < |enc|
      ensures !KeptIgnore(b, enc[i])
    {
      EncodedNotIgnoring(b, ds, i);
    }
    if Ignored(b, enc + rest) {
      IgnoredInRest(b, enc, rest);
    }
    if Ignored(b, rest) {
      IgnoredInAll(b, enc, rest);
    }
  }

  /** A kept `@ZodIgnore` behind a prefix without one is in the rest. */
  lemma IgnoredInRest(b: Backend, prefix: seq<Annotation>, rest: seq<Annotation>)
    requires forall i :: 0 <= i < |prefix| ==> !KeptIgnore(b, prefix[i])
    requires Ignored(b, prefix + rest)
    ensures Ignored(b, rest)
  {
    var all := prefix + rest;
    var i :| 0 <= i < |all| && KeptIgnore(b, all[i]);
    assert rest[i - |prefix|] == all[i];
  }

  lemma EncodedNotIgnoring(b: Backend, ds: seq<PropertyDirective>, i: int)
    requires 0 <= i < |ds| && FilteredOut(b, ds[i])
    ensures !KeptIgnore(b, EncodeDirectives(ds)[i])
  {
    FilteredOutNotIgnoring(b, ds[i]);
  }

  lemma IgnoredInAll(b: Backend, prefix: seq<Annotation>, rest: seq<Annotation>)
    requires Ignored(b, rest)
    ensures Ignored(b, prefix + rest)
  {
    var i :| 0 <= i < |rest| && KeptIgnore(b, rest[i]);
    assert (prefix + rest)[i + |prefix|] == rest[i];
  }

  lemma {:induction false} CustomTypeSkipsFilteredOut(b: Backend, ds: seq<PropertyDirective>, rest: seq<Annotation>)
    requires forall i :: 0 <= i < |ds| ==> FilteredOut(b, ds[i])
    ensures CustomType(b, EncodeDirectives(ds) + rest) == CustomType(b, rest)
    decreases |ds|
  {
    var all := EncodeDirectives(ds) + rest;
    if |ds| == 0 {
      assert all == rest;
    } else {
      assert all[1..] == EncodeDirectives(ds[1..]) + rest;
      CustomTypeSkipsFilteredOut(b, ds[1..], rest);
      assert all[0] == EncodeDirective(ds[0]);
      match ds[0]
      case IgnoreDirective(d) =>
        assert all[0].shortName != "ZodType";
      case TypeDirective(d) =>
        ZodTypeRoundTrip(d);
        assert DecodeZodType(all[0]) == Ok(d);
        assert !b.shouldKeepAnnotation("ZodType", TypeFilter(d));
      assert CustomType(b, all) == CustomType(b, all[1..]);
    }
  }

  /**
   * Filter gating: directives whose filter the backend rejects change
   * nothing, neither by ignoring the property nor by overriding its type.
   */
  lemma FilteredOutDirectivesInvisible(b: Backend, ds: seq<PropertyDirective>, p: Property, typeParameters: seq<string>)
    requires forall i :: 0 <= i < |ds| ==> FilteredOut(b, ds[i])
    ensures ResolveProperty(b, p.(annotations := EncodeDirectives(ds) + p.annotations), typeParameters)
            == ResolveProperty(b, p, typeParameters)
  {
    IgnoredSkipsFilteredOut(b, ds, p.annotations);
    CustomTypeSkipsFilteredOut(b, ds, p.annotations);
  }

  /** The field name of a property: its first `@SerialName` value, else its simple name. */
  function FieldName(p: Property): string
  {
    FirstSerialName(p.annotations, p.simpleName)
  }

  function FirstSerialName(annotations: seq<Annotation>, default: string): (r: string)
    ensures (forall i :: 0 <= i < |annotations| ==> annotations[i].shortName != "SerialName") ==> r == default
    ensures forall i :: 0 <= i < |annotations| && annotations[i].shortName == "SerialName"
                        && (forall j :: 0 <= j < i ==> annotations[j].shortName != "SerialName")
                        ==> r == DecodeSerialName(annotations[i])
  {
    if |annotations| == 0 then default
    else if annotations[0].shortName == "SerialName" then DecodeSerialName(annotations[0])
    else
      var r := FirstSerialName(annotations[1..], default);
      assert forall i :: 1 <= i < |annotations| ==> annotations[1..][i - 1] == annotations[i];
      r
  }

  /** The import a `@ZodImport` injects: external, a dependency, with its own invariability. */
  function InjectedImport(d: ZodImport): (i: Import)
    ensures i.name == d.name && i.source == d.source && i.isInvariable == d.isInvariable
    ensures i.isExternal && i.isDependency && i.dependencyVersion.None?
  {
    Import(d.name, d.source, true, d.isInvariable, true, None)
  }

  /** `a` is a `@ZodImport` that decodes, whose filter the backend keeps, and which injects `x`. */
  predicate KeptImport(b: Backend, a: Annotation, x: Import)
  {
    && a.shortName == "ZodImport" && DecodeZodImport(a).Ok?
    && b.shouldKeepAnnotation("ZodImport", DecodeZodImport(a).value.filter)
    && x == InjectedImport(DecodeZodImport(a).value)
  }

  /**
   * `m` is the message of the first `@ZodImport` among `annotations` that
   * does not decode: the one whose decoding throws first when they are
   * decoded front to back.
   */
  predicate FirstImportError(annotations: seq<Annotation>, m: string)
  {
    exists i :: 0 <= i < |annotations| && annotations[i].shortName == "ZodImport"
                && DecodeZodImport(annotations[i]) == Err(m)
                && forall j :: 0 <= j < i && annotations[j].shortName == "ZodImport" ==> DecodeZodImport(annotations[j]).Ok?
  }

  /**
   * The imports the `@ZodImport`s the backend keeps contribute, in order.
   * They are decoded front to back, so the first one that does not decode
   * aborts with its message.
   */
  function ZodImports(b: Backend, annotations: seq<Annotation>): (r: Result<seq<Import>>)
    ensures r.Ok? ==> AllExternal(r.value)
    ensures r.Err? <==> exists i :: 0 <= i < |annotations| && annotations[i].shortName == "ZodImport"
                                   && DecodeZodImport(annotations[i]).Err?
    ensures r.Err? ==> FirstImportError(annotations, r.message)
    ensures r.Ok? ==> forall x :: x in r.value <==> exists i :: 0 <= i < |annotations| && KeptImport(b, annotations[i], x)
    decreases |annotations|
  {
    if |annotations| == 0 then Ok([])
    else
      assert forall i :: 1 <= i < |annotations| ==> annotations[1..][i - 1] == annotations[i];
      if annotations[0].shortName != "ZodImport" then
        var rest :- ZodImports(b, annotations[1..]);
        Ok(rest)
      else
        var d :- DecodeZodImport(annotations[0]);
        var rest :- ZodImports(b, annotations[1..]);
        if b.shouldKeepAnnotation("ZodImport", d.filter)
        then
          assert KeptImport(b, annotations[0], InjectedImport(d));
          Ok([InjectedImport(d)] + rest)
        else Ok(rest)
  }

  /**
   * Of two undecodable `@ZodImport`s, the first decides the message: one
   * without a `name` before one without a `source` fails on the `name`.
   */
  lemma ZodImportsFirstErrorWins(b: Backend)
    ensures ZodImports(b, [Annotation("ZodImport", []),
                           Annotation("ZodImport", [AnnotationArg(Some("name"), StringValue("a"))])])
            == Err("Missing 'name'")
  {
  }

  /** The class-level imports: the backend's defaults, then the kept `@ZodImport`s, as a set. */
  function ClassImports(b: Backend, c: ClassDecl): (r: Result<seq<Import>>)
    ensures r.Ok? <==> ZodImports(b, c.annotations).Ok?
    ensures r.Ok? ==> NoDuplicates(r.value)
    ensures r.Ok? ==> forall i :: i in b.defaultImports(c) ==> i in r.value
    ensures r.Ok? ==> forall x :: x in r.value <==>
              x in b.defaultImports(c) || exists i :: 0 <= i < |c.annotations| && KeptImport(b, c.annotations[i], x)
  {
    var injected :- ZodImports(b, c.annotations);
    Ok(Union(b.defaultImports(c), injected))
  }

  /** The fields of a class body, the class import set and the warnings, accumulated in order. */
  datatype Fields = Fields(pairs: seq<(string, string)>, imports: seq<Import>, warnings: seq<string>)

  /** Whether a property becomes a field: it has a backing field and no kept `@ZodIgnore`. */
  predicate Emitted(b: Backend, p: Property)
  {
    p.hasBackingField && !Ignored(b, p.annotations)
  }

  /** The resolution a property contributes when it becomes a field (empty when it does not resolve). */
  function FieldResolution(b: Backend, typeParameters: seq<string>, p: Property): Resolution
  {
    match ResolveProperty(b, p, typeParameters)
    case Ok(Some(res)) => res
    case _ => Resolution("", [], [])
  }

  /** The properties that become fields, in declaration order. */
  function EmittedProperties(b: Backend, props: seq<Property>): (r: seq<Property>)
    ensures forall p :: p in r <==> p in props && Emitted(b, p)
  {
    if |props| == 0 then []
    else (if Emitted(b, props[0]) then [props[0]] else []) + EmittedProperties(b, props[1..])
  }

  /** A single property becomes a field exactly when it is emitted. */
  lemma EmittedPropertiesSingleton(b: Backend, p: Property)
    ensures EmittedProperties(b, [p]) == (if Emitted(b, p) then [p] else [])
  {
    assert [p][1..] == [];
  }

  /** The filter keeps declaration order: it distributes over concatenation. */
  lemma {:induction false} EmittedPropertiesAppend(b: Backend, xs: seq<Property>, ys: seq<Property>)
    ensures EmittedProperties(b, xs + ys) == EmittedProperties(b, xs) + EmittedProperties(b, ys)
  {
    if |xs| == 0 {
      assert xs + ys == ys;
    } else {
      assert (xs + ys)[0] == xs[0];
      assert (xs + ys)[1..] == xs[1..] + ys;
      EmittedPropertiesAppend(b, xs[1..], ys);
    }
  }

  /** The field of each property in `kept`, in order: its field name and its resolved type. */
  function FieldPairs(b: Backend, typeParameters: seq<string>, kept: seq<Property>): (r: seq<(string, string)>)
    ensures |r| == |kept|
    ensures forall i :: 0 <= i < |kept| ==> r[i] == (FieldName(kept[i]), FieldResolution(b, typeParameters, kept[i]).expr)
  {
    if |kept| == 0 then []
    else [(FieldName(kept[0]), FieldResolution(b, typeParameters, kept[0]).expr)] + FieldPairs(b, typeParameters, kept[1..])
  }

  lemma FieldPairsCons(b: Backend, typeParameters: seq<string>, p: Property, kept: seq<Property>)
    ensures FieldPairs(b, typeParameters, [p] + kept)
            == [(FieldName(p), FieldResolution(b, typeParameters, p).expr)] + FieldPairs(b, typeParameters, kept)
  {
    assert ([p] + kept)[1..] == kept;
  }

  /** The names of the imports the emitted properties among `props` resolve to. */
  function EmittedImportNames(b: Backend, typeParameters: seq<string>, props: seq<Property>): set<string>
  {
    set p, x | p in props && Emitted(b, p) && x in FieldResolution(b, typeParameters, p).imports :: x.name
  }

  lemma EmittedImportNamesCons(b: Backend, typeParameters: seq<string>, props: seq<Property>)
    requires |props| > 0
    ensures EmittedImportNames(b, typeParameters, props)
            == (if Emitted(b, props[0]) then Names(FieldResolution(b, typeParameters, props[0]).imports) else {})
               + EmittedImportNames(b, typeParameters, props[1..])
  {
    assert forall q :: q in props <==> q == props[0] || q in props[1..];
  }

  /** A backing-field property whose resolution fails. */
  predicate FailsToResolve(b: Backend, typeParameters: seq<string>, p: Property)
  {
    p.hasBackingField && ResolveProperty(b, p, typeParameters).Err?
  }

  /**
   * One property's contribution: nothing when it has no backing field or is
   * ignored; otherwise its field, after the earlier ones, and its imports
   * merged into the class's set by name. A resolution error aborts.
   */
  function AddField(b: Backend, typeParameters: seq<string>, p: Property, acc: Fields): (r: Result<Fields>)
    ensures r.Err? <==> FailsToResolve(b, typeParameters, p)
    ensures r.Ok? && !Emitted(b, p) ==> r.value == acc
    ensures r.Ok? && Emitted(b, p) ==>
              var res := FieldResolution(b, typeParameters, p);
              && ResolveProperty(b, p, typeParameters) == Ok(Some(res))
              && r.value.pairs == acc.pairs + [(FieldName(p), res.expr)]
              && Names(r.value.imports) == Names(acc.imports) + Names(res.imports)
              && r.value.warnings == acc.warnings + res.warnings
    ensures r.Ok? ==> acc.imports <= r.value.imports
    ensures r.Ok? && UniqueNames(acc.imports) ==> UniqueNames(r.value.imports)
    ensures r.Ok? ==> PairNames(r.value.pairs) == PairNames(acc.pairs) + (if Emitted(b, p) then {FieldName(p)} else {})
  {
    if !p.hasBackingField then Ok(acc)
    else
      match ResolveProperty(b, p, typeParameters)
      case Err(m) => Err(m)
      case Ok(None) => Ok(acc)
      case Ok(Some(res)) => Ok(AppendField(acc, FieldName(p), res))
  }

  /** The fields after one more field `name` of resolution `res`: its pair, its imports merged by name, its warnings. */
  function AppendField(acc: Fields, name: string, res: Resolution): (r: Fields)
    ensures r.pairs == acc.pairs + [(name, res.expr)]
    ensures Names(r.imports) == Names(acc.imports) + Names(res.imports)
    ensures r.warnings == acc.warnings + res.warnings
    ensures acc.imports <= r.imports
    ensures UniqueNames(acc.imports) ==> UniqueNames(r.imports)
    ensures PairNames(r.pairs) == PairNames(acc.pairs) + {name}
  {
    MergeByNameNames(acc.imports, res.imports);
    PairNamesSnoc(acc.pairs, (name, res.expr));
    Fields(acc.pairs + [(name, res.expr)], MergeByName(acc.imports, res.imports), acc.warnings + res.warnings)
  }

  lemma PairNamesSnoc(pairs: seq<(string, string)>, pair: (string, string))
    ensures PairNames(pairs + [pair]) == PairNames(pairs) + {pair.0}
  {
    assert forall k :: k in pairs + [pair] <==> k in pairs || k == pair;
  }

  function PairNames(pairs: seq<(string, string)>): set<string>
  {
    set k | k in pairs :: k.0
  }

  /** The field names the emitted properties among `props` carry. */
  function EmittedNames(b: Backend, props: seq<Property>): set<string>
  {
    set p | p in props && Emitted(b, p) :: FieldName(p)
  }

  /**
   * Resolves the backing-field properties in order, skipping ignored ones and
   * merging each property's imports into the class's set by name.
   */
  function CollectFields(b: Backend, typeParameters: seq<string>, props: seq<Property>, acc: Fields): (r: Result<Fields>)
    ensures r.Ok? ==> acc.imports <= r.value.imports && acc.pairs <= r.value.pairs
    ensures r.Ok? && UniqueNames(acc.imports) ==> UniqueNames(r.value.imports)
    ensures r.Ok? ==> PairNames(r.value.pairs) == PairNames(acc.pairs) + EmittedNames(b, props)
    decreases |props|
  {
    if |props| == 0 then Ok(acc)
    else
      var next :- AddField(b, typeParameters, props[0], acc);
      var r :- CollectFields(b, typeParameters, props[1..], next);
      EmittedNamesCons(b, props);
      Ok(r)
  }

  /** Collecting fails exactly when some backing-field property fails to resolve. */
  lemma {:induction false} CollectFieldsFails(b: Backend, typeParameters: seq<string>, props: seq<Property>, acc: Fields)
    ensures CollectFields(b, typeParameters, props, acc).Err? <==>
              exists i :: 0 <= i < |props| && FailsToResolve(b, typeParameters, props[i])
    decreases |props|
  {
    if |props| > 0 {
      assert forall i :: 1 <= i < |props| ==> props[1..][i - 1] == props[i];
      var next := AddField(b, typeParameters, props[0], acc);
      if next.Ok? {
        CollectFieldsFails(b, typeParameters, props[1..], next.value);
      }
    }
  }

  /** The fields are those of the emitted properties, in order, each with its resolved type. */
  lemma {:induction false} CollectFieldsPairs(b: Backend, typeParameters: seq<string>, props: seq<Property>, acc: Fields)
    ensures CollectFields(b, typeParameters, props, acc).Ok? ==>
              CollectFields(b, typeParameters, props, acc).value.pairs
              == acc.pairs + FieldPairs(b, typeParameters, EmittedProperties(b, props))
    decreases |props|
  {
    if |props| > 0 && CollectFields(b, typeParameters, props, acc).Ok? {
      var next := AddField(b, typeParameters, props[0], acc).value;
      CollectFieldsPairs(b, typeParameters, props[1..], next);
      FieldPairsStep(b, typeParameters, props, acc.pairs, next.pairs);
    }
  }

  /** The fields one property adds, followed by those of the rest, are the fields of all of them. */
  lemma FieldPairsStep(b: Backend, typeParameters: seq<string>, props: seq<Property>, before: seq<(string, string)>,
                       after: seq<(string, string)>)
    requires |props| > 0
    requires Emitted(b, props[0]) ==> after == before + [(FieldName(props[0]), FieldResolution(b, typeParameters, props[0]).expr)]
    requires !Emitted(b, props[0]) ==> after == before
    ensures after + FieldPairs(b, typeParameters, EmittedProperties(b, props[1..]))
            == before + FieldPairs(b, typeParameters, EmittedProperties(b, props))
  {
    var kept := EmittedProperties(b, props[1..]);
    if Emitted(b, props[0]) {
      var pair := (FieldName(props[0]), FieldResolution(b, typeParameters, props[0]).expr);
      assert EmittedProperties(b, props) == [props[0]] + kept;
      FieldPairsCons(b, typeParameters, props[0], kept);
      SnocThenAppend(before, pair, FieldPairs(b, typeParameters, kept));
    } else {
      assert EmittedProperties(b, props) == kept;
    }
  }

  lemma SnocThenAppend<T>(before: seq<T>, x: T, rest: seq<T>)
    ensures (before + [x]) + rest == before + ([x] + rest)
  {
  }

  /** The class's import names grow by exactly the import names of the emitted properties. */
  lemma {:induction false} CollectFieldsImportNames(b: Backend, typeParameters: seq<string>, props: seq<Property>, acc: Fields)
    ensures CollectFields(b, typeParameters, props, acc).Ok? ==>
              Names(CollectFields(b, typeParameters, props, acc).value.imports)
              == Names(acc.imports) + EmittedImportNames(b, typeParameters, props)
    decreases |props|
  {
    if |props| > 0 && CollectFields(b, typeParameters, props, acc).Ok? {
      var next := AddField(b, typeParameters, props[0], acc).value;
      CollectFieldsImportNames(b, typeParameters, props[1..], next);
      EmittedImportNamesCons(b, typeParameters, props);
    }
  }

  lemma EmittedNamesCons(b: Backend, props: seq<Property>)
    requires |props| > 0
    ensures EmittedNames(b, props) == (if Emitted(b, props[0]) then {FieldName(props[0])} else {}) + EmittedNames(b, props[1..])
  {
    assert forall q :: q in props <==> q == props[0] || q in props[1..];
  }

  /** What one class contributes to a run. */
  datatype ClassOutput = ClassOutput(
    file: OutputFile,
    exported: Export,
    body: string,
    imports: seq<Import>,
    dependencies: seq<string>,
    warnings: seq<string>)

  /** The sources of the imports that are external and dependencies, in order. */
  function DependencySources(imports: seq<Import>): (r: seq<string>)
    ensures forall s :: s in r <==> exists i :: i in imports && i.isExternal && i.isDependency && i.source == s
  {
    if |imports| == 0 then []
    else
      var rest := DependencySources(imports[1..]);
      assert forall i :: i in imports[1..] ==> i in imports;
      assert forall i :: i in imports ==> i == imports[0] || i in imports[1..];
      if imports[0].isExternal && imports[0].isDependency then [imports[0].source] + rest else rest
  }

  function OverriddenSchema(b: Backend, trimIndent: string -> string, c: ClassDecl): Result<Option<string>>
  {
    var o :- FirstKept(b, c.annotations, "ZodOverrideSchema", DecodeZodOverrideSchema, OverrideFilter);
    match o
    case None => Ok(None)
    case Some(d) => Ok(Some(trimIndent(d.content)))
  }

  /** The package of a class as a path: dots become slashes. */
  function PackagePath(c: ClassDecl): string
  {
    ReplaceChar(c.packageName, '.', '/')
  }

  /**
   * Generates one class: a kept `@ZodOverrideSchema` replaces the whole body
   * (no property is resolved); otherwise an enum lists its entries and any
   * other class its fields. The file holds the import block and the body.
   */
  function GenerateClass(b: Backend, trimIndent: string -> string, c: ClassDecl): (r: Result<ClassOutput>)
    ensures r.Ok? ==> r.value.exported == Export(c.simpleName, PackagePath(c))
    ensures r.Ok? ==> r.value.file.path == b.classFile(b.sourceFolder, PackagePath(c), c.simpleName)
    ensures r.Ok? ==>
              r.value.file.content == b.generateImports(b.sourceFolder, r.value.file.path, r.value.imports) + "\n\n" + r.value.body + "\n"
    ensures r.Ok? ==> forall i :: i in b.defaultImports(c) ==> i in r.value.imports
    ensures r.Ok? && ClassImports(b, c).Ok? && UniqueNames(ClassImports(b, c).value) ==> UniqueNames(r.value.imports)
    ensures r.Ok? ==> forall s :: s in r.value.dependencies <==>
              exists i :: i in r.value.imports && i.isExternal && i.isDependency && i.source == s
    ensures ClassImports(b, c).Ok? && OverriddenSchema(b, trimIndent, c).Ok? && OverriddenSchema(b, trimIndent, c).value.Some? ==>
              r.Ok? && r.value.body == OverriddenSchema(b, trimIndent, c).value.value
              && r.value.imports == ClassImports(b, c).value && r.value.warnings == []
  {
    var imports :- ClassImports(b, c);
    var overridden :- OverriddenSchema(b, trimIndent, c);
    var path := PackagePath(c);
    var fields :-
      if overridden.Some? then Ok(Fields([], imports, []))
      else if c.kind == EnumClass then Ok(Fields([], imports, []))
      else CollectFields(b, c.typeParameters, c.properties, Fields([], imports, []));
    var body :=
      if overridden.Some? then overridden.value
      else if c.kind == EnumClass then b.generateEnumSchema(c.simpleName, c.typeParameters, Distinct(c.nestedClasses))
      else b.generateClassSchema(c.simpleName, c.typeParameters, Distinct(fields.pairs));
    var file := b.classFile(b.sourceFolder, path, c.simpleName);
    var content := b.generateImports(b.sourceFolder, file, fields.imports) + "\n\n" + body + "\n";
    Ok(ClassOutput(OutputFile(file, content), Export(c.simpleName, path), body, fields.imports,
                   DependencySources(fields.imports), fields.warnings))
  }

  /** Without an override, an enum's body lists its distinct entries, and it imports exactly the class-level imports. */
  lemma GenerateEnumClass(b: Backend, trimIndent: string -> string, c: ClassDecl)
    requires ClassImports(b, c).Ok? && OverriddenSchema(b, trimIndent, c) == Ok(None) && c.kind == EnumClass
    ensures var r := GenerateClass(b, trimIndent, c);
            && r.Ok?
            && r.value.body == b.generateEnumSchema(c.simpleName, c.typeParameters, Distinct(c.nestedClasses))
            && r.value.imports == ClassImports(b, c).value && r.value.warnings == []
  {
  }

  /** Without an override, any other class is generated from the fields collected from its properties. */
  lemma ObjectClassFromFields(b: Backend, trimIndent: string -> string, c: ClassDecl)
    requires ClassImports(b, c).Ok? && OverriddenSchema(b, trimIndent, c) == Ok(None) && c.kind != EnumClass
    ensures var fields := CollectFields(b, c.typeParameters, c.properties, Fields([], ClassImports(b, c).value, []));
            var r := GenerateClass(b, trimIndent, c);
            && (r.Ok? <==> fields.Ok?)
            && (r.Ok? ==>
                  && r.value.body == b.generateClassSchema(c.simpleName, c.typeParameters, Distinct(fields.value.pairs))
                  && r.value.imports == fields.value.imports)
  {
  }

  /** Without an override, any other class fails exactly when one of its backing-field properties fails to resolve. */
  lemma GenerateObjectClassFails(b: Backend, trimIndent: string -> string, c: ClassDecl)
    requires ClassImports(b, c).Ok? && OverriddenSchema(b, trimIndent, c) == Ok(None) && c.kind != EnumClass
    ensures GenerateClass(b, trimIndent, c).Ok? <==>
              forall i :: 0 <= i < |c.properties| ==> !FailsToResolve(b, c.typeParameters, c.properties[i])
  {
    ObjectClassFromFields(b, trimIndent, c);
    CollectFieldsFails(b, c.typeParameters, c.properties, Fields([], ClassImports(b, c).value, []));
  }

  /**
   * Without an override, the body of any other class lists the emitted
   * properties in order with their resolved types, and its import names are
   * the class-level ones plus those of the emitted properties.
   */
  lemma GenerateObjectClass(b: Backend, trimIndent: string -> string, c: ClassDecl)
    requires ClassImports(b, c).Ok? && OverriddenSchema(b, trimIndent, c) == Ok(None) && c.kind != EnumClass
    requires GenerateClass(b, trimIndent, c).Ok?
    ensures var r := GenerateClass(b, trimIndent, c).value;
            && r.body == b.generateClassSchema(c.simpleName, c.typeParameters,
                           Distinct(FieldPairs(b, c.typeParameters, EmittedProperties(b, c.properties))))
            && Names(r.imports) == Names(ClassImports(b, c).value) + EmittedImportNames(b, c.typeParameters, c.properties)
  {
    var start := Fields([], ClassImports(b, c).value, []);
    ObjectClassFromFields(b, trimIndent, c);
    CollectFieldsPairs(b, c.typeParameters, c.properties, start);
    CollectFieldsImportNames(b, c.typeParameters, c.properties, start);
    EmptyAppend(FieldPairs(b, c.typeParameters, EmittedProperties(b, c.properties)));
  }

  lemma EmptyAppend<T>(xs: seq<T>)
    ensures [] + xs == xs
  {
  }

  /** A class fails when its class-level imports or its override fail to decode. */
  lemma GenerateClassFails(b: Backend, trimIndent: string -> string, c: ClassDecl)
    requires ClassImports(b, c).Err? || OverriddenSchema(b, trimIndent, c).Err?
    ensures GenerateClass(b, trimIndent, c).Err?
  {
  }

  /** Every class of the run, in order; the first failure aborts. */
  function GenerateAll(b: Backend, trimIndent: string -> string, classes: seq<ClassDecl>): (r: Result<seq<ClassOutput>>)
    ensures r.Ok? <==> forall i :: 0 <= i < |classes| ==> GenerateClass(b, trimIndent, classes[i]).Ok?
    ensures r.Ok? ==> |r.value| == |classes|
    ensures r.Ok? ==> forall i :: 0 <= i < |classes| ==> r.value[i] == GenerateClass(b, trimIndent, classes[i]).value
  {
    Traverse((c: ClassDecl) => GenerateClass(b, trimIndent, c), classes)
  }


  /** All files of a run: one per class, then the index, then the dependency list. */
  datatype Generation = Generation(files: seq<OutputFile>, exports: seq<Export>, dependencies: seq<string>, warnings: seq<string>)

  function Exports(outputs: seq<ClassOutput>): (r: seq<Export>)
    ensures |r| == |outputs| && forall i :: 0 <= i < |outputs| ==> r[i] == outputs[i].exported
  {
    if |outputs| == 0 then [] else [outputs[0].exported] + Exports(outputs[1..])
  }

  function Files(outputs: seq<ClassOutput>): (r: seq<OutputFile>)
    ensures |r| == |outputs| && forall i :: 0 <= i < |outputs| ==> r[i] == outputs[i].file
  {
    if |outputs| == 0 then [] else [outputs[0].file] + Files(outputs[1..])
  }

  function AllDependencies(outputs: seq<ClassOutput>): (r: seq<string>)
    ensures forall s :: s in r <==> exists i :: 0 <= i < |outputs| && s in outputs[i].dependencies
  {
    if |outputs| == 0 then []
    else
      var rest := AllDependencies(outputs[1..]);
      assert forall i :: 1 <= i < |outputs| ==> outputs[1..][i - 1] == outputs[i];
      outputs[0].dependencies + rest
  }

  function AllWarnings(outputs: seq<ClassOutput>): seq<string>
  {
    if |outputs| == 0 then [] else outputs[0].warnings + AllWarnings(outputs[1..])
  }

  function Lines(items: seq<string>): (r: string)
  {
    if |items| == 0 then "" else items[0] + "\n" + Lines(items[1..])
  }

  /**
   * A whole run: one file and one export per class in order, the index
   * built from the exports, and the dependency list holding each source of
   * an external dependency import once.
   */
  function GenerateFiles(b: Backend, trimIndent: string -> string, classes: seq<ClassDecl>): (r: Result<Generation>)
    ensures r.Ok? <==> forall i :: 0 <= i < |classes| ==> GenerateClass(b, trimIndent, classes[i]).Ok?
    ensures r.Ok? ==> |r.value.exports| == |classes| && |r.value.files| == |classes| + 2
    ensures r.Ok? ==> forall i :: 0 <= i < |classes| ==> r.value.files[i] == GenerateClass(b, trimIndent, classes[i]).value.file
    ensures r.Ok? ==> forall i :: 0 <= i < |classes| ==>
              r.value.exports[i] == Export(classes[i].simpleName, PackagePath(classes[i]))
    ensures r.Ok? ==>
              r.value.files[|classes|] == OutputFile(b.indexFile(b.sourceFolder), b.generateIndexExport(r.value.exports) + "\n")
    ensures r.Ok? ==> r.value.files[|classes| + 1] == OutputFile(b.dependenciesFile, Lines(r.value.dependencies))
    ensures r.Ok? ==> NoDuplicates(r.value.dependencies)
    ensures r.Ok? ==> forall s :: s in r.value.dependencies <==>
              exists i :: 0 <= i < |classes| && s in GenerateClass(b, trimIndent, classes[i]).value.dependencies
  {
    var outputs :- GenerateAll(b, trimIndent, classes);
    var exports := Exports(outputs);
    var deps := Distinct(AllDependencies(outputs));
    Ok(Generation(
      Files(outputs) + [OutputFile(b.indexFile(b.sourceFolder), b.generateIndexExport(exports) + "\n"),
                        OutputFile(b.dependenciesFile, Lines(deps))],
      exports, deps, AllWarnings(outputs)))
  }
}
