/**
 * The immutable input model of the generators: the symbol information the
 * Kotlin annotation processor reads from the compiler (type occurrences,
 * properties, class declarations and their raw annotations), the `Import`
 * and `Export` records of the generator configuration, and the run options.
 */
module Ir {

  datatype Option<+T> = None | Some(value: T)

  /** A fatal error (a Kotlin `error(...)`) aborts the whole generation run. */
  datatype Result<+T> = Ok(value: T) | Err(message: string) {
    predicate IsFailure() { Err? }
    function PropagateFailure<U>(): Result<U>
      requires Err?
    {
      Err(message)
    }
    function Extract(): T
      requires Ok?
    {
      value
    }
  }

  /** Applies `f` to every element in order; the first failure aborts, as a Kotlin `error(...)` inside `map` does. */
  function Traverse<T, U>(f: T -> Result<U>, xs: seq<T>): (r: Result<seq<U>>)
    ensures r.Ok? <==> forall i :: 0 <= i < |xs| ==> f(xs[i]).Ok?
    ensures r.Ok? ==> |r.value| == |xs| && forall i :: 0 <= i < |xs| ==> r.value[i] == f(xs[i]).value
    ensures r.Err? ==> exists i :: 0 <= i < |xs| && f(xs[i]) == Err(r.message)
                                   && forall j :: 0 <= j < i ==> f(xs[j]).Ok?
  {
    if |xs| == 0 then Ok([])
    else
      match f(xs[0])
      case Err(m) => Err(m)
      case Ok(first) =>
        var rest := Traverse(f, xs[1..]);
        assert forall i :: 1 <= i < |xs| ==> xs[1..][i - 1] == xs[i];
        if rest.Err? then
          var k :| 0 <= k < |xs| - 1 && f(xs[1..][k]) == Err(rest.message) && forall j :: 0 <= j < k ==> f(xs[1..][j]).Ok?;
          assert f(xs[k + 1]) == Err(rest.message);
          Err(rest.message)
        else Ok([first] + rest.value)
  }

  /** An import required by generated code. */
  datatype Import = Import(
    name: string,
    source: string,
    isExternal: bool,
    isInvariable: bool,
    isDependency: bool,
    dependencyVersion: Option<string>)

  /** `Import(name, source)` with the declared defaults of the record. */
  function InternalImport(name: string, source: string): (i: Import)
    ensures i.name == name && i.source == source
    ensures !i.isExternal && !i.isInvariable && i.isDependency && i.dependencyVersion.None?
  {
    Import(name, source, false, false, true, None)
  }

  /** `Import(name, source, isExternal = true, isInvariable = true)`. */
  function ExternalImport(name: string, source: string): (i: Import)
    ensures i.name == name && i.source == source
    ensures i.isExternal && i.isInvariable && i.isDependency && i.dependencyVersion.None?
  {
    Import(name, source, true, true, true, None)
  }

  /** One entry of the aggregate index: a class name and its `/`-separated package path. */
  datatype Export = Export(name: string, packageName: string)

  /** A schema expression together with the imports it needs (Kotlin `Pair<String, List<Import>>`). */
  datatype Schema = Schema(expr: string, imports: seq<Import>)

  /** The value of one annotation argument, as far as the decoders look at it. */
  datatype ArgValue = StringValue(s: string) | BoolValue(b: bool) | NullValue | OtherValue

  datatype AnnotationArg = AnnotationArg(name: Option<string>, value: ArgValue)

  /** A raw annotation occurrence, identified by its short name. */
  datatype Annotation = Annotation(shortName: string, arguments: seq<AnnotationArg>)

  /**
   * The declaration behind a type occurrence. `zodable` holds when the
   * declaration is a class carrying `@Zodable`; `hasTypeParameters` when that
   * class is generic. `packageName` is dot-separated.
   */
  datatype TypeDecl = TypeDecl(
    qualifiedName: Option<string>,
    simpleName: string,
    packageName: string,
    zodable: bool,
    hasTypeParameters: bool)

  /** A type occurrence; an argument `None` is a star projection. */
  datatype TypeNode = TypeNode(decl: TypeDecl, nullable: bool, args: seq<Option<TypeNode>>)

  /** The key under which the primitive tables are consulted. */
  function QualifiedKey(d: TypeDecl): (k: string)
    ensures d.qualifiedName.Some? ==> k == d.qualifiedName.value
    ensures d.qualifiedName.None? ==> k == "kotlin.Any"
  {
    match d.qualifiedName
    case Some(q) => q
    case None => "kotlin.Any"
  }

  datatype Property = Property(
    simpleName: string,
    hasBackingField: bool,
    annotations: seq<Annotation>,
    typ: TypeNode)

  datatype ClassKind = EnumClass | OtherClass

  /**
   * A class handed to a generator. `properties` is what the compiler lists as
   * all properties (inherited ones included); `nestedClasses` are the simple
   * names of nested class declarations, which for an enum are its entries.
   */
  datatype ClassDecl = ClassDecl(
    simpleName: string,
    packageName: string,
    kind: ClassKind,
    typeParameters: seq<string>,
    annotations: seq<Annotation>,
    nestedClasses: seq<string>,
    properties: seq<Property>,
    sealedSubclasses: seq<string>)

  /** A generated file: its path and its full text. */
  datatype OutputFile = OutputFile(path: string, content: string)

  /** The options shared by the generators of one run. */
  datatype GeneratorConfig = GeneratorConfig(
    packageName: string,
    outputPath: string,
    inferTypes: bool,
    coerceMapKeys: bool,
    optionals: string)

  /** A processor option read as a flag: true exactly when it is present and spelled `true`. */
  predicate Flag(options: map<string, string>, key: string)
  {
    key in options && options[key] == "true"
  }

  function OptionOr(options: map<string, string>, key: string, default: string): string
  {
    if key in options then options[key] else default
  }

  /** The configuration the processor builds from its options. */
  function ConfigFromOptions(options: map<string, string>): (c: GeneratorConfig)
    ensures c.inferTypes <==> "zodableInferTypes" in options && options["zodableInferTypes"] == "true"
    ensures c.coerceMapKeys <==> "zodableCoerceMapKeys" in options && options["zodableCoerceMapKeys"] == "true"
    ensures "zodablePackageName" in options ==> c.packageName == options["zodablePackageName"]
    ensures "zodablePackageName" !in options ==> c.packageName == "zodable"
    ensures "zodableOutputPath" in options ==> c.outputPath == options["zodableOutputPath"]
    ensures "zodableOutputPath" !in options ==> c.outputPath == ""
    ensures "zodableOptionals" in options ==> c.optionals == options["zodableOptionals"]
    ensures "zodableOptionals" !in options ==> c.optionals == ""
  {
    GeneratorConfig(
      OptionOr(options, "zodablePackageName", "zodable"),
      OptionOr(options, "zodableOutputPath", ""),
      Flag(options, "zodableInferTypes"),
      Flag(options, "zodableCoerceMapKeys"),
      OptionOr(options, "zodableOptionals", ""))
  }
}
