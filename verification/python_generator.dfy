/**
 * The Pydantic backend: Kotlin types become Python type annotations,
 * classes become `BaseModel` subclasses, enums `str` enums, and the package
 * index re-exports every class.
 */
module PythonGenerator {
  import opened Ir
  import opened Text
  import opened ImportSets
  import opened Directives
  import opened ZodableGenerator

  const ExtensionName: string := "py"

  /** The package name made importable: every `-` becomes `_`. */
  function PythonCompatible(s: string): (r: string)
    ensures |r| == |s|
    ensures '-' !in r
    ensures forall i :: 0 <= i < |s| && s[i] != '-' ==> r[i] == s[i]
    ensures forall i :: 0 <= i < |s| && s[i] == '-' ==> r[i] == '_'
  {
    ReplaceChar(s, '-', '_')
  }

  lemma PythonCompatibleIdempotent(s: string)
    ensures PythonCompatible(PythonCompatible(s)) == PythonCompatible(s)
  {
  }

  /** The filters this backend obeys. */
  const PythonFilters: seq<string> := ["*", "pydantic", "py", "python"]

  function ShouldKeepAnnotation(annotation: string, filter: string): (r: bool)
    ensures r <==> filter in PythonFilters
  {
    filter in PythonFilters
  }

  /** A `ts` directive never applies here; the wildcard always does. */
  lemma PythonFilterGating(annotation: string)
    ensures !ShouldKeepAnnotation(annotation, "ts")
    ensures ShouldKeepAnnotation(annotation, "*")
  {
    assert "ts" != "*" && "ts" != "pydantic" && "ts" != "py" && "ts" != "python";
  }

  /** The install name of a dependency: its source, followed by its version when one is pinned. */
  function ResolveInstallName(source: string, version: Option<string>): (r: string)
    ensures version.None? ==> r == source
    ensures version.Some? ==> r == source + version.value && StartsWith(r, source)
  {
    source + match version case Some(v) => v case None => ""
  }

  function ResolveSourceFolder(config: GeneratorConfig): string
  {
    config.outputPath + "/" + PythonCompatible(config.packageName)
  }

  function ResolveDependenciesFile(config: GeneratorConfig): string
  {
    config.outputPath + "/requirements.txt"
  }

  function ResolveIndexFile(sourceFolder: string): string
  {
    sourceFolder + "/__init__.py"
  }

  function ResolveClassFile(sourceFolder: string, packagePath: string, name: string): string
  {
    sourceFolder + "/" + packagePath + "/" + name + ".py"
  }

  const EnumImport: Import := Import("Enum", "enum", true, true, false, None)
  const BaseModelImport: Import := ExternalImport("BaseModel", "pydantic")
  const GenericImport: Import := ExternalImport("Generic", "typing")
  const TypeVarImport: Import := ExternalImport("TypeVar", "typing")
  const UnionImport: Import := ExternalImport("Union", "typing")
  const LiteralImport: Import := ExternalImport("Literal", "typing")
  const AnyImport: Import := ExternalImport("Any", "typing")
  const OptionalImport: Import := ExternalImport("Optional", "typing")
  const DatetimeImport: Import := ExternalImport("datetime", "datetime")
  const UuidImport: Import := ExternalImport("UUID", "uuid")
  const KotlinPairImport: Import := ExternalImport("KotlinPair", "zodable-kotlin-primitives")

  /** The import that makes a class a schema: `Enum` for an enum, `BaseModel` otherwise. */
  function KindImport(c: ClassDecl): Import
  {
    if c.kind == EnumClass then EnumImport else BaseModelImport
  }

  /**
   * The imports every generated class needs: its kind import, `Generic` and
   * `TypeVar` for a generic class, `Union` for a sealed class with subclasses.
   */
  function ResolveDefaultImports(c: ClassDecl): (r: seq<Import>)
    ensures NoDuplicates(r)
    ensures forall x :: x in r <==>
              || x == KindImport(c)
              || (|c.typeParameters| > 0 && (x == GenericImport || x == TypeVarImport))
              || (|c.sealedSubclasses| > 0 && x == UnionImport)
  {
    var kind := [KindImport(c)];
    var generic := if |c.typeParameters| > 0 then Union(kind, [GenericImport, TypeVarImport]) else kind;
    if |c.sealedSubclasses| > 0 then Union(generic, [UnionImport]) else generic
  }

  /** Each default import is present exactly under its condition. */
  lemma DefaultImportFlags(c: ClassDecl)
    ensures var r := ResolveDefaultImports(c);
            && (EnumImport in r <==> c.kind == EnumClass)
            && (BaseModelImport in r <==> c.kind != EnumClass)
            && (GenericImport in r <==> |c.typeParameters| > 0)
            && (TypeVarImport in r <==> |c.typeParameters| > 0)
            && (UnionImport in r <==> |c.sealedSubclasses| > 0)
  {
    DistinctDefaults();
  }

  lemma DistinctDefaults()
    ensures EnumImport != BaseModelImport && EnumImport != GenericImport && EnumImport != TypeVarImport
    ensures EnumImport != UnionImport && BaseModelImport != GenericImport && BaseModelImport != TypeVarImport
    ensures BaseModelImport != UnionImport && GenericImport != TypeVarImport && GenericImport != UnionImport
    ensures TypeVarImport != UnionImport
  {
    assert EnumImport.source == "enum" && BaseModelImport.source == "pydantic";
    assert GenericImport.name[0] == 'G' && TypeVarImport.name[0] == 'T' && UnionImport.name[0] == 'U';
  }

  /** Every default import is external, and only `Enum` is not a dependency. */
  lemma DefaultImportsExternal(c: ClassDecl)
    ensures var r := ResolveDefaultImports(c);
            && AllExternal(r)
            && (forall i :: i in r && !i.isDependency ==> i == EnumImport)
  {
    var r := ResolveDefaultImports(c);
    forall i | i in r
      ensures i.isExternal && (!i.isDependency ==> i == EnumImport)
    {
      assert i == KindImport(c) || i == GenericImport || i == TypeVarImport || i == UnionImport;
    }
  }

  /**
   * One `from <module> import <name>` line per import. An internal import's
   * module is its path under the package folder, written with dots.
   */
  function ImportLine(config: GeneratorConfig, i: Import): (r: string)
    ensures StartsWith(r, "from ") && EndsWith(r, " import " + i.name) && |r| >= 13 + |i.name|
    ensures !i.isExternal ==> '/' !in r[5..|r| - |i.name| - 8]
    ensures i.isExternal ==> r[5..|r| - |i.name| - 8] == PythonCompatible(i.source)
    ensures !i.isExternal ==>
              r[5..|r| - |i.name| - 8] == ReplaceChar(PythonCompatible(config.packageName), '/', '.') + "."
                                          + ReplaceChar(i.source, '/', '.')
  {
    var source :=
      if i.isExternal then PythonCompatible(i.source)
      else InternalModule(PythonCompatible(config.packageName), i.source);
    MiddleOf("from ", source, " import " + i.name);
    "from " + source + " import " + i.name
  }

  lemma MiddleOf<T>(a: seq<T>, m: seq<T>, c: seq<T>)
    ensures (a + m + c)[|a|..|a + m + c| - |c|] == m
  {
  }

  /** The dotted module of an internal import: the package folder and the import's path, `/` written as `.`. */
  function InternalModule(package: string, source: string): (r: string)
    ensures r == ReplaceChar(package, '/', '.') + "." + ReplaceChar(source, '/', '.')
  {
    ReplaceCharAppend(package, "/" + source, '/', '.');
    ReplaceCharAppend("/", source, '/', '.');
    ReplaceChar(package + "/" + source, '/', '.')
  }

  /**
   * A class imported by another file names the same module as the package
   * index does for that class, as long as the package name holds no `/`.
   */
  lemma ReferenceImportMatchesIndex(config: GeneratorConfig, d: TypeDecl)
    requires '/' !in config.packageName && '/' !in d.simpleName
    ensures ImportLine(config, ReferenceImport(d))
            == IndexImportLine(config, Export(d.simpleName, ReplaceChar(d.packageName, '.', '/')))
  {
    ReferenceImportNamesClass(d);
    var pkg := PythonCompatible(config.packageName);
    var path := ReplaceChar(d.packageName, '.', '/');
    var dotted := ReplaceChar(path, '/', '.');
    var m := DottedClassModule(pkg, path, d.simpleName);
    assert ImportLine(config, ReferenceImport(d)) == "from " + m + " import " + d.simpleName;
    Regroup("from ", pkg, ".", dotted, d.simpleName, " import ");
  }

  /** The module of class `name` under folder `path` of package `pkg`, when neither `pkg` nor `name` holds a `/`. */
  lemma DottedClassModule(pkg: string, path: string, name: string) returns (m: string)
    requires '/' !in pkg && '/' !in name
    ensures m == InternalModule(pkg, path + "/" + name)
    ensures m == pkg + "." + (ReplaceChar(path, '/', '.') + "." + name)
  {
    m := InternalModule(pkg, path + "/" + name);
    assert ReplaceChar(pkg, '/', '.') == pkg by {
      ReplaceCharIdentity(pkg, '/', '.');
    }
    assert ReplaceChar(path + "/" + name, '/', '.') == ReplaceChar(path, '/', '.') + "." + name by {
      assert path + "/" + name == path + ("/" + name);
      ReplaceCharAppend(path, "/" + name, '/', '.');
      ReplaceCharAppend("/", name, '/', '.');
      ReplaceCharIdentity(name, '/', '.');
    }
  }

  lemma Regroup<T>(a: seq<T>, b: seq<T>, c: seq<T>, d: seq<T>, e: seq<T>, f: seq<T>)
    ensures a + (b + c + (d + c + e)) + f + e == a + b + c + d + c + e + f + e
  {
  }

  function ImportLines(config: GeneratorConfig, imports: seq<Import>): (r: seq<string>)
    ensures |r| == |imports| && forall k :: 0 <= k < |imports| ==> r[k] == ImportLine(config, imports[k])
  {
    if |imports| == 0 then [] else [ImportLine(config, imports[0])] + ImportLines(config, imports[1..])
  }

  function GenerateImports(config: GeneratorConfig, imports: seq<Import>): string
  {
    Join(ImportLines(config, imports), "\n")
  }

  function IndexImportLine(config: GeneratorConfig, e: Export): string
  {
    "from " + PythonCompatible(config.packageName) + "." + ReplaceChar(e.packageName, '/', '.') + "." + e.name
    + " import " + e.name
  }

  function IndexImportLines(config: GeneratorConfig, exports: seq<Export>): (r: seq<string>)
    ensures |r| == |exports| && forall k :: 0 <= k < |exports| ==> r[k] == IndexImportLine(config, exports[k])
  {
    if |exports| == 0 then [] else [IndexImportLine(config, exports[0])] + IndexImportLines(config, exports[1..])
  }

  function QuotedNames(exports: seq<Export>): (r: seq<string>)
    ensures |r| == |exports| && forall k :: 0 <= k < |exports| ==> r[k] == "\"" + exports[k].name + "\""
  {
    if |exports| == 0 then [] else ["\"" + exports[0].name + "\""] + QuotedNames(exports[1..])
  }

  /** The `__all__` line naming every export. */
  function AllLine(exports: seq<Export>): string
  {
    "__all__ = [" + Join(QuotedNames(exports), ", ") + "]"
  }

  /** The package `__init__.py`: one import per export, then `__all__` naming them in the same order. */
  function GenerateIndexExport(config: GeneratorConfig, exports: seq<Export>): string
  {
    Join(IndexImportLines(config, exports), "\n") + "\n" + AllLine(exports)
  }

  /** The index is its import lines followed by the `__all__` line. */
  lemma IndexExportLines(config: GeneratorConfig, exports: seq<Export>)
    ensures |exports| > 0 ==>
              GenerateIndexExport(config, exports)
              == Join(IndexImportLines(config, exports) + [AllLine(exports)], "\n")
    ensures |exports| == 0 ==> GenerateIndexExport(config, exports) == "\n__all__ = []"
  {
    if |exports| > 0 {
      JoinSnoc(IndexImportLines(config, exports), AllLine(exports), "\n");
    }
  }

  function TypeVarLines(arguments: seq<string>): (r: seq<string>)
    ensures |r| == |arguments|
    ensures forall k :: 0 <= k < |arguments| ==> r[k] == arguments[k] + " = TypeVar('" + arguments[k] + "')"
  {
    if |arguments| == 0 then [] else [arguments[0] + " = TypeVar('" + arguments[0] + "')"] + TypeVarLines(arguments[1..])
  }

  function FieldLines(properties: seq<(string, string)>): (r: seq<string>)
    ensures |r| == |properties|
    ensures forall k :: 0 <= k < |properties| ==> r[k] == "    " + properties[k].0 + ": " + properties[k].1
  {
    if |properties| == 0 then [] else ["    " + properties[0].0 + ": " + properties[0].1] + FieldLines(properties[1..])
  }

  function ClassHeader(name: string, arguments: seq<string>): string
  {
    "class " + name + "(BaseModel" + (if |arguments| > 0 then ", Generic[" + Join(arguments, ", ") + "]" else "") + "):"
  }

  /** A `BaseModel` subclass: its type variables, then the class line, then its fields. */
  function GenerateClassSchema(name: string, arguments: seq<string>, properties: seq<(string, string)>): string
  {
    var typeVar := if |arguments| > 0 then Join(TypeVarLines(arguments), "\n") + "\n" else "";
    var body := Join(FieldLines(properties), "\n");
    typeVar + ClassHeader(name, arguments) + "\n" + (if |body| == 0 then "    pass" else body)
  }

  /** The field block: the field lines, or a single `pass` line for a class without fields. */
  function FieldBlock(properties: seq<(string, string)>): (r: seq<string>)
    ensures |r| == (if |properties| == 0 then 1 else |properties|)
  {
    if |properties| == 0 then ["    pass"] else FieldLines(properties)
  }

  lemma FieldBlockJoin(properties: seq<(string, string)>)
    ensures var body := Join(FieldLines(properties), "\n");
            Join(FieldBlock(properties), "\n") == (if |body| == 0 then "    pass" else body)
  {
    if |properties| > 0 {
      var body := Join(FieldLines(properties), "\n");
      assert StartsWith(body, FieldLines(properties)[0]);
      assert |FieldLines(properties)[0]| >= 4;
    }
  }

  /** The class line joined with the field block. */
  lemma HeaderThenFields(header: string, properties: seq<(string, string)>)
    ensures var body := Join(FieldLines(properties), "\n");
            Join([header] + FieldBlock(properties), "\n")
            == header + "\n" + (if |body| == 0 then "    pass" else body)
  {
    FieldBlockJoin(properties);
    JoinAppend([header], FieldBlock(properties), "\n");
  }

  /** The class text is its type-variable prefix followed by the class line and the field block. */
  lemma ClassSchemaSplit(name: string, arguments: seq<string>, properties: seq<(string, string)>)
    ensures var body := Join(FieldLines(properties), "\n");
            GenerateClassSchema(name, arguments, properties)
            == (if |arguments| > 0 then Join(TypeVarLines(arguments), "\n") + "\n" else "")
               + (ClassHeader(name, arguments) + "\n" + (if |body| == 0 then "    pass" else body))
  {
  }

  /** The class text of a generic class as one join over all its lines. */
  lemma GenericClassSchemaLines(name: string, arguments: seq<string>, properties: seq<(string, string)>)
    requires |arguments| > 0
    ensures GenerateClassSchema(name, arguments, properties)
            == Join(TypeVarLines(arguments) + ([ClassHeader(name, arguments)] + FieldBlock(properties)), "\n")
  {
    HeaderThenFields(ClassHeader(name, arguments), properties);
    ClassSchemaSplit(name, arguments, properties);
    JoinAppend(TypeVarLines(arguments), [ClassHeader(name, arguments)] + FieldBlock(properties), "\n");
  }

  /** The class text of a non-generic class as one join over all its lines. */
  lemma PlainClassSchemaLines(name: string, arguments: seq<string>, properties: seq<(string, string)>)
    requires |arguments| == 0
    ensures GenerateClassSchema(name, arguments, properties)
            == Join(TypeVarLines(arguments) + [ClassHeader(name, arguments)] + FieldBlock(properties), "\n")
  {
    HeaderThenFields(ClassHeader(name, arguments), properties);
    ClassSchemaSplit(name, arguments, properties);
    assert TypeVarLines(arguments) + [ClassHeader(name, arguments)] + FieldBlock(properties)
        == [ClassHeader(name, arguments)] + FieldBlock(properties);
  }

  /**
   * One `X = TypeVar('X')` line per argument, the `Generic[...]` base exactly
   * when there are arguments, and `pass` exactly when there are no fields.
   */
  lemma ClassSchemaLines(name: string, arguments: seq<string>, properties: seq<(string, string)>)
    ensures GenerateClassSchema(name, arguments, properties)
            == Join(TypeVarLines(arguments) + [ClassHeader(name, arguments)] + FieldBlock(properties), "\n")
  {
    var lines := TypeVarLines(arguments) + [ClassHeader(name, arguments)] + FieldBlock(properties);
    if |arguments| > 0 {
      GenericClassSchemaLines(name, arguments, properties);
      assert lines == TypeVarLines(arguments) + ([ClassHeader(name, arguments)] + FieldBlock(properties));
    } else {
      PlainClassSchemaLines(name, arguments, properties);
    }
  }

  function EnumValueLines(values: seq<string>): (r: seq<string>)
    ensures |r| == |values| && forall k :: 0 <= k < |values| ==> r[k] == "    " + values[k] + " = '" + values[k] + "'"
  {
    if |values| == 0 then [] else ["    " + values[0] + " = '" + values[0] + "'"] + EnumValueLines(values[1..])
  }

  /** A `str` enum with one `name = 'name'` member per value. */
  function GenerateEnumSchema(name: string, arguments: seq<string>, values: seq<string>): (r: string)
    ensures |values| > 0 ==> r == Join(["class " + name + "(str, Enum):"] + EnumValueLines(values), "\n")
    ensures |values| == 0 ==> r == "class " + name + "(str, Enum):\n"
  {
    var r := "class " + name + "(str, Enum):\n" + Join(EnumValueLines(values), "\n");
    if |values| > 0 then
      JoinAppend(["class " + name + "(str, Enum):"], EnumValueLines(values), "\n");
      r
    else r
  }

  /** A union alias over the given members, in order. */
  function GenerateUnionSchema(name: string, arguments: seq<string>, values: seq<string>): (r: string)
    ensures |r| == |name| + 10 + |Join(values, ", ")|
    ensures StartsWith(r, name + " = Union[") && EndsWith(r, "]")
    ensures r[|name| + 9..|r| - 1] == Join(values, ", ")
  {
    name + " = Union[" + Join(values, ", ") + "]"
  }

  /** The Kotlin types with a fixed Python counterpart. */
  const PrimitiveKeys: set<string> := {
    "kotlin.String", "kotlin.Int", "kotlin.Long", "kotlin.Double", "kotlin.Float", "kotlin.Boolean",
    "kotlin.Pair", "kotlin.time.Instant", "kotlinx.datetime.Instant", "kotlinx.datetime.LocalDateTime",
    "kotlinx.datetime.LocalDate", "dev.kaccelero.models.UUID", "kotlin.uuid.Uuid",
    "kotlin.collections.List", "kotlin.collections.Map"}

  /** A generic type left open for `addGenericArguments` to fill: its name followed by `[]`. */
  function Bare(name: string): (r: string)
    ensures |r| == |name| + 2 && EndsWith(r, "[]") && r[..|name|] == name
  {
    name + "[]"
  }

  /**
   * The primitive table. Lists, maps and pairs come back as a bare generic
   * (`list[]`, `dict[]`, `KotlinPair[]`) awaiting their arguments.
   */
  function ResolvePrimitiveType(kotlinType: string): (r: Option<Schema>)
    ensures r.Some? <==> kotlinType in PrimitiveKeys
    ensures r.Some? ==> AllExternal(r.value.imports) && |r.value.imports| <= 1
  {
    match kotlinType
    case "kotlin.String" => Some(Schema("str", []))
    case "kotlin.Int" => Some(Schema("int", []))
    case "kotlin.Long" => Some(Schema("int", []))
    case "kotlin.Double" => Some(Schema("float", []))
    case "kotlin.Float" => Some(Schema("float", []))
    case "kotlin.Boolean" => Some(Schema("bool", []))
    case "kotlin.Pair" => Some(Schema(Bare("KotlinPair"), [KotlinPairImport]))
    case "kotlin.time.Instant" => Some(Schema("datetime", [DatetimeImport]))
    case "kotlinx.datetime.Instant" => Some(Schema("datetime", [DatetimeImport]))
    case "kotlinx.datetime.LocalDateTime" => Some(Schema("datetime", [DatetimeImport]))
    case "kotlinx.datetime.LocalDate" => Some(Schema("datetime", [DatetimeImport]))
    case "dev.kaccelero.models.UUID" => Some(Schema("UUID", [UuidImport]))
    case "kotlin.uuid.Uuid" => Some(Schema("UUID", [UuidImport]))
    case "kotlin.collections.List" => Some(Schema(Bare("list"), []))
    case "kotlin.collections.Map" => Some(Schema(Bare("dict"), []))
    case _ => None
  }

  /** A reference to another generated class, left open (`Name[]`) when it is generic. */
  function ResolveZodableType(name: string, isGeneric: bool): (r: Schema)
    ensures r.imports == []
    ensures EndsWith(r.expr, "[]") <==> isGeneric || EndsWith(name, "[]")
    ensures StartsWith(r.expr, name)
  {
    Schema(if isGeneric then Bare(name) else name, [])
  }

  /** The discriminator value as a `Literal` type naming it in double quotes. */
  function ResolveLiteralType(name: string): (r: Schema)
    ensures r.imports == [LiteralImport]
    ensures |r.expr| == |name| + 11 && StartsWith(r.expr, "Literal[\"") && EndsWith(r.expr, "\"]")
    ensures r.expr[9..|r.expr| - 2] == name
  {
    Schema("Literal[\"" + name + "\"]", [LiteralImport])
  }

  function ResolveGenericArgument(name: string): Schema
  {
    Schema(name, [])
  }

  const UnknownType: Schema := Schema("Any", [AnyImport])

  /**
   * Fills a bare generic: a type ending in `[]` gets the arguments between
   * its brackets; any other type is returned unchanged.
   */
  function AddGenericArguments(typ: string, arguments: seq<string>): (r: Schema)
    ensures r.imports == []
    ensures !EndsWith(typ, "[]") ==> r.expr == typ
    ensures EndsWith(typ, "[]") ==>
              |r.expr| == |typ| + |Join(arguments, ", ")|
              && StartsWith(r.expr, typ[..|typ| - 2] + "[") && EndsWith(r.expr, "]")
              && r.expr[|typ| - 1..|r.expr| - 1] == Join(arguments, ", ")
  {
    if !EndsWith(typ, "[]") then Schema(typ, [])
    else Schema(typ[..|typ| - 2] + "[" + Join(arguments, ", ") + "]", [])
  }

  /**
   * Substitution happens at most once: a filled generic is no longer bare,
   * so filling it again changes nothing (unless the arguments were empty or
   * end in `[`).
   */
  lemma AddGenericArgumentsOnce(typ: string, arguments: seq<string>, more: seq<string>)
    requires var j := Join(arguments, ", "); |j| > 0 && j[|j| - 1] != '['
    ensures var once := AddGenericArguments(typ, arguments).expr;
            AddGenericArguments(once, more).expr == once
  {
    var once := AddGenericArguments(typ, arguments).expr;
    if EndsWith(typ, "[]") {
      var j := Join(arguments, ", ");
      assert once[|once| - 2] == j[|j| - 1];
    }
  }

  /** A bare generic `Name[]` filled with arguments is `Name[a, b, ...]`. */
  lemma FillBareGeneric(name: string, arguments: seq<string>)
    ensures AddGenericArguments(Bare(name), arguments).expr == name + "[" + Join(arguments, ", ") + "]"
  {
    assert Bare(name)[..|name|] == name;
  }

  /** Marks a type optional with a `None` default. */
  function MarkAsNullable(typ: string): (r: Schema)
    ensures r.imports == [OptionalImport]
    ensures UnwrapOptional(r.expr) == Some(typ)
  {
    Schema("Optional[" + typ + "] = None", [OptionalImport])
  }

  /** The inner type of an `Optional[T] = None` annotation. */
  function UnwrapOptional(s: string): Option<string>
  {
    if |s| >= 17 && s[..9] == "Optional[" && s[|s| - 8..] == "] = None" then Some(s[9..|s| - 8]) else None
  }

  /** The backend record the generic generator runs with. */
  function PythonBackend(config: GeneratorConfig): Backend
  {
    Backend(
      ShouldKeepAnnotation,
      ResolveSourceFolder(config),
      ResolveDependenciesFile(config),
      ResolveIndexFile,
      ResolveClassFile,
      ResolveDefaultImports,
      (sourceFolder: string, currentFile: string, imports: seq<Import>) => GenerateImports(config, imports),
      (exports: seq<Export>) => GenerateIndexExport(config, exports),
      GenerateClassSchema,
      GenerateEnumSchema,
      ResolvePrimitiveType,
      ResolveZodableType,
      ResolveGenericArgument,
      UnknownType,
      AddGenericArguments,
      MarkAsNullable)
  }

  /**
   * The package folder sits in the output folder under the importable
   * package name, with `__init__.py` as index and one `.py` file per class;
   * `requirements.txt` sits beside it.
   */
  lemma PythonFileLayout(config: GeneratorConfig, pkg: string, name: string)
    ensures var b := PythonBackend(config);
            && b.sourceFolder == config.outputPath + "/" + PythonCompatible(config.packageName)
            && b.dependenciesFile == config.outputPath + "/requirements.txt"
            && b.indexFile(b.sourceFolder) == b.sourceFolder + "/__init__.py"
            && b.classFile(b.sourceFolder, pkg, name) == b.sourceFolder + "/" + pkg + "/" + name + ".py"
            && '-' !in b.sourceFolder[|config.outputPath| + 1..]
  {
  }

  lemma PythonCombinatorsExternal(config: GeneratorConfig)
    ensures ExternalCombinators(PythonBackend(config))
  {
  }

  /**
   * For the Python backend, the internal imports a property type needs are
   * exactly the generated classes it mentions.
   */
  lemma PythonInternalImports(config: GeneratorConfig, t: TypeNode, typeParameters: seq<string>)
    ensures var b := PythonBackend(config);
            forall x :: x in ResolveType(b, t, typeParameters).imports && !x.isExternal <==> x in References(b, t)
  {
    PythonCombinatorsExternal(config);
    InternalImportsAreReferences(PythonBackend(config), t, typeParameters);
  }

  /** Directives filtered to the TypeScript backend leave the Python resolution untouched. */
  lemma TsDirectivesIgnoredByPython(config: GeneratorConfig, ds: seq<PropertyDirective>, p: Property, typeParameters: seq<string>)
    requires forall i :: 0 <= i < |ds| ==> DirectiveFilter(ds[i]) == "ts"
    ensures var b := PythonBackend(config);
            ResolveProperty(b, p.(annotations := EncodeDirectives(ds) + p.annotations), typeParameters)
            == ResolveProperty(b, p, typeParameters)
  {
    var b := PythonBackend(config);
    forall i | 0 <= i < |ds|
      ensures FilteredOut(b, ds[i])
    {
      PythonFilterGating("ZodIgnore");
      PythonFilterGating("ZodType");
    }
    FilteredOutDirectivesInvisible(b, ds, p, typeParameters);
  }

  function DirectiveFilter(d: PropertyDirective): string
  {
    match d
    case IgnoreDirective(i) => i.filter
    case TypeDirective(t) => t.filter
  }

  const StringDecl: TypeDecl := TypeDecl(Some("kotlin.String"), "String", "kotlin", false, false)
  const IntDecl: TypeDecl := TypeDecl(Some("kotlin.Int"), "Int", "kotlin", false, false)
  const ListDecl: TypeDecl := TypeDecl(Some("kotlin.collections.List"), "List", "kotlin.collections", false, true)
  const MapDecl: TypeDecl := TypeDecl(Some("kotlin.collections.Map"), "Map", "kotlin.collections", false, true)

  function Plain(d: TypeDecl): TypeNode
  {
    TypeNode(d, false, [])
  }

  /** Resolving an occurrence from the resolutions of its base and of its arguments. */
  lemma PythonComposition(config: GeneratorConfig, t: TypeNode, base: Schema, args: Arguments)
    requires !t.nullable && |t.args| > 0
    requires ResolvePrimitiveType(QualifiedKey(t.decl)) == Some(base)
    requires ResolveArgs(PythonBackend(config), t, [], |t.args|) == args
    ensures ResolveType(PythonBackend(config), t, []) ==
            Resolution(AddGenericArguments(base.expr, args.exprs).expr, args.imports + base.imports, args.warnings)
  {
    var b := PythonBackend(config);
    assert b.resolvePrimitiveType(QualifiedKey(t.decl)) == Some(base);
    PrimitiveWithArguments(b, t, [], base);
    var g := b.addGenericArguments(base.expr, args.exprs);
    assert g == AddGenericArguments(base.expr, args.exprs);
    assert args.imports + base.imports + g.imports == args.imports + base.imports;
  }

  lemma PythonZodableComposition(config: GeneratorConfig, t: TypeNode, args: Arguments)
    requires !t.nullable && |t.args| > 0 && t.decl.zodable && t.decl.hasTypeParameters
    requires ResolvePrimitiveType(QualifiedKey(t.decl)) == None
    requires ResolveArgs(PythonBackend(config), t, [], |t.args|) == args
    ensures ResolveType(PythonBackend(config), t, []) ==
            Resolution(AddGenericArguments(Bare(t.decl.simpleName), args.exprs).expr, [ReferenceImport(t.decl)] + args.imports, args.warnings)
  {
  }

  lemma PythonLeaf(config: GeneratorConfig, d: TypeDecl, base: Schema)
    requires ResolvePrimitiveType(QualifiedKey(d)) == Some(base)
    ensures ResolveType(PythonBackend(config), Plain(d), []) == Resolution(base.expr, base.imports, [])
  {
  }

  lemma PythonZodableLeaf(config: GeneratorConfig, d: TypeDecl)
    requires ResolvePrimitiveType(QualifiedKey(d)) == None && d.zodable && !d.hasTypeParameters
    ensures ResolveType(PythonBackend(config), Plain(d), []) == Resolution(d.simpleName, [ReferenceImport(d)], [])
  {
  }

  lemma PythonOneArgument(config: GeneratorConfig, t: TypeNode, a: TypeNode)
    requires t.args == [Some(a)]
    ensures var r := ResolveType(PythonBackend(config), a, []);
            ResolveArgs(PythonBackend(config), t, [], 1) == Arguments([r.expr], r.imports, r.warnings)
  {
  }

  lemma PythonTwoArguments(config: GeneratorConfig, t: TypeNode, a: TypeNode, c: TypeNode)
    requires t.args == [Some(a), Some(c)]
    ensures var r := ResolveType(PythonBackend(config), a, []);
            var s := ResolveType(PythonBackend(config), c, []);
            ResolveArgs(PythonBackend(config), t, [], 2)
            == Arguments([r.expr, s.expr], r.imports + s.imports, r.warnings + s.warnings)
  {
    var b := PythonBackend(config);
    assert ResolveArgs(b, t, [], 1) == Arguments([ResolveType(b, a, []).expr], ResolveType(b, a, []).imports, ResolveType(b, a, []).warnings);
  }

  lemma ListIsList()
    ensures ResolvePrimitiveType(QualifiedKey(ListDecl)) == Some(Schema(Bare("list"), []))
    ensures "list" + "[" == "list["
  {
  }

  lemma PythonListArguments(config: GeneratorConfig, a: TypeNode)
    ensures var e := ResolveType(PythonBackend(config), a, []);
            ResolveArgs(PythonBackend(config), TypeNode(ListDecl, false, [Some(a)]), [], 1)
            == Arguments([e.expr], e.imports, e.warnings)
  {
    PythonOneArgument(config, TypeNode(ListDecl, false, [Some(a)]), a);
  }

  /** `List<A>` is `list[a]` for the resolution `a` of `A`, with the imports and warnings of `A`. */
  lemma PythonListOf(config: GeneratorConfig, a: TypeNode)
    ensures var e := ResolveType(PythonBackend(config), a, []);
            ResolveType(PythonBackend(config), TypeNode(ListDecl, false, [Some(a)]), [])
            == Resolution("list[" + e.expr + "]", e.imports, e.warnings)
  {
    var e := ResolveType(PythonBackend(config), a, []);
    var list := TypeNode(ListDecl, false, [Some(a)]);
    PythonListArguments(config, a);
    ListIsList();
    PythonComposition(config, list, Schema(Bare("list"), []), Arguments([e.expr], e.imports, e.warnings));
    FillBareGeneric("list", [e.expr]);
    assert Join([e.expr], ", ") == e.expr;
    assert e.imports + [] == e.imports;
  }

  /** `List<C>` with `C` a generated class is `list[C]`, importing the class. */
  lemma PythonListOfClass(config: GeneratorConfig, d: TypeDecl)
    requires ResolvePrimitiveType(QualifiedKey(d)) == None && d.zodable && !d.hasTypeParameters
    ensures var r := ResolveType(PythonBackend(config), TypeNode(ListDecl, false, [Some(Plain(d))]), []);
            r == Resolution("list[" + d.simpleName + "]", [ReferenceImport(d)], [])
  {
    PythonZodableLeaf(config, d);
    PythonListOf(config, Plain(d));
  }

  lemma MapIsDict()
    ensures ResolvePrimitiveType(QualifiedKey(MapDecl)) == Some(Schema(Bare("dict"), []))
    ensures "dict" + "[" == "dict["
  {
  }

  lemma PythonMapArguments(config: GeneratorConfig, a: TypeNode, c: TypeNode)
    ensures var ea := ResolveType(PythonBackend(config), a, []);
            var ec := ResolveType(PythonBackend(config), c, []);
            ResolveArgs(PythonBackend(config), TypeNode(MapDecl, false, [Some(a), Some(c)]), [], 2)
            == Arguments([ea.expr, ec.expr], ea.imports + ec.imports, ea.warnings + ec.warnings)
  {
    PythonTwoArguments(config, TypeNode(MapDecl, false, [Some(a), Some(c)]), a, c);
  }

  /** `Map<A, C>` is `dict[a, c]` for the resolutions of `A` and `C`, with their imports and warnings in order. */
  lemma PythonMapOf(config: GeneratorConfig, a: TypeNode, c: TypeNode)
    ensures var ea := ResolveType(PythonBackend(config), a, []);
            var ec := ResolveType(PythonBackend(config), c, []);
            ResolveType(PythonBackend(config), TypeNode(MapDecl, false, [Some(a), Some(c)]), [])
            == Resolution("dict[" + Join([ea.expr, ec.expr], ", ") + "]", ea.imports + ec.imports, ea.warnings + ec.warnings)
  {
    var ea := ResolveType(PythonBackend(config), a, []);
    var ec := ResolveType(PythonBackend(config), c, []);
    var map_ := TypeNode(MapDecl, false, [Some(a), Some(c)]);
    var args := Arguments([ea.expr, ec.expr], ea.imports + ec.imports, ea.warnings + ec.warnings);
    PythonMapArguments(config, a, c);
    MapIsDict();
    PythonComposition(config, map_, Schema(Bare("dict"), []), args);
    FillBareGeneric("dict", [ea.expr, ec.expr]);
    assert args.imports + [] == args.imports;
  }

  /** `Map<K, List<C>>` with `K` a plain primitive: nested generics are filled inside out, `dict[K, list[C]]`. */
  lemma PythonNestedCollectionExample(config: GeneratorConfig, k: TypeDecl, key: string, d: TypeDecl)
    requires ResolvePrimitiveType(QualifiedKey(k)) == Some(Schema(key, []))
    requires ResolvePrimitiveType(QualifiedKey(d)) == None && d.zodable && !d.hasTypeParameters
    ensures var t := TypeNode(MapDecl, false, [Some(Plain(k)), Some(TypeNode(ListDecl, false, [Some(Plain(d))]))]);
            var r := ResolveType(PythonBackend(config), t, []);
            r == Resolution("dict[" + Join([key, "list[" + d.simpleName + "]"], ", ") + "]", [ReferenceImport(d)], [])
  {
    var list := TypeNode(ListDecl, false, [Some(Plain(d))]);
    PythonListOfClass(config, d);
    PythonLeaf(config, k, Schema(key, []));
    PythonMapOf(config, Plain(k), list);
    assert [] + [ReferenceImport(d)] == [ReferenceImport(d)];
  }

  /** A generated generic class applied to a plain primitive is subscripted, as `Message[str]`. */
  lemma PythonGenericClassExample(config: GeneratorConfig, d: TypeDecl, p: TypeDecl, e: string)
    requires ResolvePrimitiveType(QualifiedKey(d)) == None && d.zodable && d.hasTypeParameters
    requires ResolvePrimitiveType(QualifiedKey(p)) == Some(Schema(e, []))
    ensures var r := ResolveType(PythonBackend(config), TypeNode(d, false, [Some(Plain(p))]), []);
            r == Resolution(d.simpleName + "[" + e + "]", [ReferenceImport(d)], [])
  {
    var t := TypeNode(d, false, [Some(Plain(p))]);
    PythonLeaf(config, p, Schema(e, []));
    PythonOneArgument(config, t, Plain(p));
    PythonZodableComposition(config, t, Arguments([e], [], []));
    FillBareGeneric(d.simpleName, [e]);
  }

  /**
   * A nullable type argument keeps its `= None` default inside the
   * subscript: `List<Int?>` becomes `list[Optional[int] = None]`.
   */
  lemma PythonNullableArgumentExample(config: GeneratorConfig, p: TypeDecl, e: string)
    requires ResolvePrimitiveType(QualifiedKey(p)) == Some(Schema(e, []))
    ensures var r := ResolveType(PythonBackend(config), TypeNode(ListDecl, false, [Some(TypeNode(p, true, []))]), []);
            r == Resolution("list[" + ("Optional[" + e + "] = None") + "]", [OptionalImport], [])
  {
    var b := PythonBackend(config);
    var element := TypeNode(p, true, []);
    var t := TypeNode(ListDecl, false, [Some(element)]);
    var optional := "Optional[" + e + "] = None";
    PythonLeaf(config, p, Schema(e, []));
    assert element.(nullable := false) == Plain(p);
    NullableAppliedLast(b, element, []);
    assert ResolveType(b, element, []) == Resolution(optional, [OptionalImport], []);
    PythonListOf(config, element);
  }
}
