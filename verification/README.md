# zodable type-to-schema translation, modelled in Dafny

zodable is a Kotlin annotation processor (KSP). For every class annotated
`@Zodable` it writes a schema in another language: a Zod schema for
TypeScript, or a Pydantic model for Python. This project models the part
that turns Kotlin declarations into schema text. It covers:

- **Directive decoding.** The `@ZodIgnore`, `@ZodType`,
  `@ZodOverrideSchema`, `@ZodImport` and `@SerialName` annotations are
  decoded from their named arguments. When a name repeats, the last
  occurrence wins. A missing `filter` means `"*"`. A missing required
  string is a fatal error, and the whole run fails.
- **The generic generator** (`ZodableGenerator`). It is parameterised by a
  backend record whose fields are the abstract hooks of the Kotlin class.
  - The type resolver works depth first. The referenced class's import
    comes first, then the argument imports, then the base type's imports. `addGenericArguments` is applied only when there
    are arguments, and `markAsNullable` is applied last.
  - Each filtered directive is honoured only when the backend keeps its
    filter.
  - A class body is one of three things: the kept override, the enum
    entries, or the fields of the backing-field properties that are not
    ignored.
  - Imports are merged by name. A run produces one file per class, the
    index and the dependency list.
- **The Pydantic backend** (`PythonGenerator`). This covers every hook and
  the backend record built from them. It also covers the extra hooks:
  install name, union schema, literal type and extension.
- **The stand-alone TypeScript generator** (`TypescriptGenerator`). It has
  its own resolver with map-key coercion and the configured optional
  suffix. It also writes the per-class `.ts` text, `src/index.ts` and
  `dependencies.txt`. Its resolver coerces map keys as the code does. That
  includes coercing `Instant` keys twice, as described under "## Findings".
  The corrected coercion is modelled beside it.
- **The earlier single-file processor** (`ZodSchemaProcessor`). It has its
  own resolver with `.nullish()` and writes one `zodable/schemas.ts`.

Each model is immutable data plus pure functions.
- A compiler type occurrence is a `TypeNode`: a declaration, a nullability
  flag and arguments. A star projection is `None`.
- Annotations are raw records: a short name plus arguments, each with an
  optional name.
- A fatal Kotlin `error(...)` is an `Err` result.
- Log output becomes returned warnings.
- File paths are strings joined with `/`.

One behaviour the model exhibits for the Python backend is worth knowing: a nullable
type argument keeps its default inside the subscript.
`PythonGenerator.PythonNullableArgumentExample` shows that `List<Int?>`
becomes `list[Optional[int] = None]`.

## Model

| member | source | states |
|---|---|---|
| Ir.ConfigFromOptions | zodable-ksp-processor/src/main/kotlin/digital/guimauve/zodable/ZodableProcessor.kt:20-24 | a flag is on exactly when its option is present and spelled `true`. A present package name, output path or optional suffix is taken as given, and a missing one defaults to `zodable`, the empty path or the empty suffix |
| Text.Join | zodable-ksp-processor/src/main/kotlin/digital/guimauve/zodable/generators/PythonGenerator.kt:96 | joining no items gives the empty string, and joining one item gives that item; a join starts with its first item |
| Text.JoinAppend | zodable-ksp-processor/src/main/kotlin/digital/guimauve/zodable/generators/PythonGenerator.kt:84 | joining two non-empty lists puts one separator between their joins |
| Text.LastSegment | zodable-ksp-processor/src/main/kotlin/digital/guimauve/zodable/generators/ZodableGenerator.kt:131 | the last `/` segment holds no separator, is a suffix of the path, and is preceded by the separator when it is shorter than the path |
| Text.ReplaceFirst | zodable-ksp-processor/src/main/kotlin/digital/guimauve/zodable/generators/TypescriptGenerator.kt:111 | when the text starts with the pattern, only that leading occurrence is replaced |
| ImportSets.Distinct | zodable-ksp-processor/src/main/kotlin/digital/guimauve/zodable/generators/ZodableGenerator.kt:42-44 | converting to a set keeps every element exactly once and introduces nothing new |
| ImportSets.DistinctKeepsOrder | zodable-ksp-processor/src/main/kotlin/digital/guimauve/zodable/generators/ZodableGenerator.kt:62-63 | the set keeps elements in the order of their first occurrence |
| ImportSets.DistinctOfDistinct | zodable-ksp-processor/src/main/kotlin/digital/guimauve/zodable/generators/ZodableGenerator.kt:62-63 | a list without repeats is unchanged by conversion to a set |
| ImportSets.Union | zodable-ksp-processor/src/main/kotlin/digital/guimauve/zodable/generators/ZodableGenerator.kt:87-93 | the union of the default and injected imports holds each import of either once |
| ImportSets.AddByName | zodable-ksp-processor/src/main/kotlin/digital/guimauve/zodable/generators/ZodableGenerator.kt:58-60 | an import is added only when no import of its name is present; names stay unique |
| ImportSets.MergeByName | zodable-ksp-processor/src/main/kotlin/digital/guimauve/zodable/generators/ZodableGenerator.kt:58-60 | merging nothing changes nothing; merging only appends, and everything appended comes from the property's imports under a name the class set did not hold; names that were unique stay unique |
| ImportSets.MergeByNameNames | zodable-ksp-processor/src/main/kotlin/digital/guimauve/zodable/generators/ZodableGenerator.kt:58-60 | after merging, the import names are exactly those of the class set and the property's imports |
| ImportSets.MergeByNameSnoc | zodable-ksp-processor/src/main/kotlin/digital/guimauve/zodable/generators/ZodableGenerator.kt:58-60 | merging a list ending in `x` is merging the rest and then adding `x` by name, so the first import of a name wins and new imports are appended in the order they are met |
| Directives.Lookup | zodable-ksp-processor/src/main/kotlin/digital/guimauve/zodable/generators/ZodableGenerator.kt:159 | an argument is found iff one carries the name, and the value found is that of the last such argument |
| Directives.DecodeZodType | zodable-ksp-processor/src/main/kotlin/digital/guimauve/zodable/generators/ZodableGenerator.kt:183-189 | decoding fails exactly when no string `value` argument exists |
| Directives.DecodeZodOverrideSchema | zodable-ksp-processor/src/main/kotlin/digital/guimauve/zodable/generators/ZodableGenerator.kt:158-164 | decoding fails exactly when no string `content` argument exists |
| Directives.DecodeZodImport | zodable-ksp-processor/src/main/kotlin/digital/guimauve/zodable/generators/ZodableGenerator.kt:166-174 | decoding fails exactly when the `name` or `source` string is missing; the import is invariable iff `isInvariable` is the boolean `true` |
| Directives.ZodIgnoreRoundTrip | zodable-ksp-processor/src/main/kotlin/digital/guimauve/zodable/generators/ZodableGenerator.kt:176-181 | decoding an ignore directive written with its filter gives it back |
| Directives.ZodTypeRoundTrip | zodable-ksp-processor/src/main/kotlin/digital/guimauve/zodable/generators/ZodableGenerator.kt:183-189 | decoding a type directive written with all its arguments gives it back |
| Directives.ZodOverrideSchemaRoundTrip | zodable-ksp-processor/src/main/kotlin/digital/guimauve/zodable/generators/ZodableGenerator.kt:158-164 | decoding an override written with all its arguments gives it back |
| Directives.ZodImportRoundTrip | zodable-ksp-processor/src/main/kotlin/digital/guimauve/zodable/generators/ZodableGenerator.kt:166-174 | decoding an import directive written with all its arguments gives it back |
| Directives.FilterDefaultsToWildcard | zodable-ksp-processor/src/main/kotlin/digital/guimauve/zodable/generators/ZodableGenerator.kt:162 | a directive written without a filter decodes with filter `*` |
| Directives.ZodTypeWithoutValueFails | zodable-ksp-processor/src/main/kotlin/digital/guimauve/zodable/generators/ZodableGenerator.kt:186 | a type directive whose value is missing or not a string is a fatal error, whatever its filter |
| ZodableGenerator.ReferenceImportNamesClass | zodable-ksp-processor/src/main/kotlin/digital/guimauve/zodable/generators/ZodableGenerator.kt:128-131 | a referenced class is imported internally under its simple name from `package/path/Name` |
| ZodableGenerator.ResolveBase | zodable-ksp-processor/src/main/kotlin/digital/guimauve/zodable/generators/ZodableGenerator.kt:124-140 | the primitive table wins. Otherwise a `@Zodable` class is referenced and imported, or a type parameter is passed through. Only the unknown fallback logs a warning |
| ZodableGenerator.ResolveArgs | zodable-ksp-processor/src/main/kotlin/digital/guimauve/zodable/generators/ZodableGenerator.kt:119-122 | there is one argument expression per type argument, in order, and a star projection is the unknown type; the argument imports are collected |
| ZodableGenerator.ResolveArgsContents | zodable-ksp-processor/src/main/kotlin/digital/guimauve/zodable/generators/ZodableGenerator.kt:119-122 | an import or a warning belongs to the arguments exactly when it belongs to the resolution of one of them |
| ZodableGenerator.ResolveArgsExtends | zodable-ksp-processor/src/main/kotlin/digital/guimauve/zodable/generators/ZodableGenerator.kt:119-122 | resolving more arguments only extends the expressions, imports and warnings of fewer, so they stay in argument order |
| ZodableGenerator.NullableAppliedLast | zodable-ksp-processor/src/main/kotlin/digital/guimauve/zodable/generators/ZodableGenerator.kt:150-155 | a nullable occurrence is the non-nullable one passed once through `markAsNullable`, with its imports last |
| ZodableGenerator.GenericArgumentsOnlyWithArguments | zodable-ksp-processor/src/main/kotlin/digital/guimauve/zodable/generators/ZodableGenerator.kt:142-149 | a non-nullable occurrence without type arguments is its base expression, importing the referenced class and then the base's imports, with the base's warnings; with arguments, its expression is the base passed through `addGenericArguments` with the resolved arguments |
| ZodableGenerator.PrimitiveWithArguments | zodable-ksp-processor/src/main/kotlin/digital/guimauve/zodable/generators/ZodableGenerator.kt:124-149 | a table type with arguments is its table entry filled with the resolved arguments. The argument imports come first, then the entry's, then those of the filling |
| ZodableGenerator.ArgumentImportsKept | zodable-ksp-processor/src/main/kotlin/digital/guimauve/zodable/generators/ZodableGenerator.kt:142 | the imports of every type argument reach the occurrence's imports |
| ZodableGenerator.InternalImportsAreReferences | zodable-ksp-processor/src/main/kotlin/digital/guimauve/zodable/generators/ZodableGenerator.kt:115-156 | when the backend asks only for external imports, the internal imports of an occurrence are exactly the `@Zodable` classes it names at any depth |
| ZodableGenerator.FirstKept | zodable-ksp-processor/src/main/kotlin/digital/guimauve/zodable/generators/ZodableGenerator.kt:105-110 | the first directive of a kind whose filter is kept is chosen. Nothing is chosen iff all of them are skipped. A decoding error before the chosen one aborts the run |
| ZodableGenerator.ResolveProperty | zodable-ksp-processor/src/main/kotlin/digital/guimauve/zodable/generators/ZodableGenerator.kt:95-113 | a property is dropped iff a kept `@ZodIgnore` exists; otherwise a kept `@ZodType` gives its value with no imports, else its type is resolved |
| ZodableGenerator.FilteredOutNotIgnoring | zodable-ksp-processor/src/main/kotlin/digital/guimauve/zodable/generators/ZodableGenerator.kt:102 | an ignore directive whose filter the backend rejects does not ignore |
| ZodableGenerator.IgnoredSkipsFilteredOut | zodable-ksp-processor/src/main/kotlin/digital/guimauve/zodable/generators/ZodableGenerator.kt:99-104 | adding rejected directives in front of the annotations changes neither direction of "ignored" |
| ZodableGenerator.CustomTypeSkipsFilteredOut | zodable-ksp-processor/src/main/kotlin/digital/guimauve/zodable/generators/ZodableGenerator.kt:105-110 | adding rejected directives in front of the annotations does not change the chosen type override |
| ZodableGenerator.FilteredOutDirectivesInvisible | zodable-ksp-processor/src/main/kotlin/digital/guimauve/zodable/generators/ZodableGenerator.kt:99-112 | directives meant for another backend leave a property's resolution unchanged |
| ZodableGenerator.FirstSerialName | zodable-ksp-processor/src/main/kotlin/digital/guimauve/zodable/generators/ZodableGenerator.kt:52-55 | the field name is the first `@SerialName`'s value, and the simple name when there is none |
| ZodableGenerator.ZodImports | zodable-ksp-processor/src/main/kotlin/digital/guimauve/zodable/generators/ZodableGenerator.kt:88-93 | the run fails iff some `@ZodImport` cannot be decoded, and then with the message of the first such annotation, since they are decoded front to back. Otherwise an import is present exactly when a kept `@ZodImport` injects it, as an external dependency with its invariability |
| ZodableGenerator.ZodImportsFirstErrorWins | zodable-ksp-processor/src/main/kotlin/digital/guimauve/zodable/generators/ZodableGenerator.kt:88-93 | a `@ZodImport` with no `name` followed by one with no `source` fails with `Missing 'name'` |
| ZodableGenerator.InjectedImport | zodable-ksp-processor/src/main/kotlin/digital/guimauve/zodable/generators/ZodableGenerator.kt:92 | an injected import keeps the name, source and invariability of its directive, and is external and a dependency |
| ZodableGenerator.ClassImports | zodable-ksp-processor/src/main/kotlin/digital/guimauve/zodable/generators/ZodableGenerator.kt:87-93 | the class set exists iff the `@ZodImport`s decode; it has no repeats and holds exactly the default imports and the kept injected ones |
| ZodableGenerator.AddField | zodable-ksp-processor/src/main/kotlin/digital/guimauve/zodable/generators/ZodableGenerator.kt:50-61 | a property fails iff it has a backing field and does not resolve. One that is not emitted changes nothing; an emitted one appends its field name and type, adds exactly its import names, and appends its warnings |
| ZodableGenerator.AppendField | zodable-ksp-processor/src/main/kotlin/digital/guimauve/zodable/generators/ZodableGenerator.kt:58-61 | an emitted field appends its pair and warnings, keeps the earlier imports as a prefix, adds exactly its import names and keeps names unique |
| ZodableGenerator.CollectFields | zodable-ksp-processor/src/main/kotlin/digital/guimauve/zodable/generators/ZodableGenerator.kt:49-63 | the field names are exactly those of the emitted properties, and the class import names stay unique |
| ZodableGenerator.EmittedProperties | zodable-ksp-processor/src/main/kotlin/digital/guimauve/zodable/generators/ZodableGenerator.kt:49-57 | a property becomes a field iff it has a backing field and no kept `@ZodIgnore`; declaration order is fixed by EmittedPropertiesSingleton and EmittedPropertiesAppend |
| ZodableGenerator.EmittedPropertiesSingleton | zodable-ksp-processor/src/main/kotlin/digital/guimauve/zodable/generators/ZodableGenerator.kt:49-50 | a single property is kept iff it has a backing field and is not ignored |
| ZodableGenerator.EmittedPropertiesAppend | zodable-ksp-processor/src/main/kotlin/digital/guimauve/zodable/generators/ZodableGenerator.kt:49-57 | the filter distributes over concatenation, so kept properties stay in declaration order |
| ZodableGenerator.FieldPairs | zodable-ksp-processor/src/main/kotlin/digital/guimauve/zodable/generators/ZodableGenerator.kt:52-61 | one pair per kept property in order: its field name and its resolved type |
| ZodableGenerator.CollectFieldsFails | zodable-ksp-processor/src/main/kotlin/digital/guimauve/zodable/generators/ZodableGenerator.kt:49-63 | collecting fails exactly when some backing-field property fails to resolve |
| ZodableGenerator.CollectFieldsPairs | zodable-ksp-processor/src/main/kotlin/digital/guimauve/zodable/generators/ZodableGenerator.kt:49-63 | the collected pairs are those of the emitted properties, in declaration order |
| ZodableGenerator.CollectFieldsImportNames | zodable-ksp-processor/src/main/kotlin/digital/guimauve/zodable/generators/ZodableGenerator.kt:58-60 | the class import names grow by exactly the import names of the emitted properties |
| ZodableGenerator.DependencySources | zodable-ksp-processor/src/main/kotlin/digital/guimauve/zodable/generators/ZodableGenerator.kt:72 | a source is listed iff some import from it is external and a dependency |
| ZodableGenerator.GenerateClass | zodable-ksp-processor/src/main/kotlin/digital/guimauve/zodable/generators/ZodableGenerator.kt:23-74 | the export is the class name and slash path. The file holds the import block, a blank line and the body. A kept override replaces the body without resolving any property, and every default import is present |
| ZodableGenerator.GenerateEnumClass | zodable-ksp-processor/src/main/kotlin/digital/guimauve/zodable/generators/ZodableGenerator.kt:40-46 | without an override an enum succeeds, its body lists its distinct entries, it imports the class-level set and logs nothing |
| ZodableGenerator.GenerateObjectClassFails | zodable-ksp-processor/src/main/kotlin/digital/guimauve/zodable/generators/ZodableGenerator.kt:48-64 | without an override any other class succeeds iff none of its backing-field properties fails to resolve |
| ZodableGenerator.GenerateObjectClass | zodable-ksp-processor/src/main/kotlin/digital/guimauve/zodable/generators/ZodableGenerator.kt:48-64 | without an override the body lists the emitted properties in order, once each, with their types, and the import names are the class-level ones plus those of the emitted properties |
| ZodableGenerator.GenerateClassFails | zodable-ksp-processor/src/main/kotlin/digital/guimauve/zodable/generators/ZodableGenerator.kt:31-38 | a class whose `@ZodImport`s or kept override do not decode fails the run |
| Ir.Traverse | zodable-ksp-processor/src/main/kotlin/digital/guimauve/zodable/generators/ZodableGenerator.kt:23-75 | mapping with a fatal error succeeds iff every element does, keeping order. A failure carries the message of the first failing element |
| ZodableGenerator.GenerateAll | zodable-ksp-processor/src/main/kotlin/digital/guimauve/zodable/generators/ZodableGenerator.kt:23-75 | the run succeeds iff every class does, and produces one output per class in order |
| ZodableGenerator.GenerateFiles | zodable-ksp-processor/src/main/kotlin/digital/guimauve/zodable/generators/ZodableGenerator.kt:18-85 | one file per class, each the file its class generates, then the index built from the exports, then the dependency list. The list names each dependency source of any class exactly once |
| PythonGenerator.PythonCompatible | zodable-ksp-processor/src/main/kotlin/digital/guimauve/zodable/generators/PythonGenerator.kt:16 | every `-` becomes `_`, every other character is kept, and the length is unchanged |
| PythonGenerator.PythonCompatibleIdempotent | zodable-ksp-processor/src/main/kotlin/digital/guimauve/zodable/generators/PythonGenerator.kt:16 | a compatible name is left unchanged |
| PythonGenerator.ShouldKeepAnnotation | zodable-ksp-processor/src/main/kotlin/digital/guimauve/zodable/generators/PythonGenerator.kt:18-20 | exactly the filters `*`, `pydantic`, `py` and `python` are kept |
| PythonGenerator.PythonFilterGating | zodable-ksp-processor/src/main/kotlin/digital/guimauve/zodable/generators/PythonGenerator.kt:18-20 | a `ts` directive is not kept, and a wildcard directive is |
| PythonGenerator.TsDirectivesIgnoredByPython | zodable-ksp-processor/src/main/kotlin/digital/guimauve/zodable/generators/PythonGenerator.kt:18-20 | `ts`-filtered ignore and type directives leave the Python resolution of a property unchanged |
| PythonGenerator.PythonFileLayout | zodable-ksp-processor/src/main/kotlin/digital/guimauve/zodable/generators/PythonGenerator.kt:22-36 | the package folder is named without `-`. It holds `__init__.py` and the per-class `.py` files, and `requirements.txt` sits in the output folder |
| PythonGenerator.ResolveInstallName | zodable-ksp-processor/src/main/kotlin/digital/guimauve/zodable/generators/PythonGenerator.kt:38-40 | the install name is the source, followed by the version when one is given |
| PythonGenerator.ResolveDefaultImports | zodable-ksp-processor/src/main/kotlin/digital/guimauve/zodable/generators/PythonGenerator.kt:42-67 | a class needs, once each, exactly `Enum` (for an enum) or `BaseModel`, plus `Generic` and `TypeVar` when generic, plus `Union` when it has sealed subclasses |
| PythonGenerator.DefaultImportFlags | zodable-ksp-processor/src/main/kotlin/digital/guimauve/zodable/generators/PythonGenerator.kt:42-67 | `Enum` iff an enum and `BaseModel` iff not, `Generic` and `TypeVar` iff generic, `Union` iff there are sealed subclasses |
| PythonGenerator.DefaultImportsExternal | zodable-ksp-processor/src/main/kotlin/digital/guimauve/zodable/generators/PythonGenerator.kt:49-66 | every default import is external, and only `Enum` is not a dependency |
| PythonGenerator.ImportLine | zodable-ksp-processor/src/main/kotlin/digital/guimauve/zodable/generators/PythonGenerator.kt:69-78 | each line reads `from M import N`. An external module is the import-safe source; an internal one is the package folder, a dot and the import path, with every `/` written as `.` |
| PythonGenerator.InternalModule | zodable-ksp-processor/src/main/kotlin/digital/guimauve/zodable/generators/PythonGenerator.kt:73-75 | the dotted module of a file is the dotted folder, a dot, then the dotted path |
| PythonGenerator.ReferenceImportMatchesIndex | zodable-ksp-processor/src/main/kotlin/digital/guimauve/zodable/generators/PythonGenerator.kt:69-85 | a class imported by another file names the same module the package index imports it from |
| PythonGenerator.IndexExportLines | zodable-ksp-processor/src/main/kotlin/digital/guimauve/zodable/generators/PythonGenerator.kt:80-85 | the index is one import line per export, then the `__all__` line naming the exports in the same order; with no exports it is `"\n__all__ = []"` |
| PythonGenerator.ClassSchemaLines | zodable-ksp-processor/src/main/kotlin/digital/guimauve/zodable/generators/PythonGenerator.kt:87-98 | a class is one `TypeVar` line per argument, the class line, then one line per field, or `pass` when there are none |
| PythonGenerator.GenerateEnumSchema | zodable-ksp-processor/src/main/kotlin/digital/guimauve/zodable/generators/PythonGenerator.kt:100-102 | an enum is the class line followed by one `name = 'name'` line per value; an enum without values is the class line and a newline only |
| PythonGenerator.GenerateUnionSchema | zodable-ksp-processor/src/main/kotlin/digital/guimauve/zodable/generators/PythonGenerator.kt:104-106 | the alias is `Name = Union[...]` with the members joined in order between the brackets |
| PythonGenerator.ResolvePrimitiveType | zodable-ksp-processor/src/main/kotlin/digital/guimauve/zodable/generators/PythonGenerator.kt:108-134 | a type is primitive iff it is one of the fifteen listed, and its imports are external and at most one |
| PythonGenerator.ResolveZodableType | zodable-ksp-processor/src/main/kotlin/digital/guimauve/zodable/generators/PythonGenerator.kt:136-138 | a class reference starts with the class name and is left open with `[]` exactly when it is generic; it needs no import |
| PythonGenerator.ResolveLiteralType | zodable-ksp-processor/src/main/kotlin/digital/guimauve/zodable/generators/PythonGenerator.kt:140-144 | a literal type is `Literal["name"]` with exactly the name between the quotes, and needs exactly the `Literal` import |
| PythonGenerator.AddGenericArguments | zodable-ksp-processor/src/main/kotlin/digital/guimauve/zodable/generators/PythonGenerator.kt:154-157 | a type not ending in `[]` is unchanged. A bare generic gets the arguments joined between its brackets |
| PythonGenerator.AddGenericArgumentsOnce | zodable-ksp-processor/src/main/kotlin/digital/guimauve/zodable/generators/PythonGenerator.kt:154-157 | once filled with non-empty arguments, a generic is no longer bare, so filling it again changes nothing |
| PythonGenerator.FillBareGeneric | zodable-ksp-processor/src/main/kotlin/digital/guimauve/zodable/generators/PythonGenerator.kt:155-156 | `Name[]` filled with arguments is `Name[a, b, ...]` |
| PythonGenerator.MarkAsNullable | zodable-ksp-processor/src/main/kotlin/digital/guimauve/zodable/generators/PythonGenerator.kt:159-161 | an optional annotation unwraps back to the original type and needs exactly the `Optional` import |
| PythonGenerator.PythonCombinatorsExternal | zodable-ksp-processor/src/main/kotlin/digital/guimauve/zodable/generators/PythonGenerator.kt:108-161 | every Python combinator asks only for external imports |
| PythonGenerator.PythonInternalImports | zodable-ksp-processor/src/main/kotlin/digital/guimauve/zodable/generators/PythonGenerator.kt:136-138 | the Python internal imports of a type are exactly the generated classes it names |
| PythonGenerator.PythonListOf | zodable-ksp-processor/src/main/kotlin/digital/guimauve/zodable/generators/PythonGenerator.kt:130 | `List<A>` is `list[a]` with the imports and warnings of `A` |
| PythonGenerator.PythonMapOf | zodable-ksp-processor/src/main/kotlin/digital/guimauve/zodable/generators/PythonGenerator.kt:131 | `Map<A, C>` is `dict[a, c]`, with the imports and warnings of `A` and then those of `C` |
| PythonGenerator.PythonListOfClass | zodable-ksp-processor/src/main/kotlin/digital/guimauve/zodable/generators/PythonGenerator.kt:136-138 | a list of a generated class is `list[C]` importing just that class |
| PythonGenerator.PythonNestedCollectionExample | zodable-ksp-processor/src/main/kotlin/digital/guimauve/zodable/generators/PythonGenerator.kt:130-131 | `Map<K, List<C>>` is `dict[k, list[C]]`, filled inside out |
| PythonGenerator.PythonGenericClassExample | zodable-ksp-processor/src/main/kotlin/digital/guimauve/zodable/generators/PythonGenerator.kt:136-138 | a generic generated class applied to a primitive is subscripted, as `Message[str]` |
| PythonGenerator.PythonNullableArgumentExample | zodable-ksp-processor/src/main/kotlin/digital/guimauve/zodable/generators/PythonGenerator.kt:159-161 | a nullable list element becomes `list[Optional[e] = None]` |
| TypescriptGenerator.ScalarSchema | zodable-ksp-processor/src/main/kotlin/digital/guimauve/zodable/generators/TypescriptGenerator.kt:88-94 | exactly the eight listed types are scalars, and their schemas start with `z.` |
| TypescriptGenerator.CoerceKeyAsWritten | zodable-ksp-processor/src/main/kotlin/digital/guimauve/zodable/generators/TypescriptGenerator.kt:110-112 | a key schema starting with `z.` gets `z.coerce.` in place of that prefix; any other key is unchanged |
| TypescriptGenerator.InstantKeyCoercedTwice | zodable-ksp-processor/src/main/kotlin/digital/guimauve/zodable/generators/TypescriptGenerator.kt:93 | as written, an `Instant` map key becomes `z.coerce.coerce.date()`; the corrected coercion leaves it `z.coerce.date()` |
| TypescriptGenerator.CoerceKeyAsWrittenNotIdempotent | zodable-ksp-processor/src/main/kotlin/digital/guimauve/zodable/generators/TypescriptGenerator.kt:110-112 | as written, coercing any `z.` key twice gives a `z.coerce.coerce.` prefix, so a second coercion always changes a coerced key |
| TypescriptGenerator.CoerceKey | zodable-ksp-processor/src/main/kotlin/digital/guimauve/zodable/generators/TypescriptGenerator.kt:110-112 | a key starting with `z.` but not `z.coerce.` gets `z.coerce.` in place of `z.`; a key already coercing, and any key not starting with `z.`, is unchanged |
| TypescriptGenerator.CoerceKeyIdempotent | zodable-ksp-processor/src/main/kotlin/digital/guimauve/zodable/generators/TypescriptGenerator.kt:110-112 | coercing twice is coercing once |
| TypescriptGenerator.CoerceKeyAgreesWhenNotCoerced | zodable-ksp-processor/src/main/kotlin/digital/guimauve/zodable/generators/TypescriptGenerator.kt:110-112 | the correction agrees with the code on every key not already starting with `z.coerce.` |
| TypescriptGenerator.OptionalAppliedOnce | zodable-ksp-processor/src/main/kotlin/digital/guimauve/zodable/generators/TypescriptGenerator.kt:86-131 | nullability only appends the suffix once, and imports and warnings are those of the non-nullable occurrence |
| TypescriptGenerator.TsScalarOf | zodable-ksp-processor/src/main/kotlin/digital/guimauve/zodable/generators/TypescriptGenerator.kt:88-94 | a table type is its fixed schema with the optional suffix when nullable, importing and warning nothing |
| TypescriptGenerator.TsListOf | zodable-ksp-processor/src/main/kotlin/digital/guimauve/zodable/generators/TypescriptGenerator.kt:95-102 | `List<E>` is `z.array(e)`, with the imports and warnings of `E` |
| TypescriptGenerator.TsMapOf | zodable-ksp-processor/src/main/kotlin/digital/guimauve/zodable/generators/TypescriptGenerator.kt:104-117 | `Map<K, V>` is `z.record(k, v)`, importing the classes of `K` then `V`; with coercion on, a key starting with `z.` has that prefix replaced by `z.coerce.` even when it already coerces |
| TypescriptGenerator.TsMissingArguments | zodable-ksp-processor/src/main/kotlin/digital/guimauve/zodable/generators/TypescriptGenerator.kt:95-117 | a list or map without its arguments, or with star projections, gets unknown elements and logs nothing |
| TypescriptGenerator.TsUnknownOf | zodable-ksp-processor/src/main/kotlin/digital/guimauve/zodable/generators/TypescriptGenerator.kt:119-129 | any other type that is not a `@Zodable` class is `z.unknown()` with one warning naming it |
| TypescriptGenerator.InstantMapKeyAsWritten | zodable-ksp-processor/src/main/kotlin/digital/guimauve/zodable/generators/TypescriptGenerator.kt:104-117 | as written, `Map<Instant, String>` with coerced keys becomes `z.record(z.coerce.coerce.date(), z.string())` |
| TypescriptGenerator.TsClassOrUnknown | zodable-ksp-processor/src/main/kotlin/digital/guimauve/zodable/generators/TypescriptGenerator.kt:119-129 | a class is imported iff it is `@Zodable`, and a warning is logged iff it is not |
| TypescriptGenerator.TsImportsAreMentioned | zodable-ksp-processor/src/main/kotlin/digital/guimauve/zodable/generators/TypescriptGenerator.kt:95-129 | every imported path is the path of a `@Zodable` class named in the type |
| TypescriptGenerator.CoercionKeepsImportsAndWarnings | zodable-ksp-processor/src/main/kotlin/digital/guimauve/zodable/generators/TypescriptGenerator.kt:104-117 | turning map-key coercion on or off changes only schema text. Every occurrence keeps the same imports and warnings |
| TypescriptGenerator.ReferenceImportLineNamesSchema | zodable-ksp-processor/src/main/kotlin/digital/guimauve/zodable/generators/TypescriptGenerator.kt:44-46 | a `@Zodable` class outside the fixed table is imported from its path. The import line for that path brings in exactly the schema name the expression uses |
| TypescriptGenerator.InferLine | zodable-ksp-processor/src/main/kotlin/digital/guimauve/zodable/generators/TypescriptGenerator.kt:65 | the type alias is written iff type inference is configured, and it names the class |
| TypescriptGenerator.FirstZodTypeArgument | zodable-ksp-processor/src/main/kotlin/digital/guimauve/zodable/generators/TypescriptGenerator.kt:78-80 | the first `@ZodType` alone decides: the override is its first argument when that is a string, and none otherwise; without a `@ZodType` there is none |
| TypescriptGenerator.FirstZodTypeDecides | zodable-ksp-processor/src/main/kotlin/digital/guimauve/zodable/generators/TypescriptGenerator.kt:78-80 | annotations after a `@ZodType` never change the override |
| TypescriptGenerator.TsResolveProperty | zodable-ksp-processor/src/main/kotlin/digital/guimauve/zodable/generators/TypescriptGenerator.kt:77-83 | when the first `@ZodType` has a string first argument it is used as is with no import; without a `@ZodType`, or when that argument is not a string, the property's type is resolved |
| TypescriptGenerator.Emitted | zodable-ksp-processor/src/main/kotlin/digital/guimauve/zodable/generators/TypescriptGenerator.kt:34 | exactly the properties with a backing field are emitted |
| TypescriptGenerator.EmittedSingleton | zodable-ksp-processor/src/main/kotlin/digital/guimauve/zodable/generators/TypescriptGenerator.kt:34 | a single property is emitted iff it has a backing field |
| TypescriptGenerator.EmittedAppend | zodable-ksp-processor/src/main/kotlin/digital/guimauve/zodable/generators/TypescriptGenerator.kt:34 | emission distributes over concatenation, so the emitted properties keep their order |
| TypescriptGenerator.EmittedAll | zodable-ksp-processor/src/main/kotlin/digital/guimauve/zodable/generators/TypescriptGenerator.kt:34 | when every property has a backing field, all are emitted in order |
| TypescriptGenerator.PropertyImports | zodable-ksp-processor/src/main/kotlin/digital/guimauve/zodable/generators/TypescriptGenerator.kt:35-40 | a path is collected iff some property's resolution imports it |
| TypescriptGenerator.ClassPaths | zodable-ksp-processor/src/main/kotlin/digital/guimauve/zodable/generators/TypescriptGenerator.kt:26-41 | an enum imports nothing. Any other class imports, once each, exactly the paths its backing-field properties need |
| TypescriptGenerator.Packages | zodable-ksp-processor/src/main/kotlin/digital/guimauve/zodable/generators/TypescriptGenerator.kt:48-57 | a package is listed iff some `@ZodImport` has strings as its first and last arguments and names it last |
| TypescriptGenerator.ClassText | zodable-ksp-processor/src/main/kotlin/digital/guimauve/zodable/generators/TypescriptGenerator.kt:43-65 | every class file starts with the `zod` import |
| TypescriptGenerator.ClassTextLayout | zodable-ksp-processor/src/main/kotlin/digital/guimauve/zodable/generators/TypescriptGenerator.kt:43-65 | a class file is, in order, the `zod` import, one line per imported class path, one line per string `@ZodImport`, the schema constant after a blank line, and the inferred type when configured |
| TypescriptGenerator.TsClass | zodable-ksp-processor/src/main/kotlin/digital/guimauve/zodable/generators/TypescriptGenerator.kt:20-68 | the file sits under `src/` at the package path. The index line re-exports it. Imports and packages are those of the class, and an enum logs no warning |
| TypescriptGenerator.TsGenerateFiles | zodable-ksp-processor/src/main/kotlin/digital/guimauve/zodable/generators/TypescriptGenerator.kt:15-75 | one file per class, then the index re-exporting every class in order, then `dependencies.txt`. That file names each imported package exactly once |
| ZodSchemaProcessor.ZspScalar | zodable-ksp-processor/src/main/kotlin/digital/guimauve/zodable/ZodSchemaProcessor.kt:54-59 | the scalars are exactly the TypeScript generator's table without `Instant`, with the same schemas |
| ZodSchemaProcessor.NullishAppliedOnce | zodable-ksp-processor/src/main/kotlin/digital/guimauve/zodable/ZodSchemaProcessor.kt:80 | a nullable occurrence is the non-nullable one followed by `.nullish()` once |
| ZodSchemaProcessor.ZspContainers | zodable-ksp-processor/src/main/kotlin/digital/guimauve/zodable/ZodSchemaProcessor.kt:60-71 | `List<E>` is `z.array(e)` and `Map<K, V>` is `z.record(k, v)` with the key left as it is, each followed by `.nullish()` when nullable |
| ZodSchemaProcessor.ZspMissingArguments | zodable-ksp-processor/src/main/kotlin/digital/guimauve/zodable/ZodSchemaProcessor.kt:60-71 | a list or map without its arguments, or with star projections, gets unknown elements |
| ZodSchemaProcessor.AgreesWithTypescript | zodable-ksp-processor/src/main/kotlin/digital/guimauve/zodable/ZodSchemaProcessor.kt:52-81 | apart from `Instant`, this resolver is the TypeScript one run without coercion and with `.nullish()` |
| ZodSchemaProcessor.ZspResolveProperty | zodable-ksp-processor/src/main/kotlin/digital/guimauve/zodable/ZodSchemaProcessor.kt:44-50 | the first `@ZodType` decides: its string first argument is used as is; without a `@ZodType`, or with a non-string first argument, the type is resolved |
| ZodSchemaProcessor.Entries | zodable-ksp-processor/src/main/kotlin/digital/guimauve/zodable/ZodSchemaProcessor.kt:31-35 | one `name: schema` entry per property, in order, with or without a backing field |
| ZodSchemaProcessor.Process | zodable-ksp-processor/src/main/kotlin/digital/guimauve/zodable/ZodSchemaProcessor.kt:17-42 | no file without classes. Otherwise `zodable/schemas.ts` holds the `zod` import, then one block per class in order |
| ZodSchemaProcessor.EntriesAgreeWithTypescript | zodable-ksp-processor/src/main/kotlin/digital/guimauve/zodable/ZodSchemaProcessor.kt:31-35 | for backing-field properties without `Instant`, the fields are the TypeScript generator's under `.nullish()` and no coercion |

## Left out

- File-system effects are not modelled: directory creation, output streams and encodings. Paths are strings joined with `/`. Python's `relativeTo` is modelled as the package name followed by the source, which assumes normalised paths.
- The compiler's symbol API is not modelled. Declarations, properties, type arguments and annotations are given as data. `getAllProperties` is the property list of a class, and enum entries are its nested class names.
- The logger is not modelled. Each warning is returned in order instead.
- `trimIndent` is a parameter of the override step. Its whitespace rules are not modelled.
- Kotlin's lazy `exports` sequence is not modelled. The Python index traverses it twice, once to import and once for `__all__`. This re-writes every class file with the same text and logs each warning twice. The model generates each class once.
- ZodableProcessor.kt is modelled only for the options it reads. Enabling each backend, `valueClassUnwrap` and the sibling `pydantable` output folder are not part of this model.
- Version skew: the stand-alone TypeScript generator and the Python extra hooks (`resolveInstallName`, `generateUnionSchema`, `resolveLiteralType`, `extensionName`) belong to generator versions other than the abstract class shown. They are modelled as separate functions that nothing in the run calls.
- The Gradle plugin and Files.kt are not part of this model.
- TypescriptGenerator.TsImportsAreMentioned: states only that imports come from classes the type names. The converse does not hold, because the arguments of a class reference are never visited.

## Findings

| source | as written | input that shows it | evidently intended | confidence | as-written member | corrected member |
|---|---|---|---|---|---|---|
| zodable-ksp-processor/src/main/kotlin/digital/guimauve/zodable/generators/TypescriptGenerator.kt:110-112 | with `coerceMapKeys`, any key schema starting with `z.` has that prefix replaced by `z.coerce.`, including a key that already coerces | `Map<kotlinx.datetime.Instant, String>`: the key schema `z.coerce.date()` becomes `z.coerce.coerce.date()`, which Zod does not define | a key that already coerces is left as it is, so coercion is idempotent | medium, not executed | TypescriptGenerator.CoerceKeyAsWritten | TypescriptGenerator.CoerceKey |
