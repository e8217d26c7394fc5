# MicroAPI source generators, modelled in Dafny

MicroAPI is a pair of Roslyn incremental source generators for ASP.NET Core.

- **Controller generator.** A `partial` class marked `[HttpFacade]` (or
  `[HttpFacade<TService>]`) gets a generated half. The generated half is an
  ASP.NET controller with an injected `_service` field. It has one endpoint
  per method that carries an HTTP-verb attribute (`[Get]`, `[Post]`, …).
  Each endpoint binds its parameters from the route, the query or a
  generated request record, and forwards the call to the service method of
  the same name. A route parameter that no method parameter binds is
  reported as the warning MA003.
- **DTO generator.** A `partial` class marked `[Dto<TEntity>]` (or
  `[Dto(typeof(TEntity))]`) gets one auto-property per property of the
  entity type. Properties that the class ignores or declares itself are
  left out. A class marked `[Dto]` without `partial` gets the error MA002
  instead.
- **`GeneratorHelper`.** Renders attribute arguments (typed constants) as
  C# text.

The model works on values that stand for Roslyn's syntax and symbols:

- a syntax node shows its attribute names as written, its `partial`
  modifier and its declared symbol;
- a symbol shows its attributes, members, interfaces and namespace.

Each generator step is a function or method over these values. Each step
yields structured output: an `Endpoint`, a `ControllerSource`, a
`DtoSource`, a `Diagnostic`. Where the text itself matters, the model also
gives the emitted lines: attribute lines and endpoint lines.

Modules, in dependency order:

| module | file | models |
|---|---|---|
| `Strings` | strings.dfy | `EndsWith`/`Substring` suffix trimming, `string.Join`, `IndexOf`, `Split(..., RemoveEmptyEntries)`, `Replace` |
| `Collections` | collections.dfy | `Where`, `Select`, `FirstOrDefault`, `Distinct` |
| `Symbols` | symbols.dfy | the Roslyn values, and the attribute-name test both syntax predicates use |
| `GeneratorHelper` | generator_helper.dfy | `GeneratorHelper.FormatAttributeArgument` |
| `ControllerRoutes` | controller_routes.dfy | `ExtractRouteParameters`, `WarnIfHasUnmatchedRouteParam` |
| `ControllerAttributes` | controller_attributes.dfy | copying a facade method's attributes onto its endpoint |
| `ControllerGenerator` | controller_generator.dfy | discovery, `ProcessFacadeClass`, `GetServiceType`, `GeneratePartialControllerImplementation` |
| `DtoGenerator` | dto_generator.dfy | `IsDtoClass`, MA002, `GetDtoClassInfo`, `GenerateDto`, `GenerateDtoClassDefinition`, `GetPropertyType` |

Where the code and its own comments differ, the model follows the code:

- The endpoints come from the facade class's own ordinary methods
  (`controllerClass.GetMembers()`, src/MicroAPI/ControllerGenerator.cs:182).
  They do not come from the service interface, as the comment at
  src/MicroAPI/ControllerGenerator.cs:181 says. The service type only
  supplies the type of the `_service` field.
- The controller name drops one trailing `Controller`. The output key
  then adds `Controller` back, so a facade class `UsersController` and a
  facade class `Users` both produce `UsersController.g.cs`.
- A `[Dto]` attribute whose entity type is neither a type argument nor a
  `typeof` constructor argument makes the generator throw. Without a
  constructor argument the index `ConstructorArguments[0]` throws
  (src/MicroAPI/DtoGenerator.cs:127); with a null `typeof` the later
  `GetMembers()` call throws (src/MicroAPI/DtoGenerator.cs:185). So does
  `IgnoredProperties = null` when the loop reaches it before an
  `IgnoredProperties` array with elements: the pattern at
  src/MicroAPI/DtoGenerator.cs:137 reads the null array's length. The
  model states both as the precondition `DtoGenerator.AllResolvable` of
  `RunDtoGenerator`.

Inputs from outside the generators are parameters:

- `GeneratorHelper.ToPascalCase` is the parameter `pascal`;
- the members of the entity type are the parameter `membersOf`;
- `ToDisplayString()` of a type is the value's `display` field.

## Model

| member | source | states |
|---|---|---|
| Strings.TrimSuffix | src/MicroAPI/ControllerGenerator.cs:92-94 | removing a suffix leaves the text that, with the suffix appended, is the input; a text that does not end with it is unchanged |
| Strings.Split | src/MicroAPI/ControllerGenerator.cs:155 | `Split('/', RemoveEmptyEntries)` gives only non-empty parts without the separator |
| Strings.SplitAtSeparator | src/MicroAPI/ControllerGenerator.cs:155 | the parts of `a + "/" + b` are the parts of `a` followed by the parts of `b`, so leading, trailing and repeated separators give no part |
| Strings.SplitWord | src/MicroAPI/ControllerGenerator.cs:155 | a non-empty text without the separator is one part, itself |
| Strings.SplitJoin | src/MicroAPI/ControllerGenerator.cs:155 | splitting non-empty separator-free parts joined by the separator gives the parts back |
| Strings.IndexOf | src/MicroAPI/ControllerGenerator.cs:165 | the first position of the character, or -1 exactly when it does not occur |
| Collections.Filter | src/MicroAPI/ControllerGenerator.cs:257-259 | `Where` keeps exactly the satisfying elements, no more than the input |
| Collections.FilterAppend | src/MicroAPI/ControllerGenerator.cs:257-259 | filtering preserves order: a filtered concatenation is the concatenation of the filtered parts |
| Collections.FilterPartition | src/MicroAPI/ControllerGenerator.cs:257-259 | what `Where` keeps and what its complement keeps together are a permutation of the input |
| Collections.SelectPresent | src/MicroAPI/DtoGenerator.cs:51-55 | `Select(f).Where(x => x is not null)` keeps exactly the present results, each from some input |
| Collections.SelectPresentAppend | src/MicroAPI/DtoGenerator.cs:51-55 | the present results keep the input's order: on a concatenation they are those of the first part, then those of the second |
| Collections.FirstIndex | src/MicroAPI/ControllerGenerator.cs:81-85 | `FirstOrDefault` finds the first satisfying position, or none when no element satisfies |
| Collections.Distinct | src/MicroAPI/ControllerGenerator.cs:27 | `Distinct` has no duplicates and the same elements as its input |
| Collections.DistinctKeepsFirstOccurrenceOrder | src/MicroAPI/ControllerGenerator.cs:27 | `Distinct` lists elements in the order of their first occurrence |
| Collections.DistinctOfDistinct | src/MicroAPI/ControllerGenerator.cs:27 | `Distinct` changes nothing on a duplicate-free input |
| Symbols.OrdinaryMethods | src/MicroAPI/ControllerGenerator.cs:182-183 | one signature per member that is a method of kind `Ordinary`, in declaration order (the i-th result is the i-th such member), and nothing else |
| Symbols.PropertiesOf | src/MicroAPI/DtoGenerator.cs:180-182 | one property per property member, in declaration order (the i-th result is the i-th such member), and nothing else |
| Symbols.AttributeNameMatchesByHead | src/MicroAPI/ControllerGenerator.cs:49-56 | the four-way name test holds exactly when the text before the first `<` is the short or the `Attribute` name |
| Symbols.AnyAttributeNamed | src/MicroAPI/ControllerGenerator.cs:47-56 | true exactly when some attribute in some attribute list passes the name test |
| GeneratorHelper.FormatEach | src/MicroAPI/GeneratorHelper.cs:22-23 | one rendering per array element, in order |
| GeneratorHelper.FormatAttributeArgument | src/MicroAPI/GeneratorHelper.cs:9-45 | a constant renders empty exactly for an empty array or a value whose own text is empty; a string renders between double quotes |
| GeneratorHelper.EscapedQuotesArePreceded | src/MicroAPI/GeneratorHelper.cs:40 | after escaping, every `"` is preceded by `\` |
| GeneratorHelper.UnescapeEscapeQuotes | src/MicroAPI/GeneratorHelper.cs:40 | reading back `\"` as `"` undoes the escaping |
| GeneratorHelper.StringLiteralRoundTrip | src/MicroAPI/GeneratorHelper.cs:40 | a string renders as a quoted literal from which the value is recovered |
| GeneratorHelper.BackslashIsNotEscaped | src/MicroAPI/GeneratorHelper.cs:40 | a backslash is copied as is: `\` renders as `"\"` |
| GeneratorHelper.GetConstructorArgument | src/MicroAPI/ControllerGenerator.cs:231-236 | a constructor argument is present exactly when it exists at the index and is a string, and then it is that string |
| ControllerRoutes.IsParameterSegment | src/MicroAPI/ControllerGenerator.cs:159 | a parameter segment has at least its two braces |
| ControllerRoutes.ParameterName | src/MicroAPI/ControllerGenerator.cs:162-169 | the name is the text between the braces up to its first `:`; it is the whole text when there is no `:` or the text starts with one, and holds a `:` only then |
| ControllerRoutes.ExtractRouteParameters | src/MicroAPI/ControllerGenerator.cs:145-176 | the set is exactly the names of the non-empty segments wrapped in braces |
| ControllerRoutes.EmptyRouteHasNoParameters | src/MicroAPI/ControllerGenerator.cs:148-151 | an empty route has no route parameters |
| ControllerRoutes.RouteParametersOfSegments | src/MicroAPI/ControllerGenerator.cs:155-172 | for a route written as segments joined by `/`, the parameters are the names of its brace-wrapped segments |
| ControllerRoutes.RouteParameterNamesAreClean | src/MicroAPI/ControllerGenerator.cs:162-169 | a route parameter name has no `/`, and has a `:` only as its first character |
| ControllerRoutes.WarnIfHasUnmatchedRouteParam | src/MicroAPI/ControllerGenerator.cs:403-420 | MA003 (warning) is reported exactly when some route parameter is not a parameter name, citing one such parameter and the route |
| ControllerAttributes.PositionalArgumentTexts | src/MicroAPI/ControllerGenerator.cs:300-303 | the renderings of exactly the constructor arguments that render to a non-empty text, in order |
| ControllerAttributes.FilterFormatEach | src/MicroAPI/ControllerGenerator.cs:300-303 | dropping empty texts after formatting equals formatting after dropping the arguments that render empty |
| ControllerAttributes.RenderAttributeAsWritten | src/MicroAPI/ControllerGenerator.cs:295-335 | the generator's attribute text; with only constructor arguments, or only named ones, it is the C# attribute syntax (`RenderAttribute`) |
| ControllerAttributes.NamedArgumentTexts | src/MicroAPI/ControllerGenerator.cs:326-327 | one `Key = value` per named argument, in order |
| ControllerAttributes.RenderAttribute | src/MicroAPI/ControllerGenerator.cs:283-336 | corrected rendering: the C# attribute-section syntax with one argument list, positional arguments before named ones |
| ControllerAttributes.AttributeSectionIsSyntax | src/MicroAPI/ControllerGenerator.cs:295-335 | the rendering, split into its cases, is the C# attribute syntax |
| ControllerAttributes.JoinConcat | src/MicroAPI/ControllerGenerator.cs:309 | joining two lists is joining each and separating the two results |
| ControllerAttributes.MixedArgumentsMisplaced | src/MicroAPI/ControllerGenerator.cs:313-333 | with both kinds of arguments the generator writes `[X(a), K = v]` (or `[X, K = v]`), which always differs from the correct syntax |
| ControllerAttributes.SectionsDisagreeOnMixedArguments | src/MicroAPI/ControllerGenerator.cs:313-333 | the as-written text's shape with both kinds of arguments, and that it differs from the syntax |
| ControllerAttributes.CopiedAttributesInOrder | src/MicroAPI/ControllerGenerator.cs:274-285 | verb attributes and unbound attributes are dropped; each other attribute gives one line, its corrected rendering, in order |
| ControllerAttributes.CopiedLinesAgreeWithoutMixedArguments | src/MicroAPI/ControllerGenerator.cs:274-337 | when no copied attribute has both constructor and named arguments, the generator's lines are the corrected lines |
| ControllerAttributes.CopyAttributes | src/MicroAPI/ControllerGenerator.cs:274-337 | the loop writes exactly the corrected copied-attribute lines |
| ControllerGenerator.IsFacadeSyntaxNode | src/MicroAPI/ControllerGenerator.cs:40-61 | a candidate is exactly a `partial` class with an attribute named `HttpFacade`/`HttpFacadeAttribute`, optionally generic |
| ControllerGenerator.FacadeCandidateByHead | src/MicroAPI/ControllerGenerator.cs:47-60 | the same test stated on the text before the first `<` |
| ControllerGenerator.GetFacadeTypeSymbol | src/MicroAPI/ControllerGenerator.cs:63-77 | the symbol is kept exactly when it exists and has an `HttpFacadeAttribute` (or generic `HttpFacadeAttribute…`) attribute |
| ControllerGenerator.FacadeAttribute | src/MicroAPI/ControllerGenerator.cs:81-90 | the first facade attribute, or none exactly when there is none |
| ControllerGenerator.FacadeSymbols | src/MicroAPI/ControllerGenerator.cs:21-25 | a symbol is collected exactly when some candidate node declares it and passes the symbol test |
| ControllerGenerator.FacadeClasses | src/MicroAPI/ControllerGenerator.cs:21-28 | the processed classes are those symbols, each once |
| ControllerGenerator.ControllerHintNameOfClass | src/MicroAPI/ControllerGenerator.cs:92-94 | the output key is the class name with exactly one `Controller` ensured at its end, plus `.g.cs` |
| ControllerGenerator.ControllerNameStripsOneSuffix | src/MicroAPI/ControllerGenerator.cs:92-94 | only one `Controller` is removed from the class name |
| ControllerGenerator.NoServiceTypeWhenNoRuleApplies | src/MicroAPI/ControllerGenerator.cs:105-143 | no service type exactly when the class is no interface, the attribute has no type argument, no `Service = typeof(...)` of a named type and no interface is implemented |
| ControllerGenerator.GetServiceType | src/MicroAPI/ControllerGenerator.cs:105-143 | returns the service type of the first rule that applies: interface, generic argument, `Service` argument holding a named type, first interface |
| ControllerGenerator.VerbAttribute | src/MicroAPI/ControllerGenerator.cs:215-221 | the first attribute deriving from `HttpMethodAttributeBase`, or none exactly when there is none |
| ControllerGenerator.RouteChoice | src/MicroAPI/ControllerGenerator.cs:227-236 | the route is the verb's string constructor argument, else the method name with one `Async` removed |
| ControllerGenerator.LastMethodName | src/MicroAPI/ControllerGenerator.cs:238-245 | the last non-empty `MethodName` argument wins; without one the method's own name is kept |
| ControllerGenerator.CustomMethodName | src/MicroAPI/ControllerGenerator.cs:238-245 | the loop computes the last non-empty `MethodName` |
| ControllerGenerator.WireGetParameters | src/MicroAPI/ControllerGenerator.cs:346-357 | GET: one parameter per source parameter, from the route or the query, and one call argument by name |
| ControllerGenerator.PlanEndpoint | src/MicroAPI/ControllerGenerator.cs:213-393 | the endpoint has the verb's text and the route `RouteOf` chooses, is named after the last custom `MethodName` (`LastMethodName`) plus `Facade`, calls the service method of the same name with one argument per parameter, has the method's return type, carries the copied-attribute lines `CopiedAttributeLines` (one per copied attribute), and declares a request record, the one `RequestRecordOf` builds, exactly when it is not GET and some parameter is not a route parameter |
| ControllerGenerator.GenerateEndpoint | src/MicroAPI/ControllerGenerator.cs:213-393 | no endpoint without a verb attribute, else the planned endpoint; MA003 exactly when a route parameter is unbound |
| ControllerGenerator.GetWiring | src/MicroAPI/ControllerGenerator.cs:346-357 | GET endpoints keep every parameter in order, `[FromRoute]` exactly for route parameters and `[FromQuery]` otherwise, call by name, and have no request record |
| ControllerGenerator.BodyWiring | src/MicroAPI/ControllerGenerator.cs:257-268 | other verbs: route-bound parameters in order, and a `[FromBody]` request exactly when some parameter is unbound; the call passes route parameters by name and the rest through `request.` |
| ControllerGenerator.BodyWiringOf | src/MicroAPI/ControllerGenerator.cs:359-369 | the endpoint parameters of a non-GET method for a given set of route parameters |
| ControllerGenerator.RequestFieldsAreRecordFields | src/MicroAPI/ControllerGenerator.cs:262-268 | the fields the call reads through `request.` are exactly the record's fields, in order |
| ControllerGenerator.EmptySignatureMeansNoArguments | src/MicroAPI/ControllerGenerator.cs:380-390 | an endpoint has no parameters exactly when the method has none, and then both emission branches write the same text |
| ControllerGenerator.UniformLinesWhenEmpty | src/MicroAPI/ControllerGenerator.cs:380-390 | the empty-signature branch writes what the general branch would |
| ControllerGenerator.EndpointsFollowVerbMethods | src/MicroAPI/ControllerGenerator.cs:213-221 | one endpoint per method with a verb attribute, in declaration order |
| ControllerGenerator.WarningCount | src/MicroAPI/ControllerGenerator.cs:250-254 | one MA003 warning per method that needs one |
| ControllerGenerator.WarningsCounted | src/MicroAPI/ControllerGenerator.cs:250-254 | the number of warnings is the number of methods with an unbound route parameter |
| ControllerGenerator.WarningsAreMA003 | src/MicroAPI/ControllerGenerator.cs:409-418 | every controller warning is MA003 at warning severity |
| ControllerGenerator.GeneratePartialControllerImplementation | src/MicroAPI/ControllerGenerator.cs:178-401 | no source for a class without ordinary methods; otherwise the controller with every endpoint, and the warnings of every method |
| ControllerGenerator.GenerateEndpoints | src/MicroAPI/ControllerGenerator.cs:213-393 | the loop over the methods yields one endpoint per verb method and the warnings of every method needing one, in order |
| ControllerGenerator.ProcessFacadeClass | src/MicroAPI/ControllerGenerator.cs:79-104 | no source without a facade attribute or a service type; otherwise the controller; when a source is produced the warnings are those of every ordinary method, and otherwise there are none |
| ControllerGenerator.FacadeOutputShape | src/MicroAPI/ControllerGenerator.cs:79-104 | a generated controller has a facade attribute, a service type, some ordinary method, a key ending in `Controller.g.cs`, and one endpoint per verb method |
| DtoGenerator.IsDtoClass | src/MicroAPI/DtoGenerator.cs:71-91 | a candidate is exactly a class (partial or not) with an attribute named `Dto`/`DtoAttribute`, optionally generic |
| DtoGenerator.DtoCandidateByHead | src/MicroAPI/DtoGenerator.cs:78-90 | the same test stated on the text before the first `<` |
| DtoGenerator.DtoAttributeOf | src/MicroAPI/DtoGenerator.cs:100-108 | the first `DtoAttribute` (or generic `DtoAttribute…`) of the symbol, or none exactly when there is no symbol or no such attribute |
| DtoGenerator.NonPartialDtoDiagnostic | src/MicroAPI/DtoGenerator.cs:19-25 | MA002 at error severity, naming the class by its symbol or else by its identifier |
| DtoGenerator.NonPartialDiagnostics | src/MicroAPI/DtoGenerator.cs:28-49 | one MA002 error per non-partial candidate, in order: the i-th error is that of the i-th such node |
| DtoGenerator.IgnoredNames | src/MicroAPI/DtoGenerator.cs:139-142 | the ignored names are exactly the non-empty element texts |
| DtoGenerator.NullIgnoredPropertiesThrows | src/MicroAPI/DtoGenerator.cs:134-145 | an `IgnoredProperties = null` argument met by the loop makes reading the names throw, while an empty array is skipped |
| DtoGenerator.GetDtoClassInfo | src/MicroAPI/DtoGenerator.cs:93-148 | no record without a `Dto` attribute or without `partial`; otherwise the entity type and the names of the first `IgnoredProperties` array with elements; callable wherever the source does not throw |
| DtoGenerator.ExactlyOnePath | src/MicroAPI/DtoGenerator.cs:34-36 | a candidate gets MA002 exactly when it is not partial, and a record only when it is partial |
| DtoGenerator.GetPropertyType | src/MicroAPI/DtoGenerator.cs:201-222 | any type except a named generic type with one type argument renders as its display text |
| DtoGenerator.GetPropertyTypeIsDisplay | src/MicroAPI/DtoGenerator.cs:205-221 | where display texts are built from the definition name and the argument, rendering gives the display text back |
| DtoGenerator.GetPropertyTypeEndsWithClosers | src/MicroAPI/DtoGenerator.cs:209-216 | the rendering ends with the innermost type's text and one `>` per rebuilt level |
| DtoGenerator.RepeatSnoc | src/MicroAPI/DtoGenerator.cs:216 | one more rebuilt level appends one more `>` |
| DtoGenerator.GenerateDtoProperties | src/MicroAPI/DtoGenerator.cs:185-195 | the loop yields the entity's selected properties |
| DtoGenerator.GeneratedPropertiesInOrder | src/MicroAPI/DtoGenerator.cs:185-195 | one property per entity property that is neither ignored nor declared, in order, with its rendered type |
| DtoGenerator.GeneratedNames | src/MicroAPI/DtoGenerator.cs:188 | a name is generated exactly when an entity property has it and it is neither ignored nor declared by the class |
| DtoGenerator.GeneratedNameOrigin | src/MicroAPI/DtoGenerator.cs:185-194 | each generated property is named after some entity property |
| DtoGenerator.GeneratedNamesDistinct | src/MicroAPI/DtoGenerator.cs:185-195 | distinct entity property names give distinct generated names |
| DtoGenerator.GenerateDto | src/MicroAPI/DtoGenerator.cs:150-161 | the source is keyed `<class>.g.cs`, in the class's namespace, with the selected properties |
| DtoGenerator.RecordOf | src/MicroAPI/DtoGenerator.cs:53-54 | a node's record belongs to that node, and is `GetDtoClassInfo`'s result for a candidate |
| DtoGenerator.DtoInfos | src/MicroAPI/DtoGenerator.cs:51-55 | every record comes from an input node and is that node's `GetDtoClassInfo` result |
| DtoGenerator.DtoRecords | src/MicroAPI/DtoGenerator.cs:56-58 | the records after `Distinct`: no duplicates, the same records |
| DtoGenerator.RecordsArePartialCandidates | src/MicroAPI/DtoGenerator.cs:110-114 | a record is made only for a partial class with a `Dto` attribute, so no class gets both MA002 and a source |
| DtoGenerator.CandidatesAreRecorded | src/MicroAPI/DtoGenerator.cs:51-58 | every record `GetDtoClassInfo` makes for a candidate is generated |
| DtoGenerator.GenerateDtos | src/MicroAPI/DtoGenerator.cs:60-67 | one source per record, in order |
| DtoGenerator.RunDtoGenerator | src/MicroAPI/DtoGenerator.cs:16-68 | the MA002 errors of every non-partial candidate, and one source per distinct record |

## Findings

| source | as written | input that shows it | evidently intended | confidence | as-written member | corrected member |
|---|---|---|---|---|---|---|
| src/MicroAPI/ControllerGenerator.cs:313-333 | with both constructor and named arguments, the constructor arguments' `)` is written before `, ` and the named arguments (or no `(` is written when no constructor argument renders) | a facade method with `[Obsolete("old", DiagnosticId = "X1")]` gets `[System.Obsolete("old"), DiagnosticId = "X1"]` on its endpoint, which does not compile | one argument list: `[System.Obsolete("old", DiagnosticId = "X1")]` | not executed | ControllerAttributes.MixedArgumentsMisplaced | ControllerAttributes.RenderAttribute |

The model renders copied attributes with the corrected
`ControllerAttributes.RenderAttribute`. The as-written text is
`ControllerAttributes.RenderAttributeAsWritten`, and the as-written lines are
`ControllerAttributes.CopiedAttributeLinesAsWritten`. These agree with the
corrected ones unless a copied attribute has both kinds of arguments
(`RenderAttributeAsWritten`'s contract and
`CopiedLinesAgreeWithoutMixedArguments`).

## Left out

- Roslyn plumbing is not modelled: incremental pipelines, `Collect`, caching, `RegisterSourceOutput` callbacks and cancellation. The controller pipeline (`Initialize`, ControllerGenerator.cs:19-38) is modelled by `FacadeClasses` and per class by `ProcessFacadeClass`.
- Generated text is modelled as structured output (`Endpoint`, `ControllerSource`, `DtoSource`, attribute lines and endpoint lines). The auto-property lines of a DTO are not rendered as text: `DtoSource` holds each property's type text and name. The fixed boilerplate lines (`using`, `#nullable`, `#pragma`, braces) are not modelled. The UTF-8 encoding of `SourceText` is not modelled.
- Diagnostic locations are not modelled.
- `ControllerRoutes.WarnIfHasUnmatchedRouteParam`: which unmatched parameter is cited depends on the hash set's enumeration order. The contract says only that it is one of them.
- `GeneratorHelper.ToPascalCase` is not part of this model. It is the uninterpreted parameter `pascal`.
- `GeneratorHelper.GetConstructorArgument` is in a helper file that is not part of this model. It is modelled from its use: the argument at the index when it is a string.
- The attribute-copy code calls `GeneratorHelper.FormatArgument`. It is modelled as `FormatAttributeArgument`, the only formatter in the helper file.
- `ToDisplayString()` of types and attribute classes is not modelled. It is the given `display` text.
- `ControllerGenerator.GetServiceType`: the `(INamedTypeSymbol)` cast of a generic attribute argument is taken to succeed. A type argument that is not a named type (an array, a type parameter) would throw and is not modelled.
- The interface branch of `GetServiceType` is modelled. It is unreachable in the source, because only class declarations pass `IsFacadeSyntaxNode`.
- `DtoGenerator.RunDtoGenerator` requires `AllResolvable`: a `[Dto]` attribute whose entity type cannot be read, or whose `IgnoredProperties` loop meets a null array before one with elements (src/MicroAPI/DtoGenerator.cs:137 reads `Values.Length`), makes the source throw. The exception is not modelled.
- FormatAttributeArgument: requires `Supported`, so a constant of a kind other than the five `TypedConstantKind` names is excluded; the source throws `ArgumentOutOfRangeException` on it (src/MicroAPI/GeneratorHelper.cs:35). Through `SupportedAttrs`, `CopyAttributes`, `PlanEndpoint`, `GenerateEndpoint`, `GenerateEndpoints`, `GeneratePartialControllerImplementation`, `ProcessFacadeClass` and the endpoint lemmas carry the same precondition, and the exception is not modelled.
- `GetDtoClassInfo` casts the entity type to a named type. The model does not represent that cast failing.
- `DtoGenerator.IgnoredNames` takes an element's text when it is a string constant and the empty text otherwise. `IgnoredProperties` is declared `string[]`, so only strings and null occur.
- `DtoGenerator.DtoRecords` uses value equality for `Distinct`. In the source, the records are value tuples whose first element is the syntax node, compared by reference; each node gives at most one record, so `Distinct` in practice removes nothing. Records of different nodes differ in the model as well, because a node carries an identity.
- `HttpFacadeAttribute`, `DtoAttribute` and the HTTP-verb attribute classes (under `src/MicroAPI/Attributes/`) are modelled only through their names, their `Service`, `MethodName` and `IgnoredProperties` arguments, and the `HttpMethodAttributeBase` base class. The sample application is not modelled.
- Strings are sequences of characters. String comparisons are taken as character equality. No culture-specific behaviour is modelled.
- CopiedAttributesInOrder: states the corrected renderings (`RenderAttribute`) of the copied attributes, not the generator's text. For an attribute with both constructor and named arguments the generator writes `RenderAttributeAsWritten` instead (see Findings); elsewhere the two agree (`CopiedLinesAgreeWithoutMixedArguments`).
- CopyAttributes: writes the corrected attribute lines, so it does not reproduce the misplaced `)` of an attribute with both kinds of arguments; `CopiedAttributeLinesAsWritten` is the generator's text.
- PlanEndpoint: the endpoint's attribute lines are the corrected ones, as in `CopyAttributes`.
- GenerateEndpoint: the endpoint's attribute lines are the corrected ones, as in `CopyAttributes`.
- GeneratePartialControllerImplementation: the endpoints' attribute lines are the corrected ones, as in `CopyAttributes`.
- GenerateEndpoints: the endpoints' attribute lines are the corrected ones, as in `CopyAttributes`.
- ProcessFacadeClass: the controller's endpoints carry the corrected attribute lines, as in `CopyAttributes`.
