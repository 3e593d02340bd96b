# Typed enum declarations and path formatting, modelled in Dafny

This project models two pieces of the Sway toolchain.

- **The typed enum declaration** from the compiler's semantic tree. A declaration is a call path, type parameters, attributes, an ordered list of variants, a span and a visibility. A variant is a name, a type argument, a tag, a span and attributes. The model covers:
  - equality and hashing "with engines", which consult the type engine for type slots;
  - the ordering of variants;
  - type substitution in place, with its "has changes" flag;
  - concreteness;
  - the monomorphisation queries (`name`, `type_parameters`, `has_self_type_param`);
  - const-generic materialisation;
  - lookup of a variant by name, which reports `UnknownEnumVariant` through the diagnostic handler.
- **The formatter for paths** (`PathExpr`, `PathType`, their segments and the qualified root `<Ty as Trait>`). It appends source text to a buffer. Its leaf spans are modelled too.

Files:

- `sway_types.dfy`: identifiers as strings, spans, call paths, visibility, `Option`, `Result`.
- `orderings.dfy`: `Ordering`, `then_with`, the ordering of naturals and strings, and what it means for a comparison to be a total order.
- `engine_threading.dfy`: type arguments and type parameters as opaque handles. The engines' equality, ordering, hashing, concreteness and substitution on them are functions carried by a context. The laws expected of those functions are predicates. The file also defines the element-by-element lifting of equality, hashing and substitution to lists, and the hasher.
- `handler.dfy`: the diagnostic handler, seen as the list of errors recorded so far.
- `ty_enum.dfy`: `TyEnumVariant` (a value) and `TyEnumDecl` (a class, since substitution rewrites its fields in place).
- `path_format.dfy`: the buffer class and one formatting method per syntax node. Each method's result is stated as a text function over the tree. The `PathExpr` and `PathType` formatters (and the root they share) also return, as a ghost result, the trace of the writes they make themselves, each nested call counting as one write. Each method proves its trace equal to a trace function; the trace renders to the appended text and counts the `::` separators the routine writes itself.

## Model

| member | source | states |
|---|---|---|
| TyEnum.TyEnumDecl.Name | sway-core/src/language/ty/declaration/enum.rs:35-39 | The declaration's name is the last segment of its call path (the same for `Named::name` and `MonomorphizeHelper::name`). |
| TyEnum.TyEnumDecl.Eq | sway-core/src/language/ty/declaration/enum.rs:42-48 | Two declarations are equal iff their call paths are equal, their type parameters are pairwise engine-equal with equal lengths, their variants are pairwise equal with equal lengths, and their visibilities are equal. |
| TyEnum.EqIgnoresSpanAndAttributes | sway-core/src/language/ty/declaration/enum.rs:42-67 | Declarations that agree on call path, type parameters, variants and visibility are interchangeable on either side of equality and feed the same hash, whatever their spans and attributes. |
| TyEnum.SpanAndAttributesOnlyDeclsAreEqual | sway-core/src/language/ty/declaration/enum.rs:42-48 | When type-slot equality is reflexive, declarations that differ only in span and attributes are equal. |
| TyEnum.TyEnumDecl.Hash | sway-core/src/language/ty/declaration/enum.rs:51-67 | Hashing appends to the hasher exactly the call path, each variant's hash in order, each type parameter's hash in order, and the visibility. It feeds no span and no attributes. |
| TyEnum.EqImpliesHashEq | sway-core/src/language/ty/declaration/enum.rs:42-67 | When engine-equal type slots hash alike, equal declarations feed identical hashes. |
| TyEnum.TyEnumDecl.SubstInner | sway-core/src/language/ty/declaration/enum.rs:70-77 | Substitution replaces each variant by its substituted form and each type parameter by its substituted form, in place and in order. The flag is the OR of all reported changes. Call path, visibility, span and attributes are unchanged. |
| TyEnum.SubstVariant | sway-core/src/language/ty/declaration/enum.rs:198-202 | Substituting into a variant rewrites its type argument as the engine does and reports the engine's flag. Name, tag, span and attributes are kept. |
| TyEnum.SubstVariantsKeepsShape | sway-core/src/language/ty/declaration/enum.rs:70-77 | After substitution the variants keep their number, order, names, tags, spans and attributes; only type arguments change. |
| TyEnum.SubstVariantsNoChange | sway-core/src/language/ty/declaration/enum.rs:70-77 | When no type argument changes, the variants come back as they were and the flag is false. |
| TyEnum.SubstVariantsIdempotent | sway-core/src/language/ty/declaration/enum.rs:70-77 | With an idempotent substitution, a second pass over the variants changes nothing and reports no change. |
| TyEnum.SubstInnerTwice | sway-core/src/language/ty/declaration/enum.rs:70-77 | With substitutions idempotent on type arguments and on type parameters, substituting into a declaration a second time leaves its variants and type parameters as the first pass made them, and the second pass reports no change. |
| EngineThreading.SubstAllNoChange | sway-core/src/language/ty/declaration/enum.rs:72-75 | When no element changes, substituting into a list (variants or type parameters) returns it as it was and reports no change. |
| EngineThreading.SubstAllIdempotent | sway-core/src/language/ty/declaration/enum.rs:72-75 | With an idempotent element substitution, a second pass over a list (variants or type parameters) changes nothing and reports no change. |
| EngineThreading.SubstAll | sway-core/src/language/ty/declaration/enum.rs:72-75 | Substituting into a list keeps its length, substitutes each element, and reports a change iff some element reported one. |
| TyEnum.TyEnumDecl.GetSpan | sway-core/src/language/ty/declaration/enum.rs:79-83 | The declaration's span is its stored span. |
| TyEnum.TyEnumDecl.IsConcrete | sway-core/src/language/ty/declaration/enum.rs:85-91 | A declaration is concrete iff every type parameter is concrete. |
| EngineThreading.All | sway-core/src/language/ty/declaration/enum.rs:87-89 | `all` over a list holds iff the predicate holds at every index. |
| TyEnum.NoTypeParametersIsConcrete | sway-core/src/language/ty/declaration/enum.rs:85-91 | A declaration with no type parameters is concrete. |
| TyEnum.TyEnumDecl.TypeParameters | sway-core/src/language/ty/declaration/enum.rs:94-96 | The monomorphisation query returns the stored type parameters. |
| TyEnum.TyEnumDecl.HasSelfTypeParam | sway-core/src/language/ty/declaration/enum.rs:102-104 | An enum never has a `Self` type parameter. |
| TyEnum.TyEnumDecl.MaterializeConstGenerics | sway-core/src/language/ty/declaration/enum.rs:107-117 | Materialising a const generic always succeeds with `Ok(())` and modifies nothing. |
| TyEnum.TyEnumDecl.ExpectVariantFromName | sway-core/src/language/ty/declaration/enum.rs:119-137 | If some variant has the queried name, lookup returns the lowest-index such variant and records nothing. Otherwise it returns an error and records exactly one `UnknownEnumVariant` error, carrying the enum's name, the queried name and the query's span. |
| TyEnum.FirstVariantNamed | sway-core/src/language/ty/declaration/enum.rs:125-129 | The index found is in range and names the queried variant, and no earlier variant has that name. There is no index iff no variant has the name. |
| TyEnum.FirstVariantNamedSound | sway-core/src/language/ty/declaration/enum.rs:125-136 | Lookup succeeds iff some variant has the queried name, and what it finds has that name. |
| TyEnum.VariantEq | sway-core/src/language/ty/declaration/enum.rs:163-170 | Two variants are equal iff their names are equal, their type arguments are engine-equal and their tags are equal; span and attributes take no part (see `VariantEqIgnoresSpanAndAttributes`, `VariantEqImpliesHashEq`, `VariantCmpEqualIffEq`). |
| TyEnum.HashVariant | sway-core/src/language/ty/declaration/enum.rs:155-161 | Hashing a variant appends its name, its type argument's hash and its tag, in that order. |
| TyEnum.VariantEqIgnoresSpanAndAttributes | sway-core/src/language/ty/declaration/enum.rs:155-170 | Replacing a variant's span and attributes changes neither its equality with any variant (on either side) nor its hash. |
| TyEnum.VariantEqImpliesHashEq | sway-core/src/language/ty/declaration/enum.rs:155-170 | When engine-equal type arguments hash alike, equal variants hash alike. |
| EngineThreading.ElementsEq | sway-core/src/language/ty/declaration/enum.rs:45-46 | Two lists are equal with engines iff they have the same length and are pairwise equal. |
| EngineThreading.ElementsHashRespectsEq | sway-core/src/language/ty/declaration/enum.rs:64-65 | Pairwise-equal lists feed the same hash when equal elements do. |
| TyEnum.VariantCmp | sway-core/src/language/ty/declaration/enum.rs:172-195 | Variants are ordered by name when names differ (never `Equal` then). When names agree they are ordered by type argument, and when that ties too, by tag. |
| TyEnum.VariantCmpIgnoresSpanAndAttributes | sway-core/src/language/ty/declaration/enum.rs:172-191 | Span and attributes of either operand never affect the ordering. |
| TyEnum.VariantCmpReflexive | sway-core/src/language/ty/declaration/enum.rs:172-195 | Every variant compares `Equal` to itself when the type-argument ordering is a total order. |
| TyEnum.VariantCmpAntisymmetric | sway-core/src/language/ty/declaration/enum.rs:172-195 | Swapping the operands reverses the result when the type-argument ordering is a total order. |
| TyEnum.VariantCmpTransitive | sway-core/src/language/ty/declaration/enum.rs:172-195 | `Less` and `Equal` are transitive when the type-argument ordering is a total order. |
| TyEnum.VariantCmpIsTotalOrder | sway-core/src/language/ty/declaration/enum.rs:172-195 | The variant ordering is a total order whenever the type-argument ordering is. |
| TyEnum.VariantCmpEqualIffEq | sway-core/src/language/ty/declaration/enum.rs:163-195 | When type-argument ordering ties exactly the equal type arguments, variants compare `Equal` iff they are equal. |
| Orderings.CompareNat | sway-core/src/language/ty/declaration/enum.rs:194 | Tags compare `Less`, `Equal` or `Greater` exactly as their numeric order says. |
| Orderings.CompareStrEqual | sway-core/src/language/ty/declaration/enum.rs:192 | Names compare `Equal` iff they are the same string. |
| Orderings.CompareStrReverse | sway-core/src/language/ty/declaration/enum.rs:192 | Swapping two names reverses their comparison. |
| Orderings.CompareStrLessTransitive | sway-core/src/language/ty/declaration/enum.rs:192 | `Less` between names is transitive. |
| Orderings.CompareStrIsTotalOrder | sway-core/src/language/ty/declaration/enum.rs:192 | The ordering of names is a total order. |
| PathFormat.FormatPathExpr | swayfmt/src/utils/language/path.rs:15-39 | Formatting a path expression only appends. It appends the root part, the prefix segment, then `::` and each suffix segment in order. The writes it makes itself render to that text and hold one `::` per suffix segment, plus one when a root is present. |
| PathFormat.FormatRoot | swayfmt/src/utils/language/path.rs:21-30 | The root part is `<` + root + `>` + `::` for a qualified root, `::` for a bare leading `::`, and nothing when there is no root. Its own writes are exactly `RootWrites`. |
| PathFormat.PathExprRootPrefix | swayfmt/src/utils/language/path.rs:21-31 | A path expression's text begins with `<root>::` for a qualified root, with `::` and the prefix segment for a bare root, and with the prefix segment when there is no root. It writes angle brackets itself iff the root is qualified. |
| PathFormat.PathExprWritesAgree | swayfmt/src/utils/language/path.rs:21-37 | The path expression's own writes render to its text. It writes `::` itself once per suffix segment, plus once when a root is present. |
| PathFormat.FormatPathExprSegment | swayfmt/src/utils/language/path.rs:41-57 | A path-expression segment appends its formatted name, then `::` and its generic arguments exactly when it has them. |
| PathFormat.FormatQualifiedPathRoot | swayfmt/src/utils/language/path.rs:59-72 | A qualified root appends its type, ` as `, then its trait path type. |
| PathFormat.FormatPathType | swayfmt/src/utils/language/path.rs:74-99 | Formatting a path type only appends. It appends the root part, the prefix segment, then `::` and each suffix segment in order. The writes it makes itself render to that text and hold one `::` per suffix segment, plus one when a root is present. |
| PathFormat.PathTypeRootPrefix | swayfmt/src/utils/language/path.rs:80-91 | A path type's text begins as a path expression's does for each kind of root. It writes angle brackets itself iff the root is qualified. |
| PathFormat.PathTypeWritesAgree | swayfmt/src/utils/language/path.rs:80-97 | The path type's own writes render to its text. It writes `::` itself once per suffix segment, plus once when a root is present. |
| PathFormat.FormatPathTypeSegment | swayfmt/src/utils/language/path.rs:101-119 | A path-type segment appends its raw name, then `::` only when the segment carries one, then its generic arguments. |
| PathFormat.ExprSegmentSeparatesGenerics | swayfmt/src/utils/language/path.rs:48-53 | With generics, a path-expression segment always has `::` before them. |
| PathFormat.TypeSegmentSeparatorFollowsFlag | swayfmt/src/utils/language/path.rs:110-115 | With generics, a path-type segment has `::` before them only when its flag says so. |
| PathFormat.ExprSuffixWritesAgree | swayfmt/src/utils/language/path.rs:32-35 | The suffix loop's writes render to `::` + segment for each segment, with one `::` of its own per segment and no angle brackets. |
| PathFormat.TypeSuffixWritesAgree | swayfmt/src/utils/language/path.rs:92-95 | The same, for path-type suffix segments. |
| PathFormat.RootWritesAgree | swayfmt/src/utils/language/path.rs:80-90 | The root's writes render to the root part. They hold one `::` iff there is a root, and angle brackets iff the root is qualified. |
| PathFormat.PathExprLeafSpans | swayfmt/src/utils/language/path.rs:121-125 | A path expression has exactly one leaf span: its whole span. |
| PathFormat.PathTypeLeafSpans | swayfmt/src/utils/language/path.rs:127-131 | A path type has exactly one leaf span: its whole span. |

## Left out

- The type engine and `Engines` are opaque. Equality, ordering, hashing, concreteness and substitution of type arguments and type parameters are parameters, and the laws they are expected to obey are explicit preconditions of the lemmas that need them. Those files are not part of this model.
- `TyEnum.TyEnumDecl.SubstInner` and `TyEnum.SubstVariant`: a variant calls `subst_inner` on its type argument, while the declaration calls `subst` on its lists. Both are abstracted into one substitution function per kind of type slot, which reports whether it changed anything. The `has_changes!` macro is modelled as the OR of the two list flags. The representation of the substitution context is not modelled.
- Hashing is the ordered list of values fed to the hasher, not a numeric digest. A list is hashed as its elements' hashes in order, with no length prefix. The list hashing routine is not part of this model.
- The variant's `Spanned` implementation (enum.rs:140-144) returns the stored span field, which the model reads directly as `span`.
- `Named::name` and `MonomorphizeHelper::name` are the same function, `TyEnum.TyEnumDecl.Name`.
- `TyEnum.TyEnumDecl.ExpectVariantFromName`: an `Ident` is modelled as its text, so the span of the queried identifier is passed as a separate argument. The method returns the found variant by value, not a reference into the declaration.
- `TyEnum.TyEnumDecl.MaterializeConstGenerics`: the engines, handler, name and value arguments are carried but unused, as in the source.
- Tags are unbounded naturals rather than `usize`. No operation here does arithmetic on them.
- Serialization, `Clone` and `Debug` derives, and the `TyDeclParsedType` binding have no behaviour to verify and are left out.
- The diagnostic handler is only the list of errors recorded. Its other state and the rendering of diagnostics are left out.
- Formatter leaf renderers (`Ident`, generic arguments and `Ty` formatting) are uninterpreted string functions. The `open_angle_bracket` and `close_angle_bracket` helpers are modelled as appending `<` and `>`.
- Formatter configuration, the conversion from a span to `ByteSpan`, and the `FormatterError` path are left out. Writing into a `String` cannot fail, so the formatting methods return nothing.
- The root handling that both path formatters repeat is a single method, `PathFormat.FormatRoot`, which both call.
