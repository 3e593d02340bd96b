/** The typed (elaborated) enum declaration: its variants, engine-aware
    equality, hashing and ordering, type substitution, concreteness, the
    monomorphisation queries, and lookup of a variant by name. */
module TyEnum {
  import opened SwayTypes
  import opened Orderings
  import opened EngineThreading
  import opened Diagnostics

  /** The typed expression a const generic would be bound to; never inspected here. */
  type TyExpression

  /** One arm of an enum. `span` and `attributes` are diagnostic only. */
  datatype TyEnumVariant = TyEnumVariant(
    name: Ident,
    typeArgument: TypeArgument,
    tag: nat,
    span: Span,
    attributes: AttributesMap)

  // ---------------------------------------------------------------------------
  // Variant equality, hashing and ordering

  /** Variant equality: name, type argument (through the engines) and tag. */
  predicate VariantEq(ctx: Engines, l: TyEnumVariant, r: TyEnumVariant) {
    l.name == r.name && ctx.argEq(l.typeArgument, r.typeArgument) && l.tag == r.tag
  }

  /** What hashing a variant feeds: its name, its type argument, its tag. */
  function VariantHash(ctx: Engines, v: TyEnumVariant): seq<HashItem> {
    [IdentItem(v.name)] + ctx.argHash(v.typeArgument) + [TagItem(v.tag)]
  }

  function VariantEqFn(ctx: Engines): (TyEnumVariant, TyEnumVariant) -> bool {
    (l, r) => VariantEq(ctx, l, r)
  }

  function VariantHashFn(ctx: Engines): TyEnumVariant -> seq<HashItem> {
    v => VariantHash(ctx, v)
  }

  /** Feeds a variant to the hasher, field by field. */
  method HashVariant(v: TyEnumVariant, state: Hasher, ctx: Engines)
    modifies state
    ensures state.fed == old(state.fed) + VariantHash(ctx, v)
  {
    state.Write(IdentItem(v.name));
    state.WriteAll(ctx.argHash(v.typeArgument));
    state.Write(TagItem(v.tag));
  }

  /** Span and attributes take no part in variant equality or hashing. */
  lemma VariantEqIgnoresSpanAndAttributes(
    ctx: Engines, v: TyEnumVariant, w: TyEnumVariant, span: Span, attributes: AttributesMap)
    ensures VariantEq(ctx, v.(span := span, attributes := attributes), w) == VariantEq(ctx, v, w)
    ensures VariantEq(ctx, w, v.(span := span, attributes := attributes)) == VariantEq(ctx, w, v)
    ensures VariantHash(ctx, v.(span := span, attributes := attributes)) == VariantHash(ctx, v)
  {
  }

  /** Equal variants hash alike, given that equal type arguments do. */
  lemma VariantEqImpliesHashEq(ctx: Engines, l: TyEnumVariant, r: TyEnumVariant)
    requires ArgHashRespectsEq(ctx)
    requires VariantEq(ctx, l, r)
    ensures VariantHash(ctx, l) == VariantHash(ctx, r)
  {
  }

  /** Variant ordering: by name, then by type argument, then by tag; each later
      key is consulted only when all earlier ones tie. */
  function VariantCmp(ctx: Engines, l: TyEnumVariant, r: TyEnumVariant): (o: Ordering)
    ensures l.name != r.name ==> o == CompareStr(l.name, r.name) && o != Equal
    ensures l.name == r.name && ctx.argCmp(l.typeArgument, r.typeArgument) != Equal ==>
      o == ctx.argCmp(l.typeArgument, r.typeArgument)
    ensures l.name == r.name && ctx.argCmp(l.typeArgument, r.typeArgument) == Equal ==>
      o == CompareNat(l.tag, r.tag)
  {
    CompareStrEqual(l.name, r.name);
    CompareStr(l.name, r.name)
      .ThenWith(ctx.argCmp(l.typeArgument, r.typeArgument))
      .ThenWith(CompareNat(l.tag, r.tag))
  }

  function VariantCmpFn(ctx: Engines): (TyEnumVariant, TyEnumVariant) -> Ordering {
    (l, r) => VariantCmp(ctx, l, r)
  }

  /** Span and attributes never affect the ordering. */
  lemma VariantCmpIgnoresSpanAndAttributes(
    ctx: Engines, v: TyEnumVariant, w: TyEnumVariant, span: Span, attributes: AttributesMap)
    ensures VariantCmp(ctx, v.(span := span, attributes := attributes), w) == VariantCmp(ctx, v, w)
    ensures VariantCmp(ctx, w, v.(span := span, attributes := attributes)) == VariantCmp(ctx, w, v)
  {
  }

  lemma VariantCmpReflexive(ctx: Engines, v: TyEnumVariant)
    requires IsTotalOrder(ctx.argCmp)
    ensures VariantCmp(ctx, v, v) == Equal
  {
  }

  lemma VariantCmpAntisymmetric(ctx: Engines, l: TyEnumVariant, r: TyEnumVariant)
    requires IsTotalOrder(ctx.argCmp)
    ensures VariantCmp(ctx, r, l) == VariantCmp(ctx, l, r).Reverse()
  {
    CompareStrReverse(l.name, r.name);
  }

  lemma VariantCmpTransitive(ctx: Engines, a: TyEnumVariant, b: TyEnumVariant, c: TyEnumVariant)
    requires IsTotalOrder(ctx.argCmp)
    ensures VariantCmp(ctx, a, b) == Less && VariantCmp(ctx, b, c) == Less ==> VariantCmp(ctx, a, c) == Less
    ensures VariantCmp(ctx, a, b) == Equal && VariantCmp(ctx, b, c) == Equal ==> VariantCmp(ctx, a, c) == Equal
  {
    CompareStrIsTotalOrder();
    CompareStrReverse(b.name, a.name);
    CompareStrReverse(c.name, b.name);
  }

  /** The variant ordering is a total order whenever the type-argument ordering is. */
  lemma VariantCmpIsTotalOrder(ctx: Engines)
    requires IsTotalOrder(ctx.argCmp)
    ensures IsTotalOrder(VariantCmpFn(ctx))
  {
    var cmp := VariantCmpFn(ctx);
    forall v ensures cmp(v, v) == Equal {
      VariantCmpReflexive(ctx, v);
    }
    forall l, r ensures cmp(r, l) == cmp(l, r).Reverse() {
      VariantCmpAntisymmetric(ctx, l, r);
    }
    forall a, b, c ensures cmp(a, b) == Less && cmp(b, c) == Less ==> cmp(a, c) == Less {
      VariantCmpTransitive(ctx, a, b, c);
    }
    forall a, b, c ensures cmp(a, b) == Equal && cmp(b, c) == Equal ==> cmp(a, c) == Equal {
      VariantCmpTransitive(ctx, a, b, c);
    }
  }

  /** Ordering and equality of variants agree when they agree on type arguments. */
  lemma VariantCmpEqualIffEq(ctx: Engines, l: TyEnumVariant, r: TyEnumVariant)
    requires CmpAgreesWithEq(ctx)
    ensures VariantCmp(ctx, l, r) == Equal <==> VariantEq(ctx, l, r)
  {
  }

  // ---------------------------------------------------------------------------
  // Variant substitution

  /** Substitution into a variant rewrites its type argument and nothing else. */
  function SubstVariant(ctx: SubstTypesContext, v: TyEnumVariant): (r: (TyEnumVariant, bool))
    ensures r.0.name == v.name && r.0.tag == v.tag
    ensures r.0.span == v.span && r.0.attributes == v.attributes
    ensures (r.0.typeArgument, r.1) == ctx.argSubst(v.typeArgument)
  {
    var (typeArgument, changed) := ctx.argSubst(v.typeArgument);
    (v.(typeArgument := typeArgument), changed)
  }

  function SubstVariantFn(ctx: SubstTypesContext): TyEnumVariant -> (TyEnumVariant, bool) {
    v => SubstVariant(ctx, v)
  }

  /** Substituting into a list of variants keeps their number and order and
      every name, tag, span and attribute map. */
  lemma SubstVariantsKeepsShape(ctx: SubstTypesContext, vs: seq<TyEnumVariant>)
    ensures var ws := SubstAll(SubstVariantFn(ctx), vs).0;
      && |ws| == |vs|
      && forall i :: 0 <= i < |vs| ==>
           && ws[i].name == vs[i].name && ws[i].tag == vs[i].tag
           && ws[i].span == vs[i].span && ws[i].attributes == vs[i].attributes
           && ws[i].typeArgument == ctx.argSubst(vs[i].typeArgument).0
  {
  }

  /** When no type argument changes, substitution returns the variants as they were. */
  lemma SubstVariantsNoChange(ctx: SubstTypesContext, vs: seq<TyEnumVariant>)
    requires forall i :: 0 <= i < |vs| ==> ctx.argSubst(vs[i].typeArgument) == (vs[i].typeArgument, false)
    ensures SubstAll(SubstVariantFn(ctx), vs) == (vs, false)
  {
    var r := SubstAll(SubstVariantFn(ctx), vs);
    assert r.0 == vs;
  }

  /** Substituting twice is substituting once, and the second pass reports no change. */
  lemma SubstVariantsIdempotent(ctx: SubstTypesContext, vs: seq<TyEnumVariant>)
    requires ArgSubstIdempotent(ctx)
    ensures var once := SubstAll(SubstVariantFn(ctx), vs).0;
      SubstAll(SubstVariantFn(ctx), once) == (once, false)
  {
    var once := SubstAll(SubstVariantFn(ctx), vs).0;
    SubstVariantsNoChange(ctx, once);
  }

  // ---------------------------------------------------------------------------
  // Variant lookup

  /** The position of the first variant called `name`, if any. */
  function FirstVariantNamed(variants: seq<TyEnumVariant>, name: Ident): (r: Option<nat>)
    ensures r.Some? ==>
      && r.value < |variants|
      && variants[r.value].name == name
      && forall k :: 0 <= k < r.value ==> variants[k].name != name
    ensures r.None? <==> forall k :: 0 <= k < |variants| ==> variants[k].name != name
  {
    if variants == [] then None
    else if variants[0].name == name then Some(0)
    else
      match FirstVariantNamed(variants[1..], name)
      case None => None
      case Some(i) => Some(i + 1)
  }

  // ---------------------------------------------------------------------------
  // The declaration

  class TyEnumDecl {
    var callPath: CallPath
    var typeParameters: seq<TypeParameter>
    var attributes: AttributesMap
    var variants: seq<TyEnumVariant>
    var span: Span
    var visibility: Visibility

    constructor (
      callPath: CallPath, typeParameters: seq<TypeParameter>, attributes: AttributesMap,
      variants: seq<TyEnumVariant>, span: Span, visibility: Visibility)
      ensures this.callPath == callPath && this.typeParameters == typeParameters
      ensures this.attributes == attributes && this.variants == variants
      ensures this.span == span && this.visibility == visibility
    {
      this.callPath := callPath;
      this.typeParameters := typeParameters;
      this.attributes := attributes;
      this.variants := variants;
      this.span := span;
      this.visibility := visibility;
    }

    /** The declared name: the last segment of the call path. */
    function Name(): (n: Ident)
      reads this
      ensures n == callPath.suffix
    {
      callPath.suffix
    }

    function TypeParameters(): (ps: seq<TypeParameter>)
      reads this
      ensures ps == typeParameters
    {
      typeParameters
    }

    /** An enum is never implicitly generic over its own type. */
    function HasSelfTypeParam(): (b: bool)
      ensures !b
    {
      false
    }

    function GetSpan(): (s: Span)
      reads this
      ensures s == span
    {
      span
    }

    /** Engine-aware equality: call path, type parameters pairwise, variants
        pairwise (in order), and visibility. */
    predicate Eq(ctx: Engines, other: TyEnumDecl)
      reads this, other
      ensures Eq(ctx, other) <==>
        && callPath == other.callPath
        && |typeParameters| == |other.typeParameters|
        && (forall i :: 0 <= i < |typeParameters| ==> ctx.paramEq(typeParameters[i], other.typeParameters[i]))
        && |variants| == |other.variants|
        && (forall i :: 0 <= i < |variants| ==> VariantEq(ctx, variants[i], other.variants[i]))
        && visibility == other.visibility
    {
      && callPath == other.callPath
      && ElementsEq(ctx.paramEq, typeParameters, other.typeParameters)
      && ElementsEq(VariantEqFn(ctx), variants, other.variants)
      && visibility == other.visibility
    }

    /** What hashing the declaration feeds, in order: call path, variants,
        type parameters, visibility. */
    function HashItems(ctx: Engines): seq<HashItem>
      reads this
    {
      [CallPathItem(callPath)]
        + ElementsHash(VariantHashFn(ctx), variants)
        + ElementsHash(ctx.paramHash, typeParameters)
        + [VisibilityItem(visibility)]
    }

    method Hash(state: Hasher, ctx: Engines)
      modifies state
      ensures state.fed == old(state.fed) + HashItems(ctx)
    {
      state.Write(CallPathItem(callPath));
      ghost var start := state.fed;
      var i := 0;
      while i < |variants|
        invariant 0 <= i <= |variants|
        invariant state.fed == start + ElementsHash(VariantHashFn(ctx), variants[..i])
      {
        ghost var done := ElementsHash(VariantHashFn(ctx), variants[..i]);
        HashVariant(variants[i], state, ctx);
        ElementsHashStep(VariantHashFn(ctx), variants, i);
        ConcatAssoc(start, done, VariantHash(ctx, variants[i]));
        i := i + 1;
      }
      assert variants[..i] == variants;
      ghost var afterVariants := state.fed;
      var j := 0;
      while j < |typeParameters|
        invariant 0 <= j <= |typeParameters|
        invariant state.fed == afterVariants + ElementsHash(ctx.paramHash, typeParameters[..j])
      {
        ghost var done := ElementsHash(ctx.paramHash, typeParameters[..j]);
        state.WriteAll(ctx.paramHash(typeParameters[j]));
        ElementsHashStep(ctx.paramHash, typeParameters, j);
        ConcatAssoc(afterVariants, done, ctx.paramHash(typeParameters[j]));
        j := j + 1;
      }
      assert typeParameters[..j] == typeParameters;
      state.Write(VisibilityItem(visibility));
      ConcatAssoc(old(state.fed), [CallPathItem(callPath)] + ElementsHash(VariantHashFn(ctx), variants)
        + ElementsHash(ctx.paramHash, typeParameters), [VisibilityItem(visibility)]);
    }

    /** Concrete exactly when every type parameter is. */
    predicate IsConcrete(ctx: Engines)
      reads this
      ensures IsConcrete(ctx) <==>
        forall i :: 0 <= i < |typeParameters| ==> ctx.paramConcrete(typeParameters[i])
    {
      All(ctx.paramConcrete, typeParameters)
    }

    /** Rewrites the type slots of every variant and then every type parameter
        in place; reports whether anything changed. */
    method SubstInner(ctx: SubstTypesContext) returns (changed: bool)
      modifies this
      ensures variants == SubstAll(SubstVariantFn(ctx), old(variants)).0
      ensures typeParameters == SubstAll(ctx.paramSubst, old(typeParameters)).0
      ensures changed == (SubstAll(SubstVariantFn(ctx), old(variants)).1
                          || SubstAll(ctx.paramSubst, old(typeParameters)).1)
      ensures callPath == old(callPath) && visibility == old(visibility)
      ensures span == old(span) && attributes == old(attributes)
    {
      var variantsChanged := false;
      var i := 0;
      while i < |variants|
        invariant 0 <= i <= |variants| == |old(variants)|
        invariant forall k :: 0 <= k < i ==> variants[k] == SubstVariant(ctx, old(variants)[k]).0
        invariant forall k :: i <= k < |variants| ==> variants[k] == old(variants)[k]
        invariant variantsChanged <==> exists k :: 0 <= k < i && SubstVariant(ctx, old(variants)[k]).1
        invariant typeParameters == old(typeParameters)
        invariant callPath == old(callPath) && visibility == old(visibility)
        invariant span == old(span) && attributes == old(attributes)
      {
        var (v, c) := SubstVariant(ctx, variants[i]);
        variants := variants[i := v];
        variantsChanged := c || variantsChanged;
        i := i + 1;
      }
      var paramsChanged := false;
      var j := 0;
      while j < |typeParameters|
        invariant 0 <= j <= |typeParameters| == |old(typeParameters)|
        invariant forall k :: 0 <= k < j ==> typeParameters[k] == ctx.paramSubst(old(typeParameters)[k]).0
        invariant forall k :: j <= k < |typeParameters| ==> typeParameters[k] == old(typeParameters)[k]
        invariant paramsChanged <==> exists k :: 0 <= k < j && ctx.paramSubst(old(typeParameters)[k]).1
        invariant variants == SubstAll(SubstVariantFn(ctx), old(variants)).0
        invariant callPath == old(callPath) && visibility == old(visibility)
        invariant span == old(span) && attributes == old(attributes)
      {
        var (p, c) := ctx.paramSubst(typeParameters[j]);
        typeParameters := typeParameters[j := p];
        paramsChanged := c || paramsChanged;
        j := j + 1;
      }
      changed := variantsChanged || paramsChanged;
    }

    /** Enums have no const generics to bind: always succeeds and changes nothing. */
    method MaterializeConstGenerics(engines: Engines, handler: Handler, name: string, value: TyExpression)
      returns (r: Result<(), ErrorEmitted>)
      ensures r == Ok(())
    {
      r := Ok(());
    }

    /** Finds the first variant called `variantName`; when there is none,
        records one `UnknownEnumVariant` error (enum name, queried name, the
        query's span) and returns the token for it. */
    method ExpectVariantFromName(handler: Handler, variantName: Ident, variantSpan: Span)
      returns (r: Result<TyEnumVariant, ErrorEmitted>)
      modifies handler
      ensures match FirstVariantNamed(variants, variantName)
        case Some(i) => r == Ok(variants[i]) && handler.errors == old(handler.errors)
        case None =>
          && r.Err?
          && handler.errors == old(handler.errors) + [UnknownEnumVariant(Name(), variantName, variantSpan)]
    {
      var i := 0;
      while i < |variants| && variants[i].name != variantName
        invariant 0 <= i <= |variants|
        invariant forall k :: 0 <= k < i ==> variants[k].name != variantName
      {
        i := i + 1;
      }
      if i < |variants| {
        r := Ok(variants[i]);
      } else {
        var token := handler.EmitErr(UnknownEnumVariant(callPath.suffix, variantName, variantSpan));
        r := Err(token);
      }
    }
  }

  // ---------------------------------------------------------------------------
  // Declaration-level properties

  /** Declarations that differ only in span and attributes are interchangeable
      for equality and hashing. */
  lemma EqIgnoresSpanAndAttributes(ctx: Engines, a: TyEnumDecl, b: TyEnumDecl, c: TyEnumDecl)
    requires a.callPath == b.callPath && a.typeParameters == b.typeParameters
    requires a.variants == b.variants && a.visibility == b.visibility
    ensures a.Eq(ctx, c) == b.Eq(ctx, c)
    ensures c.Eq(ctx, a) == c.Eq(ctx, b)
    ensures a.HashItems(ctx) == b.HashItems(ctx)
  {
  }

  /** With reflexive type-slot equality, declarations that differ only in span
      and attributes are equal. */
  lemma SpanAndAttributesOnlyDeclsAreEqual(ctx: Engines, a: TyEnumDecl, b: TyEnumDecl)
    requires EqReflexive(ctx)
    requires a.callPath == b.callPath && a.typeParameters == b.typeParameters
    requires a.variants == b.variants && a.visibility == b.visibility
    ensures a.Eq(ctx, b)
  {
  }

  /** Equal declarations hash alike, given that equal type slots do. */
  lemma EqImpliesHashEq(ctx: Engines, a: TyEnumDecl, b: TyEnumDecl)
    requires HashRespectsEq(ctx)
    requires a.Eq(ctx, b)
    ensures a.HashItems(ctx) == b.HashItems(ctx)
  {
    forall l, r | VariantEqFn(ctx)(l, r)
      ensures VariantHashFn(ctx)(l) == VariantHashFn(ctx)(r)
    {
      VariantEqImpliesHashEq(ctx, l, r);
    }
    ElementsHashRespectsEq(VariantEqFn(ctx), VariantHashFn(ctx), a.variants, b.variants);
    ElementsHashRespectsEq(ctx.paramEq, ctx.paramHash, a.typeParameters, b.typeParameters);
  }

  /** With substitutions that are idempotent on both kinds of type slot,
      substituting into a declaration a second time changes neither its
      variants nor its type parameters, and reports no change. */
  method SubstInnerTwice(d: TyEnumDecl, ctx: SubstTypesContext) returns (first: bool, second: bool)
    requires ArgSubstIdempotent(ctx) && ParamSubstIdempotent(ctx)
    modifies d
    ensures d.variants == SubstAll(SubstVariantFn(ctx), old(d.variants)).0
    ensures d.typeParameters == SubstAll(ctx.paramSubst, old(d.typeParameters)).0
    ensures first == (SubstAll(SubstVariantFn(ctx), old(d.variants)).1
                      || SubstAll(ctx.paramSubst, old(d.typeParameters)).1)
    ensures !second
  {
    first := d.SubstInner(ctx);
    SubstVariantsIdempotent(ctx, old(d.variants));
    SubstAllIdempotent(ctx.paramSubst, old(d.typeParameters));
    second := d.SubstInner(ctx);
  }

  /** A declaration without type parameters is concrete. */
  lemma NoTypeParametersIsConcrete(ctx: Engines, d: TyEnumDecl)
    requires d.typeParameters == []
    ensures d.IsConcrete(ctx)
  {
  }

  /** A successful lookup returns a variant with the queried name; a failed one
      happens exactly when no variant has it. */
  lemma FirstVariantNamedSound(variants: seq<TyEnumVariant>, name: Ident)
    ensures FirstVariantNamed(variants, name).Some? <==> exists k :: 0 <= k < |variants| && variants[k].name == name
    ensures FirstVariantNamed(variants, name).Some? ==> variants[FirstVariantNamed(variants, name).value].name == name
  {
  }
}
