/** The type-engine side that the enum declaration depends on but does not
    define: type arguments and type parameters are opaque handles, and what can
    be asked of them (equality, ordering, hashing, concreteness, substitution)
    is a function carried by a context. The laws those functions are expected to
    obey are predicates that lemmas take as preconditions.

    Also here: the engine-aware equality, hashing, substitution and `all` over a
    list, applied element by element, and the hasher state they feed. */
module EngineThreading {
  import opened SwayTypes
  import opened Orderings

  /** A type slot: a handle into the type engine (plus span metadata). */
  type TypeArgument(!new)
  /** A generic parameter of a declaration. */
  type TypeParameter(!new)

  /** One value fed to a hasher. `EngineWord` stands for whatever the engines
      feed when they hash a type slot; only the engines' hash functions
      produce it. */
  datatype HashItem =
    | CallPathItem(callPath: CallPath)
    | IdentItem(ident: Ident)
    | TagItem(tag: nat)
    | VisibilityItem(visibility: Visibility)
    | EngineWord(word: int)

  /** The engines, seen through what the enum declaration asks of them. */
  datatype Engines = Engines(
    argEq: (TypeArgument, TypeArgument) -> bool,
    argCmp: (TypeArgument, TypeArgument) -> Ordering,
    argHash: TypeArgument -> seq<HashItem>,
    paramEq: (TypeParameter, TypeParameter) -> bool,
    paramHash: TypeParameter -> seq<HashItem>,
    paramConcrete: TypeParameter -> bool)

  /** A substitution: each type slot is rewritten and reports whether it changed. */
  datatype SubstTypesContext = SubstTypesContext(
    argSubst: TypeArgument -> (TypeArgument, bool),
    paramSubst: TypeParameter -> (TypeParameter, bool))

  /** Engine-equal type arguments hash alike. */
  ghost predicate ArgHashRespectsEq(ctx: Engines) {
    forall a, b :: ctx.argEq(a, b) ==> ctx.argHash(a) == ctx.argHash(b)
  }

  /** Engine-equal type parameters hash alike. */
  ghost predicate ParamHashRespectsEq(ctx: Engines) {
    forall p, q :: ctx.paramEq(p, q) ==> ctx.paramHash(p) == ctx.paramHash(q)
  }

  /** Hashing is consistent with equality for both kinds of type slot. */
  ghost predicate HashRespectsEq(ctx: Engines) {
    ArgHashRespectsEq(ctx) && ParamHashRespectsEq(ctx)
  }

  /** Equality of type slots is reflexive. */
  ghost predicate EqReflexive(ctx: Engines) {
    && (forall a :: ctx.argEq(a, a))
    && (forall p :: ctx.paramEq(p, p))
  }

  /** Type-argument ordering ties exactly the arguments that equality identifies. */
  ghost predicate CmpAgreesWithEq(ctx: Engines) {
    forall a, b :: ctx.argCmp(a, b) == Equal <==> ctx.argEq(a, b)
  }

  /** Substituting an already substituted value changes nothing more. */
  ghost predicate SubstIdempotent<T(!new)>(subst: T -> (T, bool)) {
    forall x :: subst(subst(x).0) == (subst(x).0, false)
  }

  /** Substitution is idempotent on type arguments. */
  ghost predicate ArgSubstIdempotent(ctx: SubstTypesContext) {
    SubstIdempotent(ctx.argSubst)
  }

  /** Substitution is idempotent on type parameters. */
  ghost predicate ParamSubstIdempotent(ctx: SubstTypesContext) {
    SubstIdempotent(ctx.paramSubst)
  }

  /** Engine-aware equality of two lists: equal lengths and pairwise equal
      elements, checked front to back. */
  function ElementsEq<T>(eq: (T, T) -> bool, xs: seq<T>, ys: seq<T>): (r: bool)
    ensures r <==> |xs| == |ys| && forall i :: 0 <= i < |xs| ==> eq(xs[i], ys[i])
  {
    if xs == [] || ys == [] then |xs| == |ys|
    else eq(xs[0], ys[0]) && ElementsEq(eq, xs[1..], ys[1..])
  }

  /** Engine-aware hash of a list: the elements' hashes, fed in order. */
  function ElementsHash<T>(hash: T -> seq<HashItem>, xs: seq<T>): seq<HashItem>
  {
    if xs == [] then [] else ElementsHash(hash, xs[..|xs| - 1]) + hash(xs[|xs| - 1])
  }

  /** Hashing one more element feeds that element's hash after the rest. */
  lemma ElementsHashStep<T>(hash: T -> seq<HashItem>, xs: seq<T>, i: nat)
    requires i < |xs|
    ensures ElementsHash(hash, xs[..i + 1]) == ElementsHash(hash, xs[..i]) + hash(xs[i])
  {
    assert xs[..i + 1][..i] == xs[..i];
  }

  lemma ConcatAssoc<T>(a: seq<T>, b: seq<T>, c: seq<T>)
    ensures a + (b + c) == a + b + c
  {
  }

  /** Pairwise equal lists hash alike when their elements do. */
  lemma {:induction false} ElementsHashRespectsEq<T>(
    eq: (T, T) -> bool, hash: T -> seq<HashItem>, xs: seq<T>, ys: seq<T>)
    requires forall a, b :: eq(a, b) ==> hash(a) == hash(b)
    requires ElementsEq(eq, xs, ys)
    ensures ElementsHash(hash, xs) == ElementsHash(hash, ys)
  {
    if xs != [] {
      var n := |xs| - 1;
      assert ElementsEq(eq, xs[..n], ys[..n]);
      ElementsHashRespectsEq(eq, hash, xs[..n], ys[..n]);
      assert eq(xs[n], ys[n]);
    }
  }

  /** Substitution into every element of a list, in order; the flag is the OR
      of the elements' flags. */
  function SubstAll<T>(subst: T -> (T, bool), xs: seq<T>): (r: (seq<T>, bool))
    ensures |r.0| == |xs|
    ensures forall i :: 0 <= i < |xs| ==> r.0[i] == subst(xs[i]).0
    ensures r.1 <==> exists i :: 0 <= i < |xs| && subst(xs[i]).1
  {
    if xs == [] then ([], false)
    else
      var rest := SubstAll(subst, xs[1..]);
      var head := subst(xs[0]);
      ([head.0] + rest.0, head.1 || rest.1)
  }

  /** When no element changes, substitution returns the list as it was and
      reports no change. */
  lemma SubstAllNoChange<T>(subst: T -> (T, bool), xs: seq<T>)
    requires forall i :: 0 <= i < |xs| ==> subst(xs[i]) == (xs[i], false)
    ensures SubstAll(subst, xs) == (xs, false)
  {
    assert SubstAll(subst, xs).0 == xs;
  }

  /** Substituting into a list twice is substituting once, and the second
      pass reports no change. */
  lemma SubstAllIdempotent<T(!new)>(subst: T -> (T, bool), xs: seq<T>)
    requires SubstIdempotent(subst)
    ensures var once := SubstAll(subst, xs).0;
      SubstAll(subst, once) == (once, false)
  {
    SubstAllNoChange(subst, SubstAll(subst, xs).0);
  }

  /** `Iterator::all`: whether the predicate holds of every element, stopping
      at the first that fails. */
  function All<T>(p: T -> bool, xs: seq<T>): (r: bool)
    ensures r <==> forall i :: 0 <= i < |xs| ==> p(xs[i])
  {
    xs == [] || (p(xs[0]) && All(p, xs[1..]))
  }

  /** A hasher, seen as the list of values fed to it so far. */
  class Hasher {
    var fed: seq<HashItem>

    constructor ()
      ensures fed == []
    {
      fed := [];
    }

    method Write(item: HashItem)
      modifies this
      ensures fed == old(fed) + [item]
    {
      fed := fed + [item];
    }

    method WriteAll(items: seq<HashItem>)
      modifies this
      ensures fed == old(fed) + items
    {
      fed := fed + items;
    }
  }
}
