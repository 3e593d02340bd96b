/** Formatting of path expressions and path types back to source text.

    Each formatting routine appends to a shared text buffer. The text it
    appends is given by a function over the syntax tree (`PathExprText`,
    `PathTypeText`, ...). The path formatters also return, as a ghost trace,
    the writes they make themselves: the `::`, `<` and `>` tokens, and the
    text of each nested call as one opaque write. The trace renders to the
    appended text, and counting in it gives the separators the routine writes
    itself. */
module PathFormat {
  import opened SwayTypes

  /** A type as written in source; rendered by a routine outside this file. */
  type Ty
  /** Generic arguments `<...>`; rendered by a routine outside this file. */
  type GenericArgs

  /** The renderers this file calls but does not define. */
  datatype LeafRenderers = LeafRenderers(
    ident: Ident -> string,
    genericArgs: GenericArgs -> string,
    ty: Ty -> string)

  datatype PathExprSegment = PathExprSegment(name: Ident, genericsOpt: Option<GenericArgs>)

  /** The generics of a path-type segment, with or without the `::` before them. */
  datatype TypeSegmentGenerics = TypeSegmentGenerics(hasDoubleColon: bool, args: GenericArgs)

  datatype PathTypeSegment = PathTypeSegment(name: Ident, genericsOpt: Option<TypeSegmentGenerics>)

  /** `<ty as Trait>`, without its angle brackets. */
  datatype QualifiedPathRoot = QualifiedPathRoot(ty: Ty, asTrait: PathType)

  /** `rootOpt` is absent, `Some(None)` for a leading `::`, or
      `Some(Some(root))` for a leading `<root>::`. */
  datatype PathType = PathType(
    rootOpt: Option<Option<QualifiedPathRoot>>,
    prefix: PathTypeSegment,
    suffix: seq<PathTypeSegment>,
    span: Span)

  datatype PathExpr = PathExpr(
    rootOpt: Option<Option<QualifiedPathRoot>>,
    prefix: PathExprSegment,
    suffix: seq<PathExprSegment>,
    span: Span)

  /** A span as byte offsets, as recorded for leaves of the syntax tree. */
  datatype ByteSpan = ByteSpan(start: nat, end: nat)

  // ---------------------------------------------------------------------------
  // The text each routine appends

  /** The segment's name, then `::` and the generic arguments when it has them. */
  function PathExprSegmentText(l: LeafRenderers, s: PathExprSegment): string {
    l.ident(s.name)
      + match s.genericsOpt
        case None => ""
        case Some(args) => "::" + l.genericArgs(args)
  }

  /** The segment's raw name, then `::` only when the segment carries one,
      then the generic arguments. */
  function PathTypeSegmentText(l: LeafRenderers, s: PathTypeSegment): string {
    s.name
      + match s.genericsOpt
        case None => ""
        case Some(g) => (if g.hasDoubleColon then "::" else "") + l.genericArgs(g.args)
  }

  /** The optional root: nothing, `::`, or `<root>::`. */
  function RootText(l: LeafRenderers, rootOpt: Option<Option<QualifiedPathRoot>>): string
    decreases rootOpt, 2
  {
    match rootOpt
    case None => ""
    case Some(None) => "::"
    case Some(Some(root)) => "<" + QualifiedPathRootText(l, root) + ">" + "::"
  }

  function QualifiedPathRootText(l: LeafRenderers, root: QualifiedPathRoot): string
    decreases root, 1
  {
    l.ty(root.ty) + " as " + PathTypeText(l, root.asTrait)
  }

  /** `::segment` for each suffix segment, in order. */
  function ExprSuffixText(l: LeafRenderers, segments: seq<PathExprSegment>): string {
    if segments == [] then ""
    else ExprSuffixText(l, segments[..|segments| - 1]) + "::" + PathExprSegmentText(l, segments[|segments| - 1])
  }

  function TypeSuffixText(l: LeafRenderers, segments: seq<PathTypeSegment>): string {
    if segments == [] then ""
    else TypeSuffixText(l, segments[..|segments| - 1]) + "::" + PathTypeSegmentText(l, segments[|segments| - 1])
  }

  function PathExprText(l: LeafRenderers, p: PathExpr): string {
    RootText(l, p.rootOpt) + PathExprSegmentText(l, p.prefix) + ExprSuffixText(l, p.suffix)
  }

  function PathTypeText(l: LeafRenderers, p: PathType): string
    decreases p, 0
  {
    RootText(l, p.rootOpt) + PathTypeSegmentText(l, p.prefix) + TypeSuffixText(l, p.suffix)
  }

  lemma AppendAssoc(a: string, b: string, c: string, d: string)
    ensures a + (b + c + d) == a + b + c + d
  {
  }

  /** One more segment of suffix appends `::` and that segment. */
  lemma ExprSuffixTextStep(l: LeafRenderers, segments: seq<PathExprSegment>, i: nat)
    requires i < |segments|
    ensures ExprSuffixText(l, segments[..i + 1])
              == ExprSuffixText(l, segments[..i]) + "::" + PathExprSegmentText(l, segments[i])
  {
    assert segments[..i + 1][..i] == segments[..i];
  }

  lemma TypeSuffixTextStep(l: LeafRenderers, segments: seq<PathTypeSegment>, i: nat)
    requires i < |segments|
    ensures TypeSuffixText(l, segments[..i + 1])
              == TypeSuffixText(l, segments[..i]) + "::" + PathTypeSegmentText(l, segments[i])
  {
    assert segments[..i + 1][..i] == segments[..i];
  }

  // ---------------------------------------------------------------------------
  // The formatting routines

  /** The output buffer. */
  class FormattedCode {
    var text: string

    constructor ()
      ensures text == ""
    {
      text := "";
    }

    method Write(s: string)
      modifies this
      ensures text == old(text) + s
    {
      text := text + s;
    }
  }

  method FormatPathExprSegment(s: PathExprSegment, code: FormattedCode, l: LeafRenderers)
    modifies code
    ensures code.text == old(code.text) + PathExprSegmentText(l, s)
  {
    code.Write(l.ident(s.name));
    if s.genericsOpt.Some? {
      code.Write("::");
      code.Write(l.genericArgs(s.genericsOpt.value));
    }
  }

  method FormatPathTypeSegment(s: PathTypeSegment, code: FormattedCode, l: LeafRenderers)
    modifies code
    ensures code.text == old(code.text) + PathTypeSegmentText(l, s)
  {
    code.Write(s.name);
    if s.genericsOpt.Some? {
      if s.genericsOpt.value.hasDoubleColon {
        code.Write("::");
      }
      code.Write(l.genericArgs(s.genericsOpt.value.args));
    }
  }

  method FormatQualifiedPathRoot(root: QualifiedPathRoot, code: FormattedCode, l: LeafRenderers)
    modifies code
    ensures code.text == old(code.text) + QualifiedPathRootText(l, root)
    decreases root, 1
  {
    code.Write(l.ty(root.ty));
    code.Write(" as ");
    ghost var _ := FormatPathType(root.asTrait, code, l);
  }

  /** Writes the optional root of a path: `<root>::`, `::` or nothing. Both
      path formatters begin with this. `own` records each write it makes,
      the nested root counting as one. */
  method FormatRoot(rootOpt: Option<Option<QualifiedPathRoot>>, code: FormattedCode, l: LeafRenderers)
    returns (ghost own: seq<Write>)
    modifies code
    ensures code.text == old(code.text) + RootText(l, rootOpt)
    ensures own == RootWrites(l, rootOpt)
    decreases rootOpt, 2
  {
    own := [];
    if rootOpt.Some? {
      if rootOpt.value.Some? {
        code.Write("<");
        own := own + [OpenAngle];
        FormatQualifiedPathRoot(rootOpt.value.value, code, l);
        own := own + [Nested(QualifiedPathRootText(l, rootOpt.value.value))];
        code.Write(">");
        own := own + [CloseAngle];
      }
      code.Write("::");
      own := own + [DoubleColon];
    }
  }

  /** Appends the path expression; `own` records each write it makes, each
      nested call counting as one. */
  method FormatPathExpr(p: PathExpr, code: FormattedCode, l: LeafRenderers) returns (ghost own: seq<Write>)
    modifies code
    ensures code.text == old(code.text) + PathExprText(l, p)
    ensures own == PathExprWrites(l, p)
    ensures Render(own) == PathExprText(l, p)
    ensures CountDoubleColons(own) == |p.suffix| + (if p.rootOpt.Some? then 1 else 0)
  {
    own := FormatRoot(p.rootOpt, code, l);
    FormatPathExprSegment(p.prefix, code, l);
    own := own + [Nested(PathExprSegmentText(l, p.prefix))];
    ghost var head, ownHead := code.text, own;
    var i := 0;
    while i < |p.suffix|
      invariant 0 <= i <= |p.suffix|
      invariant code.text == head + ExprSuffixText(l, p.suffix[..i])
      invariant own == ownHead + ExprSuffixWrites(l, p.suffix[..i])
    {
      ghost var done, ownDone := ExprSuffixText(l, p.suffix[..i]), ExprSuffixWrites(l, p.suffix[..i]);
      code.Write("::");
      own := own + [DoubleColon];
      FormatPathExprSegment(p.suffix[i], code, l);
      own := own + [Nested(PathExprSegmentText(l, p.suffix[i]))];
      ExprSuffixTextStep(l, p.suffix, i);
      AppendAssoc(head, done, "::", PathExprSegmentText(l, p.suffix[i]));
      ExprSuffixWritesStep(l, p.suffix, i);
      TraceAssoc(ownHead, ownDone, DoubleColon, Nested(PathExprSegmentText(l, p.suffix[i])));
      i := i + 1;
    }
    assert p.suffix[..i] == p.suffix;
    AppendAssoc(old(code.text), RootText(l, p.rootOpt), PathExprSegmentText(l, p.prefix), ExprSuffixText(l, p.suffix));
    PathExprWritesAgree(l, p);
  }

  /** Appends the path type; `own` records each write it makes, each nested
      call counting as one. */
  method FormatPathType(p: PathType, code: FormattedCode, l: LeafRenderers) returns (ghost own: seq<Write>)
    modifies code
    ensures code.text == old(code.text) + PathTypeText(l, p)
    ensures own == PathTypeWrites(l, p)
    ensures Render(own) == PathTypeText(l, p)
    ensures CountDoubleColons(own) == |p.suffix| + (if p.rootOpt.Some? then 1 else 0)
    decreases p, 0
  {
    own := FormatRoot(p.rootOpt, code, l);
    FormatPathTypeSegment(p.prefix, code, l);
    own := own + [Nested(PathTypeSegmentText(l, p.prefix))];
    ghost var head, ownHead := code.text, own;
    var i := 0;
    while i < |p.suffix|
      invariant 0 <= i <= |p.suffix|
      invariant code.text == head + TypeSuffixText(l, p.suffix[..i])
      invariant own == ownHead + TypeSuffixWrites(l, p.suffix[..i])
    {
      ghost var done, ownDone := TypeSuffixText(l, p.suffix[..i]), TypeSuffixWrites(l, p.suffix[..i]);
      code.Write("::");
      own := own + [DoubleColon];
      FormatPathTypeSegment(p.suffix[i], code, l);
      own := own + [Nested(PathTypeSegmentText(l, p.suffix[i]))];
      TypeSuffixTextStep(l, p.suffix, i);
      AppendAssoc(head, done, "::", PathTypeSegmentText(l, p.suffix[i]));
      TypeSuffixWritesStep(l, p.suffix, i);
      TraceAssoc(ownHead, ownDone, DoubleColon, Nested(PathTypeSegmentText(l, p.suffix[i])));
      i := i + 1;
    }
    assert p.suffix[..i] == p.suffix;
    AppendAssoc(old(code.text), RootText(l, p.rootOpt), PathTypeSegmentText(l, p.prefix), TypeSuffixText(l, p.suffix));
    PathTypeWritesAgree(l, p);
  }

  /** The leaf spans of a path expression: its whole span, once. */
  function PathExprLeafSpans(p: PathExpr): (r: seq<ByteSpan>)
    ensures |r| == 1 && r[0].start == p.span.start && r[0].end == p.span.end
  {
    [ByteSpan(p.span.start, p.span.end)]
  }

  function PathTypeLeafSpans(p: PathType): (r: seq<ByteSpan>)
    ensures |r| == 1 && r[0].start == p.span.start && r[0].end == p.span.end
  {
    [ByteSpan(p.span.start, p.span.end)]
  }

  // ---------------------------------------------------------------------------
  // The writes a path formatter makes itself

  datatype Write =
    | DoubleColon
    | OpenAngle
    | CloseAngle
    | Nested(text: string)

  function WriteText(w: Write): string {
    match w
    case DoubleColon => "::"
    case OpenAngle => "<"
    case CloseAngle => ">"
    case Nested(s) => s
  }

  /** The text a list of writes appends, in order. */
  function Render(ws: seq<Write>): string {
    if ws == [] then "" else Render(ws[..|ws| - 1]) + WriteText(ws[|ws| - 1])
  }

  /** How many `::` a list of writes contains as writes of its own. */
  function CountDoubleColons(ws: seq<Write>): nat {
    if ws == [] then 0
    else CountDoubleColons(ws[..|ws| - 1]) + (if ws[|ws| - 1] == DoubleColon then 1 else 0)
  }

  function RootWrites(l: LeafRenderers, rootOpt: Option<Option<QualifiedPathRoot>>): seq<Write> {
    match rootOpt
    case None => []
    case Some(None) => [DoubleColon]
    case Some(Some(root)) => [OpenAngle, Nested(QualifiedPathRootText(l, root)), CloseAngle, DoubleColon]
  }

  function ExprSuffixWrites(l: LeafRenderers, segments: seq<PathExprSegment>): seq<Write> {
    if segments == [] then []
    else
      ExprSuffixWrites(l, segments[..|segments| - 1])
        + [DoubleColon, Nested(PathExprSegmentText(l, segments[|segments| - 1]))]
  }

  function TypeSuffixWrites(l: LeafRenderers, segments: seq<PathTypeSegment>): seq<Write> {
    if segments == [] then []
    else
      TypeSuffixWrites(l, segments[..|segments| - 1])
        + [DoubleColon, Nested(PathTypeSegmentText(l, segments[|segments| - 1]))]
  }

  function PathExprWrites(l: LeafRenderers, p: PathExpr): seq<Write> {
    RootWrites(l, p.rootOpt) + [Nested(PathExprSegmentText(l, p.prefix))] + ExprSuffixWrites(l, p.suffix)
  }

  function PathTypeWrites(l: LeafRenderers, p: PathType): seq<Write> {
    RootWrites(l, p.rootOpt) + [Nested(PathTypeSegmentText(l, p.prefix))] + TypeSuffixWrites(l, p.suffix)
  }

  lemma TraceAssoc(a: seq<Write>, b: seq<Write>, x: Write, y: Write)
    ensures a + b + [x] + [y] == a + (b + [x, y])
  {
  }

  /** One more suffix segment adds `::` and that segment to the trace. */
  lemma ExprSuffixWritesStep(l: LeafRenderers, segments: seq<PathExprSegment>, i: nat)
    requires i < |segments|
    ensures ExprSuffixWrites(l, segments[..i + 1])
              == ExprSuffixWrites(l, segments[..i]) + [DoubleColon, Nested(PathExprSegmentText(l, segments[i]))]
  {
    assert segments[..i + 1][..i] == segments[..i];
  }

  lemma TypeSuffixWritesStep(l: LeafRenderers, segments: seq<PathTypeSegment>, i: nat)
    requires i < |segments|
    ensures TypeSuffixWrites(l, segments[..i + 1])
              == TypeSuffixWrites(l, segments[..i]) + [DoubleColon, Nested(PathTypeSegmentText(l, segments[i]))]
  {
    assert segments[..i + 1][..i] == segments[..i];
  }

  lemma {:induction false} RenderAppend(a: seq<Write>, b: seq<Write>)
    ensures Render(a + b) == Render(a) + Render(b)
  {
    if b != [] {
      var n := |b| - 1;
      assert (a + b)[..|a + b| - 1] == a + b[..n];
      assert (a + b)[|a + b| - 1] == b[n];
      RenderAppend(a, b[..n]);
      calc {
        Render(a + b);
        Render(a + b[..n]) + WriteText(b[n]);
        Render(a) + Render(b[..n]) + WriteText(b[n]);
        Render(a) + Render(b);
      }
    } else {
      assert a + b == a;
    }
  }

  lemma {:induction false} CountAppend(a: seq<Write>, b: seq<Write>)
    ensures CountDoubleColons(a + b) == CountDoubleColons(a) + CountDoubleColons(b)
  {
    if b != [] {
      var n := |b| - 1;
      assert (a + b)[..|a + b| - 1] == a + b[..n];
      assert (a + b)[|a + b| - 1] == b[n];
      CountAppend(a, b[..n]);
    } else {
      assert a + b == a;
    }
  }

  /** Rendering and counting a `::` followed by one nested piece. */
  lemma SeparatedPiece(t: string)
    ensures Render([DoubleColon, Nested(t)]) == "::" + t
    ensures CountDoubleColons([DoubleColon, Nested(t)]) == 1
  {
    assert [DoubleColon, Nested(t)][..1] == [DoubleColon];
    assert [DoubleColon][..0] == [];
  }

  /** The root's trace renders to the root's text and holds one `::` exactly
      when there is a root; only a qualified root writes angle brackets. */
  lemma RootWritesAgree(l: LeafRenderers, rootOpt: Option<Option<QualifiedPathRoot>>)
    ensures Render(RootWrites(l, rootOpt)) == RootText(l, rootOpt)
    ensures CountDoubleColons(RootWrites(l, rootOpt)) == if rootOpt.Some? then 1 else 0
    ensures (OpenAngle in RootWrites(l, rootOpt) || CloseAngle in RootWrites(l, rootOpt))
              <==> rootOpt.Some? && rootOpt.value.Some?
  {
    match rootOpt
    case None =>
    case Some(None) =>
      assert [DoubleColon][..0] == [];
    case Some(Some(root)) =>
      var q := QualifiedPathRootText(l, root);
      var w1, w2, w3 := [OpenAngle], [OpenAngle, Nested(q)], [OpenAngle, Nested(q), CloseAngle];
      var w4 := w3 + [DoubleColon];
      assert w1[..0] == [] && w2[..1] == w1 && w3[..2] == w2 && w4[..3] == w3;
      assert Render(w1) == "<" && CountDoubleColons(w1) == 0;
      assert Render(w2) == "<" + q && CountDoubleColons(w2) == 0;
      assert Render(w3) == "<" + q + ">" && CountDoubleColons(w3) == 0;
      assert Render(w4) == "<" + q + ">" + "::" && CountDoubleColons(w4) == 1;
      assert RootWrites(l, rootOpt) == w4;
  }

  lemma {:induction false} ExprSuffixWritesAgree(l: LeafRenderers, segments: seq<PathExprSegment>)
    ensures Render(ExprSuffixWrites(l, segments)) == ExprSuffixText(l, segments)
    ensures CountDoubleColons(ExprSuffixWrites(l, segments)) == |segments|
    ensures OpenAngle !in ExprSuffixWrites(l, segments) && CloseAngle !in ExprSuffixWrites(l, segments)
  {
    if segments != [] {
      var n := |segments| - 1;
      var piece := [DoubleColon, Nested(PathExprSegmentText(l, segments[n]))];
      ExprSuffixWritesAgree(l, segments[..n]);
      RenderAppend(ExprSuffixWrites(l, segments[..n]), piece);
      CountAppend(ExprSuffixWrites(l, segments[..n]), piece);
      SeparatedPiece(PathExprSegmentText(l, segments[n]));
    }
  }

  lemma {:induction false} TypeSuffixWritesAgree(l: LeafRenderers, segments: seq<PathTypeSegment>)
    ensures Render(TypeSuffixWrites(l, segments)) == TypeSuffixText(l, segments)
    ensures CountDoubleColons(TypeSuffixWrites(l, segments)) == |segments|
    ensures OpenAngle !in TypeSuffixWrites(l, segments) && CloseAngle !in TypeSuffixWrites(l, segments)
  {
    if segments != [] {
      var n := |segments| - 1;
      var piece := [DoubleColon, Nested(PathTypeSegmentText(l, segments[n]))];
      TypeSuffixWritesAgree(l, segments[..n]);
      RenderAppend(TypeSuffixWrites(l, segments[..n]), piece);
      CountAppend(TypeSuffixWrites(l, segments[..n]), piece);
      SeparatedPiece(PathTypeSegmentText(l, segments[n]));
    }
  }

  /** The trace of a path expression renders to its text, and the path
      expression writes one `::` of its own per suffix segment plus one after
      a root. */
  lemma PathExprWritesAgree(l: LeafRenderers, p: PathExpr)
    ensures Render(PathExprWrites(l, p)) == PathExprText(l, p)
    ensures CountDoubleColons(PathExprWrites(l, p)) == |p.suffix| + (if p.rootOpt.Some? then 1 else 0)
  {
    var root := RootWrites(l, p.rootOpt);
    var prefix := [Nested(PathExprSegmentText(l, p.prefix))];
    RootWritesAgree(l, p.rootOpt);
    ExprSuffixWritesAgree(l, p.suffix);
    RenderAppend(root + prefix, ExprSuffixWrites(l, p.suffix));
    RenderAppend(root, prefix);
    CountAppend(root + prefix, ExprSuffixWrites(l, p.suffix));
    CountAppend(root, prefix);
    assert prefix[..0] == [];
  }

  lemma PathTypeWritesAgree(l: LeafRenderers, p: PathType)
    ensures Render(PathTypeWrites(l, p)) == PathTypeText(l, p)
    ensures CountDoubleColons(PathTypeWrites(l, p)) == |p.suffix| + (if p.rootOpt.Some? then 1 else 0)
  {
    var root := RootWrites(l, p.rootOpt);
    var prefix := [Nested(PathTypeSegmentText(l, p.prefix))];
    RootWritesAgree(l, p.rootOpt);
    TypeSuffixWritesAgree(l, p.suffix);
    RenderAppend(root + prefix, TypeSuffixWrites(l, p.suffix));
    RenderAppend(root, prefix);
    CountAppend(root + prefix, TypeSuffixWrites(l, p.suffix));
    CountAppend(root, prefix);
    assert prefix[..0] == [];
  }

  /** How a path expression's text begins, by the kind of root it has; only a
      qualified root makes the path expression write angle brackets itself. */
  lemma PathExprRootPrefix(l: LeafRenderers, p: PathExpr)
    ensures p.rootOpt.Some? && p.rootOpt.value.Some? ==>
      "<" + QualifiedPathRootText(l, p.rootOpt.value.value) + ">::" <= PathExprText(l, p)
    ensures p.rootOpt == Some(None) ==> "::" + PathExprSegmentText(l, p.prefix) <= PathExprText(l, p)
    ensures p.rootOpt.None? ==> PathExprSegmentText(l, p.prefix) <= PathExprText(l, p)
    ensures (OpenAngle in PathExprWrites(l, p) || CloseAngle in PathExprWrites(l, p))
              <==> p.rootOpt.Some? && p.rootOpt.value.Some?
  {
    RootWritesAgree(l, p.rootOpt);
    ExprSuffixWritesAgree(l, p.suffix);
    if p.rootOpt.Some? && p.rootOpt.value.Some? {
      var q := QualifiedPathRootText(l, p.rootOpt.value.value);
      assert "<" + q + ">" + "::" == "<" + q + ">::";
    }
  }

  /** The same, for a path type. */
  lemma PathTypeRootPrefix(l: LeafRenderers, p: PathType)
    ensures p.rootOpt.Some? && p.rootOpt.value.Some? ==>
      "<" + QualifiedPathRootText(l, p.rootOpt.value.value) + ">::" <= PathTypeText(l, p)
    ensures p.rootOpt == Some(None) ==> "::" + PathTypeSegmentText(l, p.prefix) <= PathTypeText(l, p)
    ensures p.rootOpt.None? ==> PathTypeSegmentText(l, p.prefix) <= PathTypeText(l, p)
    ensures (OpenAngle in PathTypeWrites(l, p) || CloseAngle in PathTypeWrites(l, p))
              <==> p.rootOpt.Some? && p.rootOpt.value.Some?
  {
    RootWritesAgree(l, p.rootOpt);
    TypeSuffixWritesAgree(l, p.suffix);
    if p.rootOpt.Some? && p.rootOpt.value.Some? {
      var q := QualifiedPathRootText(l, p.rootOpt.value.value);
      assert "<" + q + ">" + "::" == "<" + q + ">::";
    }
  }

  /** With generic arguments, a path-expression segment always writes `::`
      before them. */
  lemma ExprSegmentSeparatesGenerics(l: LeafRenderers, name: Ident, args: GenericArgs)
    ensures PathExprSegmentText(l, PathExprSegment(name, Some(args))) == l.ident(name) + "::" + l.genericArgs(args)
  {
  }

  /** With generic arguments, a path-type segment writes `::` before them
      only when the segment carries one. */
  lemma TypeSegmentSeparatorFollowsFlag(l: LeafRenderers, name: Ident, args: GenericArgs)
    ensures PathTypeSegmentText(l, PathTypeSegment(name, Some(TypeSegmentGenerics(true, args))))
              == name + "::" + l.genericArgs(args)
    ensures PathTypeSegmentText(l, PathTypeSegment(name, Some(TypeSegmentGenerics(false, args))))
              == name + l.genericArgs(args)
  {
  }
}
