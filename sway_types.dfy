/** Value types shared by the typed enum declaration and the path formatter:
    identifiers, spans, attributes, call paths, visibility, Option and Result. */
module SwayTypes {

  /** An identifier. Equality, hashing and ordering of `Ident` look only at its
      text, so the text is all the model keeps; a span that travels with an
      identifier is passed beside it where it is needed. */
  type Ident = string

  /** A source span: byte offsets into the source text. */
  datatype Span = Span(start: nat, end: nat)

  /** Doc comments and annotations attached to a declaration; only carried around. */
  type AttributesMap(==, !new)

  /** A module-qualified path to a declaration; `suffix` is the declared name. */
  datatype CallPath = CallPath(prefixes: seq<Ident>, suffix: Ident)

  datatype Visibility = Private | Public

  datatype Option<+T> = None | Some(value: T)

  datatype Result<+T, +E> = Ok(value: T) | Err(error: E)
}
