/** The shared diagnostic handler: fallible operations record their error here
    and hand back a token proving that they did. */
module Diagnostics {
  import opened SwayTypes

  /** The compile error the enum declaration can raise. */
  datatype CompileError = UnknownEnumVariant(enumName: Ident, variantName: Ident, span: Span)

  /** Proof that an error was recorded; it carries no error content of its own. */
  datatype ErrorEmitted = ErrorEmitted

  /** The handler, seen as the errors recorded through it, oldest first. */
  class Handler {
    var errors: seq<CompileError>

    constructor ()
      ensures errors == []
    {
      errors := [];
    }

    /** Records `err` and returns the token for it. */
    method EmitErr(err: CompileError) returns (token: ErrorEmitted)
      modifies this
      ensures errors == old(errors) + [err]
    {
      errors := errors + [err];
      token := ErrorEmitted;
    }
  }
}
