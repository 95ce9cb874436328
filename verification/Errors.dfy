/**
 * The errors a run of mdrelease can end with, across the packages that raise
 * them: usageError and preflightError of internal/app, changelog.ParseError,
 * gitutil.GitError, the error `fmt.Errorf("%w …")` wraps around another one,
 * and any other error a port implementation may return.
 */
module Errors {
  import opened Wrappers
  import Changelog

  datatype Error =
    | Usage(msg: string)
    | Preflight(msg: string)
    | Parse(failure: Changelog.ParseError)
    | Git(op: string, cause: Option<string>)
    | Wrapped(inner: Error, note: string)
    | Other(msg: string)

  /** The Error() text of an error: GitError is `op` or `op: cause`, a wrapper appends its note. */
  function Message(e: Error): string
  {
    match e
    case Usage(m) => m
    case Preflight(m) => m
    case Parse(f) => Changelog.ErrorText(f)
    case Git(op, cause) => if cause.None? then op else op + ": " + cause.value
    case Wrapped(inner, note) => Message(inner) + note
    case Other(m) => m
  }

  /**
   * The error errors.As finds at the end of the Unwrap chain. Only the wrapper
   * unwraps to another error of this model (the causes carried by ParseError
   * and GitError are operating-system and process errors), and a wrapper is
   * never the target of errors.As, so errors.As(e, T) holds exactly when the
   * root of `e` is a T.
   */
  function Root(e: Error): (r: Error)
    ensures !r.Wrapped?
    ensures !e.Wrapped? ==> r == e
  {
    if e.Wrapped? then Root(e.inner) else e
  }
}
