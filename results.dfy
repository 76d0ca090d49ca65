/** Optional values, results, and the two kinds of exception the package raises. */
module Results {

  /** A Python argument that may be `None`. */
  datatype Option<+T> = None | Some(value: T)

  /** The value of a call that either returns or raises. */
  datatype Result<+T, +E> = Ok(value: T) | Err(error: E)

  /** The exceptions `mlabimg` and `render_latex` raise: `ValueError` for an
      unsupported image type, `RenderError` when no renderer succeeds. */
  datatype Error = ValueError(msg: string) | RenderError(msg: string)
}
