/** Success/failure values for the operations that raise in the Python
    program: a raised exception becomes an `Err` carrying its kind. */
module Results {

  datatype Result<+T, +E> = Ok(value: T) | Err(error: E)

  /** The exceptions the modelled code can raise. */
  datatype Error =
    /** `interval_counts[int(d)] += 1` with `int(d) >= 20` (an IndexError). */
    | BinOutOfRange
    /** `score_files.get(pair)` returned `None` and `os.path.join` failed on it. */
    | MissingScoreFile(n1: string, n2: string)
}
