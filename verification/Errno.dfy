/** The error numbers the modelled calls return, negated (include/errno.h). */
module Errno {
  const EAGAIN := 11
  const EINVAL := 22
  const ETIME := 62

  /** They are the numbers user code knows. */
  lemma KnownNumbers()
    ensures EAGAIN == 11 && EINVAL == 22 && ETIME == 62
  {
  }
}
