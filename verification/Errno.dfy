/** Error numbers; functions return them negated. */
module Errno {
  const EINTR := 4
  const EAGAIN := 11
  const ENOMEM := 12
  const EBUSY := 16
  const EINVAL := 22
}
