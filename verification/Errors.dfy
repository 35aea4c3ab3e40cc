/** Error numbers, as the kernel counts them. The disk image tool has the numbers of its host instead. */
module Errors {
  type Errno = nat

  const EOK: Errno := 0
  const ENODEV: Errno := 5
  const ERANGE: Errno := 6
  const ECANCELED: Errno := 7
  const EINVAL: Errno := 13
  const EIO: Errno := 14
  const ENOSPC: Errno := 30
  const EOVERFLOW: Errno := 32
  const ENXIO: Errno := 42
}
