/** What the drivers use of the kernel: byte values, error codes and copies from user space. */
module Kernel {

  newtype byte = b: int | 0 <= b < 0x100

  datatype Option<+T> = None | Some(value: T)

  /** The error returns, and OOPS for a call that would follow a null pointer. */
  datatype Errno = OOPS | ENOMEM | EFAULT | EINVAL | EBUSY | EAGAIN | EPERM | ENODEV | EIO | ENOTTY | ERESTARTSYS

  datatype Result<+T> = Ok(value: T) | Err(error: Errno)

  /** How a copy from user space ends. A faulting copy may leave anything in the destination range. */
  datatype UserCopy = Complete | Fault(junk: nat -> byte)

  function Min(a: int, b: int): int {
    if a <= b then a else b
  }

  function Max(a: int, b: int): int {
    if a <= b then b else a
  }
}
