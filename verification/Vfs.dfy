/** What opening a name in a directory can answer, for any file system. */
module Vfs {

  datatype Errno = ENOENT | ENOTDIR | ELOOP | EINVAL | EIO

  datatype Result<+T> = Ok(value: T) | Err(error: Errno) {
    function Map<U>(f: T -> U): Result<U> {
      match this case Ok(v) => Ok(f(v)) case Err(e) => Err(e)
    }
  }
}
