/** A value that may be absent, and the error codes of the commands that configure the
    station. */
module Wrappers {
  // A NULL pointer, or a failed lookup.
  datatype Option<+T> = None | Some(value: T)

  // 0, -EBUSY, -ENOKEY, -EINVAL and -ENAMETOOLONG
  datatype Code = Fine | Busy | NoKey | Invalid | NameTooLong
}
