/** The "value emitted or nothing" wrapper shared by the tree renderer and the slider handlers. */
module Wrappers {

  /** `Some(v)`: a value is produced (a call to `emitChange`, a canvas that is present);
      `None`: nothing is. */
  datatype Option<+T> = None | Some(value: T)
}
