/** The optional value used where Python passes `None` or raises instead of returning. */
module Wrappers {

  datatype Option<+T> = None | Some(value: T)

}
