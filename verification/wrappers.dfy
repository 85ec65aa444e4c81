/** Option datatype shared by the modules of this model (stands for Java's nullable references). */
module Wrappers {

  datatype Option<+T> = None | Some(value: T)

}
