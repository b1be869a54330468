/** The optional value used throughout the model: `None` stands for a Python
    `None`, an absent dictionary key or a falsy reply. */
module Wrappers {

  datatype Option<+T> = None | Some(value: T)
}
