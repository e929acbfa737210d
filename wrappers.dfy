/** The optional-value wrapper used throughout the model: `None` stands for a
    JavaScript `undefined` (an absent property or argument). */
module Wrappers {

  datatype Option<+T> = None | Some(value: T)
}
