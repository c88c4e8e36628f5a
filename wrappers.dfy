/** The optional value used for dictionary lookups that may find nothing
    (`dict.get`, an empty list comprehension) and for fields a record may lack. */
module Wrappers {

  datatype Option<+T> = None | Some(value: T)
}
