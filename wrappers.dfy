/** The optional value used for lookups that may find nothing and for the
    identity the authentication gate may attach to a request. */
module Wrappers {
  datatype Option<+T> = None | Some(value: T)
}
