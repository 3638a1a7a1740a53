/** The lifecycle of a limiter entry. */
module Entries {
  datatype EntryState = Active | Quiescing | Closed
}
