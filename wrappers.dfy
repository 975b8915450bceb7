/** A nullable value: a SQL NULL column, a JavaScript `undefined`, a lookup that found no row. */
module Wrappers {

  datatype Option<+T> = None | Some(value: T)

}
