/** A value that may be absent: NULL columns, empty pointers and lookups that find nothing. */
module Options {

  datatype Option<+T> = None | Some(value: T) {
    function Or(otherwise: T): T { if Some? then value else otherwise }
  }
}
