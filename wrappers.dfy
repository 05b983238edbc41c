/** An optional value: a TypeScript `T | null`, or a `T | undefined` read. */
module Wrappers {

  datatype Option<+T> = None | Some(value: T)
}
