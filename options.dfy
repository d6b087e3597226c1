/** The "value or nothing" wrapper used for optional fields (`string | null`,
    `undefined` members, a lookup that may find nothing). */
module Options {
  datatype Option<+T> = None | Some(value: T)
}
