/** Rows of the `logs` table as both pages read them. */
module Logs {

  datatype Option<T> = None | Some(value: T)

  /** One stored chat message. `sender`, `room` and `content` are nullable text
      columns; `createdAt` is the store's insertion time in milliseconds since
      the epoch. */
  datatype Log = Log(
    id: int,
    sender: Option<string>,
    room: Option<string>,
    content: Option<string>,
    createdAt: int)

  /** JavaScript truthiness of a nullable text column: null, undefined and the
      empty string are falsy, every other string is truthy. */
  predicate Truthy(v: Option<string>)
  {
    v.Some? && v.value != ""
  }

  /** The expression `v || fallback` on a nullable text column. */
  function OrElse(v: Option<string>, fallback: string): string
  {
    if Truthy(v) then v.value else fallback
  }
}
