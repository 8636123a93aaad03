/** What several modules share. */
module Wrappers {
  /** The optional value used where the source has `undefined`, `null` or a missing argument. */
  datatype Option<+T> = None | Some(value: T)

  /** Ids of stored rows are never empty: the database generates them. */
  type Id = s: string | s != "" witness "id"

  /** The letters of a username and of a word character, written out. */
  const LOWER := "abcdefghijklmnopqrstuvwxyz"
  const UPPER := "ABCDEFGHIJKLMNOPQRSTUVWXYZ"
}
