/** What the INI reader does when a section receives a key it already holds. */
module DuplicatedKeyNameModes {

  /** The three policies; comparisons of keys ignore case. */
  datatype DuplicatedKeyNameMode =
    /** Keep the first value, drop the duplicate and go on reading. */
    | Ignore
    /** Stop reading with InvalidDataException. */
    | Abort
    /** Keep both values, joined by a semicolon. */
    | Allow
}
