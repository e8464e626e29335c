/** What every view of a transcript shares. */
module Transcript {

  datatype Role = User | Assistant | System | Tool

  /** How far a compaction attempt has come. */
  datatype AttemptState = Pending | Committed | Failed
}
