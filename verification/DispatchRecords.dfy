/** Columns of the dispatch_records table that every dispatch path writes. */
module DispatchRecords {
  /** The state column. */
  datatype DispatchState = Prepared | BytesSending | Accepted | OutcomeUnknown | Completed

  /** How far the external submission is known to have come (the request_id column). */
  datatype Stage = Unsent | Sending | Submitted
}
