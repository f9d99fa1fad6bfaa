/** Small value wrappers shared by every module of the model. */
module Common {

  /** Python's `None` or a value. */
  datatype Option<+T> = None | Some(value: T)

  /** The three ways a broker delivery can be settled, plus the case where the
      handler raised before settling it (the message then stays unacknowledged). */
  datatype Settlement = Ack | NackDrop | NackRequeue | Unsettled
}
