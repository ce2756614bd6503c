/** Failure values of the animation loop and the per-frame input it polls. */
module Loop {

  /** The two ways the Python code can crash on a degenerate (empty) angle array. */
  datatype Fault =
    | IndexOutOfRange   // numpy indexing past the end of the angle array (in draw)
    | ModuloByZero      // `% len(angle_values)` with an empty array (in update)

  datatype Result<+T> = Ok(value: T) | Err(fault: Fault)

  /** One event delivered by the windowing library's event queue. */
  datatype Event = Quit | Other

  /** The batch of events drained at the top of one loop iteration contains a QUIT. */
  predicate QuitRequested(events: seq<Event>) {
    Quit in events
  }

  /** No batch in the sequence of per-frame batches contains a QUIT. */
  predicate NoQuit(inputs: seq<seq<Event>>) {
    forall k :: 0 <= k < |inputs| ==> !QuitRequested(inputs[k])
  }
}
