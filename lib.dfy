/** Declarations shared by every publisher and observer: the one error a
    publisher can report, the outcome of a subscription, and optional slots. */
module ObserverLib {

  /** The only failure of `subscribe`: every slot of the publisher is taken. */
  datatype PublisherErr = ObserverListFull

  /** The result of `subscribe`: `Ok(())` or an error. */
  datatype Outcome = Ok | Err(error: PublisherErr)

  /** A slot of the publisher's fixed-size observer array. */
  datatype Option<T> = None | Some(value: T)
}
