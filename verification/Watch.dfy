/** The parts of `tokio::sync::watch` that the server relies on. */
module Watch {
  import opened Wrappers

  datatype RecvError = SenderGone

  /** Shared state of a watch channel: the version of the value, whether the sender is alive, and
      the number of live receivers. A receiver is the version it has last seen. */
  datatype Channel = Channel(version: nat, senderAlive: bool, receivers: int) {

    /** `Receiver::clone`: one more receiver, which starts from the version the original has seen. */
    function Clone(seen: nat): (Channel, nat) {
      (this.(receivers := receivers + 1), seen)
    }

    function DropReceiver(): Channel {
      this.(receivers := receivers - 1)
    }

    function DropSender(): Channel {
      this.(senderAlive := false)
    }

    /** `Sender::send` refuses, and leaves the version alone, exactly when nobody is listening. */
    function Send(): (Channel, bool) {
      if receivers == 0 then (this, false) else (this.(version := version + 1), true)
    }

    /** `Receiver::changed`: ready when the version has moved on, or when the sender is gone. */
    function Changed(seen: nat): Poll<Result<(), RecvError>> {
      if seen != version then Ready(Ok(()))
      else if !senderAlive then Ready(Err(SenderGone))
      else Pending
    }

    /** The version a receiver has seen after `changed` has completed. */
    function Observed(seen: nat): nat {
      if seen != version then version else seen
    }

    /** `Sender::closed` completes when the last receiver is gone. */
    predicate ClosedReady() {
      receivers == 0
    }
  }

  /** `watch::channel(())`, with the receiver that is returned alongside. */
  function NewChannel(): (Channel, nat) {
    (Channel(0, true, 1), 0)
  }
}
