/** The generator `serve_tls_incoming` (src/tls.rs), resumed by one poll at a time. */
module Tls {
  import opened Wrappers
  import opened Errors
  import opened Streams

  class TlsIncoming {
    const input: seq<Incoming>
    const handshake: Handshake
    var pos: nat
    // The connection whose handshake the generator is suspended in.
    var accepting: Option<Io>
    var finished: bool
    ghost var yielded: seq<Incoming>

    /** Number of input items the generator is done with. */
    ghost function Settled(): int
      reads this
    {
      if accepting.Some? then pos - 1 else pos
    }

    /** Number of handshakes that have completed. */
    ghost function HandshakesDone(): nat
      requires Valid()
      reads this
    {
      |Oks(input[..Settled()])|
    }

    ghost predicate Valid()
      reads this
    {
      && pos <= |input|
      && (accepting.Some? ==> 0 < pos && input[pos - 1] == Ok(accepting.value))
      && (finished ==> pos == |input| && accepting.None?)
      && yielded == TlsPipeline(input[..Settled()], handshake)
    }

    /** `item` is what the last settled item contributed. */
    ghost predicate JustYielded(item: Incoming)
      reads this
    {
      accepting == None && 0 < pos <= |input| && TlsYield(input[pos - 1], handshake) == [item]
    }

    constructor (input: seq<Incoming>, handshake: Handshake)
      ensures Valid() && this.input == input && this.handshake == handshake
      ensures pos == 0 && accepting == None && !finished && yielded == []
    {
      this.input, this.handshake := input, handshake;
      pos, accepting, finished, yielded := 0, None, false, [];
    }

    /** Read the next item: start its handshake, or deal with its error. */
    method ReadItem() returns (next: Option<Incoming>)
      requires Valid() && accepting == None && pos < |input|
      modifies this`pos, this`accepting, this`yielded
      ensures Valid() && pos == old(pos) + 1 && HandshakesDone() == old(HandshakesDone())
      ensures yielded == old(yielded) + (if next.Some? then [next.value] else [])
      ensures match input[old(pos)]
              case Ok(io) => accepting == Some(io) && next == None
              case Err(_) =>
                && accepting == None
                && TlsYield(input[old(pos)], handshake) == (if next.Some? then [next.value] else [])
    {
      TlsPipelineSnoc(input, pos, handshake);
      OksSnoc(input, pos);
      var item := input[pos];
      pos := pos + 1;
      next := None;
      match item {
        case Ok(io) =>
          accepting := Some(io);
        case Err(e) =>
          match HandleAcceptError(e) {
            case Continue =>
            case Break(e') => next := Some(Err(e'));
          }
      }
      yielded := yielded + (if next.Some? then [next.value] else []);
    }

    /** The handshake the generator waits for has completed. */
    method FinishHandshake() returns (next: Option<Incoming>)
      requires Valid() && accepting.Some?
      modifies this`accepting, this`yielded
      ensures Valid() && accepting == None && HandshakesDone() == old(HandshakesDone()) + 1
      ensures TlsYield(input[pos - 1], handshake) == (if next.Some? then [next.value] else [])
      ensures yielded == old(yielded) + (if next.Some? then [next.value] else [])
    {
      TlsPipelineSnoc(input, pos - 1, handshake);
      OksSnoc(input, pos - 1);
      match handshake(accepting.value) {
        case Accepted => next := Some(Ok(accepting.value));
        case Rejected(kind, detail) =>
          match HandleAcceptError(TransportError.Io(kind, detail)) {
            case Continue => next := None;
            case Break(e') => next := Some(Err(e'));
          }
      }
      accepting := None;
      yielded := yielded + (if next.Some? then [next.value] else []);
    }

    /** One poll of `next()`. `arrived` items have reached the listener by now, `ended` says whether
        it closes once they are read, and `resolved` handshakes can complete before the generator
        has to wait for one: all of them have if it does wait for another, and never more. At most
        one item is yielded, nothing is read that has not arrived, a pending answer means that the
        generator waits for a handshake or for a new connection, and the stream ends only when the
        listener has. */
    method PollNext(arrived: nat, ended: bool, resolved: nat) returns (r: Poll<Option<Incoming>>)
      requires Valid() && !finished && arrived <= |input|
      modifies this
      ensures Valid() && old(Settled()) <= Settled()
      ensures old(pos) <= pos && (pos == old(pos) || pos <= arrived)
      ensures finished <==> r == Ready(None)
      ensures r == Pending ==> accepting.Some? || (arrived <= pos && !(ended && pos == |input|))
      ensures r == Ready(None) ==> ended && Settled() == |input|
      ensures yielded == old(yielded) + (if r.Ready? && r.value.Some? then [r.value.value] else [])
      ensures r.Ready? && r.value.Some? ==> JustYielded(r.value.value)
      ensures HandshakesDone() <= old(HandshakesDone()) + resolved
      ensures r == Pending && accepting.Some? ==> HandshakesDone() == old(HandshakesDone()) + resolved
    {
      var left := resolved;
      var next: Option<Incoming> := None;
      while next == None && (if accepting.Some? then 0 < left else pos < arrived)
        invariant Valid() && !finished && old(Settled()) <= Settled()
        invariant old(pos) <= pos && (pos == old(pos) || pos <= arrived)
        invariant yielded == old(yielded) + (if next.Some? then [next.value] else [])
        invariant next.Some? ==> JustYielded(next.value)
        invariant HandshakesDone() + left == old(HandshakesDone()) + resolved
        decreases 2 * (|input| - pos) + (if accepting.Some? then 1 else 0)
      {
        if accepting == None {
          next := ReadItem();
        } else {
          next := FinishHandshake();
          left := left - 1;
        }
      }
      if next.Some? {
        return Ready(next);
      } else if ended && accepting == None && pos == |input| {
        finished := true;
        return Ready(None);
      } else {
        return Pending;
      }
    }
  }
}
