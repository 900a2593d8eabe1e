/** The generator `serve_tcp_incoming` (src/tcp.rs), resumed by one poll at a time. */
module Tcp {
  import opened Wrappers
  import opened Errors
  import opened Streams

  class TcpIncoming {
    // Everything the listener will ever produce, and how much of it the generator has read.
    const input: seq<Incoming>
    var pos: nat
    // Set once the generator has answered that the stream is over.
    var finished: bool
    // Everything yielded so far.
    ghost var yielded: seq<Incoming>

    ghost predicate Valid()
      reads this
    {
      && pos <= |input|
      && (finished ==> pos == |input|)
      && yielded == TcpFilter(input[..pos])
    }

    constructor (input: seq<Incoming>)
      ensures Valid() && this.input == input && pos == 0 && !finished && yielded == []
    {
      this.input := input;
      pos, finished, yielded := 0, false, [];
    }

    /** One turn of the generator's loop: read an item, and yield it or pass over it. */
    method ReadItem() returns (next: Option<Incoming>)
      requires Valid() && pos < |input|
      modifies this`pos, this`yielded
      ensures Valid() && pos == old(pos) + 1
      ensures TcpYield(input[old(pos)]) == (if next.Some? then [next.value] else [])
      ensures yielded == old(yielded) + (if next.Some? then [next.value] else [])
    {
      TcpFilterSnoc(input, pos);
      var item := input[pos];
      pos := pos + 1;
      match item {
        case Ok(io) =>
          next := Some(Ok(io));
        case Err(e) =>
          match HandleAcceptError(e) {
            case Continue => next := None;
            case Break(e') => next := Some(Err(e'));
          }
      }
      yielded := yielded + TcpYield(item);
    }

    /** One poll of `next()`. `arrived` items have reached the listener by now, and `ended` says
        whether the listener closes once all of its items are read. The generator reads on past
        non-fatal errors until it can yield; it stays usable after it has yielded a fatal error. */
    method PollNext(arrived: nat, ended: bool) returns (r: Poll<Option<Incoming>>)
      requires Valid() && !finished && arrived <= |input|
      modifies this
      ensures Valid() && old(pos) <= pos && (pos == old(pos) || pos <= arrived)
      ensures finished <==> r == Ready(None)
      ensures r == Pending ==> arrived <= pos && !(ended && pos == |input|)
      ensures r == Ready(None) ==> ended && pos == |input|
      ensures match r
              case Ready(Some(item)) =>
                && old(pos) < pos
                && TcpYield(input[pos - 1]) == [item]
                && yielded == old(yielded) + [item]
              case _ => yielded == old(yielded)
    {
      var next: Option<Incoming> := None;
      while pos < arrived && next == None
        invariant Valid() && !finished && old(pos) <= pos && (pos == old(pos) || pos <= arrived)
        invariant next == None ==> yielded == old(yielded)
        invariant next.Some? ==> && old(pos) < pos
                                 && TcpYield(input[pos - 1]) == [next.value]
                                 && yielded == old(yielded) + [next.value]
        decreases arrived - pos
      {
        next := ReadItem();
      }
      if next.Some? {
        return Ready(next);
      } else if ended && pos == |input| {
        finished := true;
        return Ready(None);
      } else {
        return Pending;
      }
    }
  }
}
