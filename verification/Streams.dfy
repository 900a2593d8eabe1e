/** What the two accept pipelines yield, as functions of their whole input, and the laws of
    those functions. The generators themselves are in Tcp.dfy and Tls.dfy. */
module Streams {
  import opened Wrappers
  import opened Errors

  /** An accepted connection. */
  datatype Io = Io(id: nat)

  type Incoming = Result<Io, TransportError>

  /** Outcome of a TLS handshake. A failure is an `io::Error`. */
  datatype Verdict = Accepted | Rejected(kind: IoErrorKind, detail: nat)

  type Handshake = Io -> Verdict

  /** A non-fatal accept error: the only kind of item `serve_tcp_incoming` drops. */
  predicate Skipped(item: Incoming) {
    item.Err? && !IsFatal(item.error)
  }

  predicate Fatal(item: Incoming) {
    item.Err? && IsFatal(item.error)
  }

  // ---------- serve_tcp_incoming ----------

  /** What one item of the listener contributes to the stream, if anything. */
  function TcpYieldOf(item: Incoming): Option<Incoming> {
    match item
    case Ok(io) => Some(Ok(io))
    case Err(e) =>
      match HandleAcceptError(e)
      case Continue => None
      case Break(e') => Some(Err(e'))
  }

  function TcpYield(item: Incoming): seq<Incoming> {
    match TcpYieldOf(item)
    case None => []
    case Some(y) => [y]
  }

  function TcpFilter(input: seq<Incoming>): seq<Incoming> {
    if input == [] then [] else TcpYield(input[0]) + TcpFilter(input[1..])
  }

  lemma {:induction false} TcpFilterConcat(a: seq<Incoming>, b: seq<Incoming>)
    ensures TcpFilter(a + b) == TcpFilter(a) + TcpFilter(b)
  {
    if a == [] {
      assert a + b == b;
    } else {
      assert (a + b)[1..] == a[1..] + b;
      TcpFilterConcat(a[1..], b);
    }
  }

  lemma TcpFilterSnoc(input: seq<Incoming>, k: nat)
    requires k < |input|
    ensures TcpFilter(input[..k + 1]) == TcpFilter(input[..k]) + TcpYield(input[k])
  {
    assert input[..k + 1] == input[..k] + [input[k]];
    TcpFilterConcat(input[..k], [input[k]]);
    assert TcpFilter([input[k]]) == TcpYield(input[k]) + TcpFilter([]);
  }

  lemma {:induction false} TcpFilterPrefix(input: seq<Incoming>, k: nat)
    requires k <= |input|
    ensures TcpFilter(input[..k]) <= TcpFilter(input)
  {
    TcpFilterConcat(input[..k], input[k..]);
    assert input[..k] + input[k..] == input;
  }

  /** Positions, in increasing order, of the items that are not skipped. */
  function Kept(input: seq<Incoming>, skipped: Incoming -> bool): (ks: seq<nat>)
    ensures forall k | 0 <= k < |ks| :: ks[k] < |input| && !skipped(input[ks[k]])
    ensures forall k, l | 0 <= k < l < |ks| :: ks[k] < ks[l]
    ensures forall i | 0 <= i < |input| && !skipped(input[i]) :: i in ks
  {
    if input == [] then []
    else
      var n := |input| - 1;
      var ks := Kept(input[..n], skipped);
      assert forall i | 0 <= i < n :: input[..n][i] == input[i];
      if skipped(input[n]) then ks else ks + [n]
  }

  /** The filter yields exactly the items that are not non-fatal errors, unchanged and in order
      of arrival. */
  lemma {:induction false} TcpFilterKeepsOrder(input: seq<Incoming>)
    ensures var ks := Kept(input, Skipped);
            |TcpFilter(input)| == |ks| && forall k | 0 <= k < |ks| :: TcpFilter(input)[k] == input[ks[k]]
  {
    if input != [] {
      var n := |input| - 1;
      var ks, out := Kept(input[..n], Skipped), TcpFilter(input[..n]);
      TcpFilterKeepsOrder(input[..n]);
      TcpFilterSnoc(input, n);
      assert input[..n + 1] == input;
      forall k | 0 <= k < |Kept(input, Skipped)|
        ensures TcpFilter(input)[k] == input[Kept(input, Skipped)[k]]
      {
        if k < |ks| {
          assert Kept(input, Skipped)[k] == ks[k];
        }
      }
    }
  }

  /** A surfaced fatal error is classified fatal again, so filtering twice changes nothing. */
  lemma {:induction false} TcpFilterIdempotent(input: seq<Incoming>)
    ensures TcpFilter(TcpFilter(input)) == TcpFilter(input)
  {
    if input != [] {
      TcpFilterIdempotent(input[1..]);
      TcpFilterConcat(TcpYield(input[0]), TcpFilter(input[1..]));
      assert TcpFilter([]) == [];
      assert TcpFilter(TcpYield(input[0])) == TcpYield(input[0]);
    }
  }

  /** The stream as the documentation of `serve_tcp_incoming` describes it: it ends after the
      first fatal error. */
  function DocumentedTcp(input: seq<Incoming>): seq<Incoming> {
    if input == [] then []
    else if Fatal(input[0]) then TcpYield(input[0])
    else TcpYield(input[0]) + DocumentedTcp(input[1..])
  }

  /** Everything that follows a fatal error is a non-fatal error. */
  ghost predicate QuietAfterFatal(input: seq<Incoming>) {
    forall i, j | 0 <= i < j < |input| :: Fatal(input[i]) ==> Skipped(input[j])
  }

  lemma {:induction false} AllSkipped(input: seq<Incoming>)
    ensures TcpFilter(input) == [] <==> forall i | 0 <= i < |input| :: Skipped(input[i])
  {
    if input != [] {
      AllSkipped(input[1..]);
      if TcpFilter(input) == [] {
        assert Skipped(input[0]);
        assert forall i | 0 < i < |input| :: input[i] == input[1..][i - 1];
      }
      assert TcpYield(input[0]) == [] <==> Skipped(input[0]);
    }
  }

  /** The documented stream is always a prefix of the real one, and they agree exactly when
      nothing but non-fatal errors follows the first fatal error. */
  lemma {:induction false} TcpFilterAgainstDocumentation(input: seq<Incoming>)
    ensures DocumentedTcp(input) <= TcpFilter(input)
    ensures DocumentedTcp(input) == TcpFilter(input) <==> QuietAfterFatal(input)
  {
    if input != [] {
      var rest := input[1..];
      assert forall j | 0 < j < |input| :: input[j] == rest[j - 1];
      if Fatal(input[0]) {
        AllSkipped(rest);
        if forall i | 0 <= i < |rest| :: Skipped(rest[i]) {
          assert QuietAfterFatal(input);
        } else {
          var i :| 0 <= i < |rest| && !Skipped(rest[i]);
          assert !Skipped(input[i + 1]);
        }
      } else {
        TcpFilterAgainstDocumentation(rest);
        assert QuietAfterFatal(input) <==> QuietAfterFatal(rest) by {
          if QuietAfterFatal(input) {
            forall i, j | 0 <= i < j < |rest|
              ensures Fatal(rest[i]) ==> Skipped(rest[j])
            {
              assert rest[i] == input[i + 1] && rest[j] == input[j + 1];
            }
          }
        }
      }
    }
  }

  /** A connection accepted after a fatal error: the code yields it, the documentation does not. */
  lemma StreamOutlivesFatalError(io: Io)
    ensures var input := [Err(TransportError.Io(PermissionDenied, 0)), Ok(io)];
            DocumentedTcp(input) == input[..1] && TcpFilter(input) == input
  {
    var input := [Err(TransportError.Io(PermissionDenied, 0)), Ok(io)];
    assert input[1..] == [Ok(io)];
    assert TcpFilter(input[1..]) == [Ok(io)] + TcpFilter([]);
  }

  // ---------- serve_tls_incoming ----------

  function TlsYieldOf(item: Incoming, handshake: Handshake): Option<Incoming> {
    match item
    case Ok(io) => (
      match handshake(io)
      case Accepted => Some(Ok(io))
      case Rejected(kind, detail) =>
        match HandleAcceptError(TransportError.Io(kind, detail))
        case Continue => None
        case Break(e) => Some(Err(e)))
    case Err(e) =>
      match HandleAcceptError(e)
      case Continue => None
      case Break(e') => Some(Err(e'))
  }

  function TlsYield(item: Incoming, handshake: Handshake): seq<Incoming> {
    match TlsYieldOf(item, handshake)
    case None => []
    case Some(y) => [y]
  }

  function TlsPipeline(input: seq<Incoming>, handshake: Handshake): seq<Incoming> {
    if input == [] then [] else TlsYield(input[0], handshake) + TlsPipeline(input[1..], handshake)
  }

  lemma {:induction false} TlsPipelineConcat(a: seq<Incoming>, b: seq<Incoming>, handshake: Handshake)
    ensures TlsPipeline(a + b, handshake) == TlsPipeline(a, handshake) + TlsPipeline(b, handshake)
  {
    if a == [] {
      assert a + b == b;
    } else {
      assert (a + b)[1..] == a[1..] + b;
      TlsPipelineConcat(a[1..], b, handshake);
    }
  }

  lemma TlsPipelineSnoc(input: seq<Incoming>, k: nat, handshake: Handshake)
    requires k < |input|
    ensures TlsPipeline(input[..k + 1], handshake)
         == TlsPipeline(input[..k], handshake) + TlsYield(input[k], handshake)
  {
    assert input[..k + 1] == input[..k] + [input[k]];
    TlsPipelineConcat(input[..k], [input[k]], handshake);
    assert TlsPipeline([input[k]], handshake) == TlsYield(input[k], handshake) + TlsPipeline([], handshake);
  }

  /** Items the pipeline drops: non-fatal accept errors and non-fatal handshake errors. */
  predicate TlsSkipped(item: Incoming, handshake: Handshake) {
    match item
    case Ok(io) =>
      var v := handshake(io);
      v.Rejected? && !IsFatal(TransportError.Io(v.kind, v.detail))
    case Err(e) => !IsFatal(e)
  }

  /** Items that make the pipeline yield an error, through either of its two exits. */
  predicate TlsFatal(item: Incoming, handshake: Handshake) {
    match item
    case Ok(io) =>
      var v := handshake(io);
      v.Rejected? && IsFatal(TransportError.Io(v.kind, v.detail))
    case Err(e) => IsFatal(e)
  }

  /** What an item that is not dropped becomes: the very error of its handshake if that has failed,
      and otherwise itself. */
  function AfterHandshake(item: Incoming, handshake: Handshake): Incoming {
    if item.Ok? && handshake(item.value).Rejected? then
      Err(TransportError.Io(handshake(item.value).kind, handshake(item.value).detail))
    else
      item
  }

  /** What becomes of an item: dropped, yielded as an error, or yielded as a connection. */
  lemma TlsYieldKinds(item: Incoming, handshake: Handshake)
    ensures TlsYield(item, handshake) == if TlsSkipped(item, handshake) then [] else [AfterHandshake(item, handshake)]
    ensures TlsFatal(item, handshake) <==>
              !TlsSkipped(item, handshake) && AfterHandshake(item, handshake).Err?
  {
  }

  /** The TLS stream yields, in order of arrival, exactly the items that are not dropped, each as
      itself or as the error of its handshake. */
  lemma {:induction false} TlsPipelineKeepsOrder(input: seq<Incoming>, handshake: Handshake)
    ensures var ks := Kept(input, item => TlsSkipped(item, handshake));
            && |TlsPipeline(input, handshake)| == |ks|
            && forall k | 0 <= k < |ks| ::
                 TlsPipeline(input, handshake)[k] == AfterHandshake(input[ks[k]], handshake)
  {
    if input != [] {
      var n := |input| - 1;
      var skipped := item => TlsSkipped(item, handshake);
      var ks, out := Kept(input[..n], skipped), TlsPipeline(input[..n], handshake);
      TlsPipelineKeepsOrder(input[..n], handshake);
      TlsPipelineSnoc(input, n, handshake);
      TlsYieldKinds(input[n], handshake);
      assert input[..n + 1] == input;
      forall k | 0 <= k < |Kept(input, skipped)|
        ensures TlsPipeline(input, handshake)[k] == AfterHandshake(input[Kept(input, skipped)[k]], handshake)
      {
        if k < |ks| {
          assert Kept(input, skipped)[k] == ks[k];
        }
      }
    }
  }

  /** The TLS stream if it ended after the first error it yields, as the documentation of
      `serve_tls_incoming` holds possible. */
  function DocumentedTls(input: seq<Incoming>, handshake: Handshake): seq<Incoming> {
    if input == [] then []
    else if TlsFatal(input[0], handshake) then TlsYield(input[0], handshake)
    else TlsYield(input[0], handshake) + DocumentedTls(input[1..], handshake)
  }

  /** Everything that follows a fatal accept or handshake error is dropped. */
  ghost predicate QuietAfterTlsFatal(input: seq<Incoming>, handshake: Handshake) {
    forall i, j | 0 <= i < j < |input| :: TlsFatal(input[i], handshake) ==> TlsSkipped(input[j], handshake)
  }

  lemma {:induction false} AllTlsSkipped(input: seq<Incoming>, handshake: Handshake)
    ensures TlsPipeline(input, handshake) == [] <==> forall i | 0 <= i < |input| :: TlsSkipped(input[i], handshake)
  {
    if input != [] {
      AllTlsSkipped(input[1..], handshake);
      TlsYieldKinds(input[0], handshake);
      if TlsPipeline(input, handshake) == [] {
        assert TlsSkipped(input[0], handshake);
        assert forall i | 0 < i < |input| :: input[i] == input[1..][i - 1];
      }
    }
  }

  lemma QuietTail(input: seq<Incoming>, handshake: Handshake)
    requires input != [] && !TlsFatal(input[0], handshake)
    ensures QuietAfterTlsFatal(input, handshake) <==> QuietAfterTlsFatal(input[1..], handshake)
  {
    var rest := input[1..];
    assert forall j | 0 < j < |input| :: input[j] == rest[j - 1];
    if QuietAfterTlsFatal(input, handshake) {
      forall i, j | 0 <= i < j < |rest|
        ensures TlsFatal(rest[i], handshake) ==> TlsSkipped(rest[j], handshake)
      {
        assert rest[i] == input[i + 1] && rest[j] == input[j + 1];
      }
    }
  }

  /** The stream that ends at its first error is always a prefix of the real one, and they agree
      exactly when everything after the first fatal accept or handshake error is dropped. */
  lemma {:induction false} TlsPipelineAgainstDocumentation(input: seq<Incoming>, handshake: Handshake)
    ensures DocumentedTls(input, handshake) <= TlsPipeline(input, handshake)
    ensures DocumentedTls(input, handshake) == TlsPipeline(input, handshake) <==>
              QuietAfterTlsFatal(input, handshake)
  {
    if input != [] {
      var rest := input[1..];
      TlsYieldKinds(input[0], handshake);
      if TlsFatal(input[0], handshake) {
        AllTlsSkipped(rest, handshake);
        assert forall j | 0 < j < |input| :: input[j] == rest[j - 1];
        if forall i | 0 <= i < |rest| :: TlsSkipped(rest[i], handshake) {
          assert QuietAfterTlsFatal(input, handshake);
        } else {
          var i :| 0 <= i < |rest| && !TlsSkipped(rest[i], handshake);
          assert !TlsSkipped(input[i + 1], handshake);
        }
      } else {
        TlsPipelineAgainstDocumentation(rest, handshake);
        QuietTail(input, handshake);
      }
    }
  }

  /** A connection accepted after a handshake has failed fatally: the code yields the handshake's
      error and then the connection. */
  lemma StreamOutlivesFatalHandshake(bad: Io, good: Io, handshake: Handshake)
    requires handshake(bad) == Rejected(PermissionDenied, 0) && handshake(good) == Accepted
    ensures var input := [Ok(bad), Ok(good)];
            var failed := Err(TransportError.Io(PermissionDenied, 0));
            DocumentedTls(input, handshake) == [failed] && TlsPipeline(input, handshake) == [failed, Ok(good)]
  {
    var input := [Ok(bad), Ok(good)];
    assert input[1..] == [Ok(good)];
    assert TlsPipeline(input[1..], handshake) == [Ok(good)] + TlsPipeline([], handshake);
  }

  /** Filtering the listener first makes no difference to the TLS pipeline. */
  lemma {:induction false} TlsAfterTcp(input: seq<Incoming>, handshake: Handshake)
    ensures TlsPipeline(TcpFilter(input), handshake) == TlsPipeline(input, handshake)
  {
    if input != [] {
      TlsAfterTcp(input[1..], handshake);
      TlsPipelineConcat(TcpYield(input[0]), TcpFilter(input[1..]), handshake);
      assert TlsPipeline([], handshake) == [];
      assert TlsPipeline(TcpYield(input[0]), handshake) == TlsYield(input[0], handshake);
    }
  }

  /** The connections among the yielded items, in order. */
  function Oks(items: seq<Incoming>): seq<Io> {
    if items == [] then []
    else if items[0].Ok? then [items[0].value] + Oks(items[1..])
    else Oks(items[1..])
  }

  lemma OksCons(item: Incoming, rest: seq<Incoming>)
    ensures Oks([item] + rest) == if item.Ok? then [item.value] + Oks(rest) else Oks(rest)
  {
    assert ([item] + rest)[1..] == rest;
  }

  lemma OksSnoc(items: seq<Incoming>, k: nat)
    requires k < |items|
    ensures Oks(items[..k + 1]) == Oks(items[..k]) + (if items[k].Ok? then [items[k].value] else [])
  {
    assert items[..k + 1] == items[..k] + [items[k]];
    OksConcat(items[..k], [items[k]]);
    OksCons(items[k], []);
    assert [items[k]] + [] == [items[k]];
  }

  lemma {:induction false} OksConcat(a: seq<Incoming>, b: seq<Incoming>)
    ensures Oks(a + b) == Oks(a) + Oks(b)
  {
    if a == [] {
      assert a + b == b;
    } else {
      var item, rest := a[0], a[1..];
      OksConcat(rest, b);
      OksCons(item, rest);
      OksCons(item, rest + b);
      assert a == [item] + rest;
      assert a + b == [item] + (rest + b);
    }
  }

  /** The connections that pass their handshake, in order of arrival. */
  function Admitted(ios: seq<Io>, handshake: Handshake): seq<Io> {
    if ios == [] then []
    else if handshake(ios[0]).Accepted? then [ios[0]] + Admitted(ios[1..], handshake)
    else Admitted(ios[1..], handshake)
  }

  lemma AdmittedCons(io: Io, rest: seq<Io>, handshake: Handshake)
    ensures Admitted([io] + rest, handshake)
         == if handshake(io).Accepted? then [io] + Admitted(rest, handshake) else Admitted(rest, handshake)
  {
    assert ([io] + rest)[1..] == rest;
  }

  /** The pipeline serves, in order of arrival, exactly the accepted connections whose handshake
      succeeds: no earlier error of either kind costs a later connection. */
  lemma {:induction false} TlsServesAdmitted(input: seq<Incoming>, handshake: Handshake)
    ensures Oks(TlsPipeline(input, handshake)) == Admitted(Oks(input), handshake)
  {
    if input != [] {
      var item, rest := input[0], input[1..];
      assert input == [item] + rest;
      TlsServesAdmitted(rest, handshake);
      TlsServesFirst(item, rest, handshake);
      OksCons(item, rest);
      if item.Ok? {
        AdmittedCons(item.value, Oks(rest), handshake);
      }
    }
  }

  lemma TlsServesFirst(item: Incoming, rest: seq<Incoming>, handshake: Handshake)
    ensures Oks(TlsPipeline([item] + rest, handshake))
         == var served := Oks(TlsPipeline(rest, handshake));
            if item.Ok? && handshake(item.value).Accepted? then [item.value] + served else served
  {
    assert ([item] + rest)[1..] == rest;
    match TlsYieldOf(item, handshake) {
      case None => assert TlsPipeline([item] + rest, handshake) == TlsPipeline(rest, handshake);
      case Some(y) => OksCons(y, TlsPipeline(rest, handshake));
    }
  }

  function CountSkipped(input: seq<Incoming>, handshake: Handshake): nat {
    if input == [] then 0
    else (if TlsSkipped(input[0], handshake) then 1 else 0) + CountSkipped(input[1..], handshake)
  }

  function CountErrs(items: seq<Incoming>): nat {
    if items == [] then 0 else (if items[0].Err? then 1 else 0) + CountErrs(items[1..])
  }

  lemma CountErrsCons(item: Incoming, rest: seq<Incoming>)
    ensures CountErrs([item] + rest) == (if item.Err? then 1 else 0) + CountErrs(rest)
  {
    assert ([item] + rest)[1..] == rest;
  }

  /** Every input item is accounted for exactly once: yielded as a connection, yielded as an
      error, or skipped. */
  lemma {:induction false} TlsConservation(input: seq<Incoming>, handshake: Handshake)
    ensures |input| == |Oks(TlsPipeline(input, handshake))|
                       + CountErrs(TlsPipeline(input, handshake))
                       + CountSkipped(input, handshake)
  {
    if input != [] {
      var out := TlsPipeline(input[1..], handshake);
      TlsConservation(input[1..], handshake);
      match TlsYieldOf(input[0], handshake) {
        case None => assert TlsPipeline(input, handshake) == out;
        case Some(y) =>
          OksCons(y, out);
          CountErrsCons(y, out);
      }
    }
  }
}
