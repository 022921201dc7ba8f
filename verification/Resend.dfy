/** One HTTP/3 request: which requests may be sent twice, one exchange on a tunnel stream, and the loop that sends a
    request again when a kept stream turns out to have closed. What the tunnel, the service and the client do is an
    input. */
module Resend {
  import opened Options

  type Body = seq<char>

  /** `pooled`: its connection has a pool. */
  datatype Request = Request(verb: string, idempotencyKey: bool, xIdempotencyKey: bool, contentLength: int,
                             trailers: nat, expectsContinue: bool, body: Body, pooled: bool)

  const MAX_HELD_BODY := 0x1_0000

  /** The safe methods, PUT and DELETE (section 9.2.2 of RFC 9110), or a request marked with an idempotency key. */
  predicate Idempotent(r: Request) {
    || r.verb in {"GET", "HEAD", "OPTIONS", "TRACE", "PUT", "DELETE"}
    || r.idempotencyKey || r.xIdempotencyKey
  }

  datatype Hold = Held(body: Body) | Streamed | Broken

  /** A body of known length, at most 64 KiB, which the client sends unasked and with no trailers after it. */
  predicate Small(r: Request) { 0 <= r.contentLength <= 65536 && r.trailers == 0 && !r.expectsContinue }

  /** `holdBody`; `timed`: the read could be bounded. */
  function HoldBody(r: Request, timed: bool): (h: Hold)
    ensures h.Held? ==> |h.body| == r.contentLength <= 65536 && h.body <= r.body
    ensures h.Held? <==> Small(r) && (r.contentLength == 0 || (timed && |r.body| >= r.contentLength))
    ensures h.Broken? <==> Small(r) && timed && |r.body| < r.contentLength
  {
    if r.trailers > 0 || r.expectsContinue || r.contentLength < 0 || r.contentLength > MAX_HELD_BODY then Streamed
    else if r.contentLength == 0 then Held([])
    else if !timed then Streamed
    else if |r.body| < r.contentLength then Broken
    else Held(r.body[..r.contentLength])
  }

  // ---- One exchange ----

  /** One read of the response that brought `more + 1` bytes and completed some interim heads. */
  datatype Piece = Piece(more: nat, interims: nat)
  datatype Finish = Final(more: nat) | TunnelGone | TimedOut | Invalid

  /** What happens in an exchange. `pieces` are the reads before the one that ends the reading of heads. */
  datatype Happens = Happens(headOk: bool, bodyOk: bool, pieces: seq<Piece>, finish: Finish, clientGone: bool,
                             clientBodyFailed: bool, uploadDone: bool, uploadFailed: bool, bodyWaiting: bool,
                             copied: bool, closes: bool, leftOver: bool, abortStopped: bool)

  datatype Ending =
    | Retry | Relayed(kept: bool) | CutShort | ClientGone | Stalled | GatewayTimeout | StreamBroken | BadResponse

  function BytesOf(ps: seq<Piece>): (n: nat)
    ensures n == 0 <==> ps == []
  {
    if ps == [] then 0 else BytesOf(ps[..|ps| - 1]) + ps[|ps| - 1].more + 1
  }

  function InterimsOf(ps: seq<Piece>): (n: nat)
    ensures ps == [] ==> n == 0
  {
    if ps == [] then 0 else InterimsOf(ps[..|ps| - 1]) + ps[|ps| - 1].interims
  }

  /** The reads before the one that ends the reading of heads: interim heads go to the client as they come. */
  method ReadHeads(ps: seq<Piece>) returns (read: nat, toClient: nat)
    ensures read == BytesOf(ps) && toClient == InterimsOf(ps)
  {
    read, toClient := 0, 0;
    for i := 0 to |ps|
      invariant read == BytesOf(ps[..i]) && toClient == InterimsOf(ps[..i])
    {
      assert ps[..i + 1][..i] == ps[..i];
      read := read + ps[i].more + 1;
      toClient := toClient + ps[i].interims;
    }
    assert ps[..|ps|] == ps;
  }

  /** `h3Exchange`: how it ended, the response bytes read while heads were awaited, and the messages written to the
      client. */
  method Exchange(reused: bool, inMemory: bool, pooled: bool, h: Happens) returns (e: Ending, read: nat, toClient: nat)
    ensures e.Retry? <==>
      && reused
      && (!h.headOk || (inMemory && !h.bodyOk) || (h.finish.TunnelGone? && h.pieces == [] && !h.clientGone))
    ensures e.Retry? ==> read == 0 && toClient == 0
    ensures e.Relayed? <==> !e.Retry? && h.finish.Final? && h.copied
    ensures e == Relayed(true) <==>
      && e.Relayed? && pooled && !h.closes && !h.leftOver && h.abortStopped
      && (if inMemory then h.bodyOk else h.uploadDone && !h.uploadFailed)
    ensures e.CutShort? <==> !e.Retry? && h.finish.Final? && !h.copied
    ensures e.ClientGone? <==> !e.Retry? && !h.finish.Final? && (h.clientGone || (h.clientBodyFailed && !inMemory))
    ensures e.Stalled? <==>
      !e.Retry? && !e.ClientGone? && h.finish.TimedOut? && !inMemory && !h.uploadDone && h.bodyWaiting
    ensures e.GatewayTimeout? <==> !e.Retry? && !e.ClientGone? && !e.Stalled? && h.finish.TimedOut?
    ensures e.StreamBroken? <==> !e.Retry? && !e.ClientGone? && h.finish.TunnelGone?
    ensures e.BadResponse? <==> !e.Retry? && !e.ClientGone? && h.finish.Invalid?
    ensures !e.Retry? ==> read == BytesOf(h.pieces) + if h.finish.Final? then h.finish.more + 1 else 0
    ensures !e.Retry? ==> toClient == InterimsOf(h.pieces) + if e.ClientGone? || e.Stalled? then 0 else 1
  {
    read, toClient := 0, 0;
    if reused && !h.headOk { return Retry, read, toClient; }
    var uploadDone, uploadFailed := h.uploadDone, h.uploadFailed;
    if inMemory {
      uploadDone, uploadFailed := true, false;
      if !h.bodyOk {
        if reused { return Retry, read, toClient; }
        uploadFailed := true;
      }
    }
    read, toClient := ReadHeads(h.pieces);
    if !h.finish.Final? {
      if reused && read == 0 && h.finish.TunnelGone? && !h.clientGone { return Retry, read, toClient; }
      if h.clientGone || (h.clientBodyFailed && !inMemory) { return ClientGone, read, toClient; }
      if h.finish.TimedOut? && !uploadDone && h.bodyWaiting { return Stalled, read, toClient; }
      toClient := toClient + 1;
      if h.finish.TimedOut? { return GatewayTimeout, read, toClient; }
      if h.finish.TunnelGone? { return StreamBroken, read, toClient; }
      return BadResponse, read, toClient;
    }
    read, toClient := read + h.finish.more + 1, toClient + 1;
    if !h.copied { return CutShort, read, toClient; }
    var keep := pooled && !h.closes && uploadDone && !uploadFailed && !h.leftOver && h.abortStopped;
    return Relayed(keep), read, toClient;
  }

  // ---- The whole request ----

  /** `openH3Stream`: a stream, or an error page with nothing sent, or one after the head may have gone out, or the
      client gave up before there was a slot. */
  datatype Opening = Fresh | Refused | SendFailed | Abandoned

  /** What happens in one turn of the loop: whether `take` finds a stream, what comes of opening one, the exchange. */
  datatype Turn = Turn(found: bool, open: Opening, exchange: Happens)

  /** The request written, in whole or part, to a tunnel stream: whether that was a kept one, the held body it starts
      with, what was read from it and written to the client, and how the exchange ended, if it came to one. */
  datatype Sending = Sending(kept: bool, body: Option<Body>, read: nat, toClient: nat, ending: Option<Ending>)

  /** Whether the request may be sent again. */
  predicate Resendable(r: Request, hold: Hold) { hold.Held? && Idempotent(r) && r.pooled }

  /** A sending on a kept stream that gave back nothing, with nothing written to the client. */
  predicate Fruitless(s: Sending) { s.kept && s.ending == Some(Retry) && s.read == 0 && s.toClient == 0 }

  /** No stream was opened: the client was answered with an error page, or had given up. */
  predicate Unopened(o: Opening) { o.Refused? || o.Abandoned? }

  predicate Aborts(e: Ending) { e.ClientGone? || e.Stalled? || e.CutShort? }

  /** The loop of `serveHTTP3`: at most two sendings, each with the whole held body. The first is on a kept stream
      exactly if one is found for a request that may be sent twice. There is a second exactly after a fruitless first,
      unless no stream can be opened; it is on a fresh stream and is never repeated. A request that may not be sent
      twice is sent once at most, and never on a kept stream. The client gets a final answer unless the request is
      aborted. */
  method Serve(r: Request, hold: Hold, turns: nat -> Turn) returns (sent: seq<Sending>, answered: bool)
    requires !hold.Broken?
    ensures |sent| <= 2
    ensures forall s <- sent :: s.body == if hold.Held? then Some(hold.body) else None
    ensures sent != [] && sent[0].kept <==> Resendable(r, hold) && turns(0).found
    ensures |sent| == 0 <==> !(Resendable(r, hold) && turns(0).found) && Unopened(turns(0).open)
    ensures |sent| == 2 <==> sent != [] && Fruitless(sent[0]) && !Unopened(turns(1).open)
    ensures |sent| == 2 ==> Resendable(r, hold) && !sent[1].kept && sent[1].ending != Some(Retry)
    ensures !Resendable(r, hold) ==> |sent| <= 1 && forall s <- sent :: !s.kept && s.ending != Some(Retry)
    ensures forall s <- sent :: s.ending == Some(Retry) ==> Fruitless(s)
    ensures !answered <==>
      var n := if sent != [] && Fruitless(sent[0]) then 1 else 0;
      if |sent| > n && sent[n].ending.Some? then Aborts(sent[n].ending.value)
      else |sent| == n && turns(n).open.Abandoned?
  {
    sent, answered := [], true;
    var reuse := Resendable(r, hold);
    var inMemory := hold.Held?;
    var body := if inMemory then Some(hold.body) else None;
    var n := 0;
    while true
      invariant |sent| == n <= 1 && answered
      invariant forall s <- sent :: Fruitless(s) && s.body == body
      invariant n == 1 ==> !reuse && Resendable(r, hold) && turns(0).found
      invariant n == 0 ==> reuse == Resendable(r, hold)
      decreases 1 - n
    {
      var t := turns(n);
      var reused := reuse && t.found;
      if !reused {
        if t.open.Refused? { return; }
        if t.open.Abandoned? { answered := false; return; }
        if t.open.SendFailed? { sent := sent + [Sending(false, body, 0, 1, None)]; return; }
      }
      var e, read, toClient := Exchange(reused, inMemory, r.pooled, t.exchange);
      sent := sent + [Sending(reused, body, read, toClient, Some(e))];
      if !e.Retry? {
        answered := !Aborts(e);
        return;
      }
      reuse, n := false, n + 1;
    }
  }
  /** A whole request, from holding its body on; None if the body came short. A request goes out twice, or on a kept
      stream, only if it is repeatable by its method or by the client's mark, and all of its body, at most 64 KiB, was
      read before; so a POST without a key goes out once at most, and on a stream opened for it. */
  method ServeRequest(r: Request, timed: bool, turns: nat -> Turn) returns (sent: Option<seq<Sending>>)
    ensures sent.None? <==> Small(r) && timed && |r.body| < r.contentLength
    ensures sent.Some? && (|sent.value| == 2 || exists s <- sent.value :: s.kept) ==>
      && (r.verb in ["GET", "HEAD", "PUT", "DELETE", "OPTIONS", "TRACE"] || r.idempotencyKey || r.xIdempotencyKey)
      && 0 <= r.contentLength <= |r.body| && r.contentLength <= 65536
      && r.trailers == 0 && !r.expectsContinue && r.pooled
      && forall s <- sent.value :: s.body == Some(r.body[..r.contentLength])
    ensures sent.Some? && r.verb == "POST" && !r.idempotencyKey && !r.xIdempotencyKey ==>
      |sent.value| <= 1 && forall s <- sent.value :: !s.kept
    ensures (r.verb in ["GET", "HEAD", "PUT", "DELETE", "OPTIONS", "TRACE"] || r.idempotencyKey || r.xIdempotencyKey)
            && r.contentLength == 0 && r.trailers == 0 && !r.expectsContinue && r.pooled && turns(0).found ==>
      sent.Some? && sent.value != [] && sent.value[0].kept
  {
    var hold := HoldBody(r, timed);
    if hold.Broken? { return None; }
    var ss, _ := Serve(r, hold, turns);
    return Some(ss);
  }
}
