/**
 The reseed of a guest after a snapshot load: the framed request, the injection
 into the pool of the guest, and the framed ack the host insists on.
 */
module Entropy {
  import opened Bytes
  import opened Wrappers

  const VERSION: Byte := 1
  const DEFAULT_PAYLOAD := 256
  const MAX_PAYLOAD := 4096
  const STATUS_OK: Byte := 0
  const STATUS_ERROR: Byte := 1
  const DIGEST_SIZE := 32

  const REQ_MAGIC: seq<Byte> := [83, 82, 83, 68]
  const ACK_MAGIC: seq<Byte> := [83, 82, 83, 65]

  datatype Error = Short | BadMagic | BadVersion | Empty | TooLong
  datatype Result<T> = Ok(value: T, rest: seq<Byte>) | Err(error: Error)

  datatype Ack = Ack(status: Byte, digest: seq<Byte>)

  // Requests

  predicate Sendable(payload: seq<Byte>) {
    1 <= |payload| <= MAX_PAYLOAD
  }

  function EncodeRequest(payload: seq<Byte>): seq<Byte>
    requires Sendable(payload)
  {
    REQ_MAGIC + [VERSION] + PutHalf(|payload|) + payload
  }

  function DecodeRequest(s: seq<Byte>): Result<seq<Byte>> {
    if |s| < 7 then Err(Short)
    else if s[..4] != REQ_MAGIC then Err(BadMagic)
    else if s[4] != VERSION then Err(BadVersion)
    else
      var n := Half(s[5..7]);
      if n == 0 then Err(Empty)
      else if n > MAX_PAYLOAD then Err(TooLong)
      else if |s| - 7 < n then Err(Short)
      else Ok(s[7..7 + n], s[7 + n..])
  }

  /** The bytes of a request: "SRSD", version 1, the length in two bytes, the payload. */
  lemma RequestBytes(payload: seq<Byte>)
    ensures Sendable(payload) <==> 1 <= |payload| <= 4096
    ensures Sendable(payload) ==>
              EncodeRequest(payload) == [83, 82, 83, 68, 1, |payload| / 256, |payload| % 256] + payload
  {
  }

  lemma RequestRoundTrip(payload: seq<Byte>, rest: seq<Byte>)
    requires Sendable(payload)
    ensures DecodeRequest(EncodeRequest(payload) + rest) == Ok(payload, rest)
  {
    hide PutHalf, Half;
    var s := EncodeRequest(payload) + rest;
    assert s[..4] == REQ_MAGIC && s[4] == VERSION;
    assert s[5..7] == PutHalf(|payload|);
    HalfRoundTrip(|payload|);
    assert s[7..7 + |payload|] == payload;
    assert s[7 + |payload|..] == rest;
  }

  /** A stream that reads as a request began with the encoding of one. */
  lemma RequestInverse(s: seq<Byte>)
    requires DecodeRequest(s).Ok?
    ensures var r := DecodeRequest(s);
            Sendable(r.value) && s == EncodeRequest(r.value) + r.rest
  {
    hide PutHalf, Half;
    var n := Half(s[5..7]);
    HalfInverse(s[5..7]);
    assert s == s[..4] + [s[4]] + s[5..7] + s[7..7 + n] + s[7 + n..];
  }

  /** No proper prefix of a request reads as one. */
  lemma CutRequest(payload: seq<Byte>, n: nat)
    requires Sendable(payload) && n < |EncodeRequest(payload)|
    ensures DecodeRequest(EncodeRequest(payload)[..n]) == Err(Short)
  {
    hide PutHalf, Half;
    if n >= 7 {
      var s := EncodeRequest(payload)[..n];
      assert s[..4] == REQ_MAGIC && s[4] == VERSION;
      assert s[5..7] == EncodeRequest(payload)[5..7] == PutHalf(|payload|);
      HalfRoundTrip(|payload|);
    }
  }

  // Acks

  function EncodeAck(a: Ack): seq<Byte> {
    ACK_MAGIC + [VERSION, a.status] + a.digest
  }

  function DecodeAck(s: seq<Byte>): Result<Ack> {
    if |s| < 6 + DIGEST_SIZE then Err(Short)
    else if s[..4] != ACK_MAGIC then Err(BadMagic)
    else if s[4] != VERSION then Err(BadVersion)
    else Ok(Ack(s[5], s[6..6 + DIGEST_SIZE]), s[6 + DIGEST_SIZE..])
  }

  /** The bytes of an ack: "SRSA", version 1, 0 for success, 32 bytes of digest. */
  lemma AckBytes(ok: bool, digest: seq<Byte>)
    ensures EncodeAck(Ack(if ok then STATUS_OK else STATUS_ERROR, digest)) ==
            [83, 82, 83, 65, 1, if ok then 0 else 1] + digest
    ensures |digest| == DIGEST_SIZE <==> |digest| == 32
  {
  }

  lemma AckRoundTrip(a: Ack, rest: seq<Byte>)
    requires |a.digest| == DIGEST_SIZE
    ensures DecodeAck(EncodeAck(a) + rest) == Ok(a, rest)
  {
    var s := EncodeAck(a) + rest;
    assert s[..4] == ACK_MAGIC && s[4] == VERSION && s[5] == a.status;
    assert s[6..6 + DIGEST_SIZE] == a.digest;
    assert s[6 + DIGEST_SIZE..] == rest;
  }

  lemma AckInverse(s: seq<Byte>)
    requires DecodeAck(s).Ok?
    ensures s == EncodeAck(DecodeAck(s).value) + DecodeAck(s).rest
  {
    assert s == s[..4] + [s[4], s[5]] + s[6..6 + DIGEST_SIZE] + s[6 + DIGEST_SIZE..];
  }

  /** A cut ack reads as an ack only when it is whole. */
  lemma CutAck(a: Ack, n: nat)
    requires |a.digest| == DIGEST_SIZE && n <= |EncodeAck(a)|
    ensures DecodeAck(EncodeAck(a)[..n]) == if n == |EncodeAck(a)| then Ok(a, []) else Err(Short)
  {
    if n == |EncodeAck(a)| {
      AckRoundTrip(a, []);
      assert EncodeAck(a)[..n] == EncodeAck(a) + [];
    }
  }

  // The exchange

  /** The handler in the guest. The pool holds the payloads that the kernel accepted. */
  class GuestHandler {
    var pool: Option<seq<seq<Byte>>>

    constructor (pool: Option<seq<seq<Byte>>>)
      ensures this.pool == pool
    {
      this.pool := pool;
    }

    /** Injects the payload that came in, then acks it with its digest, whatever the pool said. */
    method ServeConn(inbound: seq<Byte>, injects: bool, digest: seq<Byte> -> seq<Byte>)
      returns (ack: seq<Byte>, ok: bool)
      modifies this
      ensures pool.None? <==> old(pool).None?
      ensures pool.None? || DecodeRequest(inbound).Err? ==> ack == [] && !ok && pool == old(pool)
      ensures pool.Some? && DecodeRequest(inbound).Ok? ==>
                var got := DecodeRequest(inbound).value;
                && ok == injects
                && ack == EncodeAck(Ack(if injects then STATUS_OK else STATUS_ERROR, digest(got)))
                && pool == Some(if injects then old(pool).value + [got] else old(pool).value)
    {
      ack, ok := [], false;
      if pool.None? {
        return;
      }
      var payload := ReadRequest(inbound);
      if payload.None? {
        return;
      }
      var status := STATUS_OK;
      if injects {
        pool := Some(pool.value + [payload.value]);
      } else {
        status := STATUS_ERROR;
      }
      ack := ACK_MAGIC;
      ack := ack + [VERSION, status];
      ack := ack + digest(payload.value);
      ok := status == STATUS_OK;
    }
  }

  method ReadRequest(s: seq<Byte>) returns (r: Option<seq<Byte>>)
    ensures r == if DecodeRequest(s).Ok? then Some(DecodeRequest(s).value) else None
  {
    if |s| < 7 || s[..4] != REQ_MAGIC || s[4] != VERSION {
      return None;
    }
    var n := Half(s[5..7]);
    if n == 0 || n > MAX_PAYLOAD || |s| - 7 < n {
      return None;
    }
    return Some(s[7..7 + n]);
  }

  method WriteRequest(payload: seq<Byte>) returns (wire: Option<seq<Byte>>)
    ensures wire == if Sendable(payload) then Some(EncodeRequest(payload)) else None
  {
    if |payload| == 0 || |payload| > MAX_PAYLOAD {
      return None;
    }
    var header := REQ_MAGIC;
    header := header + [VERSION];
    header := header + PutHalf(|payload|);
    return Some(header + payload);
  }

  /** How many bytes a reseed asks for: a size that is not positive means the default. */
  function PayloadSize(n: int): nat {
    if n <= 0 then DEFAULT_PAYLOAD else n
  }

  /**
   What a reseed meets: the random source, the handshake, what the link makes of
   the request on its way in, and how much of the ack comes back.
   */
  datatype Link = Link(source: seq<Byte>, connects: bool, carry: seq<Byte> -> seq<Byte>, injects: bool, ackBytes: nat)

  /**
   A reseed succeeds only if the pool of the guest took one payload more, whose
   digest is that of the payload sent: that very payload, or a collision with it.
   Over a link that carries the request unchanged it succeeds exactly when the
   payload can be sent, the guest can inject it, and the whole ack comes back.
   */
  method Reseed(h: GuestHandler, size: int, link: Link, digest: seq<Byte> -> seq<Byte>) returns (ok: bool)
    requires forall p :: |digest(p)| == DIGEST_SIZE
    modifies h
    ensures ok ==> |link.source| >= (if size <= 0 then 256 else size) && old(h.pool).Some? && h.pool.Some?
    ensures ok ==>
              var payload := link.source[..if size <= 0 then 256 else size];
              && h.pool.value != [] && h.pool.value[..|h.pool.value| - 1] == old(h.pool).value
              && var got := h.pool.value[|h.pool.value| - 1];
                 digest(got) == digest(payload)
    ensures (forall s :: link.carry(s) == s) ==>
              (ok <==> && size <= 4096 && (if size <= 0 then 256 else size) <= |link.source| && link.connects
                       && old(h.pool).Some? && link.injects && link.ackBytes >= 38)
    ensures (forall s :: link.carry(s) == s) && ok ==>
              h.pool.value == old(h.pool).value + [link.source[..if size <= 0 then 256 else size]]
  {
    hide EncodeRequest, DecodeRequest, DecodeAck, EncodeAck;
    var n := PayloadSize(size);
    if |link.source| < n {
      return false;
    }
    var payload := link.source[..n];
    var want := digest(payload);
    if !link.connects {
      return false;
    }
    var request := WriteRequest(payload);
    if request.None? {
      return false;
    }
    RequestArrives(payload);
    var ack, _ := h.ServeConn(link.carry(request.value), link.injects, digest);
    var seen := if link.ackBytes < |ack| then ack[..link.ackBytes] else ack;
    ghost var arrived := DecodeRequest(link.carry(request.value));
    if old(h.pool).Some? && arrived.Ok? {
      AckArrives(Ack(if link.injects then STATUS_OK else STATUS_ERROR, digest(arrived.value)), link.ackBytes);
    } else {
      NoAck();
    }
    var r := DecodeAck(seen);
    if r.Err? || r.value.status != STATUS_OK {
      return false;
    }
    return r.value.digest == want;
  }

  lemma RequestArrives(payload: seq<Byte>)
    requires Sendable(payload)
    ensures DecodeRequest(EncodeRequest(payload)) == Ok(payload, [])
  {
    RequestRoundTrip(payload, []);
    assert EncodeRequest(payload) + [] == EncodeRequest(payload);
  }

  lemma AckArrives(a: Ack, n: nat)
    requires |a.digest| == DIGEST_SIZE
    ensures |EncodeAck(a)| == 6 + DIGEST_SIZE
    ensures DecodeAck(if n < |EncodeAck(a)| then EncodeAck(a)[..n] else EncodeAck(a))
         == if n < |EncodeAck(a)| then Err(Short) else Ok(a, [])
  {
    if n < |EncodeAck(a)| {
      CutAck(a, n);
    } else {
      AckRoundTrip(a, []);
      assert EncodeAck(a) + [] == EncodeAck(a);
    }
  }

  lemma NoAck()
    ensures DecodeAck([]) == Err(Short)
  {
  }
}
