/** Length-prefixed frames over a byte stream that arrives in arbitrary pieces. */
module FrameParser {
  import opened Bytes

  const HEADER_BYTES: nat := 4
  const FRAME_MAXIMUM: nat := 16384

  datatype Result = NeedMore | Ready | InvalidArgument | EmptyFrame | Oversize | TimedOut | PipelinedFrame | OutputTooSmall

  // ----- what a parser does, in terms of all bytes received -----

  /** Limits of a parser and the bytes of the frame it is assembling. */
  datatype Limits = Limits(maximum: nat, timeout: u32)
  datatype Assembly = Assembly(started: bool, at: u32, bytes: seq<byte>, ready: bool)

  const IDLE: Assembly := Assembly(false, 0, [], false)

  predicate Late(l: Limits, a: Assembly, now: u32) {
    a.started && Sub32(now, a.at) > l.timeout
  }

  /** The verdict on all bytes of a frame so far. */
  function Verdict(l: Limits, bytes: seq<byte>): Result {
    if |bytes| < HEADER_BYTES then NeedMore
    else
      var n := FromBe32(bytes[..4]);
      if n == 0 then EmptyFrame
      else if n > l.maximum then Oversize
      else if |bytes| > HEADER_BYTES + n then PipelinedFrame
      else if |bytes| == HEADER_BYTES + n then Ready else NeedMore
  }

  function Poll(l: Limits, a: Assembly, now: u32): (Assembly, Result) {
    if a.ready then (a, Ready) else if Late(l, a, now) then (IDLE, TimedOut) else (a, NeedMore)
  }

  function Feed(l: Limits, a: Assembly, input: seq<byte>, now: u32): (Assembly, Result) {
    if input == [] then Poll(l, a, now)
    else if a.ready then (IDLE, PipelinedFrame)
    else if Late(l, a, now) then (IDLE, TimedOut)
    else
      var bytes := a.bytes + input;
      var verdict := Verdict(l, bytes);
      if verdict == NeedMore || verdict == Ready
      then (Assembly(true, if a.started then a.at else now, bytes, verdict == Ready), verdict)
      else (IDLE, verdict)
  }

  /** An assembly that a parser can be in. */
  predicate Consistent(l: Limits, a: Assembly) {
    && (!a.started ==> a == IDLE)
    && Verdict(l, a.bytes) == (if a.ready then Ready else NeedMore)
  }

  // ----- the parser, in place -----

  class LengthFrameParser {
    var storage: array?<byte>
    var maximumFrameBytes: nat
    var timeoutMs: u32
    var startedAt: u32
    const header: array<byte>
    var headerBytes: nat
    var expectedBytes: nat
    var receivedBytes: nat
    var started: bool
    var ready: bool
    ghost var received: seq<byte>

    ghost function Bounds(): Limits
      reads this
    {
      Limits(maximumFrameBytes, timeoutMs)
    }

    ghost function Now(): Assembly
      reads this
    {
      Assembly(started, startedAt, received, ready)
    }

    /** The received bytes are the header followed by the stored ones. */
    ghost predicate Holds()
      reads this, header, storage
    {
      && header.Length == HEADER_BYTES && storage != null
      && headerBytes <= HEADER_BYTES && receivedBytes <= storage.Length
      && received == header[..headerBytes] + storage[..receivedBytes]
      && (headerBytes < HEADER_BYTES ==> receivedBytes == 0)
    }

    ghost predicate Valid()
      reads this, header, storage
    {
      && Holds() && maximumFrameBytes <= storage.Length
      && expectedBytes == (if headerBytes == HEADER_BYTES then FromBe32(header[..]) else 0)
      && Consistent(Bounds(), Now())
    }

    /** Begun and well formed, or never begun. */
    ghost predicate Fit()
      reads this, header, storage
    {
      header.Length == HEADER_BYTES && if storage == null then Now() == IDLE else Valid()
    }

    constructor ()
      ensures Fit() && storage == null && fresh(header)
    {
      header := new byte[HEADER_BYTES](_ => 0);
      storage, maximumFrameBytes, timeoutMs := null, 0, 0;
      startedAt, headerBytes, expectedBytes, receivedBytes, started, ready, received := 0, 0, 0, 0, false, false, [];
    }

    method Clear()
      requires header.Length == HEADER_BYTES
      modifies this`startedAt, this`headerBytes, this`expectedBytes, this`receivedBytes, this`started, this`ready, this`received, header
      ensures Now() == IDLE && headerBytes == expectedBytes == receivedBytes == 0
    {
      forall i | 0 <= i < HEADER_BYTES { header[i] := 0; }
      startedAt, headerBytes, expectedBytes, receivedBytes, started, ready, received := 0, 0, 0, 0, false, false, [];
    }

    method Reset()
      requires header.Length == HEADER_BYTES && storage != null && maximumFrameBytes <= storage.Length
      modifies this`startedAt, this`headerBytes, this`expectedBytes, this`receivedBytes, this`started, this`ready, this`received, header
      ensures Valid() && Now() == IDLE
    {
      Clear();
    }

    /** `begin`. */
    method Begin(buffer: array?<byte>, maximum: nat, timeout: u32) returns (ok: bool)
      requires header.Length == HEADER_BYTES && buffer != header
      modifies this, header
      ensures ok <==> buffer != null && 0 < maximum <= buffer.Length && maximum <= FRAME_MAXIMUM && timeout != 0
      ensures ok ==> storage == buffer && Valid() && Bounds() == Limits(maximum, timeout) && Now() == IDLE
      ensures Fit() && (!ok ==> storage == null)
    {
      Clear();
      if buffer == null || buffer.Length == 0 || maximum == 0 || maximum > buffer.Length || maximum > FRAME_MAXIMUM || timeout == 0 {
        storage := null;
        return false;
      }
      storage, maximumFrameBytes, timeoutMs := buffer, maximum, timeout;
      Reset();
      ok := true;
    }

    /** `poll`; a parser that was not begun asks for more. */
    method PollFrame(now: u32) returns (result: Result)
      requires Fit()
      modifies this`startedAt, this`headerBytes, this`expectedBytes, this`receivedBytes, this`started, this`ready, this`received, header
      ensures Fit() && (Now(), result) == Poll(Bounds(), old(Now()), now)
      ensures storage == null ==> result == NeedMore
    {
      if ready { return Ready; }
      if started && Sub32(now, startedAt) > timeoutMs {
        Reset();
        return TimedOut;
      }
      result := NeedMore;
    }

    /** Takes the octets that still belong to the header. */
    method FillHeader(input: seq<byte>) returns (cursor: nat)
      requires Holds() && storage != header && receivedBytes == 0
      modifies this`headerBytes, this`received, header
      ensures cursor <= |input| && Holds() && received == old(received) + input[..cursor]
      ensures headerBytes == HEADER_BYTES || cursor == |input|
      ensures headerBytes >= old(headerBytes) && (old(headerBytes) == HEADER_BYTES ==> cursor == 0 && header[..] == old(header[..]))
    {
      cursor := 0;
      assert storage[..0] == [];
      while headerBytes < HEADER_BYTES && cursor < |input|
        invariant cursor <= |input| && Holds() && receivedBytes == 0
        invariant received == old(received) + input[..cursor]
        invariant headerBytes >= old(headerBytes)
        invariant old(headerBytes) == HEADER_BYTES ==> cursor == 0 && header[..] == old(header[..])
      {
        ghost var before := header[..headerBytes];
        header[headerBytes] := input[cursor];
        headerBytes, cursor := headerBytes + 1, cursor + 1;
        assert header[..headerBytes] == before + [input[cursor - 1]];
        received := received + [input[cursor - 1]];
        assert input[..cursor] == input[..cursor - 1] + [input[cursor - 1]];
      }
    }

    /** Takes as many octets of the payload as are expected. */
    method FillPayload(input: seq<byte>) returns (copied: nat)
      requires Holds() && storage != header && headerBytes == HEADER_BYTES && receivedBytes <= expectedBytes <= storage.Length
      modifies this`receivedBytes, this`received, storage
      ensures copied <= |input| && Holds() && received == old(received) + input[..copied]
      ensures receivedBytes <= expectedBytes && (copied == |input| || receivedBytes == expectedBytes)
    {
      var remaining := expectedBytes - receivedBytes;
      copied := if |input| < remaining then |input| else remaining;
      ghost var before := storage[..receivedBytes];
      forall k | 0 <= k < copied { storage[receivedBytes + k] := input[k]; }
      receivedBytes := receivedBytes + copied;
      assert storage[..receivedBytes] == before + input[..copied];
      received := received + input[..copied];
    }

    /** What `feed` leaves behind once all bytes are accounted for. */
    ghost predicate Settled(result: Result, all: seq<byte>, at: u32)
      reads this
    {
      && result == Verdict(Bounds(), all)
      && Now() == if result == NeedMore || result == Ready then Assembly(true, at, all, result == Ready) else IDLE
    }

    /** The payload half of `feed`. */
    method TakePayload(rest: seq<byte>, ghost all: seq<byte>) returns (result: Result)
      requires Holds() && storage != header && headerBytes == HEADER_BYTES && !ready && started
      requires expectedBytes == FromBe32(header[..]) && 0 < expectedBytes <= maximumFrameBytes <= storage.Length
      requires receivedBytes <= expectedBytes && all == received + rest
      modifies this`startedAt, this`headerBytes, this`expectedBytes, this`receivedBytes, this`started, this`ready, this`received,
               header, storage
      ensures Valid() && Settled(result, all, old(startedAt))
    {
      hide FromBe32;
      var copied := FillPayload(rest);
      HeaderIs();
      assert all == received + rest[copied..];
      assert all[..4] == received[..4];
      if copied != |rest| {
        Reset();
        return PipelinedFrame;
      }
      assert all == received;
      if receivedBytes == expectedBytes {
        ready := true;
        return Ready;
      }
      result := NeedMore;
    }

    /** The part of `feed` behind its checks. */
    method Assemble(input: seq<byte>) returns (result: Result)
      requires Valid() && storage != header && !ready && started && input != []
      modifies this`startedAt, this`headerBytes, this`expectedBytes, this`receivedBytes, this`started, this`ready, this`received,
               header, storage
      ensures Valid() && Settled(result, old(received) + input, old(startedAt))
    {
      hide FromBe32;
      ghost var all := received + input;
      if headerBytes == HEADER_BYTES { HeaderIs(); }
      var cursor := 0;
      if receivedBytes == 0 {
        cursor := FillHeader(input);
      }
      assert all == received + input[cursor..];
      if headerBytes < HEADER_BYTES {
        assert input[cursor..] == [];
        return NeedMore;
      }
      HeaderIs();
      assert all[..4] == header[..];
      if expectedBytes == 0 {
        expectedBytes := FromBe32(header[..]);
        if expectedBytes == 0 {
          Reset();
          return EmptyFrame;
        }
        if expectedBytes > maximumFrameBytes || expectedBytes > storage.Length {
          Reset();
          return Oversize;
        }
      }
      result := TakePayload(input[cursor..], all);
    }

    lemma HeaderIs()
      requires Holds() && headerBytes == HEADER_BYTES
      ensures |received| == HEADER_BYTES + receivedBytes && received[..4] == header[..] && received[4..] == storage[..receivedBytes]
    {
    }

    /** `feed`; a parser that was not begun refuses. */
    method FeedBytes(input: seq<byte>, now: u32) returns (result: Result)
      requires Fit() && storage != header
      modifies this, header, storage
      ensures Fit() && storage == old(storage) && Bounds() == old(Bounds())
      ensures (Now(), result)
           == if storage == null then (old(Now()), InvalidArgument) else Feed(Bounds(), old(Now()), input, now)
    {
      hide Verdict;
      if storage == null { return InvalidArgument; }
      if input == [] {
        result := PollFrame(now);
        return;
      }
      if ready {
        Reset();
        return PipelinedFrame;
      }
      if !started {
        started, startedAt := true, now;
      } else if Sub32(now, startedAt) > timeoutMs {
        Reset();
        return TimedOut;
      }
      result := Assemble(input);
    }

    /** `frame`: the payload, once complete. */
    method Frame() returns (payload: Option<seq<byte>>)
      requires Valid()
      ensures payload == if ready then Some(received[4..]) else None
    {
      if !ready { return None; }
      HeaderIs();
      payload := Some(storage[..receivedBytes]);
    }

    /** `consume`. */
    method Consume()
      requires Valid()
      modifies this`startedAt, this`headerBytes, this`expectedBytes, this`receivedBytes, this`started, this`ready, this`received, header
      ensures Valid() && Now() == IDLE
    {
      Reset();
    }
  }

  /** `encodeLengthFrame`. */
  function Framed(payload: seq<byte>): (f: seq<byte>)
    requires |payload| < TWO_32
    ensures |f| == HEADER_BYTES + |payload|
  {
    Be32(|payload|) + payload
  }

  method EncodeFrame(payload: seq<byte>, output: array<byte>) returns (result: Result, written: nat)
    modifies output
    ensures result == if payload == [] then EmptyFrame else if |payload| > FRAME_MAXIMUM then Oversize
                      else if output.Length < HEADER_BYTES + |payload| then OutputTooSmall else Ready
    ensures result == Ready ==> |payload| < TWO_32 && written == HEADER_BYTES + |payload| <= output.Length
                                && output[..written] == Framed(payload)
    ensures result != Ready ==> written == 0 && output[..] == old(output[..])
  {
    hide Be32;
    if payload == [] { return EmptyFrame, 0; }
    if |payload| > FRAME_MAXIMUM { return Oversize, 0; }
    if output.Length < HEADER_BYTES + |payload| { return OutputTooSmall, 0; }
    var length := Be32(|payload|);
    forall k | 0 <= k < HEADER_BYTES { output[k] := length[k]; }
    forall k | 0 <= k < |payload| { output[HEADER_BYTES + k] := payload[k]; }
    written := HEADER_BYTES + |payload|;
    assert output[..written] == length + payload;
    result := Ready;
  }

  // ----- fragmentation -----

  /** One arrival: some bytes at a time of the wrapping millisecond clock. */
  datatype Arrival = Arrival(bytes: seq<byte>, now: u32)

  function FeedAll(l: Limits, a: Assembly, arrivals: seq<Arrival>): (Assembly, seq<Result>)
    decreases |arrivals|
  {
    if arrivals == [] then (a, [])
    else
      var (b, result) := Feed(l, a, arrivals[0].bytes, arrivals[0].now);
      var (c, results) := FeedAll(l, b, arrivals[1..]);
      (c, [result] + results)
  }

  function Joined(arrivals: seq<Arrival>): seq<byte> {
    if arrivals == [] then [] else arrivals[0].bytes + Joined(arrivals[1..])
  }

  /** Non-empty pieces that all arrive within the timeout after `at`, across a clock wrap or not. */
  predicate InTime(l: Limits, at: u32, arrivals: seq<Arrival>) {
    forall k :: 0 <= k < |arrivals| ==> arrivals[k].bytes != [] && Sub32(arrivals[k].now, at) <= l.timeout
  }

  /** Part of a frame asks for more; the whole frame is ready; more than the frame is refused. */
  lemma VerdictOnFrame(l: Limits, payload: seq<byte>, bytes: seq<byte>)
    requires 0 < |payload| <= l.maximum <= FRAME_MAXIMUM
    ensures bytes < Framed(payload) ==> Verdict(l, bytes) == NeedMore
    ensures bytes == Framed(payload) ==> Verdict(l, bytes) == Ready
    ensures Framed(payload) < bytes ==> Verdict(l, bytes) == PipelinedFrame
  {
    hide Be32, FromBe32;
    Be32Inverse(|payload|);
    var f := Framed(payload);
    assert f[..4] == Be32(|payload|);
    if |bytes| >= 4 && (bytes <= f || f <= bytes) { assert bytes[..4] == f[..4]; }
  }

  /** From any point inside a frame, the rest of it in any pieces: more until the last piece, then the frame. */
  lemma {:induction false} RestOfFrame(l: Limits, payload: seq<byte>, a: Assembly, arrivals: seq<Arrival>)
    requires 0 < |payload| <= l.maximum <= FRAME_MAXIMUM && arrivals != []
    requires !a.ready && a.bytes + Joined(arrivals) == Framed(payload)
    requires if a.started then InTime(l, a.at, arrivals) else a == IDLE && InTime(l, arrivals[0].now, arrivals)
    ensures var (b, results) := FeedAll(l, a, arrivals);
      && b.ready && b.bytes == Framed(payload)
      && |results| == |arrivals| && results[|results| - 1] == Ready
      && forall k :: 0 <= k < |results| - 1 ==> results[k] == NeedMore
    decreases |arrivals|
  {
    hide Framed, Verdict, InTime;
    var piece, rest := arrivals[0], arrivals[1..];
    assert piece.bytes != [] && !Late(l, a, piece.now) by { Punctual(l, a, arrivals); }
    var bytes := a.bytes + piece.bytes;
    assert bytes + Joined(rest) == Framed(payload);
    VerdictOnFrame(l, payload, bytes);
    var (b, result) := Feed(l, a, piece.bytes, piece.now);
    if rest == [] {
      assert bytes == Framed(payload);
      assert FeedAll(l, b, rest) == (b, []);
    } else {
      JoinedNonEmpty(l, if a.started then a.at else piece.now, arrivals);
      assert bytes < Framed(payload);
      RestInTime(l, if a.started then a.at else piece.now, arrivals);
      RestOfFrame(l, payload, b, rest);
    }
  }

  lemma Punctual(l: Limits, a: Assembly, arrivals: seq<Arrival>)
    requires arrivals != [] && if a.started then InTime(l, a.at, arrivals) else InTime(l, arrivals[0].now, arrivals)
    ensures arrivals[0].bytes != [] && !Late(l, a, arrivals[0].now)
  {
  }

  lemma RestInTime(l: Limits, at: u32, arrivals: seq<Arrival>)
    requires arrivals != [] && InTime(l, at, arrivals)
    ensures InTime(l, at, arrivals[1..])
  {
  }

  lemma JoinedNonEmpty(l: Limits, at: u32, arrivals: seq<Arrival>)
    requires |arrivals| > 1 && InTime(l, at, arrivals)
    ensures Joined(arrivals[1..]) != []
  {
    assert arrivals[1].bytes != [];
    assert arrivals[1..][0] == arrivals[1];
  }

  /** A frame cut into any non-empty pieces inside the timeout arrives whole. */
  lemma AnyFragmentation(l: Limits, payload: seq<byte>, arrivals: seq<Arrival>)
    requires 0 < |payload| <= l.maximum <= FRAME_MAXIMUM && arrivals != []
    requires Joined(arrivals) == Framed(payload) && InTime(l, arrivals[0].now, arrivals)
    ensures var (a, results) := FeedAll(l, IDLE, arrivals);
      && a.ready && |a.bytes| >= 4 && a.bytes[4..] == payload
      && |results| == |arrivals| && results[|results| - 1] == Ready
      && forall k :: 0 <= k < |results| - 1 ==> results[k] == NeedMore
  {
    assert [] + Joined(arrivals) == Framed(payload);
    RestOfFrame(l, payload, IDLE, arrivals);
    hide Be32;
    assert Framed(payload)[4..] == payload;
  }

  /** Bytes beyond a frame, in its last piece or after it, drop it. */
  lemma ExtraBytesRefused(l: Limits, payload: seq<byte>, a: Assembly, piece: Arrival)
    requires 0 < |payload| <= l.maximum <= FRAME_MAXIMUM && Consistent(l, a) && piece.bytes != [] && !Late(l, a, piece.now)
    requires Framed(payload) < a.bytes + piece.bytes
    ensures Feed(l, a, piece.bytes, piece.now) == (IDLE, PipelinedFrame)
  {
    hide Framed;
    VerdictOnFrame(l, payload, a.bytes + piece.bytes);
  }

  /** A frame is given up exactly when a piece or a poll comes more than the timeout after its first piece. */
  lemma TimeoutExact(l: Limits, a: Assembly, input: seq<byte>, now: u32)
    requires Consistent(l, a)
    ensures Feed(l, a, input, now).1 == TimedOut <==> a.started && !a.ready && Sub32(now, a.at) > l.timeout
  {
  }

  /** A session: each frame arrives in pieces and is consumed. */
  function Receive(l: Limits, frames: seq<seq<Arrival>>): seq<seq<byte>> {
    if frames == [] then []
    else
      var a := FeedAll(l, IDLE, frames[0]).0;
      (if a.ready && |a.bytes| >= 4 then [a.bytes[4..]] else []) + Receive(l, frames[1..])
  }

  /** Any list of payloads survives framing, fragmentation and consumption. */
  lemma {:induction false} PayloadsArrive(l: Limits, payloads: seq<seq<byte>>, frames: seq<seq<Arrival>>)
    requires |frames| == |payloads| && l.maximum <= FRAME_MAXIMUM
    requires forall k :: 0 <= k < |frames| ==>
      && 0 < |payloads[k]| <= l.maximum && frames[k] != []
      && Joined(frames[k]) == Framed(payloads[k]) && InTime(l, frames[k][0].now, frames[k])
    ensures Receive(l, frames) == payloads
  {
    hide Framed, FeedAll, InTime, Joined;
    if frames != [] {
      AnyFragmentation(l, payloads[0], frames[0]);
      PayloadsArrive(l, payloads[1..], frames[1..]);
      assert payloads == [payloads[0]] + payloads[1..];
    }
  }
}
