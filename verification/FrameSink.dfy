/**
 * src/websocket.ts in its own form: `parseFrame` unmasks in the caller's buffer, and
 * `FrameSink` keeps its input and its message in two growing buffers.
 */
module FrameSink {
  import opened Common
  import opened WsFrames
  import P = FrameSinkProtocol

  // ----- parseFrame -----

  /** What `parseFrame` returns or throws; the payload is the view `buf[start..end]`. */
  datatype Parsed =
    | MoreNeeded
    | Broken(failure: Failure)
    | View(fin: bool, opcode: nat, start: nat, end: nat)

  /** The loop that unmasks `buf[start..start + n]` with the four bytes before it. */
  method Unmask(buf: array<byte>, start: nat, n: nat)
    requires 4 <= start && start + n <= buf.Length
    modifies buf
    ensures buf[..start] == old(buf[..start]) && buf[start + n..] == old(buf[start + n..])
    ensures buf[start..start + n] == Mask(old(buf[start - 4..start]), old(buf[start..start + n]))
  {
    ghost var key := buf[start - 4..start];
    var i := 0;
    while i < n
      invariant 0 <= i <= n
      invariant forall k :: 0 <= k < start ==> buf[k] == old(buf[k])
      invariant forall k :: start <= k < start + i ==> buf[k] == Xor(old(buf[k]), key[(k - start) % 4])
      invariant forall k :: start + i <= k < buf.Length ==> buf[k] == old(buf[k])
    {
      assert buf[start - 4 + i % 4] == key[i % 4];
      buf[start + i] := Xor(buf[start + i], buf[start - 4 + i % 4]);
      i := i + 1;
    }
    assert buf[start..start + n] == Mask(key, old(buf[start..start + n]));
  }

  /** The result `r` and the new contents of `buf` are what `Parse` says of the bytes from `off` on. */
  ghost predicate Reflects(r: Parsed, was: Bytes, now: Bytes, off: nat, outcome: Outcome)
    requires off <= |was|
  {
    match outcome
    case Incomplete => r == MoreNeeded && now == was
    case Failed(failure) => r == Broken(failure) && now == was
    case Complete(f, n) =>
      && r.View? && r.fin == f.fin && r.opcode == f.opcode
      && r.start <= r.end == off + n <= |was| == |now|
      && now[r.start..r.end] == f.payload && now[..r.start] == was[..r.start] && now[r.end..] == was[r.end..]
  }

  /** `parseFrame` on the view `buf[off..off + len]`. */
  method ParseFrame(buf: array<byte>, off: nat, len: nat, limits: Limits, ghost s: Bytes) returns (r: Parsed)
    requires off + len <= buf.Length && s == buf[off..off + len]
    modifies buf
    ensures Reflects(r, old(buf[..]), buf[..], off, Parse(s, limits))
  {
    if len < 2 { return MoreNeeded; }
    var b0, b1 := buf[off], buf[off + 1];
    assert b0 == s[0] && b1 == s[1];
    var fin := b0 >= 0x80;
    if b0 as nat / 16 % 8 != 0 { return Broken(Violation); }
    var opcode := b0 as nat % 16;
    var masked := b1 >= 0x80;
    var payloadLen := b1 as nat % 128;
    var offset := 2;
    if IsControl(opcode) {
      if !fin { return Broken(Violation); }
      if payloadLen > MAX_CONTROL { return Broken(Violation); }
      if opcode != CLOSE && opcode != PING && opcode != PONG { return Broken(Violation); }
    } else if opcode != CONTINUATION && opcode != TEXT && opcode != BINARY {
      return Broken(Violation);
    }
    assert HeaderOk(s[0], Length7(s[1]));
    if payloadLen == 126 {
      if len < offset + 2 { return MoreNeeded; }
      payloadLen := buf[off + offset] as nat * 256 + buf[off + offset + 1] as nat;
      offset := offset + 2;
    } else if payloadLen == 127 {
      if len < offset + 8 { return MoreNeeded; }
      var hi := Word(buf[off..off + len], offset);
      var lo := Word(buf[off..off + len], offset + 4);
      if hi > 0x1F_FFFF { return Broken(Violation); }
      payloadLen := hi * 0x1_0000_0000 + lo;
      offset := offset + 8;
    }
    assert ReadLength(s) == Length(payloadLen, offset);
    r := ParseFrameBody(buf, off, len, fin, opcode, masked, limits, payloadLen, offset);
  }

  /** The second half of `parseFrame` (lines 1066-1096), with the length known. */
  method ParseFrameBody(buf: array<byte>, off: nat, len: nat, fin: bool, opcode: nat, masked: bool,
                        limits: Limits, payloadLen: nat, offset: nat)
    returns (r: Parsed)
    requires 2 <= offset <= len && off + len <= buf.Length
    modifies buf
    ensures Reflects(r, old(buf[..]), buf[..], off,
        ParseBody(old(buf[off..off + len]), fin, opcode, masked, limits, payloadLen, offset))
  {
    if !IsControl(opcode) && limits.maxPayload.Some? && payloadLen > limits.maxPayload.value {
      return Broken(TooLarge(limits.maxPayload.value, payloadLen));
    }
    if limits.requireMask && !masked { return Broken(Violation); }
    var start := offset;
    if masked {
      if len < start + 4 { return MoreNeeded; }
      start := start + 4;
    }
    if len < start + payloadLen { return MoreNeeded; }
    BodyIsView(buf[..], off, len, fin, opcode, masked, limits, payloadLen, offset);
    ghost var outcome := ParseBody(buf[off..off + len], fin, opcode, masked, limits, payloadLen, offset);
    r := TakeFrame(buf, off, off + start, payloadLen, fin, opcode, masked, outcome);
  }

  /** Unmasks the payload and returns its view (lines 1089-1096). */
  method TakeFrame(buf: array<byte>, off: nat, start: nat, n: nat, fin: bool, opcode: nat, masked: bool,
                   ghost outcome: Outcome)
    returns (r: Parsed)
    requires off <= start && start + n <= buf.Length && (masked ==> 4 <= start)
    requires outcome == Complete(Frame(fin, opcode, PayloadAt(buf[..], start, n, masked)), start + n - off)
    modifies buf
    ensures Reflects(r, old(buf[..]), buf[..], off, outcome)
  {
    TakePayload(buf, start, n, masked);
    r := View(fin, opcode, start, start + n);
  }

  /** The payload of `n` bytes at `start`, unmasked with the four bytes before it. */
  function PayloadAt(s: Bytes, start: nat, n: nat, masked: bool): (p: Bytes)
    requires start + n <= |s| && (masked ==> 4 <= start)
    ensures |p| == n
  {
    if masked then Mask(s[start - 4..start], s[start..start + n]) else s[start..start + n]
  }

  method TakePayload(buf: array<byte>, start: nat, n: nat, masked: bool)
    requires start + n <= buf.Length && (masked ==> 4 <= start)
    modifies buf
    ensures buf[..][start..start + n] == PayloadAt(old(buf[..]), start, n, masked)
    ensures buf[..][..start] == old(buf[..])[..start] && buf[..][start + n..] == old(buf[..])[start + n..]
  {
    ghost var was := buf[..];
    if masked {
      assert was[start - 4..start] == buf[start - 4..start] && was[start..start + n] == buf[start..start + n];
      assert was[..start] == buf[..start] && was[start + n..] == buf[start + n..];
      Unmask(buf, start, n);
      assert buf[..][start..start + n] == buf[start..start + n];
      assert buf[..][..start] == buf[..start] && buf[..][start + n..] == buf[start + n..];
    }
  }

  /** Where the payload of a frame starts when its length field ends at `offset`. */
  function PayloadStart(masked: bool, offset: nat): nat {
    if masked then offset + 4 else offset
  }

  lemma BodyIsView(s: Bytes, off: nat, len: nat, fin: bool, opcode: nat, masked: bool, limits: Limits, n: nat,
                   offset: nat)
    requires 2 <= offset <= len && off + len <= |s|
    requires IsControl(opcode) || limits.maxPayload.None? || n <= limits.maxPayload.value
    requires limits.requireMask ==> masked
    requires PayloadStart(masked, offset) + n <= len
    ensures var start := PayloadStart(masked, offset);
      ParseBody(s[off..off + len], fin, opcode, masked, limits, n, offset)
      == Complete(Frame(fin, opcode, PayloadAt(s, off + start, n, masked)), start + n)
  {
    var start := PayloadStart(masked, offset);
    SliceOfSlice(s, off, len, start, start + n);
    SliceOfSlice(s, off, len, offset, start);
  }

  lemma SliceOfSlice(s: Bytes, off: nat, len: nat, i: nat, j: nat)
    requires off + len <= |s| && i <= j <= len
    ensures s[off..off + len][i..j] == s[off + i..off + j]
  {
    var a, b := s[off..off + len][i..j], s[off + i..off + j];
    assert forall k :: 0 <= k < |a| ==> a[k] == b[k];
  }

  lemma FramesAreKnown(s: Bytes, limits: Limits)
    ensures var r := Parse(s, limits);
      r.Complete? && IsControl(r.frame.opcode) ==> r.frame.fin && KnownControl(r.frame.opcode)
  {
  }

  // ----- the sink -----

  function Max(a: nat, b: nat): nat { if a >= b then a else b }

  /** `dst.set(src.subarray(from, from + n), at)`, and `copyWithin` when both are one array. */
  method Copy(src: array<byte>, from: nat, n: nat, dst: array<byte>, at: nat)
    requires from + n <= src.Length && at + n <= dst.Length
    modifies dst
    ensures dst[at..at + n] == old(src[from..from + n])
    ensures dst[..at] == old(dst[..at]) && dst[at + n..] == old(dst[at + n..])
  {
    forall i | at <= i < at + n {
      dst[i] := src[from + (i - at)];
    }
  }

  /** How `handle` comes back: by returning, by a protocol error, or by another error. */
  datatype Exit = Returns | Raises(failure: Failure) | Escapes

  class Sink {
    const o: P.Options
    // Unread input is `buf[off..off + len]`.
    var buf: array<byte>
    var off: nat
    var len: nat
    // The message so far is `msg[..fragmentBytes]`; the opcode is -1 between messages.
    var msg: array<byte>
    var fragmentOpcode: int
    var fragmentBytes: nat
    var fragmentCount: nat
    var closed: bool
    /** The calls of the adapter's callbacks so far. */
    var calls: seq<P.Event>

    ghost predicate Buffers()
      reads this
    {
      off + len <= buf.Length && buf != msg
    }

    ghost predicate Fragments()
      reads this
    {
      && fragmentBytes <= msg.Length && fragmentOpcode >= -1
      && (fragmentOpcode == -1 ==> fragmentCount == 0) && (fragmentCount == 0 ==> fragmentBytes == 0)
    }

    ghost predicate Valid()
      reads this
    {
      Buffers() && (!closed ==> Fragments())
    }

    ghost function Pending(): Bytes
      reads this, buf
      requires Buffers()
    {
      buf[off..off + len]
    }

    ghost function Assembled(): P.Assembly
      reads this, msg
      requires Fragments()
    {
      P.Assembly(if fragmentOpcode == -1 then None else Some(fragmentOpcode), msg[..fragmentBytes], fragmentCount)
    }

    ghost function State(): P.Sink
      reads this, buf, msg
      requires Valid()
    {
      if closed then P.Shut(calls) else P.Open(Pending(), Assembled(), calls)
    }

    constructor (o: P.Options)
      ensures Valid() && this.o == o && State() == P.FRESH && fresh(buf) && fresh(msg)
    {
      this.o := o;
      buf, off, len := new byte[0], 0, 0;
      msg, fragmentOpcode, fragmentBytes, fragmentCount := new byte[0], -1, 0, 0;
      closed, calls := false, [];
    }

    /** Room for `need` bytes from `off` on: move the live bytes to the front, or double. */
    method MakeRoom(need: nat)
      requires Buffers() && len <= need
      modifies this`buf, this`off, buf
      ensures Buffers() && Pending() == old(Pending()) && off + need <= buf.Length
      ensures buf == old(buf) || fresh(buf)
      ensures old(off) + need <= old(buf.Length) || (need <= old(buf.Length) && old(off) >= len) ==> buf == old(buf)
      ensures buf != old(buf) ==> buf.Length == Max(need, old(buf.Length) * 2)
    {
      if off + need > buf.Length {
        if need <= buf.Length && off >= len {
          Copy(buf, off, len, buf, 0);
        } else {
          var next := new byte[Max(need, buf.Length * 2)];
          Copy(buf, off, len, next, 0);
          buf := next;
        }
        off := 0;
      }
    }

    /** `append` (lines 1391-1407). */
    method Append(chunk: array<byte>)
      requires Buffers() && chunk != buf
      modifies this`buf, this`off, this`len, buf
      ensures Buffers() && Pending() == old(Pending()) + chunk[..]
      ensures buf == old(buf) || fresh(buf)
      ensures buf != old(buf) ==> buf.Length == Max(old(len) + chunk.Length, old(buf.Length) * 2)
    {
      var need := len + chunk.Length;
      MakeRoom(need);
      ghost var pending := Pending();
      Copy(chunk, 0, chunk.Length, buf, off + len);
      assert buf[off..off + len] == buf[..off + len][off..] == pending;
      assert buf[off..off + need] == buf[off..off + len] + buf[off + len..off + len + chunk.Length];
      len := need;
    }

    method Release()
      requires Buffers()
      modifies this`buf, this`off, this`len, this`msg
      ensures Buffers() && fresh(buf) && fresh(msg)
    {
      buf, off, len := new byte[0], 0, 0;
      msg := new byte[0];
    }

    /** Parses the next frame off the input. */
    method NextFrame() returns (r: Parsed)
      requires Buffers() && Fragments()
      modifies this`off, this`len, buf
      ensures Buffers() && Assembled() == old(Assembled())
      ensures match Parse(old(Pending()), o.limits)
              case Incomplete => r == MoreNeeded && Pending() == old(Pending())
              case Failed(failure) => r == Broken(failure)
              case Complete(f, n) =>
                && r.View? && r.fin == f.fin && r.opcode == f.opcode && r.start <= r.end <= buf.Length
                && buf[r.start..r.end] == f.payload && Pending() == old(Pending())[n..] && len == old(len) - n
    {
      ghost var was, s := buf[..], Pending();
      r := ParseFrame(buf, off, len, o.limits, s);
      PendingAfter(r, was, buf[..], off, len, s, Parse(s, o.limits));
      if r.View? {
        assert buf[r.start..r.end] == buf[..][r.start..r.end] && buf[r.end..off + len] == buf[..][r.end..off + len];
        len := len - (r.end - off);
        off := r.end;
      }
    }

    lemma PendingAfter(r: Parsed, was: Bytes, now: Bytes, off: nat, len: nat, s: Bytes, outcome: Outcome)
      requires off + len <= |was| && s == was[off..off + len] && Reflects(r, was, now, off, outcome)
      requires outcome.Complete? ==> outcome.consumed <= len
      ensures |now| == |was|
      ensures match outcome
              case Complete(f, n) => r.end == off + n <= off + len && now[r.end..off + len] == s[n..]
              case _ => now == was
    {
      if r.View? { SuffixOfPending(was, now, off, len, r.end); }
    }

    lemma SuffixOfPending(was: Bytes, now: Bytes, off: nat, len: nat, end: nat)
      requires off <= end <= off + len <= |was| == |now| && now[end..] == was[end..]
      ensures now[end..off + len] == was[off..off + len][end - off..]
    {
      assert now[end..off + len] == now[end..][..off + len - end];
      assert was[end..off + len] == was[end..][..off + len - end];
    }

    /** `assertMessageSize` (lines 1497-1504). */
    method AssertMessageSize(next: nat) returns (e: Option<Failure>)
      modifies this`fragmentBytes
      ensures var limit, total := o.limits.maxPayload, old(fragmentBytes) + next;
        if limit.Some? && total > limit.value
        then e == Some(TooLarge(limit.value, total)) && fragmentBytes == old(fragmentBytes)
        else e == None && fragmentBytes == total
    {
      var total := fragmentBytes + next;
      if o.limits.maxPayload.Some? && total > o.limits.maxPayload.value {
        return Some(TooLarge(o.limits.maxPayload.value, total));
      }
      fragmentBytes := total;
      return None;
    }

    /** `appendFragment` (lines 1483-1495): the size already counts the new bytes. */
    method AppendFragment(start: nat, end: nat)
      requires Buffers() && start <= end <= buf.Length
      requires end - start <= fragmentBytes && fragmentBytes - (end - start) <= msg.Length
      modifies this`msg, msg
      ensures Buffers() && fragmentBytes <= msg.Length && (msg == old(msg) || fresh(msg))
      ensures msg[..fragmentBytes] == old(msg[..fragmentBytes - (end - start)]) + buf[start..end]
      ensures o.limits.maxPayload.Some? ==>
        msg.Length <= Max(old(msg.Length), Max(fragmentBytes, o.limits.maxPayload.value))
    {
      var at := fragmentBytes - (end - start);
      if fragmentBytes > msg.Length {
        var cap := Max(fragmentBytes, msg.Length * 2);
        if o.limits.maxPayload.Some? && cap > o.limits.maxPayload.value {
          cap := Max(fragmentBytes, o.limits.maxPayload.value);
        }
        var next := new byte[cap];
        Copy(msg, 0, at, next, 0);
        msg := next;
      }
      ghost var kept := msg[..at];
      Copy(buf, start, end - start, msg, at);
      assert msg[..fragmentBytes] == msg[..at] + msg[at..fragmentBytes];
    }

    /** The data branch of `handle` (lines 1433-1480) on the payload `buf[start..end]`. */
    method HandleData(fin: bool, opcode: nat, start: nat, end: nat) returns (exit: Exit)
      requires Valid() && !closed && start <= end <= buf.Length
      modifies this`msg, this`fragmentOpcode, this`fragmentBytes, this`fragmentCount, this`calls, msg
      ensures Buffers() && (msg == old(msg) || fresh(msg))
      ensures match P.HandleData(o, old(Assembled()), Frame(fin, opcode, old(buf[start..end])))
              case Kept(a, events) => exit == Returns && Fragments() && Assembled() == a && calls == old(calls) + events
              case Raised(failure) => exit == Raises(failure) && calls == old(calls)
              case _ => false
    {
      ghost var a, payload := Assembled(), buf[start..end];
      if opcode == CONTINUATION {
        if fragmentOpcode == -1 { return Raises(Violation); }
      } else {
        if fragmentOpcode != -1 { return Raises(Violation); }
        fragmentOpcode := opcode;
      }
      fragmentCount := fragmentCount + 1;
      if fragmentCount > o.maxFragments { return Raises(Violation); }
      var e := AssertMessageSize(end - start);
      if e.Some? { return Raises(e.value); }
      var joined: Bytes;
      if fin && fragmentCount == 1 {
        joined := buf[start..end];
        assert a.bytes + payload == payload;
      } else {
        if end - start > 0 {
          AppendFragment(start, end);
        } else {
          assert a.bytes + payload == a.bytes;
        }
        assert msg[..fragmentBytes] == a.bytes + payload;
        if !fin { return Returns; }
        joined := msg[..fragmentBytes];
      }
      exit := Deliver(joined);
    }

    /** The end of a message (lines 1464-1479). */
    method Deliver(joined: Bytes) returns (exit: Exit)
      requires Buffers() && fragmentOpcode >= 0
      modifies this`msg, this`fragmentOpcode, this`fragmentBytes, this`fragmentCount, this`calls
      ensures Buffers() && fresh(msg)
      ensures match P.Delivered(o, old(fragmentOpcode), joined)
              case Some(message) =>
                exit == Returns && Fragments() && Assembled() == P.IDLE && calls == old(calls) + [message]
              case None => exit == Raises(Violation) && calls == old(calls)
    {
      var isBinary := fragmentOpcode == BINARY;
      msg := new byte[0];
      fragmentOpcode, fragmentBytes, fragmentCount := -1, 0, 0;
      if isBinary {
        calls := calls + [P.BinaryMessage(joined)];
      } else {
        var text := P.Utf8(o, joined);
        if text.None? { return Raises(Violation); }
        calls := calls + [P.TextMessage(text.value)];
      }
      return Returns;
    }

    /** The control branch of `handle` (lines 1417-1431). */
    method HandleControl(opcode: nat, start: nat, end: nat) returns (exit: Exit)
      requires Valid() && !closed && start <= end <= buf.Length && KnownControl(opcode)
      modifies this`buf, this`off, this`len, this`msg, this`closed, this`calls
      ensures Valid() && (buf == old(buf) || fresh(buf)) && (msg == old(msg) || fresh(msg))
      ensures match P.Handle(o, old(Assembled()), Frame(true, opcode, old(buf[start..end])))
              case Kept(a, events) =>
                && exit == Returns && !closed && Assembled() == a && calls == old(calls) + events
                && Pending() == old(Pending()) && len == old(len)
              case Raised(failure) => exit == Raises(failure) && calls == old(calls)
              case Ended(code, reason) =>
                exit == Returns && closed && calls == old(calls) + [P.CloseReceived(code, reason)]
              case Thrown =>
                && exit == Escapes && !closed && Assembled() == old(Assembled())
                && Pending() == old(Pending()) && calls == old(calls)
    {
      var copy := buf[start..end];
      if opcode == CLOSE {
        match P.HandleClose(o, copy)
        case Raised(failure) => return Raises(failure);
        case Thrown => return Escapes;
        case Ended(code, reason) =>
          closed := true;
          Release();
          calls := calls + [P.CloseReceived(code, reason)];
      } else if opcode == PING {
        calls := calls + [P.PingReceived(copy)];
      } else {
        calls := calls + [P.PongReceived(copy)];
      }
      return Returns;
    }

    /** `handle` (lines 1416-1480). */
    method HandleFrame(fin: bool, opcode: nat, start: nat, end: nat) returns (exit: Exit)
      requires Valid() && !closed && start <= end <= buf.Length
      requires IsControl(opcode) ==> fin && KnownControl(opcode)
      modifies this, msg
      ensures Buffers() && (buf == old(buf) || fresh(buf)) && (msg == old(msg) || fresh(msg))
      ensures match P.Handle(o, old(Assembled()), Frame(fin, opcode, old(buf[start..end])))
              case Kept(a, events) =>
                && exit == Returns && !closed && Fragments() && Assembled() == a && calls == old(calls) + events
                && Pending() == old(Pending()) && len == old(len)
              case Raised(failure) => exit == Raises(failure) && calls == old(calls)
              case Ended(code, reason) =>
                exit == Returns && closed && calls == old(calls) + [P.CloseReceived(code, reason)]
              case Thrown =>
                && exit == Escapes && !closed && Fragments() && Assembled() == old(Assembled())
                && Pending() == old(Pending()) && calls == old(calls)
    {
      if IsControl(opcode) {
        exit := HandleControl(opcode, start, end);
      } else {
        exit := HandleData(fin, opcode, start, end);
      }
    }

    /** The `catch` of `push` (lines 1380-1387). */
    method Fail(failure: Failure)
      requires Buffers()
      modifies this`buf, this`off, this`len, this`msg, this`closed, this`calls
      ensures Valid() && fresh(buf) && fresh(msg) && closed && calls == old(calls) + [P.ErrorDetected(failure)]
    {
      closed := true;
      Release();
      calls := calls + [P.ErrorDetected(failure)];
    }

    /** One turn of the loop in `push` that found a frame. */
    method Turn(r: Parsed, ghost f: Frame) returns (more: bool, thrown: bool)
      requires Valid() && !closed && r.View? && r.start <= r.end <= buf.Length
      requires f == Frame(r.fin, r.opcode, buf[r.start..r.end])
      requires IsControl(r.opcode) ==> r.fin && KnownControl(r.opcode)
      modifies this, msg
      ensures Valid() && (buf == old(buf) || fresh(buf)) && (msg == old(msg) || fresh(msg))
      ensures more <==> P.Handle(o, old(Assembled()), f).Kept?
      ensures more ==> !closed && !thrown && len == old(len)
      ensures match P.Handle(o, old(Assembled()), f)
              case Kept(a, events) => State() == P.Open(old(Pending()), a, old(calls) + events)
              case Raised(failure) => State() == P.Shut(old(calls) + [P.ErrorDetected(failure)]) && !thrown
              case Ended(code, reason) => State() == P.Shut(old(calls) + [P.CloseReceived(code, reason)]) && !thrown
              case Thrown => State() == old(State()) && thrown
    {
      var exit := HandleFrame(r.fin, r.opcode, r.start, r.end);
      if exit.Raises? { Fail(exit.failure); }
      more, thrown := exit.Returns? && !closed, exit.Escapes?;
    }

    /** `push` (lines 1355-1389); the result says that an error left it uncaught. */
    method Push(chunk: array<byte>) returns (thrown: bool)
      requires Valid() && chunk != buf && chunk != msg
      modifies this, buf, msg
      ensures Valid() && (buf == old(buf) || fresh(buf)) && (msg == old(msg) || fresh(msg))
      ensures (State(), thrown) == P.Push(o, old(State()), old(chunk[..]))
    {
      if closed { return false; }
      Take(chunk);
      ghost var goal := P.Drain(o, State());
      var more := true;
      thrown := false;
      while more && len > 0
        invariant Valid() && (buf == old(buf) || fresh(buf)) && (msg == old(msg) || fresh(msg))
        invariant if more then !closed && !thrown && P.Drain(o, State()) == goal else (State(), thrown) == goal
        decreases more, len
      {
        more, thrown := ReadFrame();
      }
      if more {
        assert Pending() == [];
        buf, off := new byte[0], 0;
      }
    }

    /** One turn of the loop in `push`: parse a frame, handle it. */
    method ReadFrame() returns (more: bool, thrown: bool)
      requires Valid() && !closed
      modifies this, buf, msg
      ensures Valid() && (buf == old(buf) || fresh(buf)) && (msg == old(msg) || fresh(msg))
      ensures if more then !closed && !thrown && len < old(len) && P.Drain(o, State()) == P.Drain(o, old(State()))
              else (State(), thrown) == P.Drain(o, old(State()))
    {
      FramesAreKnown(Pending(), o.limits);
      var frame := NextFrame();
      match frame
      case MoreNeeded => more, thrown := false, false;
      case Broken(failure) =>
        Fail(failure);
        more, thrown := false, false;
      case View(_, _, _, _) =>
        more, thrown := Turn(frame, Frame(frame.fin, frame.opcode, buf[frame.start..frame.end]));
    }

    /** The new bytes become the input, or join it (lines 1357-1364). */
    method Take(chunk: array<byte>)
      requires Valid() && !closed && chunk != buf && chunk != msg
      modifies this`buf, this`off, this`len, buf
      ensures Valid() && (buf == old(buf) || fresh(buf))
      ensures State() == P.More(old(State()), chunk[..])
    {
      if len == 0 {
        buf := new byte[chunk.Length];
        Copy(chunk, 0, chunk.Length, buf, 0);
        off, len := 0, chunk.Length;
      } else {
        Append(chunk);
      }
    }
  }
}
