/**
 * What `FrameSink` of src/websocket.ts does with a byte stream, as functions of its state.
 *
 * The adapter's callbacks are a list of events, in the order of the calls.
 */
module FrameSinkProtocol {
  import opened Common
  import opened WsFrames

  /** `utf8` is the fatal UTF-8 decoder; it gives None where that throws. */
  datatype Options = Options(limits: Limits, maxFragments: nat, utf8: Bytes -> Option<string>)

  datatype Event =
    | TextMessage(text: string)
    | BinaryMessage(data: Bytes)
    | PingReceived(payload: Bytes)
    | PongReceived(payload: Bytes)
    | CloseReceived(code: nat, reason: string)
    | ErrorDetected(failure: Failure)

  /** The message being put together; no opcode between messages. */
  datatype Assembly = Assembly(opcode: Option<nat>, bytes: Bytes, count: nat)

  const IDLE := Assembly(None, [], 0)

  datatype Sink =
    | Open(pending: Bytes, assembly: Assembly, events: seq<Event>)
    | Shut(events: seq<Event>)

  const FRESH := Open([], IDLE, [])

  /** What a frame does: go on, a protocol error, the end, or an error `push` does not catch. */
  datatype Handled =
    | Kept(assembly: Assembly, events: seq<Event>)
    | Raised(failure: Failure)
    | Ended(code: nat, reason: string)
    | Thrown

  predicate ValidWireCloseCode(code: nat) {
    (1000 <= code <= 1014 && code != 1004 && code != 1005 && code != 1006) || 3000 <= code <= 4999
  }

  function Utf8(o: Options, s: Bytes): Option<string> { (o.utf8)(s) }

  /** `decodeClosePayload` inside `handle`: a reason that is not UTF-8 raises a TypeError. */
  function HandleClose(o: Options, p: Bytes): Handled {
    if |p| == 0 then Ended(1005, "")
    else if |p| == 1 then Raised(Violation)
    else
      var code := p[0] as nat * 256 + p[1] as nat;
      if !ValidWireCloseCode(code) then Raised(Violation)
      else match Utf8(o, p[2..]) case Some(reason) => Ended(code, reason) case None => Thrown
  }

  /** The message callback, or None when a text message is not UTF-8. */
  function Delivered(o: Options, opcode: nat, data: Bytes): Option<Event> {
    if opcode == BINARY then Some(BinaryMessage(data))
    else match Utf8(o, data) case Some(text) => Some(TextMessage(text)) case None => None
  }

  function HandleData(o: Options, a: Assembly, f: Frame): Handled {
    if f.opcode == CONTINUATION && a.opcode.None? then Raised(Violation)
    else if f.opcode != CONTINUATION && a.opcode.Some? then Raised(Violation)
    else if a.count + 1 > o.maxFragments then Raised(Violation)
    else if o.limits.maxPayload.Some? && |a.bytes| + |f.payload| > o.limits.maxPayload.value then
      Raised(TooLarge(o.limits.maxPayload.value, |a.bytes| + |f.payload|))
    else
      var opcode := if f.opcode == CONTINUATION then a.opcode.value else f.opcode;
      if !f.fin then Kept(Assembly(Some(opcode), a.bytes + f.payload, a.count + 1), [])
      else
        match Delivered(o, opcode, a.bytes + f.payload)
        case Some(message) => Kept(IDLE, [message])
        case None => Raised(Violation)
  }

  function Handle(o: Options, a: Assembly, f: Frame): Handled {
    if IsControl(f.opcode) then
      if f.opcode == CLOSE then HandleClose(o, f.payload)
      else if f.opcode == PING then Kept(a, [PingReceived(f.payload)])
      else Kept(a, [PongReceived(f.payload)])
    else HandleData(o, a, f)
  }

  /** The loop of `push`; the flag says that an error left it uncaught. */
  function Drain(o: Options, s: Sink): (Sink, bool)
    decreases if s.Open? then 1 + |s.pending| else 0
  {
    match s
    case Shut(_) => (s, false)
    case Open(pending, a, events) =>
      match Parse(pending, o.limits)
      case Incomplete => (s, false)
      case Failed(failure) => (Shut(events + [ErrorDetected(failure)]), false)
      case Complete(f, n) =>
        match Handle(o, a, f)
        case Kept(a', more) => Drain(o, Open(pending[n..], a', events + more))
        case Raised(failure) => (Shut(events + [ErrorDetected(failure)]), false)
        case Ended(code, reason) => (Shut(events + [CloseReceived(code, reason)]), false)
        case Thrown => (Open(pending[n..], a, events), true)
  }

  function More(s: Sink, chunk: Bytes): Sink {
    match s case Open(pending, a, events) => Open(pending + chunk, a, events) case Shut(_) => s
  }

  function Push(o: Options, s: Sink, chunk: Bytes): (Sink, bool) { Drain(o, More(s, chunk)) }

  /** A caller that goes on pushing, whatever `push` throws. */
  function PushAll(o: Options, s: Sink, chunks: seq<Bytes>): Sink
    decreases |chunks|
  {
    if chunks == [] then s else PushAll(o, Push(o, s, chunks[0]).0, chunks[1..])
  }

  function Flat(chunks: seq<Bytes>): Bytes {
    if chunks == [] then [] else chunks[0] + Flat(chunks[1..])
  }

  // ----- chunking -----

  /** Nothing is left that could be handled without more bytes. */
  predicate Settled(o: Options, s: Sink) {
    s.Shut? || Parse(s.pending, o.limits) == Incomplete
  }

  lemma {:induction false} CaughtMeansSettled(o: Options, s: Sink)
    ensures !Drain(o, s).1 ==> Settled(o, Drain(o, s).0)
    decreases if s.Open? then 1 + |s.pending| else 0
  {
    if s.Open? && Parse(s.pending, o.limits).Complete? {
      var Complete(f, n) := Parse(s.pending, o.limits);
      var h := Handle(o, s.assembly, f);
      if h.Kept? { CaughtMeansSettled(o, Open(s.pending[n..], h.assembly, s.events + h.events)); }
    }
  }

  /** Draining before the rest arrives, and again after, is draining once at the end. */
  lemma {:induction false} DrainThenMore(o: Options, s: Sink, t: Bytes)
    ensures var (s', threw) := Drain(o, s);
      Drain(o, More(s, t)) == if threw then (More(s', t), true) else Push(o, s', t)
    decreases if s.Open? then 1 + |s.pending| else 0
  {
    if s.Open? && Parse(s.pending, o.limits) != Incomplete {
      MoreBytesChangeNothing(s.pending, t, o.limits);
      if Parse(s.pending, o.limits).Complete? {
        var Complete(f, n) := Parse(s.pending, o.limits);
        assert (s.pending + t)[n..] == s.pending[n..] + t;
        var h := Handle(o, s.assembly, f);
        if h.Kept? { DrainThenMore(o, Open(s.pending[n..], h.assembly, s.events + h.events), t); }
      }
    }
  }

  lemma MoreTwice(s: Sink, t: Bytes, u: Bytes)
    ensures More(More(s, t), u) == More(s, t + u)
  {
    if s.Open? { assert s.pending + t + u == s.pending + (t + u); }
  }

  /** Chunks that leave the input incomplete only pile up. */
  lemma {:induction false} IncompletePilesUp(o: Options, s: Sink, chunks: seq<Bytes>)
    requires Settled(o, More(s, Flat(chunks)))
    ensures PushAll(o, s, chunks) == More(s, Flat(chunks))
    decreases |chunks|
  {
    if chunks == [] {
      if s.Open? { assert s.pending + [] == s.pending; }
    } else {
      var s' := More(s, chunks[0]);
      MoreTwice(s, chunks[0], Flat(chunks[1..]));
      if s.Open? { MoreBytesChangeNothing(s'.pending, Flat(chunks[1..]), o.limits); }
      IncompletePilesUp(o, s', chunks[1..]);
    }
  }

  lemma {:induction false} SettledIsChunkFree(o: Options, s: Sink, chunks: seq<Bytes>)
    requires Settled(o, s) && Settled(o, Push(o, s, Flat(chunks)).0)
    ensures PushAll(o, s, chunks) == Push(o, s, Flat(chunks)).0
    decreases |chunks|
  {
    if chunks == [] {
      if s.Open? { assert s.pending + [] == s.pending; }
    } else {
      var rest := Flat(chunks[1..]);
      var (s', threw) := Push(o, s, chunks[0]);
      DrainThenMore(o, More(s, chunks[0]), rest);
      MoreTwice(s, chunks[0], rest);
      if threw {
        IncompletePilesUp(o, s', chunks[1..]);
      } else {
        CaughtMeansSettled(o, More(s, chunks[0]));
        SettledIsChunkFree(o, s', chunks[1..]);
      }
    }
  }

  lemma UnsettledMoves(o: Options, s: Sink)
    requires !Settled(o, s)
    ensures Drain(o, s).0 != s
  {
    var r := Parse(s.pending, o.limits);
    if r.Complete? {
      var h := Handle(o, s.assembly, r.frame);
      if h.Kept? { DrainShrinks(o, Open(s.pending[r.consumed..], h.assembly, s.events + h.events)); }
    }
  }

  lemma {:induction false} DrainShrinks(o: Options, s: Sink)
    ensures var s' := Drain(o, s).0; s'.Open? ==> s.Open? && |s'.pending| <= |s.pending|
    decreases if s.Open? then 1 + |s.pending| else 0
  {
    if s.Open? && Parse(s.pending, o.limits).Complete? {
      var Complete(f, n) := Parse(s.pending, o.limits);
      var h := Handle(o, s.assembly, f);
      if h.Kept? { DrainShrinks(o, Open(s.pending[n..], h.assembly, s.events + h.events)); }
    }
  }

  // ----- whole messages -----

  /** Handling a list of frames that neither fails nor ends the stream. */
  function HandleAll(o: Options, a: Assembly, fs: seq<Frame>): Option<(Assembly, seq<Event>)>
    decreases |fs|
  {
    if fs == [] then Some((a, []))
    else
      match Handle(o, a, fs[0])
      case Kept(a', events) =>
        (match HandleAll(o, a', fs[1..])
         case Some((a'', more)) => Some((a'', events + more))
         case None => None)
      case _ => None
  }

  /**
   * Which error a data frame is, sections 5.4 and 7.1.7: out of turn, one frame too many, too many
   * bytes in all (with the limit and that number), or, at the end of a text, not UTF-8.
   */
  lemma DataFrameErrors(o: Options, a: Assembly, f: Frame)
    requires f.opcode in {0x0, 0x1, 0x2}
    ensures var outOfTurn := if a.opcode.None? then f.opcode == 0x0 else f.opcode != 0x0;
      var bytes := a.bytes + f.payload;
      var tooLong := o.limits.maxPayload.Some? && |bytes| > o.limits.maxPayload.value;
      && (outOfTurn || a.count >= o.maxFragments ==> Handle(o, a, f) == Raised(Violation))
      && (!outOfTurn && a.count < o.maxFragments && tooLong ==>
            Handle(o, a, f) == Raised(TooLarge(o.limits.maxPayload.value, |bytes|)))
      && (!outOfTurn && a.count < o.maxFragments && !tooLong ==>
            var text := if f.opcode == 0x0 then a.opcode != Some(0x2) else f.opcode == 0x1;
            if f.fin && text && Utf8(o, bytes).None? then Handle(o, a, f) == Raised(Violation)
            else Handle(o, a, f).Kept?)
  {
  }

  /** Frames on the wire are handled one after the other. */
  lemma {:induction false} DrainReadsStream(o: Options, list: seq<Sent>, rest: Bytes, a: Assembly, events: seq<Event>)
    requires forall m :: m in list ==> Acceptable(m, o.limits)
    requires HandleAll(o, a, FramesOf(list)).Some?
    ensures var (a', more) := HandleAll(o, a, FramesOf(list)).value;
      Drain(o, Open(Stream(list) + rest, a, events)) == Drain(o, Open(rest, a', events + more))
    decreases |list|
  {
    if list == [] {
      assert Stream(list) + rest == rest && events + [] == events;
    } else {
      var m := list[0];
      var tail := Stream(list[1..]) + rest;
      assert FramesOf(list)[1..] == FramesOf(list[1..]);
      var h := Handle(o, a, FrameOf(m));
      var (_, more) := HandleAll(o, h.assembly, FramesOf(list[1..])).value;
      DrainReadsStream(o, list[1..], rest, h.assembly, events + h.events);
      assert Acceptable(m, o.limits);
      ReadUndoesPrint(m, tail, o.limits);
      Regroup(Wire(m), Stream(list[1..]), rest);
      Regroup(events, h.events, more);
      assert (Wire(m) + tail)[|Wire(m)|..] == tail;
    }
  }

  /** What may come before the last frame of a message. */
  datatype Piece = Data(bytes: Bytes) | Ping(payload: Bytes) | Pong(payload: Bytes)

  function DataOf(pieces: seq<Piece>): Bytes {
    if pieces == [] then []
    else (if pieces[0].Data? then pieces[0].bytes else []) + DataOf(pieces[1..])
  }

  function FragmentCount(pieces: seq<Piece>): nat {
    if pieces == [] then 0 else (if pieces[0].Data? then 1 else 0) + FragmentCount(pieces[1..])
  }

  function ControlEvents(pieces: seq<Piece>): seq<Event> {
    if pieces == [] then []
    else
      (match pieces[0] case Data(_) => [] case Ping(p) => [PingReceived(p)] case Pong(p) => [PongReceived(p)])
      + ControlEvents(pieces[1..])
  }

  /** The frames of one message (section 5.4): its opcode first, continuations after it, FIN on the last. */
  function MessageFrames(opcode: nat, started: bool, pieces: seq<Piece>, last: Bytes): seq<Frame>
    decreases |pieces|
  {
    if pieces == [] then [Frame(true, if started then 0x0 else opcode, last)]
    else
      match pieces[0]
      case Data(b) => [Frame(false, if started then 0x0 else opcode, b)] +
          MessageFrames(opcode, true, pieces[1..], last)
      case Ping(p) => [Frame(true, 0x9, p)] + MessageFrames(opcode, started, pieces[1..], last)
      case Pong(p) => [Frame(true, 0xA, p)] + MessageFrames(opcode, started, pieces[1..], last)
  }

  /** The message as a whole keeps to the limits, and is UTF-8 if it is text. */
  predicate Fits(o: Options, opcode: nat, count: nat, data: Bytes) {
    && count <= o.maxFragments
    && (o.limits.maxPayload.Some? ==> |data| <= o.limits.maxPayload.value)
    && (opcode == 0x1 ==> Utf8(o, data).Some?)
  }

  /** What the adapter gets: the bytes of a binary message, the decoded text of a text message. */
  function Message(o: Options, opcode: nat, data: Bytes): Event
    requires opcode == 0x1 ==> Utf8(o, data).Some?
  {
    if opcode == 0x1 then TextMessage(Utf8(o, data).value) else BinaryMessage(data)
  }

  /** A message under way: nothing yet, or the opcode with the bytes and frames so far. */
  predicate UnderWay(a: Assembly, opcode: nat, started: bool) {
    if started then a.opcode == Some(opcode) else a == IDLE
  }

  lemma LastHandled(o: Options, a: Assembly, opcode: nat, started: bool, last: Bytes)
    requires opcode == 0x1 || opcode == 0x2
    requires UnderWay(a, opcode, started)
    ensures var data, r := a.bytes + (DataOf([]) + last), HandleAll(o, a, MessageFrames(opcode, started, [], last));
      if Fits(o, opcode, a.count + 1, data)
      then r == Some((IDLE, ControlEvents([]) + [Message(o, opcode, data)]))
      else r == None
  {
    assert [] + last == last;
    var f := MessageFrames(opcode, started, [], last)[0];
    var h := Handle(o, a, f);
    assert MessageFrames(opcode, started, [], last) == [f] && [f][1..] == [];
    if h.Kept? {
      assert h == Kept(IDLE, [Message(o, opcode, a.bytes + last)]);
      assert HandleAll(o, IDLE, []) == Some((IDLE, []));
      assert h.events + [] == [] + h.events;
    }
  }

  lemma {:induction false} MessageHandled(o: Options, a: Assembly, opcode: nat, started: bool,
                                          pieces: seq<Piece>, last: Bytes)
    requires opcode == 0x1 || opcode == 0x2
    requires UnderWay(a, opcode, started)
    ensures var data := a.bytes + (DataOf(pieces) + last);
      var r := HandleAll(o, a, MessageFrames(opcode, started, pieces, last));
      if Fits(o, opcode, a.count + FragmentCount(pieces) + 1, data)
      then r == Some((IDLE, ControlEvents(pieces) + [Message(o, opcode, data)]))
      else r == None
    decreases |pieces|
  {
    var fs := MessageFrames(opcode, started, pieces, last);
    if pieces == [] {
      LastHandled(o, a, opcode, started, last);
    } else {
      var p, rest := pieces[0], pieces[1..];
      assert fs[1..] == MessageFrames(opcode, started || p.Data?, rest, last);
      var h := Handle(o, a, fs[0]);
      if p.Data? {
        Regroup(p.bytes, DataOf(rest), last);
        Regroup(a.bytes, p.bytes, DataOf(rest) + last);
      } else {
        assert [] + DataOf(rest) == DataOf(rest);
      }
      if h.Kept? {
        var data := h.assembly.bytes + (DataOf(rest) + last);
        assert data == a.bytes + (DataOf(pieces) + last);
        MessageHandled(o, h.assembly, opcode, started || p.Data?, rest, last);
        if opcode == 0x1 ==> Utf8(o, data).Some? {
          Regroup(h.events, ControlEvents(rest), [Message(o, opcode, data)]);
        }
      } else {
        assert p.Data? && |a.bytes + (DataOf(pieces) + last)| >= |a.bytes| + |p.bytes|;
      }
    }
  }

  lemma PushOfStream(o: Options, list: seq<Sent>, events: seq<Event>)
    requires forall m :: m in list ==> Acceptable(m, o.limits)
    requires HandleAll(o, IDLE, FramesOf(list)) == Some((IDLE, events))
    ensures Push(o, FRESH, Stream(list)) == (Open([], IDLE, events), false)
  {
    DrainReadsStream(o, list, [], IDLE, []);
    assert Stream(list) + [] == Stream(list) && [] + Stream(list) == Stream(list) && [] + events == events;
  }

  /**
   * A message in any number of fragments, with pings and pongs between them, printed by the
   * frame printers and cut into chunks anywhere, is delivered whole, after those control frames,
   * and the sink is then as good as new.
   */
  lemma FragmentsArriveWhole(o: Options, opcode: nat, pieces: seq<Piece>, last: Bytes, list: seq<Sent>,
                             chunks: seq<Bytes>)
    requires opcode == 0x1 || opcode == 0x2
    requires FramesOf(list) == MessageFrames(opcode, false, pieces, last)
    requires forall m :: m in list ==> Acceptable(m, o.limits)
    requires Fits(o, opcode, FragmentCount(pieces) + 1, DataOf(pieces) + last)
    requires Flat(chunks) == Stream(list)
    ensures PushAll(o, FRESH, chunks)
         == Open([], IDLE, ControlEvents(pieces) + [Message(o, opcode, DataOf(pieces) + last)])
  {
    var events := ControlEvents(pieces) + [Message(o, opcode, DataOf(pieces) + last)];
    assert [] + (DataOf(pieces) + last) == DataOf(pieces) + last;
    MessageHandled(o, IDLE, opcode, false, pieces, last);
    PushOfStream(o, list, events);
    CaughtIsChunkFree(o, chunks);
  }

  // ----- close frames -----

  /** The codes that may stand in a close frame (section 7.4 of RFC 6455). */
  predicate MayClose(code: nat) {
    1000 <= code <= 1003 || 1007 <= code <= 1014 || 3000 <= code <= 4999
  }

  /** A good code in two bytes, high byte first, and behind it something that is not UTF-8. */
  predicate BadReason(o: Options, p: Bytes) {
    |p| >= 2 && MayClose(p[0] as nat * 256 + p[1] as nat) && Utf8(o, p[2..]).None?
  }

  /** What a close frame tells the adapter: that the peer has closed, or a protocol error. */
  function Closing(o: Options, p: Bytes): Event
    requires !BadReason(o, p)
  {
    if p == [] then CloseReceived(1005, "")
    else if |p| == 1 || !MayClose(p[0] as nat * 256 + p[1] as nat) then ErrorDetected(Violation)
    else CloseReceived(p[0] as nat * 256 + p[1] as nat, Utf8(o, p[2..]).value)
  }

  lemma HandleCloseMeans(o: Options, p: Bytes)
    ensures HandleClose(o, p) == Thrown <==> BadReason(o, p)
    ensures !BadReason(o, p) ==>
      HandleClose(o, p) == match Closing(o, p)
                           case CloseReceived(code, reason) => Ended(code, reason)
                           case _ => Raised(Violation)
  {
  }

  /**
   * A close frame, printed and cut into chunks anywhere, whatever has come before and whatever
   * follows, shuts the sink and tells the adapter that, unless its reason is bad.
   */
  lemma CloseArrives(o: Options, a: Assembly, events: seq<Event>, m: Sent, rest: Bytes, chunks: seq<Bytes>)
    requires Acceptable(m, o.limits) && m.first as nat % 16 == 0x8 && !BadReason(o, m.payload)
    requires Flat(chunks) == Wire(m) + rest
    ensures PushAll(o, Open([], a, events), chunks) == Shut(events + [Closing(o, m.payload)])
  {
    var s, bytes := Open([], a, events), Wire(m) + rest;
    assert [] + bytes == bytes;
    ReadUndoesPrint(m, rest, o.limits);
    HandleCloseMeans(o, m.payload);
    EmptyIsIncomplete(o);
    hide Wire, HandleClose, Closing, BadReason;
    SettledIsChunkFree(o, s, chunks);
  }

  /** For a code and a reason: they are the ones delivered, and other codes are violations. */
  lemma CodeAndReasonArrive(o: Options, m: Sent, code: nat, reason: Bytes, chunks: seq<Bytes>)
    requires Acceptable(m, o.limits) && m.first as nat % 16 == 0x8 && Flat(chunks) == Wire(m)
    requires code < 0x1_0000 && m.payload == BigEndian(code, 2) + reason
    ensures MayClose(code) && Utf8(o, reason).Some? ==>
      PushAll(o, FRESH, chunks) == Shut([CloseReceived(code, Utf8(o, reason).value)])
    ensures !MayClose(code) ==> PushAll(o, FRESH, chunks) == Shut([ErrorDetected(Violation)])
  {
    var p := m.payload;
    assert Pow256(2) == 0x1_0000;
    ValueOfBigEndian(code, 2);
    ValueOfTwo(BigEndian(code, 2));
    assert p[2..] == reason && p[0] as nat * 256 + p[1] as nat == code;
    assert Wire(m) + [] == Wire(m);
    if !BadReason(o, p) { CloseArrives(o, IDLE, [], m, [], chunks); }
  }

  // ----- exactly when chunking matters, on the bytes -----

  /**
   * The first `i` bytes are whole frames that are handled without an error or a close, and then
   * comes a close frame with a good code whose reason is not UTF-8.
   */
  predicate BadCloseAt(o: Options, a: Assembly, s: Bytes, i: nat) {
    && i <= |s|
    && ReadAll(s[..i], o.limits).1 == [] && HandleAll(o, a, ReadAll(s[..i], o.limits).0).Some?
    && Parse(s[i..], o.limits).Complete?
    && Parse(s[i..], o.limits).frame.opcode == CLOSE
    && BadReason(o, Parse(s[i..], o.limits).frame.payload)
  }

  /** The bytes behind the frame at `i`. */
  function BehindFrame(o: Options, s: Bytes, i: nat): Bytes
    requires i <= |s| && Parse(s[i..], o.limits).Complete?
  {
    s[i..][Parse(s[i..], o.limits).consumed..]
  }

  lemma FirstFrame(o: Options, a: Assembly, s: Bytes, i: nat)
    requires 0 < i && BadCloseAt(o, a, s, i)
    ensures var r := Parse(s, o.limits);
      && r.Complete? && r.consumed <= i && Handle(o, a, r.frame).Kept?
      && var rest := s[r.consumed..];
         && BadCloseAt(o, Handle(o, a, r.frame).assembly, rest, i - r.consumed)
         && BehindFrame(o, rest, i - r.consumed) == BehindFrame(o, s, i)
  {
    hide Parse, Handle, HandleClose;
    var p := s[..i];
    assert s == p + s[i..];
    MoreBytesChangeNothing(p, s[i..], o.limits);
    EmptyIsIncomplete(o);
    var n := Parse(p, o.limits).consumed;
    assert s[n..][i - n..] == s[i..] && p[n..] == s[n..][..i - n];
    var (fs, rest) := ReadAll(p[n..], o.limits);
    assert ([Parse(p, o.limits).frame] + fs)[1..] == fs;
  }

  lemma EmptyIsIncomplete(o: Options)
    ensures Parse([], o.limits) == Incomplete
  {
  }

  lemma {:induction false} BadCloseThrows(o: Options, a: Assembly, events: seq<Event>, s: Bytes, i: nat)
    requires BadCloseAt(o, a, s, i)
    ensures var (t, threw) := Drain(o, Open(s, a, events));
      threw && t.Open? && t.pending == BehindFrame(o, s, i)
    decreases i
  {
    if i == 0 {
      assert s[0..] == s;
    } else {
      FirstFrame(o, a, s, i);
      hide BadCloseAt, Handle, BehindFrame;
      var r := Parse(s, o.limits);
      var h := Handle(o, a, r.frame);
      BadCloseThrows(o, h.assembly, events + h.events, s[r.consumed..], i - r.consumed);
    }
  }

  /** Bytes enough for a frame are enough to read it. */
  lemma EnoughBytes(s: Bytes, k: nat, limits: Limits)
    requires Parse(s, limits).Complete? && Parse(s, limits).consumed <= k <= |s|
    ensures Parse(s[..k], limits) == Parse(s, limits)
  {
    var t := s[..k];
    assert s == t + s[k..];
    MoreBytesChangeNothing(t, s[k..], limits);
  }

  lemma OneMoreFrame(o: Options, a: Assembly, s: Bytes, i: nat)
    requires Parse(s, o.limits).Complete? && Handle(o, a, Parse(s, o.limits).frame).Kept?
    requires BadCloseAt(o, Handle(o, a, Parse(s, o.limits).frame).assembly, s[Parse(s, o.limits).consumed..], i)
    ensures var n := Parse(s, o.limits).consumed;
      BadCloseAt(o, a, s, n + i) && BehindFrame(o, s, n + i) == BehindFrame(o, s[n..], i)
  {
    hide Parse, Handle, HandleAll, HandleClose, ReadAll;
    Shifted(s, Parse(s, o.limits).consumed, i);
    OneMoreRead(o, a, s, Parse(s, o.limits).frame, Parse(s, o.limits).consumed, i);
  }

  lemma OneMoreRead(o: Options, a: Assembly, s: Bytes, f: Frame, n: nat, i: nat)
    requires Parse(s, o.limits) == Complete(f, n) && Handle(o, a, f).Kept? && n + i <= |s|
    requires ReadAll(s[n..][..i], o.limits).1 == []
    requires HandleAll(o, Handle(o, a, f).assembly, ReadAll(s[n..][..i], o.limits).0).Some?
    ensures var r := ReadAll(s[..n + i], o.limits); r.1 == [] && HandleAll(o, a, r.0).Some?
  {
    hide Parse, Handle, HandleAll, ReadAll;
    var rest := s[n..][..i];
    EnoughBytes(s, n + i, o.limits);
    assert s[..n + i][n..] == rest;
    ReadAllCons(s[..n + i], f, n, rest, o.limits);
    HandleAllCons(o, a, f, ReadAll(rest, o.limits).0);
  }

  lemma HandleAllCons(o: Options, a: Assembly, f: Frame, fs: seq<Frame>)
    requires Handle(o, a, f).Kept? && HandleAll(o, Handle(o, a, f).assembly, fs).Some?
    ensures HandleAll(o, a, [f] + fs).Some?
  {
    hide Handle;
    assert ([f] + fs)[1..] == fs;
  }

  lemma Shifted(s: Bytes, n: nat, i: nat)
    requires n + i <= |s|
    ensures s[..n + i][n..] == s[n..][..i] && s[n + i..] == s[n..][i..]
  {
  }

  lemma ReadAllCons(p: Bytes, f: Frame, n: nat, rest: Bytes, limits: Limits)
    requires Parse(p, limits) == Complete(f, n) && rest == p[n..]
    ensures ReadAll(p, limits) == ([f] + ReadAll(rest, limits).0, ReadAll(rest, limits).1)
  {
  }

  lemma {:induction false} ThrownAtBadClose(o: Options, a: Assembly, events: seq<Event>, s: Bytes) returns (i: nat)
    requires Drain(o, Open(s, a, events)).1
    ensures BadCloseAt(o, a, s, i)
    ensures var t := Drain(o, Open(s, a, events)).0; t.Open? && t.pending == BehindFrame(o, s, i)
    decreases |s|
  {
    var Complete(f, n) := Parse(s, o.limits);
    var h := Handle(o, a, f);
    hide BadCloseAt, BehindFrame;
    if h.Kept? {
      i := ThrownAtBadClose(o, h.assembly, events + h.events, s[n..]);
      hide Handle, Parse;
      OneMoreFrame(o, a, s, i);
      i := n + i;
    } else {
      BadCloseFirst(o, a, s);
      i := 0;
    }
  }

  lemma BadCloseFirst(o: Options, a: Assembly, s: Bytes)
    requires Parse(s, o.limits).Complete? && Handle(o, a, Parse(s, o.limits).frame) == Thrown
    ensures BadCloseAt(o, a, s, 0) && BehindFrame(o, s, 0) == s[Parse(s, o.limits).consumed..]
  {
    ThrownIsClose(o, a, Parse(s, o.limits).frame);
    EmptyIsIncomplete(o);
    hide Parse, Handle, HandleClose;
    assert s[0..] == s && s[..0] == [];
  }

  lemma ThrownIsClose(o: Options, a: Assembly, f: Frame)
    requires Handle(o, a, f) == Thrown
    ensures f.opcode == CLOSE && HandleClose(o, f.payload) == Thrown
  {
  }

  /** One push of a whole stream throws exactly when there is such a close frame in it. */
  lemma PushThrowsIff(o: Options, bytes: Bytes)
    ensures Push(o, FRESH, bytes).1 <==> exists i :: BadCloseAt(o, IDLE, bytes, i)
  {
    assert [] + bytes == bytes;
    if Push(o, FRESH, bytes).1 { var k := ThrownAtBadClose(o, IDLE, [], bytes); }
    if i: nat :| BadCloseAt(o, IDLE, bytes, i) { BadCloseThrows(o, IDLE, [], bytes, i); }
  }

  /** The bytes behind it are a whole frame or an error. */
  predicate BadCloseHides(o: Options, bytes: Bytes, i: nat) {
    BadCloseAt(o, IDLE, bytes, i) && Parse(BehindFrame(o, bytes, i), o.limits) != Incomplete
  }

  lemma UnsettledIff(o: Options, bytes: Bytes)
    ensures !Settled(o, Push(o, FRESH, bytes).0) <==> exists i :: BadCloseHides(o, bytes, i)
  {
    hide Parse, BadCloseAt, Drain;
    assert [] + bytes == bytes;
    if !Settled(o, Push(o, FRESH, bytes).0) {
      CaughtMeansSettled(o, More(FRESH, bytes));
      var k := ThrownAtBadClose(o, IDLE, [], bytes);
      assert BadCloseHides(o, bytes, k);
    }
    if i: nat :| BadCloseHides(o, bytes, i) { BadCloseThrows(o, IDLE, [], bytes, i); }
  }

  predicate NoneEmpty(chunks: seq<Bytes>) { [] !in chunks }

  /**
   * How a stream is cut into chunks makes no difference to the state and the callbacks if and
   * only if no such close frame in it has a whole frame or an error behind it; whether or not
   * empty chunks, which a socket never delivers, are among them.
   */
  lemma ChunkingDoesNotMatterIff(o: Options, bytes: Bytes)
    ensures (forall chunks :: Flat(chunks) == bytes && NoneEmpty(chunks) ==>
               PushAll(o, FRESH, chunks) == Push(o, FRESH, bytes).0)
       <==> !(exists i :: BadCloseHides(o, bytes, i))
    ensures (forall chunks :: Flat(chunks) == bytes ==> PushAll(o, FRESH, chunks) == Push(o, FRESH, bytes).0)
       <==> !(exists i :: BadCloseHides(o, bytes, i))
  {
    UnsettledIff(o, bytes);
    var whole := Push(o, FRESH, bytes).0;
    if Settled(o, whole) {
      forall chunks | Flat(chunks) == bytes ensures PushAll(o, FRESH, chunks) == whole {
        SettledIsChunkFree(o, FRESH, chunks);
      }
    } else {
      var i: nat :| BadCloseHides(o, bytes, i);
      var chunks := LastByteApart(o, bytes, i);
    }
  }

  /** The frame and what it needs are there without the last byte of what is behind it. */
  lemma BadCloseBeforeLast(o: Options, bytes: Bytes, i: nat)
    requires BadCloseHides(o, bytes, i)
    ensures |bytes| >= 2 && BadCloseAt(o, IDLE, bytes[..|bytes| - 1], i)
  {
    hide Parse, HandleAll, HandleClose, ReadAll;
    var m := |bytes| - 1;
    EmptyIsIncomplete(o);
    EnoughBytes(bytes[i..], m - i, o.limits);
    assert bytes[..m][..i] == bytes[..i] && bytes[..m][i..] == bytes[i..][..m - i];
  }

  /** If the last byte comes alone, its push goes on where the error stopped. */
  lemma LastByteApart(o: Options, bytes: Bytes, i: nat) returns (chunks: seq<Bytes>)
    requires BadCloseHides(o, bytes, i) && !Settled(o, Push(o, FRESH, bytes).0)
    ensures Flat(chunks) == bytes && NoneEmpty(chunks) && PushAll(o, FRESH, chunks) != Push(o, FRESH, bytes).0
  {
    BadCloseBeforeLast(o, bytes, i);
    hide BadCloseAt, BadCloseHides, Parse, Drain, Push, PushAll, Flat;
    var m := |bytes| - 1;
    var front, last := bytes[..m], bytes[m..];
    chunks := [front, last];
    assert front + last == bytes;
    PushThrowsIff(o, front);
    ThrowsThenMore(o, front, last);
    UnsettledMoves(o, Push(o, FRESH, bytes).0);
  }

  lemma ThrowsThenMore(o: Options, front: Bytes, last: Bytes)
    requires Push(o, FRESH, front).1
    ensures Flat([front, last]) == front + last
    ensures PushAll(o, FRESH, [front, last]) == Drain(o, Push(o, FRESH, front + last).0).0
  {
    hide Drain;
    var chunks: seq<Bytes> := [front, last];
    assert chunks[1..] == [last] && chunks[1..][1..] == [];
    assert Flat(chunks[1..]) == last + [] == last;
    DrainThenMore(o, More(FRESH, front), last);
    MoreTwice(FRESH, front, last);
    var s := Push(o, FRESH, front).0;
    assert Push(o, FRESH, front + last).0 == More(s, last);
    assert PushAll(o, FRESH, chunks) == PushAll(o, s, chunks[1..]) == PushAll(o, Push(o, s, last).0, chunks[1..][1..]);
  }

  /** Every chunking agrees when no close frame of the stream has a reason that is not UTF-8. */
  lemma CleanIsChunkFree(o: Options, chunks: seq<Bytes>)
    requires forall i :: !BadCloseAt(o, IDLE, Flat(chunks), i)
    ensures PushAll(o, FRESH, chunks) == Push(o, FRESH, Flat(chunks)).0 && !Push(o, FRESH, Flat(chunks)).1
  {
    ChunkingDoesNotMatterIff(o, Flat(chunks));
    PushThrowsIff(o, Flat(chunks));
  }

  /** So it is when one push of the whole stream throws nothing. */
  lemma CaughtIsChunkFree(o: Options, chunks: seq<Bytes>)
    requires !Push(o, FRESH, Flat(chunks)).1
    ensures PushAll(o, FRESH, chunks) == Push(o, FRESH, Flat(chunks)).0
  {
    CaughtMeansSettled(o, More(FRESH, Flat(chunks)));
    SettledIsChunkFree(o, FRESH, chunks);
  }

  /**
   * The case where it matters: a close frame whose reason is not UTF-8, with any good frame
   * behind it. The error leaves `push` with that frame unread and the sink still open.
   */
  lemma BadReasonLeavesInput(o: Options, m: Sent, next: Sent)
    requires Acceptable(m, o.limits) && Acceptable(next, o.limits)
    requires m.first as nat % 16 == 0x8 && BadReason(o, m.payload)
    ensures Push(o, FRESH, Wire(m) + Wire(next)) == (Open(Wire(next), IDLE, []), true)
    ensures !Settled(o, Push(o, FRESH, Wire(m) + Wire(next)).0)
  {
    HandleCloseMeans(o, m.payload);
    hide Wire, HandleClose, BadReason, HeaderOk, Parse;
    ReadUndoesPrint(m, Wire(next), o.limits);
    ReadUndoesPrint(next, [], o.limits);
    assert Wire(next) + [] == Wire(next);
    ThrowsAtOnce(o, Wire(m) + Wire(next), |Wire(m)|, FrameOf(m), Wire(next));
  }

  lemma ThrowsAtOnce(o: Options, s: Bytes, n: nat, f: Frame, rest: Bytes)
    requires Parse(s, o.limits) == Complete(f, n) && Handle(o, IDLE, f) == Thrown && n <= |s| && s[n..] == rest
    ensures Push(o, FRESH, s) == (Open(rest, IDLE, []), true)
  {
    hide Parse, Handle;
    assert [] + s == s;
  }
}
