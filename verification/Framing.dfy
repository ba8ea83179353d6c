/** The control channel's framing: one message a line, decoded from whatever pieces the
    transport delivers, with a size cap and a failure that stays. */
module Framing {
  import opened Messages

  const NEWLINE: byte := 10
  const MAX_FRAME_BYTES: nat := 1024 * 1024

  /** What waiting for input can lead to: some bytes (none: the connection is closed), an error,
      or the caller giving up while nothing has arrived. */
  datatype ReadEvent = Chunk(bytes: seq<byte>) | ReadError | Cancel

  /** How a call of `recv` ends. */
  datatype CallEnd =
    | Frame(line: seq<byte>)
    | TooLarge
    | FramingFailed
    | Closed(inFrame: bool)
    | ReadFailed
    | Cancelled

  /** The receiving half: what the transport will still deliver, what is buffered, the frame so far. */
  datatype Reader = Reader(script: seq<ReadEvent>, buffered: seq<byte>, frame: seq<byte>, failed: bool)

  /** The index of the first newline, or the length. */
  function NewlineAt(s: seq<byte>): (k: nat)
    ensures k <= |s| && (forall i :: 0 <= i < k ==> s[i] != NEWLINE)
    ensures k < |s| ==> s[k] == NEWLINE
  {
    if s == [] || s[0] == NEWLINE then 0 else 1 + NewlineAt(s[1..])
  }

  datatype Taken = Taken(outcome: CallEnd, next: Reader)

  /** One pass of the loop over a non-empty buffer; `None` when no frame is complete yet. */
  function Consume(r: Reader): (t: (Option<CallEnd>, Reader))
    ensures t.1.script == r.script
    ensures t.0.None? ==> t.1.buffered == []
  {
    var k := NewlineAt(r.buffered);
    var count := if k < |r.buffered| then k + 1 else |r.buffered|;
    if |r.frame| + count > MAX_FRAME_BYTES then (Some(TooLarge), r.(frame := [], failed := true))
    else
      var frame, rest := r.frame + r.buffered[..count], r.buffered[count..];
      if k < |r.buffered| then (Some(Frame(frame)), r.(frame := [], buffered := rest))
      else (None, r.(frame := frame, buffered := rest))
  }

  /** A call of `recv`. */
  function Recv(r: Reader): Taken
    decreases |r.script|, if r.buffered == [] then 0 else 1
  {
    if r.failed then Taken(FramingFailed, r)
    else if r.buffered != [] then
      var (outcome, next) := Consume(r);
      if outcome.Some? then Taken(outcome.value, next) else Recv(next)
    else if r.script == [] then Taken(Cancelled, r)
    else
      var later := r.(script := r.script[1..]);
      match r.script[0]
      case Cancel => Taken(Cancelled, later)
      case ReadError => Taken(ReadFailed, later)
      case Chunk(bytes) =>
        if bytes == [] then Taken(Closed(r.frame != []), later)
        else Recv(later.(buffered := bytes))
  }

  lemma {:induction false} RecvFailed(r: Reader)
    ensures r.failed ==> Recv(r) == Taken(FramingFailed, r)
  {
  }

  /** What one turn of the loop leads to. */
  lemma {:induction false} RecvStep(r: Reader)
    requires !r.failed
    ensures r.buffered != [] ==>
      var (outcome, next) := Consume(r);
      Recv(r) == if outcome.Some? then Taken(outcome.value, next) else Recv(next)
    ensures r.buffered == [] && r.script == [] ==> Recv(r) == Taken(Cancelled, r)
    ensures r.buffered == [] && r.script != [] ==>
      var later := r.(script := r.script[1..]);
      Recv(r) == match r.script[0]
        case Cancel => Taken(Cancelled, later)
        case ReadError => Taken(ReadFailed, later)
        case Chunk(bytes) =>
          if bytes == [] then Taken(Closed(r.frame != []), later) else Recv(later.(buffered := bytes))
  {
    hide Consume;
  }

  /** How messages are written as bytes and read back. */
  datatype Codec<!M> = Codec(encode: M -> seq<byte>, decode: seq<byte> -> Option<M>)

  datatype Received<M> = Got(message: M) | Undecodable | Failed(cause: CallEnd)

  function Decoded<M>(codec: Codec<M>, outcome: CallEnd): Received<M> {
    match outcome
    case Frame(line) =>
      var m := codec.decode(line);
      if m.Some? then Got(m.value) else Undecodable
    case _ => Failed(outcome)
  }

  /** How a call of `send` goes; a write that fails may have sent some bytes. */
  datatype SendFate = Flushed | NotSerialized(reason: string) | NotWritten(after: nat, reason: string) | NotFlushed(reason: string)

  /** What a call of `send` hands to the transport. */
  function OnWire<M>(codec: Codec<M>, m: M, fate: SendFate): (bytes: seq<byte>)
    ensures bytes <= Encoded(codec, m) && (fate.Flushed? || fate.NotFlushed? ==> bytes == Encoded(codec, m))
  {
    var line := Encoded(codec, m);
    match fate
    case NotSerialized(_) => []
    case NotWritten(after, _) => if after < |line| then line[..after] else line
    case _ => line
  }

  class ControlChannel<M(!new)> {
    const codec: Codec<M>
    var script: seq<ReadEvent>
    var buffered: seq<byte>
    var frame: seq<byte>
    var framingFailed: bool
    var written: seq<byte>

    constructor (codec: Codec<M>, script: seq<ReadEvent>)
      ensures this.codec == codec && View() == NewReader(script) && written == []
    {
      this.codec, this.script := codec, script;
      buffered, frame, framingFailed, written := [], [], false, [];
    }

    function View(): Reader
      reads this
    {
      Reader(script, buffered, frame, framingFailed)
    }

    method Send(m: M, fate: SendFate) returns (error: Option<string>)
      modifies this`written
      ensures error == match fate
                       case Flushed => None
                       case NotSerialized(reason) => Some("serialize: " + reason)
                       case NotWritten(_, reason) => Some("write: " + reason)
                       case NotFlushed(reason) => Some("flush: " + reason)
      ensures written == old(written) + OnWire(codec, m, fate)
      ensures error.None? ==>
        forall messages :: old(written) == Stream(codec, messages) ==> written == Stream(codec, messages + [m])
    {
      forall messages: seq<M>
        ensures Stream(codec, messages + [m]) == Stream(codec, messages) + OnWire(codec, m, Flushed)
      {
        StreamAppend(codec, messages, m);
      }
      if fate.NotSerialized? {
        return Some("serialize: " + fate.reason);
      }
      var line := codec.encode(m);
      line := line + [NEWLINE];
      if fate.NotWritten? {
        written := written + (if fate.after < |line| then line[..fate.after] else line);
        return Some("write: " + fate.reason);
      }
      written := written + line;
      error := if fate.NotFlushed? then Some("flush: " + fate.reason) else None;
    }

    method Receive() returns (received: Received<M>)
      modifies this`script, this`buffered, this`frame, this`framingFailed
      ensures View() == Recv(old(View())).next
      ensures received == Decoded(codec, Recv(old(View())).outcome)
    {
      RecvFailed(View());
      if framingFailed {
        return Failed(FramingFailed);
      }
      hide Recv;
      while true
        invariant Recv(View()) == Recv(old(View())) && !framingFailed
        decreases |script|, if buffered == [] then 0 else 1
      {
        RecvStep(View());
        if buffered == [] {
          if script == [] {
            return Failed(Cancelled);
          }
          var event := script[0];
          script := script[1..];
          match event {
            case Cancel =>
              return Failed(Cancelled);
            case ReadError =>
              return Failed(ReadFailed);
            case Chunk(bytes) =>
              if bytes == [] {
                return Failed(Closed(frame != []));
              }
              buffered := bytes;
          }
          RecvStep(View());
        }
        var newline := NewlineAt(buffered);
        var count := if newline < |buffered| then newline + 1 else |buffered|;
        if |frame| + count > MAX_FRAME_BYTES {
          frame, framingFailed := [], true;
          return Failed(TooLarge);
        }
        frame, buffered := frame + buffered[..count], buffered[count..];
        if count == newline + 1 {
          var line := frame;
          frame := [];
          var m := codec.decode(line);
          return if m.Some? then Got(m.value) else Undecodable;
        }
      }
    }
  }

  function NewReader(script: seq<ReadEvent>): Reader {
    Reader(script, [], [], false)
  }

  function Encoded<M>(codec: Codec<M>, m: M): seq<byte> {
    codec.encode(m) + [NEWLINE]
  }

  // ----- the simple form: split the whole stream -----

  /** The newline-terminated lines of a stream, up to the first that exceeds the cap. */
  function Lines(s: seq<byte>): seq<seq<byte>> {
    var k := NewlineAt(s);
    if k == |s| || k + 1 > MAX_FRAME_BYTES then [] else [s[..k + 1]] + Lines(s[k + 1..])
  }

  /** The bytes a script will deliver. */
  function Bytes(script: seq<ReadEvent>): seq<byte> {
    if script == [] then []
    else (if script[0].Chunk? then script[0].bytes else []) + Bytes(script[1..])
  }

  /** Everything received but not handed on, and everything still to come. */
  function Unread(r: Reader): seq<byte> {
    r.frame + r.buffered + Bytes(r.script)
  }

  /** The buffered frame never exceeds the cap and holds no newline. */
  predicate Valid(r: Reader) {
    |r.frame| <= MAX_FRAME_BYTES && NewlineAt(r.frame) == |r.frame|
  }

  /** The frames a reader has yet to hand on. */
  function ToCome(r: Reader): seq<seq<byte>> {
    if r.failed then [] else Lines(Unread(r))
  }

  function Handed(outcome: CallEnd): seq<seq<byte>> {
    if outcome.Frame? then [outcome.line] else []
  }

  lemma {:induction false} FindAppend(a: seq<byte>, b: seq<byte>)
    ensures NewlineAt(a + b) == if NewlineAt(a) < |a| then NewlineAt(a) else |a| + NewlineAt(b)
  {
    if a != [] && a[0] != NEWLINE {
      FindAppend(a[1..], b);
      assert (a + b)[1..] == a[1..] + b;
    } else {
      assert a == [] ==> a + b == b;
    }
  }

  lemma {:induction false} LinesFirst(line: seq<byte>, rest: seq<byte>)
    requires line != [] && NewlineAt(line) == |line| - 1
    ensures Lines(line + rest) == if |line| > MAX_FRAME_BYTES then [] else [line] + Lines(rest)
  {
    FindAppend(line, rest);
    assert (line + rest)[..|line|] == line && (line + rest)[|line|..] == rest;
  }

  lemma {:induction false} LinesTooLong(a: seq<byte>, rest: seq<byte>)
    requires |a| > MAX_FRAME_BYTES && NewlineAt(a) >= |a| - 1
    ensures Lines(a + rest) == [] && NewlineAt(a + rest) >= MAX_FRAME_BYTES
  {
    FindAppend(a, rest);
  }

  /** How a pass cuts the stream: the bytes it takes, and those it leaves. */
  lemma {:induction false} ConsumeCuts(r: Reader) returns (line: seq<byte>, rest: seq<byte>)
    requires Valid(r) && r.buffered != []
    ensures Unread(r) == line + rest && |line| > 0
    ensures var k := NewlineAt(r.buffered);
            var count := if k < |r.buffered| then k + 1 else |r.buffered|;
            && line == r.frame + r.buffered[..count] && rest == r.buffered[count..] + Bytes(r.script)
            && NewlineAt(line) == (if k < |r.buffered| then |line| - 1 else |line|)
  {
    var k := NewlineAt(r.buffered);
    var count := if k < |r.buffered| then k + 1 else |r.buffered|;
    var taken, left := r.buffered[..count], r.buffered[count..];
    line, rest := r.frame + taken, left + Bytes(r.script);
    assert r.buffered == taken + left;
    assert r.frame + (taken + left) + Bytes(r.script) == line + rest;
    FindAppend(taken, left);
    FindAppend(r.frame, taken);
  }

  lemma {:induction false} ConsumePart(r: Reader)
    requires Valid(r) && !r.failed && r.buffered != [] && Consume(r).0.None?
    ensures Valid(Consume(r).1) && !Consume(r).1.failed && Unread(Consume(r).1) == Unread(r)
  {
    var line, rest := ConsumeCuts(r);
    assert r.buffered[|r.buffered|..] == [] && r.buffered[..|r.buffered|] == r.buffered;
  }

  lemma {:induction false} ConsumeTooLong(r: Reader)
    requires Valid(r) && !r.failed && r.buffered != [] && Consume(r).0 == Some(TooLarge)
    ensures Consume(r).1.failed && Valid(Consume(r).1)
    ensures |Unread(r)| > MAX_FRAME_BYTES && NewlineAt(Unread(r)) >= MAX_FRAME_BYTES && Lines(Unread(r)) == []
  {
    var line, rest := ConsumeCuts(r);
    LinesTooLong(line, rest);
  }

  lemma {:induction false} ConsumeLine(r: Reader)
    requires Valid(r) && !r.failed && r.buffered != [] && Consume(r).0.Some? && Consume(r).0.value.Frame?
    ensures !Consume(r).1.failed && Valid(Consume(r).1)
    ensures var line := Consume(r).0.value.line;
            && Unread(r) == line + Unread(Consume(r).1) && line != [] && NewlineAt(line) == |line| - 1
            && |line| <= MAX_FRAME_BYTES
  {
    var line, rest := ConsumeCuts(r);
    assert Unread(Consume(r).1) == rest;
  }

  lemma {:induction false} ConsumeKeeps(r: Reader)
    requires Valid(r) && !r.failed && r.buffered != []
    ensures var (outcome, next) := Consume(r);
            && Valid(next)
            && (outcome.None? ==> !next.failed && Unread(next) == Unread(r))
            && (outcome.Some? ==>
                  && (outcome.value == TooLarge || outcome.value.Frame?)
                  && ToCome(r) == Handed(outcome.value) + ToCome(next)
                  && (outcome.value.Frame? ==>
                        && !next.failed && Unread(r) == outcome.value.line + Unread(next)
                        && outcome.value.line != [] && NewlineAt(outcome.value.line) == |outcome.value.line| - 1
                        && |outcome.value.line| <= MAX_FRAME_BYTES)
                  && (outcome.value == TooLarge ==>
                        next.failed && |Unread(r)| > MAX_FRAME_BYTES && NewlineAt(Unread(r)) >= MAX_FRAME_BYTES))
  {
    ConsumeKinds(r);
    hide Consume, Valid, NewlineAt, Lines, Unread;
    var (outcome, next) := Consume(r);
    if outcome.None? {
      ConsumePart(r);
    } else if outcome.value == TooLarge {
      ConsumeTooLong(r);
    } else {
      ConsumeLine(r);
      LinesFirst(outcome.value.line, Unread(next));
    }
  }

  lemma {:induction false} ConsumeKinds(r: Reader)
    ensures Consume(r).0.Some? ==> Consume(r).0.value == TooLarge || Consume(r).0.value.Frame?
  {
  }

  /** Whatever happens in a call of `recv`, frames handed on and frames to come are conserved. */
  lemma {:induction false} RecvKeeps(r: Reader)
    requires Valid(r)
    ensures Valid(Recv(r).next)
    ensures ToCome(r) == Handed(Recv(r).outcome) + ToCome(Recv(r).next)
    ensures r.failed ==> Recv(r) == Taken(FramingFailed, r)
    ensures Recv(r).next.failed && !r.failed ==> Recv(r).outcome == TooLarge
    ensures Recv(r).outcome == TooLarge ==>
      Recv(r).next.failed && |Unread(r)| > MAX_FRAME_BYTES && NewlineAt(Unread(r)) >= MAX_FRAME_BYTES
    decreases |r.script|, if r.buffered == [] then 0 else 1
  {
    if !r.failed && r.buffered != [] {
      ConsumeKeeps(r);
      var (outcome, next) := Consume(r);
      if outcome.None? {
        RecvKeeps(next);
      }
    } else if !r.failed && r.script != [] {
      var later := r.(script := r.script[1..]);
      if r.script[0].Chunk? && r.script[0].bytes != [] {
        var fuller := later.(buffered := r.script[0].bytes);
        assert Unread(fuller) == Unread(r);
        RecvKeeps(fuller);
      } else {
        assert Unread(later) == Unread(r);
      }
    }
  }

  /** A call that hands on a frame takes exactly that frame off the stream; others take nothing. */
  lemma {:induction false} RecvUnread(r: Reader)
    requires Valid(r) && !r.failed
    ensures var t := Recv(r);
            && (t.outcome.Frame? ==> !t.next.failed && Unread(r) == t.outcome.line + Unread(t.next)
                                     && t.outcome.line != [] && NewlineAt(t.outcome.line) == |t.outcome.line| - 1
                                     && |t.outcome.line| <= MAX_FRAME_BYTES)
            && (t.outcome != TooLarge && !t.outcome.Frame? ==> !t.next.failed && Unread(t.next) == Unread(r))
            && (t.outcome == TooLarge ==> |Unread(r)| > MAX_FRAME_BYTES && NewlineAt(Unread(r)) >= MAX_FRAME_BYTES)
    decreases |r.script|, if r.buffered == [] then 0 else 1
  {
    if r.buffered != [] {
      ConsumeKeeps(r);
      hide Consume, Unread, Valid, NewlineAt;
      var (outcome, next) := Consume(r);
      if outcome.None? {
        RecvUnread(next);
      }
    } else if r.script != [] {
      var later := r.(script := r.script[1..]);
      if r.script[0].Chunk? && r.script[0].bytes != [] {
        var fuller := later.(buffered := r.script[0].bytes);
        assert Unread(fuller) == Unread(r);
        RecvUnread(fuller);
      } else {
        assert Unread(later) == Unread(r);
      }
    }
  }

  /** Pieces with bytes in them. */
  predicate Pieces(script: seq<ReadEvent>) {
    forall i :: 0 <= i < |script| ==> script[i].Chunk? && script[i].bytes != []
  }

  lemma {:induction false} BytesAppend(a: seq<ReadEvent>, b: seq<ReadEvent>)
    ensures Bytes(a + b) == Bytes(a) + Bytes(b)
  {
    if a == [] {
      assert a + b == b;
    } else {
      assert (a + b)[1..] == a[1..] + b;
      BytesAppend(a[1..], b);
    }
  }

  /** The k-th event ends the call: it is the first that brings no bytes, or there is none; all bytes that
      came before it are kept. */
  ghost predicate EndsAt(r: Reader, t: Taken, k: nat) {
    && k <= |r.script| && Pieces(r.script[..k])
    && t.next.frame == r.frame + r.buffered + Bytes(r.script[..k]) && t.next.buffered == []
    && if k == |r.script| then t.outcome == Cancelled && t.next.script == []
       else
         && t.next.script == r.script[k + 1..]
         && match r.script[k]
            case Cancel => t.outcome == Cancelled
            case ReadError => t.outcome == ReadFailed
            case Chunk(bytes) => bytes == [] && t.outcome == Closed(t.next.frame != [])
  }

  lemma {:induction false} EndsNow(r: Reader)
    requires !r.failed && r.buffered == [] && (r.script == [] || !Pieces(r.script[..1]))
    ensures EndsAt(r, Recv(r), 0)
  {
    RecvStep(r);
    hide Recv;
    assert r.script[..0] == [];
  }

  lemma {:induction false} EndsFuller(r: Reader, t: Taken, k: nat)
    requires r.buffered == [] && r.script != [] && Pieces(r.script[..1])
    requires EndsAt(r.(script := r.script[1..], buffered := r.script[0].bytes), t, k)
    ensures EndsAt(r, t, k + 1)
  {
    var event, rest := r.script[0], r.script[1..];
    assert event == r.script[..1][0];
    assert r.script[..k + 1] == [event] + rest[..k];
    BytesAppend([event], rest[..k]);
    assert Bytes([event]) == event.bytes + Bytes([event][1..]) && [event][1..] == [];
    assert (r.frame + []) + (event.bytes + Bytes(rest[..k])) == r.frame + event.bytes + Bytes(rest[..k]);
    hide Bytes;
  }

  /** A call that neither hands on a frame nor fails for good is ended by the first event that brings no
      bytes: a cancellation, or no event; a read error; or the end of the stream, which is inside a frame
      exactly when bytes are kept. */
  lemma {:induction false} RecvEnds(r: Reader) returns (k: nat)
    requires Valid(r) && !r.failed && !Recv(r).outcome.Frame? && Recv(r).outcome != TooLarge
    ensures EndsAt(r, Recv(r), k)
    decreases |r.script|, if r.buffered == [] then 0 else 1
  {
    RecvStep(r);
    hide Recv, Valid, NewlineAt, EndsAt, Consume;
    if r.buffered != [] {
      ConsumeKeeps(r);
      ConsumeKept(r);
      k := RecvEnds(Consume(r).1);
      EndsConsumed(r, Recv(r), k);
    } else if r.script != [] && Pieces(r.script[..1]) {
      assert r.script[..1][0] == r.script[0];
      var fuller := r.(script := r.script[1..], buffered := r.script[0].bytes);
      FullerValid(r, fuller);
      k := RecvEnds(fuller);
      EndsFuller(r, Recv(r), k);
      k := k + 1;
    } else {
      k := 0;
      EndsNow(r);
    }
  }

  lemma {:induction false} EndsConsumed(r: Reader, t: Taken, k: nat)
    requires EndsAt(r.(frame := r.frame + r.buffered, buffered := []), t, k)
    ensures EndsAt(r, t, k)
  {
    assert r.frame + r.buffered + [] == r.frame + r.buffered;
    hide Bytes, Pieces;
  }

  lemma {:induction false} FullerValid(r: Reader, fuller: Reader)
    requires Valid(r) && fuller.frame == r.frame
    ensures Valid(fuller)
  {
  }

  lemma {:induction false} ConsumeKept(r: Reader)
    requires r.buffered != [] && Consume(r).0.None?
    ensures Consume(r).1 == r.(frame := r.frame + r.buffered, buffered := [])
  {
    assert r.buffered[..|r.buffered|] == r.buffered;
  }

  // ----- whole sequences of calls -----

  datatype Calls = Calls(outcomes: seq<CallEnd>, reader: Reader)

  /** What `n` calls of `recv` return, and the reader they leave. */
  function RecvMany(r: Reader, n: nat): (calls: Calls)
    ensures |calls.outcomes| == n
  {
    if n == 0 then Calls([], r)
    else
      var before := RecvMany(r, n - 1);
      var taken := Recv(before.reader);
      Calls(before.outcomes + [taken.outcome], taken.next)
  }

  /** The frames among the outcomes, in order. */
  function Frames(outcomes: seq<CallEnd>): seq<seq<byte>> {
    if outcomes == [] then [] else Frames(outcomes[..|outcomes| - 1]) + Handed(outcomes[|outcomes| - 1])
  }

  /** Framing refines splitting: after any number of calls, cancelled ones included, and for any way
      the stream is cut into pieces, the frames handed on followed by the frames to come are the
      lines of the stream, up to the first that exceeds the cap. */
  lemma {:induction false} FramingIsSplitting(script: seq<ReadEvent>, n: nat)
    ensures var calls := RecvMany(NewReader(script), n);
            Valid(calls.reader) && Frames(calls.outcomes) + ToCome(calls.reader) == Lines(Bytes(script))
  {
    if n == 0 {
      NothingHanded(script);
    } else {
      FramingIsSplitting(script, n - 1);
      OneMoreCall(RecvMany(NewReader(script), n - 1));
    }
  }

  lemma {:induction false} NothingHanded(script: seq<ReadEvent>)
    ensures Valid(NewReader(script)) && Unread(NewReader(script)) == Bytes(script) && Frames([]) == []
    ensures Frames([]) + ToCome(NewReader(script)) == Lines(Bytes(script))
  {
    hide Lines, Bytes, Recv;
    assert Unread(NewReader(script)) == Bytes(script);
  }

  lemma {:induction false} OneMoreCall(before: Calls)
    requires Valid(before.reader)
    ensures var taken := Recv(before.reader);
            && Valid(taken.next)
            && Frames(before.outcomes + [taken.outcome]) + ToCome(taken.next) == Frames(before.outcomes) + ToCome(before.reader)
  {
    hide *;
    RecvKeeps(before.reader);
    FramesAppend(before.outcomes, Recv(before.reader).outcome);
  }

  lemma {:induction false} FramesAppend(before: seq<CallEnd>, outcome: CallEnd)
    ensures Frames(before + [outcome]) == Frames(before) + Handed(outcome)
  {
    assert (before + [outcome])[..|before|] == before;
  }

  /** A reader with nothing left to be delivered and nothing in its buffer has no frame to come. */
  lemma {:induction false} NothingToCome(r: Reader)
    requires Valid(r) && r.script == [] && r.buffered == []
    ensures ToCome(r) == []
  {
    assert Unread(r) == r.frame;
  }

  /** Once the stream is used up the frames are exactly its lines, so two ways of cutting one stream
      into pieces, with whatever cancellations between, give the same frames. */
  lemma {:induction false} ChunkingIsInvisible(script: seq<ReadEvent>, n: nat, script': seq<ReadEvent>, n': nat)
    requires Bytes(script) == Bytes(script')
    requires var r := RecvMany(NewReader(script), n).reader; r.failed || (r.script == [] && r.buffered == [])
    requires var r' := RecvMany(NewReader(script'), n').reader; r'.failed || (r'.script == [] && r'.buffered == [])
    ensures Frames(RecvMany(NewReader(script), n).outcomes) == Lines(Bytes(script)) == Frames(RecvMany(NewReader(script'), n').outcomes)
  {
    FramingIsSplitting(script, n);
    FramingIsSplitting(script', n');
    var r, r' := RecvMany(NewReader(script), n).reader, RecvMany(NewReader(script'), n').reader;
    if !r.failed {
      NothingToCome(r);
    }
    if !r'.failed {
      NothingToCome(r');
    }
  }

  /** A call either hands on a frame, fails for good, or uses up part of what was to be delivered;
      so enough calls use up any stream. */
  lemma {:induction false} RecvProgress(r: Reader)
    requires !r.failed && (r.script != [] || r.buffered != [])
    ensures var t := Recv(r);
            t.next.failed || |t.next.script| < |r.script|
            || (|t.next.script| == |r.script| && |t.next.buffered| < |r.buffered|)
    decreases |r.script|, if r.buffered == [] then 0 else 1
  {
    if r.buffered != [] {
      var (outcome, next) := Consume(r);
      if outcome.None? && next.script != [] {
        RecvProgress(next);
      }
    } else if r.script[0].Chunk? && r.script[0].bytes != [] {
      RecvShrinks(r.(script := r.script[1..], buffered := r.script[0].bytes));
    }
  }

  lemma {:induction false} RecvShrinks(r: Reader)
    ensures |Recv(r).next.script| <= |r.script|
    decreases |r.script|, if r.buffered == [] then 0 else 1
  {
    if !r.failed && r.buffered != [] {
      var (outcome, next) := Consume(r);
      if outcome.None? {
        RecvShrinks(next);
      }
    } else if !r.failed && r.script != [] && r.script[0].Chunk? && r.script[0].bytes != [] {
      RecvShrinks(r.(script := r.script[1..], buffered := r.script[0].bytes));
    }
  }

  /** Once a frame has overflowed the cap every later call fails, changes nothing, and hands on nothing. */
  lemma {:induction false} OverflowLatches(script: seq<ReadEvent>, n: nat, m: nat)
    requires RecvMany(NewReader(script), n).reader.failed && n <= m
    ensures RecvMany(NewReader(script), m).reader == RecvMany(NewReader(script), n).reader
    ensures forall i :: n <= i < m ==> RecvMany(NewReader(script), m).outcomes[i] == FramingFailed
    ensures RecvMany(NewReader(script), m).outcomes[..n] == RecvMany(NewReader(script), n).outcomes
    decreases m
  {
    if m > n {
      OverflowLatches(script, n, m - 1);
      var Calls(before, r) := RecvMany(NewReader(script), m - 1);
      assert Recv(r) == Taken(FramingFailed, r);
      hide Recv;
      assert RecvMany(NewReader(script), m).outcomes == before + [FramingFailed];
    }
  }

  /** What follows the last complete line, or the first line that exceeds the cap and all after it. */
  function Unfinished(s: seq<byte>): seq<byte> {
    var k := NewlineAt(s);
    if k == |s| || k + 1 > MAX_FRAME_BYTES then s else Unfinished(s[k + 1..])
  }

  /** More than the cap, and no newline within it. */
  predicate Overlong(s: seq<byte>) {
    |s| > 1_048_576 && 10 !in s[..1_048_576]
  }

  lemma {:induction false} UnfinishedAfter(line: seq<byte>, rest: seq<byte>)
    requires line != [] && NewlineAt(line) == |line| - 1 && |line| <= MAX_FRAME_BYTES
    ensures Unfinished(line + rest) == Unfinished(rest)
  {
    FindAppend(line, rest);
    assert (line + rest)[|line|..] == rest;
  }

  lemma {:induction false} OverlongUnfinished(s: seq<byte>)
    ensures Overlong(s) ==> Unfinished(s) == s
    ensures NewlineAt(s) == |s| ==> Unfinished(s) == s
  {
  }

  lemma {:induction false} UnfinishedKept(r: Reader)
    requires Valid(r) && !r.failed
    ensures var next := Recv(r).next;
            if next.failed then Overlong(Unfinished(Unread(r))) else Unfinished(Unread(next)) == Unfinished(Unread(r))
  {
    RecvUnread(r);
    RecvKeeps(r);
    OverlongUnfinished(Unread(r));
    hide Recv, Unread, Valid, NewlineAt, Unfinished, ToCome;
    var t := Recv(r);
    if t.outcome.Frame? {
      UnfinishedAfter(t.outcome.line, Unread(t.next));
    }
  }

  lemma {:induction false} OverlongSoFar(script: seq<ReadEvent>, n: nat)
    ensures var r := RecvMany(NewReader(script), n).reader;
            && Valid(r)
            && if r.failed then Overlong(Unfinished(Bytes(script))) else Unfinished(Unread(r)) == Unfinished(Bytes(script))
  {
    hide Recv, Unread, Valid, Unfinished, Overlong, Bytes, ToCome, Lines, Frames;
    FramingIsSplitting(script, n);
    if n == 0 {
      NothingHanded(script);
    } else {
      OverlongSoFar(script, n - 1);
      var before := RecvMany(NewReader(script), n - 1).reader;
      if before.failed {
        OverflowLatches(script, n - 1, n);
      } else {
        UnfinishedKept(before);
      }
    }
  }

  /** Once the stream is used up the channel has failed for good if and only if after its last complete
      line the stream holds more than the cap without a newline within the cap; before, only if. */
  lemma {:induction false} FailsExactly(script: seq<ReadEvent>, n: nat)
    ensures var r := RecvMany(NewReader(script), n).reader;
            && (r.failed ==> Overlong(Unfinished(Bytes(script))))
            && (r.failed || (r.script == [] && r.buffered == []) ==>
                  (r.failed <==> Overlong(Unfinished(Bytes(script)))))
  {
    hide Recv, RecvMany, Unfinished;
    OverlongSoFar(script, n);
    var r := RecvMany(NewReader(script), n).reader;
    if r.script == [] && r.buffered == [] && !r.failed {
      assert Unread(r) == r.frame;
      OverlongUnfinished(r.frame);
    }
  }

  // ----- send and receive -----

  /** A text that fits a frame: it has no newline and is within the cap. */
  predicate Fits(text: seq<byte>) {
    10 !in text && |text| < 1_048_576
  }

  /** One message fits: its text fits, and is read back, newline included. */
  ghost predicate Carries<M>(codec: Codec<M>, m: M) {
    Fits(codec.encode(m)) && codec.decode(Encoded(codec, m)) == Some(m)
  }

  /** The stream of a sender that writes these texts, each with a newline. */
  function Terminated(texts: seq<seq<byte>>): seq<byte> {
    if texts == [] then [] else (texts[0] + [10]) + Terminated(texts[1..])
  }

  function Encodings<M>(codec: Codec<M>, messages: seq<M>): seq<seq<byte>> {
    seq(|messages|, i requires 0 <= i < |messages| => codec.encode(messages[i]))
  }

  /** The stream a sender of these messages has written. */
  function Stream<M>(codec: Codec<M>, messages: seq<M>): seq<byte> {
    Terminated(Encodings(codec, messages))
  }

  lemma {:induction false} TerminatedAppend(texts: seq<seq<byte>>, text: seq<byte>)
    ensures Terminated(texts + [text]) == Terminated(texts) + (text + [NEWLINE])
  {
    if texts == [] {
      assert (texts + [text])[1..] == [];
    } else {
      assert (texts + [text])[1..] == texts[1..] + [text];
      TerminatedAppend(texts[1..], text);
    }
  }

  /** A channel that has sent these messages has written their stream. */
  lemma {:induction false} StreamAppend<M>(codec: Codec<M>, messages: seq<M>, m: M)
    ensures Stream(codec, messages + [m]) == Stream(codec, messages) + OnWire(codec, m, Flushed)
  {
    assert Encodings(codec, messages + [m]) == Encodings(codec, messages) + [codec.encode(m)];
    TerminatedAppend(Encodings(codec, messages), codec.encode(m));
  }

  /** What the receiver makes of the frames it is handed. */
  function Decodings<M>(codec: Codec<M>, frames: seq<seq<byte>>): seq<Option<M>> {
    seq(|frames|, i requires 0 <= i < |frames| => codec.decode(frames[i]))
  }

  lemma {:induction false} TerminatedLines(texts: seq<seq<byte>>)
    requires forall text <- texts :: Fits(text)
    ensures |Lines(Terminated(texts))| == |texts|
    ensures forall i :: 0 <= i < |texts| ==> Lines(Terminated(texts))[i] == texts[i] + [NEWLINE]
  {
    if texts == [] {
    } else {
      assert Fits(texts[0]);
      FindAppend(texts[0], [NEWLINE]);
      LinesFirst(texts[0] + [NEWLINE], Terminated(texts[1..]));
      TerminatedLines(texts[1..]);
    }
  }

  /** Each frame is decoded on its own: whatever texts are sent, decodable or not, the i-th frame
      received is decoded as the i-th text sent, over any way of cutting the bytes into pieces. A frame
      that cannot be decoded does not disturb those after it. */
  lemma {:induction false} FramesStandAlone<M>(codec: Codec<M>, texts: seq<seq<byte>>, script: seq<ReadEvent>, n: nat)
    requires forall text <- texts :: Fits(text)
    requires Bytes(script) == Terminated(texts)
    ensures var Calls(outcomes, r) := RecvMany(NewReader(script), n);
            var got := Decodings(codec, Frames(outcomes));
            && |got| <= |texts|
            && (forall i :: 0 <= i < |got| ==> got[i] == codec.decode(texts[i] + [NEWLINE]))
            && !r.failed
            && (r.script == [] && r.buffered == [] ==> |got| == |texts|)
  {
    FramingIsSplitting(script, n);
    TerminatedLines(texts);
    NeverOverflows(texts, script, n);
    hide RecvMany, Lines, Terminated, Fits, Bytes;
    var Calls(outcomes, r) := RecvMany(NewReader(script), n);
    var frames := Frames(outcomes);
    forall i | 0 <= i < |frames|
      ensures codec.decode(frames[i]) == codec.decode(texts[i] + [NEWLINE])
    {
      assert frames[i] == Lines(Bytes(script))[i];
    }
    if r.script == [] && r.buffered == [] {
      NothingToCome(r);
    }
  }

  /** Round trip: the messages received by any number of calls, over any way of cutting the
      sender's bytes into pieces, are a prefix of the messages sent, in order. Once everything is
      delivered they are all of them. */
  lemma {:induction false} SendReceive<M>(codec: Codec<M>, messages: seq<M>, script: seq<ReadEvent>, n: nat)
    requires forall m <- messages :: Carries(codec, m)
    requires Bytes(script) == Stream(codec, messages)
    ensures var Calls(outcomes, r) := RecvMany(NewReader(script), n);
            var got := Decodings(codec, Frames(outcomes));
            && |got| <= |messages|
            && (forall i :: 0 <= i < |got| ==> got[i] == Some(messages[i]))
            && !r.failed
            && (r.script == [] && r.buffered == [] ==> |got| == |messages|)
  {
    var texts := Encodings(codec, messages);
    forall i | 0 <= i < |messages|
      ensures Fits(texts[i]) && codec.decode(texts[i] + [NEWLINE]) == Some(messages[i])
    {
      assert Carries(codec, messages[i]);
    }
    hide RecvMany, Fits, Terminated, Frames, Bytes;
    FramesStandAlone(codec, texts, script, n);
  }

  /** A stream whose every line fits never trips the cap, and calls take whole lines off it. */
  lemma {:induction false} NeverOverflows(texts: seq<seq<byte>>, script: seq<ReadEvent>, n: nat)
    requires forall text <- texts :: Fits(text)
    requires Bytes(script) == Terminated(texts)
    ensures var Calls(outcomes, r) := RecvMany(NewReader(script), n);
            !r.failed && |Frames(outcomes)| <= |texts| && Unread(r) == Terminated(texts[|Frames(outcomes)|..])
  {
    hide Recv, Unread, Fits, Terminated, NewlineAt, Bytes, Valid, ToCome, Lines, Handed, Frames;
    if n == 0 {
      NothingHanded(script);
      assert texts[0..] == texts;
    } else {
      NeverOverflows(texts, script, n - 1);
      FramingIsSplitting(script, n - 1);
      var before := RecvMany(NewReader(script), n - 1);
      OneMoreLine(texts, before.reader, |Frames(before.outcomes)|);
      FramesAppend(before.outcomes, Recv(before.reader).outcome);
    }
  }

  lemma {:induction false} OneMoreLine(texts: seq<seq<byte>>, r: Reader, taken: nat)
    requires forall text <- texts :: Fits(text)
    requires Valid(r) && !r.failed && taken <= |texts| && Unread(r) == Terminated(texts[taken..])
    ensures var t := Recv(r);
            var next := taken + |Handed(t.outcome)|;
            !t.next.failed && next <= |texts| && Unread(t.next) == Terminated(texts[next..])
  {
    hide Recv, Unread, Valid, Fits, Terminated;
    RecvUnread(r);
    TerminatedNext(texts[taken..]);
    var t := Recv(r);
    if taken < |texts| && t.outcome.Frame? {
      assert texts[taken..][0] == texts[taken] && texts[taken..][1..] == texts[taken + 1..];
      SameLine(t.outcome.line, Unread(t.next), texts[taken] + [NEWLINE], Terminated(texts[taken + 1..]));
    } else if taken == |texts| {
      assert texts[taken..] == [];
    }
  }

  lemma {:induction false} TerminatedNext(texts: seq<seq<byte>>)
    requires forall text <- texts :: Fits(text)
    ensures texts == [] ==> Terminated(texts) == []
    ensures texts != [] ==>
      var line := texts[0] + [NEWLINE];
      && Terminated(texts) == line + Terminated(texts[1..])
      && NewlineAt(line) == |line| - 1 && |line| <= MAX_FRAME_BYTES
      && NewlineAt(Terminated(texts)) == |line| - 1
  {
    if texts != [] {
      assert Fits(texts[0]);
      FindAppend(texts[0], [NEWLINE]);
      FindAppend(texts[0] + [NEWLINE], Terminated(texts[1..]));
    }
  }

  /** A stream has only one first line. */
  lemma {:induction false} SameLine(a: seq<byte>, x: seq<byte>, b: seq<byte>, y: seq<byte>)
    requires a + x == b + y && a != [] && b != [] && NewlineAt(a) == |a| - 1 && NewlineAt(b) == |b| - 1
    ensures a == b && x == y
  {
    FindAppend(a, x);
    FindAppend(b, y);
    assert a == (a + x)[..|a|] && b == (b + y)[..|b|];
    assert x == (a + x)[|a|..] && y == (b + y)[|b|..];
  }

  // ----- what the channel answers -----

  /** The answers other than failures. */
  function Arrived<M>(answers: seq<Received<M>>): seq<Received<M>> {
    if answers == [] then []
    else
      var n := |answers| - 1;
      Arrived(answers[..n]) + (if answers[n].Failed? then [] else [answers[n]])
  }

  /** The i-th answer is what the i-th line decodes to, or that it does not. */
  ghost predicate AnswersTo<M>(codec: Codec<M>, lines: seq<seq<byte>>, arrived: seq<Received<M>>) {
    && |arrived| == |lines|
    && forall i :: 0 <= i < |lines| ==>
         var m := codec.decode(lines[i]);
         arrived[i] == if m.Some? then Got(m.value) else Undecodable
  }

  lemma {:induction false} ArrivedAppend<M>(answers: seq<Received<M>>, answer: Received<M>)
    ensures Arrived(answers + [answer]) == Arrived(answers) + (if answer.Failed? then [] else [answer])
  {
    assert (answers + [answer])[..|answers|] == answers;
  }

  lemma {:induction false} AnswerOne<M>(codec: Codec<M>, outcomes: seq<CallEnd>, outcome: CallEnd, answers: seq<Received<M>>)
    requires AnswersTo(codec, Frames(outcomes), Arrived(answers))
    ensures AnswersTo(codec, Frames(outcomes + [outcome]), Arrived(answers + [Decoded(codec, outcome)]))
  {
    FramesAppend(outcomes, outcome);
    ArrivedAppend(answers, Decoded(codec, outcome));
    hide Frames, Arrived;
  }

  lemma {:induction false} NoAnswers<M>(codec: Codec<M>, r: Reader)
    ensures AnswersTo(codec, Frames(RecvMany(r, 0).outcomes), Arrived<M>([])) && RecvMany(r, 0).reader == r
  {
  }

  lemma {:induction false} RecvManyNext(r: Reader, n: nat)
    ensures var before := RecvMany(r, n);
            RecvMany(r, n + 1) == Calls(before.outcomes + [Recv(before.reader).outcome], Recv(before.reader).next)
  {
    hide Recv;
  }

  /** When nothing more can come, every line of the stream has been handed on. */
  lemma {:induction false} AllLines(script: seq<ReadEvent>, n: nat)
    requires var r := RecvMany(NewReader(script), n).reader; r.failed || (r.script == [] && r.buffered == [])
    ensures Frames(RecvMany(NewReader(script), n).outcomes) == Lines(Bytes(script))
  {
    FramingIsSplitting(script, n);
    hide RecvMany, Lines, Frames, Bytes;
    var r := RecvMany(NewReader(script), n).reader;
    if !r.failed {
      NothingToCome(r);
    }
  }

  /** A caller that receives until nothing is left, or the channel has failed for good, is answered once for
      each line of the stream up to the first over the cap, in order, each by what that line decodes to. */
  method ReceiveAll<M(!new)>(channel: ControlChannel<M>) returns (answers: seq<Received<M>>)
    requires channel.View() == NewReader(channel.script)
    modifies channel`script, channel`buffered, channel`frame, channel`framingFailed
    ensures AnswersTo(channel.codec, Lines(Bytes(old(channel.script))), Arrived(answers))
    ensures channel.framingFailed <==> Overlong(Unfinished(Bytes(old(channel.script))))
    ensures channel.framingFailed || (channel.script == [] && channel.buffered == [])
  {
    ghost var start := channel.View();
    answers := [];
    NoAnswers(channel.codec, start);
    hide *;
    while channel.script != [] || channel.buffered != []
      invariant channel.View() == RecvMany(start, |answers|).reader
      invariant AnswersTo(channel.codec, Frames(RecvMany(start, |answers|).outcomes), Arrived(answers))
      decreases |channel.script|, |channel.buffered|
    {
      if channel.framingFailed {
        break;
      }
      RecvProgress(channel.View());
      RecvManyNext(start, |answers|);
      AnswerOne(channel.codec, RecvMany(start, |answers|).outcomes, Recv(channel.View()).outcome, answers);
      var answer := channel.Receive();
      answers := answers + [answer];
      if channel.framingFailed {
        break;
      }
    }
    AllLines(old(channel.script), |answers|);
    FailsExactly(old(channel.script), |answers|);
  }

  /** In particular: every text that was sent is answered in its place by what it decodes to, and one that
      does not decode does not keep those after it from arriving. */
  method ReceiveTexts<M(!new)>(channel: ControlChannel<M>, ghost texts: seq<seq<byte>>) returns (answers: seq<Received<M>>)
    requires channel.View() == NewReader(channel.script) && Bytes(channel.script) == Terminated(texts)
    requires forall text <- texts :: 10 !in text && |text| < 1_048_576
    modifies channel`script, channel`buffered, channel`frame, channel`framingFailed
    ensures |Arrived(answers)| == |texts| && !channel.framingFailed
    ensures forall i :: 0 <= i < |texts| ==>
      var m := channel.codec.decode(texts[i] + [10]);
      Arrived(answers)[i] == if m.Some? then Got(m.value) else Undecodable
  {
    TerminatedLines(texts);
    TerminatedEnds(texts);
    hide Lines, Terminated, Bytes, Arrived, Unfinished, Overlong;
    answers := ReceiveAll(channel);
  }

  lemma {:induction false} TerminatedEnds(texts: seq<seq<byte>>)
    requires forall text <- texts :: Fits(text)
    ensures Unfinished(Terminated(texts)) == []
  {
    hide Unfinished;
    if texts == [] {
      OverlongUnfinished([]);
    } else {
      TerminatedNext(texts);
      TerminatedEnds(texts[1..]);
      UnfinishedAfter(texts[0] + [NEWLINE], Terminated(texts[1..]));
    }
  }

  /** Messages sent over one channel and received over another, whatever the pieces and interruptions in
      which the transport delivers what was written: the caller gets the same messages, in order. */
  method Relay<M(!new)>(codec: Codec<M>, messages: seq<M>, deliver: seq<byte> -> seq<ReadEvent>) returns (answers: seq<Received<M>>)
    requires forall m <- messages :: Carries(codec, m)
    requires forall bytes :: Bytes(deliver(bytes)) == bytes
    ensures Arrived(answers) == seq(|messages|, i requires 0 <= i < |messages| => Got(messages[i]))
  {
    var sender := new ControlChannel(codec, []);
    assert messages[..0] == [];
    for i := 0 to |messages|
      invariant fresh(sender) && sender.codec == codec && sender.written == Stream(codec, messages[..i])
    {
      var error := sender.Send(messages[i], Flushed);
      assert messages[..i + 1] == messages[..i] + [messages[i]];
    }
    assert messages[..|messages|] == messages;
    var receiver := new ControlChannel(codec, deliver(sender.written));
    forall i | 0 <= i < |messages|
      ensures Fits(codec.encode(messages[i])) && codec.decode(codec.encode(messages[i]) + [10]) == Some(messages[i])
    {
      assert Carries(codec, messages[i]);
    }
    hide Terminated, Bytes, Arrived, Carries;
    answers := ReceiveTexts(receiver, Encodings(codec, messages));
  }
}
