/** ICMP probes: building a request, recognising its reply, and sweeping the message types. */
module Icmp {
  import opened Messages
  import opened PortText

  // ----- the Internet checksum (RFC 1071, section 1) -----

  function Word(hi: byte, lo: byte): u16 {
    hi * 0x100 + lo
  }

  /** The sum of the 16-bit big-endian words; an odd last byte is padded with a zero byte. */
  function Sum(s: seq<byte>): nat {
    if s == [] then 0
    else if |s| == 1 then s[0] * 0x100
    else Word(s[0], s[1]) + Sum(s[2..])
  }

  /** Carries are added back in until the sum fits in 16 bits. */
  function Fold(n: nat): u16 {
    if n <= 0xFFFF then n else Fold(n / 0x1_0000 + n % 0x1_0000)
  }

  function Checksum(s: seq<byte>): u16 {
    0xFFFF - Fold(Sum(s))
  }

  lemma {:induction false} FoldIsMod(n: nat)
    ensures Fold(n) == if n == 0 then 0 else 1 + (n - 1) % 0xFFFF
  {
    if n > 0xFFFF {
      var q, r := n / 0x1_0000, n % 0x1_0000;
      assert n == q * 0x1_0000 + r && q >= 1;
      FoldIsMod(q + r);
      assert n - 1 == (q + r - 1) + q * 0xFFFF;
      ModShift(q + r - 1, q);
    }
  }

  lemma {:induction false} ModShift(x: nat, q: nat)
    ensures (x + q * 0xFFFF) % 0xFFFF == x % 0xFFFF
  {
    if q == 0 {
    } else {
      ModShift(x, q - 1);
      assert x + q * 0xFFFF == (x + (q - 1) * 0xFFFF) + 0xFFFF;
    }
  }

  /** Adding a sum's complement to it folds to all ones. */
  lemma {:induction false} ComplementFolds(n: nat)
    ensures Fold(n + (0xFFFF - Fold(n))) == 0xFFFF
  {
    FoldIsMod(n);
    var m := n + (0xFFFF - Fold(n));
    FoldIsMod(m);
    if n > 0 {
      var q := (n - 1) / 0xFFFF;
      assert n - 1 == q * 0xFFFF + (n - 1) % 0xFFFF;
      assert m - 1 == 0xFFFE + q * 0xFFFF;
      ModShift(0xFFFE, q);
    }
  }

  // ----- building -----

  function ToBytes(n: u16): seq<byte> {
    [n / 0x100, n % 0x100]
  }

  /** A packet with the given checksum field. */
  function Packet(icmpType: byte, checksum: u16, id: u16, sequence: u16, payload: seq<byte>): seq<byte> {
    [icmpType, 0] + ToBytes(checksum) + ToBytes(id) + ToBytes(sequence) + payload
  }

  lemma {:induction false} SumPacket(icmpType: byte, checksum: u16, id: u16, sequence: u16, payload: seq<byte>)
    ensures Sum(Packet(icmpType, checksum, id, sequence, payload)) == Sum(Packet(icmpType, 0, id, sequence, payload)) + checksum
  {
    SumWord(icmpType, 0, ToBytes(checksum) + (ToBytes(id) + ToBytes(sequence) + payload));
    SumWord(icmpType, 0, ToBytes(0) + (ToBytes(id) + ToBytes(sequence) + payload));
    var rest := ToBytes(id) + ToBytes(sequence) + payload;
    SumWord(checksum / 0x100, checksum % 0x100, rest);
    SumWord(0, 0, rest);
    assert Packet(icmpType, checksum, id, sequence, payload) == [icmpType, 0] + (ToBytes(checksum) + rest);
    assert Packet(icmpType, 0, id, sequence, payload) == [icmpType, 0] + (ToBytes(0) + rest);
  }

  lemma {:induction false} SumWord(hi: byte, lo: byte, rest: seq<byte>)
    ensures Sum([hi, lo] + rest) == Word(hi, lo) + Sum(rest)
  {
    assert ([hi, lo] + rest)[2..] == rest;
  }

  /** A message as RFC 792 lays it out: type, code 0, checksum, and, big-endian, identifier and sequence
      number, then the payload; summed as it stands it gives all ones. */
  predicate LaidOut(packet: seq<byte>, icmpType: byte, id: u16, sequence: u16, payload: seq<byte>) {
    && |packet| == 8 + |payload| && packet[0] == icmpType && packet[1] == 0
    && packet[4..6] == [id / 0x100, id % 0x100] && packet[6..8] == [sequence / 0x100, sequence % 0x100] && packet[8..] == payload
    && Fold(Sum(packet)) == 0xFFFF
  }

  /** Pushes the fields with a zero checksum, sums, and overwrites bytes 2 and 3. The result sums
      to all ones, whatever the payload and its parity. */
  method BuildIcmpEcho(icmpType: byte, id: u16, sequence: u16, payload: seq<byte>) returns (packet: seq<byte>)
    ensures packet == Echo(icmpType, id, sequence, payload)
    ensures LaidOut(packet, icmpType, id, sequence, payload)
  {
    packet := [];
    packet := packet + [icmpType];
    packet := packet + [0];
    packet := packet + [0, 0];
    packet := packet + ToBytes(id);
    packet := packet + ToBytes(sequence);
    packet := packet + payload;
    assert packet == Packet(icmpType, 0, id, sequence, payload);
    var sum := Checksum(packet);
    var field := ToBytes(sum);
    packet := packet[2 := field[0]][3 := field[1]];
    assert packet == Packet(icmpType, sum, id, sequence, payload);
    EchoLaidOut(icmpType, id, sequence, payload);
    hide LaidOut, Fold, Sum, Checksum;
  }

  lemma {:induction false} EchoLaidOut(icmpType: byte, id: u16, sequence: u16, payload: seq<byte>)
    ensures LaidOut(Echo(icmpType, id, sequence, payload), icmpType, id, sequence, payload)
  {
    var blank := Packet(icmpType, 0, id, sequence, payload);
    SumPacket(icmpType, Checksum(blank), id, sequence, payload);
    ComplementFolds(Sum(blank));
    hide Fold, Sum;
  }

  function Echo(icmpType: byte, id: u16, sequence: u16, payload: seq<byte>): seq<byte> {
    Packet(icmpType, Checksum(Packet(icmpType, 0, id, sequence, payload)), id, sequence, payload)
  }

  // ----- recognising replies -----

  function ReplyMatches(packet: seq<byte>, offset: nat, expectedType: byte, id: u16, sequence: u16,
                        expectedPayload: Option<seq<byte>>, minimumPayload: nat): bool
  {
    if offset + 8 > |packet| || packet[offset] != expectedType then false
    else
      var payload := packet[offset + 8..];
      && Word(packet[offset + 4], packet[offset + 5]) == id
      && Word(packet[offset + 6], packet[offset + 7]) == sequence
      && |payload| >= minimumPayload
      && (expectedPayload.None? || payload == expectedPayload.value)
  }

  /** Behind any header, a built packet is recognised exactly when type, identifier, sequence number
      and (if one is expected) payload are the expected ones and the payload is long enough. */
  lemma {:induction false} MatchesExactly(header: seq<byte>, icmpType: byte, id: u16, sequence: u16, payload: seq<byte>,
                                          expectedType: byte, expectedId: u16, expectedSequence: u16,
                                          expectedPayload: Option<seq<byte>>, minimumPayload: nat)
    ensures ReplyMatches(header + Echo(icmpType, id, sequence, payload), |header|,
                         expectedType, expectedId, expectedSequence, expectedPayload, minimumPayload)
            <==> icmpType == expectedType && id == expectedId && sequence == expectedSequence
                 && |payload| >= minimumPayload && (expectedPayload.None? || payload == expectedPayload.value)
  {
    var echo := Echo(icmpType, id, sequence, payload);
    var packet, o := header + echo, |header|;
    assert echo[4] == id / 0x100 && echo[5] == id % 0x100;
    assert echo[6] == sequence / 0x100 && echo[7] == sequence % 0x100;
    assert echo[8..] == payload;
    assert forall i :: 0 <= i < 8 ==> packet[o + i] == echo[i];
    assert packet[o + 8..] == payload;
  }

  // ----- identifiers -----

  /** The counter all probes of a process share. */
  class IcmpIds {
    var next: u16

    constructor ()
      ensures next == IdAt(0)
    {
      next := 0xB100;
    }

    method NextId(ghost drawn: nat) returns (id: u16)
      requires next == IdAt(drawn)
      modifies this
      ensures id == IdAt(drawn) && next == IdAt(drawn + 1)
    {
      id := next;
      next := NextPort(next);
    }
  }

  /** The identifier drawn after `k` others. */
  function IdAt(k: nat): u16 {
    if k == 0 then 0xB100 else NextPort(IdAt(k - 1))
  }

  lemma {:induction false} IdIsMod(k: nat)
    ensures IdAt(k) == (0xB100 + k) % 0x1_0000
  {
    if k == 0 {
    } else {
      IdIsMod(k - 1);
    }
  }

  /** While fewer than 65536 identifiers are outstanding no reply to one probe is credited to another,
      however the probes of different sweeps are interleaved. */
  lemma {:induction false} NoCrossCredit(header: seq<byte>, k: nat, l: nat, replyType: byte, sequence: u16, payload: seq<byte>,
                                         expectedType: byte, expectedSequence: u16,
                                         expectedPayload: Option<seq<byte>>, minimumPayload: nat)
    requires k != l && -0x1_0000 < k - l < 0x1_0000
    ensures !ReplyMatches(header + Echo(replyType, IdAt(k), sequence, payload), |header|,
                          expectedType, IdAt(l), expectedSequence, expectedPayload, minimumPayload)
  {
    MatchesExactly(header, replyType, IdAt(k), sequence, payload, expectedType, IdAt(l), expectedSequence,
                   expectedPayload, minimumPayload);
    IdIsMod(k);
    IdIsMod(l);
  }

  // ----- one probe -----

  function RequestPayload(icmpType: byte): seq<byte> {
    if icmpType == 13 then [0, 0, 0, 0, 0, 0, 0, 0, 0, 0, 0, 0]
    else if icmpType == 15 then []
    else if icmpType == 17 then [0, 0, 0, 0]
    else BIMAP
  }

  const BIMAP: seq<byte> := [0x62, 0x69, 0x6D, 0x61, 0x70]

  function ReplyType(icmpType: byte): Option<byte> {
    if icmpType == 8 then Some(0)
    else if icmpType == 13 then Some(14)
    else if icmpType == 15 then Some(16)
    else if icmpType == 17 then Some(18)
    else if icmpType == 42 then Some(43)
    else None
  }

  function ExpectedPayload(icmpType: byte): Option<seq<byte>> {
    if icmpType == 8 then Some(BIMAP) else None
  }

  function MinimumPayload(icmpType: byte): nat {
    if icmpType == 8 then 5 else if icmpType == 13 then 12 else if icmpType == 17 then 4 else 0
  }

  /** A datagram as a raw socket delivers it, with its IPv4 header. */
  function HeaderLength(datagram: seq<byte>): Option<nat> {
    if |datagram| < 20 then None else Some((datagram[0] % 16) * 4)
  }

  predicate AnswersProbe(icmpType: byte, id: u16, sequence: u16, dest: seq<byte>, datagram: seq<byte>) {
    var offset := HeaderLength(datagram);
    && offset.Some? && offset.value + 8 <= |datagram| && ReplyType(icmpType).Some?
    && ReplyMatches(datagram, offset.value, ReplyType(icmpType).value, id, sequence,
                    ExpectedPayload(icmpType), MinimumPayload(icmpType))
    && datagram[12..16] == dest
  }

  /** What happens while a probe waits: a datagram arrives, the socket's timer cannot be set, or a read
      fails or times out. */
  datatype Event = Arrival(bytes: seq<byte>) | TimerError(timerError: string) | ReceiveError(readError: string) | ReadTimeout

  /** What one probe meets: a failure before or at the send, or the events up to its deadline, in order. */
  datatype Surroundings = Surroundings(setupError: Option<string>, events: seq<Event>)

  /** A datagram as the 1500-byte receive buffer holds it. */
  function Delivered(datagram: seq<byte>): (d: seq<byte>)
    ensures |d| <= 1500
  {
    if |datagram| > 1500 then datagram[..1500] else datagram
  }

  /** One probe: its type, identifier and sequence number, and whom it asks. */
  datatype Question = Question(icmpType: byte, id: u16, sequence: u16, dest: seq<byte>)

  predicate Answered(q: Question, event: Event) {
    event.Arrival? && AnswersProbe(q.icmpType, q.id, q.sequence, q.dest, Delivered(event.bytes))
  }

  /** A datagram that does not answer the probe. */
  predicate Stray(q: Question, event: Event) {
    event.Arrival? && !Answered(q, event)
  }

  function Await(q: Question, sent: u64, events: seq<Event>): ProtocolResult {
    if events == [] then Fail("timeout", sent, 0)
    else
      match events[0]
      case TimerError(e) => Error(e)
      case ReadTimeout => Fail("timeout", sent, 0)
      case ReceiveError(e) => Fail("no-reply: " + e, sent, 0)
      case Arrival(bytes) =>
        if Answered(q, events[0]) then Pass(sent, |Delivered(bytes)|) else Await(q, sent, events[1..])
  }

  function Probe(q: Question, net: Surroundings): ProtocolResult {
    if net.setupError.Some? then Error(net.setupError.value) else Await(q, 8 + |RequestPayload(q.icmpType)|, net.events)
  }

  /** The request of a probe: twelve zero bytes in a timestamp request, none in an information request, four in
      an address mask request, and else "bimap". */
  predicate Requests(q: Question, packet: seq<byte>) {
    LaidOut(packet, q.icmpType, q.id, q.sequence,
            if q.icmpType == 13 then [0, 0, 0, 0, 0, 0, 0, 0, 0, 0, 0, 0]
            else if q.icmpType == 15 then []
            else if q.icmpType == 17 then [0, 0, 0, 0]
            else [0x62, 0x69, 0x6D, 0x61, 0x70])
  }

  /** Sends one request and looks through what arrives. */
  method RawEcho(q: Question, net: Surroundings) returns (result: ProtocolResult, request: Option<seq<byte>>)
    ensures result == Probe(q, net)
    ensures if net.setupError.Some? then request == None else request.Some? && Requests(q, request.value)
  {
    if net.setupError.Some? {
      return Error(net.setupError.value), None;
    }
    var packet := BuildIcmpEcho(q.icmpType, q.id, q.sequence, RequestPayload(q.icmpType));
    request := Some(packet);
    assert net.events[0..] == net.events;
    for i := 0 to |net.events|
      invariant Probe(q, net) == Await(q, |packet|, net.events[i..])
    {
      assert net.events[i..][0] == net.events[i] && net.events[i..][1..] == net.events[i + 1..];
      match net.events[i] {
        case TimerError(e) =>
          return Error(e), request;
        case ReadTimeout =>
          return Fail("timeout", |packet|, 0), request;
        case ReceiveError(e) =>
          return Fail("no-reply: " + e, |packet|, 0), request;
        case Arrival(bytes) =>
          var datagram := Delivered(bytes);
          var offset := HeaderLength(datagram);
          if offset.None? || offset.value + 8 > |datagram| {
            continue;
          }
          var expected := ReplyType(q.icmpType);
          var sourceMatches := datagram[12..16] == q.dest;
          if expected.Some?
             && ReplyMatches(datagram, offset.value, expected.value, q.id, q.sequence,
                             ExpectedPayload(q.icmpType), MinimumPayload(q.icmpType))
             && sourceMatches {
            return Pass(|packet|, |datagram|), request;
          }
      }
    }
    result := Fail("timeout", |packet|, 0);
  }

  /** The first event that is not a stray datagram. */
  ghost predicate Decides(q: Question, events: seq<Event>, k: nat) {
    k < |events| && !Stray(q, events[k]) && forall j :: 0 <= j < k ==> Stray(q, events[j])
  }

  /** A probe ends in an error exactly when it cannot be sent, or its timer fails while only strays
      have arrived. */
  ghost predicate Troubled(q: Question, net: Surroundings) {
    net.setupError.Some? || exists k: nat :: Decides(q, net.events, k) && net.events[k].TimerError?
  }

  /** It passes exactly when it is sent and an answer arrives before anything goes wrong. */
  ghost predicate GetsAnswer(q: Question, net: Surroundings) {
    net.setupError.None? && exists k: nat :: Decides(q, net.events, k) && Answered(q, net.events[k])
  }

  lemma {:induction false} AwaitDecided(q: Question, sent: u64, events: seq<Event>, k: nat)
    requires Decides(q, events, k)
    ensures Await(q, sent, events) == Await(q, sent, [events[k]])
  {
    hide Answered;
    if k == 0 {
    } else {
      assert Stray(q, events[0]);
      AwaitDecided(q, sent, events[1..], k - 1);
    }
  }

  lemma {:induction false} AwaitStrays(q: Question, sent: u64, events: seq<Event>)
    requires forall j :: 0 <= j < |events| ==> Stray(q, events[j])
    ensures Await(q, sent, events) == Fail("timeout", sent, 0)
  {
    hide Answered;
    if events == [] {
    } else {
      assert Stray(q, events[0]);
      AwaitStrays(q, sent, events[1..]);
    }
  }

  lemma {:induction false} FindDecision(q: Question, events: seq<Event>) returns (k: nat)
    requires exists j :: 0 <= j < |events| && !Stray(q, events[j])
    ensures Decides(q, events, k)
  {
    hide Stray;
    if !Stray(q, events[0]) {
      k := 0;
    } else {
      var rest := FindDecision(q, events[1..]);
      k := rest + 1;
      assert forall j :: 0 < j < k ==> events[j] == events[1..][j - 1];
    }
  }

  /** What decides a probe, for every order of events; a type without a known reply never passes. */
  lemma {:induction false} ProbeExactly(q: Question, net: Surroundings)
    ensures Probe(q, net).Error? <==> Troubled(q, net)
    ensures Probe(q, net).Pass? <==> GetsAnswer(q, net)
    ensures Probe(q, net).Pass? ==> ReplyType(q.icmpType).Some?
    ensures Probe(q, net).Fail? ==> Probe(q, net).reason != "" && Probe(q, net).receivedBytes == 0
    ensures !Probe(q, net).Error? ==> Probe(q, net).sentBytes == 8 + |RequestPayload(q.icmpType)|
  {
    var sent := 8 + |RequestPayload(q.icmpType)|;
    if exists j :: 0 <= j < |net.events| && !Stray(q, net.events[j]) {
      var k := FindDecision(q, net.events);
      AwaitDecided(q, sent, net.events, k);
      OneDecision(q, net.events, k);
      assert Answered(q, net.events[k]) ==> ReplyType(q.icmpType).Some?;
      hide Decides, Answered;
    } else {
      AwaitStrays(q, sent, net.events);
      hide Answered;
    }
  }

  lemma {:induction false} OneDecision(q: Question, events: seq<Event>, k: nat)
    requires Decides(q, events, k)
    ensures forall j: nat :: Decides(q, events, j) ==> j == k
  {
    hide Stray;
  }

  /** Which messages answer which: the echo of an echo request, a timestamp with its three times, an
      information reply, an address mask with the mask, an extended echo reply; nothing else does. */
  predicate IsReply(asked: byte, answered: byte, payload: seq<byte>) {
    || (asked == 8 && answered == 0 && payload == [0x62, 0x69, 0x6D, 0x61, 0x70])
    || (asked == 13 && answered == 14 && |payload| >= 12)
    || (asked == 15 && answered == 16)
    || (asked == 17 && answered == 18 && |payload| >= 4)
    || (asked == 42 && answered == 43)
  }

  /** When an IPv4 datagram, as far as the buffer of 1500 bytes holds it, answers a probe: it comes from the
      host that was asked, and behind its header, of the length that the header gives, is such a reply under
      the probe's identifier and sequence number. */
  lemma {:induction false} AnsweredExactly(q: Question, datagram: seq<byte>)
    ensures Answered(q, Arrival(datagram)) <==>
            var d := if |datagram| > 1500 then datagram[..1500] else datagram;
            && |d| >= 20
            && var h := 4 * (d[0] % 16);
            && h + 8 <= |d| && d[12..16] == q.dest
            && IsReply(q.icmpType, d[h], d[h + 8..])
            && d[h + 4..h + 6] == [q.id / 0x100, q.id % 0x100] && d[h + 6..h + 8] == [q.sequence / 0x100, q.sequence % 0x100]
  {
    var d := Delivered(datagram);
    if |d| >= 20 && 4 * (d[0] % 16) + 8 <= |d| {
      RepliesExactly(q, d, 4 * (d[0] % 16));
    }
    hide IsReply, ReplyMatches, ReplyType, ExpectedPayload, MinimumPayload;
  }

  lemma {:induction false} RepliesExactly(q: Question, d: seq<byte>, h: nat)
    requires h + 8 <= |d|
    ensures ReplyType(q.icmpType).Some?
            && ReplyMatches(d, h, ReplyType(q.icmpType).value, q.id, q.sequence, ExpectedPayload(q.icmpType), MinimumPayload(q.icmpType))
            <==>
            && IsReply(q.icmpType, d[h], d[h + 8..])
            && d[h + 4..h + 6] == [q.id / 0x100, q.id % 0x100] && d[h + 6..h + 8] == [q.sequence / 0x100, q.sequence % 0x100]
  {
    hide Word;
    WordBytes(d, h + 4, q.id);
    WordBytes(d, h + 6, q.sequence);
  }

  lemma {:induction false} WordBytes(d: seq<byte>, i: nat, n: u16)
    requires i + 2 <= |d|
    ensures Word(d[i], d[i + 1]) == n <==> d[i..i + 2] == [n / 0x100, n % 0x100]
  {
    var word, x, y := d[i..i + 2], n / 0x100, n % 0x100;
    assert word == [d[i], d[i + 1]];
    Pairs(d[i], d[i + 1], x, y);
  }

  lemma {:induction false} Pairs(a: byte, b: byte, x: int, y: int)
    ensures [a, b] == [x, y] <==> a == x && b == y
  {
    assert [a, b][0] == a && [a, b][1] == b && [x, y][0] == x && [x, y][1] == y;
  }

  /** What a probe ends in once this event decides it. */
  predicate Decided(sent: u64, event: Event, result: ProtocolResult) {
    match event
    case TimerError(e) => result == Error(e)
    case ReadTimeout => result == Fail("timeout", sent, 0)
    case ReceiveError(e) => result == Fail("no-reply: " + e, sent, 0)
    case Arrival(bytes) => result == Pass(sent, if |bytes| > 1500 then 1500 else |bytes|)
  }

  /** The result of a probe, whole: the error before its request is out; what the first event that is no
      stray datagram says; or, if there is none up to the deadline, a timeout. */
  lemma {:induction false} ProbeSays(q: Question, net: Surroundings, request: seq<byte>)
    requires Requests(q, request)
    ensures net.setupError.Some? ==> Probe(q, net) == Error(net.setupError.value)
    ensures net.setupError.None? ==>
      && (forall k: nat :: Decides(q, net.events, k) ==> Decided(|request|, net.events[k], Probe(q, net)))
      && ((forall k: nat :: !Decides(q, net.events, k)) ==> Probe(q, net) == Fail("timeout", |request|, 0))
  {
    hide Answered, Stray, Requests, Decided, Probe, Await;
    ProbeAwaits(q, net, request);
    var sent := |request|;
    if exists j :: 0 <= j < |net.events| && !Stray(q, net.events[j]) {
      var k := FindDecision(q, net.events);
      AwaitDecided(q, sent, net.events, k);
      OneDecision(q, net.events, k);
      DecidedAlone(q, sent, net.events, k);
    } else {
      AwaitStrays(q, sent, net.events);
    }
  }

  lemma {:induction false} ProbeAwaits(q: Question, net: Surroundings, request: seq<byte>)
    requires Requests(q, request)
    ensures |request| <= 20
    ensures Probe(q, net) == if net.setupError.Some? then Error(net.setupError.value) else Await(q, |request|, net.events)
  {
    hide Answered, Fold, Sum, Await;
  }

  lemma {:induction false} DecidedAlone(q: Question, sent: u64, events: seq<Event>, k: nat)
    requires Decides(q, events, k)
    ensures Decided(sent, events[k], Await(q, sent, [events[k]]))
  {
    hide Answered;
  }

  // ----- the sweep -----

  datatype NamedType = NamedType(icmpType: byte, name: string)

  const ALL_ICMP_TYPES: seq<NamedType> := [
    NamedType(0, "echo-reply"), NamedType(3, "dest-unreachable"), NamedType(4, "source-quench"),
    NamedType(5, "redirect"), NamedType(8, "echo-request"), NamedType(9, "router-advertisement"),
    NamedType(10, "router-solicitation"), NamedType(11, "time-exceeded"), NamedType(12, "param-problem"),
    NamedType(13, "timestamp"), NamedType(14, "timestamp-reply"), NamedType(15, "info-request"),
    NamedType(16, "info-reply"), NamedType(17, "address-mask"), NamedType(18, "address-mask-reply"),
    NamedType(30, "traceroute"), NamedType(31, "datagram-conversion"), NamedType(33, "ipv6-where-are-you"),
    NamedType(34, "ipv6-i-am-here"), NamedType(35, "mobile-registration"), NamedType(37, "domain-name-request"),
    NamedType(38, "domain-name-reply"), NamedType(40, "photuris"), NamedType(42, "extended-echo")]

  /** The types of the table, in the order in which they are asked. */
  lemma {:induction false} TableTypes()
    ensures |ALL_ICMP_TYPES| == 24
    ensures seq(|ALL_ICMP_TYPES|, j requires 0 <= j < |ALL_ICMP_TYPES| => ALL_ICMP_TYPES[j].icmpType) ==
            [0, 3, 4, 5, 8, 9, 10, 11, 12, 13, 14, 15, 16, 17, 18, 30, 31, 33, 34, 35, 37, 38, 40, 42]
  {
  }

  /** `a += b` on a `u64`. */
  function Add64(a: u64, b: u64): u64 {
    (a + b) % 0x1_0000_0000_0000_0000
  }

  function Describe(t: NamedType, reason: string): string {
    "type " + ToString(t.icmpType) + " (" + t.name + "): " + reason
  }

  /** The complaints of one kind, in table order. */
  function Complaints(types: seq<NamedType>, results: seq<ProtocolResult>, errors: bool): seq<string>
    requires |types| == |results|
  {
    if types == [] then []
    else
      var n := |types| - 1;
      Complaints(types[..n], results[..n], errors)
      + (if (if errors then results[n].Error? else results[n].Fail?) then [Describe(types[n], results[n].reason)] else [])
  }

  function SentTotal(results: seq<ProtocolResult>): u64 {
    if results == [] then 0
    else
      var n := |results| - 1;
      if results[n].Error? then SentTotal(results[..n]) else Add64(SentTotal(results[..n]), results[n].sentBytes)
  }

  function ReceivedTotal(results: seq<ProtocolResult>): u64 {
    if results == [] then 0
    else
      var n := |results| - 1;
      if results[n].Error? then ReceivedTotal(results[..n]) else Add64(ReceivedTotal(results[..n]), results[n].receivedBytes)
  }

  lemma {:induction false} NoComplaints(types: seq<NamedType>, results: seq<ProtocolResult>, errors: bool)
    requires |types| == |results|
    ensures Complaints(types, results, errors) != [] <==>
            exists r <- results :: if errors then r.Error? else r.Fail?
  {
    if types == [] {
    } else {
      var n := |types| - 1;
      NoComplaints(types[..n], results[..n], errors);
      assert results == results[..n] + [results[n]];
    }
  }

  function Swept(types: seq<NamedType>, results: seq<ProtocolResult>): ProtocolResult
    requires |types| == |results|
  {
    var errors, failures := Complaints(types, results, true), Complaints(types, results, false);
    if errors != [] then Error(JoinBy("; ", errors + failures))
    else if failures != [] then Fail(JoinBy("; ", failures), SentTotal(results), ReceivedTotal(results))
    else Pass(SentTotal(results), ReceivedTotal(results))
  }

  /** The verdict of a sweep over the results of its probes: an error if any probe had one, else a
      failure if any failed, else a pass; complaints in table order, errors before failures. */
  method Sweep(types: seq<NamedType>, results: seq<ProtocolResult>) returns (verdict: ProtocolResult)
    requires |types| == |results|
    ensures verdict.Error? <==> exists r <- results :: r.Error?
    ensures verdict.Pass? <==> forall r <- results :: r.Pass?
    ensures verdict == Swept(types, results)
  {
    var sentBytes, receivedBytes: u64 := 0, 0;
    var failures: seq<string>, errors: seq<string> := [], [];
    for i := 0 to |types|
      invariant sentBytes == SentTotal(results[..i]) && receivedBytes == ReceivedTotal(results[..i])
      invariant errors == Complaints(types[..i], results[..i], true)
      invariant failures == Complaints(types[..i], results[..i], false)
    {
      assert results[..i + 1][..i] == results[..i] && types[..i + 1][..i] == types[..i];
      match results[i] {
        case Pass(sent, received) =>
          sentBytes := Add64(sentBytes, sent);
          receivedBytes := Add64(receivedBytes, received);
        case Fail(reason, sent, received) =>
          sentBytes := Add64(sentBytes, sent);
          receivedBytes := Add64(receivedBytes, received);
          failures := failures + [Describe(types[i], reason)];
        case Error(reason) =>
          errors := errors + [Describe(types[i], reason)];
      }
    }
    assert results[..|types|] == results && types[..|types|] == types;
    NoComplaints(types, results, true);
    NoComplaints(types, results, false);
    if errors != [] {
      errors := errors + failures;
      verdict := Error(JoinBy("; ", errors));
    } else if failures != [] {
      verdict := Fail(JoinBy("; ", failures), sentBytes, receivedBytes);
    } else {
      verdict := Pass(sentBytes, receivedBytes);
    }
  }

  /** The bytes that all results but errors report, without wrap-around. */
  function TotalBytes(results: seq<ProtocolResult>, sent: bool): nat {
    if results == [] then 0
    else
      var n := |results| - 1;
      TotalBytes(results[..n], sent)
      + (if results[n].Error? then 0 else if sent then results[n].sentBytes else results[n].receivedBytes)
  }

  lemma {:induction false} TotalsWrap(results: seq<ProtocolResult>)
    ensures SentTotal(results) == TotalBytes(results, true) % 0x1_0000_0000_0000_0000
    ensures ReceivedTotal(results) == TotalBytes(results, false) % 0x1_0000_0000_0000_0000
  {
    hide Add64;
    if results == [] {
    } else {
      var n := |results| - 1;
      TotalsWrap(results[..n]);
      if !results[n].Error? {
        AddWraps(TotalBytes(results[..n], true), results[n].sentBytes);
        AddWraps(TotalBytes(results[..n], false), results[n].receivedBytes);
      }
    }
  }

  lemma {:induction false} AddWraps(a: nat, b: u64)
    ensures Add64(a % 0x1_0000_0000_0000_0000, b) == (a + b) % 0x1_0000_0000_0000_0000
  {
    var q := a / 0x1_0000_0000_0000_0000;
    assert a == q * 0x1_0000_0000_0000_0000 + a % 0x1_0000_0000_0000_0000;
  }

  /** The positions of the results of one kind, ascending, and the text for each. */
  ghost predicate Complains(types: seq<NamedType>, results: seq<ProtocolResult>, errors: bool, at: seq<nat>, texts: seq<string>)
    requires |types| == |results|
  {
    && (forall j, k :: 0 <= j < k < |at| ==> at[j] < at[k])
    && (forall i: nat :: i in at <==> i < |results| && (if errors then results[i].Error? else results[i].Fail?))
    && |texts| == |at|
    && forall j :: 0 <= j < |at| ==>
         var i := at[j];
         i < |results| && !results[i].Pass?
         && texts[j] == "type " + ToString(types[i].icmpType) + " (" + types[i].name + "): " + results[i].reason
  }

  lemma {:induction false} ComplaintsSay(types: seq<NamedType>, results: seq<ProtocolResult>, errors: bool) returns (at: seq<nat>)
    requires |types| == |results|
    ensures Complains(types, results, errors, at, Complaints(types, results, errors))
  {
    hide ToString;
    if types == [] {
      at := [];
    } else {
      hide Complaints, Complains;
      var n := |types| - 1;
      at := ComplaintsSay(types[..n], results[..n], errors);
      var texts := Complaints(types[..n], results[..n], errors);
      ComplaintsNext(types, results, errors);
      ComplainsNext(types, results, errors, at, texts);
      if if errors then results[n].Error? else results[n].Fail? {
        at := at + [n];
      }
    }
  }

  lemma {:induction false} ComplaintsNext(types: seq<NamedType>, results: seq<ProtocolResult>, errors: bool)
    requires |types| == |results| > 0
    ensures var n := |types| - 1;
            Complaints(types, results, errors) ==
            Complaints(types[..n], results[..n], errors)
            + (if if errors then results[n].Error? else results[n].Fail?
               then ["type " + ToString(types[n].icmpType) + " (" + types[n].name + "): " + results[n].reason] else [])
  {
    hide ToString;
  }

  lemma {:induction false} ComplainsNext(types: seq<NamedType>, results: seq<ProtocolResult>, errors: bool, at: seq<nat>, texts: seq<string>)
    requires |types| == |results| > 0 && Complains(types[..|types| - 1], results[..|types| - 1], errors, at, texts)
    ensures var n := |types| - 1;
            if if errors then results[n].Error? else results[n].Fail?
            then Complains(types, results, errors, at + [n],
                           texts + ["type " + ToString(types[n].icmpType) + " (" + types[n].name + "): " + results[n].reason])
            else Complains(types, results, errors, at, texts)
  {
    hide ToString;
  }

  /** The verdict of a sweep, whole: the complaints of the probes that ended in an error and then of those
      that failed, each in table order, joined by semicolons; and, unless it is an error, the bytes of all
      probes, which are counted in 64 bits. */
  lemma {:induction false} SweptSays(types: seq<NamedType>, results: seq<ProtocolResult>)
    returns (errorsAt: seq<nat>, errors: seq<string>, failuresAt: seq<nat>, failures: seq<string>)
    requires |types| == |results|
    ensures Complains(types, results, true, errorsAt, errors) && Complains(types, results, false, failuresAt, failures)
    ensures var sent, received := TotalBytes(results, true) % 0x1_0000_0000_0000_0000, TotalBytes(results, false) % 0x1_0000_0000_0000_0000;
            Swept(types, results) ==
            if errors != [] then Error(JoinBy("; ", errors + failures))
            else if failures != [] then Fail(JoinBy("; ", failures), sent, received)
            else Pass(sent, received)
  {
    errors, failures := Complaints(types, results, true), Complaints(types, results, false);
    errorsAt := ComplaintsSay(types, results, true);
    failuresAt := ComplaintsSay(types, results, false);
    TotalsWrap(results);
    hide Complaints, Complains, SentTotal, ReceivedTotal, TotalBytes;
  }

  /** How many of the first `n` types time is left for. */
  function Probed(timeLeft: nat -> bool, n: nat): nat {
    if n == 0 then 0 else Probed(timeLeft, n - 1) + (if timeLeft(n - 1) then 1 else 0)
  }

  /** The j-th question of a sweep that starts after `drawn` identifiers. */
  function Asked(types: seq<NamedType>, drawn: nat, dest: seq<byte>, timeLeft: nat -> bool, j: nat): Question
    requires j < |types| <= 0x1_0000
  {
    Question(types[j].icmpType, IdAt(drawn + Probed(timeLeft, j)), j, dest)
  }

  /** The result a sweep records for its j-th type. */
  function Recorded(types: seq<NamedType>, drawn: nat, dest: seq<byte>, timeLeft: nat -> bool, net: nat -> Surroundings, j: nat)
    : ProtocolResult
    requires j < |types| <= 0x1_0000
  {
    if timeLeft(j) then Probe(Asked(types, drawn, dest, timeLeft, j), net(j)) else Fail("timeout", 0, 0)
  }

  function AllRecorded(types: seq<NamedType>, drawn: nat, dest: seq<byte>, timeLeft: nat -> bool, net: nat -> Surroundings)
    : seq<ProtocolResult>
    requires |types| <= 0x1_0000
  {
    seq(|types|, j requires 0 <= j < |types| => Recorded(types, drawn, dest, timeLeft, net, j))
  }

  lemma {:induction false} ProbedIsSize(timeLeft: nat -> bool, n: nat)
    ensures Probed(timeLeft, n) == |set i <- Upto(n) | timeLeft(i)|
  {
    if n == 0 {
      assert (set i <- Upto(0) | timeLeft(i)) == {};
    } else {
      ProbedIsSize(timeLeft, n - 1);
      var before := set i <- Upto(n - 1) | timeLeft(i);
      assert (set i <- Upto(n) | timeLeft(i)) == before + (if timeLeft(n - 1) then {n - 1} else {});
    }
  }

  /** What a sweep records for its j-th type: if time is left, what a probe of that type ends in, under
      sequence number j and an identifier that counts the probes before it; else a timeout without bytes. */
  lemma {:induction false} RecordedSays(types: seq<NamedType>, drawn: nat, dest: seq<byte>, timeLeft: nat -> bool,
                                        net: nat -> Surroundings, j: nat)
    requires j < |types| <= 0x1_0000
    ensures var id := (0xB100 + drawn + |set i <- Upto(j) | timeLeft(i)|) % 0x1_0000;
            Recorded(types, drawn, dest, timeLeft, net, j) ==
            if timeLeft(j) then Probe(Question(types[j].icmpType, id, j, dest), net(j)) else Fail("timeout", 0, 0)
  {
    ProbedIsSize(timeLeft, j);
    IdIsMod(drawn + Probed(timeLeft, j));
    hide Probe, IdAt, Probed;
  }

  method ProbeOne(types: seq<NamedType>, ids: IcmpIds, ghost drawn: nat, dest: seq<byte>,
                  timeLeft: nat -> bool, net: nat -> Surroundings, j: nat)
    returns (result: ProtocolResult)
    requires j < |types| <= 0x1_0000 && ids.next == IdAt(drawn + Probed(timeLeft, j))
    modifies ids
    ensures ids.next == IdAt(drawn + Probed(timeLeft, j + 1))
    ensures result == Recorded(types, drawn, dest, timeLeft, net, j)
  {
    hide Probe, IdAt;
    result := Fail("timeout", 0, 0);
    if timeLeft(j) {
      var id := ids.NextId(drawn + Probed(timeLeft, j));
      var request: Option<seq<byte>>;
      result, request := RawEcho(Question(types[j].icmpType, id, j, dest), net(j));
    }
  }

  /** One probe for each type for which time is left, each with the next identifier. */
  method ProbeAll(types: seq<NamedType>, ids: IcmpIds, ghost drawn: nat, dest: seq<byte>,
                  timeLeft: nat -> bool, net: nat -> Surroundings)
    returns (results: seq<ProtocolResult>)
    requires ids.next == IdAt(drawn) && |types| <= 0x1_0000
    modifies ids
    ensures ids.next == IdAt(drawn + Probed(timeLeft, |types|))
    ensures results == AllRecorded(types, drawn, dest, timeLeft, net)
  {
    hide Probe, IdAt, Recorded;
    results := [];
    for i := 0 to |types|
      invariant ids.next == IdAt(drawn + Probed(timeLeft, i)) && |results| == i
      invariant forall j: nat :: j < i ==> results[j] == Recorded(types, drawn, dest, timeLeft, net, j)
    {
      var result := ProbeOne(types, ids, drawn, dest, timeLeft, net, i);
      results := results + [result];
    }
  }

  /** The worker of a full sweep. No network makes it pass, because most types of the table have no
      reply to wait for; it is an error exactly when some probe for which time is left is troubled. */
  method FullSweep(ids: IcmpIds, ghost drawn: nat, dest: seq<byte>, timeLeft: nat -> bool, net: nat -> Surroundings)
    returns (verdict: ProtocolResult)
    requires ids.next == IdAt(drawn)
    modifies ids
    ensures ids.next == IdAt(drawn + Probed(timeLeft, |ALL_ICMP_TYPES|))
    ensures verdict == Swept(ALL_ICMP_TYPES, AllRecorded(ALL_ICMP_TYPES, drawn, dest, timeLeft, net))
    ensures !verdict.Pass?
    ensures verdict.Error? <==> SomeTroubled(drawn, dest, timeLeft, net)
  {
    hide Probe, IdAt, Troubled, Probed, GetsAnswer, Complaints, Swept;
    var results := ProbeAll(ALL_ICMP_TYPES, ids, drawn, dest, timeLeft, net);
    forall j: nat | j < |ALL_ICMP_TYPES|
      ensures results[j].Error? <==> timeLeft(j) && Troubled(Asked(ALL_ICMP_TYPES, drawn, dest, timeLeft, j), net(j))
      ensures results[j].Pass? ==> ReplyType(ALL_ICMP_TYPES[j].icmpType).Some?
    {
      ProbeExactly(Asked(ALL_ICMP_TYPES, drawn, dest, timeLeft, j), net(j));
    }
    assert !results[0].Pass? by {
      assert ALL_ICMP_TYPES[0].icmpType == 0;
    }
    assert results[0] in results;
    verdict := Sweep(ALL_ICMP_TYPES, results);
    assert (exists r <- results :: r.Error?) <==> exists k: nat :: k < |results| && results[k].Error?;
  }

  ghost predicate SomeTroubled(drawn: nat, dest: seq<byte>, timeLeft: nat -> bool, net: nat -> Surroundings) {
    exists j: nat ::
      j < |ALL_ICMP_TYPES| && timeLeft(j) && Troubled(Asked(ALL_ICMP_TYPES, drawn, dest, timeLeft, j), net(j))
  }

  /** A worker that dies with this error after some probes. */
  datatype Crash = Crash(probes: nat, error: string)

  /** A full sweep as either end runs it. It passes exactly at a target that has the capability, and
      is an error exactly when the capability is missing, or at an initiator when the address is not
      IPv4 (`dest` is missing), the worker dies, or some probe is troubled. */
  method IcmpFull(capable: bool, direction: Direction, dest: Option<seq<byte>>, crash: Option<Crash>,
                  ids: IcmpIds, ghost drawn: nat, timeLeft: nat -> bool, net: nat -> Surroundings)
    returns (verdict: ProtocolResult)
    requires ids.next == IdAt(drawn)
    modifies ids
    ensures verdict.Pass? <==> capable && direction == ServerToClient
    ensures verdict.Error? <==>
      || !capable
      || (direction == ClientToServer
          && (dest.None? || crash.Some? || SomeTroubled(drawn, dest.value, timeLeft, net)))
    ensures capable && direction == ClientToServer && dest.Some? && crash.None? ==>
      verdict == Swept(ALL_ICMP_TYPES, AllRecorded(ALL_ICMP_TYPES, drawn, dest.value, timeLeft, net))
    ensures !capable ==> verdict == Error("permission: ICMP requires root or CAP_NET_RAW")
    ensures capable && direction == ServerToClient ==> verdict == Pass(0, 0)
    ensures capable && direction == ClientToServer && dest.None? ==> verdict == Error("IPv6 not supported")
    ensures capable && direction == ClientToServer && dest.Some? && crash.Some? ==>
      verdict == Error("icmp worker: " + crash.value.error)
    ensures !capable || direction == ServerToClient || dest.None? ==> ids.next == old(ids.next)
  {
    if !capable {
      return Error("permission: ICMP requires root or CAP_NET_RAW");
    }
    if direction == ServerToClient {
      return Pass(0, 0);
    }
    if dest.None? {
      return Error("IPv6 not supported");
    }
    hide *;
    if crash.Some? {
      var n := if crash.value.probes < |ALL_ICMP_TYPES| then crash.value.probes else |ALL_ICMP_TYPES|;
      var lost := ProbeAll(ALL_ICMP_TYPES[..n], ids, drawn, dest.value, timeLeft, net);
      return Error("icmp worker: " + crash.value.error);
    }
    verdict := FullSweep(ids, drawn, dest.value, timeLeft, net);
  }
}
