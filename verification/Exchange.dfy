/** The payload exchanges behind the port tests: both halves over TCP and over UDP, across a network
    that may do anything, and which payload differences the scan lists afterwards. */
module Exchange {
  import opened Messages
  import opened PortText
  import opened ServerBatch

  const MISMATCH := "mismatch: received payload differs from expected data"

  /** A payload is a slice in memory, so its length fits a `u64`. */
  predicate IsSlice(payload: seq<byte>) {
    |payload| < 0x8000_0000_0000_0000
  }

  // ----- filling a buffer -----

  /** Copies as much of `bytes` as fits from `at` on and leaves the rest of the buffer as it was. */
  method CopyInto(buffer: array<byte>, at: nat, bytes: seq<byte>) returns (count: nat)
    requires at <= buffer.Length
    modifies buffer
    ensures count == (if |bytes| < buffer.Length - at then |bytes| else buffer.Length - at)
    ensures buffer[..at + count] == old(buffer[..at]) + bytes[..count]
    ensures buffer[at + count..] == old(buffer[at + count..])
  {
    count := if |bytes| < buffer.Length - at then |bytes| else buffer.Length - at;
    for i := 0 to count
      invariant buffer[..at + i] == old(buffer[..at]) + bytes[..i]
      invariant buffer[at + count..] == old(buffer[at + count..])
    {
      buffer[at + i] := bytes[i];
      assert buffer[..at + i + 1] == buffer[..at + i] + [bytes[i]];
    }
  }

  /** What a stream brings to one end: bytes in pieces of any size, and then whatever ends it: an
      error, the end of the stream or a timeout. */
  datatype Inbound = Inbound(pieces: seq<seq<byte>>, ending: string)

  function Arriving(pieces: seq<seq<byte>>): seq<byte> {
    if pieces == [] then [] else pieces[0] + Arriving(pieces[1..])
  }

  /** Reads until the buffer is full. It fails exactly when fewer bytes arrive, and else holds the
      first of them, however they are cut into pieces. */
  method ReadExact(buffer: array<byte>, inbound: Inbound) returns (error: Option<string>)
    modifies buffer
    ensures error == if |Arriving(inbound.pieces)| < buffer.Length then Some(inbound.ending) else None
    ensures error.None? ==> buffer[..] == Arriving(inbound.pieces)[..buffer.Length]
  {
    assert Arriving([]) == [];
    hide Arriving;
    var filled, i := 0, 0;
    ghost var excess: seq<byte> := [];
    assert inbound.pieces[0..] == inbound.pieces;
    while filled < buffer.Length
      invariant filled <= buffer.Length && i <= |inbound.pieces|
      invariant buffer[..filled] + (excess + Arriving(inbound.pieces[i..])) == Arriving(inbound.pieces)
      invariant filled < buffer.Length ==> excess == []
      decreases |inbound.pieces| - i
    {
      if i == |inbound.pieces| {
        assert inbound.pieces[i..] == [];
        return Some(inbound.ending);
      }
      ghost var had := buffer[..filled];
      var count := CopyInto(buffer, filled, inbound.pieces[i]);
      PieceTaken(had, inbound.pieces, i, count);
      excess := inbound.pieces[i][count..];
      filled, i := filled + count, i + 1;
    }
    assert buffer[..] == buffer[..filled];
    error := None;
  }

  lemma {:induction false} PieceTaken(had: seq<byte>, pieces: seq<seq<byte>>, i: nat, count: nat)
    requires i < |pieces| && count <= |pieces[i]|
    ensures (had + pieces[i][..count]) + (pieces[i][count..] + Arriving(pieces[i + 1..])) ==
            had + ([] + Arriving(pieces[i..]))
  {
    assert pieces[i..][0] == pieces[i] && pieces[i..][1..] == pieces[i + 1..];
    assert pieces[i] == pieces[i][..count] + pieces[i][count..];
  }

  // ----- TCP -----

  datatype ConnectOutcome = Connected | Refused | ConnectError(connectError: string) | ConnectTimeout

  const CONNECTS: nat := 20

  predicate Retried(outcome: ConnectOutcome) {
    outcome.Refused? || outcome.ConnectTimeout?
  }

  /** The first attempt from `k` on that is not retried, if there is one. */
  function FirstUnretried(net: nat -> ConnectOutcome, k: nat): (r: nat)
    requires k <= CONNECTS
    ensures k <= r <= CONNECTS && (r < CONNECTS ==> !Retried(net(r)))
    ensures forall j: nat :: k <= j < r ==> Retried(net(j))
    decreases CONNECTS - k
  {
    if k == CONNECTS || !Retried(net(k)) then k else FirstUnretried(net, k + 1)
  }

  /** Why no connection comes about, if none does. */
  function ConnectFault(net: nat -> ConnectOutcome): (reason: Option<string>)
    ensures reason.Some? ==> reason.value != ""
  {
    var k := FirstUnretried(net, 0);
    if k == CONNECTS then Some(if net(CONNECTS - 1).Refused? then "refused" else "timeout")
    else if net(k).Connected? then None
    else Some("connect: " + net(k).connectError)
  }

  lemma {:induction false} UnretriedNext(net: nat -> ConnectOutcome, k: nat)
    requires k <= CONNECTS
    ensures FirstUnretried(net, k) == if k == CONNECTS || !Retried(net(k)) then k else FirstUnretried(net, k + 1)
  {
  }

  /** Up to twenty attempts; only a refusal or a timeout is retried. */
  method Connect(net: nat -> ConnectOutcome) returns (result: Option<ProtocolResult>, ghost used: nat)
    ensures used < 20 && forall j: nat :: j < used ==> net(j).Refused? || net(j).ConnectTimeout?
    ensures net(used).Refused? || net(used).ConnectTimeout? ==> used == 19
    ensures result == match net(used)
                      case Connected => None
                      case Refused => Some(Fail("refused", 0, 0))
                      case ConnectTimeout => Some(Fail("timeout", 0, 0))
                      case ConnectError(e) => Some(Fail("connect: " + e, 0, 0))
    ensures result == if ConnectFault(net).None? then None else Some(Fail(ConnectFault(net).value, 0, 0))
  {
    hide FirstUnretried;
    var reason := "";
    used := 0;
    for attempt := 0 to CONNECTS
      invariant forall j: nat :: j < attempt ==> Retried(net(j))
      invariant FirstUnretried(net, 0) == FirstUnretried(net, attempt)
      invariant attempt > 0 ==> used == attempt - 1 && reason == if net(used).Refused? then "refused" else "timeout"
    {
      used := attempt;
      UnretriedNext(net, attempt);
      match net(attempt) {
        case Connected =>
          return None, used;
        case Refused =>
          reason := "refused";
        case ConnectError(e) =>
          return Some(Fail("connect: " + e, 0, 0)), used;
        case ConnectTimeout =>
          reason := "timeout";
      }
    }
    UnretriedNext(net, CONNECTS);
    result := Some(Fail(reason, 0, 0));
  }

  datatype AcceptOutcome = Incoming | BindError(bindError: string) | AcceptError(acceptError: string)

  /** How a `write_all` ends; one that fails may have sent some bytes. */
  datatype WriteOutcome = Written | WriteFailed(after: nat, error: string)

  function SentBytes(payload: seq<byte>, write: WriteOutcome): seq<byte> {
    match write
    case Written => payload
    case WriteFailed(after, _) => if after < |payload| then payload[..after] else payload
  }

  /** Enough bytes arrive, and they are not the payload. */
  predicate Altered(payload: seq<byte>, inbound: Inbound) {
    |payload| <= |Arriving(inbound.pieces)| && !(payload <= Arriving(inbound.pieces))
  }

  /** Why a half that reads or writes stops before it can compare, or after. */
  function ReadFault(payload: seq<byte>, inbound: Inbound): Option<string> {
    if |Arriving(inbound.pieces)| < |payload| then Some("read: " + inbound.ending) else None
  }

  function WriteFault(write: WriteOutcome): Option<string> {
    if write.WriteFailed? then Some("write: " + write.error) else None
  }

  function RoundtripResult(payload: seq<byte>, write: WriteOutcome, inbound: Inbound): ProtocolResult
    requires IsSlice(payload)
  {
    if WriteFault(write).Some? then Fail(WriteFault(write).value, 0, 0)
    else if ReadFault(payload, inbound).Some? then Fail(ReadFault(payload, inbound).value, |payload|, 0)
    else if Altered(payload, inbound) then Fail("mismatch", |payload|, |payload|)
    else Pass(|payload|, |payload|)
  }

  function EchoResult(payload: seq<byte>, inbound: Inbound, write: WriteOutcome): ProtocolResult
    requires IsSlice(payload)
  {
    if ReadFault(payload, inbound).Some? then Fail(ReadFault(payload, inbound).value, 0, 0)
    else if Altered(payload, inbound) then Fail(MISMATCH, 0, |payload|)
    else if WriteFault(write).Some? then Fail(WriteFault(write).value, 0, |payload|)
    else Pass(|payload|, |payload|)
  }

  /** The initiator: write the payload, read as many bytes back into a buffer, compare. */
  method Roundtrip(payload: seq<byte>, write: WriteOutcome, inbound: Inbound) returns (result: ProtocolResult)
    requires IsSlice(payload)
    ensures var n, arrived := |payload|, Arriving(inbound.pieces);
            result == if write.WriteFailed? then Fail("write: " + write.error, 0, 0)
                      else if |arrived| < n then Fail("read: " + inbound.ending, n, 0)
                      else if payload <= arrived then Pass(n, n)
                      else Fail("mismatch", n, n)
    ensures result == RoundtripResult(payload, write, inbound)
  {
    if write.WriteFailed? {
      return Fail("write: " + write.error, 0, 0);
    }
    var received := new byte[|payload|](_ => 0);
    var error := ReadExact(received, inbound);
    if error.Some? {
      return Fail("read: " + error.value, |payload|, 0);
    }
    if received[..] != payload {
      return Fail("mismatch", |payload|, |payload|);
    }
    result := Pass(|payload|, |payload|);
  }

  /** The target: read the payload into a buffer, compare, write the buffer back. */
  method EchoBack(payload: seq<byte>, inbound: Inbound, write: WriteOutcome) returns (result: ProtocolResult)
    requires IsSlice(payload)
    ensures var n, arrived := |payload|, Arriving(inbound.pieces);
            result == if |arrived| < n then Fail("read: " + inbound.ending, 0, 0)
                      else if !(payload <= arrived) then Fail("mismatch: received payload differs from expected data", 0, n)
                      else if write.WriteFailed? then Fail("write: " + write.error, 0, n)
                      else Pass(n, n)
    ensures result == EchoResult(payload, inbound, write)
  {
    var received := new byte[|payload|](_ => 0);
    var error := ReadExact(received, inbound);
    if error.Some? {
      return Fail("read: " + error.value, 0, 0);
    }
    if received[..] != payload {
      return Fail(MISMATCH, 0, |payload|);
    }
    if write.WriteFailed? {
      return Fail("write: " + write.error, 0, |payload|);
    }
    result := Pass(|payload|, |payload|);
  }

  function ConnectThenRoundtrip(payload: seq<byte>, net: nat -> ConnectOutcome, write: WriteOutcome, inbound: Inbound): ProtocolResult
    requires IsSlice(payload)
  {
    if ConnectFault(net).Some? then Fail(ConnectFault(net).value, 0, 0) else RoundtripResult(payload, write, inbound)
  }

  method TcpInitiator(payload: seq<byte>, net: nat -> ConnectOutcome, write: WriteOutcome, inbound: Inbound)
    returns (result: ProtocolResult)
    requires IsSlice(payload)
    ensures result == ConnectThenRoundtrip(payload, net, write, inbound)
  {
    var failure, _ := Connect(net);
    if failure.Some? {
      return failure.value;
    }
    result := Roundtrip(payload, write, inbound);
  }

  function AcceptThenEcho(payload: seq<byte>, accept: AcceptOutcome, inbound: Inbound, write: WriteOutcome): ProtocolResult
    requires IsSlice(payload)
  {
    match accept
    case BindError(e) => Error("bind: " + e)
    case AcceptError(e) => Fail("accept: " + e, 0, 0)
    case Incoming => EchoResult(payload, inbound, write)
  }

  method TcpTarget(payload: seq<byte>, accept: AcceptOutcome, inbound: Inbound, write: WriteOutcome)
    returns (result: ProtocolResult)
    requires IsSlice(payload)
    ensures accept.BindError? ==> result == Error("bind: " + accept.bindError)
    ensures accept.AcceptError? ==> result == Fail("accept: " + accept.acceptError, 0, 0)
    ensures result == AcceptThenEcho(payload, accept, inbound, write)
  {
    match accept {
      case BindError(e) =>
        result := Error("bind: " + e);
      case AcceptError(e) =>
        result := Fail("accept: " + e, 0, 0);
      case Incoming =>
        result := EchoBack(payload, inbound, write);
    }
  }

  // ----- UDP -----

  datatype SendOutcome = SendOk | SendError(sendError: string) | SendTimeout

  datatype RecvOutcome = Datagram(bytes: seq<byte>, source: SocketAddr) | RecvError(recvError: string) | RecvTimeout

  datatype Attempt = Attempt(send: SendOutcome, recv: RecvOutcome)

  const ATTEMPTS: nat := 5

  /** With one spare byte in the buffer, comparing lengths and then contents accepts a datagram exactly
      when it is the payload: a longer one is cut, but never down to the payload's length. */
  lemma {:induction false} SpareByteDecides(payload: seq<byte>, bytes: seq<byte>, length: nat)
    requires length == if |bytes| < |payload| + 1 then |bytes| else |payload| + 1
    ensures length == |payload| && bytes[..length] == payload <==> bytes == payload
    ensures length == |payload| <==> |bytes| == |payload|
  {
  }

  /** How much of a datagram the buffer holds. */
  function HeldLength(payload: seq<byte>, bytes: seq<byte>): u64
    requires IsSlice(payload)
  {
    if |bytes| < |payload| + 1 then |bytes| else |payload| + 1
  }

  function LengthComplaint(payload: seq<byte>, bytes: seq<byte>): string
    requires IsSlice(payload)
  {
    "recv len: " + ToString(HeldLength(payload, bytes)) + " != " + ToString(|payload|)
  }

  /** As many bytes as the payload has, but other ones. */
  predicate SameLengthOther(payload: seq<byte>, bytes: seq<byte>) {
    |bytes| == |payload| && bytes != payload
  }

  /** `recv_from` with a buffer one byte longer than the payload. */
  method RecvFrom(buffer: array<byte>, bytes: seq<byte>, ghost payload: seq<byte>) returns (length: nat)
    requires IsSlice(payload) && buffer.Length == |payload| + 1
    modifies buffer
    ensures length == HeldLength(payload, bytes) <= buffer.Length
    ensures length == |payload| <==> |bytes| == |payload|
    ensures length == |payload| && buffer[..length] == payload <==> bytes == payload
  {
    length := CopyInto(buffer, 0, bytes);
    assert buffer[..length] == bytes[..length];
    SpareByteDecides(payload, bytes, length);
  }

  /** What an initiator concludes from a datagram that came from the target. */
  function Judge(payload: seq<byte>, bytes: seq<byte>): ProtocolResult
    requires IsSlice(payload)
  {
    if bytes == payload then Pass(|payload|, |payload|)
    else if SameLengthOther(payload, bytes) then Fail("mismatch", |payload|, |payload|)
    else Fail(LengthComplaint(payload, bytes), |payload|, HeldLength(payload, bytes))
  }

  predicate FromTarget(a: Attempt, target: SocketAddr) {
    a.send.SendOk? && a.recv.Datagram? && a.recv.source == target
  }

  /** The first attempt from `k` on to bring a datagram from the target, if there is one. */
  function FirstReply(net: nat -> Attempt, target: SocketAddr, k: nat): (r: nat)
    requires k <= ATTEMPTS
    ensures k <= r <= ATTEMPTS && (r < ATTEMPTS ==> FromTarget(net(r), target))
    ensures forall j: nat :: k <= j < r ==> !FromTarget(net(j), target)
    decreases ATTEMPTS - k
  {
    if k == ATTEMPTS || FromTarget(net(k), target) then k else FirstReply(net, target, k + 1)
  }

  /** The first attempt from `k` on at which a target gets any datagram, if there is one. */
  function FirstRequest(net: nat -> Attempt, k: nat): (r: nat)
    requires k <= ATTEMPTS
    ensures k <= r <= ATTEMPTS && (r < ATTEMPTS ==> net(r).recv.Datagram?)
    ensures forall j: nat :: k <= j < r ==> !net(j).recv.Datagram?
    decreases ATTEMPTS - k
  {
    if k == ATTEMPTS || net(k).recv.Datagram? then k else FirstRequest(net, k + 1)
  }

  lemma {:induction false} NextAttempt(net: nat -> Attempt, target: SocketAddr, k: nat)
    requires k <= ATTEMPTS
    ensures FirstReply(net, target, k) == if k == ATTEMPTS || FromTarget(net(k), target) then k else FirstReply(net, target, k + 1)
    ensures FirstRequest(net, k) == if k == ATTEMPTS || net(k).recv.Datagram? then k else FirstRequest(net, k + 1)
  {
  }

  function SendComplaint(send: SendOutcome): (reason: string)
    requires !send.SendOk?
    ensures reason != ""
  {
    if send.SendError? then "send: " + send.sendError else "send timeout"
  }

  function Complaint(a: Attempt): (reason: string)
    ensures reason != ""
  {
    if !a.send.SendOk? then SendComplaint(a.send)
    else
      match a.recv
      case Datagram(_, _) => "recv from unexpected source"
      case RecvError(e) => "recv: " + e
      case RecvTimeout => "timeout"
  }

  function RecvComplaint(recv: RecvOutcome): (reason: string)
    requires !recv.Datagram?
    ensures reason != ""
  {
    if recv.RecvError? then "recv: " + recv.recvError else "recv timeout"
  }

  function UdpInitiatorResult(payload: seq<byte>, bind: Option<string>, target: SocketAddr, net: nat -> Attempt): ProtocolResult
    requires IsSlice(payload)
  {
    var k := FirstReply(net, target, 0);
    if bind.Some? then Error("udp bind: " + bind.value)
    else if k < ATTEMPTS then Judge(payload, net(k).recv.bytes)
    else Fail(Complaint(net(ATTEMPTS - 1)), |payload|, 0)
  }

  /** The target's answer to a datagram. */
  function Answer(payload: seq<byte>, bytes: seq<byte>, send: SendOutcome): ProtocolResult
    requires IsSlice(payload)
  {
    if SameLengthOther(payload, bytes) then Fail(MISMATCH, 0, |payload|)
    else if bytes != payload then Fail(LengthComplaint(payload, bytes), 0, HeldLength(payload, bytes))
    else if send.SendOk? then Pass(|payload|, |payload|)
    else Fail(SendComplaint(send), 0, |payload|)
  }

  function UdpTargetResult(payload: seq<byte>, bind: Option<string>, net: nat -> Attempt): ProtocolResult
    requires IsSlice(payload)
  {
    var k := FirstRequest(net, 0);
    if bind.Some? then Error("udp bind: " + bind.value)
    else if k == ATTEMPTS then Fail(RecvComplaint(net(ATTEMPTS - 1).recv), 0, 0)
    else Answer(payload, net(k).recv.bytes, net(k).send)
  }

  method JudgeReceived(received: array<byte>, bytes: seq<byte>, payload: seq<byte>) returns (result: ProtocolResult)
    requires IsSlice(payload) && received.Length == |payload| + 1
    modifies received
    ensures result == Judge(payload, bytes)
  {
    var length := RecvFrom(received, bytes, payload);
    if length != |payload| {
      return Fail("recv len: " + ToString(length) + " != " + ToString(|payload|), |payload|, length);
    }
    if received[..length] != payload {
      return Fail("mismatch", |payload|, length);
    }
    result := Pass(|payload|, length);
  }

  /** One attempt of an initiator: a datagram from the target ends the exchange, anything else is a reason. */
  method Attempts(target: SocketAddr, payload: seq<byte>, received: array<byte>, a: Attempt)
    returns (result: Option<ProtocolResult>, reason: string)
    requires IsSlice(payload) && received.Length == |payload| + 1
    modifies received
    ensures result == if FromTarget(a, target) then Some(Judge(payload, a.recv.bytes)) else None
    ensures result.None? ==> reason == Complaint(a)
  {
    hide Judge;
    result, reason := None, "";
    match a.send {
      case SendError(e) =>
        reason := "send: " + e;
        return;
      case SendTimeout =>
        reason := "send timeout";
        return;
      case SendOk =>
    }
    match a.recv {
      case Datagram(bytes, source) =>
        if source == target {
          var judged := JudgeReceived(received, bytes, payload);
          return Some(judged), reason;
        }
        reason := "recv from unexpected source";
      case RecvError(e) =>
        reason := "recv: " + e;
      case RecvTimeout =>
        reason := "timeout";
    }
  }

  /** The k-th of the five attempts is the first to bring a datagram from the target. */
  ghost predicate Replies(net: nat -> Attempt, target: SocketAddr, k: nat) {
    && k < 5 && net(k).send.SendOk? && net(k).recv.Datagram? && net(k).recv.source == target
    && forall j: nat :: j < k ==> !(net(j).send.SendOk? && net(j).recv.Datagram? && net(j).recv.source == target)
  }

  /** The k-th of the five attempts is the first to bring any datagram. */
  ghost predicate Requested(net: nat -> Attempt, k: nat) {
    k < 5 && net(k).recv.Datagram? && forall j: nat :: j < k ==> !net(j).recv.Datagram?
  }

  /** What a half reports of a datagram of a length other than the payload's: the length that a buffer with
      one spare byte shows. */
  function OtherLength(payload: seq<byte>, bytes: seq<byte>, sent: u64): ProtocolResult
    requires IsSlice(payload)
  {
    var length := if |bytes| > |payload| then |payload| + 1 else |bytes|;
    Fail("recv len: " + ToString(length) + " != " + ToString(|payload|), sent, length)
  }

  /** How an initiator ends, whole. */
  ghost predicate InitiatorSays(payload: seq<byte>, bind: Option<string>, target: SocketAddr, net: nat -> Attempt, result: ProtocolResult)
    requires IsSlice(payload)
  {
    var n, last := |payload|, net(4);
    if bind.Some? then result == Error("udp bind: " + bind.value)
    else
      && (forall k: nat :: Replies(net, target, k) ==>
            var bytes := net(k).recv.bytes;
            result == if bytes == payload then Pass(n, n)
                      else if |bytes| == n then Fail("mismatch", n, n)
                      else OtherLength(payload, bytes, n))
      && ((forall k: nat :: !Replies(net, target, k)) ==>
            result == Fail(match last.send
                           case SendError(e) => "send: " + e
                           case SendTimeout => "send timeout"
                           case SendOk =>
                             match last.recv
                             case Datagram(_, _) => "recv from unexpected source"
                             case RecvError(e) => "recv: " + e
                             case RecvTimeout => "timeout", n, 0))
  }

  /** How a target ends, whole. */
  ghost predicate TargetSays(payload: seq<byte>, bind: Option<string>, net: nat -> Attempt, result: ProtocolResult)
    requires IsSlice(payload)
  {
    var n, last := |payload|, net(4);
    if bind.Some? then result == Error("udp bind: " + bind.value)
    else
      && (forall k: nat :: Requested(net, k) ==>
            var bytes := net(k).recv.bytes;
            result == if |bytes| != n then OtherLength(payload, bytes, 0)
                      else if bytes != payload then Fail("mismatch: received payload differs from expected data", 0, n)
                      else match net(k).send
                           case SendOk => Pass(n, n)
                           case SendError(e) => Fail("send: " + e, 0, n)
                           case SendTimeout => Fail("send timeout", 0, n))
      && ((forall k: nat :: !Requested(net, k)) ==>
            result == Fail(if last.recv.RecvError? then "recv: " + last.recv.recvError else "recv timeout", 0, 0))
  }

  lemma {:induction false} InitiatorSo(payload: seq<byte>, bind: Option<string>, target: SocketAddr, net: nat -> Attempt)
    requires IsSlice(payload)
    ensures InitiatorSays(payload, bind, target, net, UdpInitiatorResult(payload, bind, target, net))
  {
    var k := FirstReply(net, target, 0);
    assert k < ATTEMPTS ==> FromTarget(net(k), target) && Replies(net, target, k);
    forall j: nat | Replies(net, target, j)
      ensures j == k
    {
      assert FromTarget(net(j), target);
    }
    hide FirstReply, ToString;
  }

  lemma {:induction false} TargetSo(payload: seq<byte>, bind: Option<string>, net: nat -> Attempt)
    requires IsSlice(payload)
    ensures TargetSays(payload, bind, net, UdpTargetResult(payload, bind, net))
  {
    var k := FirstRequest(net, 0);
    assert k < ATTEMPTS ==> Requested(net, k);
    forall j: nat | Requested(net, j)
      ensures j == k
    {
    }
    hide FirstRequest, ToString;
  }

  lemma {:induction false} InitiatorPasses(payload: seq<byte>, bind: Option<string>, target: SocketAddr, net: nat -> Attempt)
    requires IsSlice(payload)
    ensures var result := UdpInitiatorResult(payload, bind, target, net);
            && (result.Pass? <==>
                  bind.None? && var k := FirstReply(net, target, 0); k < ATTEMPTS && net(k).recv.bytes == payload)
            && (result.Fail? ==> result.reason != "")
  {
    hide FirstReply;
  }

  /** The first of the five attempts that brings a datagram from the target decides: a pass if and only
      if its bytes are the payload. If none does, the last attempt supplies the reason. */
  method UdpInitiator(bind: Option<string>, target: SocketAddr, payload: seq<byte>, net: nat -> Attempt)
    returns (result: ProtocolResult)
    requires IsSlice(payload)
    ensures result == UdpInitiatorResult(payload, bind, target, net)
    ensures InitiatorSays(payload, bind, target, net, result)
    ensures result.Fail? ==> result.reason != ""
  {
    InitiatorPasses(payload, bind, target, net);
    InitiatorSo(payload, bind, target, net);
    if bind.Some? {
      return Error("udp bind: " + bind.value);
    }
    hide FirstReply, Judge, Complaint, FromTarget, InitiatorSays;
    var reason := "";
    var received := new byte[|payload| + 1](_ => 0);
    for attempt := 0 to ATTEMPTS
      invariant FirstReply(net, target, 0) == FirstReply(net, target, attempt)
      invariant attempt > 0 ==> reason == Complaint(net(attempt - 1))
    {
      NextAttempt(net, target, attempt);
      var decided: Option<ProtocolResult>;
      decided, reason := Attempts(target, payload, received, net(attempt));
      if decided.Some? {
        return decided.value;
      }
    }
    NextAttempt(net, target, ATTEMPTS);
    result := Fail(reason, |payload|, 0);
  }

  method AnswerReceived(received: array<byte>, bytes: seq<byte>, payload: seq<byte>, send: SendOutcome)
    returns (result: ProtocolResult)
    requires IsSlice(payload) && received.Length == |payload| + 1
    modifies received
    ensures result == Answer(payload, bytes, send)
  {
    hide ToString;
    var length := RecvFrom(received, bytes, payload);
    if length != |payload| {
      return Fail("recv len: " + ToString(length) + " != " + ToString(|payload|), 0, length);
    }
    if received[..length] != payload {
      return Fail(MISMATCH, 0, length);
    }
    match send {
      case SendOk =>
        result := Pass(length, length);
      case SendError(e) =>
        result := Fail("send: " + e, 0, length);
      case SendTimeout =>
        result := Fail("send timeout", 0, length);
    }
  }

  lemma {:induction false} TargetPasses(payload: seq<byte>, bind: Option<string>, net: nat -> Attempt)
    requires IsSlice(payload)
    ensures var result := UdpTargetResult(payload, bind, net);
            && (result.Pass? <==>
                  && bind.None?
                  && var k := FirstRequest(net, 0); k < ATTEMPTS && net(k).recv.bytes == payload && net(k).send.SendOk?)
            && (result.Fail? ==> result.reason != "")
  {
    hide FirstRequest;
  }

  /** The target answers the first datagram it gets, from wherever it comes, if it is the payload. */
  method UdpTarget(bind: Option<string>, payload: seq<byte>, net: nat -> Attempt)
    returns (result: ProtocolResult)
    requires IsSlice(payload)
    ensures result == UdpTargetResult(payload, bind, net)
    ensures TargetSays(payload, bind, net, result)
    ensures result.Fail? ==> result.reason != ""
  {
    TargetPasses(payload, bind, net);
    TargetSo(payload, bind, net);
    if bind.Some? {
      return Error("udp bind: " + bind.value);
    }
    hide FirstRequest, Answer, TargetSays;
    var received := new byte[|payload| + 1](_ => 0);
    var reason := "";
    for attempt := 0 to ATTEMPTS
      invariant FirstRequest(net, 0) == FirstRequest(net, attempt)
      invariant attempt > 0 ==> !net(attempt - 1).recv.Datagram? && reason == RecvComplaint(net(attempt - 1).recv)
    {
      NextAttempt(net, UNSPECIFIED, attempt);
      match net(attempt).recv {
        case Datagram(bytes, source) =>
          result := AnswerReceived(received, bytes, payload, net(attempt).send);
          return;
        case RecvError(e) =>
          reason := "recv: " + e;
        case RecvTimeout =>
          reason := "recv timeout";
      }
    }
    NextAttempt(net, UNSPECIFIED, ATTEMPTS);
    result := Fail(reason, 0, 0);
  }

  // ----- one test across a network -----

  /** Everything one test meets. Over TCP the network turns the bytes that one end sends into whatever
      arrives at the other; it may cut, lengthen, change, invent or swallow them. Over UDP each end
      gets whatever datagrams it gets. */
  datatype Network =
    | OverTcp(
        connects: nat -> ConnectOutcome, accept: AcceptOutcome, request: WriteOutcome, reply: WriteOutcome,
        forward: seq<byte> -> Inbound, backward: seq<byte> -> Inbound)
    | OverUdp(
        target: SocketAddr, initiatorBind: Option<string>, targetBind: Option<string>,
        atInitiator: nat -> Attempt, atTarget: nat -> Attempt)

  /** What the target reads: the forward leg, of what the initiator sends. */
  function Request(payload: seq<byte>, net: Network): Inbound
    requires net.OverTcp?
  {
    net.forward(if ConnectFault(net.connects).Some? then [] else SentBytes(payload, net.request))
  }

  /** What the initiator reads: the backward leg, of what the target sends, which is nothing unless it
      has read the payload. */
  function Reply(payload: seq<byte>, net: Network): Inbound
    requires net.OverTcp?
  {
    var echoes := net.accept.Incoming? && payload <= Arriving(Request(payload, net).pieces);
    net.backward(if echoes then SentBytes(payload, net.reply) else [])
  }

  function Initiates(payload: seq<byte>, net: Network): ProtocolResult
    requires IsSlice(payload)
  {
    match net
    case OverTcp(connects, _, request, _, _, _) => ConnectThenRoundtrip(payload, connects, request, Reply(payload, net))
    case OverUdp(target, bind, _, attempts, _) => UdpInitiatorResult(payload, bind, target, attempts)
  }

  function Responds(payload: seq<byte>, net: Network): ProtocolResult
    requires IsSlice(payload)
  {
    match net
    case OverTcp(_, accept, _, reply, _, _) => AcceptThenEcho(payload, accept, Request(payload, net), reply)
    case OverUdp(_, _, bind, _, attempts) => UdpTargetResult(payload, bind, attempts)
  }

  // ----- the outer deadline -----

  const TOO_LONG := Fail("timeout (test took too long)", 0, 0)

  /** Each end drops a half that outlasts its deadline and records this instead. */
  function RunProtocol(late: bool, result: ProtocolResult): ProtocolResult {
    if late then TOO_LONG else result
  }

  /** One test: its network, and whether a half outlasts its deadline. What a half that is dropped has
      sent by then is the part that its write outcome gives. */
  datatype Trial = Trial(net: Network, initiatorLate: bool, targetLate: bool)

  function InitiatorEnds(payload: seq<byte>, t: Trial): ProtocolResult
    requires IsSlice(payload)
  {
    RunProtocol(t.initiatorLate, Initiates(payload, t.net))
  }

  function TargetEnds(payload: seq<byte>, t: Trial): ProtocolResult
    requires IsSlice(payload)
  {
    RunProtocol(t.targetLate, Responds(payload, t.net))
  }

  /** The two halves of a test in a given direction: a forward test starts at the client. */
  function ClientHalf(payload: seq<byte>, direction: Direction, t: Trial): ProtocolResult
    requires IsSlice(payload)
  {
    if direction == ClientToServer then InitiatorEnds(payload, t) else TargetEnds(payload, t)
  }

  function ServerHalf(payload: seq<byte>, direction: Direction, t: Trial): ProtocolResult
    requires IsSlice(payload)
  {
    ClientHalf(payload, direction.Opposite(), t)
  }

  predicate InTime(t: Trial) {
    !t.initiatorLate && !t.targetLate
  }

  predicate IsDatagram(a: Attempt, bytes: seq<byte>) {
    a.recv.Datagram? && a.recv.bytes == bytes
  }

  /** The network does the payload no harm. Over TCP a connection comes about, both writes succeed and
      on both legs the first bytes to arrive are the payload, whatever arrives after them. Over UDP both
      sockets are bound, the first datagram at the target is the payload and is answered, and the first
      from the target at the initiator is the payload. */
  ghost predicate Unharmed(payload: seq<byte>, net: Network) {
    match net
    case OverTcp(connects, accept, request, reply, forward, backward) =>
      && Connects(connects) && accept.Incoming? && request.Written? && reply.Written?
      && payload <= Arriving(forward(payload).pieces) && payload <= Arriving(backward(payload).pieces)
    case OverUdp(target, initiatorBind, targetBind, atInitiator, atTarget) =>
      && initiatorBind.None? && targetBind.None?
      && FirstToTarget(payload, atTarget) && FirstToInitiator(payload, target, atInitiator)
  }

  /** Some attempt connects, after none but refusals and timeouts. */
  ghost predicate Connects(net: nat -> ConnectOutcome) {
    exists k: nat :: k < CONNECTS && net(k).Connected? && forall j: nat :: j < k ==> Retried(net(j))
  }

  /** The first datagram to reach the target is the payload, and it is answered. */
  ghost predicate FirstToTarget(payload: seq<byte>, net: nat -> Attempt) {
    exists k: nat ::
      k < ATTEMPTS && IsDatagram(net(k), payload) && net(k).send.SendOk? && forall j: nat :: j < k ==> !net(j).recv.Datagram?
  }

  /** The first datagram from the target to reach the initiator is the payload. */
  ghost predicate FirstToInitiator(payload: seq<byte>, target: SocketAddr, net: nat -> Attempt) {
    exists k: nat ::
      k < ATTEMPTS && FromTarget(net(k), target) && IsDatagram(net(k), payload)
      && forall j: nat :: j < k ==> !FromTarget(net(j), target)
  }

  lemma {:induction false} ConnectsExactly(net: nat -> ConnectOutcome)
    ensures ConnectFault(net).None? <==> Connects(net)
  {
    var k := FirstUnretried(net, 0);
    assert k < CONNECTS ==> !Retried(net(k));
    hide FirstUnretried;
  }

  lemma {:induction false} TargetExactly(payload: seq<byte>, bind: Option<string>, net: nat -> Attempt)
    requires IsSlice(payload)
    ensures UdpTargetResult(payload, bind, net).Pass? <==> bind.None? && FirstToTarget(payload, net)
  {
    var k := FirstRequest(net, 0);
    assert k < ATTEMPTS ==> net(k).recv.Datagram?;
    hide FirstRequest, LengthComplaint, RecvComplaint, SendComplaint;
  }

  lemma {:induction false} InitiatorExactly(payload: seq<byte>, bind: Option<string>, target: SocketAddr, net: nat -> Attempt)
    requires IsSlice(payload)
    ensures UdpInitiatorResult(payload, bind, target, net).Pass? <==> bind.None? && FirstToInitiator(payload, target, net)
  {
    var k := FirstReply(net, target, 0);
    assert k < ATTEMPTS ==> FromTarget(net(k), target);
    hide FirstReply, LengthComplaint, Complaint;
  }

  /** Both halves pass exactly when the network does the payload no harm. */
  lemma {:induction false} ExchangeSound(payload: seq<byte>, net: Network)
    requires IsSlice(payload)
    ensures Initiates(payload, net).Pass? && Responds(payload, net).Pass? <==> Unharmed(payload, net)
  {
    match net {
      case OverTcp(connects, _, _, _, _, _) =>
        ConnectsExactly(connects);
        hide Connects, ConnectFault, Arriving;
      case OverUdp(target, initiatorBind, targetBind, atInitiator, atTarget) =>
        InitiatorExactly(payload, initiatorBind, target, atInitiator);
        TargetExactly(payload, targetBind, atTarget);
        hide UdpInitiatorResult, UdpTargetResult, FirstToTarget, FirstToInitiator;
    }
  }

  /** Both halves of a test pass exactly when the network does the payload no harm and neither
      outlasts its deadline. */
  lemma {:induction false} TrialSound(payload: seq<byte>, direction: Direction, t: Trial)
    requires IsSlice(payload)
    ensures ClientHalf(payload, direction, t).Pass? && ServerHalf(payload, direction, t).Pass? <==>
            Unharmed(payload, t.net) && InTime(t)
  {
    ExchangeSound(payload, t.net);
    hide Unharmed, Initiates, Responds;
  }

  /** One port test at both ends: a forward test starts at the client, a reverse test at the server. */
  method RunExchange(payload: seq<byte>, direction: Direction, t: Trial)
    returns (client: ProtocolResult, server: ProtocolResult)
    requires IsSlice(payload)
    ensures client == ClientHalf(payload, direction, t) && server == ServerHalf(payload, direction, t)
    ensures t.initiatorLate ==>
      (if direction == ClientToServer then client else server) == Fail("timeout (test took too long)", 0, 0)
    ensures t.targetLate ==>
      (if direction == ClientToServer then server else client) == Fail("timeout (test took too long)", 0, 0)
    ensures client.Pass? && server.Pass? <==> Unharmed(payload, t.net) && InTime(t)
  {
    var initiator, target: ProtocolResult;
    match t.net {
      case OverTcp(connects, accept, request, reply, _, _) =>
        initiator := TcpInitiator(payload, connects, request, Reply(payload, t.net));
        target := TcpTarget(payload, accept, Request(payload, t.net), reply);
      case OverUdp(address, initiatorBind, targetBind, atInitiator, atTarget) =>
        initiator := UdpInitiator(initiatorBind, address, payload, atInitiator);
        target := UdpTarget(targetBind, payload, atTarget);
    }
    TrialSound(payload, direction, t);
    hide Unharmed, Request, Reply;
    initiator, target := RunProtocol(t.initiatorLate, initiator), RunProtocol(t.targetLate, target);
    if direction == ClientToServer {
      client, server := initiator, target;
    } else {
      client, server := target, initiator;
    }
  }

  // ----- which differences are listed -----

  const MARKER := "mismatch: received payload differs"

  predicate OccursAt(s: string, i: nat, part: string) {
    i + |part| <= |s| && s[i..i + |part|] == part
  }

  ghost predicate Contains(s: string, part: string) {
    exists i: nat :: OccursAt(s, i, part)
  }

  /** The entries listed as observed payload differences. */
  ghost predicate Listed(result: ProtocolResult) {
    result.Fail? && Contains(result.reason, MARKER)
  }

  lemma {:induction false} MismatchMarked()
    ensures Contains(MISMATCH, MARKER)
  {
    assert OccursAt(MISMATCH, 0, MARKER);
  }

  /** A text that is too short or has no `m` does not contain the marker; nor does the bare "mismatch". */
  lemma {:induction false} Unmarked(s: string)
    requires |s| < |MARKER| || 'm' !in s
    ensures !Contains(s, MARKER)
  {
    forall i: nat
      ensures !OccursAt(s, i, MARKER)
    {
      if i + |MARKER| <= |s| {
        assert s[i..i + |MARKER|][0] == s[i] && MARKER[0] == 'm';
      }
    }
  }

  lemma {:induction false} PrefixMarked(prefix: string, s: string)
    requires 'm' !in prefix
    ensures Contains(prefix + s, MARKER) <==> Contains(s, MARKER)
  {
    var n := |prefix|;
    if Contains(s, MARKER) {
      var i: nat :| OccursAt(s, i, MARKER);
      OccursBehind(prefix, s, i, MARKER);
    }
    if Contains(prefix + s, MARKER) {
      var i: nat :| OccursAt(prefix + s, i, MARKER);
      assert (prefix + s)[i] == (prefix + s)[i..i + |MARKER|][0] == 'm';
      assert i >= n;
      OccursBehind(prefix, s, i - n, MARKER);
    }
  }

  lemma {:induction false} OccursBehind(prefix: string, s: string, i: nat, part: string)
    ensures OccursAt(prefix + s, |prefix| + i, part) <==> OccursAt(s, i, part)
  {
    if i + |part| <= |s| {
      assert (prefix + s)[|prefix| + i..|prefix| + i + |part|] == s[i..i + |part|];
    }
  }

  /** A merged result is listed when the client's own is, or when the client passed and the server's is. */
  lemma {:induction false} VerdictListed(local: ProtocolResult, server: ProtocolResult)
    ensures Listed(Verdict(local, server)) <==> Listed(local) || (local.Pass? && Listed(server))
  {
    if local.Pass? && server.Fail? {
      PrefixMarked("server: ", server.reason);
    }
  }

  /** As many bytes as the target wants reach it, and they are not the payload. */
  predicate ReachesAltered(payload: seq<byte>, net: Network) {
    match net
    case OverTcp(_, accept, _, _, _, _) => accept.Incoming? && Altered(payload, Request(payload, net))
    case OverUdp(_, _, bind, _, attempts) =>
      var k := FirstRequest(attempts, 0);
      bind.None? && k < ATTEMPTS && SameLengthOther(payload, attempts(k).recv.bytes)
  }

  /** The text of the operation that fails at the initiator, if one does once its socket is bound. */
  function InitiatorFault(payload: seq<byte>, net: Network): Option<string> {
    match net
    case OverTcp(connects, _, request, _, _, _) =>
      if ConnectFault(connects).Some? then ConnectFault(connects)
      else if WriteFault(request).Some? then WriteFault(request)
      else ReadFault(payload, Reply(payload, net))
    case OverUdp(target, bind, _, attempts, _) =>
      if bind.None? && FirstReply(attempts, target, 0) == ATTEMPTS then Some(Complaint(attempts(ATTEMPTS - 1))) else None
  }

  /** The same at the target. */
  function TargetFault(payload: seq<byte>, net: Network): Option<string> {
    match net
    case OverTcp(_, accept, _, reply, _, _) =>
      if accept.BindError? then None
      else if accept.AcceptError? then Some("accept: " + accept.acceptError)
      else if ReadFault(payload, Request(payload, net)).Some? then ReadFault(payload, Request(payload, net))
      else if Altered(payload, Request(payload, net)) then None
      else WriteFault(reply)
    case OverUdp(_, _, bind, _, attempts) =>
      var k := FirstRequest(attempts, 0);
      if bind.Some? then None
      else if k == ATTEMPTS then Some(RecvComplaint(attempts(ATTEMPTS - 1).recv))
      else if attempts(k).recv.bytes == payload && !attempts(k).send.SendOk? then Some(SendComplaint(attempts(k).send))
      else None
  }

  ghost predicate Marks(fault: Option<string>) {
    fault.Some? && Contains(fault.value, MARKER)
  }

  lemma {:induction false} LengthUnmarked(payload: seq<byte>, bytes: seq<byte>)
    requires IsSlice(payload)
    ensures !Contains(LengthComplaint(payload, bytes), MARKER)
  {
    DigitsOnly(ToString(HeldLength(payload, bytes)), 'm');
    DigitsOnly(ToString(|payload|), 'm');
    Unmarked(LengthComplaint(payload, bytes));
  }

  /** An initiator's result is never listed for a difference it finds itself: its text is too short. */
  lemma {:induction false} InitiatorListed(payload: seq<byte>, net: Network)
    requires IsSlice(payload)
    ensures Listed(Initiates(payload, net)) <==> Marks(InitiatorFault(payload, net))
  {
    Unmarked("mismatch");
    if net.OverUdp? {
      var k := FirstReply(net.atInitiator, net.target, 0);
      if k < ATTEMPTS {
        LengthUnmarked(payload, net.atInitiator(k).recv.bytes);
      }
    }
    hide Contains, ConnectFault, Reply, LengthComplaint, Complaint;
  }

  lemma {:induction false} TargetListed(payload: seq<byte>, net: Network)
    requires IsSlice(payload)
    ensures Listed(Responds(payload, net)) <==> ReachesAltered(payload, net) || Marks(TargetFault(payload, net))
  {
    MismatchMarked();
    if net.OverUdp? {
      var k := FirstRequest(net.atTarget, 0);
      if k < ATTEMPTS {
        LengthUnmarked(payload, net.atTarget(k).recv.bytes);
      }
    }
    hide Contains, Request, LengthComplaint, RecvComplaint, SendComplaint;
  }

  /** Which tests are listed, in terms of what they meet. Apart from operations that fail with a text
      that itself holds the marker: a reverse test, iff the payload reaches the client altered and the
      client ends in time; a forward test, only if the payload reaches the server altered, the client
      nevertheless reads the payload back, and both end in time. */
  ghost predicate Lists(payload: seq<byte>, direction: Direction, t: Trial)
    requires IsSlice(payload)
  {
    var initiatorMarks, targetMarks := Marks(InitiatorFault(payload, t.net)), Marks(TargetFault(payload, t.net));
    if direction == ServerToClient then
      && !t.targetLate
      && (ReachesAltered(payload, t.net) || targetMarks
          || (Responds(payload, t.net).Pass? && !t.initiatorLate && initiatorMarks))
    else
      && !t.initiatorLate
      && (initiatorMarks
          || (Initiates(payload, t.net).Pass? && !t.targetLate && (ReachesAltered(payload, t.net) || targetMarks)))
  }

  /** Exactly which tests are listed, for every network and whether or not a half is dropped. */
  lemma {:induction false} ListedExactly(payload: seq<byte>, direction: Direction, t: Trial)
    requires IsSlice(payload)
    ensures Listed(Verdict(ClientHalf(payload, direction, t), ServerHalf(payload, direction, t))) <==> Lists(payload, direction, t)
  {
    VerdictListed(ClientHalf(payload, direction, t), ServerHalf(payload, direction, t));
    LateUnlisted();
    InitiatorListed(payload, t.net);
    TargetListed(payload, t.net);
    hide Initiates, Responds, InitiatorFault, TargetFault, ReachesAltered, Listed, Marks, Verdict;
  }

  lemma {:induction false} LateUnlisted()
    ensures !Listed(TOO_LONG)
  {
    Unmarked(TOO_LONG.reason);
  }

  // ----- ordinary networks -----

  /** No error text that the operating system supplies holds the marker. */
  ghost predicate Plain(net: Network) {
    match net
    case OverTcp(connects, accept, request, reply, forward, backward) =>
      && (forall k: nat :: connects(k).ConnectError? ==> !Contains(connects(k).connectError, MARKER))
      && (accept.AcceptError? ==> !Contains(accept.acceptError, MARKER))
      && (request.WriteFailed? ==> !Contains(request.error, MARKER))
      && (reply.WriteFailed? ==> !Contains(reply.error, MARKER))
      && (forall s: seq<byte> :: !Contains(forward(s).ending, MARKER))
      && (forall s: seq<byte> :: !Contains(backward(s).ending, MARKER))
    case OverUdp(_, _, _, atInitiator, atTarget) =>
      && (forall k: nat :: PlainAttempt(atInitiator(k)))
      && (forall k: nat :: PlainAttempt(atTarget(k)))
  }

  ghost predicate PlainAttempt(a: Attempt) {
    && (a.send.SendError? ==> !Contains(a.send.sendError, MARKER))
    && (a.recv.RecvError? ==> !Contains(a.recv.recvError, MARKER))
  }

  lemma {:induction false} PlainAttemptTexts(a: Attempt)
    requires PlainAttempt(a)
    ensures !Contains(Complaint(a), MARKER)
    ensures !a.send.SendOk? ==> !Contains(SendComplaint(a.send), MARKER)
    ensures !a.recv.Datagram? ==> !Contains(RecvComplaint(a.recv), MARKER)
  {
    if a.send.SendError? {
      PrefixMarked("send: ", a.send.sendError);
    }
    if a.recv.RecvError? {
      PrefixMarked("recv: ", a.recv.recvError);
    }
    Unmarked("send timeout");
    Unmarked("recv timeout");
    Unmarked("timeout");
    Unmarked("recv from unexpected source");
    hide Contains;
  }

  lemma {:induction false} PlainConnect(net: nat -> ConnectOutcome)
    requires forall k: nat :: net(k).ConnectError? ==> !Contains(net(k).connectError, MARKER)
    ensures !Marks(ConnectFault(net))
  {
    var k := FirstUnretried(net, 0);
    if net(k).ConnectError? {
      PrefixMarked("connect: ", net(k).connectError);
    }
    Unmarked("refused");
    Unmarked("timeout");
    hide Contains;
  }

  lemma {:induction false} PlainFaults(payload: seq<byte>, net: Network)
    requires Plain(net)
    ensures !Marks(InitiatorFault(payload, net)) && !Marks(TargetFault(payload, net))
  {
    match net {
      case OverTcp(connects, accept, request, reply, _, _) =>
        PlainConnect(connects);
        if accept.AcceptError? {
          PrefixMarked("accept: ", accept.acceptError);
        }
        if request.WriteFailed? {
          PrefixMarked("write: ", request.error);
        }
        if reply.WriteFailed? {
          PrefixMarked("write: ", reply.error);
        }
        PrefixMarked("read: ", Reply(payload, net).ending);
        PrefixMarked("read: ", Request(payload, net).ending);
        hide Contains, ConnectFault, Altered;
      case OverUdp(target, _, _, atInitiator, atTarget) =>
        PlainAttemptTexts(atInitiator(ATTEMPTS - 1));
        PlainAttemptTexts(atTarget(ATTEMPTS - 1));
        PlainAttemptTexts(atTarget(FirstRequest(atTarget, 0)));
        hide Contains, Complaint, SendComplaint, RecvComplaint;
    }
  }

  /** In an ordinary network a reverse test is listed iff the payload reaches the client altered and the
      client ends in time. A forward test is listed iff the payload reaches the server altered, the client
      still passes and both end in time; over TCP that takes a network that answers with the payload
      although the server sends nothing. */
  lemma {:induction false} ListedPlain(payload: seq<byte>, t: Trial)
    requires IsSlice(payload) && Plain(t.net)
    ensures Listed(Verdict(TargetEnds(payload, t), InitiatorEnds(payload, t))) <==>
            ReachesAltered(payload, t.net) && !t.targetLate
    ensures Listed(Verdict(InitiatorEnds(payload, t), TargetEnds(payload, t))) <==>
            ReachesAltered(payload, t.net) && Initiates(payload, t.net).Pass? && InTime(t)
    ensures t.net.OverTcp? && ReachesAltered(payload, t.net) ==>
            (Initiates(payload, t.net).Pass? <==>
               && ConnectFault(t.net.connects).None? && t.net.request.Written?
               && payload <= Arriving(t.net.backward([]).pieces))
  {
    ListedExactly(payload, ServerToClient, t);
    ListedExactly(payload, ClientToServer, t);
    PlainFaults(payload, t.net);
    hide Listed, Marks, Plain, Verdict;
  }

  /** So a payload changed on its way to the server is seen there and not listed, unless the network
      answers in the server's place: the server does not echo, and the client's own reason stands. */
  lemma {:induction false} ForwardChangeUnlisted(payload: seq<byte>, t: Trial)
    requires IsSlice(payload) && Plain(t.net) && t.net.OverTcp? && ReachesAltered(payload, t.net)
    requires !(payload <= Arriving(t.net.backward([]).pieces))
    ensures Listed(Responds(payload, t.net))
    ensures var verdict := Verdict(InitiatorEnds(payload, t), TargetEnds(payload, t));
            verdict.Fail? && !Listed(verdict)
  {
    ListedPlain(payload, t);
    TargetListed(payload, t.net);
    hide Listed, Marks, Plain, TargetFault;
  }

  /** A client that itself finds its payload altered on the way back says only "mismatch", and the
      test is not listed either; nothing is assumed of error texts. */
  lemma {:induction false} AlteredEchoUnlisted(payload: seq<byte>, t: Trial)
    requires IsSlice(payload) && t.net.OverTcp? && ConnectFault(t.net.connects).None? && t.net.request.Written?
    requires Altered(payload, Reply(payload, t.net))
    ensures Initiates(payload, t.net) == Fail("mismatch", |payload|, |payload|)
    ensures Verdict(InitiatorEnds(payload, t), TargetEnds(payload, t)) == InitiatorEnds(payload, t)
    ensures !Listed(InitiatorEnds(payload, t))
  {
    Unmarked("mismatch");
    LateUnlisted();
    hide Contains;
  }

  /** A datagram of another length than the payload fails the target with a text that does not hold
      the marker, so even at the client it is not listed. */
  lemma {:induction false} ResizedUnlisted(payload: seq<byte>, t: Trial)
    requires IsSlice(payload) && t.net.OverUdp? && t.net.targetBind.None?
    requires var k := FirstRequest(t.net.atTarget, 0); k < ATTEMPTS && |t.net.atTarget(k).recv.bytes| != |payload|
    ensures TargetEnds(payload, t).Fail? && !Listed(Verdict(TargetEnds(payload, t), InitiatorEnds(payload, t)))
  {
    LengthUnmarked(payload, t.net.atTarget(FirstRequest(t.net.atTarget, 0)).recv.bytes);
    LateUnlisted();
    hide Contains, FirstRequest, LengthComplaint;
  }

  // One byte that comes back inverted, over a network where everything else works.
  const ECHO_INVERTED := Trial(OverTcp(
    _ => Connected, Incoming, Written, Written,
    (s: seq<byte>) => Inbound([s], "end of stream"),
    (s: seq<byte>) => Inbound(if s == [0xAA] then [[0x55]] else [s], "end of stream")), false, false)

  lemma {:induction false} Arrives(s: seq<byte>, ending: string)
    ensures Arriving(Inbound([s], ending).pieces) == s
  {
    assert Arriving([s]) == s + Arriving([s][1..]) && [s][1..] == [];
  }

  lemma {:induction false} EchoInverted()
    ensures TargetEnds([0xAA], ECHO_INVERTED).Pass?
    ensures InitiatorEnds([0xAA], ECHO_INVERTED) == Fail("mismatch", 1, 1)
    ensures !Listed(Verdict(InitiatorEnds([0xAA], ECHO_INVERTED), TargetEnds([0xAA], ECHO_INVERTED)))
  {
    Arrives([0xAA], "end of stream");
    Arrives([0x55], "end of stream");
    UnretriedNext(ECHO_INVERTED.net.connects, 0);
    hide FirstUnretried, Arriving, Contains;
    AlteredEchoUnlisted([0xAA], ECHO_INVERTED);
  }
}
