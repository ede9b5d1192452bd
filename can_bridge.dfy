/**
 * The bus bridge: turns each charge-point event into an 11-bit arbitration id and
 * an 8-byte payload, and hands the frame to the bus, or only to the log when no
 * bus handle could be acquired (simulation mode).
 */
module CanBridge {
  import opened Common

  const CanIdBoot: int := 0x100
  const CanIdStatus: int := 0x101
  const CanIdStartTx: int := 0x102
  const CanIdStopTx: int := 0x103
  const CanIdHeartbeat: int := 0x104

  const PayloadLength: nat := 8

  /** A payload as the bridge builds it: a Python list of ints, not yet checked to be bytes. */
  type Payload = seq<int>

  /** Every element from index `k` on is zero. */
  predicate ZeroFrom(p: Payload, k: nat)
  {
    forall i :: k <= i < |p| ==> p[i] == 0
  }

  // ---------------------------------------------------------------------------
  // Payload builders

  /** BootNotification: a single 0x01 followed by zeros. */
  function BootPayload(): (p: Payload)
    ensures |p| == PayloadLength && p[0] == 0x01 && ZeroFrom(p, 1)
  {
    [0x01, 0x00, 0x00, 0x00, 0x00, 0x00, 0x00, 0x00]
  }

  /** Heartbeat: two 0xFF markers followed by zeros. */
  function HeartbeatPayload(): (p: Payload)
    ensures |p| == PayloadLength && p[0] == 0xFF && p[1] == 0xFF && ZeroFrom(p, 2)
  {
    [0xFF, 0xFF, 0x00, 0x00, 0x00, 0x00, 0x00, 0x00]
  }

  /** The status table of `send_status_notification`. */
  const StatusCodes: map<string, Byte> := map[
    "Available" := 0x01,
    "Preparing" := 0x02,
    "Charging" := 0x03,
    "Finishing" := 0x04,
    "Unavailable" := 0x05,
    "Faulted" := 0xFF
  ]

  /** `status_map.get(status, 0x00)`: a label's code, or 0 for any other text. */
  function StatusCode(status: string): (code: Byte)
    ensures code != 0 <==> status in StatusCodes
    ensures code in {0x00, 0x01, 0x02, 0x03, 0x04, 0x05, 0xFF}
  {
    if status in StatusCodes then StatusCodes[status] else 0x00
  }

  /** Distinct labels get distinct codes, so the code identifies the label. */
  lemma StatusCodeInjective(s: string, t: string)
    requires s in StatusCodes && t in StatusCodes && StatusCode(s) == StatusCode(t)
    ensures s == t
  {
  }

  function StatusPayload(connector: int, status: string): (p: Payload)
    ensures |p| == PayloadLength && p[0] == connector && p[1] == StatusCode(status) && ZeroFrom(p, 2)
  {
    [connector, StatusCode(status), 0x00, 0x00, 0x00, 0x00, 0x00, 0x00]
  }

  /** Sum of the code points of `s` (Python's `sum(ord(c) for c in s)`). */
  function CodePointSum(s: string): (sum: nat)
    ensures s == [] ==> sum == 0
    ensures forall i :: 0 <= i < |s| ==> s[i] as nat <= sum
  {
    if s == [] then 0 else s[0] as nat + CodePointSum(s[1..])
  }

  /** The one-byte tag digest: code-point sum modulo 256. */
  function TagDigest(idTag: string): (d: int)
    ensures 0 <= d < 256
    ensures (d - CodePointSum(idTag)) % 256 == 0
  {
    CodePointSum(idTag) % 256
  }

  /** Removing one character from a tag lowers its code-point sum by exactly that character's code point. */
  lemma {:induction false} CodePointSumRemove(s: string, i: nat)
    requires i < |s|
    ensures CodePointSum(s) == s[i] as nat + CodePointSum(s[..i] + s[i + 1..])
    decreases |s|
  {
    if i > 0 {
      var t := s[1..];
      CodePointSumRemove(t, i - 1);
      assert s[..i] + s[i + 1..] == [s[0]] + (t[..i - 1] + t[i..]);
    } else {
      assert s[..0] + s[1..] == s[1..];
    }
  }

  /** Two tags with the same characters in any order have the same code-point sum. */
  lemma {:induction false} CodePointSumPermutation(a: string, b: string)
    requires multiset(a) == multiset(b)
    ensures CodePointSum(a) == CodePointSum(b)
    decreases |a|
  {
    if a == [] {
      assert |b| == 0;
    } else {
      var x := a[0];
      assert x in multiset(b);
      assert x in b;
      var i :| 0 <= i < |b| && b[i] == x;
      var rest := b[..i] + b[i + 1..];
      MultisetRemove(b, i);
      MultisetRemove(a, 0);
      assert a[..0] + a[1..] == a[1..];
      assert multiset(a[1..]) + multiset{x} == multiset(rest) + multiset{x};
      assert multiset(a[1..]) == (multiset(a[1..]) + multiset{x}) - multiset{x};
      assert multiset(rest) == (multiset(rest) + multiset{x}) - multiset{x};
      CodePointSumRemove(b, i);
      CodePointSumRemove(a, 0);
      CodePointSumPermutation(a[1..], rest);
    }
  }

  lemma MultisetRemove(s: string, i: nat)
    requires i < |s|
    ensures multiset(s) == multiset(s[..i] + s[i + 1..]) + multiset{s[i]}
  {
    assert s == s[..i] + [s[i]] + s[i + 1..];
  }

  /** The digest is lossy: any rearrangement of a tag yields the same digest. */
  lemma DigestIgnoresOrder(a: string, b: string)
    requires multiset(a) == multiset(b)
    ensures TagDigest(a) == TagDigest(b)
  {
    CodePointSumPermutation(a, b);
  }

  /** Two different tags with one digest: a collision is expected, not a defect. */
  lemma DigestCollides()
    ensures "USER001" != "USER010" && TagDigest("USER001") == TagDigest("USER010")
  {
    DigestIgnoresOrder("USER001", "USER010");
  }

  function StartTransactionPayload(connector: int, idTag: string): (p: Payload)
    ensures |p| == PayloadLength && p[0] == connector && p[1] == 0x01 && p[2] == TagDigest(idTag) && ZeroFrom(p, 3)
  {
    [connector, 0x01, TagDigest(idTag), 0x00, 0x00, 0x00, 0x00, 0x00]
  }

  function Pow256(k: nat): (r: nat)
    ensures r >= 1
  {
    if k == 0 then 1 else 256 * Pow256(k - 1)
  }

  /** `n.to_bytes(k, 'little')` for an `n` that fits in `k` bytes. */
  function LittleEndianBytes(n: nat, k: nat): (bs: seq<Byte>)
    requires n < Pow256(k)
    ensures |bs| == k
    ensures forall i :: 0 <= i < k ==> bs[i] == (n / Pow256(i)) % 256
  {
    if k == 0 then []
    else
      var rest := LittleEndianBytes(n / 256, k - 1);
      ShiftedDigits(n, rest);
      [n % 256] + rest
  }

  /** The digits of `n / 256` are the digits of `n` from the second one on. */
  lemma ShiftedDigits(n: nat, rest: seq<Byte>)
    requires forall j :: 0 <= j < |rest| ==> rest[j] == (n / 256 / Pow256(j)) % 256
    ensures forall i :: 0 <= i < |rest| + 1 ==> ([n % 256] + rest)[i] == (n / Pow256(i)) % 256
  {
    var bs := [n % 256] + rest;
    forall i | 0 <= i < |rest| + 1
      ensures bs[i] == (n / Pow256(i)) % 256
    {
      if i == 0 {
        assert Pow256(0) == 1;
      } else {
        var j := i - 1;
        assert bs[i] == rest[j];
        assert Pow256(i) == 256 * Pow256(j);
        DivDiv(n, 256, Pow256(j));
      }
    }
  }

  lemma MulBound(d: nat, x: int)
    requires d > 0 && x >= 1
    ensures d * x >= d
  {
  }

  lemma MulMono(a: nat, x: int, y: int)
    requires x <= y
    ensures a * x <= a * y
  {
    assert a * y - a * x == a * (y - x);
  }

  lemma DivUnique(n: int, d: int, q: int, r: int)
    requires d > 0 && 0 <= r < d && n == d * q + r
    ensures n / d == q
  {
    var q0, r0 := n / d, n % d;
    assert d * q0 + r0 == d * q + r;
    assert d * (q - q0) == r0 - r by {
      assert d * (q - q0) == d * q - d * q0;
    }
    if q > q0 {
      MulBound(d, q - q0);
    } else if q < q0 {
      MulBound(d, q0 - q);
    }
  }

  /** Dividing by `a` and then by `b` is dividing by `a * b`. */
  lemma DivDiv(n: nat, a: nat, b: nat)
    requires a > 0 && b > 0
    ensures n / a / b == n / (a * b)
  {
    var q, r := n / a, n % a;
    var q2, r2 := q / b, q % b;
    var ab := a * b;
    var s := a * r2 + r;
    assert n == a * q + r;
    assert q == b * q2 + r2;
    assert a * q == ab * q2 + a * r2 by {
      assert a * q == a * (b * q2 + r2);
      assert a * (b * q2 + r2) == a * (b * q2) + a * r2;
      assert a * (b * q2) == (a * b) * q2;
    }
    assert n == ab * q2 + s;
    MulMono(a, r2, b - 1);
    assert a * (b - 1) == ab - a;
    assert 0 <= s < ab;
    DivUnique(n, ab, q2, s);
  }

  /** `int.from_bytes(bs, 'little')`. */
  function LittleEndianValue(bs: seq<Byte>): (n: nat)
    ensures n < Pow256(|bs|)
  {
    if bs == [] then 0 else bs[0] + 256 * LittleEndianValue(bs[1..])
  }

  /** Reading back the little-endian bytes of `n` gives `n`. */
  lemma {:induction false} LittleEndianRoundTrip(n: nat, k: nat)
    requires n < Pow256(k)
    ensures LittleEndianValue(LittleEndianBytes(n, k)) == n
  {
    if k > 0 {
      var q := n / 256;
      assert n == q * 256 + n % 256;
      assert q < Pow256(k - 1);
      LittleEndianRoundTrip(q, k - 1);
    }
  }

  /** Conversely, writing out the value of `k` bytes gives back those bytes. */
  lemma {:induction false} LittleEndianBytesOfValue(bs: seq<Byte>)
    ensures LittleEndianBytes(LittleEndianValue(bs), |bs|) == bs
  {
    if bs != [] {
      var v := LittleEndianValue(bs);
      var rest := LittleEndianValue(bs[1..]);
      assert v == bs[0] + 256 * rest;
      assert v % 256 == bs[0] && v / 256 == rest;
      LittleEndianBytesOfValue(bs[1..]);
    }
  }

  /** The value of four little-endian bytes, written out. */
  lemma FourByteValue(bs: seq<Byte>)
    requires |bs| == 4
    ensures LittleEndianValue(bs) == bs[0] as int + 0x100 * bs[1] as int + 0x1_0000 * bs[2] as int + 0x100_0000 * bs[3] as int
  {
    assert bs[1..][1..][1..][1..] == [];
    assert LittleEndianValue(bs[3..]) == bs[3] as int;
    assert LittleEndianValue(bs[2..]) == bs[2] as int + 256 * bs[3] as int;
    assert LittleEndianValue(bs[1..]) == bs[1] as int + 256 * bs[2] as int + 0x1_0000 * bs[3] as int;
  }

  /** The exception `to_bytes` raises when the id does not fit in four unsigned bytes. */
  datatype Overflow = OverflowError

  const TxIdLimit: nat := 0x1_0000_0000

  /** The StopTransaction payload, or the OverflowError `to_bytes(4, 'little')` raises for an id outside 0 .. 2^32 - 1. */
  function StopTransactionPayload(transactionId: int): (r: Result<Payload, Overflow>)
    ensures r.Ok? <==> 0 <= transactionId < TxIdLimit
    ensures r.Ok? ==> |r.value| == PayloadLength && r.value[0] == 0 && ZeroFrom(r.value, 5)
    ensures r.Ok? ==> AllBytes(r.value)
    ensures r.Ok? ==>
      r.value[1] + 0x100 * r.value[2] + 0x1_0000 * r.value[3] + 0x100_0000 * r.value[4] == transactionId
  {
    if 0 <= transactionId < TxIdLimit then
      assert Pow256(4) == TxIdLimit;
      var tx := LittleEndianBytes(transactionId, 4);
      LittleEndianRoundTrip(transactionId, 4);
      FourByteValue(tx);
      Ok([0x00, tx[0], tx[1], tx[2], tx[3], 0x00, 0x00, 0x00])
    else
      Err(OverflowError)
  }

  /** The id 12345 = 0x3039 is packed as 0x39, 0x30, 0, 0 at offsets 1..4. */
  lemma StopTransactionExample()
    ensures StopTransactionPayload(12345) == Ok([0x00, 0x39, 0x30, 0x00, 0x00, 0x00, 0x00, 0x00])
  {
  }

  /** Every payload the bridge builds is 8 long and zero beyond the bytes its event assigns. */
  lemma PayloadsAreEightBytes(connector: int, status: string, idTag: string, transactionId: int)
    ensures |BootPayload()| == PayloadLength && BootPayload()[0] == 1 && ZeroFrom(BootPayload(), 1)
    ensures |HeartbeatPayload()| == PayloadLength && HeartbeatPayload()[..2] == [0xFF, 0xFF] && ZeroFrom(HeartbeatPayload(), 2)
    ensures |StatusPayload(connector, status)| == PayloadLength && ZeroFrom(StatusPayload(connector, status), 2)
    ensures |StartTransactionPayload(connector, idTag)| == PayloadLength && ZeroFrom(StartTransactionPayload(connector, idTag), 3)
    ensures StopTransactionPayload(transactionId).Ok? ==>
      |StopTransactionPayload(transactionId).value| == PayloadLength && ZeroFrom(StopTransactionPayload(transactionId).value, 5)
  {
  }

  // ---------------------------------------------------------------------------
  // The bus adapter

  /** A handle returned by `can.interface.Bus(channel=..., bustype='socketcan')`. */
  datatype BusHandle = SocketCan(channel: string)

  /** A frame as handed to `bus.send`: standard 11-bit id, data already checked to be bytes. */
  datatype Frame = Frame(id: int, data: seq<Byte>)

  /** What one `send_can_message` call does, decided by the bus mode and the transport. */
  datatype SendOutcome = Transmit | Simulate | Fail

  /** One entry of the bridge's log trace (timestamps and the text rendering are not modelled). */
  datatype LogEntry =
    | Connected(channel: string)
    | SimulationMode
    | Transmitted(id: int, data: Payload, description: string)
    | Simulated(id: int, data: Payload, description: string)
    | SendError

  /**
   * Outcome of sending `data`: without a bus only the simulation entry; with a bus the
   * frame goes out when `can.Message` accepts the data (every element a byte) and the
   * transport (`transportOk`) accepts the frame; otherwise the exception is caught.
   */
  function Outcome(bus: Option<BusHandle>, data: Payload, transportOk: bool): (o: SendOutcome)
    ensures o == Simulate <==> bus.None?
    ensures o == Transmit <==> bus.Some? && AllBytes(data) && transportOk
  {
    if bus.None? then Simulate
    else if AllBytes(data) && transportOk then Transmit
    else Fail
  }

  /** The log entry for one send: which kind is decided by the outcome; the frame's details are kept unless the send failed. */
  function Entry(o: SendOutcome, id: int, data: Payload, description: string): (e: LogEntry)
    ensures e.Transmitted? <==> o == Transmit
    ensures e.Simulated? <==> o == Simulate
    ensures e == SendError <==> o == Fail
    ensures e.Transmitted? || e.Simulated? ==> e.id == id && e.data == data && e.description == description
  {
    match o
    case Transmit => Transmitted(id, data, description)
    case Simulate => Simulated(id, data, description)
    case Fail => SendError
  }

  /** The frames `bus.send` puts on the wire for one send: exactly one on a transmission, none otherwise. */
  function Emitted(o: SendOutcome, id: int, data: Payload): (fs: seq<Frame>)
    ensures |fs| <= 1
    ensures fs != [] <==> o == Transmit && AllBytes(data)
    ensures fs != [] ==> fs[0].id == id && fs[0].data == data
  {
    if o == Transmit && AllBytes(data) then [Frame(id, data)] else []
  }

  /** Without a bus handle, sending never transmits and always logs a simulation entry. */
  lemma SimulationNeverTransmits(id: int, data: Payload, description: string, transportOk: bool)
    ensures Emitted(Outcome(None, data, transportOk), id, data) == []
    ensures Entry(Outcome(None, data, transportOk), id, data, description) == Simulated(id, data, description)
  {
  }

  /** Frames only ever go to the bus with a well-formed 8-byte payload under one of the five ids. */
  predicate WellFormed(f: Frame)
  {
    |f.data| == PayloadLength && CanIdBoot <= f.id <= CanIdHeartbeat
  }

  class Bridge {
    /** `self.bus`: the handle, or `None` in simulation mode. */
    var bus: Option<BusHandle>
    /** The frames handed to `bus.send`, in order. */
    var wire: seq<Frame>
    /** The log trace, in order. */
    var log: seq<LogEntry>
    /** How many times `bus.shutdown()` was called. */
    var shutdowns: nat

    /** Simulation mode never puts anything on the wire; every frame on it is well formed. */
    ghost predicate Valid()
      reads this
    {
      && (bus.None? ==> wire == [] && shutdowns == 0)
      && forall f :: f in wire ==> WellFormed(f)
    }

    /** `__init__`: `acquired` is whether `can.interface.Bus` returned a handle rather than raising. */
    constructor (channel: string, acquired: bool)
      ensures Valid()
      ensures bus.None? <==> !acquired
      ensures bus == (if acquired then Some(SocketCan(channel)) else None)
      ensures log == (if acquired then [Connected(channel)] else [SimulationMode])
      ensures wire == [] && shutdowns == 0
    {
      bus := if acquired then Some(SocketCan(channel)) else None;
      log := if acquired then [Connected(channel)] else [SimulationMode];
      wire := [];
      shutdowns := 0;
    }

    /** `send_can_message`: never raises; logs one entry and transmits at most one frame. */
    method SendCanMessage(id: int, data: Payload, description: string, transportOk: bool)
      modifies this
      ensures bus == old(bus) && shutdowns == old(shutdowns)
      ensures log == old(log) + [Entry(Outcome(bus, data, transportOk), id, data, description)]
      ensures wire == old(wire) + Emitted(Outcome(bus, data, transportOk), id, data)
      ensures old(Valid()) && |data| == PayloadLength && CanIdBoot <= id <= CanIdHeartbeat ==> Valid()
    {
      var o := Outcome(bus, data, transportOk);
      match o {
        case Transmit =>
          wire := wire + [Frame(id, data)];
          log := log + [Transmitted(id, data, description)];
        case Simulate =>
          log := log + [Simulated(id, data, description)];
        case Fail =>
          log := log + [SendError];
      }
    }

    method SendBootNotification(transportOk: bool)
      requires Valid()
      modifies this
      ensures Valid()
      ensures bus == old(bus) && shutdowns == old(shutdowns)
      ensures log == old(log) + [Entry(Outcome(bus, BootPayload(), transportOk), CanIdBoot, BootPayload(), "Boot Notification")]
      ensures wire == old(wire) + Emitted(Outcome(bus, BootPayload(), transportOk), CanIdBoot, BootPayload())
    {
      SendCanMessage(CanIdBoot, BootPayload(), "Boot Notification", transportOk);
    }

    method SendStatusNotification(connector: int, status: string, transportOk: bool)
      requires Valid()
      modifies this
      ensures Valid()
      ensures bus == old(bus) && shutdowns == old(shutdowns)
      ensures log == old(log) +
        [Entry(Outcome(bus, StatusPayload(connector, status), transportOk), CanIdStatus, StatusPayload(connector, status), "Status: " + status)]
      ensures wire == old(wire) + Emitted(Outcome(bus, StatusPayload(connector, status), transportOk), CanIdStatus, StatusPayload(connector, status))
    {
      SendCanMessage(CanIdStatus, StatusPayload(connector, status), "Status: " + status, transportOk);
    }

    method SendStartTransaction(connector: int, idTag: string, transportOk: bool)
      requires Valid()
      modifies this
      ensures Valid()
      ensures bus == old(bus) && shutdowns == old(shutdowns)
      ensures log == old(log) +
        [Entry(Outcome(bus, StartTransactionPayload(connector, idTag), transportOk), CanIdStartTx, StartTransactionPayload(connector, idTag), "Start: " + idTag)]
      ensures wire == old(wire) +
        Emitted(Outcome(bus, StartTransactionPayload(connector, idTag), transportOk), CanIdStartTx, StartTransactionPayload(connector, idTag))
    {
      SendCanMessage(CanIdStartTx, StartTransactionPayload(connector, idTag), "Start: " + idTag, transportOk);
    }

    /**
     * `send_stop_transaction`: `raised` is the OverflowError that escapes to the caller
     * for an id outside 0 .. 2^32 - 1, in which case nothing is sent and nothing logged.
     */
    method SendStopTransaction(transactionId: int, transportOk: bool) returns (raised: bool)
      requires Valid()
      modifies this
      ensures Valid()
      ensures raised <==> StopTransactionPayload(transactionId).Err?
      ensures bus == old(bus) && shutdowns == old(shutdowns)
      ensures raised ==> log == old(log) && wire == old(wire)
      ensures !raised ==> var p := StopTransactionPayload(transactionId).value;
        && log == old(log) + [Entry(Outcome(bus, p, transportOk), CanIdStopTx, p, "Stop: " + Decimal(transactionId))]
        && wire == old(wire) + Emitted(Outcome(bus, p, transportOk), CanIdStopTx, p)
    {
      match StopTransactionPayload(transactionId) {
        case Err(_) =>
          raised := true;
        case Ok(p) =>
          raised := false;
          SendCanMessage(CanIdStopTx, p, "Stop: " + Decimal(transactionId), transportOk);
      }
    }

    method SendHeartbeat(transportOk: bool)
      requires Valid()
      modifies this
      ensures Valid()
      ensures bus == old(bus) && shutdowns == old(shutdowns)
      ensures log == old(log) + [Entry(Outcome(bus, HeartbeatPayload(), transportOk), CanIdHeartbeat, HeartbeatPayload(), "Heartbeat")]
      ensures wire == old(wire) + Emitted(Outcome(bus, HeartbeatPayload(), transportOk), CanIdHeartbeat, HeartbeatPayload())
    {
      SendCanMessage(CanIdHeartbeat, HeartbeatPayload(), "Heartbeat", transportOk);
    }

    /** `close`: shuts the bus down when a handle is held (the handle is kept); otherwise nothing. */
    method Close()
      requires Valid()
      modifies this
      ensures Valid()
      ensures bus == old(bus) && wire == old(wire) && log == old(log)
      ensures shutdowns == old(shutdowns) + (if bus.Some? then 1 else 0)
    {
      if bus.Some? {
        shutdowns := shutdowns + 1;
      }
    }
  }
}
