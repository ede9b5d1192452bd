/**
 * The bus listener's decoder: classifies a received frame by its arbitration id and
 * reads back the fields the bridge packed into it. The round-trip lemmas at the end
 * connect it to the bridge's payload builders.
 */
module CanListener {
  import opened Common
  import CanBridge

  /** The listener's own status table, the inverse of the bridge's. */
  const StatusLabels: map<Byte, string> := map[
    0x01 := "Available",
    0x02 := "Preparing",
    0x03 := "Charging",
    0x04 := "Finishing",
    0x05 := "Unavailable",
    0xFF := "Faulted"
  ]

  /** `status_map.get(code, 'Unknown')`. */
  function StatusLabel(code: Byte): (name: string)
    ensures name != "Unknown" <==> code in StatusLabels
    ensures code in StatusLabels ==> name in CanBridge.StatusCodes && CanBridge.StatusCode(name) == code
  {
    if code in StatusLabels then StatusLabels[code] else "Unknown"
  }

  /** What `decode_message` reports, before it is rendered as text. */
  datatype Report =
    | BootNotification
    | StatusReport(connector: Byte, status: string)
    | StartTransactionReport(connector: Byte, user: Byte)
    | StopTransactionReport(txId: nat)
    | HeartbeatReport
    | UnknownId

  /** The IndexError that indexing past the end of a short frame raises (and nothing in the listener catches per frame). */
  datatype DecodeError = IndexError

  /** Python's slice `s[lo:hi]`: clamped to the sequence, so never an error. */
  function Slice(s: seq<Byte>, lo: nat, hi: nat): (r: seq<Byte>)
    ensures lo <= hi <= |s| ==> r == s[lo..hi]
    ensures lo <= |s| <= hi ==> r == s[lo..]
    ensures lo >= hi || lo >= |s| ==> r == []
    ensures |r| <= |s|
  {
    var h := if hi <= |s| then hi else |s|;
    var l := if lo <= h then lo else h;
    s[l..h]
  }

  /** `decode_message` on a frame with arbitration id `aid` and data bytes `data`. */
  function DecodeMessage(aid: int, data: seq<Byte>): (r: Result<Report, DecodeError>)
    ensures r.Err? <==> (aid == 0x101 && |data| < 2) || (aid == 0x102 && |data| < 3)
    ensures r == Ok(UnknownId) <==> !(0x100 <= aid <= 0x104)
    ensures aid == 0x100 <==> r == Ok(BootNotification)
    ensures aid == 0x104 <==> r == Ok(HeartbeatReport)
    ensures aid == 0x101 && |data| >= 2 ==> r == Ok(StatusReport(data[0], StatusLabel(data[1])))
    ensures aid == 0x102 && |data| >= 3 ==> r == Ok(StartTransactionReport(data[0], data[2]))
    ensures aid == 0x103 ==> r == Ok(StopTransactionReport(CanBridge.LittleEndianValue(Slice(data, 1, 5))))
    ensures r.Ok? && r.value.StopTransactionReport? ==> aid == 0x103 && r.value.txId < 0x1_0000_0000
  {
    if aid == 0x100 then
      Ok(BootNotification)
    else if aid == 0x101 then
      if |data| < 2 then Err(IndexError) else Ok(StatusReport(data[0], StatusLabel(data[1])))
    else if aid == 0x102 then
      if |data| < 3 then Err(IndexError) else Ok(StartTransactionReport(data[0], data[2]))
    else if aid == 0x103 then
      var tx := Slice(data, 1, 5);
      assert CanBridge.Pow256(|tx|) <= CanBridge.Pow256(4) == 0x1_0000_0000 by {
        PowMonotone(|tx|, 4);
      }
      Ok(StopTransactionReport(CanBridge.LittleEndianValue(tx)))
    else if aid == 0x104 then
      Ok(HeartbeatReport)
    else
      Ok(UnknownId)
  }

  lemma {:induction false} PowMonotone(j: nat, k: nat)
    requires j <= k
    ensures CanBridge.Pow256(j) <= CanBridge.Pow256(k)
    decreases k
  {
    if j < k {
      PowMonotone(j, k - 1);
    }
  }

  /** The text `decode_message` returns for a report; its first letter tells the fixed texts apart. */
  function Text(r: Report): (t: string)
    ensures |t| > 0
    ensures t[0] == 'U' <==> r.UnknownId?
    ensures t[0] == 'B' <==> r.BootNotification?
    ensures t[0] == 'H' <==> r.HeartbeatReport?
    ensures |t| > 3
    ensures r.StatusReport? <==> t[0] == 'S' && t[3] == 'T'
    ensures r.StartTransactionReport? <==> t[0] == 'S' && t[3] == 'R'
    ensures r.StopTransactionReport? <==> t[0] == 'S' && t[3] == 'P'
    ensures r.StopTransactionReport? ==> |t| > |StopPrefix| && t[..|StopPrefix|] == StopPrefix
  {
    match r
    case BootNotification => "BOOT NOTIFICATION"
    case StatusReport(c, s) => "STATUS - Connector " + Decimal(c) + ": " + s
    case StartTransactionReport(c, u) => "START TRANSACTION - Connector " + Decimal(c) + ", User: " + Decimal(u)
    case StopTransactionReport(tx) => StopPrefix + Decimal(tx)
    case HeartbeatReport => "HEARTBEAT"
    case UnknownId => "UNKNOWN"
  }

  const StopPrefix: string := "STOP TRANSACTION - ID: "

  /** The stop text carries the id in full: reading its digits back gives the decoded id. */
  lemma StopTextRecoversId(tx: nat)
    ensures |Text(StopTransactionReport(tx))| > |StopPrefix|
    ensures Text(StopTransactionReport(tx))[..|StopPrefix|] == StopPrefix
    ensures DecimalValue(Text(StopTransactionReport(tx))[|StopPrefix|..]) == tx
  {
    var t := Text(StopTransactionReport(tx));
    assert t[|StopPrefix|..] == Decimal(tx);
    DecimalRoundTrip(tx);
  }

  /** Two decimal numbers each followed by a non-digit: equal texts mean equal numbers and equal tails. */
  lemma DecimalThenNonDigit(a: nat, b: nat, x: string, y: string)
    requires Decimal(a) + x == Decimal(b) + y
    requires |x| > 0 && |y| > 0 && !('0' <= x[0] <= '9') && !('0' <= y[0] <= '9')
    ensures a == b && x == y
  {
    var da, db := Decimal(a), Decimal(b);
    DigitRunLength(da, db, x, y);
    assert da == (da + x)[..|da|];
    assert db == (db + y)[..|db|];
    DecimalInjective(a, b);
    assert x == (da + x)[|da|..];
    assert y == (db + y)[|db|..];
  }

  lemma DigitRunLength(da: string, db: string, x: string, y: string)
    requires forall i :: 0 <= i < |da| ==> '0' <= da[i] <= '9'
    requires forall i :: 0 <= i < |db| ==> '0' <= db[i] <= '9'
    requires da + x == db + y
    requires |x| > 0 && |y| > 0 && !('0' <= x[0] <= '9') && !('0' <= y[0] <= '9')
    ensures |da| == |db|
  {
    LeadingDigits(da, x);
    LeadingDigits(db, y);
  }

  /** The number of leading decimal digits of `t`. */
  function DigitRun(t: string): (n: nat)
    ensures n <= |t|
  {
    if t == [] || !('0' <= t[0] <= '9') then 0 else 1 + DigitRun(t[1..])
  }

  lemma {:induction false} LeadingDigits(d: string, x: string)
    requires forall i :: 0 <= i < |d| ==> '0' <= d[i] <= '9'
    requires |x| > 0 && !('0' <= x[0] <= '9')
    ensures DigitRun(d + x) == |d|
    decreases |d|
  {
    if d == [] {
      assert d + x == x;
    } else {
      assert (d + x)[0] == d[0];
      assert (d + x)[1..] == d[1..] + x;
      LeadingDigits(d[1..], x);
    }
  }

  /** The text determines the report: no two reports are rendered alike, so the log loses nothing. */
  lemma TextInjective(r1: Report, r2: Report)
    requires Text(r1) == Text(r2)
    ensures r1 == r2
  {
    match r1
    case StatusReport(c1, s1) =>
      StatusTextInjective(c1, s1, r2.connector, r2.status);
    case StartTransactionReport(c1, u1) =>
      StartTextInjective(c1, u1, r2.connector, r2.user);
    case StopTransactionReport(tx1) =>
      var tx2 := r2.txId;
      assert Decimal(tx1) == Text(r1)[|StopPrefix|..] == Decimal(tx2);
      DecimalInjective(tx1, tx2);
    case _ =>
  }

  lemma StatusTextInjective(c1: Byte, s1: string, c2: Byte, s2: string)
    requires Text(StatusReport(c1, s1)) == Text(StatusReport(c2, s2))
    ensures c1 == c2 && s1 == s2
  {
    var p := "STATUS - Connector ";
    var x1, x2 := ": " + s1, ": " + s2;
    var t1, t2 := p + (Decimal(c1) + x1), p + (Decimal(c2) + x2);
    assert t1 == Text(StatusReport(c1, s1)) == Text(StatusReport(c2, s2)) == t2;
    assert Decimal(c1) + x1 == t1[|p|..] == t2[|p|..] == Decimal(c2) + x2;
    DecimalThenNonDigit(c1, c2, x1, x2);
    assert s1 == x1[2..] && s2 == x2[2..];
  }

  lemma StartTextShape(c: Byte, u: Byte)
    ensures Text(StartTransactionReport(c, u)) == "START TRANSACTION - Connector " + (Decimal(c) + (", User: " + Decimal(u)))
  {
  }

  lemma StartTextInjective(c1: Byte, u1: Byte, c2: Byte, u2: Byte)
    requires Text(StartTransactionReport(c1, u1)) == Text(StartTransactionReport(c2, u2))
    ensures c1 == c2 && u1 == u2
  {
    var p := "START TRANSACTION - Connector ";
    var q := ", User: ";
    var x1, x2 := q + Decimal(u1), q + Decimal(u2);
    var t1, t2 := p + (Decimal(c1) + x1), p + (Decimal(c2) + x2);
    StartTextShape(c1, u1);
    StartTextShape(c2, u2);
    assert t1 == t2;
    assert t1[|p|..] == Decimal(c1) + x1;
    assert t2[|p|..] == Decimal(c2) + x2;
    DecimalThenNonDigit(c1, c2, x1, x2);
    assert Decimal(u1) == x1[|q|..] == x2[|q|..] == Decimal(u2);
    DecimalInjective(u1, u2);
  }

  /** A Status frame whose second byte is 0x03 reads as "Charging". */
  lemma ChargingExample(rest: seq<Byte>)
    ensures DecodeMessage(0x101, [1, 0x03] + rest) == Ok(StatusReport(1, "Charging"))
    ensures Text(StatusReport(1, "Charging")) == "STATUS - Connector 1: Charging"
  {
    var d: seq<Byte> := [1, 0x03] + rest;
    assert d[0] == 1 && d[1] == 0x03;
  }

  /** The two status tables are inverse: every listed code comes from exactly one bridge label. */
  lemma StatusTablesAgree(s: string)
    ensures s in CanBridge.StatusCodes ==> StatusLabel(CanBridge.StatusCode(s)) == s
    ensures s !in CanBridge.StatusCodes ==> StatusLabel(CanBridge.StatusCode(s)) == "Unknown"
  {
  }

  /** A status byte outside the table reads as "Unknown", whatever the connector. */
  lemma UnlistedStatusIsUnknown(data: seq<Byte>)
    requires |data| >= 2 && data[1] !in StatusLabels
    ensures DecodeMessage(0x101, data) == Ok(StatusReport(data[0], "Unknown"))
  {
  }

  /** A StopTransaction frame shorter than five bytes decodes the bytes it has: `[0, 0x39]` gives 0x39. */
  lemma ShortStopFrameExample()
    ensures DecodeMessage(0x103, [0x00, 0x39]) == Ok(StopTransactionReport(0x39))
    ensures DecodeMessage(0x103, []) == Ok(StopTransactionReport(0))
  {
    var d: seq<Byte> := [0x00, 0x39];
    assert Slice(d, 1, 5) == [0x39];
    var e: seq<Byte> := [];
    assert Slice(e, 1, 5) == [];
  }

  // ---------------------------------------------------------------------------
  // Round trips: decoding what the bridge encodes

  lemma BootRoundTrip()
    ensures DecodeMessage(CanBridge.CanIdBoot, CanBridge.BootPayload()) == Ok(BootNotification)
  {
  }

  lemma HeartbeatRoundTrip()
    ensures DecodeMessage(CanBridge.CanIdHeartbeat, CanBridge.HeartbeatPayload()) == Ok(HeartbeatReport)
  {
  }

  /**
   * Decoding the bridge's Status frame reports the same connector, and the same label
   * when it is one of the six; any other status text comes back as "Unknown".
   */
  lemma StatusRoundTrip(connector: Byte, status: string)
    ensures var p := CanBridge.StatusPayload(connector, status);
      AllBytes(p) &&
      DecodeMessage(CanBridge.CanIdStatus, p) ==
        Ok(StatusReport(connector, if status in CanBridge.StatusCodes then status else "Unknown"))
  {
    var p: seq<Byte> := CanBridge.StatusPayload(connector, status);
    StatusTablesAgree(status);
    assert p[0] == connector;
  }

  /** Decoding the bridge's StartTransaction frame reports the connector and the tag digest. */
  lemma StartTransactionRoundTrip(connector: Byte, idTag: string)
    ensures var p := CanBridge.StartTransactionPayload(connector, idTag);
      AllBytes(p) &&
      DecodeMessage(CanBridge.CanIdStartTx, p) == Ok(StartTransactionReport(connector, CanBridge.TagDigest(idTag)))
  {
    var p: seq<Byte> := CanBridge.StartTransactionPayload(connector, idTag);
    assert p[0] == connector && p[2] == CanBridge.TagDigest(idTag);
  }

  /** Decoding the bridge's StopTransaction frame recovers every id the bridge can encode. */
  lemma StopTransactionRoundTrip(transactionId: int)
    requires 0 <= transactionId < CanBridge.TxIdLimit
    ensures var r := CanBridge.StopTransactionPayload(transactionId);
      r.Ok? && AllBytes(r.value) &&
      DecodeMessage(CanBridge.CanIdStopTx, r.value) == Ok(StopTransactionReport(transactionId))
  {
    var p: seq<Byte> := CanBridge.StopTransactionPayload(transactionId).value;
    var tx := Slice(p, 1, 5);
    assert tx == p[1..5];
    CanBridge.FourByteValue(tx);
  }

  /** The 12345 example read back from its frame. */
  lemma StopTransactionExampleDecodes()
    ensures DecodeMessage(CanBridge.CanIdStopTx, [0x00, 0x39, 0x30, 0x00, 0x00, 0x00, 0x00, 0x00]) == Ok(StopTransactionReport(12345))
  {
    CanBridge.StopTransactionExample();
    StopTransactionRoundTrip(12345);
  }

  // ---------------------------------------------------------------------------
  // Decode then encode: a well-formed frame is rebuilt from its report

  /** An 8-byte Status frame with a listed status byte and zero padding is exactly the bridge's frame for its report. */
  lemma StatusDecodeThenEncode(data: seq<Byte>)
    requires |data| == 8 && data[1] in StatusLabels && CanBridge.ZeroFrom(data, 2)
    ensures var r := DecodeMessage(0x101, data).value;
      CanBridge.StatusPayload(r.connector, r.status) == data
  {
    var r := DecodeMessage(0x101, data).value;
    var p := CanBridge.StatusPayload(r.connector, r.status);
    assert forall i :: 0 <= i < 8 ==> p[i] == data[i];
  }

  /** An 8-byte StopTransaction frame with zero padding is exactly the bridge's frame for the id it decodes to. */
  lemma StopDecodeThenEncode(data: seq<Byte>)
    requires |data| == 8 && data[0] == 0 && CanBridge.ZeroFrom(data, 5)
    ensures var r := DecodeMessage(0x103, data).value;
      CanBridge.StopTransactionPayload(r.txId) == Ok(data)
  {
    var tx := data[1..5];
    assert Slice(data, 1, 5) == tx;
    var id := CanBridge.LittleEndianValue(tx);
    CanBridge.LittleEndianBytesOfValue(tx);
    assert CanBridge.Pow256(4) == CanBridge.TxIdLimit;
    assert CanBridge.LittleEndianBytes(id, 4) == tx;
    assert CanBridge.StopTransactionPayload(id) == Ok([0x00, tx[0], tx[1], tx[2], tx[3], 0x00, 0x00, 0x00]);
    var p := CanBridge.StopTransactionPayload(id).value;
    assert forall i :: 0 <= i < 8 ==> p[i] == data[i];
    assert p == data;
    assert DecodeMessage(0x103, data) == Ok(StopTransactionReport(id));
  }
}
