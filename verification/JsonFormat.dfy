/** Canonical JSON as the document format of the service log: the record shapes, the guard
    and identity checks on JSON values, and the laws the log proofs rely on. */
module JsonFormat {
  import opened Common
  import opened CanonicalJson
  import opened ServiceLog
  import Fixed = Identity

  const GUARD_KEYS := ["cfw_processes", "dns_sha256", "proxy_sha256",
                       "routes_ipv4_sha256", "routes_ipv6_sha256", "tun_sha256"]
  const PROCESS_KEYS := ["binary_sha256", "path", "pid", "started_at", "uid"]
  const EVENT_KEYS := ["action", "document", "guard_after", "guard_before", "intent_sha256",
                       "off_proof_profile", "phase", "previous_event_sha256", "schema_version", "sequence"]
  const INTENT_KEYS := ["candidate", "document", "ga_environment_sha256", "off_proof_profile",
                        "previous", "schema_version", "transaction_id"]
  const CONTINUATION_KEYS := ["decommissioned_event_sha256", "document", "guard_after", "guard_before",
                              "intent_sha256", "schema_version", "transaction_id"]
  const ENVIRONMENT_KEYS := ["architecture", "boot_environment_sha256", "document", "hardware_model",
                             "machine_sha256", "macos_build_version", "macos_product_version",
                             "physical_nonvirtualized", "schema_version"]
  const ENVIRONMENT_DOCUMENT := "cfm-ga-environment-identity-v1"

  // --------------------------------------------------------------------- exact records

  /** An object with exactly these keys, in key order, and these values. */
  function Pack(keys: seq<string>, values: seq<Json>): Json
    requires |keys| == |values|
  {
    JObj(seq(|keys|, i requires 0 <= i < |keys| => Field(keys[i], values[i])))
  }

  predicate HasKeys(v: Json, keys: seq<string>)
  {
    v.JObj? && |v.fields| == |keys| && forall i | 0 <= i < |keys| :: v.fields[i].key == keys[i]
  }

  /** The values of an object with exactly these keys. */
  function Unpack(keys: seq<string>, v: Json): (r: Option<seq<Json>>)
    ensures r.Some? <==> HasKeys(v, keys)
    ensures r.Some? ==> |r.value| == |keys| && forall i | 0 <= i < |keys| :: r.value[i] == v.fields[i].value
  {
    if HasKeys(v, keys) then Some(seq(|keys|, i requires 0 <= i < |keys| => v.fields[i].value)) else None
  }

  lemma UnpackPack(keys: seq<string>, values: seq<Json>)
    requires |keys| == |values|
    ensures Unpack(keys, Pack(keys, values)) == Some(values)
  {
    assert Unpack(keys, Pack(keys, values)).value == values;
  }

  lemma PackUnpack(keys: seq<string>, v: Json)
    requires HasKeys(v, keys)
    ensures Pack(keys, Unpack(keys, v).value) == v
  {
    assert Pack(keys, Unpack(keys, v).value).fields == v.fields;
  }

  predicate Ascending(keys: seq<string>)
  {
    forall i | 0 <= i < |keys| - 1 :: KeyLess(keys[i], keys[i + 1])
  }

  predicate AllOrdered(values: seq<Json>)
  {
    forall i | 0 <= i < |values| :: Ordered(values[i])
  }

  lemma PackOrdered(keys: seq<string>, values: seq<Json>)
    requires |keys| == |values| && Ascending(keys) && AllOrdered(values)
    ensures Ordered(Pack(keys, values))
  {
  }

  /** Read a file as a record: canonical bytes, an object, exactly these keys. */
  function ReadRecord(keys: seq<string>, data: string): (r: Option<seq<Json>>)
    ensures r.Some? ==> |r.value| == |keys|
  {
    var v := Decode(data);
    if v.None? then None else Unpack(keys, v.value)
  }

  function WriteRecord(keys: seq<string>, values: seq<Json>): string
    requires |keys| == |values|
  {
    Canonical(Pack(keys, values))
  }

  lemma ReadWriteRecord(keys: seq<string>, values: seq<Json>)
    requires |keys| == |values| && Ascending(keys) && AllOrdered(values)
    ensures ReadRecord(keys, WriteRecord(keys, values)) == Some(values)
  {
    PackOrdered(keys, values);
    RoundTrip(Pack(keys, values));
    UnpackPack(keys, values);
  }

  lemma WriteReadRecord(keys: seq<string>, data: string)
    requires ReadRecord(keys, data).Some?
    ensures WriteRecord(keys, ReadRecord(keys, data).value) == data
  {
    PackUnpack(keys, Decode(data).value);
  }

  lemma TornRecord(keys: seq<string>, values: seq<Json>, k: nat)
    requires |keys| == |values| && k < |WriteRecord(keys, values)|
    ensures ReadRecord(keys, WriteRecord(keys, values)[..k]) == None
  {
    TornIsRefused(Pack(keys, values), k);
  }

  // ------------------------------------------------------------------------- documents

  function EventValues(e: Event): (r: seq<Json>)
    ensures |r| == 10
  {
    [e.action, e.document, e.guardAfter, e.guardBefore, e.intentSha,
     e.profile, e.phase, e.previous, e.schema, e.sequence]
  }

  function IntentValues(i: Intent): (r: seq<Json>)
    ensures |r| == 7
  {
    [i.candidate, i.document, i.environmentSha, i.profile, i.previous, i.schema, i.id]
  }

  function ContinuationValues(c: Continuation): (r: seq<Json>)
    ensures |r| == 7
  {
    [c.eventSha, c.document, c.guardAfter, c.guardBefore, c.intentSha, c.schema, c.id]
  }

  function ReadEvent(data: string): Option<Event>
  {
    var r := ReadRecord(EVENT_KEYS, data);
    if r.None? then None
    else
      var v := r.value;
      Some(Event(v[0], v[1], v[2], v[3], v[4], v[5], v[6], v[7], v[8], v[9]))
  }

  function ReadIntent(data: string): Option<Intent>
  {
    var r := ReadRecord(INTENT_KEYS, data);
    if r.None? then None
    else
      var v := r.value;
      Some(Intent(v[0], v[1], v[2], v[3], v[4], v[5], v[6]))
  }

  function ReadContinuation(data: string): Option<Continuation>
  {
    var r := ReadRecord(CONTINUATION_KEYS, data);
    if r.None? then None
    else
      var v := r.value;
      Some(Continuation(v[0], v[1], v[2], v[3], v[4], v[5], v[6]))
  }

  function WriteEvent(e: Event): string { WriteRecord(EVENT_KEYS, EventValues(e)) }

  function WriteIntent(i: Intent): string { WriteRecord(INTENT_KEYS, IntentValues(i)) }

  function WriteContinuation(c: Continuation): string { WriteRecord(CONTINUATION_KEYS, ContinuationValues(c)) }

  // ---------------------------------------------------------------------------- values

  /** Fixed-length text patterns: D digit, H lower-case hex, A and a letters, _ space or
      digit; anything else stands for itself. */
  predicate Matches(s: string, pattern: string)
  {
    |s| == |pattern| && forall i | 0 <= i < |s| :: MatchesChar(s[i], pattern[i])
  }

  predicate MatchesChar(c: char, p: char)
  {
    if p == 'D' then IsDigit(c)
    else if p == 'H' then IsDigit(c) || 'a' <= c <= 'f'
    else if p == 'A' then 'A' <= c <= 'Z'
    else if p == 'a' then 'a' <= c <= 'z'
    else if p == '_' then c == ' ' || IsDigit(c)
    else c == p
  }

  predicate IsSha(v: Json)
  {
    v.JStr? && |v.s| == 64 && forall i | 0 <= i < |v.s| :: MatchesChar(v.s[i], 'H')
  }

  predicate IsUuid(v: Json) { v.JStr? && Matches(v.s, "HHHHHHHH-HHHH-HHHH-HHHH-HHHHHHHHHHHH") }

  predicate ValidProcess(v: Json)
  {
    && HasKeys(v, PROCESS_KEYS)
    && IsSha(v.fields[0].value)
    && v.fields[2].value.JInt? && v.fields[2].value.n > 0
    && v.fields[3].value.JStr? && Matches(v.fields[3].value.s, "Aaa Aaa _D DD:DD:DD DDDD")
    && v.fields[4].value.JInt?
  }

  /** `_validate_guard`. */
  predicate ValidGuard(v: Json)
  {
    && HasKeys(v, GUARD_KEYS)
    && v.fields[0].value.JArr?
    && var processes := v.fields[0].value.items;
    && (forall i | 0 <= i < |processes| :: ValidProcess(processes[i]))
    && (|processes| == 0
        || (|processes| == 2
            && processes[0].fields[1].value == JStr(Fixed.CFW_GUI)
            && processes[1].fields[1].value == JStr(Fixed.CFW_CORE)))
    && (forall i | 1 <= i < 6 :: IsSha(v.fields[i].value))
  }

  predicate HasProcesses(v: Json)
  {
    HasKeys(v, GUARD_KEYS) && v.fields[0].value.JArr? && v.fields[0].value.items != []
  }

  /** Two guards whose differing fields are exactly `dns_sha256`. */
  predicate DnsOnly(before: Json, after: Json)
  {
    && HasKeys(before, GUARD_KEYS) && HasKeys(after, GUARD_KEYS)
    && before.fields[1] != after.fields[1]
    && forall i | 0 <= i < 6 && i != 1 :: before.fields[i] == after.fields[i]
  }

  /** `validate_environment`, without the machine and version text patterns. */
  predicate ValidEnvironment(v: Json)
  {
    && HasKeys(v, ENVIRONMENT_KEYS)
    && v.fields[0].value == JStr("arm64")
    && v.fields[2].value == JStr(ENVIRONMENT_DOCUMENT)
    && v.fields[7].value == JBool(true)
    && v.fields[8].value == JInt(1)
    && IsSha(v.fields[1].value) && IsSha(v.fields[4].value)
  }

  function ReadEnvironment(data: string): Option<Json>
  {
    var v := Decode(data);
    if v.Some? && ValidEnvironment(v.value) then v else None
  }

  function EnvironmentSha(sha: string -> string, v: Json): string
  {
    sha(ENVIRONMENT_DOCUMENT + "\0" + Canonical(v))
  }

  /** Equal digests of environments mean equal environments. */
  lemma EnvironmentShaInjective(sha: string -> string, a: Json, b: Json)
    requires Injective(sha) && EnvironmentSha(sha, a) == EnvironmentSha(sha, b)
    ensures a == b
  {
    var prefix := ENVIRONMENT_DOCUMENT + "\0";
    assert (prefix + Canonical(a))[|prefix|..] == Canonical(a);
    assert (prefix + Canonical(b))[|prefix|..] == Canonical(b);
    CanonicalInjective(a, b);
  }

  // ------------------------------------------------------------------------- key order

  lemma GuardsAscend()
    ensures KeyLess("guard_after", "guard_before")
  {
    var a, b := "guard_after", "guard_before";
    assert a[..6] == "guard_" && b[..6] == "guard_";
    LessAt(a, b, 6);
  }

  lemma AscendingConcat(a: seq<string>, b: seq<string>)
    requires a != [] && b != [] && Ascending(a) && Ascending(b) && KeyLess(a[|a| - 1], b[0])
    ensures Ascending(a + b)
  {
  }

  lemma AscendingPair(a: string, b: string)
    requires KeyLess(a, b)
    ensures Ascending([a, b])
  {
  }

  lemma AscendingFront(a: string, b: string, c: string)
    requires KeyLess(a, b) && KeyLess(b, c)
    ensures Ascending([a, b, c])
  {
  }

  lemma FirstEventKeys()
    ensures Ascending(["action", "document", "guard_after"])
  {
    FirstLess("action", "document");
    FirstLess("document", "guard_after");
    AscendingFront("action", "document", "guard_after");
  }

  lemma MiddleEventKeys()
    ensures Ascending(["guard_before", "intent_sha256", "off_proof_profile"])
  {
    FirstLess("guard_before", "intent_sha256");
    FirstLess("intent_sha256", "off_proof_profile");
    AscendingFront("guard_before", "intent_sha256", "off_proof_profile");
  }

  lemma LastEventKeys()
    ensures Ascending(["phase", "previous_event_sha256", "schema_version", "sequence"])
  {
    LessAt("phase", "previous_event_sha256", 1);
    AscendingPair("phase", "previous_event_sha256");
    FirstLess("previous_event_sha256", "schema_version");
    LessAt("schema_version", "sequence", 1);
    AscendingPair("schema_version", "sequence");
    AscendingConcat(["phase", "previous_event_sha256"], ["schema_version", "sequence"]);
  }

  lemma TenAscend(a: string, b: string, c: string, d: string, e: string,
                  f: string, g: string, h: string, i: string, j: string)
    requires Ascending([a, b, c]) && Ascending([d, e, f]) && Ascending([g, h, i, j])
    requires KeyLess(c, d) && KeyLess(f, g)
    ensures Ascending([a, b, c, d, e, f, g, h, i, j])
  {
    AscendingConcat([a, b, c], [d, e, f]);
    AscendingConcat([a, b, c] + [d, e, f], [g, h, i, j]);
    assert [a, b, c] + [d, e, f] + [g, h, i, j] == [a, b, c, d, e, f, g, h, i, j];
  }

  lemma EventKeysAscend()
    ensures Ascending(EVENT_KEYS)
  {
    FirstEventKeys();
    MiddleEventKeys();
    LastEventKeys();
    GuardsAscend();
    FirstLess("off_proof_profile", "phase");
    TenAscend("action", "document", "guard_after", "guard_before", "intent_sha256", "off_proof_profile",
              "phase", "previous_event_sha256", "schema_version", "sequence");
  }

  lemma RoutesAscend()
    ensures KeyLess("routes_ipv4_sha256", "routes_ipv6_sha256")
  {
    var a, b := "routes_ipv4_sha256", "routes_ipv6_sha256";
    assert a[..10] == "routes_ipv" && b[..10] == "routes_ipv";
    LessAt(a, b, 10);
  }

  lemma FirstGuardKeys()
    ensures Ascending(["cfw_processes", "dns_sha256", "proxy_sha256"])
  {
    FirstLess("cfw_processes", "dns_sha256");
    FirstLess("dns_sha256", "proxy_sha256");
    AscendingFront("cfw_processes", "dns_sha256", "proxy_sha256");
  }

  lemma LastGuardKeys()
    ensures Ascending(["routes_ipv4_sha256", "routes_ipv6_sha256", "tun_sha256"])
  {
    RoutesAscend();
    FirstLess("routes_ipv6_sha256", "tun_sha256");
    AscendingFront("routes_ipv4_sha256", "routes_ipv6_sha256", "tun_sha256");
  }

  lemma SixAscend(a: string, b: string, c: string, d: string, e: string, f: string)
    requires Ascending([a, b, c]) && Ascending([d, e, f]) && KeyLess(c, d)
    ensures Ascending([a, b, c, d, e, f])
  {
    AscendingConcat([a, b, c], [d, e, f]);
    assert [a, b, c] + [d, e, f] == [a, b, c, d, e, f];
  }

  lemma GuardKeysAscend()
    ensures Ascending(GUARD_KEYS)
  {
    FirstGuardKeys();
    LastGuardKeys();
    FirstLess("proxy_sha256", "routes_ipv4_sha256");
    SixAscend("cfw_processes", "dns_sha256", "proxy_sha256",
              "routes_ipv4_sha256", "routes_ipv6_sha256", "tun_sha256");
  }

  lemma ProcessKeysAscend()
    ensures Ascending(PROCESS_KEYS)
  {
    FirstLess("binary_sha256", "path");
    LessAt("path", "pid", 1);
    FirstLess("pid", "started_at");
    FirstLess("started_at", "uid");
  }

  /** Ordered keys over ordered values, as a reader finds them. */
  lemma HasKeysOrdered(v: Json, keys: seq<string>)
    requires HasKeys(v, keys) && Ascending(keys) && forall i | 0 <= i < |keys| :: Ordered(v.fields[i].value)
    ensures Ordered(v)
  {
  }

  lemma ProcessOrdered(v: Json)
    requires ValidProcess(v) && v.fields[1].value.JStr?
    ensures Ordered(v)
  {
    ProcessKeysAscend();
    HasKeysOrdered(v, PROCESS_KEYS);
  }

  /** A valid guard has its keys in order, and so have its processes. */
  lemma GuardOrdered(v: Json)
    requires ValidGuard(v)
    ensures Ordered(v)
  {
    var processes := v.fields[0].value.items;
    forall i | 0 <= i < |processes| ensures Ordered(processes[i]) {
      assert ValidProcess(processes[i]);
      ProcessOrdered(processes[i]);
    }
    GuardKeysAscend();
    HasKeysOrdered(v, GUARD_KEYS);
  }

  // ------------------------------------------------------------------------ the format

  /** The format the production code uses, over any digest. */
  function ProductionFormat(sha: string -> string): Format
  {
    Format(ReadEvent, WriteEvent, ReadIntent, WriteIntent, ReadContinuation, WriteContinuation,
           ReadEnvironment, sha, v => EnvironmentSha(sha, v), ValidGuard, HasProcesses, DnsOnly, IsUuid)
  }

  lemma EventRoundTrip(e: Event)
    requires AllOrdered(EventValues(e))
    ensures ReadEvent(WriteEvent(e)) == Some(e)
  {
    EventKeysAscend();
    ReadWriteRecord(EVENT_KEYS, EventValues(e));
  }

  lemma PlainEventRoundTrip(f: Format, e: Event)
    requires f.validGuard == ValidGuard && PlainEvent(f, e)
    ensures ReadEvent(WriteEvent(e)) == Some(e)
  {
    GuardOrdered(e.guardAfter);
    GuardOrdered(e.guardBefore);
    LeadingOrdered(e);
    TrailingOrdered(e);
    ValuesOrdered(e);
    EventRoundTrip(e);
  }

  lemma LeadingOrdered(e: Event)
    requires Scalar(e.action) && Scalar(e.document)
    ensures AllOrdered([e.action, e.document])
  {
    ScalarsOrdered([e.action, e.document]);
  }

  lemma TrailingOrdered(e: Event)
    requires Scalar(e.intentSha) && Scalar(e.profile)
    requires Scalar(e.phase) && Scalar(e.previous) && Scalar(e.schema) && Scalar(e.sequence)
    ensures AllOrdered([e.intentSha, e.profile, e.phase, e.previous, e.schema, e.sequence])
  {
    ScalarsOrdered([e.intentSha, e.profile, e.phase, e.previous, e.schema, e.sequence]);
  }

  lemma ValuesOrdered(e: Event)
    requires AllOrdered([e.action, e.document]) && Ordered(e.guardAfter) && Ordered(e.guardBefore)
    requires AllOrdered([e.intentSha, e.profile, e.phase, e.previous, e.schema, e.sequence])
    ensures AllOrdered(EventValues(e))
  {
    var a, b := [e.action, e.document], [e.guardAfter, e.guardBefore];
    var c := [e.intentSha, e.profile, e.phase, e.previous, e.schema, e.sequence];
    ValuesConcat(a, b, c);
    assert EventValues(e) == a + b + c;
  }

  lemma ScalarsOrdered(values: seq<Json>)
    requires forall i | 0 <= i < |values| :: Scalar(values[i])
    ensures AllOrdered(values)
  {
  }

  lemma ValuesConcat(a: seq<Json>, b: seq<Json>, c: seq<Json>)
    requires AllOrdered(a) && AllOrdered(b) && AllOrdered(c)
    ensures AllOrdered(a + b + c)
  {
  }

  lemma EventWrittenBack(data: string)
    requires ReadEvent(data).Some?
    ensures WriteEvent(ReadEvent(data).value) == data
  {
    WriteReadRecord(EVENT_KEYS, data);
    EventOfValues(ReadRecord(EVENT_KEYS, data).value);
  }

  lemma EventOfValues(v: seq<Json>)
    requires |v| == 10
    ensures EventValues(Event(v[0], v[1], v[2], v[3], v[4], v[5], v[6], v[7], v[8], v[9])) == v
  {
  }

  lemma IntentKeysAscend()
    ensures Ascending(INTENT_KEYS)
  {
    FirstLess("candidate", "document");
    FirstLess("document", "ga_environment_sha256");
    FirstLess("ga_environment_sha256", "off_proof_profile");
    FirstLess("off_proof_profile", "previous");
    FirstLess("previous", "schema_version");
    FirstLess("schema_version", "transaction_id");
  }

  lemma IntentRoundTrip(i: Intent)
    requires AllOrdered(IntentValues(i))
    ensures ReadIntent(WriteIntent(i)) == Some(i)
  {
    IntentKeysAscend();
    ReadWriteRecord(INTENT_KEYS, IntentValues(i));
  }

  lemma IntentWrittenBack(data: string)
    requires ReadIntent(data).Some?
    ensures WriteIntent(ReadIntent(data).value) == data
  {
    var v := ReadRecord(INTENT_KEYS, data).value;
    WriteReadRecord(INTENT_KEYS, data);
    assert IntentValues(ReadIntent(data).value) == v;
  }

  lemma FirstContinuationKeys()
    ensures Ascending(["decommissioned_event_sha256", "document", "guard_after"])
  {
    LessAt("decommissioned_event_sha256", "document", 1);
    FirstLess("document", "guard_after");
    AscendingFront("decommissioned_event_sha256", "document", "guard_after");
  }

  lemma LastContinuationKeys()
    ensures Ascending(["guard_before", "intent_sha256", "schema_version", "transaction_id"])
  {
    FirstLess("guard_before", "intent_sha256");
    AscendingPair("guard_before", "intent_sha256");
    FirstLess("intent_sha256", "schema_version");
    FirstLess("schema_version", "transaction_id");
    AscendingPair("schema_version", "transaction_id");
    AscendingConcat(["guard_before", "intent_sha256"], ["schema_version", "transaction_id"]);
  }

  lemma SevenAscend(a: string, b: string, c: string, d: string, e: string, f: string, g: string)
    requires Ascending([a, b, c]) && Ascending([d, e, f, g]) && KeyLess(c, d)
    ensures Ascending([a, b, c, d, e, f, g])
  {
    AscendingConcat([a, b, c], [d, e, f, g]);
    assert [a, b, c] + [d, e, f, g] == [a, b, c, d, e, f, g];
  }

  lemma ContinuationKeysAscend()
    ensures Ascending(CONTINUATION_KEYS)
  {
    FirstContinuationKeys();
    LastContinuationKeys();
    GuardsAscend();
    SevenAscend("decommissioned_event_sha256", "document", "guard_after", "guard_before", "intent_sha256",
                "schema_version", "transaction_id");
  }

  lemma ContinuationRoundTrip(f: Format, c: Continuation)
    requires f.validGuard == ValidGuard && PlainContinuation(f, c)
    ensures ReadContinuation(WriteContinuation(c)) == Some(c)
  {
    GuardOrdered(c.guardAfter);
    GuardOrdered(c.guardBefore);
    ContinuationValuesOrdered(c);
    ContinuationKeysAscend();
    ReadWriteRecord(CONTINUATION_KEYS, ContinuationValues(c));
  }

  lemma ContinuationValuesOrdered(c: Continuation)
    requires Ordered(c.guardAfter) && Ordered(c.guardBefore)
    requires Scalar(c.eventSha) && Scalar(c.document) && Scalar(c.intentSha) && Scalar(c.schema) && Scalar(c.id)
    ensures AllOrdered(ContinuationValues(c))
  {
    var values := ContinuationValues(c);
    assert values[0] == c.eventSha && values[1] == c.document && values[4] == c.intentSha;
    SevenOrdered(values);
  }

  lemma SevenOrdered(values: seq<Json>)
    requires |values| == 7 && Ordered(values[2]) && Ordered(values[3])
    requires Scalar(values[0]) && Scalar(values[1]) && Scalar(values[4]) && Scalar(values[5]) && Scalar(values[6])
    ensures AllOrdered(values)
  {
  }

  /** Canonical JSON satisfies every law the log proofs use. */
  lemma JsonIsLawful(sha: string -> string)
    ensures Lawful(ProductionFormat(sha))
    ensures Injective(sha) ==> InjectiveDigest(ProductionFormat(sha))
  {
    var f := ProductionFormat(sha);
    forall e | PlainEvent(f, e) ensures f.readEvent(f.writeEvent(e)) == Some(e) { PlainEventRoundTrip(f, e); }
    forall s: string | f.readEvent(s).Some? ensures f.writeEvent(f.readEvent(s).value) == s { EventWrittenBack(s); }
    forall e, k: nat {:trigger f.writeEvent(e)[..k]} | k < |f.writeEvent(e)|
      ensures f.readEvent(f.writeEvent(e)[..k]) == None
    {
      TornRecord(EVENT_KEYS, EventValues(e), k);
    }
    forall s: string | f.readIntent(s).Some? ensures f.writeIntent(f.readIntent(s).value) == s { IntentWrittenBack(s); }
    forall c | PlainContinuation(f, c) ensures f.readContinuation(f.writeContinuation(c)) == Some(c) {
      ContinuationRoundTrip(f, c);
    }
    forall c, k: nat {:trigger f.writeContinuation(c)[..k]} | k < |f.writeContinuation(c)|
      ensures f.readContinuation(f.writeContinuation(c)[..k]) == None
    {
      TornRecord(CONTINUATION_KEYS, ContinuationValues(c), k);
    }
  }
}
