/** Export of the closed install and service journals (scripts/ga_acceptance_journal_export.py).
    Documents are canonical JSON. A dict of files is its items in name order. The journals'
    own validators and the hash are parameters. */
module JournalExport {
  import opened Common
  import opened CanonicalJson
  import opened JsonFormat
  import Sorting

  const INSTALL_NAME := "dormant-install.json"
  const INTERNAL_INTENT_NAME := "export-intent.json"
  const RECEIPT_NAME := "export-receipt.json"
  const SERVICE_NAME := "service-transaction"
  const PRODUCT_VERSION := "0.5.1"
  const GA_BUILD := "51005"
  const TARGET := "target/candidates/" + PRODUCT_VERSION + "/ga/" + GA_BUILD +
                  "/stage-inputs/ga-acceptance/migration-journals"
  const MAX_DOCUMENT_BYTES := 1024 * 1024
  const MAX_SERVICE_FILES := 16
  const INTENT_KEYS := ["candidate", "document", "ga_environment_sha256", "payload", "pending_name", "previous",
                        "schema_version", "service_tree_sha256", "target", "transaction_id"]
  const PAYLOAD_KEYS := ["files", "tree_sha256"]
  const RECORD_KEYS := ["path", "sha256", "size"]
  const ENTRY_KEYS := ["path", "sha256", "size", "type"]
  const DIRECTORY_KEYS := ["path", "type"]
  const RECEIPT_KEYS := ["document", "ga_environment_sha256", "intent_sha256", "payload_tree_sha256",
                         "schema_version", "service_tree_sha256"]

  datatype File = File(name: string, data: string)

  type Files = seq<File>

  /** The producers' closed journals. */
  datatype Sources = Sources(install: string, service: Files)

  datatype InstallFacts = InstallFacts(
    document: Json, candidate: Json, previous: Json, environmentSha: string, installed: bool, activeBuilds: bool)

  datatype ServiceFacts = ServiceFacts(
    environment: Json, environmentSha: string, intent: Json, candidate: Json, previous: Json,
    boundEnvironmentSha: string, events: seq<Json>, recommissioned: bool)

  /** `validate_journal` and `validate_terminal_snapshot_files` on canonical bytes, and SHA-256. */
  datatype Validators = Validators(
    install: string -> Option<InstallFacts>, service: Files -> Option<ServiceFacts>, sha: string -> string)

  // ----------------------------------------------------------------------------- records

  datatype FileRecord = FileRecord(path: string, sha256: string, size: nat)

  function RecordOf(sha: string -> string, f: File): FileRecord { FileRecord(f.name, sha(f.data), |f.data|) }

  function RecordsOf(sha: string -> string, files: Files): (r: seq<FileRecord>)
    ensures |r| == |files| && forall i | 0 <= i < |r| :: r[i] == RecordOf(sha, files[i])
  {
    seq(|files|, i requires 0 <= i < |files| => RecordOf(sha, files[i]))
  }

  function RecordDoc(r: FileRecord): Json { Pack(RECORD_KEYS, [JStr(r.path), JStr(r.sha256), JInt(r.size)]) }

  function RecordDocs(rs: seq<FileRecord>): (r: seq<Json>)
    ensures |r| == |rs| && forall i | 0 <= i < |r| :: r[i] == RecordDoc(rs[i])
  {
    seq(|rs|, i requires 0 <= i < |rs| => RecordDoc(rs[i]))
  }

  function EntryDoc(sha: string -> string, f: File): Json
  {
    Pack(ENTRY_KEYS, [JStr(f.name), JStr(sha(f.data)), JInt(|f.data|), JStr("file")])
  }

  function EntryDocs(sha: string -> string, files: Files): seq<Json>
  {
    seq(|files|, i requires 0 <= i < |files| => EntryDoc(sha, files[i]))
  }

  /** `tree_digest(_tree_entries(...))` of top-level files followed by the service directory. */
  function TreeSha(sha: string -> string, top: Files, service: Files): string
  {
    var directory := Pack(DIRECTORY_KEYS, [JStr(SERVICE_NAME), JStr("directory")]);
    sha(Canonical(JArr(EntryDocs(sha, top) + [directory] + EntryDocs(sha, Prefixed(service)))))
  }

  /** Records determine the files they describe. */
  lemma RecordsDetermineFiles(sha: string -> string, a: Files, b: Files)
    requires Injective(sha) && RecordsOf(sha, a) == RecordsOf(sha, b)
    ensures a == b
  {
    forall i | 0 <= i < |a| ensures a[i] == b[i] {
      assert RecordsOf(sha, a)[i] == RecordsOf(sha, b)[i];
    }
  }

  lemma EntryDocInjective(sha: string -> string, a: File, b: File)
    requires Injective(sha) && EntryDoc(sha, a) == EntryDoc(sha, b)
    ensures a == b
  {
    var x, y := EntryDoc(sha, a).fields, EntryDoc(sha, b).fields;
    assert x[0].value == JStr(a.name) && y[0].value == JStr(b.name);
    assert x[1].value == JStr(sha(a.data)) && y[1].value == JStr(sha(b.data));
  }

  lemma EntryDocsInjective(sha: string -> string, a: Files, b: Files)
    requires Injective(sha) && EntryDocs(sha, a) == EntryDocs(sha, b)
    ensures a == b
  {
    assert |a| == |EntryDocs(sha, a)| == |EntryDocs(sha, b)| == |b|;
    forall i | 0 <= i < |a| ensures a[i] == b[i] {
      assert EntryDocs(sha, a)[i] == EntryDocs(sha, b)[i];
      EntryDocInjective(sha, a[i], b[i]);
    }
  }

  /** The tree digest determines the files, above and inside the service directory. */
  lemma TreeShaDetermines(sha: string -> string, a: Files, s: Files, b: Files, u: Files)
    requires Injective(sha) && |a| == |b| && TreeSha(sha, a, s) == TreeSha(sha, b, u)
    ensures a == b && s == u
  {
    var directory := Pack(DIRECTORY_KEYS, [JStr(SERVICE_NAME), JStr("directory")]);
    var x := EntryDocs(sha, a) + [directory] + EntryDocs(sha, Prefixed(s));
    var y := EntryDocs(sha, b) + [directory] + EntryDocs(sha, Prefixed(u));
    CanonicalInjective(JArr(x), JArr(y));
    assert EntryDocs(sha, a) == x[..|a|] == y[..|b|] == EntryDocs(sha, b);
    assert EntryDocs(sha, Prefixed(s)) == x[|a| + 1..] == y[|b| + 1..] == EntryDocs(sha, Prefixed(u));
    EntryDocsInjective(sha, a, b);
    EntryDocsInjective(sha, Prefixed(s), Prefixed(u));
    StripPrefixed(s);
    StripPrefixed(u);
  }

  /** So does the service directory's own digest. */
  lemma ServiceTreeDetermines(sha: string -> string, s: Files, u: Files)
    requires Injective(sha) && ServiceTree(sha, s) == ServiceTree(sha, u)
    ensures s == u
  {
    CanonicalInjective(JArr(EntryDocs(sha, s)), JArr(EntryDocs(sha, u)));
    EntryDocsInjective(sha, s, u);
  }

  // ------------------------------------------------------------------------ service names

  predicate IsAlnum(c: char) { 'A' <= c <= 'Z' || 'a' <= c <= 'z' || '0' <= c <= '9' }

  predicate GoodName(n: string)
  {
    1 <= |n| <= 64 && IsAlnum(n[0]) && forall i | 0 <= i < |n| :: IsAlnum(n[i]) || n[i] == '.' || n[i] == '-'
  }

  predicate GoodNames(files: Files)
  {
    1 <= |files| <= MAX_SERVICE_FILES && forall i | 0 <= i < |files| :: GoodName(files[i].name)
  }

  function Prefix(): (r: string) ensures |r| == 20 { SERVICE_NAME + "/" }

  function Prefixed(files: Files): (r: Files)
    ensures |r| == |files| && forall i | 0 <= i < |r| :: r[i] == File(Prefix() + files[i].name, files[i].data)
  {
    seq(|files|, i requires 0 <= i < |files| => File(Prefix() + files[i].name, files[i].data))
  }

  predicate AllPrefixed(files: Files)
  {
    forall i | 0 <= i < |files| :: Prefix() <= files[i].name
  }

  function Stripped(files: Files): (r: Files)
    requires AllPrefixed(files)
    ensures |r| == |files| && forall i | 0 <= i < |r| :: r[i] == File(files[i].name[20..], files[i].data)
  {
    seq(|files|, i requires 0 <= i < |files| => File(files[i].name[20..], files[i].data))
  }

  lemma StripPrefixed(files: Files)
    ensures AllPrefixed(Prefixed(files)) && Stripped(Prefixed(files)) == files
  {
    forall i | 0 <= i < |files| ensures Prefix() <= Prefixed(files)[i].name && Stripped(Prefixed(files))[i] == files[i]
    {
      assert (Prefix() + files[i].name)[..20] == Prefix();
      assert (Prefix() + files[i].name)[20..] == files[i].name;
    }
  }

  lemma PrefixStripped(files: Files)
    requires AllPrefixed(files)
    ensures Prefixed(Stripped(files)) == files
  {
    forall i | 0 <= i < |files| ensures Prefixed(Stripped(files))[i] == files[i] {
      assert files[i].name == files[i].name[..20] + files[i].name[20..];
    }
  }

  // ------------------------------------------------------------------------------ intents

  datatype Intent = Intent(
    candidate: Json, environmentSha: string, records: seq<FileRecord>, payloadTree: string, pendingName: string,
    previous: Json, serviceTree: string, transactionId: string)

  function IntentValues(i: Intent): (r: seq<Json>)
    ensures |r| == 10
  {
    [i.candidate, JStr("cfm-ga-journal-export-intent-v1"), JStr(i.environmentSha),
     Pack(PAYLOAD_KEYS, [JArr(RecordDocs(i.records)), JStr(i.payloadTree)]),
     JStr(i.pendingName), i.previous, JInt(1), JStr(i.serviceTree), JStr(TARGET), JStr(i.transactionId)]
  }

  function IntentBytes(i: Intent): string { WriteRecord(INTENT_KEYS, IntentValues(i)) }

  function NoDashes(s: string): string
  {
    if s == "" then "" else (if s[0] == '-' then "" else [s[0]]) + NoDashes(s[1..])
  }

  function PendingName(transactionId: string): string
  {
    ".migration-journals-" + NoDashes(transactionId) + ".pending"
  }

  /** Different transactions use different pending names. */
  lemma PendingNameInjective(a: string, b: string)
    requires IsUuid(JStr(a)) && IsUuid(JStr(b)) && PendingName(a) == PendingName(b)
    ensures a == b
  {
    var x, y := PendingName(a), PendingName(b);
    assert x[20..|x| - 8] == NoDashes(a) && y[20..|y| - 8] == NoDashes(b);
    forall i | 0 <= i < |a| ensures a[i] == '-' <==> b[i] == '-' {
      UuidDash(a, i);
      UuidDash(b, i);
    }
    NoDashesInjective(a, b);
  }

  lemma UuidDash(a: string, i: nat)
    requires IsUuid(JStr(a)) && i < |a|
    ensures a[i] == '-' <==> i in {8, 13, 18, 23}
  {
    assert MatchesChar(a[i], "HHHHHHHH-HHHH-HHHH-HHHH-HHHHHHHHHHHH"[i]);
  }

  lemma {:induction false} NoDashesInjective(a: string, b: string)
    requires |a| == |b| && (forall i | 0 <= i < |a| :: a[i] == '-' <==> b[i] == '-') && NoDashes(a) == NoDashes(b)
    ensures a == b
  {
    if a != "" {
      var s, t := NoDashes(a), NoDashes(b);
      if a[0] != '-' {
        assert a[0] == s[0] == t[0] == b[0];
        assert NoDashes(a[1..]) == s[1..] == t[1..] == NoDashes(b[1..]);
      } else {
        assert b[0] == '-' && NoDashes(a[1..]) == s == t == NoDashes(b[1..]);
      }
      NoDashesInjective(a[1..], b[1..]);
      assert a == [a[0]] + a[1..] && b == [b[0]] + b[1..];
    }
  }

  predicate PathSorted(rs: seq<FileRecord>)
  {
    forall i, j | 0 <= i < j < |rs| :: rs[i].path != rs[j].path && Sorting.StringLeq(rs[i].path, rs[j].path)
  }

  /** `_validate_intent`, without the textual shape of digests. The two applications are
      dictionaries, listed in key order. */
  predicate ValidIntent(i: Intent)
  {
    && IsUuid(JStr(i.transactionId)) && i.pendingName == PendingName(i.transactionId)
    && Ordered(i.candidate) && Ordered(i.previous)
    && i.records != [] && PathSorted(i.records)
    && forall r | r in i.records :: 0 < r.size <= MAX_DOCUMENT_BYTES
  }

  function Text(v: Json): string { if v.JStr? then v.s else "" }

  function ReadFileRecord(v: Json): FileRecord
  {
    var u := Unpack(RECORD_KEYS, v);
    if u.Some? && u.value[2].JInt? && u.value[2].n >= 0
    then FileRecord(Text(u.value[0]), Text(u.value[1]), u.value[2].n)
    else FileRecord("", "", 0)
  }

  function ReadPayload(v: Json): (seq<FileRecord>, string)
  {
    var u := Unpack(PAYLOAD_KEYS, v);
    if u.Some? && u.value[0].JArr? then
      var items := u.value[0].items;
      (seq(|items|, i requires 0 <= i < |items| => ReadFileRecord(items[i])), Text(u.value[1]))
    else ([], "")
  }

  function FromValues(values: seq<Json>): Intent
    requires |values| == 10
  {
    var payload := ReadPayload(values[3]);
    Intent(values[0], Text(values[2]), payload.0, payload.1, Text(values[4]), values[5],
           Text(values[7]), Text(values[9]))
  }

  /** Read an intent: strict canonical JSON of exactly this shape. */
  function ReadIntent(data: string): Option<Intent>
  {
    var values := ReadRecord(INTENT_KEYS, data);
    if values.None? || |values.value| != 10 then None
    else
      var i := FromValues(values.value);
      if IntentValues(i) == values.value && ValidIntent(i) then Some(i) else None
  }

  lemma ReadPayloadDoc(records: seq<FileRecord>, tree: string)
    ensures ReadPayload(Pack(PAYLOAD_KEYS, [JArr(RecordDocs(records)), JStr(tree)])) == (records, tree)
  {
    var values := [JArr(RecordDocs(records)), JStr(tree)];
    UnpackPack(PAYLOAD_KEYS, values);
    forall i | 0 <= i < |records| ensures ReadFileRecord(RecordDocs(records)[i]) == records[i] {
      UnpackPack(RECORD_KEYS, [JStr(records[i].path), JStr(records[i].sha256), JInt(records[i].size)]);
    }
    assert ReadPayload(Pack(PAYLOAD_KEYS, values)).0 == records;
  }

  lemma FromValuesOf(i: Intent)
    ensures FromValues(IntentValues(i)) == i
  {
    ReadPayloadDoc(i.records, i.payloadTree);
  }

  /** Reading back a written intent returns it. */
  lemma IntentRoundTrip(i: Intent)
    requires ValidIntent(i)
    ensures ReadIntent(IntentBytes(i)) == Some(i)
  {
    ExportKeysAscend();
    IntentValuesOrdered(i);
    ReadWriteRecord(INTENT_KEYS, IntentValues(i));
    FromValuesOf(i);
  }

  lemma ExportKeysAscend()
    ensures Ascending(INTENT_KEYS)
  {
    FirstExportKeys();
    MiddleExportKeys();
    LastExportKeys();
    FirstLess("ga_environment_sha256", "payload");
    FirstLess("previous", "schema_version");
    TenAscend("candidate", "document", "ga_environment_sha256", "payload", "pending_name", "previous",
              "schema_version", "service_tree_sha256", "target", "transaction_id");
  }

  lemma FirstExportKeys()
    ensures Ascending(["candidate", "document", "ga_environment_sha256"])
  {
    FirstLess("candidate", "document");
    FirstLess("document", "ga_environment_sha256");
    AscendingFront("candidate", "document", "ga_environment_sha256");
  }

  lemma MiddleExportKeys()
    ensures Ascending(["payload", "pending_name", "previous"])
  {
    LessAt("payload", "pending_name", 1);
    LessAt("pending_name", "previous", 1);
    AscendingFront("payload", "pending_name", "previous");
  }

  lemma LastExportKeys()
    ensures Ascending(["schema_version", "service_tree_sha256", "target", "transaction_id"])
  {
    LessAt("schema_version", "service_tree_sha256", 1);
    AscendingPair("schema_version", "service_tree_sha256");
    FirstLess("service_tree_sha256", "target");
    LessAt("target", "transaction_id", 1);
    AscendingPair("target", "transaction_id");
    AscendingConcat(["schema_version", "service_tree_sha256"], ["target", "transaction_id"]);
  }

  lemma RecordDocOrdered(r: FileRecord)
    ensures Ordered(RecordDoc(r))
  {
    FirstLess("path", "sha256");
    LessAt("sha256", "size", 1);
    AscendingFront("path", "sha256", "size");
    var values := [JStr(r.path), JStr(r.sha256), JInt(r.size)];
    ScalarsOrdered(values);
    PackOrdered(RECORD_KEYS, values);
  }

  lemma PayloadOrdered(records: seq<FileRecord>, tree: string)
    ensures Ordered(Pack(PAYLOAD_KEYS, [JArr(RecordDocs(records)), JStr(tree)]))
  {
    forall k | 0 <= k < |records| ensures Ordered(RecordDocs(records)[k]) {
      RecordDocOrdered(records[k]);
    }
    FirstLess("files", "tree_sha256");
    AscendingPair("files", "tree_sha256");
    var values := [JArr(RecordDocs(records)), JStr(tree)];
    assert Ordered(values[0]) && Ordered(values[1]);
    PackOrdered(PAYLOAD_KEYS, values);
  }

  lemma IntentValuesOrdered(i: Intent)
    requires ValidIntent(i)
    ensures AllOrdered(IntentValues(i))
  {
    PayloadOrdered(i.records, i.payloadTree);
    TenOrdered(IntentValues(i));
  }

  /** Three documents among texts and numbers. */
  lemma TenOrdered(values: seq<Json>)
    requires |values| == 10 && Ordered(values[0]) && Ordered(values[3]) && Ordered(values[5])
    requires forall k | 0 <= k < 10 && k !in {0, 3, 5} :: values[k].JStr? || values[k].JInt?
    ensures AllOrdered(values)
  {
  }

  /** What was read is what would be written. */
  lemma IntentWrittenBack(data: string)
    requires ReadIntent(data).Some?
    ensures IntentBytes(ReadIntent(data).value) == data
  {
    WriteReadRecord(INTENT_KEYS, data);
  }

  lemma IntentBytesInjective(i: Intent, j: Intent)
    requires IntentBytes(i) == IntentBytes(j)
    ensures i == j
  {
    CanonicalInjective(Pack(INTENT_KEYS, IntentValues(i)), Pack(INTENT_KEYS, IntentValues(j)));
    UnpackPack(INTENT_KEYS, IntentValues(i));
    UnpackPack(INTENT_KEYS, IntentValues(j));
    FromValuesOf(i);
    FromValuesOf(j);
  }

  lemma TornIntentIsRefused(i: Intent, k: nat)
    requires k < |IntentBytes(i)|
    ensures ReadIntent(IntentBytes(i)[..k]) == None
  {
    TornRecord(INTENT_KEYS, IntentValues(i), k);
  }

  function ReceiptDoc(sha: string -> string, i: Intent): Json
  {
    Pack(RECEIPT_KEYS, [JStr("cfm-ga-journal-export-receipt-v1"), JStr(i.environmentSha), JStr(sha(IntentBytes(i))),
                        JStr(i.payloadTree), JInt(1), JStr(i.serviceTree)])
  }

  /** A receipt belongs to one intent. */
  lemma ReceiptBinds(sha: string -> string, i: Intent, j: Intent)
    requires Injective(sha) && ReceiptDoc(sha, i) == ReceiptDoc(sha, j)
    ensures i == j
  {
    var x, y := ReceiptDoc(sha, i).fields, ReceiptDoc(sha, j).fields;
    assert x[2].value == JStr(sha(IntentBytes(i))) && y[2].value == JStr(sha(IntentBytes(j)));
    IntentBytesInjective(i, j);
  }

  lemma FirstReceiptKeys()
    ensures Ascending(["document", "ga_environment_sha256", "intent_sha256"])
  {
    FirstLess("document", "ga_environment_sha256");
    FirstLess("ga_environment_sha256", "intent_sha256");
    AscendingFront("document", "ga_environment_sha256", "intent_sha256");
  }

  lemma LastReceiptKeys()
    ensures Ascending(["payload_tree_sha256", "schema_version", "service_tree_sha256"])
  {
    FirstLess("payload_tree_sha256", "schema_version");
    LessAt("schema_version", "service_tree_sha256", 1);
    AscendingFront("payload_tree_sha256", "schema_version", "service_tree_sha256");
  }

  lemma ReceiptKeysAscend()
    ensures Ascending(RECEIPT_KEYS)
  {
    FirstReceiptKeys();
    LastReceiptKeys();
    FirstLess("intent_sha256", "payload_tree_sha256");
    SixAscend("document", "ga_environment_sha256", "intent_sha256",
              "payload_tree_sha256", "schema_version", "service_tree_sha256");
  }

  lemma ReceiptRoundTrip(sha: string -> string, i: Intent)
    ensures Decode(Canonical(ReceiptDoc(sha, i))) == Some(ReceiptDoc(sha, i))
  {
    ReceiptKeysAscend();
    var values := [JStr("cfm-ga-journal-export-receipt-v1"), JStr(i.environmentSha), JStr(sha(IntentBytes(i))),
                   JStr(i.payloadTree), JInt(1), JStr(i.serviceTree)];
    ScalarsOrdered(values);
    PackOrdered(RECEIPT_KEYS, values);
    RoundTrip(ReceiptDoc(sha, i));
  }

  // --------------------------------------------------------------------------- snapshots

  function Payload(s: Sources): Files { [File(INSTALL_NAME, s.install)] + Prefixed(s.service) }

  /** The two journals close one migration of the active builds in this environment. */
  predicate Closed(v: Validators, s: Sources)
  {
    && v.install(s.install).Some? && v.service(s.service).Some? && GoodNames(s.service)
    && var d := v.install(s.install).value;
    && var t := v.service(s.service).value;
    && d.installed && t.recommissioned
    && t.candidate == d.candidate && t.previous == d.previous
    && t.boundEnvironmentSha == d.environmentSha && t.environmentSha == d.environmentSha
  }

  /** `_source_snapshot`. */
  predicate Snapshot(v: Validators, s: Sources, observed: Json)
  {
    Closed(v, s) && v.install(s.install).value.activeBuilds && v.service(s.service).value.environment == observed
  }

  /** `_intent`. */
  function IntentOf(v: Validators, s: Sources, transactionId: string): Intent
    requires Closed(v, s)
  {
    var t := v.service(s.service).value;
    Intent(t.candidate, t.environmentSha, RecordsOf(v.sha, Payload(s)),
           TreeSha(v.sha, [File(INSTALL_NAME, s.install)], s.service),
           PendingName(transactionId), t.previous, ServiceTree(v.sha, s.service), transactionId)
  }

  function ServiceTree(sha: string -> string, service: Files): string
  {
    sha(Canonical(JArr(EntryDocs(sha, service))))
  }

  /** Two sources with the same intent are the same sources. */
  lemma IntentDeterminesSources(v: Validators, a: Sources, b: Sources, x: string, y: string)
    requires Injective(v.sha) && Closed(v, a) && Closed(v, b) && IntentOf(v, a, x) == IntentOf(v, b, y)
    ensures a == b
  {
    RecordsDetermineFiles(v.sha, Payload(a), Payload(b));
    assert Payload(a)[0] == Payload(b)[0];
    assert Prefixed(a.service) == Payload(a)[1..] && Prefixed(b.service) == Payload(b)[1..];
    StripPrefixed(a.service);
    StripPrefixed(b.service);
  }

  // ------------------------------------------------------------------------- the container

  datatype Container = Container(sources: Sources, intent: string, receipt: string)

  /** All files of a container, in name order. */
  function FilesOf(c: Container): Files
  {
    [File(INSTALL_NAME, c.sources.install), File(INTERNAL_INTENT_NAME, c.intent), File(RECEIPT_NAME, c.receipt)]
    + Prefixed(c.sources.service)
  }

  /** `_container_files`. */
  function ContainerFiles(sha: string -> string, s: Sources, i: Intent): Files
  {
    FilesOf(Container(s, IntentBytes(i), Canonical(ReceiptDoc(sha, i))))
  }

  /** `_read_container_files`: exactly the four names, and safe names below the service one. */
  function ReadContainer(files: Files): Option<Container>
  {
    if |files| < 4 || files[0].name != INSTALL_NAME || files[1].name != INTERNAL_INTENT_NAME
       || files[2].name != RECEIPT_NAME || !AllPrefixed(files[3..]) || !GoodNames(Stripped(files[3..]))
    then None
    else Some(Container(Sources(files[0].data, Stripped(files[3..])), files[1].data, files[2].data))
  }

  lemma ReadFilesOf(c: Container)
    requires GoodNames(c.sources.service)
    ensures ReadContainer(FilesOf(c)) == Some(c)
  {
    var files := FilesOf(c);
    assert files[3..] == Prefixed(c.sources.service);
    StripPrefixed(c.sources.service);
  }

  lemma ReadBack(files: Files)
    requires ReadContainer(files).Some?
    ensures FilesOf(ReadContainer(files).value) == files
  {
    PrefixStripped(files[3..]);
    assert files == [files[0], files[1], files[2]] + files[3..];
  }

  /** What verification returns. */
  datatype View = View(
    candidate: Json, previous: Json, environment: Json, environmentSha: string,
    installDocument: Json, serviceIntent: Json, events: seq<Json>, intent: Intent, containerTree: string)

  function ViewOf(v: Validators, s: Sources, i: Intent): View
    requires Closed(v, s)
  {
    var d, t := v.install(s.install).value, v.service(s.service).value;
    View(t.candidate, t.previous, t.environment, t.environmentSha, d.document, t.intent, t.events, i,
         TreeSha(v.sha, ContainerFiles(v.sha, s, i)[..3], s.service))
  }

  /** `_verify_container`. */
  function VerifyContainer(v: Validators, files: Files, external: string): Option<View>
  {
    var c := ReadContainer(files);
    if c.None? || c.value.intent != external then None
    else
      var i, s := ReadIntent(c.value.intent), c.value.sources;
      if i.None? || Decode(c.value.receipt) != Some(ReceiptDoc(v.sha, i.value)) then None
      else if RecordsOf(v.sha, Payload(s)) != i.value.records
              || TreeSha(v.sha, [File(INSTALL_NAME, s.install)], s.service) != i.value.payloadTree then None
      else if !Closed(v, s) then None
      else
        var t := v.service(s.service).value;
        if i.value.candidate != t.candidate || i.value.previous != t.previous
           || i.value.environmentSha != t.environmentSha
           || i.value.serviceTree != ServiceTree(v.sha, s.service) then None
        else Some(ViewOf(v, s, i.value))
  }

  /** The digest of a container, over all of its files. */
  function ContainerDigest(sha: string -> string, files: Files): string
  {
    if |files| < 3 || !AllPrefixed(files[3..]) then "" else TreeSha(sha, files[..3], Stripped(files[3..]))
  }

  /** What a view reports of two journals and a container: one completed migration, read by
      the journals' own validators, the recorded intent, and the digest of the container. */
  predicate Reports(v: Validators, s: Sources, i: Intent, files: Files, view: View)
  {
    && v.install(s.install).Some? && v.service(s.service).Some?
    && var d, t := v.install(s.install).value, v.service(s.service).value;
    && d.installed && t.recommissioned
    && view.installDocument == d.document && view.serviceIntent == t.intent && view.events == t.events
    && view.candidate == d.candidate == t.candidate && view.previous == d.previous == t.previous
    && view.environment == t.environment
    && view.environmentSha == t.environmentSha == d.environmentSha == t.boundEnvironmentSha
    && view.intent == i && view.containerTree == ContainerDigest(v.sha, files)
  }

  lemma ViewReports(v: Validators, s: Sources, i: Intent)
    requires Closed(v, s)
    ensures Reports(v, s, i, ContainerFiles(v.sha, s, i), ViewOf(v, s, i))
  {
    var files := ContainerFiles(v.sha, s, i);
    assert files[3..] == Prefixed(s.service);
    StripPrefixed(s.service);
  }

  /** The exported container verifies, and its view reports the source journals. */
  lemma ExportRoundTrip(v: Validators, s: Sources, transactionId: string)
    requires Closed(v, s) && ValidIntent(IntentOf(v, s, transactionId))
    ensures var i := IntentOf(v, s, transactionId);
            var files := ContainerFiles(v.sha, s, i);
            && VerifyContainer(v, files, IntentBytes(i)) == Some(ViewOf(v, s, i))
            && Reports(v, s, i, files, ViewOf(v, s, i))
  {
    ViewReports(v, s, IntentOf(v, s, transactionId));
    var i := IntentOf(v, s, transactionId);
    ReadFilesOf(Container(s, IntentBytes(i), Canonical(ReceiptDoc(v.sha, i))));
    IntentRoundTrip(i);
    ReceiptRoundTrip(v.sha, i);
  }

  /** Nothing else verifies: an accepted container is the export of its own sources, and the
      external intent admits one container only. */
  lemma AcceptedIsExport(v: Validators, files: Files, external: string)
    requires VerifyContainer(v, files, external).Some?
    ensures var c := ReadContainer(files).value;
            && Closed(v, c.sources)
            && ReadIntent(external).Some?
            && var i := ReadIntent(external).value;
            && i == IntentOf(v, c.sources, i.transactionId)
            && files == ContainerFiles(v.sha, c.sources, i)
            && external == IntentBytes(i)
            && Reports(v, c.sources, i, files, VerifyContainer(v, files, external).value)
  {
    ViewReports(v, ReadContainer(files).value.sources, ReadIntent(external).value);
    var c := ReadContainer(files).value;
    IntentWrittenBack(external);
    ReadBack(files);
  }

  lemma ContainerIsUnique(v: Validators, a: Files, b: Files, external: string)
    requires Injective(v.sha)
    requires VerifyContainer(v, a, external).Some? && VerifyContainer(v, b, external).Some?
    ensures a == b
  {
    AcceptedIsExport(v, a, external);
    AcceptedIsExport(v, b, external);
    var i := ReadIntent(external).value;
    IntentDeterminesSources(v, ReadContainer(a).value.sources, ReadContainer(b).value.sources,
                            i.transactionId, i.transactionId);
  }
}
