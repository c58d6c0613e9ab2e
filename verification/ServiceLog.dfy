/** The service transaction directory: the validators of events, intents and DNS
    continuations, and the loader that finishes or discards an interrupted append
    (scripts/current_service_transaction.py, and the shared contract in
    scripts/dormant_app_install.py).

    Everything here holds for any document format and any digest with the laws in
    `Lawful` and `InjectiveDigest`; JsonFormat shows that canonical JSON has them. */
module ServiceLog {
  import opened Common
  import opened CanonicalJson

  const DOCUMENT := "cfw-current-service-transaction-v3"
  const CONTINUATION_DOCUMENT := "cfm-service-dns-observation-continuation-v1"
  const OFF_PROOF := "current_engine_v6_authority_v1_1"
  const SCHEMA := 3

  function PhaseName(k: nat): string
    requires k < PHASES
  {
    ["prepared", "proxy_unregistered", "authority_unregistered", "decommissioned",
     "authority_registered", "proxy_registered", "recommissioned"][k]
  }

  /** `SERVICE_ACTIONS`. */
  function Action(k: nat): string
    requires k < PHASES
  {
    ["prepare", "unregister-proxy-agent", "unregister-global-authority", "verify-dormant",
     "register-global-authority", "register-proxy-agent", "prove-off"][k]
  }

  /** `SERVICE_EVENT_PROOF_PROFILES`: registering the authority is not an off proof. */
  function ProofProfile(k: nat): Json
    requires k < PHASES
  {
    if k == 4 then JNull else JStr(OFF_PROOF)
  }

  // ------------------------------------------------------------------------- documents

  /** Documents with exactly their required keys; the values are still unchecked. */
  datatype Event = Event(
    action: Json, document: Json, guardAfter: Json, guardBefore: Json, intentSha: Json,
    profile: Json, phase: Json, previous: Json, schema: Json, sequence: Json)

  datatype Intent = Intent(
    candidate: Json, document: Json, environmentSha: Json, profile: Json,
    previous: Json, schema: Json, id: Json)

  datatype Continuation = Continuation(
    eventSha: Json, document: Json, guardAfter: Json, guardBefore: Json,
    intentSha: Json, schema: Json, id: Json)

  /** Reading and writing files, the digest, and the checks on opaque values. Reading
      returns None unless the bytes are the canonical form of an object with the right
      keys. */
  datatype Format = Format(
    readEvent: string -> Option<Event>, writeEvent: Event -> string,
    readIntent: string -> Option<Intent>, writeIntent: Intent -> string,
    readContinuation: string -> Option<Continuation>, writeContinuation: Continuation -> string,
    readEnvironment: string -> Option<Json>,
    sha: string -> string, environmentSha: Json -> string,
    validGuard: Json -> bool, hasProcesses: Json -> bool, dnsOnly: (Json, Json) -> bool,
    validUuid: Json -> bool)

  /** What the proofs use about the format: what is written is read back, what is read is
      what would be written, and no proper prefix of an event or continuation is readable. */
  ghost predicate Lawful(f: Format)
  {
    && (forall e | PlainEvent(f, e) :: f.readEvent(f.writeEvent(e)) == Some(e))
    && (forall s: string :: f.readEvent(s).Some? ==> f.writeEvent(f.readEvent(s).value) == s)
    && (forall e, k: nat {:trigger f.writeEvent(e)[..k]} ::
          k < |f.writeEvent(e)| ==> f.readEvent(f.writeEvent(e)[..k]) == None)
    && (forall s: string :: f.readIntent(s).Some? ==> f.writeIntent(f.readIntent(s).value) == s)
    && (forall c | PlainContinuation(f, c) :: f.readContinuation(f.writeContinuation(c)) == Some(c))
    && (forall c, k: nat {:trigger f.writeContinuation(c)[..k]} ::
          k < |f.writeContinuation(c)| ==> f.readContinuation(f.writeContinuation(c)[..k]) == None)
    && (forall v | f.validUuid(v) :: Scalar(v))
  }

  predicate Scalar(v: Json) { v.JNull? || v.JBool? || v.JInt? || v.JStr? }

  /** An event over valid guards with plain values otherwise, as every built event is. */
  predicate PlainEvent(f: Format, e: Event)
  {
    && f.validGuard(e.guardAfter) && f.validGuard(e.guardBefore)
    && Scalar(e.action) && Scalar(e.document) && Scalar(e.intentSha) && Scalar(e.profile)
    && Scalar(e.phase) && Scalar(e.previous) && Scalar(e.schema) && Scalar(e.sequence)
  }

  predicate PlainContinuation(f: Format, c: Continuation)
  {
    && f.validGuard(c.guardAfter) && f.validGuard(c.guardBefore)
    && Scalar(c.eventSha) && Scalar(c.document) && Scalar(c.intentSha) && Scalar(c.schema) && Scalar(c.id)
  }

  ghost predicate InjectiveDigest(f: Format)
  {
    forall a, b :: f.sha(a) == f.sha(b) ==> a == b
  }

  // ---------------------------------------------------------------------------- events

  datatype Verdict = Accepted | LineageInvalid | GuardInvalid

  /** `validate_event`. A malformed guard is reported under another error code than every
      other defect, which is what decides between discarding and refusing a pending file. */
  function ValidateEvent(f: Format, e: Event, sequence: nat, previous: Json, expectedGuard: Option<Json>,
                         intentSha: string): Verdict
    requires sequence < PHASES
  {
    if || e.document != JStr(DOCUMENT)
       || e.schema != JInt(SCHEMA)
       || e.sequence != JInt(sequence)
       || e.phase != JStr(PhaseName(sequence))
       || e.previous != previous
       || e.intentSha != JStr(intentSha)
       || e.action != JStr(Action(sequence))
       || e.profile != ProofProfile(sequence)
    then LineageInvalid
    else if !f.validGuard(e.guardBefore) || !f.validGuard(e.guardAfter) then GuardInvalid
    else if e.guardBefore != e.guardAfter then LineageInvalid
    else if expectedGuard.Some? && e.guardBefore != expectedGuard.value then LineageInvalid
    else Accepted
  }

  /** The document `append` and `create` write. */
  function BuildEvent(sequence: nat, guard: Json, intentSha: string, previous: Json): Event
    requires sequence < PHASES
  {
    Event(JStr(Action(sequence)), JStr(DOCUMENT), guard, guard, JStr(intentSha), ProofProfile(sequence),
          JStr(PhaseName(sequence)), previous, JInt(SCHEMA), JInt(sequence))
  }

  function PreviousDigest(f: Format, docs: seq<Event>, k: nat): Json
    requires k <= |docs|
  {
    if k == 0 then JNull else JStr(f.sha(f.writeEvent(docs[k - 1])))
  }

  /** The running `baseline_guard`: free for the first event, then the first event's guard,
      from the fifth event on the continued guard if there is one. */
  function ExpectedGuard(docs: seq<Event>, k: nat, continued: Option<Json>): Option<Json>
    requires k <= |docs|
  {
    if k == 0 then None
    else if k >= TEARDOWN && continued.Some? then continued
    else Some(docs[0].guardAfter)
  }

  // --------------------------------------------------------------------- continuations

  /** `validate_service_dns_continuation`: the continued guard, when the record binds the
      completed teardown and an exclusive DNS change. */
  function ContinuedGuard(f: Format, v: Continuation, intent: Intent, docs: seq<Event>): Option<Json>
  {
    if |docs| < TEARDOWN || !f.validGuard(v.guardBefore) || !f.validGuard(v.guardAfter) then None
    else if || v.document != JStr(CONTINUATION_DOCUMENT)
            || v.schema != JInt(1)
            || v.id != intent.id
            || v.intentSha != JStr(f.sha(f.writeIntent(intent)))
            || v.eventSha != JStr(f.sha(f.writeEvent(docs[3])))
            || docs[3].phase != JStr("decommissioned")
            || v.guardBefore != docs[0].guardAfter
            || !f.hasProcesses(v.guardBefore)
            || !f.dnsOnly(v.guardBefore, v.guardAfter)
    then None
    else Some(v.guardAfter)
  }

  /** The record `continue_after_dns_change` builds over the teardown. */
  function BuildContinuation(f: Format, intent: Intent, docs: seq<Event>, after: Json): Continuation
    requires |docs| >= TEARDOWN
  {
    Continuation(JStr(f.sha(f.writeEvent(docs[3]))), JStr(CONTINUATION_DOCUMENT), after, docs[0].guardAfter,
                 JStr(f.sha(f.writeIntent(intent))), JInt(1), intent.id)
  }

  // --------------------------------------------------------------------------- intents

  /** The fixed release identity: which candidate and previous documents are well formed
      and admissible, and how their builds compare. */
  datatype Identity = Identity(
    validCandidate: Json -> bool,   // `_validate_candidate` and the fixed build number
    validApp: Json -> bool,         // `_validate_app`
    supported: Json -> bool,        // `bind_journal_predecessor`
    active: Json -> bool,           // `resolve_predecessor`
    newer: (Json, Json) -> bool)    // int(candidate build) > int(previous build)

  /** `validate_intent` followed by `_require_profile_intent`. */
  predicate ValidIntent(f: Format, id: Identity, v: Intent)
  {
    && v.document == JStr(DOCUMENT)
    && v.schema == JInt(SCHEMA)
    && v.profile == JStr(OFF_PROOF)
    && f.validUuid(v.id)
    && id.validCandidate(v.candidate)
    && id.validApp(v.previous)
    && id.newer(v.candidate, v.previous)
    && id.supported(v.previous)
  }

  // ------------------------------------------------------------------------- directory

  /** The files of a service directory: the event files numbered from zero up to the first
      missing number, at most one pending event file with its number, the two DNS names, and
      whether any other name is present (an event after a gap, a second pending file). */
  datatype Dir = Dir(
    environment: string, intent: string, events: seq<string>, pending: Option<Pending>,
    dns: Option<string>, dnsPending: Option<string>, strays: bool)

  datatype Pending = Pending(number: nat, data: string)

  predicate InventoryOk(d: Dir)
  {
    && !d.strays
    && 1 <= |d.events| <= PHASES
    && !(d.dns.Some? && d.dnsPending.Some?)
    && (d.dns.Some? ==> TEARDOWN <= |d.events|)
    && (d.dnsPending.Some? ==> |d.events| == TEARDOWN && d.pending.None?)
  }

  /** The intent and environment documents bind each other and the fixed identity. */
  predicate HeaderOk(f: Format, id: Identity, d: Dir)
  {
    && f.readIntent(d.intent).Some? && ValidIntent(f, id, f.readIntent(d.intent).value)
    && f.readEnvironment(d.environment).Some?
    && f.readIntent(d.intent).value.environmentSha == JStr(f.environmentSha(f.readEnvironment(d.environment).value))
  }

  predicate Readable(f: Format, files: seq<string>)
  {
    forall k | 0 <= k < |files| :: f.readEvent(files[k]).Some?
  }

  function Documents(f: Format, files: seq<string>): (docs: seq<Event>)
    requires Readable(f, files)
    ensures |docs| == |files| && forall k | 0 <= k < |files| :: f.readEvent(files[k]) == Some(docs[k])
  {
    seq(|files|, k requires 0 <= k < |files| => f.readEvent(files[k]).value)
  }

  predicate EventOk(f: Format, docs: seq<Event>, k: nat, continued: Option<Json>, intentSha: string)
    requires k < |docs| <= PHASES
  {
    ValidateEvent(f, docs[k], k, PreviousDigest(f, docs, k), ExpectedGuard(docs, k, continued), intentSha) == Accepted
  }

  /** `service_dns_continuation_guard`'s reading of the published record. */
  function Continued(f: Format, d: Dir, docs: seq<Event>): Option<Json>
  {
    if d.dns.Some? && f.readContinuation(d.dns.value).Some? && f.readIntent(d.intent).Some?
    then ContinuedGuard(f, f.readContinuation(d.dns.value).value, f.readIntent(d.intent).value, docs)
    else None
  }

  /** The published part of the directory is one accepted log. */
  predicate LogOk(f: Format, id: Identity, d: Dir)
  {
    && InventoryOk(d) && HeaderOk(f, id, d) && Readable(f, d.events)
    && var docs := Documents(f, d.events);
    && (d.dns.Some? ==> Continued(f, d, docs).Some?)
    && forall k | 0 <= k < |docs| :: EventOk(f, docs, k, Continued(f, d, docs), f.sha(d.intent))
  }

  /** `effective_guard`. */
  function Effective(f: Format, d: Dir, docs: seq<Event>): Json
    requires docs != []
  {
    if Continued(f, d, docs).Some? then Continued(f, d, docs).value else docs[0].guardAfter
  }

  // ---------------------------------------------------------------------------- loading

  datatype Loaded = LoadError | Loaded(events: seq<Event>, dir: Dir)

  /** What `_load_directory` returns and leaves on disk. */
  function LoadSpec(f: Format, id: Identity, d: Dir): Loaded
  {
    if !LogOk(f, id, d) then LoadError
    else
      var docs := Documents(f, d.events);
      if d.dnsPending.Some? then
        var v := f.readContinuation(d.dnsPending.value);
        if v.None? || ContinuedGuard(f, v.value, f.readIntent(d.intent).value, docs).None? then LoadError
        else Loaded(docs, d.(dns := d.dnsPending, dnsPending := None))
      else if d.pending.None? then Loaded(docs, d)
      else if |docs| >= PHASES || d.pending.value.number != |docs| then LoadError
      else
        match PendingVerdict(f, d, docs)
        case Accepted =>
          Loaded(docs + [f.readEvent(d.pending.value.data).value],
                 d.(events := d.events + [d.pending.value.data], pending := None))
        case LineageInvalid => Loaded(docs, d.(pending := None))
        case GuardInvalid => LoadError
  }

  function PendingVerdict(f: Format, d: Dir, docs: seq<Event>): (r: Verdict)
    requires 0 < |docs| < PHASES && d.pending.Some?
    ensures r == Accepted ==> f.readEvent(d.pending.value.data).Some?
  {
    var v := f.readEvent(d.pending.value.data);
    if v.None? then LineageInvalid
    else ValidateEvent(f, v.value, |docs|, PreviousDigest(f, docs, |docs|), Some(Effective(f, d, docs)),
                       f.sha(d.intent))
  }
}
