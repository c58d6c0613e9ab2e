/** The installer's own reader of the service transaction
    (`require_decommissioned_service_transaction`), written against the files alone, and the
    proof that it accepts exactly the logs the service store's loader accepts. */
module InstallerReader {
  import opened Common
  import opened CanonicalJson
  import opened ServiceLog
  import opened ServiceLogProof

  /** `SERVICE_DECOMMISSION_PHASES`. */
  function DecommissionPhase(k: nat): string
    requires k < TEARDOWN
  {
    ["prepared", "proxy_unregistered", "authority_unregistered", "decommissioned"][k]
  }

  /** The installer's condition on one event, with the running digest and baseline. */
  predicate InstallerEventOk(f: Format, e: Event, k: nat, previous: Json, baseline: Option<Json>, intentSha: string)
    requires k < TEARDOWN
  {
    && f.validGuard(e.guardBefore) && f.validGuard(e.guardAfter)
    && e.action == JStr(Action(k))
    && e.document == JStr(DOCUMENT)
    && e.intentSha == JStr(intentSha)
    && e.phase == JStr(DecommissionPhase(k))
    && e.previous == previous
    && e.schema == JInt(SCHEMA)
    && e.sequence == JInt(k)
    && e.profile.JStr? && e.profile == ProofProfile(k)
    && e.guardBefore == e.guardAfter
    && (baseline.Some? ==> e.guardBefore == baseline.value)
  }

  function FileDigest(f: Format, files: seq<string>, k: nat): Json
    requires k <= |files|
  {
    if k == 0 then JNull else JStr(f.sha(files[k - 1]))
  }

  function Baseline(f: Format, files: seq<string>, k: nat): Option<Json>
    requires files != []
  {
    if k == 0 || f.readEvent(files[0]).None? then None else Some(f.readEvent(files[0]).value.guardAfter)
  }

  predicate InstallerFileOk(f: Format, files: seq<string>, k: nat, intentSha: string)
    requires k < TEARDOWN && k < |files|
  {
    && f.readEvent(files[k]).Some?
    && InstallerEventOk(f, f.readEvent(files[k]).value, k, FileDigest(f, files, k), Baseline(f, files, k), intentSha)
  }

  predicate IntentBinds(f: Format, d: Dir, candidate: Json, previous: Json)
  {
    && f.readIntent(d.intent).Some? && f.readEnvironment(d.environment).Some?
    && var intent := f.readIntent(d.intent).value;
    && intent.document == JStr(DOCUMENT)
    && intent.schema == JInt(SCHEMA)
    && f.validUuid(intent.id)
    && intent.candidate == candidate
    && intent.previous == previous
    && intent.environmentSha == JStr(f.environmentSha(f.readEnvironment(d.environment).value))
    && intent.profile == JStr(OFF_PROOF)
  }

  /** The guard the installer compares with the one it observed. */
  function InstallerGuard(f: Format, d: Dir): Option<Json>
    requires |d.events| == TEARDOWN && f.readIntent(d.intent).Some? && Readable(f, d.events)
  {
    var docs := Documents(f, d.events);
    if d.dns.None? then Some(docs[0].guardAfter)
    else if f.readContinuation(d.dns.value).None? then None
    else ContinuedGuard(f, f.readContinuation(d.dns.value).value, f.readIntent(d.intent).value, docs)
  }

  /** Everything `require_decommissioned_service_transaction` demands. */
  predicate Accepts(f: Format, id: Identity, d: Dir, candidate: Json, previous: Json, guard: Json)
  {
    && id.active(previous)
    && !d.strays && |d.events| == TEARDOWN && d.pending.None? && d.dnsPending.None?
    && IntentBinds(f, d, candidate, previous)
    && (forall k | 0 <= k < TEARDOWN :: InstallerFileOk(f, d.events, k, f.sha(d.intent)))
    && Readable(f, d.events)
    && InstallerGuard(f, d) == Some(guard)
  }

  /** The installer's loop over the four event files. */
  method RequireDecommissioned(f: Format, id: Identity, d: Dir, candidate: Json, previous: Json, guard: Json)
    returns (ok: bool)
    ensures ok <==> Accepts(f, id, d, candidate, previous, guard)
  {
    if !id.active(previous) {
      return false;
    }
    if d.strays || |d.events| != TEARDOWN || d.pending.Some? || d.dnsPending.Some? {
      return false;
    }
    if !IntentBinds(f, d, candidate, previous) {
      return false;
    }
    var readable := CheckEvents(f, d.events, f.sha(d.intent));
    if !readable {
      return false;
    }
    return InstallerGuard(f, d) == Some(guard);
  }

  /** The loop over the four event files, with the running digest and baseline. */
  method CheckEvents(f: Format, files: seq<string>, intentSha: string) returns (ok: bool)
    requires |files| == TEARDOWN
    ensures ok <==> forall k | 0 <= k < TEARDOWN :: InstallerFileOk(f, files, k, intentSha)
    ensures ok ==> Readable(f, files)
  {
    var previousSha: Json := JNull;
    var baseline: Option<Json> := None;
    for sequence := 0 to TEARDOWN
      invariant forall k | 0 <= k < sequence :: InstallerFileOk(f, files, k, intentSha)
      invariant previousSha == FileDigest(f, files, sequence)
      invariant baseline == Baseline(f, files, sequence)
    {
      var event := f.readEvent(files[sequence]);
      if event.None? || !InstallerEventOk(f, event.value, sequence, previousSha, baseline, intentSha) {
        assert !InstallerFileOk(f, files, sequence, intentSha);
        return false;
      }
      if baseline.None? {
        baseline := Some(event.value.guardAfter);
      }
      previousSha := JStr(f.sha(files[sequence]));
      assert InstallerFileOk(f, files, sequence, intentSha) && InstallerFileOk(f, files, 0, intentSha);
    }
    forall k | 0 <= k < TEARDOWN ensures f.readEvent(files[k]).Some? {
      assert InstallerFileOk(f, files, k, intentSha);
    }
    return true;
  }

  /** The two event conditions coincide over the teardown. */
  lemma SameEventCondition(f: Format, d: Dir, k: nat, continued: Option<Json>)
    requires Lawful(f) && |d.events| == TEARDOWN && k < TEARDOWN && Readable(f, d.events)
    ensures InstallerFileOk(f, d.events, k, f.sha(d.intent))
            <==> EventOk(f, Documents(f, d.events), k, continued, f.sha(d.intent))
  {
    var docs := Documents(f, d.events);
    assert f.writeEvent(docs[0]) == d.events[0];
    if k > 0 {
      assert f.writeEvent(docs[k - 1]) == d.events[k - 1];
    }
    assert FileDigest(f, d.events, k) == PreviousDigest(f, docs, k);
    assert Baseline(f, d.events, k) == ExpectedGuard(docs, k, continued);
    assert DecommissionPhase(k) == PhaseName(k);
  }

  /** Two independent validators agree: for the identities this release installs, the
      installer accepts a directory exactly when the service store would load it unchanged
      with four events, for this candidate and predecessor, and the observed guard is the
      effective guard. */
  lemma ValidatorsAgree(f: Format, id: Identity, d: Dir, candidate: Json, previous: Json, guard: Json)
    requires Lawful(f)
    requires id.validCandidate(candidate) && id.validApp(previous) && id.newer(candidate, previous)
    requires id.supported(previous) && id.active(previous)
    ensures Accepts(f, id, d, candidate, previous, guard) <==>
            && LoadSpec(f, id, d).Loaded? && LoadSpec(f, id, d).dir == d
            && |d.events| == TEARDOWN
            && f.readIntent(d.intent).value.candidate == candidate
            && f.readIntent(d.intent).value.previous == previous
            && Effective(f, d, LoadSpec(f, id, d).events) == guard
  {
    if |d.events| == TEARDOWN && Readable(f, d.events) && f.readIntent(d.intent).Some? {
      var docs := Documents(f, d.events);
      forall k | 0 <= k < TEARDOWN
        ensures InstallerFileOk(f, d.events, k, f.sha(d.intent))
                <==> EventOk(f, docs, k, Continued(f, d, docs), f.sha(d.intent))
      {
        SameEventCondition(f, d, k, Continued(f, d, docs));
      }
      SettledIffLoadedUnchanged(f, id, d);
    }
  }

  lemma SettledIffLoadedUnchanged(f: Format, id: Identity, d: Dir)
    ensures LoadSpec(f, id, d).Loaded? && LoadSpec(f, id, d).dir == d <==> Settled(f, id, d)
  {
  }
}
