/** What an accepted service log is, and what a crash during an append can leave. */
module ServiceLogProof {
  import opened Common
  import opened CanonicalJson
  import opened ServiceLog

  /** The validator accepts exactly the document `append` would build for its guard. */
  lemma AcceptedIffBuilt(f: Format, v: Event, k: nat, previous: Json, expected: Option<Json>, intentSha: string)
    requires k < PHASES
    ensures ValidateEvent(f, v, k, previous, expected, intentSha) == Accepted <==>
            && v == BuildEvent(k, v.guardAfter, intentSha, previous)
            && f.validGuard(v.guardAfter)
            && (expected.Some? ==> v.guardAfter == expected.value)
  {
  }

  /** The log of an accepted directory. */
  function Log(f: Format, id: Identity, d: Dir): seq<Event>
    requires LogOk(f, id, d)
  {
    Documents(f, d.events)
  }

  /** One accepted document of a log, taken apart. */
  lemma EventShape(f: Format, id: Identity, d: Dir, k: nat)
    requires Lawful(f) && LogOk(f, id, d) && k < |d.events|
    ensures var docs := Log(f, id, d);
            && d.events[k] == f.writeEvent(docs[k])
            && docs[k] == BuildEvent(k, docs[k].guardAfter, f.sha(d.intent), PreviousDigest(f, docs, k))
            && f.validGuard(docs[k].guardAfter)
            && (k > 0 ==> Some(docs[k].guardAfter) == ExpectedGuard(docs, k, Continued(f, d, docs)))
  {
    var docs := Log(f, id, d);
    assert EventOk(f, docs, k, Continued(f, d, docs), f.sha(d.intent));
    AcceptedIffBuilt(f, docs[k], k, PreviousDigest(f, docs, k), ExpectedGuard(docs, k, Continued(f, d, docs)),
                     f.sha(d.intent));
  }

  /** One bounded guard change: in an accepted log the first four events share one guard,
      the later ones share one guard, and the two are equal unless a published, valid
      continuation record makes them differ in `dns_sha256` alone. */
  lemma OneGuardChangeInLog(f: Format, id: Identity, d: Dir, a: nat, b: nat)
    requires Lawful(f) && LogOk(f, id, d) && a <= b < |d.events|
    ensures var docs := Log(f, id, d);
            || docs[a].guardAfter == docs[b].guardAfter
            || (&& a < TEARDOWN <= b && d.dns.Some?
                && f.dnsOnly(docs[a].guardAfter, docs[b].guardAfter)
                && Continued(f, d, docs) == Some(docs[b].guardAfter))
  {
    EventShape(f, id, d, a);
    EventShape(f, id, d, b);
  }

  /** The digest chain fixes everything before it: two accepted logs that agree on one
      event agree on the intent and on every earlier event. */
  lemma {:induction false} ChainFixesHistory(f: Format, id: Identity, d: Dir, e: Dir, k: nat)
    requires Lawful(f) && InjectiveDigest(f)
    requires LogOk(f, id, d) && LogOk(f, id, e) && k < |d.events| && k < |e.events|
    requires d.events[k] == e.events[k]
    ensures d.intent == e.intent
    ensures forall i: nat | i <= k :: d.events[i] == e.events[i]
  {
    SamePredecessor(f, id, d, e, k);
    if k > 0 {
      ChainFixesHistory(f, id, d, e, k - 1);
    }
  }

  lemma SamePredecessor(f: Format, id: Identity, d: Dir, e: Dir, k: nat)
    requires Lawful(f) && InjectiveDigest(f)
    requires LogOk(f, id, d) && LogOk(f, id, e) && k < |d.events| && k < |e.events|
    requires d.events[k] == e.events[k]
    ensures d.intent == e.intent && (k > 0 ==> d.events[k - 1] == e.events[k - 1])
  {
    EventShape(f, id, d, k);
    EventShape(f, id, e, k);
    StepBack(f, Log(f, id, d), Log(f, id, e), k, d.intent, e.intent);
    if k > 0 {
      WrittenBack(f, id, d, k - 1);
      WrittenBack(f, id, e, k - 1);
    }
  }

  lemma WrittenBack(f: Format, id: Identity, d: Dir, k: nat)
    requires Lawful(f) && LogOk(f, id, d) && k < |d.events|
    ensures d.events[k] == f.writeEvent(Log(f, id, d)[k])
  {
    EventShape(f, id, d, k);
  }

  /** One link of the chain: equal events name equal intents and equal predecessors. */
  lemma StepBack(f: Format, x: seq<Event>, y: seq<Event>, k: nat, di: string, ei: string)
    requires InjectiveDigest(f) && k < |x| && k < |y| && k < PHASES && x[k] == y[k]
    requires x[k] == BuildEvent(k, x[k].guardAfter, f.sha(di), PreviousDigest(f, x, k))
    requires y[k] == BuildEvent(k, y[k].guardAfter, f.sha(ei), PreviousDigest(f, y, k))
    ensures di == ei
    ensures k > 0 ==> f.writeEvent(x[k - 1]) == f.writeEvent(y[k - 1])
  {
    assert f.sha(di) == f.sha(ei);
    if k > 0 {
      assert f.sha(f.writeEvent(x[k - 1])) == f.sha(f.writeEvent(y[k - 1]));
    }
  }

  /** Only the guards are free: two accepted logs over one intent whose events record the
      same guards hold the same bytes. */
  lemma {:induction false} GuardsDetermineLog(f: Format, id: Identity, d: Dir, e: Dir, k: nat)
    requires Lawful(f) && LogOk(f, id, d) && LogOk(f, id, e) && d.intent == e.intent
    requires k < |d.events| && k < |e.events|
    requires forall i: nat | i <= k :: Log(f, id, d)[i].guardAfter == Log(f, id, e)[i].guardAfter
    ensures d.events[k] == e.events[k] && Log(f, id, d)[k] == Log(f, id, e)[k]
  {
    EventShape(f, id, d, k);
    EventShape(f, id, e, k);
    if k > 0 {
      GuardsDetermineLog(f, id, d, e, k - 1);
    }
  }

  /** The continuation validator accepts exactly the record that would be built, over a
      teardown guard with running processes and an exclusive DNS change. */
  lemma ContinuationAcceptedIff(f: Format, id: Identity, d: Dir, v: Continuation)
    requires Lawful(f) && LogOk(f, id, d) && |d.events| >= TEARDOWN
    ensures var intent, docs := f.readIntent(d.intent).value, Log(f, id, d);
            ContinuedGuard(f, v, intent, docs).Some? <==>
              && v == BuildContinuation(f, intent, docs, v.guardAfter)
              && f.validGuard(v.guardAfter) && f.hasProcesses(docs[0].guardAfter)
              && f.dnsOnly(docs[0].guardAfter, v.guardAfter)
  {
    EventShape(f, id, d, 0);
    EventShape(f, id, d, 3);
  }

  // -------------------------------------------------------------------- crash atomicity

  /** An accepted log with nothing in flight. */
  predicate Settled(f: Format, id: Identity, d: Dir)
  {
    LogOk(f, id, d) && d.pending.None? && d.dnsPending.None?
  }

  /** The event `append` writes after this log. */
  function NextEvent(f: Format, id: Identity, d: Dir): Event
    requires LogOk(f, id, d) && |d.events| < PHASES
  {
    var docs := Log(f, id, d);
    BuildEvent(|docs|, Effective(f, d, docs), f.sha(d.intent), PreviousDigest(f, docs, |docs|))
  }

  function Appended(f: Format, id: Identity, d: Dir): Dir
    requires LogOk(f, id, d) && |d.events| < PHASES
  {
    d.(events := d.events + [f.writeEvent(NextEvent(f, id, d))])
  }

  lemma EffectiveIsValid(f: Format, id: Identity, d: Dir)
    requires Lawful(f) && LogOk(f, id, d)
    ensures f.validGuard(Effective(f, d, Log(f, id, d)))
  {
    EventShape(f, id, d, 0);
  }

  lemma NextEventAccepted(f: Format, id: Identity, d: Dir)
    requires Lawful(f) && LogOk(f, id, d) && |d.events| < PHASES
    ensures var docs := Log(f, id, d);
            ValidateEvent(f, NextEvent(f, id, d), |docs|, PreviousDigest(f, docs, |docs|),
                          Some(Effective(f, d, docs)), f.sha(d.intent)) == Accepted
    ensures f.readEvent(f.writeEvent(NextEvent(f, id, d))) == Some(NextEvent(f, id, d))
  {
    EffectiveIsValid(f, id, d);
    assert PlainEvent(f, NextEvent(f, id, d));
  }

  lemma AppendedDocuments(f: Format, files: seq<string>, event: Event)
    requires Readable(f, files) && f.readEvent(f.writeEvent(event)) == Some(event)
    ensures Readable(f, files + [f.writeEvent(event)])
    ensures Documents(f, files + [f.writeEvent(event)]) == Documents(f, files) + [event]
  {
  }

  lemma ContinuedStable(f: Format, id: Identity, d: Dir)
    requires Lawful(f) && Settled(f, id, d) && |d.events| < PHASES
    ensures Continued(f, Appended(f, id, d), Log(f, id, d) + [NextEvent(f, id, d)]) == Continued(f, d, Log(f, id, d))
  {
    var docs := Log(f, id, d);
    if d.dns.Some? {
      assert (docs + [NextEvent(f, id, d)])[3] == docs[3] && (docs + [NextEvent(f, id, d)])[0] == docs[0];
    }
  }

  /** A longer log validates its earlier events as before. */
  lemma EarlierEventsStillOk(f: Format, docs: seq<Event>, next: Event, k: nat, continued: Option<Json>,
                             intentSha: string)
    requires k < |docs| < PHASES && EventOk(f, docs, k, continued, intentSha)
    ensures EventOk(f, docs + [next], k, continued, intentSha)
  {
    var longer := docs + [next];
    assert longer[k] == docs[k] && longer[0] == docs[0];
    assert PreviousDigest(f, longer, k) == PreviousDigest(f, docs, k);
  }

  lemma NextEventOk(f: Format, id: Identity, d: Dir)
    requires Lawful(f) && Settled(f, id, d) && |d.events| < PHASES
    ensures EventOk(f, Log(f, id, d) + [NextEvent(f, id, d)], |d.events|, Continued(f, d, Log(f, id, d)),
                    f.sha(d.intent))
  {
    var docs := Log(f, id, d);
    var longer := docs + [NextEvent(f, id, d)];
    NextEventAccepted(f, id, d);
    assert PreviousDigest(f, longer, |docs|) == PreviousDigest(f, docs, |docs|);
    assert ExpectedGuard(longer, |docs|, Continued(f, d, docs)) == Some(Effective(f, d, docs));
  }

  /** The completed append is again an accepted log with nothing in flight. */
  lemma AppendedIsSettled(f: Format, id: Identity, d: Dir)
    requires Lawful(f) && Settled(f, id, d) && |d.events| < PHASES
    ensures Settled(f, id, Appended(f, id, d))
    ensures LoadSpec(f, id, Appended(f, id, d)) == Loaded(Log(f, id, d) + [NextEvent(f, id, d)], Appended(f, id, d))
  {
    var e := Appended(f, id, d);
    var docs := Log(f, id, d);
    var longer := docs + [NextEvent(f, id, d)];
    NextEventAccepted(f, id, d);
    AppendedDocuments(f, d.events, NextEvent(f, id, d));
    ContinuedStable(f, id, d);
    NextEventOk(f, id, d);
    forall k | 0 <= k < |longer|
      ensures EventOk(f, longer, k, Continued(f, e, longer), f.sha(e.intent))
    {
      if k < |docs| {
        EarlierEventsStillOk(f, docs, NextEvent(f, id, d), k, Continued(f, d, docs), f.sha(d.intent));
      }
    }
  }

  /** The published log reads the same whatever lies under the pending name. */
  lemma PendingInvisible(f: Format, id: Identity, d: Dir, pending: Option<Pending>)
    requires LogOk(f, id, d) && d.dnsPending.None?
    ensures LogOk(f, id, d.(pending := pending)) && Log(f, id, d.(pending := pending)) == Log(f, id, d)
    ensures Continued(f, d.(pending := pending), Log(f, id, d)) == Continued(f, d, Log(f, id, d))
  {
    var e := d.(pending := pending);
    var docs := Log(f, id, d);
    assert Documents(f, e.events) == docs;
    assert Continued(f, e, docs) == Continued(f, d, docs);
    forall k | 0 <= k < |docs|
      ensures EventOk(f, docs, k, Continued(f, e, docs), f.sha(e.intent))
    {
      assert EventOk(f, docs, k, Continued(f, d, docs), f.sha(d.intent));
    }
  }

  /** Log crash atomicity. Whatever prefix of the pending event a crash leaves, the next
      load returns the old log or, once the whole event was written, the old log plus
      exactly that one event; with AppendedIsSettled for the renamed file. */
  lemma AppendCrashAtomic(f: Format, id: Identity, d: Dir, written: nat)
    requires Lawful(f) && Settled(f, id, d) && |d.events| < PHASES
    requires written <= |f.writeEvent(NextEvent(f, id, d))|
    ensures var data := f.writeEvent(NextEvent(f, id, d));
            LoadSpec(f, id, d.(pending := Some(Pending(|d.events|, data[..written])))) ==
              if written < |data| then Loaded(Log(f, id, d), d)
              else Loaded(Log(f, id, d) + [NextEvent(f, id, d)], Appended(f, id, d))
  {
    var n := |d.events|;
    var data := f.writeEvent(NextEvent(f, id, d));
    var torn := d.(pending := Some(Pending(n, data[..written])));
    PendingInvisible(f, id, d, Some(Pending(n, data[..written])));
    NextEventAccepted(f, id, d);
    if written < |data| {
      assert f.readEvent(data[..written]) == None;
      assert torn.(pending := None) == d;
    } else {
      assert data[..written] == data;
      assert torn.(events := torn.events + [data], pending := None) == Appended(f, id, d);
    }
  }

  /** The published log reads the same whatever lies under the continuation's pending name. */
  lemma DnsPendingInvisible(f: Format, id: Identity, d: Dir, data: string)
    requires Settled(f, id, d) && |d.events| == TEARDOWN && d.dns.None?
    ensures LogOk(f, id, d.(dnsPending := Some(data))) && Log(f, id, d.(dnsPending := Some(data))) == Log(f, id, d)
  {
    var e := d.(dnsPending := Some(data));
    var docs := Log(f, id, d);
    assert Documents(f, e.events) == docs;
    forall k | 0 <= k < |docs|
      ensures EventOk(f, docs, k, Continued(f, e, docs), f.sha(e.intent))
    {
      assert EventOk(f, docs, k, Continued(f, d, docs), f.sha(d.intent));
    }
  }

  lemma BuiltContinuationIsPlain(f: Format, id: Identity, d: Dir, after: Json)
    requires Lawful(f) && LogOk(f, id, d) && |d.events| >= TEARDOWN && f.validGuard(after)
    ensures PlainContinuation(f, BuildContinuation(f, f.readIntent(d.intent).value, Log(f, id, d), after))
  {
    EventShape(f, id, d, 0);
  }

  /** A crash inside the continuation: whole, the next load publishes it; cut anywhere, every
      load fails. */
  lemma ContinuationCrash(f: Format, id: Identity, d: Dir, after: Json, written: nat)
    requires Lawful(f) && Settled(f, id, d) && |d.events| == TEARDOWN && d.dns.None?
    requires ContinuedGuard(f, BuildContinuation(f, f.readIntent(d.intent).value, Log(f, id, d), after),
                            f.readIntent(d.intent).value, Log(f, id, d)).Some?
    requires written <=
             |f.writeContinuation(BuildContinuation(f, f.readIntent(d.intent).value, Log(f, id, d), after))|
    ensures var data := f.writeContinuation(BuildContinuation(f, f.readIntent(d.intent).value, Log(f, id, d), after));
            LoadSpec(f, id, d.(dnsPending := Some(data[..written]))) ==
              if written < |data| then LoadError else Loaded(Log(f, id, d), d.(dns := Some(data)))
  {
    var v := BuildContinuation(f, f.readIntent(d.intent).value, Log(f, id, d), after);
    var data := f.writeContinuation(v);
    DnsPendingInvisible(f, id, d, data[..written]);
    if written == |data| {
      assert data[..written] == data;
      BuiltContinuationIsPlain(f, id, d, after);
    } else {
      assert f.readContinuation(data[..written]) == None;
    }
  }

  /** A load is idempotent: what it leaves loads to the same log unchanged. */
  lemma LoadIsIdempotent(f: Format, id: Identity, d: Dir)
    requires Lawful(f) && LoadSpec(f, id, d).Loaded?
    ensures LoadSpec(f, id, LoadSpec(f, id, d).dir) == LoadSpec(f, id, d)
  {
    var n := |d.events|;
    var docs := Log(f, id, d);
    if d.dnsPending.Some? {
      PublishedContinuationLoads(f, id, d);
    } else if d.pending.Some? {
      var base := d.(pending := None);
      PendingInvisible(f, id, d, None);
      if PendingVerdict(f, d, docs) == Accepted {
        var v := f.readEvent(d.pending.value.data).value;
        AcceptedIffBuilt(f, v, n, PreviousDigest(f, docs, n), Some(Effective(f, d, docs)), f.sha(d.intent));
        assert v == NextEvent(f, id, base);
        assert d.(events := d.events + [d.pending.value.data], pending := None) == Appended(f, id, base);
        AppendedIsSettled(f, id, base);
      }
    }
  }

  lemma PublishedContinuationLoads(f: Format, id: Identity, d: Dir)
    requires Lawful(f) && LoadSpec(f, id, d).Loaded? && d.dnsPending.Some?
    ensures var e := d.(dns := d.dnsPending, dnsPending := None);
            LoadSpec(f, id, e) == Loaded(Log(f, id, d), e)
  {
    var e := d.(dns := d.dnsPending, dnsPending := None);
    var docs := Log(f, id, d);
    assert Documents(f, e.events) == docs;
    forall k | 0 <= k < |docs|
      ensures EventOk(f, docs, k, Continued(f, e, docs), f.sha(e.intent))
    {
      assert EventOk(f, docs, k, Continued(f, d, docs), f.sha(d.intent));
    }
  }
}
