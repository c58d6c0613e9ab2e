/** `ServiceEventStore`: the loader's loop over the event files and the append's write loop,
    with a crash possible after any written byte. */
module ServiceEventStore {
  import opened Common
  import opened CanonicalJson
  import opened ServiceLog
  import opened ServiceLogProof

  /** Validating an event only looks at its predecessor and at the first event. */
  lemma PrefixEventOk(f: Format, docs: seq<Event>, m: nat, k: nat, continued: Option<Json>, intentSha: string)
    requires k < m <= |docs| <= PHASES
    ensures EventOk(f, docs[..m], k, continued, intentSha) <==> EventOk(f, docs, k, continued, intentSha)
  {
    assert PreviousDigest(f, docs[..m], k) == PreviousDigest(f, docs, k);
  }

  /** A continuation only looks at the four teardown events. */
  lemma PrefixContinued(f: Format, v: Continuation, intent: Intent, docs: seq<Event>)
    requires TEARDOWN <= |docs|
    ensures ContinuedGuard(f, v, intent, docs[..TEARDOWN]) == ContinuedGuard(f, v, intent, docs)
  {
  }

  lemma DocumentsPrefix(f: Format, files: seq<string>, k: nat)
    requires Readable(f, files) && k <= |files|
    ensures Readable(f, files[..k]) && Documents(f, files[..k]) == Documents(f, files)[..k]
  {
  }

  lemma DocumentsGrow(f: Format, files: seq<string>, k: nat)
    requires k < |files| && Readable(f, files[..k]) && f.readEvent(files[k]).Some?
    ensures Readable(f, files[..k + 1])
    ensures Documents(f, files[..k + 1]) == Documents(f, files[..k]) + [f.readEvent(files[k]).value]
  {
    assert files[..k + 1] == files[..k] + [files[k]];
  }

  lemma AcceptedGrows(f: Format, events: seq<Event>, event: Event, continued: Option<Json>, intentSha: string)
    requires |events| < PHASES
    requires forall k | 0 <= k < |events| :: EventOk(f, events, k, continued, intentSha)
    requires EventOk(f, events + [event], |events|, continued, intentSha)
    ensures forall k | 0 <= k < |events| + 1 :: EventOk(f, events + [event], k, continued, intentSha)
  {
    var longer := events + [event];
    forall k | 0 <= k < |events|
      ensures EventOk(f, longer, k, continued, intentSha)
    {
      assert longer[..|events|] == events;
      PrefixEventOk(f, longer, |events|, k, continued, intentSha);
    }
  }

  class Store {
    const f: Format
    const id: Identity
    var dir: Dir

    constructor (format: Format, identity: Identity, start: Dir)
      ensures f == format && id == identity && dir == start
    {
      f, id, dir := format, identity, start;
    }

    /** `_load_directory`. */
    method Load() returns (r: Loaded)
      requires Lawful(f)
      modifies this
      ensures r == LoadSpec(f, id, old(dir))
      ensures dir == if r.Loaded? then r.dir else old(dir)
    {
      if !InventoryOk(dir) || !HeaderOk(f, id, dir) {
        return LoadError;
      }
      var scanned := ScanEvents();
      if scanned.None? {
        return LoadError;
      }
      var events := scanned.value;
      if dir.dnsPending.Some? {
        var v := f.readContinuation(dir.dnsPending.value);
        if v.None? || ContinuedGuard(f, v.value, f.readIntent(dir.intent).value, events).None? {
          return LoadError;
        }
        dir := dir.(dns := dir.dnsPending, dnsPending := None);
        return Loaded(events, dir);
      }
      if dir.pending.None? {
        return Loaded(events, dir);
      }
      if |events| >= PHASES || dir.pending.value.number != |events| {
        return LoadError;
      }
      match PendingVerdict(f, dir, events) {
        case GuardInvalid =>
          return LoadError;
        case LineageInvalid =>
          dir := dir.(pending := None);
          return Loaded(events, dir);
        case Accepted =>
          var event := f.readEvent(dir.pending.value.data).value;
          dir := dir.(events := dir.events + [dir.pending.value.data], pending := None);
          return Loaded(events + [event], dir);
      }
    }

    /** The guard a published continuation record yields over the teardown events. */
    ghost function ContinuedFromFiles(): Option<Json>
      reads this
    {
      if dir.dns.Some? && f.readContinuation(dir.dns.value).Some? && f.readIntent(dir.intent).Some?
         && TEARDOWN <= |dir.events| && Readable(f, dir.events[..TEARDOWN])
      then ContinuedGuard(f, f.readContinuation(dir.dns.value).value, f.readIntent(dir.intent).value,
                          Documents(f, dir.events[..TEARDOWN]))
      else None
    }

    lemma ContinuedAgrees()
      requires InventoryOk(dir) && Readable(f, dir.events)
      ensures Continued(f, dir, Documents(f, dir.events)) == ContinuedFromFiles()
    {
      if TEARDOWN <= |dir.events| {
        DocumentsPrefix(f, dir.events, TEARDOWN);
        if dir.dns.Some? && f.readContinuation(dir.dns.value).Some? && f.readIntent(dir.intent).Some? {
          PrefixContinued(f, f.readContinuation(dir.dns.value).value, f.readIntent(dir.intent).value,
                          Documents(f, dir.events));
        }
      }
    }

    /** An event that its predecessors refuse refuses the whole log. */
    lemma Unaccepted(k: nat, events: seq<Event>)
      requires InventoryOk(dir) && k < |dir.events| && Readable(f, dir.events[..k + 1])
      requires events == Documents(f, dir.events[..k + 1])
      requires !EventOk(f, events, k, ContinuedFromFiles(), f.sha(dir.intent))
      ensures !LogOk(f, id, dir)
    {
      if LogOk(f, id, dir) {
        var docs := Documents(f, dir.events);
        DocumentsPrefix(f, dir.events, k + 1);
        ContinuedAgrees();
        PrefixEventOk(f, docs, k + 1, k, ContinuedFromFiles(), f.sha(dir.intent));
      }
    }

    /** So does a continuation record that the teardown events refuse. */
    lemma UnacceptedContinuation(events: seq<Event>)
      requires InventoryOk(dir) && dir.dns.Some? && TEARDOWN <= |dir.events|
      requires Readable(f, dir.events[..TEARDOWN]) && events == Documents(f, dir.events[..TEARDOWN])
      requires f.readContinuation(dir.dns.value).None? || f.readIntent(dir.intent).None?
               || ContinuedGuard(f, f.readContinuation(dir.dns.value).value, f.readIntent(dir.intent).value,
                                 events).None?
      ensures !LogOk(f, id, dir)
    {
      if LogOk(f, id, dir) {
        ContinuedAgrees();
      }
    }

    /** What the loop has established before event k: the events so far are accepted, with
        the running digest and the running baseline guard. */
    ghost predicate Scanned(k: nat, events: seq<Event>, previous: Json, baseline: Option<Json>)
      reads this
    {
      && InventoryOk(dir) && k <= |dir.events|
      && Readable(f, dir.events[..k]) && events == Documents(f, dir.events[..k])
      && previous == PreviousDigest(f, events, k)
      && baseline == (if k == 0 then None
                      else if k <= TEARDOWN then Some(events[0].guardAfter)
                      else ExpectedGuard(events, k, ContinuedFromFiles()))
      && (TEARDOWN < k && dir.dns.Some? ==> ContinuedFromFiles().Some?)
      && forall i | 0 <= i < k :: EventOk(f, events, i, ContinuedFromFiles(), f.sha(dir.intent))
    }

    lemma ScanStep(k: nat, events: seq<Event>, previous: Json, baseline: Option<Json>, event: Event)
      requires Lawful(f) && k < |dir.events| && Scanned(k, events, previous, baseline)
      requires f.readEvent(dir.events[k]) == Some(event)
      requires k == TEARDOWN && dir.dns.Some? ==> ContinuedFromFiles().Some?
      ensures var expected := if k == TEARDOWN && dir.dns.Some? then ContinuedFromFiles() else baseline;
              var verdict := ValidateEvent(f, event, k, previous, expected, f.sha(dir.intent));
              if verdict == Accepted
              then Scanned(k + 1, events + [event], JStr(f.sha(dir.events[k])),
                           if expected.None? then Some(event.guardAfter) else expected)
              else !LogOk(f, id, dir)
    {
      var expected := if k == TEARDOWN && dir.dns.Some? then ContinuedFromFiles() else baseline;
      var longer := events + [event];
      DocumentsGrow(f, dir.events, k);
      ScanVerdict(k, events, previous, baseline, event);
      if ValidateEvent(f, event, k, previous, expected, f.sha(dir.intent)) == Accepted {
        AcceptedGrows(f, events, event, ContinuedFromFiles(), f.sha(dir.intent));
      } else {
        Unaccepted(k, longer);
      }
    }

    /** The running digest and baseline are those of the specification. */
    lemma ScanVerdict(k: nat, events: seq<Event>, previous: Json, baseline: Option<Json>, event: Event)
      requires k < |dir.events| && Scanned(k, events, previous, baseline)
      requires k == TEARDOWN && dir.dns.Some? ==> ContinuedFromFiles().Some?
      ensures var expected := if k == TEARDOWN && dir.dns.Some? then ContinuedFromFiles() else baseline;
              && PreviousDigest(f, events + [event], k) == previous
              && ExpectedGuard(events + [event], k, ContinuedFromFiles()) == expected
              && (ValidateEvent(f, event, k, previous, expected, f.sha(dir.intent)) == Accepted <==>
                    EventOk(f, events + [event], k, ContinuedFromFiles(), f.sha(dir.intent)))
    {
    }

    /** One pass of the loader's loop: from the fifth event on the continued guard counts. */
    method ScanOne(k: nat, events: seq<Event>, previous: Json, baseline: Option<Json>)
      returns (event: Option<Event>, next: Option<Json>)
      requires Lawful(f) && InventoryOk(dir) && HeaderOk(f, id, dir)
      requires k < |dir.events| && Scanned(k, events, previous, baseline)
      ensures event.None? ==> !LogOk(f, id, dir)
      ensures event.Some? ==> Scanned(k + 1, events + [event.value], JStr(f.sha(dir.events[k])), next)
    {
      next := baseline;
      if k == TEARDOWN && dir.dns.Some? {
        var v := f.readContinuation(dir.dns.value);
        if v.None? || ContinuedGuard(f, v.value, f.readIntent(dir.intent).value, events).None? {
          UnacceptedContinuation(events);
          return None, next;
        }
        next := ContinuedGuard(f, v.value, f.readIntent(dir.intent).value, events);
      }
      event := f.readEvent(dir.events[k]);
      if event.None? {
        assert !Readable(f, dir.events);
        return;
      }
      ScanStep(k, events, previous, baseline, event.value);
      if ValidateEvent(f, event.value, k, previous, next, f.sha(dir.intent)) != Accepted {
        return None, next;
      }
      if next.None? {
        next := Some(event.value.guardAfter);
      }
    }

    method ScanNext(k: nat, events: seq<Event>, previous: Json, baseline: Option<Json>)
      returns (ok: bool, longer: seq<Event>, digest: Json, guard: Option<Json>)
      requires Lawful(f) && InventoryOk(dir) && HeaderOk(f, id, dir)
      requires k < |dir.events| && Scanned(k, events, previous, baseline)
      ensures if ok then Scanned(k + 1, longer, digest, guard) else !LogOk(f, id, dir)
    {
      var event, next := ScanOne(k, events, previous, baseline);
      if event.None? {
        return false, events, previous, next;
      }
      return true, events + [event.value], JStr(f.sha(dir.events[k])), next;
    }

    lemma ScannedNothing()
      requires InventoryOk(dir)
      ensures Scanned(0, [], JNull, None)
    {
    }

    /** The loader's loop: running digest and running baseline guard. */
    method ScanLoop() returns (ok: bool, events: seq<Event>, previous: Json, baseline: Option<Json>)
      requires Lawful(f) && InventoryOk(dir) && HeaderOk(f, id, dir)
      ensures if ok then Scanned(|dir.events|, events, previous, baseline) else !LogOk(f, id, dir)
    {
      events, previous, baseline := [], JNull, None;
      ScannedNothing();
      for sequence := 0 to |dir.events|
        invariant Scanned(sequence, events, previous, baseline)
      {
        ok, events, previous, baseline := ScanNext(sequence, events, previous, baseline);
        if !ok {
          return;
        }
      }
      ok := true;
    }

    method ScanEvents() returns (r: Option<seq<Event>>)
      requires Lawful(f) && InventoryOk(dir) && HeaderOk(f, id, dir)
      ensures r.Some? <==> LogOk(f, id, dir)
      ensures r.Some? ==> r.value == Documents(f, dir.events)
    {
      var ok, events, previous, baseline := ScanLoop();
      if ok {
        ok := ContinuationOk(events, previous, baseline);
      }
      return if ok then Some(events) else None;
    }

    /** After the loop: a published continuation must bind the scanned events. */
    method ContinuationOk(events: seq<Event>, ghost previous: Json, ghost baseline: Option<Json>) returns (ok: bool)
      requires Lawful(f) && InventoryOk(dir) && HeaderOk(f, id, dir)
      requires Scanned(|dir.events|, events, previous, baseline)
      ensures ok <==> LogOk(f, id, dir)
      ensures ok ==> events == Documents(f, dir.events)
    {
      assert dir.events[..|dir.events|] == dir.events;
      ContinuedAgrees();
      if dir.dns.Some? {
        var v := f.readContinuation(dir.dns.value);
        if v.None? || ContinuedGuard(f, v.value, f.readIntent(dir.intent).value, events).None? {
          return false;
        }
      }
      return true;
    }

    /** `_write_new` under the pending name: any number of bytes may have been written when
        it stops. */
    method WritePending(n: nat, data: string) returns (whole: bool, written: nat)
      modifies this
      ensures written <= |data| && (whole ==> written == |data|)
      ensures dir == old(dir).(pending := Some(Pending(n, data[..written])))
    {
      written := 0;
      dir := dir.(pending := Some(Pending(n, data[..0])));
      while written < |data|
        invariant 0 <= written <= |data|
        invariant dir == old(dir).(pending := Some(Pending(n, data[..written])))
      {
        if * {
          return false, written;
        }
        var count: int := *;
        if count <= 0 || written + count > |data| {
          return false, written;
        }
        written := written + count;
        dir := dir.(pending := Some(Pending(n, data[..written])));
      }
      whole := true;
    }

    /** `append`: the guard must repeat the effective guard, then the event is written under
        its pending name piece by piece and renamed. Wherever it stops, the next load returns
        the old log or the old log plus this event. */
    method Append(guard: Json) returns (done: bool)
      requires Lawful(f) && Settled(f, id, dir) && |dir.events| < PHASES
      modifies this
      ensures done ==> guard == Effective(f, old(dir), Log(f, id, old(dir))) && dir == Appended(f, id, old(dir))
      ensures LoadSpec(f, id, dir).Loaded?
      ensures var log := Log(f, id, old(dir));
              LoadSpec(f, id, dir).events == log || LoadSpec(f, id, dir).events == log + [NextEvent(f, id, old(dir))]
      ensures dir.(events := old(dir).events, pending := None) == old(dir)
    {
      var events := Documents(f, dir.events);
      var n := |events|;
      AppendCrashAtomic(f, id, dir, 0);
      if guard != Effective(f, dir, events) {
        return false;
      }
      var data := f.writeEvent(BuildEvent(n, guard, f.sha(dir.intent), PreviousDigest(f, events, n)));
      assert data == f.writeEvent(NextEvent(f, id, dir));
      ghost var start := dir;
      var whole, written := WritePending(n, data);
      AppendCrashAtomic(f, id, start, written);
      if !whole {
        return false;
      }
      if * {
        return false;
      }
      AppendedIsSettled(f, id, start);
      assert data[..|data|] == data;
      dir := dir.(events := dir.events + [data], pending := None);
      return true;
    }
  }
}
