/** The files of the service directory (ServiceLog) seen as the typed directory the
    maintenance state machine works on (Maintenance): loading and appending are its steps.

    Sources: scripts/current_service_transaction.py. */
module ServiceRefinement {
  import opened Common
  import opened CanonicalJson
  import Identity
  import L = ServiceLog
  import P = ServiceLogProof
  import M = Maintenance
  import R = InstallerReader
  import J = JsonFormat

  /** How the opaque documents are read; any reading will do, except where `Sound` is asked. */
  datatype Typing = Typing(guard: Json -> Identity.Guard, intent: L.Intent -> M.Intent)

  /** The reading of guards keeps validity, running processes and exclusive DNS changes. */
  ghost predicate Sound(f: L.Format, ty: Typing)
  {
    && (forall g | f.validGuard(g) :: Identity.ValidGuard(ty.guard(g)))
    && (forall g | f.validGuard(g) && f.hasProcesses(g) :: ty.guard(g).processes != [])
    && (forall a, b | f.validGuard(a) && f.validGuard(b) && f.dnsOnly(a, b) ::
          Identity.DnsOnlyChange(ty.guard(a), ty.guard(b)))
  }

  function TextOf(v: Json): string { if v.JStr? then v.s else "" }

  function NumberOf(v: Json): int { if v.JInt? then v.n else 0 }

  function ProcessOf(v: Json): Identity.Process
  {
    if J.HasKeys(v, J.PROCESS_KEYS) then
      Identity.Process(TextOf(v.fields[0].value), TextOf(v.fields[1].value), NumberOf(v.fields[2].value),
                       TextOf(v.fields[3].value), NumberOf(v.fields[4].value))
    else Identity.Process("", "", 0, "", 0)
  }

  function ProcessesOf(v: Json): (r: seq<Identity.Process>)
    ensures v.JArr? ==> |r| == |v.items| && forall i | 0 <= i < |r| :: r[i] == ProcessOf(v.items[i])
  {
    if v.JArr? then seq(|v.items|, i requires 0 <= i < |v.items| => ProcessOf(v.items[i])) else []
  }

  /** The guard a document stands for. */
  function GuardOf(v: Json): Identity.Guard
  {
    if J.HasKeys(v, J.GUARD_KEYS) then
      Identity.Guard(ProcessesOf(v.fields[0].value), TextOf(v.fields[1].value), TextOf(v.fields[2].value),
                     TextOf(v.fields[3].value), TextOf(v.fields[4].value), TextOf(v.fields[5].value))
    else Identity.Guard([], "", "", "", "", "")
  }

  lemma ValidGuardOf(g: Json)
    requires J.ValidGuard(g)
    ensures Identity.ValidGuard(GuardOf(g)) && (J.HasProcesses(g) ==> GuardOf(g).processes != [])
  {
    var documents, processes := g.fields[0].value.items, GuardOf(g).processes;
    forall p | p in processes ensures p.pid > 0 {
      var i :| 0 <= i < |processes| && processes[i] == p;
      assert J.ValidProcess(documents[i]);
    }
    if documents != [] {
      assert J.ValidProcess(documents[0]) && J.ValidProcess(documents[1]);
    }
  }

  lemma DnsOnlyOf(a: Json, b: Json)
    requires J.ValidGuard(a) && J.ValidGuard(b) && J.DnsOnly(a, b)
    ensures Identity.DnsOnlyChange(GuardOf(a), GuardOf(b))
  {
    assert J.IsSha(a.fields[1].value) && J.IsSha(b.fields[1].value);
    assert a.fields[1].key == b.fields[1].key;
  }

  /** The production documents are read soundly. */
  lemma GuardOfIsSound(sha: string -> string, intent: L.Intent -> M.Intent)
    ensures Sound(J.ProductionFormat(sha), Typing(GuardOf, intent))
  {
    var f, ty := J.ProductionFormat(sha), Typing(GuardOf, intent);
    forall g | f.validGuard(g)
      ensures Identity.ValidGuard(ty.guard(g)) && (f.hasProcesses(g) ==> ty.guard(g).processes != [])
    {
      ValidGuardOf(g);
    }
    forall a, b | f.validGuard(a) && f.validGuard(b) && f.dnsOnly(a, b)
      ensures Identity.DnsOnlyChange(ty.guard(a), ty.guard(b))
    {
      DnsOnlyOf(a, b);
    }
  }

  function Guards(ty: Typing, docs: seq<L.Event>): (r: seq<Identity.Guard>)
    ensures |r| == |docs| && forall k | 0 <= k < |r| :: r[k] == ty.guard(docs[k].guardAfter)
  {
    seq(|docs|, k requires 0 <= k < |docs| => ty.guard(docs[k].guardAfter))
  }

  /** A pending event counts as whole when the loader would accept it. */
  function PendingSlot(f: L.Format, id: L.Identity, ty: Typing, d: L.Dir): Slot<Identity.Guard>
    requires L.LogOk(f, id, d)
  {
    if d.pending.None? then Absent
    else if |d.events| < PHASES && d.pending.value.number == |d.events| &&
            L.PendingVerdict(f, d, P.Log(f, id, d)) == L.Accepted
    then Whole(ty.guard(f.readEvent(d.pending.value.data).value.guardAfter))
    else Torn
  }

  /** So does a pending continuation. */
  function PendingContinuation(f: L.Format, id: L.Identity, d: L.Dir): Option<Json>
    requires L.LogOk(f, id, d)
  {
    if d.dnsPending.None? || f.readContinuation(d.dnsPending.value).None? then None
    else L.ContinuedGuard(f, f.readContinuation(d.dnsPending.value).value, f.readIntent(d.intent).value,
                          P.Log(f, id, d))
  }

  function ContinuationSlot(f: L.Format, id: L.Identity, ty: Typing, d: L.Dir): Slot<Identity.Guard>
    requires L.LogOk(f, id, d)
  {
    var guard := PendingContinuation(f, id, d);
    if d.dnsPending.None? then Absent else if guard.Some? then Whole(ty.guard(guard.value)) else Torn
  }

  /** The typed directory behind the files. */
  function Abs(f: L.Format, id: L.Identity, ty: Typing, d: L.Dir): M.ServiceDir
    requires L.LogOk(f, id, d)
  {
    var docs := P.Log(f, id, d);
    M.ServiceDir(
      ty.intent(f.readIntent(d.intent).value), Guards(ty, docs), PendingSlot(f, id, ty, d),
      if d.dns.Some? then Some(ty.guard(L.Continued(f, d, docs).value)) else None,
      ContinuationSlot(f, id, ty, d))
  }

  ghost predicate Shows(f: L.Format, id: L.Identity, ty: Typing, d: L.Dir, w: M.World)
  {
    L.LogOk(f, id, d) && w.service == M.Published(Abs(f, id, ty, d))
  }

  /** The two readings of the guard every later observation must repeat agree. */
  lemma SameEffective(f: L.Format, id: L.Identity, ty: Typing, d: L.Dir)
    requires L.LogOk(f, id, d)
    ensures M.Effective(Abs(f, id, ty, d)) == ty.guard(L.Effective(f, d, P.Log(f, id, d)))
  {
  }

  // -------------------------------------------------------------------- texts and flags

  /** What an action's name says it does to the (proxy, authority) registration. */
  function Effect(action: string, flags: (bool, bool)): (bool, bool)
  {
    if action == "unregister-proxy-agent" then (false, flags.1)
    else if action == "register-proxy-agent" then (true, flags.1)
    else if action == "unregister-global-authority" then (flags.0, false)
    else if action == "register-global-authority" then (flags.0, true)
    else flags
  }

  /** The registration a phase's name stands for. */
  function Reported(phase: string): (bool, bool)
  {
    if phase == "authority_unregistered" || phase == "decommissioned" then (false, false)
    else if phase == "proxy_unregistered" || phase == "authority_registered" then (false, true)
    else (true, true)
  }

  /** The state machine acts as the logged actions say, and expects what the logged phases
      say; each phase is its predecessor's registration after its own action. */
  lemma LogTellsFlags(k: nat, flags: (bool, bool))
    requires k < PHASES
    ensures M.Act(k, flags) == Effect(L.Action(k), flags)
    ensures M.Registered(k) == Reported(L.PhaseName(k))
    ensures k > 0 ==> Reported(L.PhaseName(k)) == Effect(L.Action(k), Reported(L.PhaseName(k - 1)))
  {
    ActionEffect(k, flags);
    PhaseReport(k);
    if k > 0 {
      ActionEffect(k, M.Registered(k - 1));
      PhaseReport(k - 1);
    }
  }

  lemma ActionEffect(k: nat, flags: (bool, bool))
    requires k < PHASES
    ensures M.Act(k, flags) == Effect(L.Action(k), flags)
  {
    assert |"unregister-proxy-agent"| == 22 && |"register-proxy-agent"| == 20;
    assert |"unregister-global-authority"| == 27 && |"register-global-authority"| == 25;
    assert |"prepare"| == 7 && |"verify-dormant"| == 14 && |"prove-off"| == 9;
  }

  lemma PhaseReport(k: nat)
    requires k < PHASES
    ensures M.Registered(k) == Reported(L.PhaseName(k))
  {
    assert |"authority_unregistered"| == 22 && |"authority_registered"| == 20 && |"proxy_unregistered"| == 18;
    assert |"proxy_registered"| == 16 && |"prepared"| == 8;
    assert "decommissioned"[0] == 'd' && "recommissioned"[0] == 'r';
    assert |"decommissioned"| == 14 && |"recommissioned"| == 14;
  }

  // ----------------------------------------------------------------------------- append

  /** Whatever part of the next event a crash leaves under the pending name is the typed
      writing of that event, torn or whole, where the event's registration was observed. */
  lemma AppendIsWritesEvent(f: L.Format, id: L.Identity, ty: Typing, d: L.Dir, written: nat, w: M.World)
    returns (next: M.World)
    requires L.Lawful(f) && P.Settled(f, id, d) && |d.events| < PHASES && Shows(f, id, ty, d, w)
    requires written <= |f.writeEvent(P.NextEvent(f, id, d))|
    requires M.Flags(w) == M.Registered(|d.events|) && (TEARDOWN <= |d.events| ==> M.InstallationProven(w))
    ensures var data := f.writeEvent(P.NextEvent(f, id, d))[..written];
            Shows(f, id, ty, d.(pending := Some(L.Pending(|d.events|, data))), next)
    ensures M.WritesEvent(w, next)
    ensures next.service.dir.pending.Whole? <==> written == |f.writeEvent(P.NextEvent(f, id, d))|
  {
    var event := P.NextEvent(f, id, d);
    var data := f.writeEvent(event)[..written];
    var e := d.(pending := Some(L.Pending(|d.events|, data)));
    P.PendingInvisible(f, id, d, e.pending);
    P.NextEventAccepted(f, id, d);
    SameEffective(f, id, ty, d);
    if written == |f.writeEvent(event)| {
      assert data == f.writeEvent(event);
    } else {
      assert f.readEvent(data) == None;
    }
    next := w.(service := M.Published(Abs(f, id, ty, e)));
  }

  /** The renamed file is the typed publication of the event. */
  lemma RenameIsPublishesEvent(f: L.Format, id: L.Identity, ty: Typing, d: L.Dir, w: M.World)
    returns (next: M.World)
    requires L.Lawful(f) && P.Settled(f, id, d) && |d.events| < PHASES
    requires Shows(f, id, ty, d.(pending := Some(L.Pending(|d.events|, f.writeEvent(P.NextEvent(f, id, d))))), w)
    ensures Shows(f, id, ty, P.Appended(f, id, d), next) && M.PublishesEvent(w, next)
  {
    var event := P.NextEvent(f, id, d);
    var e := d.(pending := Some(L.Pending(|d.events|, f.writeEvent(event))));
    P.PendingInvisible(f, id, d, e.pending);
    P.NextEventAccepted(f, id, d);
    P.AppendedIsSettled(f, id, d);
    P.AppendedDocuments(f, d.events, event);
    P.ContinuedStable(f, id, d);
    next := w.(service := M.Published(Abs(f, id, ty, P.Appended(f, id, d))));
    assert Guards(ty, P.Log(f, id, d) + [event]) == Guards(ty, P.Log(f, id, d)) + [ty.guard(event.guardAfter)];
  }

  // ----------------------------------------------------------------------- continuation

  /** The record `continue_after_dns_change` is about to write. */
  function NextContinuation(f: L.Format, id: L.Identity, d: L.Dir, after: Json): L.Continuation
    requires L.LogOk(f, id, d) && |d.events| >= TEARDOWN
  {
    L.BuildContinuation(f, f.readIntent(d.intent).value, P.Log(f, id, d), after)
  }

  /** It is validated before anything is written. */
  predicate Continuable(f: L.Format, id: L.Identity, d: L.Dir, after: Json)
  {
    && P.Settled(f, id, d) && |d.events| == TEARDOWN && d.dns.None?
    && L.ContinuedGuard(f, NextContinuation(f, id, d, after), f.readIntent(d.intent).value, P.Log(f, id, d)).Some?
  }

  /** A written continuation is one over running processes and an exclusive DNS change. */
  lemma ContinuableIff(f: L.Format, id: L.Identity, d: L.Dir, after: Json)
    requires L.Lawful(f) && P.Settled(f, id, d) && |d.events| == TEARDOWN && d.dns.None?
    ensures Continuable(f, id, d, after) <==>
            && f.validGuard(after) && f.hasProcesses(P.Log(f, id, d)[0].guardAfter)
            && f.dnsOnly(P.Log(f, id, d)[0].guardAfter, after)
  {
    P.ContinuationAcceptedIff(f, id, d, NextContinuation(f, id, d, after));
  }

  /** Whatever part of the record a crash leaves under its pending name is the typed writing
      of the continuation, torn or whole. */
  lemma WriteIsWritesContinuation(f: L.Format, id: L.Identity, ty: Typing, d: L.Dir, after: Json, written: nat,
                                  w: M.World)
    returns (next: M.World)
    requires L.Lawful(f) && Sound(f, ty) && Shows(f, id, ty, d, w) && Continuable(f, id, d, after)
    requires written <= |f.writeContinuation(NextContinuation(f, id, d, after))|
    requires M.Flags(w) == M.Registered(3) && w.journal.None? && w.journalPending.Absent?
    ensures var data := f.writeContinuation(NextContinuation(f, id, d, after))[..written];
            Shows(f, id, ty, d.(dnsPending := Some(data)), next)
    ensures M.WritesContinuation(w, next)
    ensures next.service.dir.dnsPending ==
            if written == |f.writeContinuation(NextContinuation(f, id, d, after))| then Whole(ty.guard(after)) else Torn
  {
    var data := f.writeContinuation(NextContinuation(f, id, d, after))[..written];
    P.DnsPendingInvisible(f, id, d, data);
    SlotOfWrite(f, id, ty, d, after, written);
    TypedContinuation(f, id, ty, d, after);
    next := w.(service := M.Published(Abs(f, id, ty, d.(dnsPending := Some(data)))));
    assert Abs(f, id, ty, d.(dnsPending := Some(data))) ==
           Abs(f, id, ty, d).(dnsPending := ContinuationSlot(f, id, ty, d.(dnsPending := Some(data))));
  }

  lemma SlotOfWrite(f: L.Format, id: L.Identity, ty: Typing, d: L.Dir, after: Json, written: nat)
    requires L.Lawful(f) && Continuable(f, id, d, after)
    requires written <= |f.writeContinuation(NextContinuation(f, id, d, after))|
    ensures var whole := f.writeContinuation(NextContinuation(f, id, d, after));
            && L.LogOk(f, id, d.(dnsPending := Some(whole[..written])))
            && ContinuationSlot(f, id, ty, d.(dnsPending := Some(whole[..written]))) ==
                 if written == |whole| then Whole(ty.guard(after)) else Torn
  {
    var whole := f.writeContinuation(NextContinuation(f, id, d, after));
    P.DnsPendingInvisible(f, id, d, whole[..written]);
    if written == |whole| {
      assert whole[..written] == whole;
      ContinuableIff(f, id, d, after);
      P.BuiltContinuationIsPlain(f, id, d, after);
    } else {
      assert f.readContinuation(whole[..written]) == None;
    }
  }

  lemma TypedContinuation(f: L.Format, id: L.Identity, ty: Typing, d: L.Dir, after: Json)
    requires L.Lawful(f) && Sound(f, ty) && Continuable(f, id, d, after)
    ensures var first := Abs(f, id, ty, d).events[0];
            && first.processes != [] && Identity.ValidGuard(ty.guard(after))
            && Identity.DnsOnlyChange(first, ty.guard(after))
  {
    ContinuableIff(f, id, d, after);
    P.EventShape(f, id, d, 0);
  }

  // ------------------------------------------------------------------------------- load

  /** A pending file no append of this log leaves: out of place, or with a malformed guard. */
  predicate Foreign(f: L.Format, id: L.Identity, d: L.Dir)
    requires L.LogOk(f, id, d)
  {
    d.pending.Some? &&
    (|d.events| == PHASES || d.pending.value.number != |d.events| ||
     L.PendingVerdict(f, d, P.Log(f, id, d)) == L.GuardInvalid)
  }

  /** A load of an accepted log fails exactly on a torn continuation or a foreign pending file. */
  lemma LoadFailsIff(f: L.Format, id: L.Identity, ty: Typing, d: L.Dir)
    requires L.LogOk(f, id, d)
    ensures L.LoadSpec(f, id, d) == L.LoadError <==>
            Abs(f, id, ty, d).dnsPending.Torn? || (d.dnsPending.None? && Foreign(f, id, d))
  {
  }

  /** What a successful load does to the typed directory: it publishes the continuation, or
      publishes or discards the pending event, or nothing. */
  predicate LoadStep(w: M.World, next: M.World)
    requires w.service.Published?
  {
    var d := w.service.dir;
    if d.dnsPending.Whole? then M.PublishesContinuation(w, next)
    else if d.pending.Whole? then M.PublishesEvent(w, next)
    else if d.pending.Torn? then M.DiscardsEvent(w, next)
    else next == w
  }

  lemma LoadIsStep(f: L.Format, id: L.Identity, ty: Typing, d: L.Dir, w: M.World) returns (next: M.World)
    requires L.Lawful(f) && Shows(f, id, ty, d, w) && L.LoadSpec(f, id, d).Loaded?
    ensures Shows(f, id, ty, L.LoadSpec(f, id, d).dir, next) && LoadStep(w, next)
    ensures next.service.dir.events == Guards(ty, L.LoadSpec(f, id, d).events)
  {
    if d.dnsPending.Some? {
      next := LoadedContinuation(f, id, ty, d, w);
    } else if d.pending.None? {
      next := w;
    } else {
      next := LoadedEvent(f, id, ty, d, w);
    }
  }

  lemma LoadedContinuation(f: L.Format, id: L.Identity, ty: Typing, d: L.Dir, w: M.World) returns (next: M.World)
    requires L.Lawful(f) && Shows(f, id, ty, d, w) && L.LoadSpec(f, id, d).Loaded? && d.dnsPending.Some?
    ensures Shows(f, id, ty, L.LoadSpec(f, id, d).dir, next) && M.PublishesContinuation(w, next)
    ensures w.service.dir.dnsPending.Whole?
    ensures next.service.dir.events == Guards(ty, L.LoadSpec(f, id, d).events)
  {
    P.PublishedContinuationLoads(f, id, d);
    var e := L.LoadSpec(f, id, d).dir;
    next := w.(service := M.Published(Abs(f, id, ty, e)));
  }

  lemma LoadedEvent(f: L.Format, id: L.Identity, ty: Typing, d: L.Dir, w: M.World) returns (next: M.World)
    requires L.Lawful(f) && Shows(f, id, ty, d, w) && L.LoadSpec(f, id, d).Loaded?
    requires d.dnsPending.None? && d.pending.Some?
    ensures Shows(f, id, ty, L.LoadSpec(f, id, d).dir, next) && LoadStep(w, next)
    ensures next.service.dir.events == Guards(ty, L.LoadSpec(f, id, d).events)
  {
    var n, docs := |d.events|, P.Log(f, id, d);
    var base := d.(pending := None);
    P.PendingInvisible(f, id, d, None);
    if L.PendingVerdict(f, d, docs) == L.Accepted {
      var v := f.readEvent(d.pending.value.data).value;
      P.AcceptedIffBuilt(f, v, n, L.PreviousDigest(f, docs, n), Some(L.Effective(f, d, docs)), f.sha(d.intent));
      assert v == P.NextEvent(f, id, base) && f.writeEvent(v) == d.pending.value.data;
      assert d == base.(pending := Some(L.Pending(n, f.writeEvent(v))));
      next := RenameIsPublishesEvent(f, id, ty, base, w);
      P.AppendedIsSettled(f, id, base);
    } else {
      next := w.(service := M.Published(Abs(f, id, ty, base)));
    }
  }

  /** The installer's own reader accepts exactly the typed teardown boundary, with the guard
      the state machine holds the next journal revision to (SameEffective). */
  lemma InstallerReadsTeardown(f: L.Format, id: L.Identity, ty: Typing, d: L.Dir, w: M.World)
    requires L.Lawful(f) && Shows(f, id, ty, d, w) && id.active(f.readIntent(d.intent).value.previous)
    ensures var i := f.readIntent(d.intent).value;
            R.Accepts(f, id, d, i.candidate, i.previous, L.Effective(f, d, P.Log(f, id, d))) <==> M.AtTeardown(w)
  {
    var i := f.readIntent(d.intent).value;
    R.ValidatorsAgree(f, id, d, i.candidate, i.previous, L.Effective(f, d, P.Log(f, id, d)));
    R.SettledIffLoadedUnchanged(f, id, d);
  }
}
