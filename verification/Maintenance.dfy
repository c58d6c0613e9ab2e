/** The durable world of one release maintenance: the installed and staged bundles, the
    dormant-install journal, the current-service transaction directory and the two service
    registrations. `Step` lists every atomic durable change the two transactions make;
    `Inv` is what every crash-reachable world satisfies.

    Sources: scripts/current_service_transaction.py, scripts/dormant_app_install.py. */
module Maintenance {
  import opened Common
  import opened Identity
  import IJ = InstallJournal

  // ---------------------------------------------------------------------------- world

  /** A bundle directory: missing, unreadable, or one readable application. */
  datatype Payload = NoPayload | Broken | Bundle(app: App)

  /** The transaction-bound staging container. */
  datatype Container = Container(partial: Payload, payload: Payload)

  datatype Intent = Intent(candidate: Candidate, previous: App, environment: string, id: string)

  /** The service transaction directory. The k-th event has the k-th phase, action and
      proof profile and chains to its predecessor, so only its guard is free. */
  datatype ServiceDir = ServiceDir(
    intent: Intent, events: seq<Guard>, pending: Slot<Guard>, dns: Option<Guard>, dnsPending: Slot<Guard>)

  /** The service directory is assembled under a pending name and published by one rename. */
  datatype Service = NoService | Assembling(assembly: Slot<ServiceDir>) | Published(dir: ServiceDir)

  datatype World = World(
    target: App,
    container: Option<Container>,
    journal: Option<IJ.Journal>,
    journalPending: Slot<IJ.Journal>,
    service: Service,
    proxy: bool,
    authority: bool,
    swaps: nat)            // how often the bundle swap has been performed

  // --------------------------------------------------------------------- service phases

  /** The (proxy, authority) registration belonging to event k. */
  function Registered(k: nat): (bool, bool)
  {
    if k == 0 then (true, true)
    else if k == 1 then (false, true)
    else if k == 2 || k == 3 then (false, false)
    else if k == 4 then (false, true)
    else (true, true)
  }

  function Flags(w: World): (bool, bool) { (w.proxy, w.authority) }

  /** The host action belonging to event k, as a set/clear on the two registrations. */
  function Act(k: nat, flags: (bool, bool)): (bool, bool)
  {
    if k == 1 then (false, flags.1)
    else if k == 2 then (flags.0, false)
    else if k == 4 then (flags.0, true)
    else if k == 5 then (true, flags.1)
    else flags
  }

  /** `service_dns_continuation_guard`: the guard every later observation must repeat. */
  function Effective(d: ServiceDir): Guard
    requires d.events != []
  {
    if d.dns.Some? then d.dns.value else d.events[0]
  }

  // ---------------------------------------------------------------------- shared guards

  /** Exactly the four teardown events and nothing pending: what
      `require_decommissioned_service_transaction` demands of the inventory. */
  predicate AtTeardown(w: World)
  {
    && w.service.Published?
    && |w.service.dir.events| == TEARDOWN
    && w.service.dir.pending.Absent?
    && w.service.dir.dnsPending.Absent?
  }

  predicate BoundTo(j: IJ.Journal, intent: Intent)
  {
    j.candidate == intent.candidate && j.previous == intent.previous && j.environment == intent.environment
  }

  /** `_require_installed_candidate`: the terminal journal binds the installed candidate. */
  predicate InstallationProven(w: World)
  {
    && w.service.Published?
    && w.journal.Some?
    && w.journalPending.Absent?
    && w.journal.value.phase == IJ.Installed
    && BoundTo(w.journal.value, w.service.dir.intent)
    && w.target == w.service.dir.intent.candidate.app
  }

  predicate IntentOk(p: Profile, i: Intent, target: App)
  {
    && i.candidate.app.version == p.version
    && i.candidate.app.build == p.build
    && AdmitsPredecessor(p, i.previous)
    && i.previous == target
  }

  /** The directory `create` assembles: one intent, one prepared event, nothing else. */
  predicate FreshDir(p: Profile, d: ServiceDir, target: App)
  {
    && IntentOk(p, d.intent, target)
    && |d.events| == 1 && ValidGuard(d.events[0])
    && d.pending.Absent? && d.dns.None? && d.dnsPending.Absent?
  }

  // ------------------------------------------------------------------ service-side steps

  predicate BeginsService(p: Profile, w: World, w': World)
  {
    && w.service.NoService? && Flags(w) == Registered(0)
    && w' == w.(service := Assembling(Torn))
  }

  predicate AssemblesService(p: Profile, w: World, w': World)
  {
    && w.service == Assembling(Torn)
    && w'.service.Assembling? && w'.service.assembly.Whole?
    && FreshDir(p, w'.service.assembly.doc, w.target)
    && w' == w.(service := w'.service)
  }

  predicate DiscardsAssembly(w: World, w': World)
  {
    && w.service.Assembling?
    && w' == w.(service := NoService)
  }

  predicate PublishesService(w: World, w': World)
  {
    && w.service.Assembling? && w.service.assembly.Whole?
    && w' == w.(service := Published(w.service.assembly.doc))
  }

  /** Registration actions are only issued at the boundary before their own event; the
      two registering actions need the proven installation. */
  predicate ActsOnHost(w: World, w': World)
  {
    && w.service.Published?
    && var d := w.service.dir;
    && d.pending.Absent? && d.dnsPending.Absent?
    && |d.events| in {1, 2, 4, 5}
    && (|d.events| < TEARDOWN ==> w.target == d.intent.previous)
    && (TEARDOWN <= |d.events| ==> InstallationProven(w))
    && w' == w.(proxy := Act(|d.events|, Flags(w)).0, authority := Act(|d.events|, Flags(w)).1)
  }

  /** The next event is written only after its registration state was observed. */
  predicate WritesEvent(w: World, w': World)
  {
    && w.service.Published?
    && var d := w.service.dir;
    && d.pending.Absent? && d.dnsPending.Absent?
    && 1 <= |d.events| < PHASES
    && Flags(w) == Registered(|d.events|)
    && (TEARDOWN <= |d.events| ==> InstallationProven(w))
    && (|| w' == w.(service := Published(d.(pending := Torn)))
        || w' == w.(service := Published(d.(pending := Whole(Effective(d))))))
  }

  predicate PublishesEvent(w: World, w': World)
  {
    && w.service.Published?
    && var d := w.service.dir;
    && d.pending.Whole? && d.dnsPending.Absent?
    && w' == w.(service := Published(d.(events := d.events + [d.pending.doc], pending := Absent)))
  }

  /** A torn pending event is discarded by the next load. */
  predicate DiscardsEvent(w: World, w': World)
  {
    && w.service.Published?
    && var d := w.service.dir;
    && d.pending.Torn? && d.dnsPending.Absent?
    && w' == w.(service := Published(d.(pending := Absent)))
  }

  /** The DNS continuation is recorded at exactly four events, once, before any install
      journal name exists, and only over a guard with running processes: the record is
      validated before anything is written. */
  predicate WritesContinuation(w: World, w': World)
  {
    && AtTeardown(w)
    && w.service.dir.dns.None?
    && w.journal.None? && w.journalPending.Absent?
    && Flags(w) == Registered(3)
    && var d := w.service.dir;
    && d.events[0].processes != []
    && w'.service.Published?
    && var slot := w'.service.dir.dnsPending;
    && (slot.Torn? || (slot.Whole? && ValidGuard(slot.doc) && DnsOnlyChange(d.events[0], slot.doc)))
    && w' == w.(service := Published(d.(dnsPending := slot)))
  }

  predicate PublishesContinuation(w: World, w': World)
  {
    && w.service.Published?
    && var d := w.service.dir;
    && d.dnsPending.Whole? && |d.events| == TEARDOWN && d.pending.Absent?
    && w' == w.(service := Published(d.(dns := Some(d.dnsPending.doc), dnsPending := Absent)))
  }

  // ------------------------------------------------------------------ install-side steps

  /** The bundle layout a revision with this phase may be written over. */
  predicate LayoutFor(phase: IJ.Phase, w: World)
  {
    && w.service.Published?
    && var i := w.service.dir.intent;
    match phase
    case Prepared => w.target == i.previous
    case Staged => w.container.Some? && w.container.value.payload.Bundle?
    case _ => w.target == i.candidate.app && w.container.Some? && w.container.value.payload == Bundle(i.previous)
  }

  predicate WritesJournal(p: Profile, w: World, w': World)
  {
    && AtTeardown(w) && Flags(w) == Registered(3)
    && w.journalPending.Absent?
    && (if w.journal.None? then w.container.None? else w.journal.value.phase != IJ.Installed)
    && (|| w' == w.(journalPending := Torn)
        || (&& w'.journalPending.Whole?
            && var j := w'.journalPending.doc;
            && IJ.Valid(p, j)
            && (w.journal.Some? ==> w.journal.value.guards != [])
            && IJ.Permitted(w.journal, j)
            && BoundTo(j, w.service.dir.intent)
            && Last(j.guards).before == Effective(w.service.dir)
            && LayoutFor(j.phase, w)
            && w' == w.(journalPending := Whole(j))))
  }

  predicate PublishesJournal(w: World, w': World)
  {
    && AtTeardown(w) && Flags(w) == Registered(3)
    && w.journalPending.Whole?
    && w' == w.(journal := Some(w.journalPending.doc), journalPending := Absent)
  }

  predicate Preparing(w: World)
  {
    && AtTeardown(w) && w.journal.Some? && w.journalPending.Absent?
    && w.journal.value.phase == IJ.Prepared
  }

  predicate CreatesContainer(w: World, w': World)
  {
    && Preparing(w) && w.container.None?
    && w' == w.(container := Some(Container(NoPayload, NoPayload)))
  }

  /** Copying or removing the partial payload; a crash leaves any partial content. */
  predicate ChangesPartial(w: World, w': World)
  {
    && Preparing(w) && w.container.Some? && w.container.value.payload.NoPayload?
    && w'.container.Some?
    && w' == w.(container := Some(w.container.value.(partial := w'.container.value.partial)))
  }

  predicate PublishesPayload(w: World, w': World)
  {
    && Preparing(w) && w.container.Some? && w.container.value.payload.NoPayload?
    && w.container.value.partial == Bundle(w.journal.value.candidate.app)
    && w' == w.(container := Some(Container(NoPayload, w.container.value.partial)))
  }

  predicate SwapsBundles(w: World, w': World)
  {
    && AtTeardown(w) && Flags(w) == Registered(3)
    && w.journal.Some? && w.journalPending.Absent? && w.journal.value.phase == IJ.Staged
    && w.container.Some? && w.container.value.payload.Bundle?
    && w.target == w.journal.value.previous
    && w.container.value.payload.app == w.journal.value.candidate.app
    && w' == w.(target := w.container.value.payload.app,
                container := Some(w.container.value.(payload := Bundle(w.target))),
                swaps := w.swaps + 1)
  }

  predicate ServiceStep(p: Profile, w: World, w': World)
  {
    || BeginsService(p, w, w') || AssemblesService(p, w, w') || DiscardsAssembly(w, w') || PublishesService(w, w')
    || ActsOnHost(w, w') || WritesEvent(w, w') || PublishesEvent(w, w') || DiscardsEvent(w, w')
    || WritesContinuation(w, w') || PublishesContinuation(w, w')
  }

  predicate InstallStep(p: Profile, w: World, w': World)
  {
    || WritesJournal(p, w, w') || PublishesJournal(w, w')
    || CreatesContainer(w, w') || ChangesPartial(w, w') || PublishesPayload(w, w')
    || SwapsBundles(w, w')
  }

  predicate Step(p: Profile, w: World, w': World)
  {
    ServiceStep(p, w, w') || InstallStep(p, w, w')
  }

  /** A clean namespace: no transaction yet and both services registered. */
  predicate Init(w: World)
  {
    && w.service.NoService? && w.journal.None? && w.journalPending.Absent? && w.container.None?
    && Flags(w) == Registered(0) && w.swaps == 0
  }

  /** A run: any interleaving of the operations' atomic steps. A crash only ends an
      operation, so every prefix of every operation is a run too. */
  predicate IsRun(p: Profile, run: seq<World>)
  {
    && run != [] && Init(run[0])
    && forall i {:trigger StepAt(p, run, i)} | 0 <= i < |run| - 1 :: StepAt(p, run, i)
  }

  predicate StepAt(p: Profile, run: seq<World>, i: nat)
    requires i + 1 < |run|
  {
    Step(p, run[i], run[i + 1])
  }

  /** The revision a restarted installer works from: a whole pending one counts. */
  function CurrentRevision(w: World): Option<IJ.Journal>
  {
    if w.journalPending.Whole? then Some(w.journalPending.doc) else w.journal
  }

  /** An unfinished installation whose guard segments are used up. */
  predicate Exhausted(w: World)
  {
    && CurrentRevision(w).Some?
    && CurrentRevision(w).value.phase != IJ.Installed
    && |CurrentRevision(w).value.guards| >= IJ.MAX_GUARD_SEGMENTS
  }

  // ------------------------------------------------------------------------- invariants

  /** One bounded guard change: teardown events share one guard, later events share the
      effective guard, which differs from the first in DNS alone, if at all. */
  predicate GuardInv(d: ServiceDir)
  {
    && 1 <= |d.events| <= PHASES
    && ValidGuard(d.events[0])
    && (forall k | 0 <= k < |d.events| && k < TEARDOWN :: d.events[k] == d.events[0])
    && (forall k | TEARDOWN <= k < |d.events| :: d.events[k] == Effective(d))
    && (d.dns.Some? ==> TEARDOWN <= |d.events| && ValidGuard(d.dns.value)
                        && DnsOnlyChange(d.events[0], d.dns.value))
    && (d.pending.Whole? ==> d.pending.doc == Effective(d))
    && (!d.pending.Absent? ==> |d.events| < PHASES)
    && (!d.dnsPending.Absent? ==> |d.events| == TEARDOWN && d.pending.Absent? && d.dns.None?)
    && (d.dnsPending.Whole? ==> ValidGuard(d.dnsPending.doc) && DnsOnlyChange(d.events[0], d.dnsPending.doc))
  }

  /** The registrations are those of the last logged phase or of the next one. */
  predicate RegistrationInv(w: World)
  {
    if w.service.Published? then
      var n := |w.service.dir.events|;
      && n >= 1
      && (Flags(w) == Registered(n - 1) || Flags(w) == Registered(n))
      && (!w.service.dir.pending.Absent? ==> Flags(w) == Registered(n))
    else
      Flags(w) == Registered(0)
  }

  /** A log past its teardown, or a registration past it, rests on a proven installation. */
  predicate InterlockInv(w: World)
  {
    w.service.Published? ==>
      var d := w.service.dir;
      && (|d.events| > TEARDOWN ==> InstallationProven(w))
      && (|d.events| == TEARDOWN && (!d.pending.Absent? || Flags(w) != Registered(3)) ==> InstallationProven(w))
  }

  predicate JournalOk(p: Profile, j: IJ.Journal, d: ServiceDir)
    requires d.events != []
  {
    IJ.Valid(p, j) && IJ.Lineage(j, Effective(d)) && BoundTo(j, d.intent)
  }

  /** Install names exist only over the completed teardown, and what is on disk is one
      valid revision followed by at most one permitted successor. */
  predicate JournalInv(p: Profile, w: World)
  {
    && (w.journal.Some? || !w.journalPending.Absent? ==>
          && w.service.Published?
          && TEARDOWN <= |w.service.dir.events|
          && w.service.dir.dnsPending.Absent?)
    && (w.journal.Some? ==> JournalOk(p, w.journal.value, w.service.dir))
    && (!w.journalPending.Absent? ==> AtTeardown(w) && Flags(w) == Registered(3))
    && (w.journalPending.Whole? ==>
          && JournalOk(p, w.journalPending.doc, w.service.dir)
          && IJ.Permitted(w.journal, w.journalPending.doc))
  }

  /** Where the two bundles are, phase by phase. */
  predicate LayoutInv(w: World)
  {
    if w.journal.None? then
      && w.container.None? && w.swaps == 0
      && (w.service.Published? ==> w.target == w.service.dir.intent.previous)
    else
      && w.service.Published?
      && var i := w.service.dir.intent;
      && var before := w.target == i.previous && w.swaps == 0;
      && var after := w.target == i.candidate.app && w.swaps == 1
                      && w.container.Some? && w.container.value == Container(NoPayload, Bundle(i.previous));
      match w.journal.value.phase
      case Prepared =>
        && before
        && (w.container.None? || w.container.value.payload.NoPayload?
            || w.container.value == Container(NoPayload, Bundle(i.candidate.app)))
        && (w.journalPending.Whole? && w.journalPending.doc.phase == IJ.Staged ==>
              w.container == Some(Container(NoPayload, Bundle(i.candidate.app))))
      case Staged =>
        && ((before && w.container == Some(Container(NoPayload, Bundle(i.candidate.app)))) || after)
        && (w.journalPending.Whole? && w.journalPending.doc.phase == IJ.Swapped ==> after)
      case Swapped => after
      case Installed => after
  }

  predicate Inv(p: Profile, w: World)
  {
    && (w.service.Assembling? && w.service.assembly.Whole? ==> FreshDir(p, w.service.assembly.doc, w.target))
    && (w.service.Published? ==> GuardInv(w.service.dir)
                                 && IntentOk(p, w.service.dir.intent, w.service.dir.intent.previous))
    && RegistrationInv(w)
    && InterlockInv(w)
    && JournalInv(p, w)
    && LayoutInv(w)
  }
}
