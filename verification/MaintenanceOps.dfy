/** The operations of the two transactions, in the order the source performs their checks
    and durable steps. Observers, commands and I/O may refuse at any point and a crash may
    follow any step; both end the operation and leave the world as it then is. Each
    durable change goes through `Commit`, which only accepts a step the process may take: an
    installer must open its session before it changes anything. */
module MaintenanceOps {
  import opened Common
  import opened Identity
  import opened Maintenance
  import opened MaintenanceProof
  import opened MaintenanceLife
  import IJ = InstallJournal

  datatype Failure =
    | Crashed                 // the process ended between two atomic steps
    | Refused                 // an observer, command or I/O call refused
    | TornJournal | TornContinuation
    | JournalInvalid | JournalPendingExists | JournalExists | JournalMissing
    | LineageAmbiguous        // journal_recovery_ambiguous
    | LayoutAmbiguous         // recovery_layout_ambiguous
    | StagingInvalid          // staging_identity_mismatch / staging_inventory_invalid, before any copy
    | CopyMismatch            // the copy just made is not the candidate
    | GuardChanged | GuardCapacity
    | EvidenceInvalid         // service_decommission_evidence_invalid / service_install_evidence_invalid
    | IdentityDrift | NotReady | RegistrationInvalid
    | RecoveryAmbiguous       // service_recovery_ambiguous

  datatype Outcome = Ok | Failed(why: Failure) {
    predicate IsFailure() { Failed? }
    function PropagateFailure(): Outcome requires Failed? { this }
  }

  datatype Choice = ChooseDecommission | ChooseRecommission

  datatype Op =
    | Decommission | ContinueAfterDnsChange
    | Install(candidate: Candidate, previous: App, id: string)
    | RecoverInstall | Recommission | RecoverService

  /** A failure says the truth about the world it leaves. The failures that would mean that a
      crash left something recovery cannot interpret never occur. */
  predicate Justified(w: World, why: Failure)
  {
    match why
    case TornJournal => w.journalPending.Torn?
    case TornContinuation => w.service.Published? && w.service.dir.dnsPending.Torn?
    case JournalExists => w.journal.Some? || !w.journalPending.Absent?
    case JournalMissing => CurrentRevision(w).None? || !w.service.Published?
    case GuardCapacity => Exhausted(w)
    case JournalInvalid => false
    case JournalPendingExists => !w.journalPending.Absent?
    case LineageAmbiguous => false
    case LayoutAmbiguous => false
    case StagingInvalid => false
    case RecoveryAmbiguous => false
    case _ => true
  }

  /** The installation is proven, and it is the one that was asked for. */
  predicate Installed(w: World, candidate: Candidate, previous: App, id: string)
  {
    && InstallationProven(w) && w.target == candidate.app
    && w.journal.value.candidate == candidate && w.journal.value.previous == previous
    && w.journal.value.transactionId == id
  }

  /** Both services are down at the complete teardown, over the previous bundle. */
  predicate Decommissioned(w: World)
  {
    AtTeardown(w) && Flags(w) == (false, false) && w.target == w.service.dir.intent.previous
  }

  /** The log is complete and both services run over the proven installation. */
  predicate Recommissioned(w: World)
  {
    w.service.Published? && |w.service.dir.events| == PHASES && Flags(w) == (true, true) && InstallationProven(w)
  }

  /** What there is to be seen outside the durable world. */
  datatype Sight = Sight(guard: Guard, candidate: Candidate)

  /** The four teardown events under this guard. */
  predicate Teardown(w: World, guard: Guard)
  {
    AtTeardown(w) && w.service.dir.events != [] && Effective(w.service.dir) == guard
  }

  predicate Evidence(p: Profile, w: World, candidate: Candidate, previous: App, guard: Guard)
  {
    && AdmitsPredecessor(p, previous) && Teardown(w, guard)
    && w.service.dir.intent.candidate == candidate && w.service.dir.intent.previous == previous
  }

  /** The candidate need not be copied any more, or is there to be copied. */
  predicate Stageable(w: World, j: IJ.Journal, seen: Sight)
  {
    || j.phase != IJ.Prepared
    || (&& w.container.Some?
        && (w.container.value.payload.Bundle? || w.container.value.partial == Bundle(j.candidate.app)))
    || seen.candidate == j.candidate
  }

  /** A directory once its pending files are published or discarded. */
  function SettledDir(d: ServiceDir): ServiceDir
  {
    if d.dnsPending.Whole? then d.(dns := Some(d.dnsPending.doc), dnsPending := Absent)
    else if d.pending.Whole? then d.(events := d.events + [d.pending.doc], pending := Absent)
    else d.(pending := Absent)
  }

  predicate Loadable(s: Service) { !(s.Published? && s.dir.dnsPending.Torn?) }

  function AfterLoad(s: Service): Service
  {
    match s
    case NoService => NoService
    case Assembling(assembly) => if assembly.Whole? then Published(SettledDir(assembly.doc)) else NoService
    case Published(d) => Published(SettledDir(d))
  }

  /** The world a load leaves. */
  function LoadedWorld(w: World): World { w.(service := AfterLoad(w.service)) }

  /** Undisturbed, the services can be taken down from a loaded world: the candidate of this
      release over the active predecessor, and either a fresh start or this very transaction,
      not past its teardown, under the guard it is held to. */
  predicate TakesDown(p: Profile, w: World, seen: Sight)
  {
    && AdmitsPredecessor(p, w.target)
    && seen.candidate.app.build == p.build && seen.candidate.app.version == p.version
    && match w.service
       case Published(d) =>
         && d.intent.candidate == seen.candidate && d.intent.previous == w.target
         && 1 <= |d.events| <= TEARDOWN && Effective(d) == seen.guard
       case _ => ValidGuard(seen.guard)
  }

  predicate TakesContinuation(w: World, seen: Sight)
  {
    && w.service.Published? && w.journal.None? && w.journalPending.Absent?
    && var d := w.service.dir;
    && |d.events| == TEARDOWN && ValidGuard(seen.guard)
    && DnsOnlyChange(d.events[0], seen.guard) && d.events[0].processes != []
    && (d.dns.Some? ==> d.dns.value == seen.guard)
  }

  predicate BringsUp(w: World, seen: Sight)
  {
    && w.service.Published?
    && var d := w.service.dir;
    && d.intent.candidate == seen.candidate && TEARDOWN <= |d.events| && Effective(d) == seen.guard
    && InstallationProven(w)
  }

  /** When an operation succeeds that nothing disturbs. */
  predicate Doable(p: Profile, op: Op, w: World, seen: Sight)
  {
    match op
    case Decommission => Loadable(w.service) && TakesDown(p, LoadedWorld(w), seen)
    case ContinueAfterDnsChange => Loadable(w.service) && TakesContinuation(LoadedWorld(w), seen)
    case Install(candidate, previous, _) =>
      && Evidence(p, w, candidate, previous, seen.guard) && seen.candidate == candidate && Flags(w) == (false, false)
      && w.journal.None? && w.journalPending.Absent?
    case RecoverInstall =>
      && CurrentRevision(w).Some? && !w.journalPending.Torn? && !Exhausted(w)
      && Teardown(w, seen.guard) && Flags(w) == (false, false) && Stageable(w, CurrentRevision(w).value, seen)
    case Recommission => Loadable(w.service) && BringsUp(LoadedWorld(w), seen)
    case RecoverService =>
      && Loadable(w.service) && LoadedWorld(w).service.Published?
      && (if w.swaps == 0 then TakesDown(p, LoadedWorld(w), seen) else BringsUp(LoadedWorld(w), seen))
  }

  /** Loading once more changes nothing, so the second half of a recovery sees what the first
      half left. */
  lemma LoadTwice(p: Profile, w: World)
    requires Inv(p, w)
    ensures Loadable(w.service) ==>
              Loadable(LoadedWorld(w).service) && LoadedWorld(LoadedWorld(w)) == LoadedWorld(w)
  {
  }

  /** What the success of an operation means. */
  predicate Achieved(op: Op, w: World)
  {
    match op
    case Decommission => Decommissioned(w)
    case ContinueAfterDnsChange => AtTeardown(w) && w.service.dir.dns.Some? && w.journal.None?
    case Install(candidate, previous, id) => Installed(w, candidate, previous, id)
    case RecoverInstall => InstallationProven(w)
    case Recommission => Recommissioned(w)
    case RecoverService => if w.swaps == 0 then Decommissioned(w) else Recommissioned(w)
  }

  class Host {
    const p: Profile
    var w: World
    /** An installer that has opened its session is at work. */
    ghost var live: bool
    ghost var history: seq<Moment>
    /** Nothing fails or crashes, and every observation shows what is there to be seen. */
    var calm: bool
    var seen: Sight

    ghost predicate Valid()
      reads this
    {
      ValidProfile(p) && IsLife(p, history) && Last(history) == Moment(w, live) && Inv(p, w)
    }

    /** Between operations no installer is at work. */
    ghost predicate Idle()
      reads this
    {
      Valid() && !live
    }

    constructor (profile: Profile, start: World)
      requires ValidProfile(profile) && Init(start)
      ensures Idle() && p == profile && w == start && history == [Moment(start, false)]
    {
      p := profile;
      w := start;
      live := false;
      history := [Moment(start, false)];
      calm := false;
      seen := *;
      new;
      InitEstablishesInv(p, w);
    }

    /** The service transaction never touches bundles or install journal. */
    twostate predicate InstallationUntouched()
      reads this
    {
      && w.target == old(w.target) && w.container == old(w.container) && w.swaps == old(w.swaps)
      && w.journal == old(w.journal) && w.journalPending == old(w.journalPending)
    }

    /** The installer never touches the service directory or the registrations. */
    twostate predicate ServiceUntouched()
      reads this
    {
      w.service == old(w.service) && Flags(w) == old(Flags(w))
    }

    // ------------------------------------------------------------------- atomic steps

    /** One durable step; the operation survives it or ends right after it. */
    method Commit(next: World) returns (r: Outcome)
      requires Valid() && MayStep(p, live, w, next)
      modifies this`w, this`live, this`history
      ensures Valid() && w == next && live == LiveAfter(old(live), old(w), next)
      ensures history == old(history) + [Moment(w, live)]
      ensures r == Ok || r == Failed(Crashed)
      ensures calm ==> r == Ok
    {
      ghost var moment := Moment(next, LiveAfter(live, w, next));
      LifeStepKeepsInv(p, Last(history), moment);
      LifeGrows(p, history, moment);
      history := history + [moment];
      w := next;
      live := moment.live;
      var survives: bool := *;
      r := if survives || calm then Ok else Failed(Crashed);
    }

    /** The process of an operation ends, as it returns or crashes. */
    ghost method Exit()
      requires Valid()
      modifies this`live, this`history
      ensures Idle() && old(history) <= history
    {
      LifeGrows(p, history, Moment(w, false));
      history := history + [Moment(w, false)];
      live := false;
    }

    /** Any observation, command or verification that changes nothing durable. */
    method Observe() returns (r: Outcome)
      ensures r == Ok || r == Failed(Refused)
      ensures calm ==> r == Ok
    {
      var accepted: bool := *;
      r := if accepted || calm then Ok else Failed(Refused);
    }

    /** A write or a command that may go wrong. */
    method Trouble() returns (t: bool)
      ensures calm ==> !t
    {
      t := *;
      t := t && !calm;
    }

    method SeenGuard() returns (guard: Guard)
      ensures calm ==> guard == seen.guard
    {
      guard := *;
      if calm {
        guard := seen.guard;
      }
    }

    method SeenCandidate() returns (candidate: Candidate)
      ensures calm ==> candidate == seen.candidate
    {
      candidate := *;
      if calm {
        candidate := seen.candidate;
      }
    }

    // ---------------------------------------------------------- guards and evidence

    /** `_capture_stable_dormant_guard`: two equal captures with both services absent. */
    method CaptureDormantGuard(expected: Option<Guard>) returns (r: Outcome, guard: Guard)
      ensures r == Ok ==> Flags(w) == (false, false) && (expected.Some? ==> guard == expected.value)
      ensures r.Failed? ==> Justified(w, r.why)
      ensures calm && r == Ok ==> guard == seen.guard
      ensures calm ==> (r == Ok <==> Flags(w) == (false, false) && (expected.None? || expected.value == seen.guard))
    {
      var initial := SeenGuard();
      guard := initial;
      :- Observe();
      if expected.Some? && initial != expected.value {
        return Failed(GuardChanged), guard;
      }
      if w.proxy || w.authority {
        return Failed(RegistrationInvalid), guard;
      }
      var final := SeenGuard();
      if final != initial {
        return Failed(GuardChanged), guard;
      }
      return Ok, final;
    }

    /** `require_decommissioned_service_transaction` over the typed directory. */
    method RequireDecommissioned(candidate: Candidate, previous: App, guard: Guard) returns (r: Outcome)
      requires Valid()
      ensures r == Ok ==> AtTeardown(w) && w.service.dir.intent.candidate == candidate
                          && w.service.dir.intent.previous == previous && Effective(w.service.dir) == guard
      ensures r.Failed? ==> r.why == Refused || !AdmitsPredecessor(p, previous) || !AtTeardown(w)
                            || w.service.dir.intent.candidate != candidate || w.service.dir.intent.previous != previous
                            || Effective(w.service.dir) != guard
      ensures r.Failed? ==> Justified(w, r.why)
      ensures calm ==> (r == Ok <==> Evidence(p, w, candidate, previous, guard))
    {
      if !AdmitsPredecessor(p, previous) {
        return Failed(IdentityDrift);
      }
      if !w.service.Published? {
        return Failed(EvidenceInvalid);
      }
      var d := w.service.dir;
      if |d.events| != TEARDOWN || !d.pending.Absent? || !d.dnsPending.Absent? {
        return Failed(EvidenceInvalid);
      }
      if d.intent.candidate != candidate || d.intent.previous != previous {
        return Failed(EvidenceInvalid);
      }
      :- Observe();
      if Effective(d) != guard {
        return Failed(GuardChanged);
      }
      return Ok;
    }

    // --------------------------------------------------------------------- JournalStore

    /** `JournalStore.write`: pending file, then rename over the current journal. */
    method WriteJournal(j: IJ.Journal) returns (r: Outcome)
      requires Valid()
      requires w.journalPending.Absent?
      requires WritesJournal(p, w, w.(journalPending := Whole(j)))
      requires MayStep(p, live, w, w.(journalPending := Whole(j)))
      modifies this`w, this`live, this`history
      ensures ServiceUntouched()
      ensures Valid() && old(history) <= history
      ensures r == Ok ==> w == old(w).(journal := Some(j)) && live
      ensures r.Failed? ==> r.why in {Crashed, Refused}
      ensures calm ==> r == Ok
    {
      var ok := IJ.Validate(p, j);
      if !ok {
        return Failed(JournalInvalid);
      }
      :- Observe();
      var trouble := Trouble();
      if trouble {
        var _ := Commit(w.(journalPending := Torn));
        return Failed(Crashed);
      }
      :- Commit(w.(journalPending := Whole(j)));
      :- Commit(w.(journal := Some(j), journalPending := Absent));
      return Ok;
    }

    /** `JournalStore.load` with the authorization `recover` passes to it. */
    method LoadJournal(before: Guard) returns (r: Outcome, document: Option<IJ.Journal>)
      requires Valid() && Flags(w) == Registered(3)
      modifies this`w, this`live, this`history
      ensures ServiceUntouched()
      ensures Valid() && old(history) <= history
      ensures r.Failed? ==> Justified(w, r.why)
      ensures r == Ok ==> w.journal == document && w.journalPending.Absent? && Flags(w) == Registered(3)
      ensures CurrentRevision(w) == CurrentRevision(old(w)) && live == old(live) && w.container == old(w).container
      ensures r == Ok && document.Some? ==> AtTeardown(w) && Effective(w.service.dir) == before
      ensures calm ==>
                (r == Ok <==> && !old(w).journalPending.Torn?
                              && (CurrentRevision(old(w)).None? || Teardown(old(w), before)))
    {
      document := None;
      if w.journalPending.Torn? {
        return Failed(TornJournal), None;
      }
      if w.journalPending.Whole? && !IJ.Permitted(w.journal, w.journalPending.doc) {
        return Failed(LineageAmbiguous), None;
      }
      var selected := if w.journalPending.Whole? then Some(w.journalPending.doc) else w.journal;
      if selected.None? {
        return Ok, None;
      }
      :- RequireDecommissioned(selected.value.candidate, selected.value.previous, before);
      if selected.value.environment != w.service.dir.intent.environment {
        return Failed(IdentityDrift), None;
      }
      :- Observe();
      if w.journalPending.Whole? {
        :- Commit(w.(journal := selected, journalPending := Absent));
      }
      return Ok, selected;
    }

    // ------------------------------------------------------- DormantInstallTransaction

    /** The published journal is the document in hand and the service log is still exactly
        at its teardown. */
    ghost predicate Held(document: IJ.Journal)
      reads this
    {
      Valid() && AtTeardown(w) && w.journal == Some(document) && w.journalPending.Absent?
    }

    /** The running transaction: its installer is at work. */
    ghost predicate Running(document: IJ.Journal)
      reads this
    {
      Held(document) && live
    }

    /** `install`; candidate and previous are what the unlocked preflight observed. */
    method InstallCandidate(candidate: Candidate, previous: App, id: string) returns (r: Outcome)
      requires Idle()
      modifies this`w, this`live, this`history
      ensures r == Ok ==> Installed(w, candidate, previous, id)
      ensures ServiceUntouched()
      ensures Valid() && old(history) <= history
      ensures r == Ok ==> InstallationProven(w)
      ensures r.Failed? ==> Justified(w, r.why)
      ensures calm ==>
                (r == Ok <==> && Evidence(p, old(w), candidate, previous, seen.guard) && seen.candidate == candidate
                              && Flags(old(w)) == (false, false)
                              && old(w).journal.None? && old(w).journalPending.Absent?)
    {
      var opening :- CaptureDormantGuard(None);
      :- RequireDecommissioned(candidate, previous, opening);
      :- Observe();
      if w.journalPending.Torn? {
        return Failed(TornJournal);
      }
      if w.journalPending.Whole? && !IJ.Permitted(w.journal, w.journalPending.doc) {
        return Failed(LineageAmbiguous);
      }
      if w.journalPending.Whole? || w.journal.Some? {
        return Failed(JournalExists);
      }
      var before :- CaptureDormantGuard(Some(opening));
      r := OpenInstallation(candidate, previous, id, before);
    }

    /** The first revision, and everything after it. */
    method OpenInstallation(candidate: Candidate, previous: App, id: string, before: Guard) returns (r: Outcome)
      requires Idle() && Evidence(p, w, candidate, previous, before) && Flags(w) == (false, false)
      requires w.journal.None? && w.journalPending.Absent?
      modifies this`w, this`live, this`history
      ensures r == Ok ==> Installed(w, candidate, previous, id)
      ensures ServiceUntouched()
      ensures Valid() && old(history) <= history
      ensures r.Failed? ==> Justified(w, r.why)
      ensures calm && seen.guard == before ==> (r == Ok <==> seen.candidate == candidate)
    {
      var document := IJ.First(candidate, w.service.dir.intent.environment, previous, id, before);
      IJ.FirstIsPermitted(p, candidate, w.service.dir.intent.environment, previous, id, before);
      :- WriteJournal(document);
      r := Resume(document);
    }

    /** `recover`: it never resumes an installation whose guard segments are used up. */
    method RecoverInstallation() returns (r: Outcome)
      requires Idle()
      modifies this`w, this`live, this`history
      ensures ServiceUntouched()
      ensures Valid() && old(history) <= history
      ensures old(Exhausted(w)) ==> r.Failed? && Exhausted(w)
      ensures r == Ok ==> InstallationProven(w)
      ensures r.Failed? ==> Justified(w, r.why)
      ensures calm ==>
                (r == Ok <==> && CurrentRevision(old(w)).Some? && !old(w).journalPending.Torn? && !Exhausted(old(w))
                              && Teardown(old(w), seen.guard) && Flags(old(w)) == (false, false)
                              && Stageable(old(w), CurrentRevision(old(w)).value, seen))
    {
      var beforeOpen :- CaptureDormantGuard(None);
      var before :- CaptureDormantGuard(Some(beforeOpen));
      var loaded :- LoadJournal(before);
      if loaded.None? {
        return Failed(JournalMissing);
      }
      r := RecoverLoaded(loaded.value, before);
    }

    /** The branches of `recover` once the journal is loaded. */
    method RecoverLoaded(document: IJ.Journal, before: Guard) returns (r: Outcome)
      requires Held(document) && !live && Flags(w) == Registered(3) && Effective(w.service.dir) == before
      modifies this`w, this`live, this`history
      ensures ServiceUntouched()
      ensures Valid() && old(history) <= history
      ensures r == Ok ==> InstallationProven(w)
      ensures r.Failed? ==> Justified(w, r.why)
      ensures document.phase != IJ.Installed && |document.guards| >= IJ.MAX_GUARD_SEGMENTS ==> r.Failed? && w == old(w)
      ensures calm && seen.guard == before ==>
                (r == Ok <==> || document.phase == IJ.Installed
                              || (|document.guards| < IJ.MAX_GUARD_SEGMENTS && Stageable(old(w), document, seen)))
    {
      if document.phase == IJ.Installed {
        r := VerifyTerminal(document);
        return;
      }
      if |document.guards| >= IJ.MAX_GUARD_SEGMENTS {
        return Failed(GuardCapacity);
      }
      if Last(document.guards).before != before {
        return Failed(GuardChanged);
      }
      r := ResumeReopened(document, before);
    }

    /** Record the new guard segment and continue. */
    method ResumeReopened(document: IJ.Journal, before: Guard) returns (r: Outcome)
      requires Held(document) && !live && document.phase != IJ.Installed && Flags(w) == Registered(3)
      requires Effective(w.service.dir) == before
      requires |document.guards| < IJ.MAX_GUARD_SEGMENTS
      modifies this`w, this`live, this`history
      ensures ServiceUntouched()
      ensures Valid() && old(history) <= history
      ensures r == Ok ==> InstallationProven(w)
      ensures r.Failed? ==> Justified(w, r.why)
      ensures calm && seen.guard == before ==> (r == Ok <==> Stageable(old(w), document, seen))
    {
      var updated := IJ.Reopen(document, before);
      IJ.ReopenIsPermitted(p, document, before);
      assert OpensSession(p, w, w.(journalPending := Whole(updated)));
      :- WriteJournal(updated);
      r := Resume(updated);
    }

    /** `_resume`: continue from whatever phase the journal records. */
    method Resume(start: IJ.Journal) returns (r: Outcome)
      requires Running(start) && start.phase != IJ.Installed
      modifies this`w, this`live, this`history
      ensures r == Ok ==> w.journal.Some? && IJ.SameTransaction(start, w.journal.value)
      ensures ServiceUntouched()
      ensures Valid() && old(history) <= history
      ensures r == Ok ==> InstallationProven(w)
      ensures r.Failed? ==> Justified(w, r.why)
      ensures calm && seen.guard == Effective(old(w).service.dir) && Flags(old(w)) == Registered(3) ==>
                (r == Ok <==> Stageable(old(w), start, seen))
    {
      var document := start;
      :- Observe();
      if document.phase == IJ.Prepared {
        document :- ResumePrepared(document);
      }
      if document.phase == IJ.Staged {
        document :- ResumeStaged(document);
      }
      r := ResumeSwapped(document);
    }

    method ResumePrepared(document: IJ.Journal) returns (r: Outcome, next: IJ.Journal)
      requires Running(document) && document.phase == IJ.Prepared
      modifies this`w, this`live, this`history
      ensures r == Ok ==> IJ.SameTransaction(document, next)
      ensures ServiceUntouched()
      ensures Valid() && old(history) <= history
      ensures r == Ok ==> Running(next) && next.phase == IJ.Staged
      ensures r.Failed? ==> Justified(w, r.why)
      ensures calm && seen.guard == Effective(old(w).service.dir) && Flags(old(w)) == Registered(3) ==>
                (r == Ok <==> Stageable(old(w), document, seen))
    {
      next := document;
      var _ :- CaptureDormantGuard(Some(Last(document.guards).before));
      :- PrepareStaging(document);
      :- Observe();
      next := IJ.Advance(document, IJ.Staged);
      IJ.AdvanceIsPermitted(p, document, IJ.Staged, Effective(w.service.dir));
      :- WriteJournal(next);
      return Ok, next;
    }

    /** Create the container if need be and bring the whole candidate into it. */
    method PrepareStaging(document: IJ.Journal) returns (r: Outcome)
      requires Running(document) && document.phase == IJ.Prepared && Flags(w) == Registered(3)
      modifies this`w, this`live, this`history
      ensures ServiceUntouched()
      ensures Valid() && old(history) <= history
      ensures r == Ok ==> Running(document) && Flags(w) == Registered(3)
                          && w.container == Some(Container(NoPayload, Bundle(document.candidate.app)))
      ensures r.Failed? ==> Justified(w, r.why)
      ensures calm ==> (r == Ok <==> Stageable(old(w), document, seen))
    {
      if w.target != document.previous {
        return Failed(LayoutAmbiguous);
      }
      if w.container.None? {
        :- Observe();
        :- Commit(w.(container := Some(Container(NoPayload, NoPayload))));
      }
      var staged := w.container.value;
      if staged.payload.Broken? || (staged.payload.Bundle? && staged.payload.app != document.candidate.app) {
        return Failed(StagingInvalid);
      }
      if staged.payload.Bundle? && !staged.partial.NoPayload? {
        return Failed(StagingInvalid);
      }
      if staged.payload.NoPayload? {
        :- StagePayload(document);
      }
      if w.container.value.payload != Bundle(document.candidate.app) {
        return Failed(StagingInvalid);
      }
      return Ok;
    }

    /** Copy the candidate to the partial name, prove it, publish it by exclusive rename. */
    method StagePayload(document: IJ.Journal) returns (r: Outcome)
      requires Running(document) && document.phase == IJ.Prepared
      requires w.container.Some? && w.container.value.payload.NoPayload?
      modifies this`w, this`live, this`history
      ensures ServiceUntouched()
      ensures Valid() && old(history) <= history
      ensures r == Ok ==> Running(document) && w.container == Some(Container(NoPayload, Bundle(document.candidate.app)))
      ensures r.Failed? ==> Justified(w, r.why)
      ensures calm ==> (r == Ok <==> Stageable(old(w), document, seen))
    {
      var partial := w.container.value.partial;
      if partial.Broken? || (partial.Bundle? && partial.app != document.candidate.app) {
        :- Commit(w.(container := Some(Container(NoPayload, NoPayload))));
      }
      if w.container.value.partial.NoPayload? {
        :- CopyCandidate(document);
      }
      if w.container.value.partial != Bundle(document.candidate.app) {
        return Failed(CopyMismatch);
      }
      :- Observe();
      r := Commit(w.(container := Some(Container(NoPayload, w.container.value.partial))));
    }

    /** The copy may leave anything under the partial name. */
    method CopyCandidate(document: IJ.Journal) returns (r: Outcome)
      requires Running(document) && document.phase == IJ.Prepared
      requires w.container.Some? && w.container.value.payload.NoPayload?
      modifies this`w, this`live, this`history
      ensures ServiceUntouched()
      ensures Valid() && old(history) <= history
      ensures r == Ok ==> Running(document) && w.container.Some? && w.container.value.payload.NoPayload?
      ensures r.Failed? ==> Justified(w, r.why)
      ensures calm ==> (r == Ok <==> seen.candidate == document.candidate)
      ensures calm && r == Ok ==> w.container.value.partial == Bundle(document.candidate.app)
    {
      r := Observe();
      if r != Ok { return; }
      var admitted := SeenCandidate();
      if admitted != document.candidate {
        return Failed(IdentityDrift);
      }
      var copied: Payload := *;
      if calm {
        copied := Bundle(admitted.app);
      }
      r := Commit(w.(container := Some(Container(copied, NoPayload))));
    }

    method ResumeStaged(document: IJ.Journal) returns (r: Outcome, next: IJ.Journal)
      requires Running(document) && document.phase == IJ.Staged
      modifies this`w, this`live, this`history
      ensures r == Ok ==> IJ.SameTransaction(document, next)
      ensures ServiceUntouched()
      ensures Valid() && old(history) <= history
      ensures r == Ok ==> Running(next) && next.phase == IJ.Swapped
      ensures r.Failed? ==> Justified(w, r.why)
      ensures calm && seen.guard == Effective(old(w).service.dir) && Flags(old(w)) == Registered(3) ==> r == Ok
    {
      next := document;
      if w.container.None? {
        return Failed(LayoutAmbiguous), next;
      }
      var staged := w.container.value.payload;
      if w.target == document.previous && staged == Bundle(document.candidate.app) {
        :- Observe();
        var _ :- CaptureDormantGuard(Some(Last(document.guards).before));
        if !LayoutIs(document.previous, document.candidate.app) {
          return Failed(LayoutAmbiguous), next;
        }
        :- Commit(w.(target := staged.app,
                     container := Some(w.container.value.(payload := Bundle(w.target))),
                     swaps := w.swaps + 1));
      } else if !(w.target == document.candidate.app && staged == Bundle(document.previous)) {
        return Failed(LayoutAmbiguous), next;
      }
      if !LayoutIs(document.candidate.app, document.previous) {
        return Failed(LayoutAmbiguous), next;
      }
      :- Observe();
      next := IJ.Advance(document, IJ.Swapped);
      IJ.AdvanceIsPermitted(p, document, IJ.Swapped, Effective(w.service.dir));
      :- WriteJournal(next);
      return Ok, next;
    }

    method ResumeSwapped(document: IJ.Journal) returns (r: Outcome)
      requires Running(document) && document.phase == IJ.Swapped
      modifies this`w, this`live, this`history
      ensures r == Ok ==> w.journal.Some? && IJ.SameTransaction(document, w.journal.value)
      ensures ServiceUntouched()
      ensures Valid() && old(history) <= history
      ensures r == Ok ==> InstallationProven(w)
      ensures r.Failed? ==> Justified(w, r.why)
      ensures calm && seen.guard == Effective(old(w).service.dir) && Flags(old(w)) == Registered(3) ==> r == Ok
    {
      if !LayoutIs(document.candidate.app, document.previous) {
        return Failed(LayoutAmbiguous);
      }
      :- Observe();
      var after :- CaptureDormantGuard(Some(Last(document.guards).before));
      if !LayoutIs(document.candidate.app, document.previous) {
        return Failed(LayoutAmbiguous);
      }
      var final := IJ.Complete(document, after);
      IJ.CompleteIsPermitted(p, document, after);
      :- WriteJournal(final);
      r := VerifyTerminal(final);
    }

    /** The two identities `_require_layout` compares. */
    predicate LayoutIs(target: App, staged: App)
      reads this
    {
      w.target == target && w.container.Some? && w.container.value.payload == Bundle(staged)
    }

    /** `_verify_terminal`. */
    method VerifyTerminal(document: IJ.Journal) returns (r: Outcome)
      requires Held(document) && document.phase == IJ.Installed
      ensures r == Ok ==> InstallationProven(w)
      ensures r.Failed? ==> r.why == Refused
      ensures calm ==> r == Ok
    {
      r := Observe();
      if r != Ok { return; }
      if !LayoutIs(document.candidate.app, document.previous) {
        return Failed(LayoutAmbiguous);
      }
      for i := 0 to |document.guards|
      {
        assert IJ.SegmentOk(document.guards, i);
        if document.guards[i].after != Some(document.guards[i].before) {
          return Failed(GuardChanged);
        }
      }
      return Ok;
    }

    // --------------------------------------------------------------- ServiceEventStore

    /** A published service directory with nothing pending, as `load` leaves it. */
    predicate Settled()
      reads this
    {
      w.service.Published? && w.service.dir.pending.Absent? && w.service.dir.dnsPending.Absent?
    }

    /** `load`: finish or discard whatever an interrupted write left behind. */
    method LoadService() returns (r: Outcome, loaded: Option<ServiceDir>)
      requires Valid()
      modifies this`w, this`live, this`history
      ensures InstallationUntouched()
      ensures Valid() && old(history) <= history
      ensures r.Failed? ==> Justified(w, r.why)
      ensures r == Ok && loaded.None? ==> w.service.NoService?
      ensures r == Ok && loaded.Some? ==>
                Settled() && w.service == Published(loaded.value)
      ensures calm ==> (r == Ok <==> Loadable(old(w).service))
      ensures calm && r == Ok ==> w == LoadedWorld(old(w))
    {
      loaded := None;
      match w.service {
        case NoService =>
          return Ok, None;
        case Assembling(assembly) =>
          var readable: bool := *;
          if !assembly.Whole? || !(readable || calm) {
            :- Commit(w.(service := NoService));
            return Ok, None;
          }
          :- Commit(w.(service := Published(assembly.doc)));
        case Published(_) =>
      }
      :- SettleDirectory();
      return Ok, Some(w.service.dir);
    }

    /** The second half of `load`: the pending continuation or event of a published directory. */
    method SettleDirectory() returns (r: Outcome)
      requires Valid() && w.service.Published?
      modifies this`w, this`live, this`history
      ensures InstallationUntouched()
      ensures Valid() && old(history) <= history
      ensures r.Failed? ==> Justified(w, r.why)
      ensures r == Ok ==> Settled()
      ensures calm ==> (r == Ok <==> !old(w).service.dir.dnsPending.Torn?)
      ensures calm && r == Ok ==> w == old(w).(service := Published(SettledDir(old(w).service.dir)))
    {
      r := Observe();
      if r != Ok { return; }
      var d := w.service.dir;
      if d.dnsPending.Torn? {
        return Failed(TornContinuation);
      }
      if d.dnsPending.Whole? {
        :- Commit(w.(service := Published(d.(dns := Some(d.dnsPending.doc), dnsPending := Absent))));
      } else if d.pending.Torn? {
        :- Commit(w.(service := Published(d.(pending := Absent))));
      } else if d.pending.Whole? {
        :- Commit(w.(service := Published(d.(events := d.events + [d.pending.doc], pending := Absent))));
      }
      return Ok;
    }

    /** `append`: the guard must repeat the effective guard; pending file, exclusive rename. */
    method AppendEvent(guard: Guard) returns (r: Outcome)
      requires Valid() && Settled() && |w.service.dir.events| < PHASES
      requires Flags(w) == Registered(|w.service.dir.events|)
      requires TEARDOWN <= |w.service.dir.events| ==> InstallationProven(w)
      modifies this`w, this`live, this`history
      ensures InstallationUntouched()
      ensures Valid() && old(history) <= history
      ensures r.Failed? ==> Justified(w, r.why)
      ensures r == Ok ==>
                w == old(w).(service := Published(old(w.service.dir).(events := old(w.service.dir).events + [guard])))
      ensures calm ==> (r == Ok <==> guard == Effective(old(w).service.dir))
    {
      var d := w.service.dir;
      if guard != Effective(d) {
        return Failed(GuardChanged);
      }
      :- Observe();
      var trouble := Trouble();
      if trouble {
        var _ := Commit(w.(service := Published(d.(pending := Torn))));
        return Failed(Crashed);
      }
      :- Commit(w.(service := Published(d.(pending := Whole(guard)))));
      :- Commit(w.(service := Published(d.(events := d.events + [guard]))));
      return Ok;
    }

    /** A guard capture that must repeat the effective guard twice. */
    method CaptureGuard(expected: Guard) returns (r: Outcome, guard: Guard)
      ensures r == Ok ==> guard == expected
      ensures r.Failed? ==> Justified(w, r.why)
      ensures calm ==> (r == Ok <==> expected == seen.guard)
    {
      guard := SeenGuard();
      :- Observe();
      if guard != expected {
        return Failed(GuardChanged), guard;
      }
      return Ok, guard;
    }

    // --------------------------------------------------------- CurrentServiceTransaction

    /** The registration command of the next event, and the pair it must leave. */
    method ActOnHost() returns (r: Outcome)
      requires Valid() && Settled() && |w.service.dir.events| in {1, 2, 4, 5}
      requires |w.service.dir.events| < TEARDOWN ==> w.target == w.service.dir.intent.previous
      requires TEARDOWN <= |w.service.dir.events| ==> InstallationProven(w)
      modifies this`w, this`live, this`history
      ensures InstallationUntouched()
      ensures Valid() && old(history) <= history && w.service == old(w.service)
      ensures r.Failed? ==> Justified(w, r.why)
      ensures r == Ok ==> Flags(w) == Registered(|w.service.dir.events|)
      ensures calm ==> r == Ok
    {
      var n := |w.service.dir.events|;
      var acted := Act(n, Flags(w));
      var trouble := Trouble();
      if trouble {
        return Failed(Refused);
      }
      :- Commit(w.(proxy := acted.0, authority := acted.1));
      :- Observe();
      if Flags(w) != Registered(n) {
        return Failed(RegistrationInvalid);
      }
      return Ok;
    }

    /** `_step`: act on the host, check the reported pair, then log the event. The action
        may take effect and still be reported as a failure. */
    method ServiceTransition() returns (r: Outcome)
      requires Valid() && Settled() && |w.service.dir.events| in {1, 2, 4, 5}
      requires |w.service.dir.events| < TEARDOWN ==> w.target == w.service.dir.intent.previous
      requires TEARDOWN <= |w.service.dir.events| ==> InstallationProven(w)
      modifies this`w, this`live, this`history
      ensures InstallationUntouched()
      ensures Valid() && old(history) <= history
      ensures r.Failed? ==> Justified(w, r.why)
      ensures r == Ok ==>
                && w.service == Published(old(w.service.dir).(
                     events := old(w.service.dir).events + [Effective(old(w.service.dir))]))
                && Flags(w) == Registered(|old(w.service.dir).events|)
                && w.target == old(w.target) && w.journal == old(w.journal) && w.journalPending == old(w.journalPending)
      ensures calm ==> (r == Ok <==> Effective(old(w).service.dir) == seen.guard)
    {
      var d := w.service.dir;
      :- Observe();
      var before :- CaptureGuard(Effective(d));
      :- ActOnHost();
      var after :- CaptureGuard(before);
      r := AppendEvent(after);
    }

    /** `decommission`. */
    method DecommissionServices() returns (r: Outcome)
      requires Valid()
      modifies this`w, this`live, this`history
      ensures InstallationUntouched()
      ensures Valid() && old(history) <= history
      ensures r.Failed? ==> Justified(w, r.why)
      ensures r == Ok ==> Decommissioned(w)
      ensures calm ==> (r == Ok <==> Loadable(old(w).service) && TakesDown(p, LoadedWorld(old(w)), seen))
    {
      var _ :- LoadService();
      r := DecommissionLoaded();
    }

    /** `decommission` once the transaction is loaded. */
    method DecommissionLoaded() returns (r: Outcome)
      requires Valid() && (w.service.NoService? || Settled())
      modifies this`w, this`live, this`history
      ensures InstallationUntouched()
      ensures Valid() && old(history) <= history
      ensures r.Failed? ==> Justified(w, r.why)
      ensures r == Ok ==> Decommissioned(w)
      ensures calm ==> (r == Ok <==> TakesDown(p, old(w), seen))
    {
      var candidate := SeenCandidate();
      :- Observe();
      if candidate.app.build != p.build || candidate.app.version != p.version || !AdmitsPredecessor(p, w.target) {
        return Failed(IdentityDrift);
      }
      if w.service.NoService? {
        :- CreateService(candidate);
      } else if w.service.dir.intent.candidate != candidate || w.service.dir.intent.previous != w.target {
        return Failed(IdentityDrift);
      }
      r := TearDown();
    }

    /** The remaining teardown phases, in order. */
    method TearDown() returns (r: Outcome)
      requires Valid() && Settled() && w.target == w.service.dir.intent.previous
      modifies this`w, this`live, this`history
      ensures InstallationUntouched()
      ensures Valid() && old(history) <= history
      ensures r.Failed? ==> Justified(w, r.why)
      ensures r == Ok ==> AtTeardown(w) && Flags(w) == (false, false)
                          && w.service.dir.intent == old(w.service.dir.intent)
      ensures calm ==>
                (r == Ok <==> |old(w).service.dir.events| <= TEARDOWN && Effective(old(w).service.dir) == seen.guard)
    {
      r := UnregisterServices();
      if r != Ok { return; }
      r := LogDecommissioned();
    }

    /** Proxy first, then authority, as far as it is still due. */
    method UnregisterServices() returns (r: Outcome)
      requires Valid() && Settled() && w.target == w.service.dir.intent.previous
      modifies this`w, this`live, this`history
      ensures InstallationUntouched()
      ensures Valid() && old(history) <= history
      ensures r.Failed? ==> Justified(w, r.why)
      ensures r == Ok ==> && Settled() && w.service.dir.intent == old(w.service.dir.intent)
                          && 3 <= |w.service.dir.events| && w.service.dir.dns == old(w.service.dir.dns)
                          && Effective(w.service.dir) == Effective(old(w.service.dir))
                          && (|old(w).service.dir.events| <= TEARDOWN <==> |w.service.dir.events| <= TEARDOWN)
      ensures calm && Effective(old(w).service.dir) == seen.guard ==> r == Ok
    {
      r := Ok;
      if |w.service.dir.events| == 1 {
        r := ServiceTransition();
        if r != Ok { return; }
      }
      if |w.service.dir.events| == 2 {
        r := ServiceTransition();
      }
    }

    method LogDecommissioned() returns (r: Outcome)
      requires Valid() && Settled()
      modifies this`w, this`live, this`history
      ensures InstallationUntouched()
      ensures Valid() && old(history) <= history
      ensures r.Failed? ==> Justified(w, r.why)
      ensures r == Ok ==> AtTeardown(w) && Flags(w) == (false, false)
                          && w.service.dir.intent == old(w.service.dir.intent)
      ensures calm && 3 <= |old(w).service.dir.events| <= TEARDOWN && Flags(old(w)) == (false, false) ==>
                (r == Ok <==> Effective(old(w).service.dir) == seen.guard)
      ensures calm && r == Ok ==> |old(w).service.dir.events| <= TEARDOWN && Effective(old(w).service.dir) == seen.guard
    {
      var proven := false;
      if |w.service.dir.events| == 3 {
        var guard :- ProveDecommissioned();
        proven := true;
        :- AppendEvent(guard);
      }
      if |w.service.dir.events| != TEARDOWN {
        return Failed(NotReady);
      }
      if !proven {
        var _ :- ProveDecommissioned();
      }
      return Ok;
    }

    /** `preflight` and `create`: observe, assemble under the pending name, publish. */
    method CreateService(candidate: Candidate) returns (r: Outcome)
      requires Valid() && w.service.NoService?
      requires candidate.app.build == p.build && candidate.app.version == p.version && AdmitsPredecessor(p, w.target)
      modifies this`w, this`live, this`history
      ensures InstallationUntouched()
      ensures Valid() && old(history) <= history
      ensures r.Failed? ==> Justified(w, r.why)
      ensures r == Ok ==>
                && Settled() && FreshDir(p, w.service.dir, w.target)
                && w.service.dir.intent.candidate == candidate
                && w == old(w).(service := w.service)
      ensures calm ==> (r == Ok <==> ValidGuard(seen.guard))
      ensures calm && r == Ok ==> Effective(w.service.dir) == seen.guard
    {
      if Flags(w) != (true, true) {
        return Failed(RegistrationInvalid);
      }
      var guard := SeenGuard();
      var environment: string := *;
      var id: string := *;
      :- Observe();
      if !ValidGuard(guard) {
        return Failed(Refused);
      }
      :- Commit(w.(service := Assembling(Torn)));
      var dir := ServiceDir(Intent(candidate, w.target, environment, id), [guard], Absent, None, Absent);
      :- Commit(w.(service := Assembling(Whole(dir))));
      :- Commit(w.(service := Published(dir)));
      return Ok;
    }

    /** `_prove_decommissioned`: both services absent under the effective guard. */
    method ProveDecommissioned() returns (r: Outcome, guard: Guard)
      requires Valid() && w.service.Published?
      ensures r == Ok ==> Flags(w) == (false, false) && guard == Effective(w.service.dir)
      ensures r.Failed? ==> Justified(w, r.why)
      ensures calm ==> (r == Ok <==> Effective(w.service.dir) == seen.guard && Flags(w) == (false, false))
    {
      guard :- CaptureGuard(Effective(w.service.dir));
      if Flags(w) != (false, false) {
        return Failed(RegistrationInvalid), guard;
      }
      guard :- CaptureGuard(guard);
      return Ok, guard;
    }

    /** `continue_after_dns_change`. */
    method ContinueAfterDns() returns (r: Outcome)
      requires Valid()
      modifies this`w, this`live, this`history
      ensures InstallationUntouched()
      ensures Valid() && old(history) <= history
      ensures r.Failed? ==> Justified(w, r.why)
      ensures r == Ok ==> AtTeardown(w) && w.service.dir.dns.Some? && w.journal.None?
      ensures calm ==> (r == Ok <==> Loadable(old(w).service) && TakesContinuation(LoadedWorld(old(w)), seen))
    {
      var loaded :- LoadService();
      if loaded.None? {
        return Failed(JournalMissing);
      }
      r := ContinueLoaded();
    }

    /** `continue_after_dns_change` once the transaction is loaded. */
    method ContinueLoaded() returns (r: Outcome)
      requires Valid() && Settled()
      modifies this`w, this`live, this`history
      ensures InstallationUntouched()
      ensures Valid() && old(history) <= history
      ensures r.Failed? ==> Justified(w, r.why)
      ensures r == Ok ==> AtTeardown(w) && w.service.dir.dns.Some? && w.journal.None?
      ensures calm ==> (r == Ok <==> TakesContinuation(old(w), seen))
    {
      var d := w.service.dir;
      if |d.events| != TEARDOWN {
        return Failed(NotReady);
      }
      if w.journal.Some? || !w.journalPending.Absent? {
        return Failed(JournalExists);
      }
      :- Observe();
      if !AdmitsPredecessor(p, w.target) || d.intent.previous != w.target {
        return Failed(IdentityDrift);
      }
      var after := SeenGuard();
      if Flags(w) != (false, false) {
        return Failed(RegistrationInvalid);
      }
      if !ValidGuard(after) || !DnsOnlyChange(d.events[0], after) || d.events[0].processes == [] {
        return Failed(GuardChanged);
      }
      if d.dns.Some? {
        if d.dns.value != after {
          return Failed(GuardChanged);
        }
        return Ok;
      }
      r := RecordContinuation(after);
    }

    /** The two durable steps of a continuation. */
    method RecordContinuation(after: Guard) returns (r: Outcome)
      requires Valid() && AtTeardown(w) && w.service.dir.dns.None? && w.journal.None? && w.journalPending.Absent?
      requires Flags(w) == (false, false) && w.service.dir.events[0].processes != []
      requires ValidGuard(after) && DnsOnlyChange(w.service.dir.events[0], after)
      modifies this`w, this`live, this`history
      ensures InstallationUntouched()
      ensures Valid() && old(history) <= history
      ensures r.Failed? ==> r.why == Crashed
      ensures r == Ok ==> AtTeardown(w) && w.service.dir.dns == Some(after) && w.journal.None?
      ensures calm ==> r == Ok
    {
      var d := w.service.dir;
      var trouble := Trouble();
      if trouble {
        var _ := Commit(w.(service := Published(d.(dnsPending := Torn))));
        return Failed(Crashed);
      }
      :- Commit(w.(service := Published(d.(dnsPending := Whole(after)))));
      :- Commit(w.(service := Published(d.(dns := Some(after)))));
      return Ok;
    }

    /** `_require_installed_candidate`: the terminal, unpended journal binds the intent. */
    method RequireInstalledCandidate() returns (r: Outcome)
      requires Valid() && w.service.Published?
      ensures r == Ok ==> InstallationProven(w)
      ensures r.Failed? ==> r.why == Refused || !InstallationProven(w)
      ensures r.Failed? ==> Justified(w, r.why)
      ensures calm ==> (r == Ok <==> InstallationProven(w))
    {
      if w.target != w.service.dir.intent.candidate.app {
        return Failed(IdentityDrift);
      }
      :- Observe();
      if !w.journalPending.Absent? {
        return Failed(JournalPendingExists);
      }
      if w.journal.None? {
        return Failed(JournalMissing);
      }
      if w.journal.value.phase != IJ.Installed || !BoundTo(w.journal.value, w.service.dir.intent) {
        return Failed(EvidenceInvalid);
      }
      return Ok;
    }

    /** `recommission`. */
    method RecommissionServices() returns (r: Outcome)
      requires Valid()
      modifies this`w, this`live, this`history
      ensures InstallationUntouched()
      ensures Valid() && old(history) <= history
      ensures r.Failed? ==> Justified(w, r.why)
      ensures r == Ok ==> Recommissioned(w)
      ensures calm ==> (r == Ok <==> Loadable(old(w).service) && BringsUp(LoadedWorld(old(w)), seen))
    {
      var loaded :- LoadService();
      if loaded.None? {
        return Failed(JournalMissing);
      }
      r := RecommissionLoaded();
    }

    /** `recommission` once the transaction is loaded. */
    method RecommissionLoaded() returns (r: Outcome)
      requires Valid() && Settled()
      modifies this`w, this`live, this`history
      ensures InstallationUntouched()
      ensures Valid() && old(history) <= history
      ensures r.Failed? ==> Justified(w, r.why)
      ensures r == Ok ==> Recommissioned(w)
      ensures calm ==> (r == Ok <==> BringsUp(old(w), seen))
    {
      var candidate := SeenCandidate();
      if w.service.dir.intent.candidate != candidate {
        return Failed(IdentityDrift);
      }
      :- RequireInstalledCandidate();
      if |w.service.dir.events| < TEARDOWN {
        return Failed(NotReady);
      }
      r := BringUp();
    }

    /** The remaining phases that register the services again, in order. */
    method BringUp() returns (r: Outcome)
      requires Valid() && Settled() && InstallationProven(w) && TEARDOWN <= |w.service.dir.events|
      modifies this`w, this`live, this`history
      ensures InstallationUntouched()
      ensures Valid() && old(history) <= history
      ensures r.Failed? ==> Justified(w, r.why)
      ensures r == Ok ==> Recommissioned(w)
      ensures calm ==> (r == Ok <==> Effective(old(w).service.dir) == seen.guard)
    {
      if |w.service.dir.events| == 4 {
        :- ServiceTransition();
      }
      if |w.service.dir.events| == 5 {
        :- ServiceTransition();
      }
      r := LogRecommissioned();
    }

    method LogRecommissioned() returns (r: Outcome)
      requires Valid() && Settled() && InstallationProven(w) && 6 <= |w.service.dir.events|
      modifies this`w, this`live, this`history
      ensures InstallationUntouched()
      ensures Valid() && old(history) <= history
      ensures r.Failed? ==> Justified(w, r.why)
      ensures r == Ok ==> Recommissioned(w)
      ensures calm && Effective(old(w).service.dir) == seen.guard && Flags(old(w)) == (true, true) ==> r == Ok
      ensures calm && r == Ok ==> Effective(old(w).service.dir) == seen.guard
    {
      var proven := false;
      if |w.service.dir.events| == 6 {
        var guard :- ProveRecommissioned();
        proven := true;
        :- AppendEvent(guard);
      }
      if !proven {
        var _ :- ProveRecommissioned();
      }
      return Ok;
    }

    /** `_prove_recommissioned`: both services enabled under the effective guard. */
    method ProveRecommissioned() returns (r: Outcome, guard: Guard)
      requires Valid() && w.service.Published?
      ensures r == Ok ==> Flags(w) == (true, true) && guard == Effective(w.service.dir)
      ensures r.Failed? ==> Justified(w, r.why)
      ensures calm ==> (r == Ok <==> Effective(w.service.dir) == seen.guard && Flags(w) == (true, true))
    {
      guard :- CaptureGuard(Effective(w.service.dir));
      if Flags(w) != (true, true) {
        return Failed(RegistrationInvalid), guard;
      }
      guard :- CaptureGuard(guard);
      return Ok, guard;
    }

    /** `recover`, first half: which way to continue. The lock is released afterwards, so
        the continuation is a separate operation. It is never ambiguous. */
    method ChooseRecovery() returns (r: Outcome, choice: Choice)
      requires Valid()
      modifies this`w, this`live, this`history
      ensures InstallationUntouched()
      ensures Valid() && old(history) <= history
      ensures r.Failed? ==> Justified(w, r.why)
      ensures r == Ok ==>
                && w.service.Published?
                && (choice.ChooseDecommission? <==> w.swaps == 0)
                && (choice.ChooseDecommission? ==> |w.service.dir.events| <= TEARDOWN)
                && (choice.ChooseRecommission? ==> TEARDOWN <= |w.service.dir.events|)
      ensures calm ==> (r == Ok <==> Loadable(old(w).service) && AfterLoad(old(w).service).Published?)
      ensures calm && r == Ok ==> w == LoadedWorld(old(w))
    {
      choice := ChooseDecommission;
      var loaded :- LoadService();
      if loaded.None? {
        return Failed(JournalMissing), choice;
      }
      :- Observe();
      var d := loaded.value;
      if w.target == d.intent.previous && |d.events| <= TEARDOWN {
        return Ok, ChooseDecommission;
      }
      if w.target == d.intent.candidate.app && TEARDOWN <= |d.events| {
        return Ok, ChooseRecommission;
      }
      return Failed(RecoveryAmbiguous), choice;
    }

    // ---------------------------------------------------------------------- whole runs

    /** One operation by a process of its own: success means what was asked for, failure
        says why, and either transaction leaves the other's files alone. Used-up guard
        segments stay used up. */
    method Perform(op: Op) returns (r: Outcome)
      requires Idle()
      modifies this`w, this`live, this`history
      ensures Idle() && old(history) <= history
      ensures r == Ok ==> Achieved(op, w)
      ensures if op.Install? || op.RecoverInstall? then ServiceUntouched() else InstallationUntouched()
      ensures r.Failed? ==> Justified(w, r.why)
      ensures old(Exhausted(w)) ==> Exhausted(w)
      ensures calm ==> (r == Ok <==> Doable(p, op, old(w), seen))
    {
      ghost var start := |history| - 1;
      r := Operate(op);
      Exit();
      if old(Exhausted(w)) {
        assert history[start] == old(Last(history));
        ExhaustionIsFinal(p, history, start, |history| - 1);
      }
    }

    method Operate(op: Op) returns (r: Outcome)
      requires Idle()
      modifies this`w, this`live, this`history
      ensures Valid() && old(history) <= history
      ensures r == Ok ==> Achieved(op, w)
      ensures if op.Install? || op.RecoverInstall? then ServiceUntouched() else InstallationUntouched()
      ensures r.Failed? ==> Justified(w, r.why)
      ensures calm ==> (r == Ok <==> Doable(p, op, old(w), seen))
    {
      match op {
        case Decommission => r := DecommissionServices();
        case ContinueAfterDnsChange => r := ContinueAfterDns();
        case Install(candidate, previous, id) => r := InstallCandidate(candidate, previous, id);
        case RecoverInstall => r := RecoverInstallation();
        case Recommission => r := RecommissionServices();
        case RecoverService => r := RecoverServices();
      }
    }

    /** `recover` of the service transaction, both halves. */
    method RecoverServices() returns (r: Outcome)
      requires Valid()
      modifies this`w, this`live, this`history
      ensures InstallationUntouched()
      ensures Valid() && old(history) <= history
      ensures r.Failed? ==> Justified(w, r.why)
      ensures r == Ok ==> Achieved(RecoverService, w)
      ensures calm ==> (r == Ok <==> Doable(p, RecoverService, old(w), seen))
    {
      LoadTwice(p, w);
      var choice :- ChooseRecovery();
      if choice.ChooseDecommission? {
        r := DecommissionServices();
      } else {
        r := RecommissionServices();
      }
    }

    /** Any sequence of operations, each crashing or refusing wherever it likes: every
        world on the way satisfies the invariant, a bundle is exchanged at most once, only
        while the log holds exactly its four teardown events, and used-up guard segments are
        final. */
    method PerformAll(ops: seq<Op>)
      requires Idle()
      modifies this`w, this`live, this`history
      ensures Idle() && old(history) <= history
      ensures old(Exhausted(w)) ==> Exhausted(w)
      ensures forall i | 0 <= i < |history| :: Safe(p, history[i].w)
      ensures forall i | 0 <= i < |history| - 1 :: SafeStep(history[i].w, history[i + 1].w)
    {
      for k := 0 to |ops|
        invariant Idle() && old(history) <= history
        invariant old(Exhausted(w)) ==> Exhausted(w)
      {
        var _ := Perform(ops[k]);
      }
      LifeIsSafe(p, history);
    }
  }
}
