/** Every step of the composed protocol keeps the invariant, and what that means for
    whole runs with crashes anywhere. */
module MaintenanceProof {
  import opened Common
  import opened Identity
  import opened Maintenance
  import IJ = InstallJournal

  lemma InitEstablishesInv(p: Profile, w: World)
    requires Init(w)
    ensures Inv(p, w)
  {
  }

  lemma AssemblyKeepsInv(p: Profile, w: World, w': World)
    requires ValidProfile(p) && Inv(p, w)
    requires BeginsService(p, w, w') || AssemblesService(p, w, w') || DiscardsAssembly(w, w') || PublishesService(w, w')
    ensures Inv(p, w')
  {
  }

  lemma ActionKeepsInv(p: Profile, w: World, w': World)
    requires ValidProfile(p) && Inv(p, w) && ActsOnHost(w, w')
    ensures Inv(p, w')
  {
  }

  /** A step that changes nothing of the service directory but its pending event. */
  predicate OnlyPendingChanges(w: World, w': World, slot: Slot<Guard>)
  {
    w.service.Published? && w' == w.(service := Published(w.service.dir.(pending := slot)))
  }

  lemma PendingKeepsGuardInv(d: ServiceDir, slot: Slot<Guard>)
    requires GuardInv(d)
    requires slot.Absent? || (|d.events| < PHASES && d.dnsPending.Absent?)
    requires slot.Whole? ==> slot.doc == Effective(d)
    ensures GuardInv(d.(pending := slot))
  {
  }

  /** The installation does not look at a pending event, except to see that there is none. */
  lemma PendingKeepsInstallation(p: Profile, w: World, w': World, slot: Slot<Guard>)
    requires Inv(p, w) && OnlyPendingChanges(w, w', slot) && (slot.Absent? || w.journalPending.Absent?)
    requires w.service.dir.events != [] && w'.service.dir.events == w.service.dir.events
    ensures JournalInv(p, w') && LayoutInv(w') && InstallationProven(w') == InstallationProven(w)
  {
    assert Effective(w'.service.dir) == Effective(w.service.dir);
  }

  lemma EventWriteKeepsInv(p: Profile, w: World, w': World)
    requires ValidProfile(p) && Inv(p, w) && WritesEvent(w, w')
    ensures Inv(p, w')
  {
    var slot := w'.service.dir.pending;
    PendingKeepsGuardInv(w.service.dir, slot);
    PendingKeepsInstallation(p, w, w', slot);
  }

  lemma EventDiscardKeepsInv(p: Profile, w: World, w': World)
    requires ValidProfile(p) && Inv(p, w) && DiscardsEvent(w, w')
    ensures Inv(p, w')
  {
    PendingKeepsGuardInv(w.service.dir, Absent);
    PendingKeepsInstallation(p, w, w', Absent);
  }

  lemma EventPublicationKeepsInv(p: Profile, w: World, w': World)
    requires ValidProfile(p) && Inv(p, w) && PublishesEvent(w, w')
    ensures Inv(p, w')
  {
  }

  lemma ContinuationKeepsInv(p: Profile, w: World, w': World)
    requires ValidProfile(p) && Inv(p, w)
    requires WritesContinuation(w, w') || PublishesContinuation(w, w')
    ensures Inv(p, w')
  {
  }

  lemma JournalWriteKeepsInv(p: Profile, w: World, w': World)
    requires ValidProfile(p) && Inv(p, w) && WritesJournal(p, w, w')
    ensures Inv(p, w')
  {
    if w'.journalPending.Whole? && w.journal.Some? {
      IJ.PermittedKeepsLineage(p, w.journal.value, w'.journalPending.doc, Effective(w.service.dir));
    }
  }

  lemma JournalPublicationKeepsInv(p: Profile, w: World, w': World)
    requires ValidProfile(p) && Inv(p, w) && PublishesJournal(w, w')
    ensures Inv(p, w')
  {
    if w.journal.Some? {
      IJ.PermittedKeepsLineage(p, w.journal.value, w.journalPending.doc, Effective(w.service.dir));
    }
  }

  lemma StagingKeepsInv(p: Profile, w: World, w': World)
    requires ValidProfile(p) && Inv(p, w)
    requires CreatesContainer(w, w') || ChangesPartial(w, w') || PublishesPayload(w, w')
    ensures Inv(p, w')
  {
  }

  lemma SwapKeepsInv(p: Profile, w: World, w': World)
    requires ValidProfile(p) && Inv(p, w) && SwapsBundles(w, w')
    ensures Inv(p, w')
  {
  }

  lemma StepKeepsInv(p: Profile, w: World, w': World)
    requires ValidProfile(p) && Inv(p, w) && Step(p, w, w')
    ensures Inv(p, w')
  {
    if ServiceStep(p, w, w') {
      if ActsOnHost(w, w') {
        ActionKeepsInv(p, w, w');
      } else if WritesEvent(w, w') {
        EventWriteKeepsInv(p, w, w');
      } else if DiscardsEvent(w, w') {
        EventDiscardKeepsInv(p, w, w');
      } else if PublishesEvent(w, w') {
        EventPublicationKeepsInv(p, w, w');
      } else if WritesContinuation(w, w') || PublishesContinuation(w, w') {
        ContinuationKeepsInv(p, w, w');
      } else {
        AssemblyKeepsInv(p, w, w');
      }
    } else if WritesJournal(p, w, w') {
      JournalWriteKeepsInv(p, w, w');
    } else if PublishesJournal(w, w') {
      JournalPublicationKeepsInv(p, w, w');
    } else if SwapsBundles(w, w') {
      SwapKeepsInv(p, w, w');
    } else {
      StagingKeepsInv(p, w, w');
    }
  }

  // --------------------------------------------------------------------- whole runs

  /** Every world of every run satisfies the invariant. */
  lemma {:induction false} RunInvariant(p: Profile, run: seq<World>, i: nat)
    requires ValidProfile(p) && IsRun(p, run) && i < |run|
    ensures Inv(p, run[i])
  {
    if i == 0 {
      InitEstablishesInv(p, run[0]);
    } else {
      RunInvariant(p, run, i - 1);
      assert StepAt(p, run, i - 1);
      StepKeepsInv(p, run[i - 1], run[i]);
    }
  }

  lemma RunFront(p: Profile, run: seq<World>)
    requires IsRun(p, run) && |run| > 1
    ensures IsRun(p, run[..|run| - 1]) && Last(run[..|run| - 1]) == run[|run| - 2]
  {
    var front := run[..|run| - 1];
    forall i | 0 <= i < |front| - 1 ensures StepAt(p, front, i) {
      assert StepAt(p, run, i);
    }
  }

  /** The log a world shows: no events before the service directory is published. */
  function Log(w: World): seq<Guard>
  {
    if w.service.Published? then w.service.dir.events else []
  }

  /** Composed safety. A swap happens only while the log holds exactly its four teardown
      events and both services are unregistered; a log longer than that, or a service
      registered again, means the install journal is terminal, binds the same upgrade, and
      the target is the candidate. */
  lemma ComposedSafety(p: Profile, run: seq<World>, i: nat)
    requires ValidProfile(p) && IsRun(p, run) && i < |run|
    ensures |Log(run[i])| > TEARDOWN ==> InstallationProven(run[i])
    ensures |Log(run[i])| == TEARDOWN && Flags(run[i]) != (false, false) ==> InstallationProven(run[i])
    ensures i + 1 < |run| && run[i].target != run[i + 1].target ==>
              && |Log(run[i])| == |Log(run[i + 1])| == TEARDOWN
              && Flags(run[i]) == (false, false)
              && run[i].journal.Some? && run[i].journal.value.phase == IJ.Staged
              && run[i].target == run[i].service.dir.intent.previous
              && run[i + 1].target == run[i].service.dir.intent.candidate.app
  {
    RunInvariant(p, run, i);
    ServicesFollowInstall(p, run[i]);
    if i + 1 < |run| {
      assert StepAt(p, run, i);
      SwapAtTeardown(p, run[i], run[i + 1]);
    }
  }

  lemma ServicesFollowInstall(p: Profile, w: World)
    requires Inv(p, w)
    ensures |Log(w)| > TEARDOWN ==> InstallationProven(w)
    ensures |Log(w)| == TEARDOWN && Flags(w) != (false, false) ==> InstallationProven(w)
  {
  }

  /** Only the swap changes the target, and it happens exactly at the teardown. */
  lemma SwapAtTeardown(p: Profile, w: World, w': World)
    requires Inv(p, w) && Step(p, w, w')
    ensures w.target != w'.target ==>
              && |Log(w)| == |Log(w')| == TEARDOWN
              && Flags(w) == (false, false)
              && w.journal.Some? && w.journal.value.phase == IJ.Staged
              && w.target == w.service.dir.intent.previous
              && w'.target == w.service.dir.intent.candidate.app
  {
    if ServiceStep(p, w, w') {
      ServiceStepLeavesInstallation(p, w, w');
    }
  }

  /** In every crash-reachable world the registrations are those of the last logged phase or
      of the next one, and exactly one direction of recovery applies. */
  lemma RegistrationTracksLog(p: Profile, run: seq<World>, i: nat)
    requires ValidProfile(p) && IsRun(p, run) && i < |run|
    ensures var n := |Log(run[i])|;
            Flags(run[i]) == Registered(n) || (n > 0 && Flags(run[i]) == Registered(n - 1))
    ensures run[i].service.Published? ==>
              var intent, n := run[i].service.dir.intent, |Log(run[i])|;
              (run[i].target == intent.previous && n <= TEARDOWN) !=
              (run[i].target == intent.candidate.app && TEARDOWN <= n)
  {
    RunInvariant(p, run, i);
    BundleSafety(p, run, i);
  }

  /** The proxy is never registered without the authority it answers to. */
  lemma ProxyNeedsAuthority(p: Profile, run: seq<World>, i: nat)
    requires ValidProfile(p) && IsRun(p, run) && i < |run|
    ensures run[i].proxy ==> run[i].authority
  {
    RegistrationTracksLog(p, run, i);
  }

  /** The bundle beside the target, if a whole one is staged. */
  function StagedBundle(w: World): Option<App>
  {
    if w.container.Some? && w.container.value.payload.Bundle? then Some(w.container.value.payload.app) else None
  }

  /** The pairs (target, staged) allowed by each phase of the install journal. */
  lemma LayoutByPhase(p: Profile, run: seq<World>, i: nat)
    requires ValidProfile(p) && IsRun(p, run) && i < |run| && run[i].journal.Some?
    ensures run[i].service.Published?
    ensures var intent := run[i].service.dir.intent;
            var pair := (run[i].target, StagedBundle(run[i]));
            var before := (intent.previous, Some(intent.candidate.app));
            var after := (intent.candidate.app, Some(intent.previous));
            match run[i].journal.value.phase
            case Prepared => pair == (intent.previous, None) || pair == before
            case Staged => pair == before || pair == after
            case Swapped => pair == after
            case Installed => pair == after
  {
    RunInvariant(p, run, i);
  }

  /** In every crash-reachable world the target is the previous or the candidate bundle,
      the swap was performed at most once, it has been performed exactly when the candidate
      is the target, and then the previous bundle is intact in the staging container. */
  lemma BundleSafety(p: Profile, run: seq<World>, i: nat)
    requires ValidProfile(p) && IsRun(p, run) && i < |run|
    ensures run[i].swaps <= 1
    ensures run[i].service.Published? ==>
              var intent := run[i].service.dir.intent;
              && intent.previous != intent.candidate.app
              && run[i].target == (if run[i].swaps == 0 then intent.previous else intent.candidate.app)
              && (run[i].swaps == 1 ==> run[i].container == Some(Container(NoPayload, Bundle(intent.previous))))
    ensures !run[i].service.Published? ==> run[i].swaps == 0 && run[i].target == run[0].target
  {
    RunInvariant(p, run, i);
    if !run[i].service.Published? {
      TargetBeforeService(p, run, i);
    }
  }

  lemma {:induction false} TargetBeforeService(p: Profile, run: seq<World>, i: nat)
    requires ValidProfile(p) && IsRun(p, run) && i < |run| && !run[i].service.Published?
    ensures run[i].target == run[0].target
  {
    if i > 0 {
      assert StepAt(p, run, i - 1);
      TargetBeforeService(p, run, i - 1);
    }
  }

  // ------------------------------------------------------- what no later step takes back

  /** What one step, and so any number of steps, can never undo. */
  predicate Extends(w: World, w': World)
  {
    && w.swaps <= w'.swaps
    && ServiceExtends(w, w')
    && (w.journal.Some? ==> w'.journal.Some? && w.journal.value.sequence <= w'.journal.value.sequence)
    && (InstallationProven(w) ==>
          && InstallationProven(w') && w'.journal == w.journal
          && w'.target == w.target && w'.container == w.container)
  }

  lemma StepExtends(p: Profile, w: World, w': World)
    requires ValidProfile(p) && Inv(p, w) && Step(p, w, w')
    ensures Extends(w, w')
  {
    if ServiceStep(p, w, w') {
      ServiceStepExtends(p, w, w');
    } else {
      InstallStepExtends(p, w, w');
    }
  }

  /** The service directory of the new world continues the old one. */
  predicate ServiceExtends(w: World, w': World)
  {
    w.service.Published? ==>
      && w'.service.Published?
      && w'.service.dir.intent == w.service.dir.intent
      && w.service.dir.events <= w'.service.dir.events
      && (w.service.dir.dns.Some? ==> w'.service.dir.dns == w.service.dir.dns)
  }

  lemma ServiceStepLeavesInstallation(p: Profile, w: World, w': World)
    requires ServiceStep(p, w, w')
    ensures w'.journal == w.journal && w'.journalPending == w.journalPending
    ensures w'.target == w.target && w'.container == w.container && w'.swaps == w.swaps
  {
  }

  lemma ServiceStepExtendsService(p: Profile, w: World, w': World)
    requires Inv(p, w) && ServiceStep(p, w, w')
    ensures ServiceExtends(w, w')
  {
  }

  lemma ServiceStepExtends(p: Profile, w: World, w': World)
    requires Inv(p, w) && ServiceStep(p, w, w')
    ensures Extends(w, w')
  {
    ServiceStepLeavesInstallation(p, w, w');
    ServiceStepExtendsService(p, w, w');
  }

  lemma ExtendsTransitive(a: World, b: World, c: World)
    requires Extends(a, b) && Extends(b, c)
    ensures Extends(a, c)
  {
  }

  lemma InstallStepExtends(p: Profile, w: World, w': World)
    requires Inv(p, w) && InstallStep(p, w, w')
    ensures Extends(w, w')
  {
    assert w'.service == w.service;
    assert !InstallationProven(w);
  }

  lemma RunStepExtends(p: Profile, run: seq<World>, i: nat)
    requires ValidProfile(p) && IsRun(p, run) && i + 1 < |run|
    ensures Extends(run[i], run[i + 1])
  {
    RunInvariant(p, run, i);
    assert StepAt(p, run, i);
    StepExtends(p, run[i], run[i + 1]);
  }

  /** The log is append-only, a recorded continuation is final, and once the installation
      is proven neither bundle nor journal ever changes again. */
  lemma {:induction false} NothingIsTakenBack(p: Profile, run: seq<World>, i: nat, j: nat)
    requires ValidProfile(p) && IsRun(p, run) && i <= j < |run|
    ensures Extends(run[i], run[j])
    decreases j - i
  {
    if i < j {
      NothingIsTakenBack(p, run, i, j - 1);
      RunStepExtends(p, run, j - 1);
      ExtendsTransitive(run[i], run[j - 1], run[j]);
    }
  }

  /** One bounded guard change over a whole run: any two guards ever logged are equal or
      differ in DNS alone; they differ only across the four-event boundary, and the change
      was recorded while no install journal existed. */
  lemma OneGuardChange(p: Profile, run: seq<World>, i: nat, a: nat, b: nat)
    requires ValidProfile(p) && IsRun(p, run) && i < |run| && a <= b < |Log(run[i])|
    ensures var log := Log(run[i]);
            || log[a] == log[b]
            || (a < TEARDOWN <= b && DnsOnlyChange(log[a], log[b]) && run[i].service.dir.dns == Some(log[b]))
  {
    RunInvariant(p, run, i);
  }

  lemma ContinuationPrecedesInstall(p: Profile, run: seq<World>, i: nat)
    requires ValidProfile(p) && IsRun(p, run) && i + 1 < |run|
    requires run[i].service.Published? && run[i + 1].service.Published?
    requires run[i].service.dir.dns != run[i + 1].service.dir.dns
    ensures |Log(run[i])| == |Log(run[i + 1])| == TEARDOWN
    ensures run[i].service.dir.dns.None?
    ensures run[i + 1].journal.None? && run[i + 1].journalPending.Absent? && run[i + 1].swaps == 0
  {
    RunInvariant(p, run, i);
    assert StepAt(p, run, i);
    ContinuationStep(p, run[i], run[i + 1]);
  }

  lemma ContinuationStep(p: Profile, w: World, w': World)
    requires Inv(p, w) && Step(p, w, w') && w.service.Published? && w'.service.Published?
    requires w.service.dir.dns != w'.service.dir.dns
    ensures PublishesContinuation(w, w')
    ensures w'.journal.None? && w'.journalPending.Absent? && w'.swaps == 0
  {
    assert !InstallStep(p, w, w') && !ActsOnHost(w, w');
  }

  /** A continuation, even a torn one, exists only over a guard with running processes. */
  predicate ContinuedOverProcesses(w: World)
  {
    w.service.Published? && (w.service.dir.dns.Some? || !w.service.dir.dnsPending.Absent?) ==>
      w.service.dir.events != [] && w.service.dir.events[0].processes != []
  }

  lemma ProcessesStep(p: Profile, w: World, w': World)
    requires Inv(p, w) && Step(p, w, w') && ContinuedOverProcesses(w)
    ensures ContinuedOverProcesses(w')
  {
    if ServiceStep(p, w, w') {
      ServiceStepExtendsService(p, w, w');
    } else {
      assert w'.service == w.service;
    }
  }

  lemma {:induction false} ContinuationNeedsProcesses(p: Profile, run: seq<World>, i: nat)
    requires ValidProfile(p) && IsRun(p, run) && i < |run|
    ensures ContinuedOverProcesses(run[i])
  {
    if i > 0 {
      ContinuationNeedsProcesses(p, run, i - 1);
      RunInvariant(p, run, i - 1);
      assert StepAt(p, run, i - 1);
      ProcessesStep(p, run[i - 1], run[i]);
    }
  }

  // ----------------------------------------------------------------- published revisions

  /** The install journals published along a run, in order. */
  function Revisions(run: seq<World>): seq<IJ.Journal>
  {
    if run == [] then []
    else
      var front := Revisions(run[..|run| - 1]);
      if Last(run).journal.Some? && (front == [] || Last(front) != Last(run).journal.value)
      then front + [Last(run).journal.value]
      else front
  }

  /** Along every run the published journals form one chain of valid, permitted revisions:
      the sequence is phase rank plus recovery segments, never above eleven, and all guard
      segments hold one guard. */
  lemma {:induction false} RunLineage(p: Profile, run: seq<World>)
    requires ValidProfile(p) && IsRun(p, run)
    ensures IJ.Chain(p, Revisions(run))
    ensures Last(run).journal.Some? <==> Revisions(run) != []
    ensures Revisions(run) != [] ==> Last(Revisions(run)) == Last(run).journal.value
    ensures |Revisions(run)| <= 11
    ensures Last(run).journal.Some? ==>
              var j := Last(run).journal.value;
              && j.sequence == IJ.Rank(j.phase) + |j.guards| - 1 <= 11
              && (forall i | 0 <= i < |j.guards| :: j.guards[i].before == j.guards[0].before)
              && (forall i | 0 <= i < |j.guards| && j.guards[i].after.Some? ::
                    j.guards[i].after.value == j.guards[0].before)
  {
    if |run| == 1 {
      assert run[..0] == [];
    } else {
      var front := run[..|run| - 1];
      RunFront(p, run);
      RunLineage(p, front);
      RunInvariant(p, run, |run| - 2);
      assert StepAt(p, run, |run| - 2);
      RevisionStep(p, run[|run| - 2], Last(run));
      if Last(run).journal != run[|run| - 2].journal {
        IJ.ChainGrows(p, Revisions(front), Last(run).journal.value);
      }
    }
    IJ.ChainLineage(p, Revisions(run));
    if Last(run).journal.Some? {
      RunInvariant(p, run, |run| - 1);
      JournalCounts(p, Last(run));
    }
  }

  /** The journal on disk counts its own revisions and holds one guard throughout. */
  lemma JournalCounts(p: Profile, w: World)
    requires Inv(p, w) && w.journal.Some?
    ensures var j := w.journal.value;
            && |j.guards| >= 1 && j.sequence == IJ.Rank(j.phase) + |j.guards| - 1 <= 11
            && (forall i | 0 <= i < |j.guards| :: j.guards[i].before == j.guards[0].before)
            && (forall i | 0 <= i < |j.guards| && j.guards[i].after.Some? ::
                  j.guards[i].after.value == j.guards[0].before)
  {
    var j := w.journal.value;
    forall i | 0 <= i < |j.guards| && j.guards[i].after.Some? ensures j.guards[i].after.value == j.guards[0].before {
      assert IJ.SegmentOk(j.guards, i);
    }
  }

  lemma RevisionStep(p: Profile, w: World, w': World)
    requires ValidProfile(p) && Inv(p, w) && Step(p, w, w')
    ensures w'.journal == w.journal
            || (w'.journal.Some? && IJ.Valid(p, w'.journal.value) && IJ.Permitted(w.journal, w'.journal.value))
  {
    if ServiceStep(p, w, w') {
      ServiceStepLeavesInstallation(p, w, w');
    }
  }

  // ------------------------------------------------------------------------ wedged states

  /** A torn install journal is refused, never discarded: no step is possible any more. */
  lemma TornJournalIsFinal(p: Profile, run: seq<World>, w': World)
    requires ValidProfile(p) && IsRun(p, run) && Last(run).journalPending.Torn?
    ensures !Step(p, Last(run), w')
  {
    RunInvariant(p, run, |run| - 1);
  }

  /** A torn DNS continuation is refused by every loader: no step is possible any more. */
  lemma TornContinuationIsFinal(p: Profile, run: seq<World>, w': World)
    requires ValidProfile(p) && IsRun(p, run)
    requires Last(run).service.Published? && Last(run).service.dir.dnsPending.Torn?
    ensures !Step(p, Last(run), w')
  {
    RunInvariant(p, run, |run| - 1);
  }

  /** A torn service event is the one torn file that costs nothing: discarding it is the
      only step, and it restores the log and everything else exactly. */
  lemma TornEventIsHarmless(p: Profile, run: seq<World>, w': World)
    requires ValidProfile(p) && IsRun(p, run)
    requires Last(run).service.Published? && Last(run).service.dir.pending.Torn?
    ensures Step(p, Last(run), w') <==>
            w' == Last(run).(service := Published(Last(run).service.dir.(pending := Absent)))
  {
    RunInvariant(p, run, |run| - 1);
    var w := Last(run);
    var restored := w.(service := Published(w.service.dir.(pending := Absent)));
    assert DiscardsEvent(w, restored);
  }
}
