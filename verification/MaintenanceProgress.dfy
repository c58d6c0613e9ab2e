/** Which crash-reachable worlds can still be finished by a restarted process: exactly those
    without a torn install journal, without a torn DNS continuation, and with a guard segment
    left for an unfinished installation. */
module MaintenanceProgress {
  import opened Common
  import opened Identity
  import opened Maintenance
  import opened MaintenanceProof
  import opened MaintenanceLife
  import IJ = InstallJournal

  /** The two torn files no reader discards. */
  predicate Wedged(w: World)
  {
    w.journalPending.Torn? || (w.service.Published? && w.service.dir.dnsPending.Torn?)
  }

  /** The terminal world: seven events, services registered again, candidate installed. */
  predicate Finished(w: World)
  {
    && w.service.Published? && |w.service.dir.events| == PHASES
    && Flags(w) == (true, true) && InstallationProven(w) && w.swaps == 1
  }

  /** Remaining install work for one revision over the current layout. */
  function Remaining(phase: IJ.Phase, w: World): nat
  {
    match phase
    case Prepared =>
      if w.container.None? then 50
      else if !w.container.value.payload.NoPayload? then 44
      else if w.service.Published? && w.container.value.partial == Bundle(w.service.dir.intent.candidate.app) then 46
      else 48
    case Staged => if w.swaps == 0 then 30 else 28
    case Swapped => 20
    case Installed => 0
  }

  function InstallRank(w: World): nat
  {
    if w.journalPending.Whole? then Remaining(w.journalPending.doc.phase, w) + 1
    else if w.journal.Some? then Remaining(w.journal.value.phase, w)
    else 60
  }

  /** Remaining work before the next event is published. */
  function Rank(w: World): nat
  {
    if !w.service.Published? || |w.service.dir.events| > PHASES then 0
    else
      var d := w.service.dir;
      (PHASES - |d.events|) * 1000
      + (if |d.events| == TEARDOWN then 10 * InstallRank(w) else 0)
      + (if d.dnsPending.Absent? then 0 else 7)
      + (match d.pending
         case Whole(_) => 1
         case Torn => 4
         case Absent => if Flags(w) == Registered(|d.events|) then 3 else 5)
  }

  /** The next install-side step over the completed teardown. */
  function NextInstallWorld(w: World): World
    requires AtTeardown(w) && w.service.dir.events != [] && (w.journal.Some? ==> w.journal.value.guards != [])
  {
    var d := w.service.dir;
    if w.journalPending.Whole? then w.(journal := Some(w.journalPending.doc), journalPending := Absent)
    else if w.journal.None? then
      w.(journalPending := Whole(
           IJ.First(d.intent.candidate, d.intent.environment, d.intent.previous, "", Effective(d))))
    else
      var j := w.journal.value;
      match j.phase
      case Prepared =>
        if w.container.None? then w.(container := Some(Container(NoPayload, NoPayload)))
        else if !w.container.value.payload.NoPayload? then
          w.(journalPending := Whole(IJ.Advance(j, IJ.Staged)))
        else if w.container.value.partial == Bundle(j.candidate.app) then
          w.(container := Some(Container(NoPayload, w.container.value.partial)))
        else w.(container := Some(Container(Bundle(j.candidate.app), NoPayload)))
      case Staged =>
        if w.swaps == 0 && w.container.Some? && w.container.value.payload.Bundle? then
          w.(target := w.container.value.payload.app,
             container := Some(w.container.value.(payload := Bundle(w.target))), swaps := w.swaps + 1)
        else w.(journalPending := Whole(IJ.Advance(j, IJ.Swapped)))
      case _ => w.(journalPending := Whole(IJ.Complete(j, Effective(d))))
  }

  /** The next step over a world, where an installer at work needs no new segment. */
  function NextWorld(w: World): World
    requires w.service.Published? && w.service.dir.events != [] && (w.journal.Some? ==> w.journal.value.guards != [])
  {
    var d := w.service.dir;
    if d.dnsPending.Whole? then
      w.(service := Published(d.(dns := Some(d.dnsPending.doc), dnsPending := Absent)))
    else if d.pending.Torn? then w.(service := Published(d.(pending := Absent)))
    else if d.pending.Whole? then
      w.(service := Published(d.(events := d.events + [d.pending.doc], pending := Absent)))
    else if AtTeardown(w) && !InstallationProven(w) then NextInstallWorld(w)
    else if Flags(w) != Registered(|d.events|) then
      w.(proxy := Act(|d.events|, Flags(w)).0, authority := Act(|d.events|, Flags(w)).1)
    else w.(service := Published(d.(pending := Whole(Effective(d)))))
  }

  /** The install-side step: a publication, the opening of a session, or its continuation. */
  lemma InstallProgress(p: Profile, w: World)
    requires ValidProfile(p) && Inv(p, w) && AtTeardown(w) && !w.journalPending.Torn? && !InstallationProven(w)
    ensures var n := NextInstallWorld(w);
            if w.journalPending.Whole? then PublishesJournal(w, n)
            else if w.journal.None? then OpensSession(p, w, n)
            else Continues(p, w, n)
    ensures InstallRank(NextInstallWorld(w)) < InstallRank(w)
    ensures NextInstallWorld(w).service == w.service && Flags(NextInstallWorld(w)) == Flags(w)
  {
    var d := w.service.dir;
    var g := Effective(d);
    var n := NextInstallWorld(w);
    if w.journalPending.Whole? {
      assert Remaining(w.journalPending.doc.phase, n) == Remaining(w.journalPending.doc.phase, w);
    } else if w.journal.None? {
      IJ.FirstIsPermitted(p, d.intent.candidate, d.intent.environment, d.intent.previous, "", g);
      assert WritesJournal(p, w, n);
    } else {
      SessionProgress(p, w);
    }
  }

  /** An installer at work always has its next step. */
  lemma SessionProgress(p: Profile, w: World)
    requires ValidProfile(p) && Inv(p, w) && AtTeardown(w) && !InstallationProven(w)
    requires w.journal.Some? && w.journalPending.Absent?
    ensures Continues(p, w, NextInstallWorld(w)) && InstallRank(NextInstallWorld(w)) < InstallRank(w)
  {
    var j, g, n := w.journal.value, Effective(w.service.dir), NextInstallWorld(w);
    if j.phase == IJ.Prepared {
      if w.container.Some? && !w.container.value.payload.NoPayload? {
        IJ.AdvanceIsPermitted(p, j, IJ.Staged, g);
        assert WritesJournal(p, w, n);
      }
    } else if j.phase == IJ.Staged {
      if w.swaps != 0 {
        IJ.AdvanceIsPermitted(p, j, IJ.Swapped, g);
        assert WritesJournal(p, w, n);
      } else {
        assert SwapsBundles(w, n);
      }
    } else {
      assert j.phase == IJ.Swapped;
      IJ.CompleteIsPermitted(p, j, g);
      assert WritesJournal(p, w, n);
    }
  }

  /** The service side has its next step everywhere else. */
  lemma ServiceProgress(p: Profile, w: World)
    requires ValidProfile(p) && Inv(p, w) && w.service.Published? && !Wedged(w) && !Finished(w)
    requires !(AtTeardown(w) && !InstallationProven(w))
    ensures ServiceStep(p, w, NextWorld(w)) && Rank(NextWorld(w)) < Rank(w)
    ensures NextWorld(w).service.Published? && NextWorld(w).service.dir.intent == w.service.dir.intent
    ensures !NextWorld(w).service.dir.dnsPending.Torn?
  {
  }

  // -------------------------------------------------------------------------- moments

  /** A new process over an unfinished, published revision. */
  predicate NeedsSegment(m: Moment)
  {
    !m.live && AtTeardown(m.w) && !InstallationProven(m.w) && m.w.journal.Some? && m.w.journalPending.Absent?
  }

  function NextMoment(m: Moment): Moment
    requires m.w.service.Published? && m.w.service.dir.events != []
    requires m.w.journal.Some? ==> m.w.journal.value.guards != []
  {
    var w := m.w;
    if NeedsSegment(m) then
      Moment(w.(journalPending := Whole(IJ.Reopen(w.journal.value, Effective(w.service.dir)))), true)
    else Moment(NextWorld(w), LiveAfter(m.live, w, NextWorld(w)))
  }

  function MomentRank(m: Moment): nat { Rank(m.w) + (if m.live then 0 else 100) }

  /** The installer is at work, or a new one still has a guard segment. */
  predicate Resumable(m: Moment) { m.live || !Exhausted(m.w) }

  lemma SegmentProgress(p: Profile, m: Moment)
    requires ValidProfile(p) && Inv(p, m.w) && NeedsSegment(m) && !Exhausted(m.w)
    ensures LifeStep(p, m, NextMoment(m)) && MomentRank(NextMoment(m)) < MomentRank(m)
  {
    var w := m.w;
    IJ.ReopenIsPermitted(p, w.journal.value, Effective(w.service.dir));
    assert OpensSession(p, w, NextMoment(m).w);
  }

  lemma Progress(p: Profile, m: Moment)
    requires ValidProfile(p) && Inv(p, m.w) && m.w.service.Published?
    requires !Wedged(m.w) && !Finished(m.w) && Resumable(m)
    ensures LifeStep(p, m, NextMoment(m))
    ensures MomentRank(NextMoment(m)) < MomentRank(m)
    ensures NextMoment(m).w.service.Published?
    ensures !Wedged(NextMoment(m).w) && Resumable(NextMoment(m))
    ensures NextMoment(m).w.service.dir.intent == m.w.service.dir.intent
  {
    var w := m.w;
    if NeedsSegment(m) {
      SegmentProgress(p, m);
    } else if AtTeardown(w) && !InstallationProven(w) {
      InstallProgress(p, w);
      assert NextWorld(w) == NextInstallWorld(w);
    } else {
      ServiceProgress(p, w);
      ServiceStepLeavesInstallation(p, w, NextWorld(w));
    }
  }

  /** From every resumable moment the protocol is carried to its end; the lemma builds the
      steps, the first of a new installer being its new guard segment. */
  lemma {:induction false} Completable(p: Profile, m: Moment) returns (life: seq<Moment>)
    requires ValidProfile(p) && Inv(p, m.w) && m.w.service.Published? && !Wedged(m.w) && Resumable(m)
    ensures life != [] && life[0] == m && Steps(p, life)
    ensures Finished(Last(life).w) && Last(life).w.service.dir.intent == m.w.service.dir.intent
    ensures NeedsSegment(m) ==> |life| > 1 && life[1] == NextMoment(m)
    decreases MomentRank(m)
  {
    if Finished(m.w) {
      life := [m];
    } else {
      Progress(p, m);
      LifeStepKeepsInv(p, m, NextMoment(m));
      var rest := Completable(p, NextMoment(m));
      StepsConcat(p, [m], rest);
      life := [m] + rest;
    }
  }

  // ------------------------------------------------------------------- exact conditions

  /** Some life of restarted processes finishes the maintenance from this world. */
  ghost predicate CanFinish(p: Profile, w: World)
  {
    exists life :: life != [] && life[0] == Moment(w, false) && Steps(p, life) && Finished(Last(life).w)
  }

  lemma WedgeStep(p: Profile, m: Moment, m': Moment)
    requires Inv(p, m.w) && Wedged(m.w) && LifeStep(p, m, m')
    ensures m'.w == m.w
  {
  }

  lemma {:induction false} WedgeIsFinal(p: Profile, life: seq<Moment>, i: nat)
    requires life != [] && Steps(p, life) && i < |life| && Inv(p, life[0].w) && Wedged(life[0].w)
    ensures life[i].w == life[0].w
  {
    if i > 0 {
      WedgeIsFinal(p, life, i - 1);
      assert LifeStepAt(p, life, i - 1);
      WedgeStep(p, life[i - 1], life[i]);
    }
  }

  /** In every crash-reachable published world, restarted processes can finish if and only
      if no install journal or continuation is torn and a guard segment is left. */
  lemma CanFinishIff(p: Profile, w: World)
    requires ValidProfile(p) && Inv(p, w) && w.service.Published?
    ensures CanFinish(p, w) <==> !Wedged(w) && !Exhausted(w)
  {
    if !Wedged(w) && !Exhausted(w) {
      var life := Completable(p, Moment(w, false));
    }
    if CanFinish(p, w) {
      var life :| life != [] && life[0] == Moment(w, false) && Steps(p, life) && Finished(Last(life).w);
      if Exhausted(w) {
        ExhaustionIsFinal(p, life, 0, |life| - 1);
      }
      if Wedged(w) {
        WedgeIsFinal(p, life, |life| - 1);
      }
    }
  }

  /** Nothing durable can change any more. */
  ghost predicate Stuck(p: Profile, m: Moment)
  {
    forall m' | LifeStep(p, m, m') :: m'.w == m.w
  }

  lemma NothingLeft(p: Profile, m: Moment, m': Moment)
    requires Inv(p, m.w) && m.w.service.Published? && LifeStep(p, m, m')
    requires Finished(m.w) || (!m.live && Exhausted(m.w) && m.w.journalPending.Absent?)
    ensures m'.w == m.w
  {
  }

  /** In every life the only standstills are the finished world, the two torn files and,
      with the installer gone, used-up guard segments. */
  lemma StuckIff(p: Profile, life: seq<Moment>)
    requires ValidProfile(p) && IsLife(p, life) && Last(life).w.service.Published?
    ensures var m := Last(life);
            Stuck(p, m) <==> Wedged(m.w) || Finished(m.w) || (!m.live && Exhausted(m.w) && m.w.journalPending.Absent?)
  {
    var m := Last(life);
    LifeInvariant(p, life, |life| - 1);
    if Wedged(m.w) {
      forall m' | LifeStep(p, m, m') ensures m'.w == m.w {
        WedgeStep(p, m, m');
      }
    } else if Finished(m.w) || (!m.live && Exhausted(m.w) && m.w.journalPending.Absent?) {
      forall m' | LifeStep(p, m, m') ensures m'.w == m.w {
        NothingLeft(p, m, m');
      }
    } else if Resumable(m) {
      Progress(p, m);
    } else {
      var next := m.w.(journal := Some(m.w.journalPending.doc), journalPending := Absent);
      assert PublishesJournal(m.w, next);
      assert LifeStep(p, m, Moment(next, false));
    }
  }
}
