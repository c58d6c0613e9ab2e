/** Lives: runs that know whether an installer is at work. A process that wrote a revision
    of the install journal goes on from it; when it is gone, the next process may only
    publish a pending revision and must open a new guard segment before anything else. */
module MaintenanceLife {
  import opened Common
  import opened Identity
  import opened Maintenance
  import opened MaintenanceProof
  import IJ = InstallJournal

  /** A world, and whether the installer that wrote its last revision is still at work. */
  datatype Moment = Moment(w: World, live: bool)

  /** The first write of a new installer: the first revision, or `recover`'s new guard
      segment, which needs a free one. */
  predicate OpensSession(p: Profile, w: World, w': World)
  {
    && WritesJournal(p, w, w')
    && (w.journal.Some? ==>
          && w.journal.value.guards != [] && w.service.dir.events != []
          && |w.journal.value.guards| < IJ.MAX_GUARD_SEGMENTS
          && (|| w'.journalPending.Torn?
              || w'.journalPending == Whole(IJ.Reopen(w.journal.value, Effective(w.service.dir)))))
  }

  /** What a working installer does: any install step, and its revisions change the phase. */
  predicate Continues(p: Profile, w: World, w': World)
  {
    && InstallStep(p, w, w')
    && (w.journal.Some? && w.journalPending.Absent? && w'.journalPending.Whole? ==>
          w'.journalPending.doc.phase != w.journal.value.phase)
  }

  predicate MayStep(p: Profile, live: bool, w: World, w': World)
  {
    || ServiceStep(p, w, w')
    || PublishesJournal(w, w')
    || (if live then Continues(p, w, w') else OpensSession(p, w, w'))
  }

  /** Whoever wrote a revision is at work from then on. */
  function LiveAfter(live: bool, w: World, w': World): bool
  {
    live || (w.journalPending.Absent? && w'.journalPending.Whole?)
  }

  /** A step, or the end of the installer. */
  predicate LifeStep(p: Profile, m: Moment, m': Moment)
  {
    || (MayStep(p, m.live, m.w, m'.w) && m'.live == LiveAfter(m.live, m.w, m'.w))
    || m' == Moment(m.w, false)
  }

  predicate Steps(p: Profile, life: seq<Moment>)
  {
    forall i {:trigger LifeStepAt(p, life, i)} | 0 <= i < |life| - 1 :: LifeStepAt(p, life, i)
  }

  predicate LifeStepAt(p: Profile, life: seq<Moment>, i: nat)
    requires i + 1 < |life|
  {
    LifeStep(p, life[i], life[i + 1])
  }

  predicate IsLife(p: Profile, life: seq<Moment>)
  {
    life != [] && Init(life[0].w) && !life[0].live && Steps(p, life)
  }

  lemma StepsConcat(p: Profile, a: seq<Moment>, b: seq<Moment>)
    requires a != [] && b != [] && Steps(p, a) && Steps(p, b) && LifeStep(p, Last(a), b[0])
    ensures Steps(p, a + b)
  {
    var c := a + b;
    forall i | 0 <= i < |c| - 1 ensures LifeStepAt(p, c, i) {
      if i < |a| - 1 {
        assert LifeStepAt(p, a, i);
      } else if i >= |a| {
        assert LifeStepAt(p, b, i - |a|);
      }
    }
  }

  lemma LifeGrows(p: Profile, life: seq<Moment>, m: Moment)
    requires IsLife(p, life) && LifeStep(p, Last(life), m)
    ensures IsLife(p, life + [m]) && Last(life + [m]) == m
  {
    StepsConcat(p, life, [m]);
  }

  lemma MayStepIsStep(p: Profile, live: bool, w: World, w': World)
    requires MayStep(p, live, w, w')
    ensures Step(p, w, w')
  {
  }

  /** Every life is a run with its standstills removed, so all run theorems hold in it. */
  lemma {:induction false} LifeIsRun(p: Profile, life: seq<Moment>) returns (run: seq<World>)
    requires IsLife(p, life)
    ensures IsRun(p, run) && Last(run) == Last(life).w
    ensures forall i | 0 <= i < |life| :: life[i].w in run
  {
    if |life| == 1 {
      run := [life[0].w];
    } else {
      var front := life[..|life| - 1];
      forall i | 0 <= i < |front| - 1 ensures LifeStepAt(p, front, i) {
        assert LifeStepAt(p, life, i);
      }
      run := LifeIsRun(p, front);
      var last, next := front[|front| - 1], life[|life| - 1];
      assert LifeStepAt(p, life, |life| - 2);
      assert forall i | 0 <= i < |front| :: front[i] == life[i];
      if next.w != last.w {
        MayStepIsStep(p, last.live, last.w, next.w);
        run := RunGrows(p, run, next.w);
      }
    }
  }

  lemma RunGrows(p: Profile, run: seq<World>, w: World) returns (longer: seq<World>)
    requires IsRun(p, run) && Step(p, Last(run), w)
    ensures IsRun(p, longer) && longer == run + [w]
  {
    longer := run + [w];
    forall i | 0 <= i < |longer| - 1 ensures StepAt(p, longer, i) {
      if i < |run| - 1 {
        assert StepAt(p, run, i);
      }
    }
  }

  lemma LifeStepKeepsInv(p: Profile, m: Moment, m': Moment)
    requires ValidProfile(p) && Inv(p, m.w) && LifeStep(p, m, m')
    ensures Inv(p, m'.w)
  {
    if m'.w != m.w {
      MayStepIsStep(p, m.live, m.w, m'.w);
      StepKeepsInv(p, m.w, m'.w);
    }
  }

  lemma {:induction false} LifeInvariant(p: Profile, life: seq<Moment>, i: nat)
    requires ValidProfile(p) && IsLife(p, life) && i < |life|
    ensures Inv(p, life[i].w)
  {
    if i == 0 {
      InitEstablishesInv(p, life[0].w);
    } else {
      LifeInvariant(p, life, i - 1);
      assert LifeStepAt(p, life, i - 1);
      LifeStepKeepsInv(p, life[i - 1], life[i]);
    }
  }

  // ---------------------------------------------------------------------------- safety

  predicate Safe(p: Profile, w: World)
  {
    && Inv(p, w) && w.swaps <= 1 && (|Log(w)| > TEARDOWN ==> InstallationProven(w))
    && (w.proxy ==> w.authority)
    && (w.service.Published? ==>
          && w.service.dir.intent.previous == p.active
          && w.service.dir.intent.candidate.app.build == p.build
          && w.service.dir.intent.candidate.app.version == p.version)
  }

  /** The bundles are exchanged only at the teardown with both services down. */
  predicate SafeStep(w: World, w': World)
  {
    w.target != w'.target ==> |Log(w)| == TEARDOWN && Flags(w) == (false, false)
  }

  lemma LifeIsSafe(p: Profile, life: seq<Moment>)
    requires ValidProfile(p) && IsLife(p, life)
    ensures forall i | 0 <= i < |life| :: Safe(p, life[i].w)
    ensures forall i | 0 <= i < |life| - 1 :: SafeStep(life[i].w, life[i + 1].w)
  {
    forall i | 0 <= i < |life| ensures Safe(p, life[i].w) {
      LifeInvariant(p, life, i);
      ServicesFollowInstall(p, life[i].w);
    }
    forall i | 0 <= i < |life| - 1 ensures SafeStep(life[i].w, life[i + 1].w) {
      assert LifeStepAt(p, life, i);
      if life[i].w != life[i + 1].w {
        LifeInvariant(p, life, i);
        MayStepIsStep(p, life[i].live, life[i].w, life[i + 1].w);
        SwapAtTeardown(p, life[i].w, life[i + 1].w);
      }
    }
  }

  // ------------------------------------------------------------------------ exhaustion

  /** Once the installer is gone and the guard segments are used up, nothing changes that. */
  lemma ExhaustionStep(p: Profile, m: Moment, m': Moment)
    requires LifeStep(p, m, m') && !m.live && Exhausted(m.w)
    ensures !m'.live && Exhausted(m'.w)
  {
    if m' != Moment(m.w, false) && ServiceStep(p, m.w, m'.w) {
      ServiceStepLeavesInstallation(p, m.w, m'.w);
    }
  }

  lemma {:induction false} ExhaustionIsFinal(p: Profile, life: seq<Moment>, i: nat, j: nat)
    requires Steps(p, life) && i <= j < |life| && !life[i].live && Exhausted(life[i].w)
    ensures !life[j].live && Exhausted(life[j].w)
    decreases j
  {
    if i < j {
      ExhaustionIsFinal(p, life, i, j - 1);
      assert LifeStepAt(p, life, j - 1);
      ExhaustionStep(p, life[j - 1], life[j]);
    }
  }
}
