/** The standstills are real: for every profile and every first world, some life reaches a
    torn install journal, some life a torn DNS continuation and some life used-up guard
    segments, and from none of these can the maintenance be finished. */
module MaintenanceWitness {
  import opened Common
  import opened Identity
  import opened Maintenance
  import opened MaintenanceProof
  import opened MaintenanceLife
  import opened MaintenanceProgress
  import IJ = InstallJournal

  /** A first world with the active predecessor installed. */
  predicate Starts(p: Profile, w: World)
  {
    ValidProfile(p) && Init(w) && w.target == p.active
  }

  /** The teardown is complete under a guard with running processes, and no installation
      has begun. */
  predicate TornDown(w: World)
  {
    && AtTeardown(w) && Flags(w) == Registered(3) && w.service.dir.events[0].processes != []
    && w.service.dir.dns.None? && w.journal.None? && w.journalPending.Absent? && w.container.None?
  }

  /** The teardown is still under way, with nothing of the installation on disk. */
  predicate ComingDown(p: Profile, w: World)
  {
    && Inv(p, w) && w.service.Published? && 1 <= |w.service.dir.events| <= TEARDOWN
    && w.service.dir.events[0].processes != [] && w.service.dir.dns.None? && w.service.dir.dnsPending.Absent?
    && w.journal.None? && w.journalPending.Absent? && w.container.None?
  }

  lemma {:induction false} Descend(p: Profile, life: seq<Moment>) returns (longer: seq<Moment>)
    requires ValidProfile(p) && IsLife(p, life) && !Last(life).live && ComingDown(p, Last(life).w)
    ensures IsLife(p, longer) && !Last(longer).live && TornDown(Last(longer).w)
    decreases MomentRank(Last(life))
  {
    var m := Last(life);
    if AtTeardown(m.w) {
      longer := life;
    } else {
      DescendStep(p, m);
      LifeGrows(p, life, NextMoment(m));
      longer := Descend(p, life + [NextMoment(m)]);
    }
  }

  lemma DescendStep(p: Profile, m: Moment)
    requires ValidProfile(p) && !m.live && ComingDown(p, m.w) && !AtTeardown(m.w)
    ensures LifeStep(p, m, NextMoment(m)) && MomentRank(NextMoment(m)) < MomentRank(m)
    ensures !NextMoment(m).live && ComingDown(p, NextMoment(m).w)
  {
    ServiceProgress(p, m.w);
    ServiceStepLeavesInstallation(p, m.w, NextWorld(m.w));
    LifeStepKeepsInv(p, m, NextMoment(m));
  }

  /** The service transaction is created and its services are taken down. */
  lemma ReachTeardown(p: Profile, w: World) returns (life: seq<Moment>)
    requires Starts(p, w)
    ensures IsLife(p, life) && !Last(life).live && TornDown(Last(life).w)
  {
    var gui, core := Process("", CFW_GUI, 1, "", 501), Process("", CFW_CORE, 2, "", 501);
    var guard := Guard([gui, core], "", "", "", "", "");
    var candidate := Candidate(App(p.version, p.build, ""), "", "", "");
    var dir := ServiceDir(Intent(candidate, w.target, "", ""), [guard], Absent, None, Absent);
    var begun := w.(service := Assembling(Torn));
    var assembled := w.(service := Assembling(Whole(dir)));
    var published := w.(service := Published(dir));
    assert BeginsService(p, w, begun) && AssemblesService(p, begun, assembled);
    assert PublishesService(assembled, published);
    life := [Moment(w, false)];
    LifeGrows(p, life, Moment(begun, false));
    life := life + [Moment(begun, false)];
    LifeGrows(p, life, Moment(assembled, false));
    life := life + [Moment(assembled, false)];
    LifeGrows(p, life, Moment(published, false));
    life := life + [Moment(published, false)];
    LifeInvariant(p, life, |life| - 1);
    life := Descend(p, life);
  }

  /** A crash inside the write of the install journal. */
  lemma TornJournalIsReachable(p: Profile, w: World) returns (life: seq<Moment>)
    requires Starts(p, w)
    ensures IsLife(p, life) && Last(life).w.journalPending.Torn?
    ensures Last(life).w.service.Published? && !CanFinish(p, Last(life).w)
  {
    life := ReachTeardown(p, w);
    var m := Last(life);
    var torn := Moment(m.w.(journalPending := Torn), false);
    assert OpensSession(p, m.w, torn.w);
    LifeGrows(p, life, torn);
    life := life + [torn];
    LifeInvariant(p, life, |life| - 1);
    CanFinishIff(p, torn.w);
  }

  /** A crash inside the write of the DNS continuation. */
  lemma TornContinuationIsReachable(p: Profile, w: World) returns (life: seq<Moment>)
    requires Starts(p, w)
    ensures IsLife(p, life) && Last(life).w.service.Published? && Last(life).w.service.dir.dnsPending.Torn?
    ensures !CanFinish(p, Last(life).w)
  {
    life := ReachTeardown(p, w);
    var m := Last(life);
    var torn := Moment(m.w.(service := Published(m.w.service.dir.(dnsPending := Torn))), false);
    assert WritesContinuation(m.w, torn.w);
    LifeGrows(p, life, torn);
    life := life + [torn];
    LifeInvariant(p, life, |life| - 1);
    CanFinishIff(p, torn.w);
  }

  /** A prepared installation whose installer is gone. */
  predicate Abandoned(p: Profile, w: World)
  {
    && Inv(p, w) && AtTeardown(w) && Flags(w) == Registered(3) && w.journalPending.Absent?
    && w.journal.Some? && w.journal.value.phase == IJ.Prepared
  }

  /** A session writes and publishes its first revision and is interrupted. */
  lemma Interrupt(p: Profile, life: seq<Moment>, j: IJ.Journal) returns (longer: seq<Moment>)
    requires ValidProfile(p) && IsLife(p, life) && !Last(life).live && AtTeardown(Last(life).w)
    requires Flags(Last(life).w) == Registered(3) && Last(life).w.journalPending.Absent?
    requires OpensSession(p, Last(life).w, Last(life).w.(journalPending := Whole(j)))
    ensures IsLife(p, longer) && !Last(longer).live
    ensures Last(longer).w == Last(life).w.(journal := Some(j))
  {
    var w := Last(life).w;
    var written := Moment(w.(journalPending := Whole(j)), true);
    var published := Moment(w.(journal := Some(j)), true);
    assert PublishesJournal(written.w, published.w);
    LifeGrows(p, life, written);
    longer := life + [written];
    LifeGrows(p, longer, published);
    longer := longer + [published];
    LifeGrows(p, longer, Moment(published.w, false));
    longer := longer + [Moment(published.w, false)];
  }

  /** Recovery after recovery is interrupted until no guard segment is left. */
  lemma {:induction false} InterruptRepeatedly(p: Profile, life: seq<Moment>) returns (longer: seq<Moment>)
    requires ValidProfile(p) && IsLife(p, life) && !Last(life).live && Abandoned(p, Last(life).w)
    ensures IsLife(p, longer) && !Last(longer).live && Abandoned(p, Last(longer).w) && Exhausted(Last(longer).w)
    decreases IJ.MAX_GUARD_SEGMENTS - |Last(life).w.journal.value.guards|
  {
    var w := Last(life).w;
    var j := w.journal.value;
    if |j.guards| >= IJ.MAX_GUARD_SEGMENTS {
      longer := life;
    } else {
      var reopened := IJ.Reopen(j, Effective(w.service.dir));
      IJ.ReopenIsPermitted(p, j, Effective(w.service.dir));
      assert OpensSession(p, w, w.(journalPending := Whole(reopened)));
      longer := Interrupt(p, life, reopened);
      LifeInvariant(p, longer, |longer| - 1);
      longer := InterruptRepeatedly(p, longer);
    }
  }

  /** Eight interrupted sessions leave a maintenance that no restart can finish. */
  lemma ExhaustionIsReachable(p: Profile, w: World) returns (life: seq<Moment>)
    requires Starts(p, w)
    ensures IsLife(p, life) && !Last(life).live && Exhausted(Last(life).w) && !Wedged(Last(life).w)
    ensures Last(life).w.service.Published? && Flags(Last(life).w) == (false, false) && !CanFinish(p, Last(life).w)
  {
    life := ReachTeardown(p, w);
    var down := Last(life).w;
    LifeInvariant(p, life, |life| - 1);
    var intent, g := down.service.dir.intent, Effective(down.service.dir);
    var first := IJ.First(intent.candidate, intent.environment, intent.previous, "", g);
    IJ.FirstIsPermitted(p, intent.candidate, intent.environment, intent.previous, "", g);
    assert WritesJournal(p, down, down.(journalPending := Whole(first)));
    life := Interrupt(p, life, first);
    LifeInvariant(p, life, |life| - 1);
    life := InterruptRepeatedly(p, life);
    CanFinishIff(p, Last(life).w);
  }
}
