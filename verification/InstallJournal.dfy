/** The dormant-install journal document: its validator, the permitted-successor check
    applied to a pending revision, the revisions the transaction writes, and the lineage
    every accepted chain of revisions has (scripts/dormant_app_install.py). */
module InstallJournal {
  import opened Common
  import opened Identity

  const MAX_GUARD_SEGMENTS := 8

  datatype Operation = InstallOp | RecoverOp

  /** One guarded stretch of work; `after` is None while it is still running. */
  datatype Segment = Segment(operation: Operation, before: Guard, after: Option<Guard>)

  datatype Phase = Prepared | Staged | Swapped | Installed

  datatype Journal = Journal(
    candidate: Candidate, environment: string, guards: seq<Segment>, phase: Phase,
    previous: App, sequence: int, transactionId: string)

  function Rank(phase: Phase): nat
  {
    match phase
    case Prepared => 1
    case Staged => 2
    case Swapped => 3
    case Installed => 4
  }

  // ---------------------------------------------------------------- validate_journal

  /** A segment inside the journal: recorded guards never drift and only the last segment
      may still be open. */
  predicate SegmentOk(guards: seq<Segment>, i: nat)
    requires i < |guards|
  {
    && ValidGuard(guards[i].before)
    && (if guards[i].after.Some?
        then ValidGuard(guards[i].after.value) && guards[i].after.value == guards[i].before
        else i == |guards| - 1)
    && (guards[i].operation == InstallOp <==> i == 0)
  }

  predicate IdentityOk(p: Profile, j: Journal)
  {
    && j.candidate.app.version == p.version
    && j.candidate.app.build == p.build
    && BindsPredecessor(p, j.previous)
    && j.previous.build < j.candidate.app.build
  }

  predicate Valid(p: Profile, j: Journal)
  {
    && 0 < j.sequence
    && IdentityOk(p, j)
    && 1 <= |j.guards| <= MAX_GUARD_SEGMENTS
    && (forall i | 0 <= i < |j.guards| :: SegmentOk(j.guards, i))
    && (j.phase == Installed <==> Last(j.guards).after.Some?)
    && Rank(j.phase) <= j.sequence
  }

  /** `validate_journal`: the loop over the guard segments accepts exactly `Valid`. */
  method Validate(p: Profile, j: Journal) returns (ok: bool)
    ensures ok <==> Valid(p, j)
  {
    if j.sequence <= 0 || !IdentityOk(p, j) || !(1 <= |j.guards| <= MAX_GUARD_SEGMENTS) {
      return false;
    }
    var operations: seq<Operation> := [];
    for index := 0 to |j.guards|
      invariant |operations| == index
      invariant forall k | 0 <= k < index :: operations[k] == j.guards[k].operation
      invariant forall k | 0 <= k < index ::
          ValidGuard(j.guards[k].before)
          && if j.guards[k].after.Some?
             then ValidGuard(j.guards[k].after.value) && j.guards[k].after.value == j.guards[k].before
             else k == |j.guards| - 1
    {
      var segment := j.guards[index];
      operations := operations + [segment.operation];
      if !ValidGuard(segment.before) {
        assert !SegmentOk(j.guards, index);
        return false;
      }
      if segment.after.Some? {
        if !ValidGuard(segment.after.value) || segment.after.value != segment.before {
          assert !SegmentOk(j.guards, index);
          return false;
        }
      } else if index != |j.guards| - 1 {
        assert !SegmentOk(j.guards, index);
        return false;
      }
    }
    if operations[0] != InstallOp {
      assert !SegmentOk(j.guards, 0);
      return false;
    }
    if InstallOp in operations[1..] {
      var k :| 0 < k < |operations| && operations[k] == InstallOp;
      assert !SegmentOk(j.guards, k);
      return false;
    }
    assert forall k | 0 < k < |operations| :: operations[k] in operations[1..] by {
      assert forall k | 0 < k < |operations| :: operations[1..][k - 1] == operations[k];
    }
    if (j.phase == Installed) == Last(j.guards).after.None? {
      return false;
    }
    return Rank(j.phase) <= j.sequence;
  }

  // ------------------------------------------------------ _require_journal_successor

  predicate SameTransaction(a: Journal, b: Journal)
  {
    && a.candidate == b.candidate
    && a.environment == b.environment
    && a.previous == b.previous
    && a.transactionId == b.transactionId
  }

  predicate NextPhase(a: Phase, b: Phase)
  {
    (a == Prepared && b == Staged) || (a == Staged && b == Swapped) || (a == Swapped && b == Installed)
  }

  predicate ClosesLast(current: seq<Segment>, pending: seq<Segment>)
    requires current != [] && pending != []
  {
    && |pending| == |current|
    && pending[..|pending| - 1] == current[..|current| - 1]
    && Last(current).after.None?
    && Last(pending) == Last(current).(after := Some(Last(current).before))
  }

  predicate OpensRecovery(current: seq<Segment>, pending: seq<Segment>)
    requires current != [] && pending != []
  {
    && |pending| == |current| + 1
    && pending[..|pending| - 2] == current[..|current| - 1]
    && Last(current).after.None?
    && pending[|pending| - 2].operation == Last(current).operation
    && pending[|pending| - 2].before == Last(current).before
    && pending[|pending| - 2].after == Some(pending[|pending| - 2].before)
    && Last(pending) == Segment(RecoverOp, pending[|pending| - 2].before, None)
  }

  /** `_require_journal_successor`, for journals that already validate on their own. */
  predicate Permitted(current: Option<Journal>, pending: Journal)
    requires pending.guards != []
    requires current.Some? ==> current.value.guards != []
  {
    match current
    case None =>
      && pending.sequence == 1
      && pending.phase == Prepared
      && |pending.guards| == 1
      && pending.guards[0].operation == InstallOp
      && pending.guards[0].after.None?
    case Some(c) =>
      && SameTransaction(c, pending)
      && pending.sequence == c.sequence + 1
      && (|| (NextPhase(c.phase, pending.phase)
              && (pending.guards == c.guards
                  || (c.phase == Swapped && ClosesLast(c.guards, pending.guards))))
          || (pending.phase == c.phase && OpensRecovery(c.guards, pending.guards)))
  }

  // ---------------------------------------------- the revisions the transaction writes

  function First(candidate: Candidate, environment: string, previous: App, id: string, g: Guard): Journal
  {
    Journal(candidate, environment, [Segment(InstallOp, g, None)], Prepared, previous, 1, id)
  }

  /** `_next` with a new phase. */
  function Advance(j: Journal, phase: Phase): Journal
  {
    j.(sequence := j.sequence + 1, phase := phase)
  }

  /** `recover`: close the interrupted segment with the observed guard, open a new one. */
  function Reopen(j: Journal, g: Guard): Journal
    requires j.guards != []
  {
    var closed := Last(j.guards).(after := Some(g));
    j.(sequence := j.sequence + 1,
       guards := j.guards[..|j.guards| - 1] + [closed, Segment(RecoverOp, g, None)])
  }

  /** The terminal revision: the open segment is closed with the final guard. */
  function Complete(j: Journal, g: Guard): Journal
    requires j.guards != []
  {
    j.(sequence := j.sequence + 1, phase := Installed,
       guards := j.guards[..|j.guards| - 1] + [Last(j.guards).(after := Some(g))])
  }

  // ------------------------------------------------------------------------- lineage

  /** The journal counts its own revisions, and every segment recorded one guard. */
  predicate Lineage(j: Journal, g: Guard)
  {
    && j.guards != []
    && j.sequence == Rank(j.phase) + |j.guards| - 1
    && forall i | 0 <= i < |j.guards| :: j.guards[i].before == g
  }

  predicate Chain(p: Profile, revisions: seq<Journal>)
  {
    && (forall i | 0 <= i < |revisions| :: Valid(p, revisions[i]))
    && (revisions != [] ==> Permitted(None, revisions[0]))
    && forall i | 0 < i < |revisions| :: Permitted(Some(revisions[i - 1]), revisions[i])
  }

  lemma PermittedKeepsLineage(p: Profile, c: Journal, n: Journal, g: Guard)
    requires Valid(p, c) && Valid(p, n) && Lineage(c, g) && Permitted(Some(c), n)
    ensures Lineage(n, g)
    ensures Rank(c.phase) <= Rank(n.phase) <= Rank(c.phase) + 1
    ensures |c.guards| <= |n.guards|
    ensures Rank(n.phase) + |n.guards| == Rank(c.phase) + |c.guards| + 1
  {
    if n.phase == c.phase && OpensRecovery(c.guards, n.guards) {
      var m := |n.guards|;
      forall i | 0 <= i < m
        ensures n.guards[i].before == g
      {
        if i < m - 2 {
          assert n.guards[i] == n.guards[..m - 2][i] == c.guards[i];
        }
      }
    } else if n.guards != c.guards {
      var m := |n.guards|;
      forall i | 0 <= i < m
        ensures n.guards[i].before == g
      {
        if i < m - 1 {
          assert n.guards[i] == n.guards[..m - 1][i] == c.guards[i];
        }
      }
    }
  }

  /** Every chain of revisions that the validator and the successor check accept counts
      its revisions exactly, records one and the same guard throughout, keeps one
      transaction identity, and ends after at most eleven revisions. */
  lemma {:induction false} ChainLineage(p: Profile, revisions: seq<Journal>)
    requires Chain(p, revisions)
    ensures |revisions| <= 11
    ensures forall i | 0 <= i < |revisions| ::
              && Lineage(revisions[i], revisions[0].guards[0].before)
              && revisions[i].sequence == i + 1
              && SameTransaction(revisions[0], revisions[i])
  {
    if |revisions| > 1 {
      var n := |revisions| - 1;
      var front := revisions[..n];
      assert forall i | 0 <= i < n :: front[i] == revisions[i];
      ChainLineage(p, front);
      assert revisions[n - 1] == front[n - 1] && revisions[0] == front[0];
      PermittedKeepsLineage(p, revisions[n - 1], revisions[n], revisions[0].guards[0].before);
    }
  }

  lemma ChainGrows(p: Profile, revisions: seq<Journal>, j: Journal)
    requires Chain(p, revisions) && Valid(p, j)
    requires Permitted(if revisions == [] then None else Some(Last(revisions)), j)
    ensures Chain(p, revisions + [j])
    ensures revisions != [] ==> Last(revisions) != j
  {
  }

  lemma FirstIsPermitted(p: Profile, candidate: Candidate, environment: string, previous: App,
                         id: string, g: Guard)
    requires ValidGuard(g) && IdentityOk(p, First(candidate, environment, previous, id, g))
    ensures var j := First(candidate, environment, previous, id, g);
            Valid(p, j) && Permitted(None, j) && Lineage(j, g)
  {
  }

  lemma AdvanceIsPermitted(p: Profile, j: Journal, phase: Phase, g: Guard)
    requires Valid(p, j) && Lineage(j, g) && NextPhase(j.phase, phase) && phase != Installed
    ensures Valid(p, Advance(j, phase)) && Permitted(Some(j), Advance(j, phase)) && Lineage(Advance(j, phase), g)
  {
    assert forall i | 0 <= i < |j.guards| :: SegmentOk(j.guards, i);
  }

  lemma ReopenIsPermitted(p: Profile, j: Journal, g: Guard)
    requires Valid(p, j) && Lineage(j, g) && j.phase != Installed && |j.guards| < MAX_GUARD_SEGMENTS
    ensures Valid(p, Reopen(j, g)) && Permitted(Some(j), Reopen(j, g)) && Lineage(Reopen(j, g), g)
  {
    var n := Reopen(j, g);
    var m := |j.guards|;
    assert SegmentOk(j.guards, m - 1);
    assert n.guards[..|n.guards| - 2] == j.guards[..m - 1];
    forall i | 0 <= i < |n.guards|
      ensures SegmentOk(n.guards, i) && n.guards[i].before == g
    {
      if i < m - 1 {
        assert n.guards[i] == j.guards[i] && SegmentOk(j.guards, i);
      }
    }
  }

  lemma CompleteIsPermitted(p: Profile, j: Journal, g: Guard)
    requires Valid(p, j) && Lineage(j, g) && j.phase == Swapped
    ensures Valid(p, Complete(j, g)) && Permitted(Some(j), Complete(j, g)) && Lineage(Complete(j, g), g)
  {
    var n := Complete(j, g);
    var m := |j.guards|;
    assert SegmentOk(j.guards, m - 1);
    assert n.guards[..m - 1] == j.guards[..m - 1];
    forall i | 0 <= i < |n.guards|
      ensures SegmentOk(n.guards, i) && n.guards[i].before == g
    {
      if i < m - 1 {
        assert n.guards[i] == j.guards[i] && SegmentOk(j.guards, i);
      }
    }
  }
}
