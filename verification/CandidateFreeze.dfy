/** Freezing the release candidate (scripts/candidate_freeze.py). The intent file is created
    exclusively inside the preflight root, and the whole root is then renamed exclusively to
    its final name. Any number of freezers and recoverers interleave between atomic steps,
    and any of them may stop for good at any point. */
module CandidateFreeze {
  import opened Common

  /** The intent file: created by one process, then whole. An unfinished file is unreadable. */
  datatype IntentFile = NoIntent | Writing(owner: int, bytes: string) | Written(owner: int, bytes: string)

  datatype Root = Root(intent: IntentFile)

  datatype World = World(preflight: Option<Root>, final: Option<Root>, creations: nat)

  predicate Init(w: World)
  {
    w == World(Some(Root(NoIntent)), None, 0)
  }

  // ------------------------------------------------------------------------ atomic steps

  /** O_CREAT | O_EXCL inside the preflight root. */
  predicate Creates(who: int, bytes: string, w: World, w': World)
  {
    && w.preflight == Some(Root(NoIntent))
    && w' == w.(preflight := Some(Root(Writing(who, bytes))), creations := w.creations + 1)
  }

  /** The creator's own descriptor finishes the write. */
  predicate Finishes(who: int, w: World, w': World)
  {
    && w.preflight.Some? && w.preflight.value.intent.Writing? && w.preflight.value.intent.owner == who
    && w' == w.(preflight := Some(Root(Written(who, w.preflight.value.intent.bytes))))
  }

  /** Exclusive rename of the whole root; only a finished intent is ever promoted. */
  predicate Promotes(w: World, w': World)
  {
    && w.preflight.Some? && w.final.None? && w.preflight.value.intent.Written?
    && w' == w.(preflight := None, final := w.preflight)
  }

  ghost predicate Step(who: int, w: World, w': World)
  {
    || (exists bytes :: Creates(who, bytes, w, w'))
    || Finishes(who, w, w')
    || Promotes(w, w')
  }

  // --------------------------------------------------------------------------- invariant

  function IntentAt(w: World): IntentFile
  {
    if w.preflight.Some? then w.preflight.value.intent
    else if w.final.Some? then w.final.value.intent
    else NoIntent
  }

  /** Exactly one root, at most one creation, and a frozen root is a consumed one. */
  predicate Inv(w: World)
  {
    && (w.preflight.Some? != w.final.Some?)
    && w.creations == (if IntentAt(w).NoIntent? then 0 else 1)
    && (w.final.Some? ==> IntentAt(w).Written?)
  }

  /** What can have happened between two moments while process `me` did nothing: the intent
      is never replaced, only its creator finishes it, and a frozen root stays. */
  predicate Later(me: int, w: World, w': World)
  {
    && Inv(w')
    && (IntentAt(w).Written? ==> IntentAt(w') == IntentAt(w))
    && (IntentAt(w).Writing? ==>
          IntentAt(w') == IntentAt(w) ||
          (IntentAt(w).owner != me && IntentAt(w') == Written(IntentAt(w).owner, IntentAt(w).bytes)))
    && (IntentAt(w).NoIntent? && !IntentAt(w').NoIntent? ==> IntentAt(w').owner != me)
    && (w.final.Some? ==> w'.final.Some?)
  }

  lemma StepKeepsInv(who: int, w: World, w': World)
    requires Inv(w) && Step(who, w, w')
    ensures Inv(w')
  {
  }

  lemma StepIsLater(me: int, who: int, w: World, w': World)
    requires Inv(w) && who != me && Step(who, w, w')
    ensures Later(me, w, w')
  {
  }

  ghost predicate Next(w: World, w': World)
  {
    exists who :: Step(who, w, w')
  }

  ghost predicate IsRun(run: seq<World>)
  {
    && run != [] && Init(run[0])
    && forall k | 0 <= k < |run| - 1 :: Next(run[k], run[k + 1])
  }

  lemma RunGrows(run: seq<World>, next: World)
    requires IsRun(run) && Next(Last(run), next)
    ensures IsRun(run + [next]) && Last(run + [next]) == next
  {
  }

  lemma {:induction false} RunInvariant(run: seq<World>, k: nat)
    requires IsRun(run) && k < |run|
    ensures Inv(run[k])
  {
    if k > 0 {
      RunInvariant(run, k - 1);
      var who :| Step(who, run[k - 1], run[k]);
      StepKeepsInv(who, run[k - 1], run[k]);
    }
  }

  /** One-way consumption over every run: once there is an intent its bytes and its creator
      never change, at most one was ever created, and there is always exactly one root. */
  lemma {:induction false} ConsumptionIsOneWay(run: seq<World>, j: nat, k: nat)
    requires IsRun(run) && j <= k < |run|
    ensures Inv(run[j]) && Inv(run[k]) && run[k].creations <= 1
    ensures IntentAt(run[j]).Written? ==> IntentAt(run[k]) == IntentAt(run[j])
    ensures IntentAt(run[j]).Writing? ==>
              IntentAt(run[k]) in {IntentAt(run[j]), Written(IntentAt(run[j]).owner, IntentAt(run[j]).bytes)}
    ensures run[j].final.Some? ==> run[k].final.Some?
    decreases k
  {
    RunInvariant(run, j);
    RunInvariant(run, k);
    if j < k {
      ConsumptionIsOneWay(run, j, k - 1);
      var who :| Step(who, run[k - 1], run[k]);
    }
  }

  // -------------------------------------------------------------------------- operations

  datatype Outcome =
    | Frozen(sha256: string, recovered: bool)
    | AlreadyConsumed
    | Quarantined
    | OutcomeUnknown
    | Failed

  class Candidate {
    const sha: string -> string
    var w: World
    ghost var history: seq<World>
    /** Nothing fails, no other process acts, and the inputs stay what they are. */
    var calm: bool
    var inputs: string

    ghost predicate Valid()
      reads this
    {
      && IsRun(history) && Last(history) == w && Inv(w)
    }

    constructor (sha: string -> string)
      ensures Valid() && Init(w) && this.sha == sha
    {
      this.sha := sha;
      calm, inputs := false, "";
      w := World(Some(Root(NoIntent)), None, 0);
      history := [World(Some(Root(NoIntent)), None, 0)];
    }

    /** The only way the files change. */
    method Commit(ghost who: int, next: World)
      requires Valid() && Step(who, w, next)
      modifies this`w, this`history
      ensures Valid() && w == next && old(history) <= history
    {
      StepKeepsInv(who, w, next);
      RunGrows(history, next);
      w := next;
      history := history + [next];
    }

    /** A command or a write fails or is reported to have failed. */
    method Trouble() returns (t: bool)
      ensures calm ==> !t
    {
      t := *;
      t := t && !calm;
    }

    /** The intent the inputs call for now. */
    method Expected() returns (bytes: string)
      ensures calm ==> bytes == inputs
    {
      bytes := *;
      if calm {
        bytes := inputs;
      }
    }

    /** Any number of steps of other processes. */
    method Others(me: int)
      requires Valid()
      modifies this`w, this`history
      ensures Valid() && Later(me, old(w), w) && old(history) <= history
      ensures calm ==> w == old(w)
    {
      var count: int := *;
      var k := 0;
      while k < count && !calm
        invariant Valid() && Later(me, old(w), w) && old(history) <= history
        invariant calm ==> w == old(w)
      {
        var who: int := *;
        var bytes: string := *;
        if who != me {
          OtherAction(me, who, bytes);
        }
        k := k + 1;
      }
    }

    method OtherAction(me: int, who: int, bytes: string)
      requires Valid() && who != me
      modifies this`w, this`history
      ensures Valid() && Later(me, old(w), w) && old(history) <= history
    {
      var next := w;
      if w.preflight == Some(Root(NoIntent)) {
        next := w.(preflight := Some(Root(Writing(who, bytes))), creations := w.creations + 1);
        assert Creates(who, bytes, w, next);
      } else if w.preflight.Some? && w.preflight.value.intent.Writing? && w.preflight.value.intent.owner == who {
        next := w.(preflight := Some(Root(Written(who, w.preflight.value.intent.bytes))));
      } else if w.preflight.Some? && w.final.None? && w.preflight.value.intent.Written? {
        next := w.(preflight := None, final := w.preflight);
      } else {
        return;
      }
      StepIsLater(me, who, w, next);
      Commit(who, next);
    }

    /** `_create_intent`: exclusive creation, then the write. A process that stops in between
        leaves the build consumed. */
    method CreateIntent(me: int, bytes: string) returns (r: Option<Outcome>)
      requires Valid() && (!IntentAt(w).NoIntent? ==> IntentAt(w).owner != me)
      modifies this`w, this`history
      ensures Valid() && old(history) <= history
      ensures r.None? ==> IntentAt(w) == Written(me, bytes) && old(IntentAt(w)).NoIntent?
      ensures r == Some(Failed) <==> old(w).preflight.None?
      ensures r == Some(AlreadyConsumed) <==>
                old(w).preflight.Some? && old(IntentAt(w)).Written? && old(IntentAt(w)).bytes == bytes
      ensures r == Some(Quarantined) <==>
                old(w).preflight.Some? && !old(IntentAt(w)).NoIntent? &&
                !(old(IntentAt(w)).Written? && old(IntentAt(w)).bytes == bytes)
      ensures r.Some? && r.value != OutcomeUnknown ==> w == old(w)
      ensures calm && old(w).preflight == Some(Root(NoIntent)) ==>
                r.None? && w == old(w).(preflight := Some(Root(Written(me, bytes))), creations := old(w).creations + 1)
      ensures r.Some? ==> !r.value.Frozen?
    {
      if w.preflight.None? {
        return Some(Failed);
      }
      match w.preflight.value.intent {
        case Written(_, existing) =>
          return Some(if existing == bytes then AlreadyConsumed else Quarantined);
        case Writing(_, _) =>
          return Some(Quarantined);
        case NoIntent =>
      }
      ghost var before := w;
      var created := w.(preflight := Some(Root(Writing(me, bytes))), creations := w.creations + 1);
      assert Creates(me, bytes, w, created);
      Commit(me, created);
      Others(me);
      var trouble := Trouble();
      if trouble {
        return Some(OutcomeUnknown);
      }
      assert IntentAt(w) == Writing(me, bytes);
      var written := w.(preflight := Some(Root(Written(me, bytes))));
      Commit(me, written);
      Others(me);
      trouble := Trouble();
      if trouble {
        return Some(OutcomeUnknown);
      }
      return None;
    }

    /** `_rename_exclusive`, which may also fail or have failed unseen. */
    method Promote(me: int) returns (r: Option<Outcome>)
      requires Valid() && IntentAt(w).Written?
      modifies this`w, this`history
      ensures Valid() && old(history) <= history && IntentAt(w) == old(IntentAt(w))
      ensures r.None? ==> w.final.Some?
      ensures r.Some? ==> r.value == OutcomeUnknown
      ensures calm && old(w).final.None? ==> r.None?
    {
      if w.final.Some? {
        return Some(if w.preflight.Some? then Quarantined else OutcomeUnknown);
      }
      var trouble := Trouble();
      if trouble {
        return Some(OutcomeUnknown);
      }
      var next := w.(preflight := None, final := w.preflight);
      Commit(me, next);
      trouble := Trouble();
      if trouble {
        return Some(OutcomeUnknown);
      }
      Others(me);
      return None;
    }

    /** `_verify_exact_intent`: the file must be readable and equal what the inputs expect now. */
    method VerifyExactIntent(root: Option<Root>) returns (bytes: Option<string>)
      ensures bytes.Some? ==> root.Some? && root.value.intent.Written? && root.value.intent.bytes == bytes.value
      ensures calm ==> (bytes.Some? <==> root.Some? && root.value.intent.Written? && root.value.intent.bytes == inputs)
    {
      if root.None? || !root.value.intent.Written? {
        return None;
      }
      var expected := Expected();
      if root.value.intent.bytes != expected {
        return None;
      }
      return Some(expected);
    }

    /** The checks after promotion, shared by both entry points. */
    method VerifyPublished(me: int, raw: string, recovered: bool) returns (r: Outcome)
      requires Valid() && IntentAt(w).Written?
      modifies this`w, this`history
      ensures Valid() && old(history) <= history && IntentAt(w) == old(IntentAt(w))
      ensures r.Frozen? ==> w.final.Some? && r == Frozen(sha(IntentAt(w).bytes), recovered)
      ensures calm ==> w == old(w) && (r.Frozen? <==> w.final.Some? && IntentAt(w).bytes == inputs == raw)
    {
      var first := VerifyExactIntent(w.final);
      if first.None? {
        return OutcomeUnknown;
      }
      if first.value != raw {
        return Quarantined;
      }
      Others(me);
      if w.preflight.Some? {
        return Quarantined;
      }
      var verified := VerifyExactIntent(w.final);
      if verified.None? {
        return OutcomeUnknown;
      }
      return Frozen(sha(verified.value), recovered);
    }

    /** `freeze_candidate`. It succeeds only for the process that created the one intent, and
        never when there was an intent already; undisturbed, exactly when there was none. */
    method Freeze(me: int) returns (r: Outcome)
      requires Valid() && (!IntentAt(w).NoIntent? ==> IntentAt(w).owner != me)
      modifies this`w, this`history
      ensures Valid() && old(history) <= history
      ensures r.Frozen? ==> old(IntentAt(w)).NoIntent? && w.final.Some? && IntentAt(w).owner == me
      ensures r.Frozen? ==> r == Frozen(sha(IntentAt(w).bytes), false)
      ensures calm ==> (r.Frozen? <==> old(IntentAt(w)).NoIntent?)
      ensures old(w).final.Some? ==> r == AlreadyConsumed
      ensures r == AlreadyConsumed ==> IntentAt(w).Written?
    {
      if w.preflight.Some? && w.final.Some? {
        return Quarantined;
      }
      if w.final.Some? {
        return AlreadyConsumed;
      }
      Others(me);
      var expected := Expected();
      var trouble := Trouble();
      if trouble {
        return Failed;
      }
      var refused := CreateIntent(me, expected);
      if refused.Some? {
        return refused.value;
      }
      Others(me);
      var observed := Expected();
      if observed != expected {
        return Quarantined;
      }
      trouble := Trouble();
      if trouble {
        return OutcomeUnknown;
      }
      refused := Promote(me);
      if refused.Some? {
        return refused.value;
      }
      r := VerifyPublished(me, expected, false);
    }

    /** `recover_candidate`: it creates nothing and promotes only what was consumed;
        undisturbed, it succeeds exactly over a finished intent that the inputs still call for. */
    method Recover(me: int) returns (r: Outcome)
      requires Valid()
      modifies this`w, this`history
      ensures Valid() && old(history) <= history
      ensures r.Frozen? ==> w.final.Some? && r == Frozen(sha(IntentAt(w).bytes), true)
      ensures calm ==> (r.Frozen? <==> old(IntentAt(w)).Written? && old(IntentAt(w)).bytes == inputs)
    {
      if w.preflight.Some? == w.final.Some? {
        return Failed;
      }
      var atFinal := w.final.Some?;
      var raw := VerifyExactIntent(if atFinal then w.final else w.preflight);
      if raw.None? {
        return Quarantined;
      }
      Others(me);
      if !atFinal {
        var trouble := Trouble();
        if trouble {
          return OutcomeUnknown;
        }
        var refused := Promote(me);
        if refused.Some? {
          return OutcomeUnknown;
        }
      }
      r := VerifyPublished(me, raw.value, true);
    }

    /** One entry point, run by a process that has created nothing yet. */
    method Enter(freezing: bool) returns (r: Outcome)
      requires Valid()
      modifies this`w, this`history
      ensures Valid()
      ensures old(w).final.Some? ==> w.final.Some? && IntentAt(w) == old(IntentAt(w))
      ensures r.Frozen? ==> w.final.Some? && r.sha256 == sha(IntentAt(w).bytes)
      ensures r.Frozen? && !r.recovered ==> old(IntentAt(w)).NoIntent?
    {
      ghost var before := history;
      var me := if IntentAt(w).NoIntent? then 0 else IntentAt(w).owner + 1;
      if freezing {
        r := Freeze(me);
      } else {
        r := Recover(me);
      }
      assert history[|before| - 1] == Last(before);
      ConsumptionIsOneWay(history, |before| - 1, |history| - 1);
    }

    /** Any sequence of entry points: all receipts carry one digest, that of the one intent,
        and at most one of them is fresh. */
    method RunAll(freezes: seq<bool>) returns (receipts: seq<Outcome>)
      requires Valid() && Init(w)
      modifies this`w, this`history
      ensures Valid() && w.creations <= 1
      ensures forall r | r in receipts :: r.Frozen? && w.final.Some? && r.sha256 == sha(IntentAt(w).bytes)
      ensures forall i, j | 0 <= i < j < |receipts| :: receipts[i].recovered || receipts[j].recovered
    {
      receipts := [];
      for k := 0 to |freezes|
        invariant Valid()
        invariant receipts != [] ==> w.final.Some?
        invariant forall r | r in receipts :: r.Frozen? && r.sha256 == sha(IntentAt(w).bytes)
        invariant forall i, j | 0 <= i < j < |receipts| :: receipts[i].recovered || receipts[j].recovered
      {
        var r := Enter(freezes[k]);
        if r.Frozen? {
          receipts := receipts + [r];
        }
      }
    }
  }
}
