/** The DMG notarization transaction: start and recovery, with any command failing anywhere
    and a crash after any durable step (scripts/dmg_notarization_transaction.py;
    scripts/notarization_transaction.py for EventJournal.append, whose rename may take
    effect although the call reports an error). */
module DmgTransaction {
  import opened Common
  import opened DmgJournal
  import opened DmgPending

  datatype Receipt = Receipt(id: Id, explicitRecovery: bool, createdAt: string)

  /** Everything durable about one attempt and its publication. */
  datatype Disk = Disk(
    attempt: bool,                 // the attempt root exists
    events: seq<Event>,            // published event files
    pending: PendingFile,          // the next event under its pending name
    observation: Slot<Id>,
    receipt: Slot<Receipt>,
    staplePending: bool,
    finalSet: Slot<Id>,            // private final set: torn while unsealed
    finalRoot: Option<Id>,         // the public set, by the ID its seal names
    submits: nat)                  // how often `notarytool submit` was issued

  const EMPTY := Disk(false, [], NoPending, Absent, Absent, false, Absent, None, 0)

  /** How an operation or one of its parts ended. */
  datatype Stop = Done | Crashed | Failed(error: Error) {
    predicate IsFailure() { !Done? }
    function PropagateFailure(): Stop requires !Done? { this }
  }

  datatype Op = Start | Recover(id: Id)

  // ------------------------------------------------------------------------ invariant

  /** The journal a load would see: a whole pending event counts. */
  function Projection(d: Disk): seq<Event>
  {
    if d.pending.Ready? then d.events + [d.pending.doc] else d.events
  }

  /** The files every load refuses and nothing removes: a pending event that lacks only its
      newline, a torn observation, a torn receipt. */
  predicate Halted(d: Disk)
  {
    d.pending == Cut(true) || d.observation.Torn? || d.receipt.Torn?
  }

  /** The process's documents are the published events, or lag by the one event whose
      rename took effect although its append failed. */
  predicate InStep(d: Disk, documents: seq<Event>)
  {
    && documents <= d.events && |d.events| <= |documents| + 1
    && (d.pending.NoPending? || documents == d.events)
  }

  predicate EventNamesId(events: seq<Event>)
  {
    exists i :: 0 <= i < |events| && events[i].id.Some?
  }

  predicate NamesId(d: Disk)
  {
    EventNamesId(Projection(d)) || d.observation.Whole? || d.receipt.Whole?
  }

  predicate EventIdsAre(events: seq<Event>, id: Id)
  {
    forall i {:trigger IdIs(events, i, id)} | 0 <= i < |events| :: IdIs(events, i, id)
  }

  predicate IdIs(events: seq<Event>, i: nat, id: Id)
    requires i < |events|
  {
    events[i].id.Some? ==> events[i].id == Some(id)
  }

  /** At most one submission ID is durable: all files that name one name this one. */
  predicate AllIdsAre(d: Disk, id: Id)
  {
    && EventIdsAre(Projection(d), id)
    && (d.observation.Whole? ==> d.observation.doc == id)
    && (d.receipt.Whole? ==> d.receipt.doc.id == id)
    && (d.finalSet.Whole? ==> d.finalSet.doc == id)
    && (d.finalRoot.Some? ==> d.finalRoot.value == id)
  }

  /** The states in which the public DMG set may exist. */
  predicate PublicState(s: State) { s in {Sealed, PublicationDeferred, Published} }

  /** The public set against the journal's last state. */
  predicate PublicationOk(journal: seq<Event>, finalRoot: Option<Id>)
  {
    && (finalRoot.Some? ==> journal != [] && PublicState(Last(journal).state))
    && (journal != [] && Last(journal).state in {PublicationDeferred, Published} ==> finalRoot.Some?)
  }

  /** A receipt without an observation beside it says that it comes from a recovery. */
  predicate ReceiptOk(d: Disk)
  {
    d.receipt.Whole? ==> (d.receipt.doc.explicitRecovery <==> d.observation.Absent?)
  }

  /** What holds between any two durable steps, and so after any crash. */
  predicate Inv(d: Disk, id: Id)
  {
    && |Projection(d)| <= MAX_DMG_EVENTS && Connected(Projection(d))
    && AllIdsAre(d, id)
    && (d.finalRoot.Some? || d.finalSet.Whole? ==> NamesId(d))
    && PublicationOk(Projection(d), d.finalRoot)
    && ReceiptOk(d)
    && d.submits <= 1
    && (d.attempt <==> d.events != [])
    && (!d.attempt ==> d == EMPTY)
    && (|d.events| < 2 ==> d.submits == 0 && d.observation.Absent? && d.receipt.Absent? && !NamesId(d))
  }

  /** A running process whose journal is exactly on disk, in state s. */
  predicate At(d: Disk, documents: seq<Event>, id: Id, s: State)
  {
    && Inv(d, id) && d.attempt
    && documents == d.events && d.pending.NoPending? && documents != [] && Last(documents).state == s
  }

  /** The states a failed finalization can stop in. */
  predicate Finalizing(s: State)
  {
    s in {Accepted, LogVerified, Stapling, Stapled, GatekeeperVerified, ArtifactVerified, Sealed}
  }

  /** The invariant's journal is legal: connected, with one ID. */
  lemma InvIsLegal(d: Disk, id: Id)
    requires Inv(d, id)
    ensures Legal(Projection(d))
  {
    var events := Projection(d);
    forall i, j | 0 <= i < j < |events| && events[i].id.Some? && events[j].id.Some? ensures events[i].id == events[j].id
    {
      assert IdIs(events, i, id) && IdIs(events, j, id);
    }
  }

  /** While nothing durable names an ID, any ID may become the one. */
  lemma AnyIdFits(d: Disk, was: Id, id: Id)
    requires Inv(d, was) && (NamesId(d) ==> id == was) && d.finalSet.Absent? && d.finalRoot.None?
    ensures Inv(d, id)
  {
    if !NamesId(d) {
      var events := Projection(d);
      assert forall i | 0 <= i < |events| :: IdIs(events, i, id);
    }
  }

  lemma SecondIsSubmitting(events: seq<Event>)
    requires Connected(events) && events != [] && Last(events).state != Prepared
    ensures |events| >= 2
  {
    assert Follows(events, 0);
  }

  lemma IdsGrow(events: seq<Event>, e: Event, id: Id)
    requires EventIdsAre(events, id) && (e.id.Some? ==> e.id == Some(id))
    ensures EventIdsAre(events + [e], id) && OneId(events + [e])
  {
    var longer := events + [e];
    forall i | 0 <= i < |longer| ensures IdIs(longer, i, id) {
      if i < |events| {
        assert IdIs(events, i, id);
      }
    }
    forall i, j | 0 <= i < j < |longer| && longer[i].id.Some? && longer[j].id.Some? ensures longer[i].id == longer[j].id
    {
      assert IdIs(longer, i, id) && IdIs(longer, j, id);
    }
  }

  /** Recording an allowed event, wherever its append stops, keeps the invariant. */
  lemma RecordingKeepsInv(d: Disk, d': Disk, id: Id, e: Event)
    requires Inv(d, id) && d.attempt && d.pending.NoPending? && |d.events| < MAX_DMG_EVENTS
    requires e.state in Transitions(Some(Last(d.events).state)) && (e.id.Some? ==> e.id == Some(id))
    requires |d.events| == 1 ==> e.id.None?
    requires PublicationOk(d.events + [e], d.finalRoot)
    requires || d' == d || d' == d.(events := d.events + [e])
             || (d' == d.(pending := d'.pending) && (d'.pending.Cut? || d'.pending == Ready(e)))
    ensures Inv(d', id) && (NamesId(d) ==> NamesId(d'))
    ensures e.id.Some? && Projection(d') == d.events + [e] ==> NamesId(d')
    ensures Legal(d.events + [e])
  {
    var longer := d.events + [e];
    ConnectedGrows(d.events, e);
    IdsGrow(d.events, e, id);
    assert Projection(d') == d.events || Projection(d') == longer;
    assert longer[|d.events|] == e;
    if EventNamesId(d.events) {
      var i :| 0 <= i < |d.events| && d.events[i].id.Some?;
      assert longer[i].id.Some?;
    }
  }

  /** Every recorded acceptance or rejection is one that Apple gave. */
  predicate Backed(events: seq<Event>, acceptances: nat, rejections: nat)
  {
    Count(events, Accepted) <= acceptances && Count(events, Rejected) <= rejections
  }

  predicate MayRecord(events: seq<Event>, state: State, acceptances: nat, rejections: nat)
  {
    && (state == Accepted ==> Count(events, Accepted) < acceptances)
    && (state == Rejected ==> Count(events, Rejected) < rejections)
  }

  lemma BackedGrows(events: seq<Event>, e: Event, acceptances: nat, rejections: nat)
    requires Backed(events, acceptances, rejections) && MayRecord(events, e.state, acceptances, rejections)
    ensures Backed(events + [e], acceptances, rejections)
  {
    CountGrows(events, e, Accepted);
    CountGrows(events, e, Rejected);
  }

  /** The chosen deferral is allowed, says the truth, and agrees with the public set. */
  lemma DeferralFits(current: State, recovery: bool, published: bool, error: Error)
    requires Finalizing(current) || current in {Submitting, SubmissionObserved, Waiting, Recovering}
    requires (current == Recovering ==> recovery) && (error.RejectedByApple? ==> current in {Waiting, Recovering})
    ensures var s := DeferredState(current, recovery, published, error);
            && s in Transitions(Some(current)) && (Deferral(s) || s == Rejected)
            && DeferralMeans(current, published, error.RejectedByApple?, s)
            && ((published ==> PublicState(current)) ==> (s == PublicationDeferred <==> published))
  {
    DeferralLegalIff(current, recovery, published, error);
    DeferralIsTruthful(current, recovery, published, error);
  }

  /** What Apple says about the submission, if anything. */
  datatype Verdict = NoVerdict | AppleAccepted | AppleRejected

  class Transaction {
    var d: Disk
    var documents: seq<Event>     // volatile: the running process's journal
    ghost var theId: Id           // the one submission ID, once any file names one
    /** How often Apple accepted and rejected the submission. */
    ghost var acceptances: nat
    ghost var rejections: nat

    ghost predicate Valid()
      reads this
    {
      Inv(d, theId) && Backed(Projection(d), acceptances, rejections)
    }

    constructor ()
      ensures Valid() && d == EMPTY
    {
      d := EMPTY;
      documents := [];
      theId := "";
      acceptances, rejections := 0, 0;
    }

    // ----------------------------------------------------------------------- journal

    /** `_append`: capacity, then pending file, rename, in-memory append, validation. The
        validation comes after the durable write, so nothing here keeps an illegal event
        off the disk. */
    method Append(e: Event) returns (r: Stop)
      requires InStep(d, documents)
      modifies this`d, this`documents
      ensures InStep(d, documents)
      ensures old(documents != d.events || !d.pending.NoPending?) && old(d.pending) != Ready(e) ==>
                d == old(d) && r != Done
      ensures || d == old(d)
              || (&& old(d).pending.NoPending? && d == old(d).(pending := d.pending)
                  && (d.pending.Cut? || d.pending == Ready(e)))
              || (old(documents == d.events) && d == old(d).(pending := NoPending, events := old(d).events + [e]))
      ensures r == Done ==> d == old(d).(pending := NoPending, events := old(d).events + [e]) && documents == d.events
      ensures r != Done && r != Failed(TransitionError) ==> documents == old(documents)
      ensures r == Failed(CapacityError) <==> |old(documents)| >= MAX_DMG_EVENTS
      ensures r == Failed(TransitionError) ==> !Legal(old(documents) + [e])
      ensures r.Failed? ==> !r.error.RejectedByApple?
    {
      if |documents| >= MAX_DMG_EVENTS {
        return Failed(CapacityError);
      }
      if |d.events| > |documents| {
        return Failed(OtherError);          // the destination name exists
      }
      if !d.pending.NoPending? && d.pending != Ready(e) {
        return Failed(OtherError);          // a different pending file is never replaced
      }
      if d.pending.NoPending? {
        if * { return Failed(OtherError); }
        if * {
          var unended: bool := *;
          d := d.(pending := Cut(unended));    // which of the two, DmgPending.UnendedIff tells
          if * { return Crashed; } else { return Failed(OtherError); }
        }
        d := d.(pending := Ready(e));
        if * { return Crashed; }
        if * { return Failed(OtherError); }
      }
      d := d.(events := d.events + [e], pending := NoPending);
      if * { return Crashed; }
      if * { return Failed(OtherError); }   // renamed, but reported as a failure
      documents := documents + [e];
      var last := ValidateJournal(documents);
      if last.None? {
        return Failed(TransitionError);
      }
      return Done;
    }

    /** An append whose event the table allows: the invariant is kept wherever it stops, and
        it never fails for capacity or legality. */
    method Record(state: State, id: Option<Id>) returns (r: Stop)
      requires Valid() && d.attempt && documents == d.events && d.pending.NoPending? && |documents| < MAX_DMG_EVENTS
      requires state in Transitions(Some(Last(documents).state))
      requires id.Some? ==> id == Some(theId) && |documents| != 1
      requires PublicationOk(d.events + [Event(state, id)], d.finalRoot)
      requires MayRecord(d.events, state, acceptances, rejections)
      modifies this`d, this`documents
      ensures Valid() && InStep(d, documents) && old(d).events <= d.events
      ensures d.(events := old(d).events, pending := NoPending) == old(d)
      ensures r == Done ==> At(d, documents, theId, state) && documents == old(documents) + [Event(state, id)]
      ensures r == Done && id.Some? ==> NamesId(d)
      ensures r != Done ==> documents == old(documents)
      ensures Projection(d) == old(documents) || Projection(d) == old(documents) + [Event(state, id)]
      ensures r.Failed? ==> r.error == OtherError
      ensures NamesId(old(d)) ==> NamesId(d)
    {
      var e := Event(state, id);
      r := Append(e);
      RecordingKeepsInv(old(d), d, theId, e);
      BackedGrows(old(d).events, e, acceptances, rejections);
    }

    /** `_record_deferred`, whatever the failed append left behind. */
    method RecordDeferred(error: Error, id: Option<Id>, recovery: bool) returns (r: Stop)
      requires Valid() && d.attempt && InStep(d, documents) && 2 <= |documents| < MAX_DMG_EVENTS
      requires id.Some? ==> id == Some(theId)
      requires var current := Last(documents).state;
               && (|| Finalizing(current)
                   || current in {Submitting, SubmissionObserved, Waiting, Recovering, Published, Rejected})
               && (current == Recovering ==> recovery)
               && (error.RejectedByApple? ==> current in {Waiting, Recovering, Published, Rejected})
      requires error.RejectedByApple? ==> Count(Projection(d), Rejected) < rejections
      modifies this`d, this`documents
      ensures Valid() && old(d).events <= d.events
      ensures || Projection(d) == old(Projection(d))
              || (&& Projection(d) == old(documents) + [Last(Projection(d))] && Last(Projection(d)).id == id
                  && DeferralMeans(Last(old(documents)).state, d.finalRoot.Some?, error.RejectedByApple?,
                                   Last(Projection(d)).state))
      ensures d.(events := old(d).events, pending := old(d).pending) == old(d)
      ensures |Projection(d)| <= |old(documents)| + 1
      ensures NamesId(old(d)) ==> NamesId(d)
    {
      var current := Last(documents).state;
      var state := DeferredState(current, recovery, d.finalRoot.Some?, error);
      if current in {Published, Rejected} {
        return Done;
      }
      DeferralFits(current, recovery, d.finalRoot.Some?, error);
      r := DeferTo(state, id);
    }

    /** The deferral event, over whatever the failed append left. */
    method DeferTo(state: State, id: Option<Id>) returns (r: Stop)
      requires Valid() && d.attempt && InStep(d, documents) && 2 <= |documents| < MAX_DMG_EVENTS
      requires state in Transitions(Some(Last(documents).state)) && (Deferral(state) || state == Rejected)
      requires id.Some? ==> id == Some(theId)
      requires documents == d.events && d.pending.NoPending? ==> (state == PublicationDeferred <==> d.finalRoot.Some?)
      requires state == Rejected ==> Count(Projection(d), Rejected) < rejections
      modifies this`d, this`documents
      ensures Valid() && old(d).events <= d.events
      ensures d.(events := old(d).events, pending := old(d).pending) == old(d)
      ensures Projection(d) == old(Projection(d)) || Projection(d) == old(documents) + [Event(state, id)]
      ensures |Projection(d)| <= |old(documents)| + 1
      ensures NamesId(old(d)) ==> NamesId(d)
    {
      if documents == d.events && d.pending.NoPending? {
        r := RecordNow(state, id);
      } else {
        r := AppendOverLeftover(Event(state, id));
      }
    }

    method RecordNow(state: State, id: Option<Id>) returns (r: Stop)
      requires Valid() && d.attempt && documents == d.events && d.pending.NoPending?
      requires 2 <= |documents| < MAX_DMG_EVENTS
      requires state in Transitions(Some(Last(documents).state)) && (Deferral(state) || state == Rejected)
      requires id.Some? ==> id == Some(theId)
      requires state == PublicationDeferred ==> d.finalRoot.Some?
      requires d.finalRoot.Some? ==> state == PublicationDeferred
      requires state == Rejected ==> Count(d.events, Rejected) < rejections
      modifies this`d, this`documents
      ensures Valid() && old(d).events <= d.events
      ensures d.(events := old(d).events, pending := NoPending) == old(d)
      ensures Projection(d) == old(documents) || Projection(d) == old(documents) + [Event(state, id)]
      ensures NamesId(old(d)) ==> NamesId(d)
    {
      assert Last(d.events + [Event(state, id)]).state == state;
      r := Record(state, id);
    }

    /** After an append that failed halfway, the deferral event cannot be written: its name
        is taken, or a different pending file is in the way. */
    method AppendOverLeftover(e: Event) returns (r: Stop)
      requires Valid() && InStep(d, documents) && (documents != d.events || !d.pending.NoPending?)
      requires |documents| < MAX_DMG_EVENTS
      modifies this`d, this`documents
      ensures Valid() && Projection(d) == old(Projection(d)) && old(d).events <= d.events
      ensures d.(events := old(d).events, pending := old(d).pending) == old(d)
      ensures NamesId(old(d)) ==> NamesId(d)
    {
      r := Append(e);
      if d != old(d) {
        assert Projection(d) == Projection(old(d));
      }
    }

    // ------------------------------------------------------------------ finalization

    /** `_prepare_and_publish_set`. */
    method PrepareAndPublishSet(id: Id) returns (r: Stop)
      requires Valid() && At(d, documents, theId, ArtifactVerified) && id == theId && NamesId(d)
      requires |documents| + 2 <= MAX_DMG_EVENTS
      modifies this`d, this`documents
      ensures Valid() && d.attempt && InStep(d, documents) && old(d).events <= d.events && NamesId(d)
      ensures d.submits == old(d).submits && 2 <= |documents|
      ensures r == Done ==> At(d, documents, theId, Published) && d.finalRoot == Some(id)
      ensures r.Failed? ==> r.error == OtherError && Finalizing(Last(documents).state)
                            && |documents| <= |old(documents)| + 1
      ensures |Projection(d)| <= |old(documents)| + 2
      ensures old(d).finalRoot.None?           // so the first branch is never taken
    {
      SecondIsSubmitting(documents);
      if d.finalRoot.Some? {
        // The source would append `published` here, straight after `artifact_verified`.
        assert false;
      }
      r := SealSet(id);
      if r != Done { return; }
      :- Record(Sealed, Some(id));
      r := PublishSealed(id);
    }

    /** The publication half: exclusive rename, verification, event. */
    method PublishSealed(id: Id) returns (r: Stop)
      requires Valid() && At(d, documents, theId, Sealed) && id == theId && NamesId(d) && d.finalRoot.None?
      requires |documents| + 1 <= MAX_DMG_EVENTS && 2 <= |documents|
      modifies this`d, this`documents
      ensures Valid() && d.attempt && InStep(d, documents) && old(d).events <= d.events && NamesId(d)
      ensures d.submits == old(d).submits
      ensures r == Done ==> At(d, documents, theId, Published) && d.finalRoot == Some(id)
      ensures r != Done ==> documents == old(documents)
      ensures r.Failed? ==> r.error == OtherError
      ensures |documents| >= 2 && |Projection(d)| <= |old(documents)| + 1
    {
      if * { return Failed(OtherError); }      // fsync, or the publisher refused
      d := d.(finalRoot := Some(id), finalSet := Absent); // exclusive rename into place
      if * { return Crashed; }
      if * { return Failed(OtherError); }      // moved, but reported, verified or synced badly
      r := Record(Published, Some(id));
    }

    /** Rebuild or reuse the private final set and seal it. */
    method SealSet(id: Id) returns (r: Stop)
      requires Valid() && NamesId(d) && id == theId && d.attempt
      modifies this`d
      ensures Valid() && NamesId(d) && d.(finalSet := old(d).finalSet) == old(d)
      ensures r.Failed? ==> r.error == OtherError
    {
      if !d.finalSet.Absent? {
        var readable: bool := *;
        if d.finalSet.Torn? || !readable {
          d := d.(finalSet := Absent);
          if * { return Crashed; }
        } else if d.finalSet.doc != id {
          return Failed(OtherError);
        }
      }
      if d.finalSet.Absent? {
        d := d.(finalSet := Torn);
        if * { return Crashed; }
        if * { return Failed(OtherError); }
        d := d.(finalSet := Whole(id));
        if * { return Crashed; }
      }
      return Done;
    }

    /** One verification stage: its commands, then its event. */
    method Stage(state: State, id: Id) returns (r: Stop)
      requires Valid() && d.attempt && documents == d.events && d.pending.NoPending? && |documents| < MAX_DMG_EVENTS
      requires Finalizing(Last(documents).state) && Finalizing(state) && d.finalRoot.None?
      requires state in Transitions(Some(Last(documents).state)) && id == theId && 2 <= |documents|
      modifies this`d, this`documents
      ensures Valid() && d.attempt && InStep(d, documents) && old(d).events <= d.events
      ensures d.(events := old(d).events, pending := NoPending) == old(d)
      ensures r == Done ==> At(d, documents, theId, state) && |documents| == |old(documents)| + 1
      ensures r != Done ==> documents == old(documents)
      ensures r.Failed? ==> r.error == OtherError
      ensures |Projection(d)| <= |old(documents)| + 1
      ensures NamesId(old(d)) ==> NamesId(d)
    {
      if * { return Failed(OtherError); }
      r := Record(state, Some(id));
    }

    /** `_finalize_accepted`: at most seven events, at most six when it fails. */
    method FinalizeAccepted(id: Id) returns (r: Stop)
      requires Valid() && At(d, documents, theId, Accepted) && id == theId && NamesId(d)
      requires |documents| + 7 <= MAX_DMG_EVENTS
      modifies this`d, this`documents
      ensures Valid() && d.attempt && InStep(d, documents) && old(d).events <= d.events && NamesId(d)
      ensures d.submits == old(d).submits && 2 <= |documents|
      ensures r == Done ==> At(d, documents, theId, Published) && d.finalRoot == Some(id)
      ensures r.Failed? ==> r.error == OtherError && Finalizing(Last(documents).state)
                            && |documents| <= |old(documents)| + 6
      ensures |Projection(d)| <= |old(documents)| + 7
    {
      r := VerifyAccepted(id);
      if r != Done { return; }
      r := PrepareAndPublishSet(id);
    }

    /** The five verification stages. */
    method VerifyAccepted(id: Id) returns (r: Stop)
      requires Valid() && At(d, documents, theId, Accepted) && id == theId && |documents| + 7 <= MAX_DMG_EVENTS
      modifies this`d, this`documents
      ensures Valid() && d.attempt && InStep(d, documents) && old(d).events <= d.events
      ensures d.submits == old(d).submits && d.finalRoot == old(d).finalRoot && 2 <= |documents|
      ensures r == Done ==> At(d, documents, theId, ArtifactVerified) && |documents| == |old(documents)| + 5
      ensures r.Failed? ==> r.error == OtherError && Finalizing(Last(documents).state)
                            && |documents| <= |old(documents)| + 4
      ensures |Projection(d)| <= |old(documents)| + 5
      ensures NamesId(old(d)) ==> NamesId(d)
    {
      SecondIsSubmitting(documents);
      :- StapleAndVerify(id);
      r := VerifyTicket(id);
    }

    /** `_load_or_capture_gatekeeper` and the artifact verification. */
    method VerifyTicket(id: Id) returns (r: Stop)
      requires Valid() && At(d, documents, theId, Stapled) && id == theId
      requires |documents| + 2 <= MAX_DMG_EVENTS && 2 <= |documents|
      modifies this`d, this`documents
      ensures Valid() && d.attempt && InStep(d, documents) && old(d).events <= d.events
      ensures d.submits == old(d).submits && d.finalRoot == old(d).finalRoot && 2 <= |documents|
      ensures r == Done ==> At(d, documents, theId, ArtifactVerified) && |documents| == |old(documents)| + 2
      ensures r.Failed? ==> r.error == OtherError && Finalizing(Last(documents).state)
                            && |documents| <= |old(documents)| + 1
      ensures |Projection(d)| <= |old(documents)| + 2
      ensures NamesId(old(d)) ==> NamesId(d)
    {
      r := Stage(GatekeeperVerified, id);
      if r != Done { return; }
      r := Stage(ArtifactVerified, id);
    }

    /** `_fetch_log` and `_staple_and_verify`. */
    method StapleAndVerify(id: Id) returns (r: Stop)
      requires Valid() && At(d, documents, theId, Accepted) && id == theId
      requires |documents| + 3 <= MAX_DMG_EVENTS && 2 <= |documents|
      modifies this`d, this`documents
      ensures Valid() && d.attempt && InStep(d, documents) && old(d).events <= d.events
      ensures d.submits == old(d).submits && d.finalRoot == old(d).finalRoot && 2 <= |documents|
      ensures r == Done ==> At(d, documents, theId, Stapled) && |documents| == |old(documents)| + 3
      ensures r.Failed? ==> r.error == OtherError && Finalizing(Last(documents).state)
                            && |documents| <= |old(documents)| + 2
      ensures |Projection(d)| <= |old(documents)| + 3
      ensures NamesId(old(d)) ==> NamesId(d)
    {
      r := Stage(LogVerified, id);
      if r != Done { return; }
      r := Staple(id);
    }

    method Staple(id: Id) returns (r: Stop)
      requires Valid() && At(d, documents, theId, LogVerified) && id == theId && |documents| + 2 <= MAX_DMG_EVENTS
      requires 2 <= |documents|
      modifies this`d, this`documents
      ensures Valid() && d.attempt && InStep(d, documents) && old(d).events <= d.events
      ensures d.submits == old(d).submits && d.finalRoot == old(d).finalRoot && 2 <= |documents|
      ensures r == Done ==> At(d, documents, theId, Stapled) && |documents| == |old(documents)| + 2
      ensures r.Failed? ==> r.error == OtherError && Finalizing(Last(documents).state)
                            && |documents| <= |old(documents)| + 1
      ensures |Projection(d)| <= |old(documents)| + 2
      ensures NamesId(old(d)) ==> NamesId(d)
    {
      if d.staplePending { return Failed(OtherError); }   // stale_staple_pending
      d := d.(staplePending := true);
      if * { return Crashed; }
      :- Stage(Stapling, id);
      r := Stage(Stapled, id);
    }

    // ------------------------------------------------------------------------- start

    /** `execute_transaction`. */
    method StartTransaction() returns (r: Stop)
      requires Valid()
      modifies this
      ensures Valid() && old(d).events <= d.events
      ensures old(d).attempt ==> d == old(d) && theId == old(theId) && r != Done
      ensures r == Done ==> d.finalRoot == Some(theId) && Last(d.events).state == Published && d.submits == 1
      ensures r.Failed? ==> r.error !in {CapacityError, TransitionError}
    {
      if * { return Failed(OtherError); }
      if d.finalRoot.Some? || d.attempt {
        return Failed(OtherError);             // release_set_exists, attempt_exists
      }
      if * { return Failed(OtherError); }      // nothing published: the DMG is moved back
      d := d.(attempt := true, events := [Event(Prepared, None)]);
      if * { return Crashed; }
      if * { return Failed(OtherError); }
      documents := d.events;
      r := DirectSubmit();
    }

    /** `_direct_submit`: the only place that issues the submit command. */
    method DirectSubmit() returns (r: Stop)
      requires Valid() && At(d, documents, theId, Prepared) && documents == [Event(Prepared, None)]
      modifies this
      ensures Valid() && old(d).events <= d.events
      ensures r == Done ==> d.finalRoot == Some(theId) && Last(d.events).state == Published && d.submits == 1
      ensures r.Failed? ==> r.error !in {CapacityError, TransitionError}
    {
      r := IssueSubmit();
      if r != Done { return; }
      var id;
      r, id := SubmitAndFinalize();
      if r.Failed? {
        var _ := RecordDeferred(r.error, id, false);
      }
    }

    /** The intent to submit is durable before the command is issued. */
    method IssueSubmit() returns (r: Stop)
      requires Valid() && At(d, documents, theId, Prepared) && documents == [Event(Prepared, None)]
      modifies this`d, this`documents
      ensures Valid() && old(d).events <= d.events
      ensures r == Done ==> At(d, documents, theId, Submitting) && |documents| == 2 && !NamesId(d) && d.submits == 1
      ensures r.Failed? ==> r.error == OtherError
    {
      if * { return Failed(OtherError); }
      r := Record(Submitting, None);
      if r == Done {
        d := d.(submits := d.submits + 1);
      }
    }

    method SubmitAndFinalize() returns (r: Stop, id: Option<Id>)
      requires Valid() && At(d, documents, theId, Submitting) && |documents| == 2 && !NamesId(d) && d.submits == 1
      modifies this
      ensures Valid() && d.attempt && InStep(d, documents) && old(d).events <= d.events && 2 <= |documents|
      ensures id.Some? ==> id == Some(theId)
      ensures d.submits == 1
      ensures r == Done ==> d.finalRoot == Some(theId) && At(d, documents, theId, Published)
      ensures r.Failed? ==>
                && r.error !in {CapacityError, TransitionError}
                && |documents| < MAX_DMG_EVENTS
                && (|| Finalizing(Last(documents).state)
                    || Last(documents).state in {Submitting, SubmissionObserved, Waiting})
                && (r.error.RejectedByApple? ==> Last(documents).state == Waiting)
      ensures r == Failed(RejectedByApple) ==> Count(Projection(d), Rejected) < rejections
    {
      id := None;
      if * { return Crashed, id; }
      if * { return Failed(OtherError), id; }  // the command failed or named no ID
      var projected: Id := *;
      theId := projected;
      id := Some(projected);
      r := PersistSubmission(projected);
      if r != Done { return; }
      r := WaitAndFinalize(projected);
    }

    /** Observe, wait for Apple, finalize. */
    method WaitAndFinalize(id: Id) returns (r: Stop)
      requires Valid() && At(d, documents, theId, Submitting) && |documents| == 2 && id == theId && d.finalRoot.None?
      modifies this`d, this`documents, this`acceptances, this`rejections
      ensures Valid() && d.attempt && InStep(d, documents) && old(d).events <= d.events && 2 <= |documents|
      ensures d.submits == old(d).submits
      ensures r == Done ==> d.finalRoot == Some(theId) && At(d, documents, theId, Published)
      ensures r.Failed? ==>
                && r.error !in {CapacityError, TransitionError}
                && |documents| < MAX_DMG_EVENTS
                && (|| Finalizing(Last(documents).state)
                    || Last(documents).state in {Submitting, SubmissionObserved, Waiting})
                && (r.error.RejectedByApple? ==> Last(documents).state == Waiting)
      ensures r == Failed(RejectedByApple) ==> Count(Projection(d), Rejected) < rejections
    {
      r := AwaitVerdict(id);
      if r != Done { return; }
      r := FinalizeAccepted(id);
    }

    /** Up to the accepted event. */
    method AwaitVerdict(id: Id) returns (r: Stop)
      requires Valid() && At(d, documents, theId, Submitting) && |documents| == 2 && id == theId && d.finalRoot.None?
      modifies this`d, this`documents, this`acceptances, this`rejections
      ensures Valid() && d.attempt && InStep(d, documents) && old(d).events <= d.events
      ensures d.submits == old(d).submits && 2 <= |documents| <= 5
      ensures acceptances <= old(acceptances) + 1 && rejections <= old(rejections) + 1
      ensures r == Done ==> At(d, documents, theId, Accepted) && NamesId(d) && acceptances == old(acceptances) + 1
      ensures r == Failed(RejectedByApple) ==> Count(Projection(d), Rejected) < rejections
      ensures r.Failed? ==>
                && r.error in {OtherError, RejectedByApple}
                && Last(documents).state in {Submitting, SubmissionObserved, Waiting}
                && (r.error.RejectedByApple? ==> Last(documents).state == Waiting)
    {
      r := Announce(id);
      if r != Done { return; }
      r := HearVerdict(id);
    }

    method HearVerdict(id: Id) returns (r: Stop)
      requires Valid() && At(d, documents, theId, Waiting) && 2 <= |documents| <= 4 && id == theId && NamesId(d)
      requires d.finalRoot.None?
      modifies this`d, this`documents, this`acceptances, this`rejections
      ensures Valid() && d.attempt && InStep(d, documents) && old(d).events <= d.events
      ensures d.submits == old(d).submits && 2 <= |documents| <= 5
      ensures acceptances <= old(acceptances) + 1 && rejections <= old(rejections) + 1
      ensures r == Done ==> At(d, documents, theId, Accepted) && NamesId(d) && acceptances == old(acceptances) + 1
      ensures r != Done ==> documents == old(documents)
      ensures r.Failed? ==> r.error in {OtherError, RejectedByApple}
      ensures r == Failed(RejectedByApple) ==> Count(Projection(d), Rejected) < rejections
    {
      var verdict: Verdict := *;
      match verdict {
        case NoVerdict => return Failed(OtherError);
        case AppleRejected =>
          rejections := rejections + 1;
          return Failed(RejectedByApple);
        case AppleAccepted =>
          acceptances := acceptances + 1;
          r := Record(Accepted, Some(id));
      }
    }

    method Announce(id: Id) returns (r: Stop)
      requires Valid() && At(d, documents, theId, Submitting) && |documents| == 2 && id == theId && d.finalRoot.None?
      modifies this`d, this`documents
      ensures Valid() && d.attempt && InStep(d, documents) && old(d).events <= d.events
      ensures d.submits == old(d).submits && d.finalRoot.None? && 2 <= |documents| <= 4
      ensures r == Done ==> At(d, documents, theId, Waiting) && NamesId(d)
      ensures r.Failed? ==> r.error == OtherError && Last(documents).state in {Submitting, SubmissionObserved}
    {
      r := Record(SubmissionObserved, Some(id));
      if r != Done { return; }
      r := Record(Waiting, Some(id));
    }

    /** `_persist_observation`, the submit checks, `_persist_submission_receipt`. */
    method PersistSubmission(id: Id) returns (r: Stop)
      requires Valid() && id == theId && 2 <= |d.events| && !NamesId(d)
      modifies this`d
      ensures Valid() && d.(observation := old(d).observation, receipt := old(d).receipt) == old(d)
      ensures r.Failed? ==> r.error == OtherError
    {
      if * {
        d := d.(observation := Torn);
        if * { return Crashed; } else { return Failed(OtherError); }
      }
      d := d.(observation := Whole(id));
      if * { return Crashed; }
      if * { return Failed(OtherError); }      // nonzero exit, diagnostics, identity change
      if * {
        d := d.(receipt := Torn);
        if * { return Crashed; } else { return Failed(OtherError); }
      }
      d := d.(receipt := Whole(Receipt(id, false, "")));
      if * { return Crashed; }
      return Done;
    }

    // ---------------------------------------------------------------------- recovery

    /** `_load_attempt` with the recovery admission: capacity is checked on the projection
        before the pending event is renamed or discarded. A cut event is discarded exactly
        when more than its newline is missing. */
    method LoadAttempt() returns (r: Stop)
      requires Valid()
      modifies this`d, this`documents
      ensures Valid() && old(d).events <= d.events && Projection(d) == Projection(old(d))
      ensures d.(events := old(d).events, pending := old(d).pending) == old(d)
      ensures r == Done ==> d.attempt && documents == d.events && d.pending.NoPending? && !d.observation.Torn?
      ensures r == Done ==> |documents| + (if Last(documents).state == Published then 0
                                           else if d.finalRoot.Some? then 1
                                           else RECOVERY_EVENT_RESERVE) <= MAX_DMG_EVENTS
      ensures r.Failed? ==> r.error !in {RejectedByApple, TransitionError}
      ensures old(d).pending == Cut(true) ==> d == old(d) && r == Failed(OtherError)
      ensures old(Halted(d)) ==> r != Done
    {
      if !d.attempt { return Failed(OtherError); }
      if * { return Failed(OtherError); }
      if d.pending == Cut(true) {
        return Failed(OtherError);             // decodes, but is not canonical
      }
      var loaded := Projection(d);
      InvIsLegal(d, theId);
      var last := ValidateJournal(loaded);
      if last.None? {
        return Failed(OtherError);
      }
      var required := if last.value == Published then 0 else if d.finalRoot.Some? then 1 else RECOVERY_EVENT_RESERVE;
      if |loaded| + required > MAX_DMG_EVENTS {
        return Failed(CapacityError);
      }
      d := d.(events := loaded, pending := NoPending);
      if * { return Crashed; }
      documents := loaded;
      if d.observation.Torn? || d.receipt.Torn? {
        return Failed(OtherError);
      }
      if d.receipt.Whole? && !d.receipt.doc.explicitRecovery && d.observation.Absent? {
        assert false;                          // a direct receipt is never without its observation
      }
      return Done;
    }

    /** The ID durable evidence names, if any. */
    method KnownId() returns (known: Option<Id>)
      requires Valid() && documents == Projection(d)
      ensures known.Some? <==> NamesId(d)
      ensures known.Some? ==> known == Some(theId)
    {
      if d.observation.Whole? {
        return Some(d.observation.doc);
      }
      if d.receipt.Whole? {
        return Some(d.receipt.doc.id);
      }
      for k := 0 to |documents|
        invariant forall i | 0 <= i < k :: documents[i].id.None?
      {
        if documents[k].id.Some? {
          assert IdIs(documents, k, theId);
          return documents[k].id;
        }
      }
      return None;
    }

    /** `recover_transaction`. It appends at most nine events; a capacity failure can only
        happen at admission, before anything changed. */
    method RecoverTransaction(id: Id) returns (r: Stop)
      requires Valid()
      modifies this
      ensures Valid() && old(d).events <= d.events
      ensures d.submits == old(d).submits && d.attempt == old(d).attempt
      ensures NamesId(old(d)) ==> NamesId(d) && theId == old(theId)
      ensures |Projection(d)| <= |Projection(old(d))| + RECOVERY_EVENT_RESERVE
      ensures r == Failed(CapacityError) ==> Projection(d) == Projection(old(d))
      ensures r != Failed(TransitionError)
      ensures r == Done ==> d.finalRoot == Some(id) && id == theId && Last(d.events).state == Published
      ensures old(Halted(d)) ==> r != Done && Halted(d) && d.finalRoot == old(d).finalRoot
      ensures old(d).pending == Cut(true) ==> d == old(d)
    {
      r := LoadAttempt();
      if r != Done { return; }
      if * { return Failed(OtherError); }      // prepackage stage
      var known := KnownId();
      if known.Some? && known.value != id {
        return Failed(OtherError);
      }
      r := RecoverLoaded(id);
    }

    /** The branches of `recover_transaction` once the attempt is loaded. */
    method RecoverLoaded(id: Id) returns (r: Stop)
      requires Valid() && d.attempt && documents == d.events && d.pending.NoPending? && !d.observation.Torn?
      requires NamesId(d) ==> id == theId
      requires |documents| + (if Last(documents).state == Published then 0
                              else if d.finalRoot.Some? then 1 else RECOVERY_EVENT_RESERVE) <= MAX_DMG_EVENTS
      modifies this
      ensures Valid() && old(d).events <= d.events
      ensures d.submits == old(d).submits && d.attempt
      ensures NamesId(old(d)) ==> NamesId(d) && theId == old(theId)
      ensures |Projection(d)| <= |old(documents)| + RECOVERY_EVENT_RESERVE
      ensures r.Failed? ==> r.error !in {CapacityError, TransitionError}
      ensures r == Done ==> d.finalRoot == Some(id) && id == theId && Last(d.events).state == Published
    {
      var state := Last(documents).state;
      if state == Rejected {
        return Failed(OtherError);
      }
      if state == Published {
        if d.finalRoot.value != id { return Failed(OtherError); }
        if * { return Failed(OtherError); }    // verification or durability
        return Done;
      }
      if d.finalRoot.Some? {
        if state !in {PublicationDeferred, Sealed} {
          return Failed(OtherError);           // published_set_without_seal_event
        }
        if d.finalRoot.value != id { return Failed(OtherError); }
        if * { return Failed(OtherError); }
        SecondIsSubmitting(documents);
        :- Record(Published, Some(id));
        return Done;
      }
      if state == Prepared {
        return Failed(OtherError);             // recovery_state_unsupported
      }
      r := RecoverUnpublished(id);
    }

    method RecoverUnpublished(id: Id) returns (r: Stop)
      requires Valid() && d.attempt && documents == d.events && d.pending.NoPending? && d.finalRoot.None?
      requires Last(documents).state !in {Prepared, Published, Rejected}
      requires (NamesId(d) ==> id == theId) && !d.observation.Torn?
      requires |documents| + RECOVERY_EVENT_RESERVE <= MAX_DMG_EVENTS
      modifies this
      ensures Valid() && d.attempt && old(d).events <= d.events
      ensures d.submits == old(d).submits
      ensures NamesId(old(d)) ==> NamesId(d) && theId == old(theId)
      ensures |Projection(d)| <= |old(documents)| + RECOVERY_EVENT_RESERVE
      ensures r.Failed? ==> r.error !in {CapacityError, TransitionError}
      ensures r == Done ==> d.finalRoot == Some(id) && id == theId && Last(d.events).state == Published
    {
      r := BeginRecovery(id);
      if r != Done { return; }
      r := RecoverRecorded(id);
    }

    /** Private state is discarded and `recovering` is recorded. */
    method BeginRecovery(id: Id) returns (r: Stop)
      requires Valid() && d.attempt && documents == d.events && d.pending.NoPending? && d.finalRoot.None?
      requires Last(documents).state !in {Prepared, Published, Rejected}
      requires NamesId(d) ==> id == theId
      requires |documents| + RECOVERY_EVENT_RESERVE <= MAX_DMG_EVENTS
      modifies this`d, this`documents, this`theId
      ensures Valid() && d.attempt && old(d).events <= d.events
      ensures d.submits == old(d).submits && d.observation == old(d).observation
      ensures NamesId(old(d)) ==> NamesId(d) && theId == old(theId)
      ensures |Projection(d)| <= |old(documents)| + 1
      ensures r.Failed? ==> r.error == OtherError
      ensures r == Done ==> && At(d, documents, theId, Recovering) && id == theId && NamesId(d)
                            && |documents| == |old(documents)| + 1
    {
      SecondIsSubmitting(documents);
      r := DiscardPrivateState();
      if r != Done { return; }
      AnyIdFits(d, theId, id);
      theId := id;
      r := Record(Recovering, Some(id));
    }

    /** After `recovering` is recorded, any failure is recorded as a deferral. */
    method RecoverRecorded(id: Id) returns (r: Stop)
      requires Valid() && At(d, documents, theId, Recovering) && id == theId && NamesId(d) && 2 <= |documents|
      requires !d.observation.Torn?
      requires |documents| + 8 <= MAX_DMG_EVENTS
      modifies this`d, this`documents, this`acceptances, this`rejections
      ensures Valid() && d.attempt && old(d).events <= d.events && NamesId(d)
      ensures d.submits == old(d).submits
      ensures |Projection(d)| <= |old(documents)| + 8
      ensures r.Failed? ==> r.error !in {CapacityError, TransitionError}
      ensures r == Done ==> d.finalRoot == Some(id) && Last(d.events).state == Published
    {
      r := RecoverAndFinalize(id);
      if r.Failed? {
        var _ := RecordDeferred(r.error, Some(id), true);
      }
    }

    /** Left-over staple copy and unpublished set are discarded first. */
    method DiscardPrivateState() returns (r: Stop)
      requires Valid() && d.attempt
      modifies this`d
      ensures Valid() && d.(staplePending := old(d).staplePending, finalSet := old(d).finalSet) == old(d)
      ensures NamesId(d) == NamesId(old(d)) && Projection(d) == Projection(old(d))
      ensures r == Done ==> d.finalSet.Absent?
      ensures !r.Failed?
    {
      d := d.(staplePending := false);
      if * { return Crashed; }
      d := d.(finalSet := Absent);
      if * { return Crashed; }
      return Done;
    }

    method RecoverAndFinalize(id: Id) returns (r: Stop)
      requires Valid() && At(d, documents, theId, Recovering) && id == theId && NamesId(d) && 2 <= |documents|
      requires !d.observation.Torn?
      requires |documents| + 8 <= MAX_DMG_EVENTS
      modifies this`d, this`documents, this`acceptances, this`rejections
      ensures Valid() && d.attempt && InStep(d, documents) && old(d).events <= d.events && NamesId(d)
      ensures d.submits == old(d).submits && 2 <= |documents|
      ensures |Projection(d)| <= |old(documents)| + 8
      ensures r == Done ==> d.finalRoot == Some(id) && At(d, documents, theId, Published)
      ensures r.Failed? ==>
                && r.error !in {CapacityError, TransitionError}
                && |documents| <= |old(documents)| + 7
                && (Finalizing(Last(documents).state) || Last(documents).state == Recovering)
                && (r.error.RejectedByApple? ==> Last(documents).state == Recovering)
      ensures r == Failed(RejectedByApple) ==> Count(Projection(d), Rejected) < rejections
    {
      r := RecoverVerdict(id);
      if r != Done { return; }
      r := FinalizeAccepted(id);
    }

    /** `_read_recovery_acceptance`, the receipt and the accepted event. */
    method RecoverVerdict(id: Id) returns (r: Stop)
      requires Valid() && At(d, documents, theId, Recovering) && id == theId && NamesId(d) && 2 <= |documents|
      requires !d.observation.Torn? && |documents| + 8 <= MAX_DMG_EVENTS
      modifies this`d, this`documents, this`acceptances, this`rejections
      ensures Valid() && d.attempt && InStep(d, documents) && old(d).events <= d.events && NamesId(d)
      ensures d.submits == old(d).submits && |Projection(d)| <= |old(documents)| + 1
      ensures acceptances <= old(acceptances) + 1 && rejections <= old(rejections) + 1
      ensures r == Done ==> && At(d, documents, theId, Accepted) && |documents| == |old(documents)| + 1
                            && acceptances == old(acceptances) + 1
      ensures r != Done ==> documents == old(documents)
      ensures r.Failed? ==> r.error in {OtherError, RejectedByApple}
      ensures r == Failed(RejectedByApple) ==> Count(Projection(d), Rejected) < rejections
    {
      var verdict: Verdict := *;
      if verdict == AppleRejected {
        rejections := rejections + 1;
        return Failed(RejectedByApple);
      }
      if verdict == NoVerdict { return Failed(OtherError); }
      acceptances := acceptances + 1;
      if * { return Failed(OtherError); }      // window, history
      var createdAt: string := *;
      r := PersistRecoveryReceipt(id, createdAt);
      if r != Done { return; }
      r := Record(Accepted, Some(id));
    }

    method PersistRecoveryReceipt(id: Id, createdAt: string) returns (r: Stop)
      requires Valid() && id == theId && NamesId(d) && 2 <= |d.events| && !d.observation.Torn?
      modifies this`d
      ensures Valid() && NamesId(d) && d.(receipt := old(d).receipt) == old(d)
      ensures r.Failed? ==> r.error == OtherError
    {
      if d.receipt.Absent? {
        if * {
          d := d.(receipt := Torn);
          if * { return Crashed; } else { return Failed(OtherError); }
        }
        d := d.(receipt := Whole(Receipt(id, !d.observation.Whole?, createdAt)));
        if * { return Crashed; }
      } else if d.receipt.Whole? && d.receipt.doc.explicitRecovery && d.receipt.doc.createdAt != createdAt {
        return Failed(OtherError);
      }
      return Done;
    }

    // --------------------------------------------------------------------- whole runs

    method Enter(op: Op) returns (r: Stop)
      requires Valid()
      modifies this
      ensures Valid() && old(d).events <= d.events
      ensures old(d).attempt ==> d.attempt && d.submits == old(d).submits
      ensures NamesId(old(d)) ==> NamesId(d) && theId == old(theId)
      ensures old(Halted(d)) ==> r != Done && Halted(d) && d.finalRoot == old(d).finalRoot
      ensures old(d).pending == Cut(true) ==> d == old(d)
    {
      match op {
        case Start => r := StartTransaction();
        case Recover(id) => r := RecoverTransaction(id);
      }
    }

    /** Any sequence of starts and recoveries, each failing or crashing anywhere: the
        journal on disk stays legal and within its bound, `submit` is issued at most once,
        one submission ID at most is durable and never replaced, and the public set exists
        only over the sealed boundary. Over a halted attempt nothing ever succeeds. */
    method Perform(ops: seq<Op>) returns (outcomes: seq<Stop>)
      requires Valid()
      modifies this
      ensures Valid() && old(d).events <= d.events
      ensures Legal(Projection(d)) && |Projection(d)| <= MAX_DMG_EVENTS
      ensures d.submits <= 1 && (old(d).attempt ==> d.submits == old(d).submits)
      ensures AllIdsAre(d, theId) && (NamesId(old(d)) ==> theId == old(theId))
      ensures d.finalRoot.Some? ==> PublicState(Last(Projection(d)).state) && acceptances > 0
      ensures Count(Projection(d), Accepted) <= acceptances && Count(Projection(d), Rejected) <= rejections
      ensures |outcomes| == |ops|
      ensures old(Halted(d)) ==> Done !in outcomes && Halted(d) && d.finalRoot == old(d).finalRoot
      ensures old(d).pending == Cut(true) ==> d == old(d)
    {
      outcomes := [];
      for k := 0 to |ops|
        invariant Valid() && old(d).events <= d.events
        invariant old(d).attempt ==> d.attempt && d.submits == old(d).submits
        invariant NamesId(old(d)) ==> NamesId(d) && theId == old(theId)
        invariant |outcomes| == k
        invariant old(Halted(d)) ==> Done !in outcomes && Halted(d) && d.finalRoot == old(d).finalRoot
        invariant old(d).pending == Cut(true) ==> d == old(d)
      {
        var r := Enter(ops[k]);
        outcomes := outcomes + [r];
      }
      InvIsLegal(d, theId);
      if d.finalRoot.Some? {
        AcceptanceIsRecorded(Projection(d), |Projection(d)| - 1);
      }
    }
  }
}
