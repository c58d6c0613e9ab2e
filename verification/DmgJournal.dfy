/** The notarization journal of the DMG transaction: its states, its transition table, the
    validator, and what every legal journal looks like
    (scripts/dmg_notarization_transaction.py). */
module DmgJournal {
  import opened Common

  const MAX_DMG_EVENTS := 64
  const RECOVERY_EVENT_RESERVE := 9

  datatype State =
    | Accepted | ArtifactVerified | FinalizationDeferred | GatekeeperVerified | LogVerified
    | OutcomeUnknown | Prepared | PublicationDeferred | Published | Recovering
    | RecoveryDeferred | Rejected | Sealed | Stapled | Stapling
    | SubmissionObserved | Submitting | Waiting

  type Id = string

  datatype Event = Event(state: State, id: Option<Id>)

  /** `TRANSITIONS`. */
  function Transitions(from: Option<State>): set<State>
  {
    match from
    case None => {Prepared}
    case Some(Prepared) => {Submitting}
    case Some(Submitting) => {OutcomeUnknown, Recovering, SubmissionObserved}
    case Some(SubmissionObserved) => {OutcomeUnknown, Recovering, Waiting}
    case Some(Waiting) => {Accepted, OutcomeUnknown, Recovering, Rejected}
    case Some(OutcomeUnknown) => {Recovering}
    case Some(RecoveryDeferred) => {Recovering}
    case Some(FinalizationDeferred) => {Recovering}
    case Some(PublicationDeferred) => {Published, Recovering}
    case Some(Recovering) => {Accepted, Recovering, RecoveryDeferred, Rejected}
    case Some(Accepted) => {FinalizationDeferred, LogVerified, Recovering}
    case Some(LogVerified) => {FinalizationDeferred, Recovering, Stapling}
    case Some(Stapling) => {FinalizationDeferred, Recovering, Stapled}
    case Some(Stapled) => {FinalizationDeferred, GatekeeperVerified, Recovering}
    case Some(GatekeeperVerified) => {ArtifactVerified, FinalizationDeferred, Recovering}
    case Some(ArtifactVerified) => {FinalizationDeferred, Recovering, Sealed}
    case Some(Sealed) => {FinalizationDeferred, PublicationDeferred, Published, Recovering}
    case Some(Published) => {}
    case Some(Rejected) => {}
  }

  function StateBefore(events: seq<Event>, k: nat): Option<State>
    requires k <= |events|
  {
    if k == 0 then None else Some(events[k - 1].state)
  }

  /** Event k follows its predecessor in the table. */
  predicate Follows(events: seq<Event>, k: nat)
    requires k < |events|
  {
    events[k].state in Transitions(StateBefore(events, k))
  }

  /** All recorded submission IDs agree. */
  predicate OneId(events: seq<Event>)
  {
    forall i, j | 0 <= i < j < |events| && events[i].id.Some? && events[j].id.Some? :: events[i].id == events[j].id
  }

  /** Every event follows its predecessor. */
  predicate Connected(events: seq<Event>)
  {
    forall k | 0 <= k < |events| :: Follows(events, k)
  }

  predicate Legal(events: seq<Event>)
  {
    Connected(events) && OneId(events)
  }

  predicate KeepsId(events: seq<Event>, id: Option<Id>)
  {
    id.Some? ==> forall i | 0 <= i < |events| && events[i].id.Some? :: events[i].id == id
  }

  predicate LegalNext(events: seq<Event>, e: Event)
  {
    e.state in Transitions(StateBefore(events, |events|)) && KeepsId(events, e.id)
  }

  lemma FollowsPrefix(events: seq<Event>, n: nat, k: nat)
    requires k < n <= |events|
    ensures Follows(events[..n], k) <==> Follows(events, k)
  {
    assert StateBefore(events[..n], k) == StateBefore(events, k);
  }

  lemma OneIdGrows(events: seq<Event>, e: Event)
    ensures OneId(events + [e]) <==> OneId(events) && KeepsId(events, e.id)
  {
    var longer := events + [e];
    if OneId(longer) {
      forall i, j | 0 <= i < j < |events| && events[i].id.Some? && events[j].id.Some?
        ensures events[i].id == events[j].id
      {
        assert longer[i].id == longer[j].id;
      }
      forall i | e.id.Some? && 0 <= i < |events| && events[i].id.Some?
        ensures events[i].id == e.id
      {
        assert longer[i].id == longer[|events|].id;
      }
    }
  }

  lemma LegalGrows(events: seq<Event>, e: Event)
    ensures Legal(events + [e]) <==> Legal(events) && LegalNext(events, e)
  {
    OneIdGrows(events, e);
    ConnectedGrows(events, e);
  }

  lemma ConnectedGrows(events: seq<Event>, e: Event)
    ensures Connected(events + [e]) <==> Connected(events) && e.state in Transitions(StateBefore(events, |events|))
  {
    var longer := events + [e];
    assert longer[..|events|] == events;
    forall k | 0 <= k < |events|
      ensures Follows(longer, k) <==> Follows(events, k)
    {
      FollowsPrefix(longer, |events|, k);
    }
    assert Follows(longer, |events|) <==> e.state in Transitions(StateBefore(events, |events|));
    if Connected(longer) {
      forall k | 0 <= k < |events|
        ensures Follows(events, k)
      {
        assert Follows(longer, k);
      }
      assert Follows(longer, |events|);
    }
  }

  /** `_validate_journal`: the loop with its running state and running ID. */
  method ValidateJournal(events: seq<Event>) returns (last: Option<State>)
    ensures last.Some? <==> Legal(events) && 1 <= |events| <= MAX_DMG_EVENTS
    ensures last.Some? ==> last == StateBefore(events, |events|)
  {
    if events == [] || |events| > MAX_DMG_EVENTS {
      return None;
    }
    var previous: Option<State> := None;
    var known: Option<Id> := None;
    for k := 0 to |events|
      invariant previous == StateBefore(events, k)
      invariant Legal(events[..k])
      invariant IsKnownId(events[..k], known)
    {
      var e := events[k];
      assert events[..k + 1] == events[..k] + [e];
      LegalGrows(events[..k], e);
      KnownIdDecides(events[..k], known, e);
      if e.state !in Transitions(previous) {
        PrefixIllegal(events, k + 1);
        return None;
      }
      if e.id.Some? {
        if known.None? {
          known := e.id;
        } else if e.id != known {
          PrefixIllegal(events, k + 1);
          return None;
        }
      }
      previous := Some(e.state);
    }
    assert events[..|events|] == events;
    return previous;
  }

  /** The running ID is the one ID recorded so far, if any. */
  predicate IsKnownId(events: seq<Event>, known: Option<Id>)
  {
    && (forall i | 0 <= i < |events| && events[i].id.Some? :: events[i].id == known)
    && (known.Some? ==> exists i :: 0 <= i < |events| && events[i].id == known)
  }

  lemma KnownIdDecides(events: seq<Event>, known: Option<Id>, e: Event)
    requires IsKnownId(events, known)
    ensures KeepsId(events, e.id) <==> e.id.None? || known.None? || e.id == known
    ensures KeepsId(events, e.id) ==> IsKnownId(events + [e], if known.None? then e.id else known)
  {
    var longer := events + [e];
    if known.Some? {
      var i :| 0 <= i < |events| && events[i].id == known;
      assert longer[i].id == known;
    } else if e.id.Some? {
      assert longer[|events|].id == e.id;
    }
  }

  lemma PrefixIllegal(events: seq<Event>, k: nat)
    requires k <= |events| && !Legal(events[..k])
    ensures !Legal(events)
  {
    if Legal(events) {
      forall i | 0 <= i < k
        ensures Follows(events[..k], i)
      {
        FollowsPrefix(events, k, i);
      }
    }
  }

  // ---------------------------------------------------------- shape of legal journals

  /** A legal journal announces at most one submission: `submitting` occurs only as the
      second event, directly after `prepared`, which occurs only first. */
  lemma SubmittingOnlyOnce(events: seq<Event>, k: nat)
    requires Legal(events) && k < |events|
    ensures events[k].state == Prepared <==> k == 0
    ensures events[k].state == Submitting <==> k == 1
  {
    assert Follows(events, k);
    if k > 0 {
      assert Follows(events, k - 1);
      if k > 1 && events[k - 1].state == Prepared {
        OnlyFirstIsPrepared(events, k - 1);
      }
    } else {
      assert StateBefore(events, 0) == None;
    }
    assert Follows(events, 0);
    if |events| > 1 {
      assert Follows(events, 1);
    }
  }

  lemma OnlyFirstIsPrepared(events: seq<Event>, k: nat)
    requires Legal(events) && 0 < k < |events|
    ensures events[k].state != Prepared
  {
    assert Follows(events, k);
  }

  /** Publication is recorded once, last, and only over the sealed boundary; a rejection is
      recorded once and last. */
  lemma TerminalEvents(events: seq<Event>, k: nat)
    requires Legal(events) && k < |events|
    ensures events[k].state in {Published, Rejected} ==> k == |events| - 1
    ensures events[k].state == Published ==> k > 0 && events[k - 1].state in {Sealed, PublicationDeferred}
    ensures events[k].state == PublicationDeferred ==> k > 0 && events[k - 1].state == Sealed
    ensures events[k].state == Rejected ==> k > 0 && events[k - 1].state in {Waiting, Recovering}
  {
    assert Follows(events, k);
    if k + 1 < |events| {
      assert Follows(events, k + 1);
    }
  }

  function Where(events: seq<Event>, state: State): set<nat>
  {
    set k: nat | k < |events| && events[k].state == state
  }

  /** How often a state was recorded. */
  function Count(events: seq<Event>, state: State): nat { |Where(events, state)| }

  lemma CountGrows(events: seq<Event>, e: Event, state: State)
    ensures Count(events + [e], state) == Count(events, state) + (if e.state == state then 1 else 0)
  {
    assert Where(events + [e], state) ==
           Where(events, state) + (if e.state == state then {|events|} else {});
  }

  lemma CountsRecorded(events: seq<Event>, k: nat)
    requires k < |events|
    ensures Count(events, events[k].state) > 0
  {
    assert k in Where(events, events[k].state);
  }

  /** The stages behind Apple's acceptance. */
  predicate AfterAcceptance(s: State)
  {
    s in {Accepted, LogVerified, Stapling, Stapled, GatekeeperVerified, ArtifactVerified, Sealed,
          PublicationDeferred, Published}
  }

  /** No stage is reached, and nothing is published, without a recorded acceptance. */
  lemma {:induction false} AcceptanceIsRecorded(events: seq<Event>, k: nat)
    requires Connected(events) && k < |events| && AfterAcceptance(events[k].state)
    ensures Count(events, Accepted) > 0
  {
    if events[k].state == Accepted {
      CountsRecorded(events, k);
    } else {
      assert Follows(events, k);
      AcceptanceIsRecorded(events, k - 1);
    }
  }

  // ----------------------------------------------------------------------- deferral

  datatype Error = RejectedByApple | OtherError | CapacityError | TransitionError

  /** The state `_record_deferred` chooses. */
  function DeferredState(current: State, recovery: bool, published: bool, error: Error): State
  {
    if error.RejectedByApple? then Rejected
    else if recovery && current == Recovering then RecoveryDeferred
    else if current == Sealed && published then PublicationDeferred
    else if current in {Submitting, SubmissionObserved, Waiting} then OutcomeUnknown
    else FinalizationDeferred
  }

  /** The states that only put off what is left; every one of them leads on to a recovery. */
  predicate Deferral(s: State)
  {
    s in {OutcomeUnknown, RecoveryDeferred, FinalizationDeferred, PublicationDeferred}
  }

  /** What a deferral event may say, apart from how it is chosen: Apple's rejection and
      nothing else is a rejection; an open verdict is unknown, a failed recovery is deferred,
      a public set is a deferred publication, and everything else a deferred finalization. */
  predicate DeferralMeans(current: State, published: bool, rejected: bool, s: State)
  {
    && (s == Rejected <==> rejected)
    && (!rejected ==> Deferral(s) && Recovering in Transitions(Some(s)))
    && (s == RecoveryDeferred <==> !rejected && current == Recovering)
    && (s == OutcomeUnknown <==> !rejected && current in {Submitting, SubmissionObserved, Waiting})
    && (s == PublicationDeferred ==> published && current == Sealed)
    && (s == FinalizationDeferred ==> !(published && current == Sealed))
  }

  lemma DeferralIsTruthful(current: State, recovery: bool, published: bool, error: Error)
    requires current == Recovering ==> recovery
    ensures DeferralMeans(current, published, error.RejectedByApple?,
                          DeferredState(current, recovery, published, error))
  {
  }

  /** Exactly when the deferral event stays inside the table, for every state, mode and
      error: a rejection needs a waiting or recovering journal; anything else needs a
      journal that has started submitting and is not itself deferred. */
  lemma DeferralLegalIff(current: State, recovery: bool, published: bool, error: Error)
    ensures DeferredState(current, recovery, published, error) in Transitions(Some(current)) <==>
            if error.RejectedByApple? then current in {Waiting, Recovering}
            else if current == Recovering then recovery
            else current !in {Prepared, OutcomeUnknown, RecoveryDeferred, FinalizationDeferred,
                              PublicationDeferred, Published, Rejected}
  {
  }
}
