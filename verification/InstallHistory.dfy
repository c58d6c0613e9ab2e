/** Retention of a completed installation (scripts/archive_install_history.py): an intent is
    written, the service journal and then the install journal are renamed into the archive,
    and a receipt closes it. Every call may stop between any two durable steps, or tear the
    document it was writing. */
module InstallHistory {
  import opened Common
  import opened Identity
  import TreeDigest

  type Artifact = TreeDigest.Artifact

  /** What the two producer journals say once they are terminal. */
  datatype Terminal = Terminal(candidate: Candidate, previous: App, environment: string, transactionId: string)

  datatype Intent = Intent(
    candidate: Candidate, serviceId: string, installId: string, executor: string,
    serviceSha: string, journalSha: string, superseded: Option<App>)

  datatype Receipt = Receipt(
    candidate: Candidate, intent: Intent, serviceSha: string, journalSha: string, superseded: Option<App>)

  /** Both names at both locations, and the two documents of the archive directory. */
  datatype Files = Files(
    serviceAtOrigin: Option<Artifact>, serviceArchived: Option<Artifact>,
    journalAtOrigin: Option<string>, journalArchived: Option<string>,
    intent: Slot<Intent>, receipt: Slot<Receipt>)

  /** The terminal snapshots are pure readings of the journals' contents; `sha` is the hash. */
  datatype Readers = Readers(
    service: Artifact -> Option<Terminal>, install: string -> Option<Terminal>, sha: string -> string)

  datatype Content = Content(service: Artifact, journal: string)

  datatype Request = Request(expected: App, installed: Option<App>, executor: string, profileBuild: nat)

  /** What a call sees outside the files. */
  datatype World = World(pendingWork: bool, before: App, after: App, sourceUnchanged: bool)

  /** One invocation: how many durable steps it survives, and whether stopping tears a write. */
  datatype Call = Call(request: Request, world: World, steps: nat, tears: bool)

  datatype Outcome = Retained | Refused | Stopped

  // ------------------------------------------------------------------------ requests

  /** `_retention_installed_identity` and the profile check. */
  predicate Admissible(q: Request)
  {
    && (q.installed.Some? ==> q.installed.value.build > q.expected.build)
    && q.profileBuild == q.expected.build
  }

  function Installed(q: Request): App { if q.installed.Some? then q.installed.value else q.expected }

  function Superseded(q: Request): Option<App>
  {
    if Installed(q) == q.expected then None else Some(Installed(q))
  }

  /** The two records describe one upgrade. */
  predicate SameUpgrade(s: Terminal, t: Terminal)
  {
    s.candidate == t.candidate && s.previous == t.previous && s.environment == t.environment
  }

  predicate Readable(r: Readers, c: Content)
  {
    r.service(c.service).Some? && r.install(c.journal).Some? &&
    SameUpgrade(r.service(c.service).value, r.install(c.journal).value)
  }

  /** `_intent`. */
  function IntentOf(r: Readers, c: Content, executor: string, sha: string, superseded: Option<App>): Intent
    requires Readable(r, c)
  {
    Intent(r.install(c.journal).value.candidate, r.service(c.service).value.transactionId,
           r.install(c.journal).value.transactionId, executor, sha, r.sha(c.journal), superseded)
  }

  // -------------------------------------------------------------------------- stages

  /** Every shape the archive can be left in. */
  datatype Stage = Untouched | IntentTorn | Bound | ServiceMoved | BothMoved | ReceiptTorn | Completed

  function Rank(stage: Stage): nat
  {
    match stage
    case Untouched => 0
    case IntentTorn => 1
    case Bound => 2
    case ServiceMoved => 3
    case BothMoved => 4
    case ReceiptTorn => 5
    case Completed => 6
  }

  /** Where a call gets to that is stopped after so many durable steps, tearing or not. */
  function After(stage: Stage, steps: nat, tears: bool): Stage
  {
    if stage in {IntentTorn, ReceiptTorn} then stage
    else
      var k := steps + if stage == Untouched then 0 else Rank(stage) - 1;
      if k == 0 then (if tears then IntentTorn else Untouched)
      else if k == 1 then Bound
      else if k == 2 then ServiceMoved
      else if k == 3 then (if tears then ReceiptTorn else BothMoved)
      else Completed
  }

  function ReceiptOf(i: Intent): Receipt { Receipt(i.candidate, i, i.serviceSha, i.journalSha, i.superseded) }

  /** The files of one stage: the same two contents, wherever they are. */
  function At(c: Content, i: Intent, stage: Stage): Files
  {
    var k := Rank(stage);
    Files(
      if k < 3 then Some(c.service) else None, if k < 3 then None else Some(c.service),
      if k < 4 then Some(c.journal) else None, if k < 4 then None else Some(c.journal),
      if k == 0 then Absent else if k == 1 then Torn else Whole(i),
      if k < 5 then Absent else if k == 5 then Torn else Whole(ReceiptOf(i)))
  }

  /** Each journal is at exactly one location, and the install journal never moves first. */
  predicate Placed(f: Files)
  {
    && f.serviceAtOrigin.Some? != f.serviceArchived.Some?
    && f.journalAtOrigin.Some? != f.journalArchived.Some?
    && (f.journalArchived.Some? ==> f.serviceArchived.Some?)
    && (f.serviceArchived.Some? ==> f.intent.Whole?)
  }

  /** The recorded intent names the two transactions, the candidate of both, and the digests
      of the contents. */
  ghost predicate Describes(r: Readers, c: Content, i: Intent)
  {
    && Readable(r, c)
    && var s, t := r.service(c.service).value, r.install(c.journal).value;
    && i.candidate == s.candidate == t.candidate && s.previous == t.previous && s.environment == t.environment
    && i.serviceId == s.transactionId && i.installId == t.transactionId
    && i.journalSha == r.sha(c.journal) && TreeDigest.HasDigest(r.sha, c.service, i.serviceSha)
  }

  /** Wherever the journals are, the recomputed intent is the recorded one, provided executor
      and superseding build are the same. */
  lemma RecomputedIntentAgrees(r: Readers, c: Content, i: Intent, executor: string, sha: string,
                               superseded: Option<App>)
    requires TreeDigest.WellFormed(c.service.tree)
    requires Describes(r, c, i) && TreeDigest.HasDigest(r.sha, c.service, sha)
    ensures IntentOf(r, c, executor, sha, superseded) == i <==> i.executor == executor && i.superseded == superseded
    ensures sha == i.serviceSha
  {
    TreeDigest.DigestIgnoresEnumeration(r.sha, c.service, sha, i.serviceSha);
  }

  /** When a call that is not stopped retains the history. */
  ghost predicate Ready(r: Readers, c: Content, i: Intent, stage: Stage, q: Request, w: World)
    requires TreeDigest.WellFormed(c.service.tree)
  {
    && Admissible(q) && Readable(r, c) && TreeDigest.Hashable(c.service.tree)
    && stage != IntentTorn && stage != ReceiptTorn
    && (if stage == Completed then
          i.superseded == Superseded(q) && i.candidate.app.tree == q.expected.tree
        else
          && !w.pendingWork && w.sourceUnchanged
          && r.install(c.journal).value.candidate.app == q.expected
          && w.before == Installed(q) && w.after == Installed(q)
          && (stage == Untouched || (i.executor == q.executor && i.superseded == Superseded(q))))
  }

  /** The service directory at its origin or in the archive, in a file system that has nothing
      else under the archive's name. */
  ghost predicate Located(fs: TreeDigest.Tree, from: TreeDigest.Path, to: TreeDigest.Path, f: Files)
  {
    && !TreeDigest.AtOrBelow(from, to) && !TreeDigest.AtOrBelow(to, from)
    && TreeDigest.ArtifactAt(fs, from) == f.serviceAtOrigin
    && TreeDigest.ArtifactAt(fs, to) == f.serviceArchived
    && (f.serviceArchived.None? ==> forall p | p in fs :: !TreeDigest.AtOrBelow(to, p))
  }

  /** Renaming the directory is what moves the service journal from one location to the other. */
  lemma RenameMovesService(fs: TreeDigest.Tree, from: TreeDigest.Path, to: TreeDigest.Path, c: Content, i: Intent)
    returns (after: TreeDigest.Tree)
    requires Located(fs, from, to, At(c, i, Bound))
    ensures TreeDigest.IsRename(fs, after, from, to) && Located(after, from, to, At(c, i, ServiceMoved))
  {
    after := TreeDigest.Renamed(fs, from, to);
    TreeDigest.RenamedIsRename(fs, from, to);
    TreeDigest.RenameMovesArtifact(fs, after, from, to);
  }

  /** The application that is said to be installed now. */
  function Present(q: Request): App
  {
    match q.installed
    case None => q.expected
    case Some(app) => app
  }

  /** The record is about the retained application, whose profile is at hand, and names as its
      successor the installed application, if that is another and then a newer one. */
  predicate Names(q: Request, i: Intent)
  {
    && i.candidate.app.tree == q.expected.tree && i.superseded == q.installed
    && q.profileBuild == q.expected.build
    && (i.superseded.Some? ==> i.superseded.value.build > q.expected.build)
  }

  class Archive {
    const readers: Readers
    ghost const content: Content
    var files: Files
    /** The file system the service directory is renamed in. */
    ghost var fs: TreeDigest.Tree
    ghost const origin: TreeDigest.Path
    ghost const target: TreeDigest.Path
    ghost var stage: Stage
    ghost var bound: Intent
    /** Durable steps left before the process stops, and whether stopping tears a write. */
    var steps: nat
    var tears: bool

    ghost predicate Valid()
      reads this
    {
      && TreeDigest.WellFormed(content.service.tree)
      && files == At(content, bound, stage)
      && Located(fs, origin, target, files)
      && (stage != Untouched ==> Describes(readers, content, bound))
    }

    /** The retained installation as its producers left it. */
    constructor (readers: Readers, service: Artifact, journal: string, unused: Intent,
                 ghost fs: TreeDigest.Tree, ghost origin: TreeDigest.Path, ghost target: TreeDigest.Path)
      requires TreeDigest.WellFormed(service.tree)
      requires Located(fs, origin, target, Files(Some(service), None, Some(journal), None, Absent, Absent))
      ensures Valid() && stage == Untouched && content == Content(service, journal)
    {
      this.readers := readers;
      this.fs := fs;
      this.origin := origin;
      this.target := target;
      content := Content(service, journal);
      files := Files(Some(service), None, Some(journal), None, Absent, Absent);
      stage := Untouched;
      bound := unused;
      steps := 0;
      tears := false;
    }

    /** `_write_new` of the intent. */
    method WriteIntent(i: Intent) returns (alive: bool)
      requires Valid() && stage == Untouched && Describes(readers, content, i)
      modifies this
      ensures Valid() && tears == old(tears) && (stage != Untouched ==> bound == i)
      ensures alive <==> old(steps) > 0
      ensures alive ==> stage == Bound && steps == old(steps) - 1
      ensures !alive ==> stage == (if old(tears) then IntentTorn else Untouched)
    {
      if steps == 0 {
        if tears {
          bound := i;
          files := files.(intent := Torn);
          stage := IntentTorn;
        }
        return false;
      }
      steps := steps - 1;
      bound := i;
      files := files.(intent := Whole(i));
      stage := Bound;
      return true;
    }

    /** The loop over both names, the service journal first: one already archived is skipped. */
    method MoveService() returns (alive: bool)
      requires Valid() && stage in {Bound, ServiceMoved, BothMoved}
      modifies this
      ensures Valid() && bound == old(bound) && tears == old(tears)
      ensures alive <==> old(stage) != Bound || old(steps) > 0
      ensures alive && old(stage) == Bound ==> stage == ServiceMoved && steps == old(steps) - 1
      ensures !alive || old(stage) != Bound ==> stage == old(stage) && steps == old(steps)
    {
      if files.serviceAtOrigin.Some? {
        if steps == 0 {
          return false;
        }
        steps := steps - 1;
        ghost var after := RenameMovesService(fs, origin, target, content, bound);
        fs := after;
        files := files.(serviceArchived := files.serviceAtOrigin, serviceAtOrigin := None);
        stage := ServiceMoved;
      }
      return true;
    }

    method MoveJournal() returns (alive: bool)
      requires Valid() && stage in {ServiceMoved, BothMoved}
      modifies this
      ensures Valid() && bound == old(bound) && tears == old(tears)
      ensures alive <==> old(stage) != ServiceMoved || old(steps) > 0
      ensures alive ==> stage == BothMoved && steps == old(steps) - (if old(stage) == ServiceMoved then 1 else 0)
      ensures !alive ==> stage == old(stage)
    {
      if files.journalAtOrigin.Some? {
        if steps == 0 {
          return false;
        }
        steps := steps - 1;
        files := files.(journalArchived := files.journalAtOrigin, journalAtOrigin := None);
        stage := BothMoved;
      }
      return true;
    }

    method MoveJournals() returns (alive: bool)
      requires Valid() && stage in {Bound, ServiceMoved, BothMoved}
      modifies this
      ensures Valid() && bound == old(bound) && Rank(old(stage)) <= Rank(stage) <= 4
      ensures alive ==> stage == BothMoved
      ensures alive <==> old(steps) >= 4 - Rank(old(stage))
      ensures tears == old(tears)
      ensures After(old(stage), old(steps), tears) == if alive then After(BothMoved, steps, tears) else stage
    {
      alive := MoveService();
      if alive {
        alive := MoveJournal();
      }
    }

    /** `_write_new` of the receipt. */
    method WriteReceipt() returns (alive: bool)
      requires Valid() && stage == BothMoved && files.intent.Whole?
      modifies this
      ensures Valid() && bound == old(bound)
      ensures alive <==> old(steps) > 0
      ensures stage == (if alive then Completed else if old(tears) then ReceiptTorn else BothMoved)
    {
      if steps == 0 {
        if tears {
          files := files.(receipt := Torn);
          stage := ReceiptTorn;
        }
        return false;
      }
      steps := steps - 1;
      files := files.(receipt := Whole(ReceiptOf(files.intent.doc)));
      stage := Completed;
      return true;
    }

    /** The branch of an archive that already holds its receipt. */
    method VerifyCompleted(q: Request) returns (ok: bool)
      requires Valid() && files.receipt.Whole? && Admissible(q)
      ensures ok <==> Ready(readers, content, bound, stage, q, World(false, q.expected, q.expected, true))
    {
      var c := Content(files.serviceArchived.value, files.journalArchived.value);
      if !Readable(readers, c) {
        return false;
      }
      var sha := TreeDigest.BuildManifest(readers.sha, c.service);
      if sha.None? {
        return false;
      }
      var prior := files.intent.doc;
      RecomputedIntentAgrees(readers, c, bound, prior.executor, sha.value, Superseded(q));
      if prior != IntentOf(readers, c, prior.executor, sha.value, Superseded(q)) {
        return false;
      }
      var candidate := readers.install(c.journal).value.candidate;
      return files.receipt.doc == Receipt(candidate, prior, sha.value, readers.sha(c.journal), Superseded(q))
        && candidate.app.tree == q.expected.tree;
    }

    /** The checks before anything is written: exactly one location each, one upgrade, the
        expected application, and the recomputed intent. */
    method Examine(q: Request, w: World) returns (intent: Option<Intent>)
      requires Valid() && files.receipt.Absent? && Admissible(q)
      ensures intent.Some? ==> Describes(readers, content, intent.value)
      ensures intent.Some? ==> intent.value.executor == q.executor && intent.value.superseded == Superseded(q)
      ensures intent.Some? <==> Readable(readers, content) && !w.pendingWork && w.before == Installed(q)
                                && readers.install(content.journal).value.candidate.app == q.expected
                                && TreeDigest.Hashable(content.service.tree)
      ensures intent.Some? && stage != Untouched ==>
                (bound == intent.value <==> bound.executor == q.executor && bound.superseded == Superseded(q))
    {
      if w.pendingWork {
        return None;
      }
      if files.serviceAtOrigin.Some? == files.serviceArchived.Some? {
        return None;
      }
      if files.journalAtOrigin.Some? == files.journalArchived.Some? {
        return None;
      }
      var service := if files.serviceAtOrigin.Some? then files.serviceAtOrigin else files.serviceArchived;
      var journal := if files.journalAtOrigin.Some? then files.journalAtOrigin else files.journalArchived;
      var c := Content(service.value, journal.value);
      if !Readable(readers, c) {
        return None;
      }
      if readers.install(c.journal).value.candidate.app != q.expected {
        return None;
      }
      if w.before != Installed(q) {
        return None;
      }
      var sha := TreeDigest.BuildManifest(readers.sha, c.service);
      if sha.None? {
        return None;
      }
      if stage != Untouched {
        RecomputedIntentAgrees(readers, c, bound, q.executor, sha.value, Superseded(q));
      }
      return Some(IntentOf(readers, c, q.executor, sha.value, Superseded(q)));
    }

    /** The archived journals are hashed again: a rename changed nothing. */
    method VerifyMoved() returns (same: bool)
      requires Valid() && stage == BothMoved && TreeDigest.Hashable(content.service.tree)
      ensures same
    {
      var c := Content(files.serviceArchived.value, files.journalArchived.value);
      var sha := TreeDigest.BuildManifest(readers.sha, c.service);
      if sha.None? {
        return false;
      }
      RecomputedIntentAgrees(readers, c, bound, bound.executor, sha.value, bound.superseded);
      return sha.value == files.intent.doc.serviceSha && readers.sha(c.journal) == files.intent.doc.journalSha;
    }

    /** Move, check again and close. */
    method Finish(q: Request, w: World) returns (r: Outcome)
      requires Valid() && stage in {Bound, ServiceMoved, BothMoved} && Admissible(q) && w.sourceUnchanged
      requires TreeDigest.Hashable(content.service.tree)
      modifies this
      ensures Valid() && bound == old(bound) && Rank(old(stage)) <= Rank(stage)
      ensures r == Retained <==> stage == Completed
      ensures r == Retained ==> w.after == Installed(q)
      ensures w.after == Installed(q) ==> stage == After(old(stage), old(steps), old(tears))
    {
      var moved := MoveJournals();
      if !moved {
        return Stopped;
      }
      if w.after != Installed(q) {
        return Refused;
      }
      var same := VerifyMoved();
      if !same {
        return Refused;
      }
      var closed := WriteReceipt();
      return if closed then Retained else Stopped;
    }

    /** An archive without a receipt: bind the intent or recognise it, then finish. */
    method RetainOpen(q: Request, w: World, intent: Intent) returns (r: Outcome)
      requires Valid() && Rank(stage) < 5 && Admissible(q)
      requires Describes(readers, content, intent)
      requires intent.executor == q.executor && intent.superseded == Superseded(q)
      requires TreeDigest.Hashable(content.service.tree)
      modifies this
      ensures Valid() && Rank(old(stage)) <= Rank(stage)
      ensures old(stage) != Untouched ==> bound == old(bound)
      ensures r == Retained <==> stage == Completed
      ensures var ready := w.sourceUnchanged && w.after == Installed(q) && old(stage) != IntentTorn &&
                           (old(stage) == Untouched || old(bound) == intent);
              (ready ==> stage == After(old(stage), old(steps), old(tears))) && (r == Retained ==> ready)
      ensures r == Retained ==> bound == intent
      ensures old(stage) == IntentTorn ==> stage == IntentTorn
    {
      if files.intent.Torn? || !w.sourceUnchanged {
        return Refused;
      }
      if files.intent.Whole? {
        if files.intent.doc != intent {
          return Refused;
        }
      } else {
        if files.serviceArchived.Some? || files.journalArchived.Some? {
          return Refused;
        }
        var alive := WriteIntent(intent);
        if !alive {
          return Stopped;
        }
      }
      r := Finish(q, w);
    }

    method RetainUnfinished(q: Request, w: World) returns (r: Outcome)
      requires Valid() && Rank(stage) < 5 && Admissible(q)
      modifies this
      ensures Valid() && Rank(old(stage)) <= Rank(stage)
      ensures old(stage) != Untouched ==> bound == old(bound)
      ensures r == Retained <==> stage == Completed
      ensures old(Ready(readers, content, bound, stage, q, w)) ==> stage == After(old(stage), old(steps), old(tears))
      ensures r == Retained ==> old(Ready(readers, content, bound, stage, q, w))
      ensures r == Retained ==> bound.executor == q.executor && Names(q, bound) && w.before == Present(q) == w.after
      ensures old(stage) == IntentTorn ==> stage == IntentTorn
    {
      var intent := Examine(q, w);
      if intent.None? {
        return Refused;
      }
      r := RetainOpen(q, w, intent.value);
    }

    /** `archive_completed_history`. The contents are never lost or changed, the bound intent
        never changes and the stage never falls. A ready call gets exactly as far as it is
        let, a call that is not stopped succeeds exactly when it is ready: so resuming after
        any stop between whole writes completes. A torn document is never got past. */
    method Retain(q: Request, w: World) returns (r: Outcome)
      requires Valid()
      modifies this
      ensures Valid() && Placed(files)
      ensures Rank(old(stage)) <= Rank(stage)
      ensures old(stage) != Untouched ==> bound == old(bound)
      ensures r == Retained ==> stage == Completed && old(Ready(readers, content, bound, stage, q, w))
      ensures r == Retained ==> Names(q, bound)
      ensures r == Retained && old(stage) != Completed ==> w.before == Present(q) == w.after
      ensures old(Ready(readers, content, bound, stage, q, w)) ==>
                stage == After(old(stage), old(steps), old(tears)) && (r == Retained <==> stage == Completed)
      ensures old(steps) >= 4 ==>
                (r == Retained <==> old(Ready(readers, content, bound, stage, q, w)))
      ensures old(stage) in {IntentTorn, ReceiptTorn} ==> r != Retained && stage == old(stage)
    {
      if !Admissible(q) || files.receipt.Torn? {
        return Refused;
      }
      if files.receipt.Whole? {
        var ok := VerifyCompleted(q);
        return if ok then Retained else Refused;
      }
      r := RetainUnfinished(q, w);
    }

    method Invoke(call: Call) returns (r: Outcome)
      requires Valid()
      modifies this
      ensures Valid() && Placed(files) && Rank(old(stage)) <= Rank(stage)
      ensures old(stage) != Untouched ==> bound == old(bound)
      ensures r == Retained ==> stage == Completed
      ensures old(stage) in {IntentTorn, ReceiptTorn} ==> r != Retained && stage == old(stage)
    {
      steps, tears := call.steps, call.tears;
      r := Retain(call.request, call.world);
    }

    /** Any sequence of calls, each stopped anywhere: whatever was retained is one and the
        same receipt over the producers' own contents. */
    method RetainRepeatedly(calls: seq<Call>) returns (outcomes: seq<Outcome>)
      requires Valid()
      modifies this
      ensures Valid() && Placed(files) && |outcomes| == |calls|
      ensures Rank(old(stage)) <= Rank(stage)
      ensures old(stage) != Untouched ==> bound == old(bound)
      ensures Retained in outcomes ==> files == At(content, bound, Completed)
      ensures old(stage) in {IntentTorn, ReceiptTorn} ==> Retained !in outcomes && stage == old(stage)
    {
      outcomes := [];
      for k := 0 to |calls|
        invariant Valid() && |outcomes| == k
        invariant Rank(old(stage)) <= Rank(stage) && (old(stage) != Untouched ==> bound == old(bound))
        invariant Retained in outcomes ==> stage == Completed
        invariant old(stage) in {IntentTorn, ReceiptTorn} ==> Retained !in outcomes && stage == old(stage)
      {
        var r := Invoke(calls[k]);
        outcomes := outcomes + [r];
      }
    }
  }
}
