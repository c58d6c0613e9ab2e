/** The durable steps of the journal export: external intent, pending container, exclusive
    publication, and recovery. A call may stop between any two steps and may leave the file
    it was writing torn and the pending container partial. The source journals are read once
    more after the publication. */
module JournalExportRun {
  import opened Common
  import opened JournalExport
  import opened CanonicalJson

  datatype Disk = Disk(
    externalPending: Option<string>, external: Option<string>, pending: Option<Files>, published: Option<Files>)

  /** `Drifted`: published, but the repeated source snapshot failed or differs. */
  datatype Outcome = Exported(view: View) | Drifted | Refused | Stopped

  /** What a call that stops leaves of the write it stops in: whether it was begun, how many
      files of the container are whole, and how much of the next document is there. */
  datatype Stop = Stop(begun: bool, whole: nat, cut: Option<nat>)

  /** Every shape an export can be left in. */
  datatype Stage =
    | Clear
    | IntentTorn(length: nat)
    | IntentPending
    | IntentPublished
    | Partial(whole: nat, torn: Option<nat>)
    | PendingWhole
    | Published

  function Rank(stage: Stage): nat
  {
    match stage
    case Clear => 0
    case IntentTorn(_) => 1
    case IntentPending => 2
    case IntentPublished => 3
    case Partial(_, _) => 4
    case PendingWhole => 5
    case Published => 6
  }

  /** Some files whole, the next one missing or torn. */
  function PartialFiles(files: Files, whole: nat, torn: Option<nat>): Files
    requires whole < |files| && (torn.Some? ==> torn.value < |files[whole].data|)
  {
    files[..whole] + (if torn.Some? then [File(files[whole].name, files[whole].data[..torn.value])] else [])
  }

  predicate Proper(bytes: string, files: Files, stage: Stage)
  {
    match stage
    case IntentTorn(k) => k < |bytes|
    case Partial(n, torn) => n < |files| && (torn.Some? ==> torn.value < |files[n].data|)
    case _ => true
  }

  /** The disk of one stage. */
  function At(bytes: string, files: Files, stage: Stage): Disk
    requires Proper(bytes, files, stage)
  {
    match stage
    case Clear => Disk(None, None, None, None)
    case IntentTorn(k) => Disk(Some(bytes[..k]), None, None, None)
    case IntentPending => Disk(Some(bytes), None, None, None)
    case IntentPublished => Disk(None, Some(bytes), None, None)
    case Partial(n, torn) => Disk(None, Some(bytes), Some(PartialFiles(files, n, torn)), None)
    case PendingWhole => Disk(None, Some(bytes), Some(files), None)
    case Published => Disk(None, Some(bytes), None, Some(files))
  }

  function LeftOfIntent(bytes: string, stop: Stop): Stage
  {
    if stop.begun && stop.cut.Some? && stop.cut.value < |bytes| then IntentTorn(stop.cut.value) else Clear
  }

  function LeftOfContainer(files: Files, stop: Stop): Stage
  {
    if !stop.begun then IntentPublished
    else if stop.whole >= |files| then PendingWhole
    else Partial(stop.whole, if stop.cut.Some? && stop.cut.value < |files[stop.whole].data| then stop.cut else None)
  }

  /** Where a call gets to that is let so many durable steps, from a stage that is neither
      torn nor partial. */
  function After(bytes: string, files: Files, stage: Stage, steps: nat, stop: Stop): Stage
    requires !stage.IntentTorn? && !stage.Partial?
  {
    var done := match stage
      case Clear => 0
      case IntentPending => 1
      case IntentPublished => 2
      case PendingWhole => 3
      case Published => 4;
    if done + steps == 0 then LeftOfIntent(bytes, stop)
    else if done + steps == 1 then IntentPending
    else if done + steps == 2 then LeftOfContainer(files, stop)
    else if done + steps == 3 then PendingWhole
    else Published
  }

  lemma PartialDiffers(files: Files, whole: nat, torn: Option<nat>)
    requires whole < |files| && (torn.Some? ==> torn.value < |files[whole].data|)
    ensures PartialFiles(files, whole, torn) != files
  {
    if torn.Some? && |files| == whole + 1 {
      assert PartialFiles(files, whole, torn)[whole].data == files[whole].data[..torn.value];
    }
  }

  // -------------------------------------------------------------------------------- codec

  /** What the durable steps need to know of documents and containers. */
  datatype Codec = Codec(
    snapshot: (Sources, Json) -> bool,
    intend: (Sources, string) -> Option<Intent>,
    write: Intent -> string,
    read: string -> Option<Intent>,
    files: (Sources, Intent) -> Files,
    verify: (Files, string) -> Option<View>,
    view: (Sources, Intent) -> View)

  /** The intent was made from these sources. */
  predicate Bound(c: Codec, s: Sources, i: Intent)
  {
    c.intend(s, i.transactionId) == Some(i)
  }

  ghost predicate Lawful(c: Codec)
  {
    && (forall s, i :: c.files(s, i) != [])
    && (forall s, t :: c.intend(s, t).Some? ==> c.intend(s, t).value.transactionId == t)
    && (forall s, i | Bound(c, s, i) ::
          c.read(c.write(i)) == Some(i) && c.verify(c.files(s, i), c.write(i)) == Some(c.view(s, i)))
    && (forall s, i, k: int | Bound(c, s, i) && 0 <= k < |c.write(i)| :: c.read(c.write(i)[..k]) == None)
    && (forall s, i, s', i' | Bound(c, s, i) && Bound(c, s', i') && c.write(i) == c.write(i') :: s == s' && i == i')
  }

  /** The production documents. */
  function Production(v: Validators): Codec
  {
    Codec(
      (s, observed) => Snapshot(v, s, observed),
      (s, t) => if Closed(v, s) && ValidIntent(IntentOf(v, s, t)) then Some(IntentOf(v, s, t)) else None,
      IntentBytes, ReadIntent,
      (s, i) => ContainerFiles(v.sha, s, i),
      (files, external) => VerifyContainer(v, files, external),
      (s, i) => if Closed(v, s) then ViewOf(v, s, i) else NO_VIEW)
  }

  const NO_VIEW := View(JNull, JNull, JNull, "", JNull, JNull, [], Intent(JNull, "", [], "", "", JNull, "", ""), "")

  lemma ProductionIsLawful(v: Validators)
    requires Injective(v.sha)
    ensures Lawful(Production(v))
  {
    var c := Production(v);
    forall s, i | Bound(c, s, i)
      ensures c.read(c.write(i)) == Some(i) && c.verify(c.files(s, i), c.write(i)) == Some(c.view(s, i))
    {
      IntentRoundTrip(i);
      ExportRoundTrip(v, s, i.transactionId);
    }
    forall s, i, k: int | Bound(c, s, i) && 0 <= k < |c.write(i)| ensures c.read(c.write(i)[..k]) == None {
      TornIntentIsRefused(i, k);
    }
    forall s, i, s', i' | Bound(c, s, i) && Bound(c, s', i') && c.write(i) == c.write(i') ensures s == s' && i == i' {
      IntentBytesInjective(i, i');
      IntentDeterminesSources(v, s, s', i.transactionId, i'.transactionId);
    }
  }

  // ------------------------------------------------------------------------ durable steps

  class Exporter {
    const c: Codec
    var disk: Disk
    /** Durable steps left before the process stops, and what the stop leaves. */
    var steps: nat
    var stop: Stop
    ghost var sources: Sources
    ghost var intent: Intent
    ghost var stage: Stage

    ghost predicate Valid()
      reads this
    {
      && Proper(c.write(intent), c.files(sources, intent), stage)
      && disk == At(c.write(intent), c.files(sources, intent), stage)
      && (stage != Clear ==> Bound(c, sources, intent))
    }

    /** A clear namespace with the production documents. */
    constructor (v: Validators)
      requires Injective(v.sha)
      ensures Valid() && Lawful(c) && c == Production(v) && stage == Clear
    {
      c := Production(v);
      disk := Disk(None, None, None, None);
      steps := 0;
      stop := Stop(false, 0, None);
      sources := Sources("", []);
      intent := NO_VIEW.intent;
      stage := Clear;
      new;
      ProductionIsLawful(v);
    }

    /** What was bound stays bound, and the export never goes back. */
    twostate predicate Grows()
      reads this
    {
      Rank(old(stage)) <= Rank(stage) &&
      (old(stage) != Clear ==> sources == old(sources) && intent == old(intent))
    }

    /** `_publish_external_intent`: pending name, then promotion. */
    method PublishExternalIntent(s: Sources, i: Intent) returns (alive: bool)
      requires Valid() && Bound(c, s, i) && stage == Clear
      modifies this
      ensures Valid() && stop == old(stop) && (stage != Clear ==> sources == s && intent == i)
      ensures alive ==> stage == IntentPublished && steps == old(steps) - 2
      ensures alive <==> old(steps) >= 2
      ensures !alive ==> stage == if old(steps) == 1 then IntentPending else LeftOfIntent(c.write(i), stop)
    {
      var bytes := c.write(i);
      if steps == 0 {
        if stop.begun && stop.cut.Some? && stop.cut.value < |bytes| {
          sources, intent, stage := s, i, IntentTorn(stop.cut.value);
          disk := disk.(externalPending := Some(bytes[..stop.cut.value]));
        }
        return false;
      }
      steps := steps - 1;
      sources, intent, stage := s, i, IntentPending;
      disk := disk.(externalPending := Some(bytes));
      if steps == 0 {
        return false;
      }
      steps := steps - 1;
      stage := IntentPublished;
      disk := disk.(externalPending := None, external := Some(bytes));
      return true;
    }

    /** `_write_pending_tree`: one file after the other. */
    method WritePendingTree(files: Files) returns (alive: bool)
      requires Valid() && Lawful(c) && stage == IntentPublished && files == c.files(sources, intent)
      modifies this
      ensures Valid() && stop == old(stop) && sources == old(sources) && intent == old(intent)
      ensures alive ==> stage == PendingWhole && steps == old(steps) - 1
      ensures alive <==> old(steps) > 0
      ensures !alive ==> stage == LeftOfContainer(files, stop)
    {
      alive := steps > 0;
      if !alive && !stop.begun {
        return;
      }
      disk := disk.(pending := Some([]));
      stage := Partial(0, None);
      for k := 0 to |files|
        invariant sources == old(sources) && intent == old(intent) && steps == old(steps) && stop == old(stop)
        invariant !alive ==> k <= stop.whole
        invariant stage == if k < |files| then Partial(k, None) else PendingWhole
        invariant disk == Disk(None, Some(c.write(intent)), Some(files[..k]), None)
      {
        if !alive && k == stop.whole {
          CutShort(files, k);
          return;
        }
        disk := disk.(pending := Some(files[..k] + [files[k]]));
        assert files[..k] + [files[k]] == files[..k + 1];
        stage := if k + 1 < |files| then Partial(k + 1, None) else PendingWhole;
      }
      assert files[..|files|] == files;
      if alive {
        steps := steps - 1;
      }
    }

    /** The file the process was writing when it stopped. */
    method CutShort(files: Files, k: nat)
      requires k == stop.whole < |files| && files == c.files(sources, intent) && stop.begun
      requires Bound(c, sources, intent)
      requires disk == Disk(None, Some(c.write(intent)), Some(files[..k]), None)
      modifies this
      ensures Valid() && stop == old(stop) && sources == old(sources) && intent == old(intent)
      ensures stage == LeftOfContainer(files, stop)
    {
      var data := files[k].data;
      if stop.cut.Some? && stop.cut.value < |data| {
        disk := disk.(pending := Some(files[..k] + [File(files[k].name, data[..stop.cut.value])]));
        stage := Partial(k, stop.cut);
      } else {
        stage := Partial(k, None);
        assert PartialFiles(files, k, None) == files[..k];
      }
    }

    /** `_verify_published_export`. */
    method VerifyPublished() returns (view: Option<View>)
      requires Valid() && Lawful(c)
      ensures view.Some? <==> stage == Published
      ensures view.Some? ==> view.value == c.view(sources, intent)
    {
      if disk.external.None? || disk.externalPending.Some? || disk.pending.Some? || disk.published.None? {
        return None;
      }
      return c.verify(disk.published.value, disk.external.value);
    }

    /** `_complete_export`: an existing pending container must already be the expected one. */
    method CompleteExport(s: Sources, i: Intent) returns (r: Outcome)
      requires Valid() && Lawful(c) && s == sources && i == intent && Rank(stage) >= 3
      modifies this
      ensures Valid() && Grows()
      ensures r.Exported? <==> stage == Published
      ensures r.Exported? ==> r.view == c.view(sources, intent)
      ensures if old(stage).Partial? then r == Refused && stage == old(stage) && disk == old(disk)
              else (r.Exported? || r == Stopped) &&
                   stage == After(c.write(intent), c.files(sources, intent), old(stage), old(steps), old(stop))
    {
      var expected := c.files(s, i);
      if disk.pending.Some? && disk.published.Some? {
        return Refused;
      }
      if disk.published.None? {
        if disk.pending.Some? {
          if stage.Partial? {
            PartialDiffers(expected, stage.whole, stage.torn);
          }
          if disk.pending.value != expected {
            return Refused;
          }
        } else {
          var alive := WritePendingTree(expected);
          if !alive {
            return Stopped;
          }
        }
        if steps == 0 {
          return Stopped;
        }
        steps := steps - 1;
        disk := disk.(pending := None, published := disk.pending);
        stage := Published;
      }
      var view := VerifyPublished();
      if view.None? {
        return Refused;
      }
      return Exported(view.value);
    }

    /** With the production documents, an exported view reports the sources, which migrate the
        active builds, the observed environment, the recorded intent and the published files. */
    ghost predicate Truthful(now: Sources, observed: Json, r: Outcome)
      reads this
    {
      forall v: Validators {:trigger Production(v)} | c == Production(v) && r.Exported? ::
        && disk.published.Some? && Reports(v, now, intent, disk.published.value, r.view)
        && r.view.environment == observed && v.install(now.install).value.activeBuilds
    }

    lemma ExportIsTruthful(now: Sources, observed: Json, r: Outcome)
      requires r.Exported? ==> && c.snapshot(now, observed) && disk.published == Some(c.files(now, intent))
                               && r.view == c.view(now, intent)
      ensures Truthful(now, observed, r)
    {
      forall v: Validators | c == Production(v) && r.Exported?
        ensures disk.published.Some? && Reports(v, now, intent, disk.published.value, r.view)
        ensures r.view.environment == observed && v.install(now.install).value.activeBuilds
      {
        assert Snapshot(v, now, observed);
        ViewReports(v, now, intent);
      }
    }

    /** When a call that is not stopped publishes. */
    predicate Exportable(now: Sources, observed: Json, transactionId: string)
      reads this
    {
      disk == Disk(None, None, None, None) && c.snapshot(now, observed) && c.intend(now, transactionId).Some?
    }

    /** The repeated snapshot, read when the locks are left: it must equal the first one. */
    function Repeated(r: Outcome, now: Sources, later: Sources, observed: Json): Outcome
    {
      if r.Exported? && !(c.snapshot(later, observed) && later == now) then Drifted else r
    }

    /** `export_ga_acceptance_journals`: only a clear namespace is exported. */
    method Export(now: Sources, observed: Json, transactionId: string, later: Sources, observedLater: Json)
      returns (r: Outcome)
      requires Valid() && Lawful(c)
      modifies this
      ensures Valid() && Grows()
      ensures r.Exported? ==> sources == now && r.view == c.view(now, intent)
      ensures Truthful(now, observed, r)
      ensures r.Exported? <==> old(Exportable(now, observed, transactionId)) && stage == Published &&
                               c.snapshot(later, observedLater) && later == now
      ensures r == Drifted <==> old(Exportable(now, observed, transactionId)) && stage == Published && !r.Exported?
      ensures old(Exportable(now, observed, transactionId)) ==>
                var i := c.intend(now, transactionId).value;
                stage == After(c.write(i), c.files(now, i), Clear, old(steps), old(stop))
      ensures !old(Exportable(now, observed, transactionId)) ==> r == Refused && disk == old(disk)
    {
      if !c.snapshot(now, observed) {
        return Refused;
      }
      if c.intend(now, transactionId).None? {
        return Refused;
      }
      var i := c.intend(now, transactionId).value;
      if disk.external.Some? || disk.externalPending.Some? {
        return Refused;
      }
      var alive := PublishExternalIntent(now, i);
      if !alive {
        return Stopped;
      }
      r := CompleteExport(now, i);
      r := Repeated(r, now, later, observedLater);
      ExportIsTruthful(now, observed, r);
    }

    /** `_external_intent_bytes`. */
    method ExternalIntentBytes() returns (data: Option<string>)
      requires Valid()
      ensures data.Some? <==> stage != Clear
      ensures data.Some? ==> data.value == (if stage.IntentTorn? then c.write(intent)[..stage.length]
                                            else c.write(intent))
    {
      if disk.external.Some? && disk.externalPending.Some? {
        return None;
      }
      return if disk.external.Some? then disk.external else disk.externalPending;
    }

    /** The recorded intent, read back and computed again from the sources. */
    method BoundIntent(now: Sources, observed: Json) returns (expected: Option<Intent>)
      requires Valid() && Lawful(c)
      ensures expected.Some? <==> Rank(stage) >= 2 && c.snapshot(now, observed) && now == sources
      ensures expected.Some? ==> expected.value == intent
    {
      var data := ExternalIntentBytes();
      if data.None? {
        return None;
      }
      var recorded := c.read(data.value);
      if recorded.None? || !c.snapshot(now, observed) {
        return None;
      }
      expected := c.intend(now, recorded.value.transactionId);
      if expected.None? || c.write(expected.value) != data.value {
        return None;
      }
      assert Bound(c, now, expected.value) && Bound(c, sources, intent);
    }

    /** The promotion of an intent left under its pending name. */
    method PromotePending() returns (alive: bool)
      requires Valid() && Rank(stage) >= 2
      modifies this
      ensures Valid() && stop == old(stop) && sources == old(sources) && intent == old(intent)
      ensures alive <==> old(stage) != IntentPending || old(steps) > 0
      ensures alive && old(stage) == IntentPending ==> stage == IntentPublished && steps == old(steps) - 1
      ensures !alive || old(stage) != IntentPending ==>
                stage == old(stage) && steps == old(steps) && disk == old(disk)
    {
      if disk.externalPending.Some? {
        if steps == 0 {
          return false;
        }
        steps := steps - 1;
        disk := disk.(externalPending := None, external := disk.externalPending);
        stage := IntentPublished;
      }
      return true;
    }

    /** Promotion, if it is still due, and completion. */
    method ResumeExport(s: Sources, i: Intent) returns (r: Outcome)
      requires Valid() && Lawful(c) && s == sources && i == intent && Rank(stage) >= 2
      modifies this
      ensures Valid() && Grows()
      ensures r.Exported? <==> stage == Published
      ensures r.Exported? ==> r.view == c.view(sources, intent)
      ensures if old(stage).Partial? then r == Refused && stage == old(stage) && disk == old(disk)
              else (r.Exported? || r == Stopped) &&
                   stage == After(c.write(intent), c.files(sources, intent), old(stage), old(steps), old(stop))
    {
      var alive := PromotePending();
      if !alive {
        return Stopped;
      }
      r := CompleteExport(s, i);
    }

    /** When a recovery that is not stopped ends with the container published. */
    ghost predicate Recoverable(now: Sources, observed: Json)
      reads this
    {
      Rank(stage) >= 2 && !stage.Partial? && c.snapshot(now, observed) && now == sources
    }

    /** `recover_ga_acceptance_journal_export`. From every stop between whole steps, with the
        sources unchanged, it publishes the very container the uninterrupted export publishes;
        a torn intent or a partial container is refused and left as it is. */
    method Recover(now: Sources, observed: Json, later: Sources, observedLater: Json) returns (r: Outcome)
      requires Valid() && Lawful(c)
      modifies this
      ensures Valid() && Grows()
      ensures r.Exported? ==> disk.published == Some(c.files(old(sources), old(intent)))
      ensures r.Exported? ==> r.view == c.view(now, intent) && now == old(sources)
      ensures Truthful(now, observed, r)
      ensures r.Exported? <==> old(Recoverable(now, observed)) && stage == Published &&
                               c.snapshot(later, observedLater) && later == now
      ensures r == Drifted <==> old(Recoverable(now, observed)) && stage == Published && !r.Exported?
      ensures old(Recoverable(now, observed)) ==>
                stage == After(c.write(intent), c.files(sources, intent), old(stage), old(steps), old(stop))
      ensures !old(Recoverable(now, observed)) ==> r == Refused && disk == old(disk)
    {
      var expected := BoundIntent(now, observed);
      if expected.None? {
        return Refused;
      }
      r := ResumeExport(now, expected.value);
      r := Repeated(r, now, later, observedLater);
      ExportIsTruthful(now, observed, r);
    }
  }
}
