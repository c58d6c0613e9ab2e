/** The file an interrupted event write leaves under its pending name, and what the next load
    of the notarization journal makes of it (scripts/notarization_transaction.py,
    EventJournal.load_existing). */
module DmgPending {
  import opened Common
  import opened CanonicalJson
  import opened JsonPrefix
  import opened DmgJournal

  /** A cut file is discarded, unless all but its newline is there. */
  datatype PendingFile = NoPending | Cut(unended: bool) | Ready(doc: Event)

  datatype Verdict = Discarded | Refused | Loaded(value: Json)

  predicate Blank(s: string) { forall c | c in s :: c == ' ' || c == '\t' || c == '\n' || c == '\r' }

  /** `load_existing` on a pending file written in the canonical spelling: text that does not
      decode is removed, decoded text must be canonical. */
  function ReadPending(data: string): Verdict
  {
    var parsed := Parse(data);
    if parsed.None? || !Blank(parsed.value.1) then Discarded
    else if !parsed.value.0.JObj? || !Ordered(parsed.value.0) || Canonical(parsed.value.0) != data then Refused
    else Loaded(parsed.value.0)
  }

  /** Of a document cut after k characters, everything shorter than all but the newline is
      discarded, all but the newline is refused, and the whole document is loaded. */
  lemma CutVerdict(v: Json, k: nat)
    requires v.JObj? && Ordered(v) && k <= |Canonical(v)|
    ensures ReadPending(Canonical(v)[..k]) ==
            if k < |Encode(v)| then Discarded else if k == |Encode(v)| then Refused else Loaded(v)
  {
    if k <= |Encode(v)| {
      assert Canonical(v)[..k] == Encode(v)[..k];
      ObjectPrefix(v, k);
    } else {
      assert Canonical(v)[..k] == Encode(v) + "\n";
      ParseEncode(v, "\n");
    }
  }

  /** What a write of the document v of event e leaves when it stops after k characters. */
  function Left(e: Event, v: Json, k: nat): PendingFile
    requires k <= |Canonical(v)|
  {
    match ReadPending(Canonical(v)[..k])
    case Discarded => Cut(false)
    case Refused => Cut(true)
    case Loaded(_) => Ready(e)
  }

  /** Exactly one of the proper prefixes is the file that stops every recovery. */
  lemma UnendedIff(e: Event, v: Json, k: nat)
    requires v.JObj? && Ordered(v) && k <= |Canonical(v)|
    ensures Left(e, v, k) == Cut(true) <==> k == |Canonical(v)| - 1
    ensures Left(e, v, k) == Ready(e) <==> k == |Canonical(v)|
  {
    CutVerdict(v, k);
  }
}
