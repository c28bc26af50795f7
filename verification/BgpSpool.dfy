/** The bounded, segmented spool in which the BGP collector keeps lines until the database has them. */
module BgpSpool {
  import opened Numbers
  import TagEscape
  import Utf8

  /** A line without its newline, and the trailing timestamp found in it, if any. */
  datatype Line = Line(text: string, timestamp: Option<nat>)

  /** The name of a sealed file: the newest timestamp in it, and a number that tells apart files
      with the same newest timestamp. */
  datatype Id = Id(timestamp: nat, sequence: nat)

  /** A sealed file: the lines written to it, followed by a marker line that names it. */
  datatype Segment = Segment(id: Id, lines: seq<Line>)

  datatype Outcome = Done | SpoolFull | NoTimestamp | NoRoomToSeal

  // ---------------------------------------------------------------- sizes

  function LineSize(line: Line): nat { Utf8.Size(line.text) + 1 }

  function LinesSize(lines: seq<Line>): nat {
    if lines == [] then 0 else LinesSize(lines[..|lines| - 1]) + LineSize(lines[|lines| - 1])
  }

  function Name(id: Id): string { Decimal(id.timestamp) + "-" + Decimal(id.sequence) }

  function Marker(id: Id, topology: string): string {
    "bgp_event_index,source=__spool__,spool_segment=" + Name(id)
    + (if topology == "" then "" else ",topology_id=" + TagEscape.CollectorEscape(topology))
    + " schema_version=1i " + Decimal(id.timestamp) + "\n"
  }

  /** A tag of a line in line protocol; a tag without a value is left out. */
  function TagText(key: string, value: string): string {
    if value == "" then "" else "," + TagEscape.Escape(key) + "=" + TagEscape.Escape(value)
  }

  /** The marker is a line like the others, with the name of its segment, the topology and the newest
      timestamp of the segment. */
  lemma MarkerIsALine(id: Id, topology: string)
    ensures Marker(id, topology) ==
      "bgp_event_index" + TagText("source", "__spool__") + TagText("spool_segment", Name(id)) + TagText("topology_id", topology)
      + " schema_version=1i " + Decimal(id.timestamp) + "\n"
  {
    hide Decimal;
    hide Name;
    hide TagText;
    hide TagEscape.CollectorEscape;
    SpoolTag();
    SegmentTag(id);
    TopologyTag(topology);
    MarkerHead();
    Regrouped("bgp_event_index" + ",source=__spool__", ",spool_segment=", Name(id));
  }

  lemma MarkerHead()
    ensures "bgp_event_index,source=__spool__,spool_segment=" == "bgp_event_index" + ",source=__spool__" + ",spool_segment="
  {
  }

  lemma Regrouped(a: string, b: string, c: string)
    ensures a + (b + c) == a + b + c
  {
  }

  lemma SpoolTag()
    ensures TagText("source", "__spool__") == ",source=__spool__"
  {
    hide TagEscape.Escape;
    TagEscape.PlainIsKept("source");
    TagEscape.PlainIsKept("__spool__");
    assert ",source=__spool__" == "," + "source" + "=" + "__spool__";
  }

  lemma SegmentTag(id: Id)
    ensures TagText("spool_segment", Name(id)) == ",spool_segment=" + Name(id)
  {
    hide TagEscape.Escape;
    hide Decimal;
    TagEscape.PlainIsKept("spool_segment");
    DecimalIsDigits(id.timestamp);
    DecimalIsDigits(id.sequence);
    TagEscape.PlainIsKept(Name(id));
    assert ",spool_segment=" == "," + "spool_segment" + "=";
  }

  lemma TopologyTag(topology: string)
    ensures TagText("topology_id", topology)
         == if topology == "" then "" else ",topology_id=" + TagEscape.CollectorEscape(topology)
  {
    hide TagEscape.Escape;
    hide TagEscape.CollectorEscape;
    TagEscape.PlainIsKept("topology_id");
    TagEscape.BothAreOnePass(topology);
    assert ",topology_id=" == "," + "topology_id" + "=";
  }

  /** Different segments have different names. */
  lemma NamesDiffer(a: Id, b: Id)
    requires Name(a) == Name(b)
    ensures a == b
  {
    var i := FirstDash(a);
    var j := FirstDash(b);
    hide Decimal;
    assert i == j;
    assert Decimal(a.timestamp) == Name(a)[..i] && Decimal(b.timestamp) == Name(b)[..i];
    assert Decimal(a.sequence) == Name(a)[i + 1..] && Decimal(b.sequence) == Name(b)[i + 1..];
    DecimalIsUnique(a.timestamp, b.timestamp);
    DecimalIsUnique(a.sequence, b.sequence);
  }

  lemma FirstDash(id: Id) returns (i: nat)
    ensures i == |Decimal(id.timestamp)| < |Name(id)| && Name(id)[i] == '-'
    ensures forall k :: 0 <= k < i ==> Name(id)[k] != '-'
  {
    i := |Decimal(id.timestamp)|;
    DecimalIsDigits(id.timestamp);
    hide Decimal;
    assert forall k :: 0 <= k < i ==> Decimal(id.timestamp)[k] in Decimal(id.timestamp);
  }

  function MarkerSize(id: Id, topology: string): nat { Utf8.Size(Marker(id, topology)) }

  function SegmentSize(s: Segment, topology: string): nat { LinesSize(s.lines) + MarkerSize(s.id, topology) }

  function SealedSize(sealed: seq<Segment>, topology: string): nat {
    if sealed == [] then 0
    else SealedSize(sealed[..|sealed| - 1], topology) + SegmentSize(sealed[|sealed| - 1], topology)
  }

  /** What a batch writes: joining no line, or one empty line, gives the empty string. */
  function Rendered(lines: seq<Line>): seq<Line> {
    if |lines| == 1 && lines[0].text == "" then [] else lines
  }

  /** The lines as they stand in a file. */
  function Text(lines: seq<Line>): string {
    if lines == [] then "" else Text(lines[..|lines| - 1]) + lines[|lines| - 1].text + "\n"
  }

  /** `"\n".join(lines)`. */
  function Join(lines: seq<Line>): string {
    if lines == [] then ""
    else if |lines| == 1 then lines[0].text
    else Join(lines[..|lines| - 1]) + "\n" + lines[|lines| - 1].text
  }

  /** What a batch adds to the text of the active file. */
  function Appended(lines: seq<Line>): string { if Join(lines) == "" then "" else Join(lines) + "\n" }

  lemma RenderedText(lines: seq<Line>)
    ensures Text(Rendered(lines)) == Appended(lines)
  {
    if lines != [] { TextIsJoin(lines); }
    if |lines| == 1 { assert Text([]) == ""; }
  }

  lemma {:induction false} TextIsJoin(lines: seq<Line>)
    requires lines != []
    ensures Text(lines) == Join(lines) + "\n"
  {
    if |lines| == 1 {
      assert Text(lines[..0]) == "";
    } else {
      TextIsJoin(lines[..|lines| - 1]);
    }
  }

  lemma {:induction false} TextConcat(a: seq<Line>, b: seq<Line>)
    ensures Text(a + b) == Text(a) + Text(b)
  {
    if b == [] {
      assert a + b == a;
    } else {
      var front, last := b[..|b| - 1], b[|b| - 1];
      TextConcat(a, front);
      TextPush(a + front, last);
      TextPush(front, last);
      assert a + b == (a + front) + [last] && b == front + [last];
      hide Text;
      Regrouped(Text(a), Text(front), last.text);
      Regrouped(Text(a), Text(front) + last.text, "\n");
    }
  }

  lemma TextPush(lines: seq<Line>, line: Line)
    ensures Text(lines + [line]) == Text(lines) + line.text + "\n"
  {
    assert (lines + [line])[..|lines|] == lines;
  }

  /** The size of lines is the number of bytes of their text. */
  lemma {:induction false} LinesSizeIsBytes(lines: seq<Line>)
    ensures LinesSize(lines) == Utf8.Size(Text(lines))
  {
    if lines != [] {
      var front, last := lines[..|lines| - 1], lines[|lines| - 1];
      LinesSizeIsBytes(front);
      Utf8.SizeConcat(Text(front) + last.text, "\n");
      Utf8.SizeConcat(Text(front), last.text);
    }
  }

  lemma {:induction false} LinesSizeConcat(a: seq<Line>, b: seq<Line>)
    ensures LinesSize(a + b) == LinesSize(a) + LinesSize(b)
  {
    if b == [] {
      assert a + b == a;
    } else {
      LinesSizeConcat(a, b[..|b| - 1]);
      assert (a + b)[..|a + b| - 1] == a + b[..|b| - 1];
    }
  }

  lemma EmptyHasNoSize()
    ensures LinesSize([]) == 0
  {
  }

  lemma {:induction false} NonemptyHasSize(lines: seq<Line>)
    ensures LinesSize(lines) >= |lines|
  {
    if lines != [] { NonemptyHasSize(lines[..|lines| - 1]); }
  }

  // ---------------------------------------------------------------- history of the spool

  /** One sealing in the history: whether its name was one the database had already reported, whether
      the database has taken in this very segment, and whether its file was deleted. */
  datatype Sealing = Sealing(segment: Segment, reused: bool, ingested: bool, deleted: bool)

  /** All lines ever sealed, in order. */
  ghost function SealedLines(history: seq<Sealing>): seq<Line> {
    if history == [] then []
    else SealedLines(history[..|history| - 1]) + history[|history| - 1].segment.lines
  }

  /** The sealed files still on disk, in the order they were sealed. */
  ghost function OnDisk(history: seq<Sealing>): seq<Segment> {
    if history == [] then []
    else
      var last := history[|history| - 1];
      OnDisk(history[..|history| - 1]) + (if last.deleted then [] else [last.segment])
  }

  /** Only reported segments are deleted, and a report is about the segment itself unless its name
      had been reported before it was sealed. */
  ghost predicate SafeOne(h: Sealing, reported: set<Id>) {
    && (h.ingested || h.reused ==> h.segment.id in reported)
    && (h.deleted || h.segment.id in reported ==> h.ingested || h.reused)
    && (h.deleted ==> h.segment.id in reported)
  }

  ghost predicate Safe(history: seq<Sealing>, reported: set<Id>) {
    && (forall i :: 0 <= i < |history| ==> SafeOne(history[i], reported))
    && (forall i, j :: 0 <= i < j < |history| && !history[i].deleted && !history[j].deleted
          ==> history[i].segment.id != history[j].segment.id)
  }

  /** Size of the marker of the newest seal. */
  function NewestMarker(history: seq<Sealing>, topology: string): nat {
    if history == [] then 0 else MarkerSize(history[|history| - 1].segment.id, topology)
  }

  lemma MarkerOfSeal(history: seq<Sealing>, new_: Segment, reported: set<Id>, topology: string)
    ensures NewestMarker(Sealed(history, new_, reported), topology) == MarkerSize(new_.id, topology)
  {
  }

  lemma SameNewestMarker(a: seq<Sealing>, b: seq<Sealing>, topology: string)
    requires |a| == |b| && forall i :: 0 <= i < |a| ==> a[i].segment == b[i].segment
    ensures NewestMarker(a, topology) == NewestMarker(b, topology)
  {
    hide MarkerSize;
  }

  function Ids(sealed: seq<Segment>): set<Id> { set s | s in sealed :: s.id }

  lemma {:induction false} LiveIds(history: seq<Sealing>, i: nat)
    requires i < |history| && !history[i].deleted
    ensures history[i].segment.id in Ids(OnDisk(history))
  {
    var front := history[..|history| - 1];
    if i < |front| {
      LiveIds(front, i);
      var s :| s in OnDisk(front) && s.id == history[i].segment.id;
      assert s in OnDisk(history);
    } else {
      assert history[i].segment in OnDisk(history);
    }
  }

  lemma SealingKeepsSafe(history: seq<Sealing>, reported: set<Id>, new_: Segment)
    requires Safe(history, reported) && new_.id !in Ids(OnDisk(history))
    ensures Safe(Sealed(history, new_, reported), reported)
    ensures OnDisk(Sealed(history, new_, reported)) == OnDisk(history) + [new_]
    ensures SealedLines(Sealed(history, new_, reported)) == SealedLines(history) + new_.lines
  {
    var now := Sealed(history, new_, reported);
    assert now[..|history|] == history;
    forall i | 0 <= i < |history| && !history[i].deleted ensures history[i].segment.id != new_.id {
      LiveIds(history, i);
    }
  }

  ghost function Sealed(history: seq<Sealing>, new_: Segment, reported: set<Id>): seq<Sealing> {
    history + [Sealing(new_, new_.id in reported, false, false)]
  }

  ghost function Ingesting(history: seq<Sealing>, k: nat): seq<Sealing>
    requires k < |history|
  {
    history[k := history[k].(ingested := true)]
  }

  lemma IngestingKeepsSafe(history: seq<Sealing>, reported: set<Id>, k: nat)
    requires Safe(history, reported) && k < |history| && !history[k].deleted
    ensures Safe(Ingesting(history, k), reported + {history[k].segment.id})
  {
    var now := Ingesting(history, k);
    forall i | 0 <= i < |now| ensures SafeOne(now[i], reported + {history[k].segment.id}) {
      assert SafeOne(history[i], reported);
      if i != k && !history[i].deleted { assert history[i].segment.id != history[k].segment.id; }
    }
  }

  lemma DeletingKeepsSafe(history: seq<Sealing>, reported: set<Id>, ids: set<Id>)
    requires Safe(history, reported) && ids <= reported
    ensures Safe(Deleting(history, ids), reported)
  {
    var now := Deleting(history, ids);
    forall i | 0 <= i < |now| ensures SafeOne(now[i], reported) {
      assert SafeOne(history[i], reported);
    }
  }

  lemma {:induction false} SameFilesAndLines(a: seq<Sealing>, b: seq<Sealing>)
    requires |a| == |b|
    requires forall i :: 0 <= i < |a| ==> a[i].segment == b[i].segment && a[i].deleted == b[i].deleted
    ensures SealedLines(a) == SealedLines(b) && OnDisk(a) == OnDisk(b)
  {
    if a != [] { SameFilesAndLines(a[..|a| - 1], b[..|b| - 1]); }
  }

  /** The files with an id in `ids`, or the others. */
  function Chosen(sealed: seq<Segment>, ids: set<Id>, within: bool): seq<Segment> {
    if sealed == [] then []
    else
      var last := sealed[|sealed| - 1];
      Chosen(sealed[..|sealed| - 1], ids, within) + (if (last.id in ids) == within then [last] else [])
  }

  lemma {:induction false} ChosenByNone(sealed: seq<Segment>)
    ensures Chosen(sealed, {}, false) == sealed && Chosen(sealed, {}, true) == []
  {
    if sealed != [] {
      ChosenByNone(sealed[..|sealed| - 1]);
      assert sealed == sealed[..|sealed| - 1] + [sealed[|sealed| - 1]];
    }
  }

  lemma {:induction false} ChosenConcat(a: seq<Segment>, b: seq<Segment>, ids: set<Id>)
    ensures Chosen(a + b, ids, false) == Chosen(a, ids, false) + Chosen(b, ids, false)
  {
    if b == [] {
      assert a + b == a;
    } else {
      ChosenConcat(a, b[..|b| - 1], ids);
      assert (a + b)[..|a + b| - 1] == a + b[..|b| - 1];
    }
  }

  lemma GrowSealed(sealed: seq<Segment>, s: Segment, topology: string)
    ensures SealedSize(sealed + [s], topology)
         == SealedSize(sealed, topology) + LinesSize(s.lines) + MarkerSize(s.id, topology)
    ensures LinesSize([]) == 0
  {
    hide MarkerSize;
    assert (sealed + [s])[..|sealed|] == sealed;
  }

  lemma {:induction false} DeletionShrinks(sealed: seq<Segment>, ids: set<Id>, topology: string)
    ensures SealedSize(Chosen(sealed, ids, false), topology) <= SealedSize(sealed, topology)
  {
    hide MarkerSize;
    if sealed != [] {
      var front, last := sealed[..|sealed| - 1], sealed[|sealed| - 1];
      DeletionShrinks(front, ids, topology);
      assert Chosen(front, ids, false) + [] == Chosen(front, ids, false);
      GrowSealed(Chosen(front, ids, false), last, topology);
    }
  }

  /** Deleting the files with the given ids. */
  ghost function Deleting(history: seq<Sealing>, ids: set<Id>): (r: seq<Sealing>)
    ensures |r| == |history|
    ensures forall i :: 0 <= i < |r| ==>
      r[i] == if history[i].segment.id in ids then history[i].(deleted := true) else history[i]
  {
    seq(|history|, i requires 0 <= i < |history| =>
      if history[i].segment.id in ids then history[i].(deleted := true) else history[i])
  }

  lemma {:induction false} DeletingLeaves(history: seq<Sealing>, ids: set<Id>)
    ensures OnDisk(Deleting(history, ids)) == Chosen(OnDisk(history), ids, false)
    ensures SealedLines(Deleting(history, ids)) == SealedLines(history)
  {
    if history != [] {
      var front, last := history[..|history| - 1], history[|history| - 1];
      DeletingLeaves(front, ids);
      assert Deleting(history, ids)[..|history| - 1] == Deleting(front, ids);
      var kept := if last.deleted then [] else [last.segment];
      ChosenConcat(OnDisk(front), kept, ids);
      assert Chosen(kept, ids, false) == if last.deleted || last.segment.id in ids then [] else [last.segment] by {
        if !last.deleted { assert kept[..0] == []; }
      }
    }
  }

  // ---------------------------------------------------------------- the spool

  class Spool {
    /** Non-positive means no limit. */
    const maxBytes: int
    const segmentBytes: int
    const topology: string

    var active: seq<Line>
    var sealed: seq<Segment>

    /** Every line a write accepted, every sealing, and every id the database has reported. */
    ghost var accepted: seq<Line>
    ghost var history: seq<Sealing>
    ghost var reported: set<Id>

    ghost predicate Valid()
      reads this
    {
      && accepted == SealedLines(history) + active
      && sealed == OnDisk(history)
      && Safe(history, reported)
      && (maxBytes > 0 ==> Size() <= maxBytes + NewestMarker(history, topology))
    }

    /** `_spool_size`: every byte on disk. */
    function Size(): nat
      reads this
    {
      LinesSize(active) + SealedSize(sealed, topology)
    }

    constructor (maxBytes: int, segmentBytes: int, topology: string)
      ensures Valid() && active == [] && sealed == [] && accepted == [] && history == [] && reported == {}
      ensures this.maxBytes == maxBytes && this.segmentBytes == segmentBytes && this.topology == topology
    {
      this.maxBytes, this.segmentBytes, this.topology := maxBytes, segmentBytes, topology;
      active, sealed, accepted, history, reported := [], [], [], [], {};
    }

    /** The newest timestamp in the active file. */
    method MaxTimestamp() returns (latest: Option<nat>)
      ensures latest.None? ==> forall line :: line in active ==> line.timestamp.None?
      ensures latest.Some? ==> exists line :: line in active && line.timestamp == latest
      ensures latest.Some? ==> forall line :: line in active && line.timestamp.Some? ==> line.timestamp.value <= latest.value
    {
      latest := None;
      for i := 0 to |active|
        invariant latest.None? ==> forall k :: 0 <= k < i ==> active[k].timestamp.None?
        invariant latest.Some? ==> exists line :: line in active && line.timestamp == latest
        invariant latest.Some? ==> forall k :: 0 <= k < i && active[k].timestamp.Some? ==> active[k].timestamp.value <= latest.value
      {
        var timestamp := active[i].timestamp;
        if timestamp.Some? && (latest.None? || timestamp.value > latest.value) {
          latest := timestamp;
        }
      }
    }

    /** The least sequence number not taken by a file on disk. */
    method FreeSequence(timestamp: nat) returns (sequence: nat)
      ensures Id(timestamp, sequence) !in Ids(sealed)
      ensures forall k :: 0 <= k < sequence ==> Id(timestamp, k) in Ids(sealed)
    {
      var taken := set s | s in sealed && s.id.timestamp == timestamp :: s.id.sequence;
      assert forall k :: k in taken <==> Id(timestamp, k) in Ids(sealed) by {
        forall k: nat ensures k in taken <==> Id(timestamp, k) in Ids(sealed) {
          if k in taken {
            var s :| s in sealed && s.id.timestamp == timestamp && s.id.sequence == k;
            assert s.id == Id(timestamp, k);
          }
          if Id(timestamp, k) in Ids(sealed) {
            var s :| s in sealed && s.id == Id(timestamp, k);
            assert s.id.timestamp == timestamp && s.id.sequence == k;
          }
        }
      }
      sequence := 0;
      ghost var higher := taken;
      while sequence in taken
        invariant forall k :: 0 <= k < sequence ==> Id(timestamp, k) in Ids(sealed)
        invariant forall k :: k in taken && k >= sequence ==> k in higher
        decreases higher
      {
        higher := higher - {sequence};
        sequence := sequence + 1;
      }
    }

    /** The name a seal of `lines` takes: their newest timestamp, and the least number that makes
        it different from every file on disk. */
    static predicate SealName(id: Id, lines: seq<Line>, sealed: seq<Segment>) {
      && (exists line :: line in lines && line.timestamp == Some(id.timestamp))
      && (forall line :: line in lines && line.timestamp.Some? ==> line.timestamp.value <= id.timestamp)
      && id !in Ids(sealed)
      && (forall k :: 0 <= k < id.sequence ==> Id(id.timestamp, k) in Ids(sealed))
    }

    ghost predicate Unchanged(active: seq<Line>, sealed: seq<Segment>, accepted: seq<Line>, history: seq<Sealing>)
      reads this
    {
      this.active == active && this.sealed == sealed && this.accepted == accepted && this.history == history
    }

    /** Seals the active file and starts an empty one, or refuses and changes nothing. */
    method RotateActive() returns (outcome: Outcome, ghost id: Id)
      requires Valid() && active != []
      modifies this
      ensures Valid() && accepted == old(accepted) && reported == old(reported)
      ensures outcome == NoTimestamp <==> forall line :: line in old(active) ==> line.timestamp.None?
      ensures outcome != NoTimestamp ==> SealName(id, old(active), old(sealed))
      ensures outcome == NoRoomToSeal <==>
        outcome != NoTimestamp && maxBytes > 0 && old(Size()) + MarkerSize(id, topology) > maxBytes
      ensures outcome != SpoolFull
      ensures outcome != Done ==> Unchanged(old(active), old(sealed), old(accepted), old(history))
      ensures outcome == Done ==>
        && active == [] && sealed == old(sealed) + [Segment(id, old(active))]
        && history == Sealed(old(history), Segment(id, old(active)), reported)
        && Size() == old(Size()) + MarkerSize(id, topology)
    {
      hide MarkerSize;
      hide OnDisk;
      hide SealedLines;
      hide SealedSize;
      hide LinesSize;
      hide Safe;
      hide Sealed;
      hide Ids;
      hide NewestMarker;
      var latest := MaxTimestamp();
      if latest.None? { return NoTimestamp, Id(0, 0); }
      var sequence := FreeSequence(latest.value);
      var name := Id(latest.value, sequence);
      id := name;
      var marker := MarkerSize(name, topology);
      if maxBytes > 0 && Size() + marker > maxBytes { return NoRoomToSeal, id; }
      ghost var segment := Segment(name, active);
      SealingKeepsSafe(history, reported, segment);
      GrowSealed(sealed, segment, topology);
      MarkerOfSeal(history, segment, reported, topology);
      assert SealedLines(history) + active == (SealedLines(history) + active) + [];
      history := Sealed(history, segment, reported);
      sealed := sealed + [Segment(name, active)];
      active := [];
      outcome := Done;
    }

    /** Appends a batch, first sealing the active file when the batch would make it too long. A batch
        that is refused, for whatever reason, changes nothing. */
    method Write(lines: seq<Line>) returns (outcome: Outcome, ghost id: Id)
      requires Valid()
      modifies this
      ensures Valid() && reported == old(reported)
      ensures outcome == SpoolFull <==> maxBytes > 0 && old(Size()) + LinesSize(Rendered(lines)) > maxBytes
      ensures outcome != Done ==> Unchanged(old(active), old(sealed), old(accepted), old(history))
      ensures outcome == Done ==> accepted == old(accepted) + Rendered(lines)
      ensures outcome == Done ==> Text(accepted) == Text(old(accepted)) + Appended(lines)
      ensures !old(Long(lines)) ==> outcome == Done || outcome == SpoolFull
      ensures old(Long(lines)) && outcome != SpoolFull ==>
        (outcome == NoTimestamp <==> forall line :: line in old(active) ==> line.timestamp.None?)
      ensures old(Long(lines)) && outcome != SpoolFull && outcome != NoTimestamp ==>
        && SealName(id, old(active), old(sealed))
        && (outcome == NoRoomToSeal <==> maxBytes > 0 && old(Size()) + MarkerSize(id, topology) > maxBytes)
      ensures outcome == Done && !old(Long(lines)) ==>
        && Unchanged(old(active) + Rendered(lines), old(sealed), accepted, old(history))
        && Size() == old(Size()) + LinesSize(Rendered(lines))
      ensures outcome == Done && old(Long(lines)) ==>
        && Unchanged(Rendered(lines), old(sealed) + [Segment(id, old(active))], accepted,
                     Sealed(old(history), Segment(id, old(active)), reported))
        && Size() == old(Size()) + LinesSize(Rendered(lines)) + MarkerSize(id, topology)
    {
      hide MarkerSize;
      hide OnDisk;
      hide SealedLines;
      hide SealedSize;
      hide LinesSize;
      hide Safe;
      hide Sealed;
      hide SealName;
      hide Rendered;
      hide Text;
      hide Appended;
      hide NewestMarker;
      EmptyHasNoSize();
      RenderedText(lines);
      TextConcat(accepted, Rendered(lines));
      var rendered := Rendered(lines);
      var size := LinesSize(rendered);
      if maxBytes > 0 && Size() + size > maxBytes { return SpoolFull, Id(0, 0); }
      id := Id(0, 0);
      NonemptyHasSize(active);
      if segmentBytes > 0 && LinesSize(active) > 0 && LinesSize(active) + size > segmentBytes {
        outcome, id := RotateActive();
        if outcome != Done { return; }
        MarkerOfSeal(old(history), Segment(id, old(active)), reported, topology);
      }
      LinesSizeConcat(active, rendered);
      assert (SealedLines(history) + active) + rendered == SealedLines(history) + (active + rendered);
      assert [] + rendered == rendered;
      active := active + rendered;
      accepted := accepted + rendered;
      outcome := Done;
    }

    /** The batch does not fit in the segment that is being written. */
    predicate Long(lines: seq<Line>)
      reads this
    {
      active != [] && segmentBytes > 0 && LinesSize(active) + LinesSize(Rendered(lines)) > segmentBytes
    }

    /** The database takes in segment `k`, marker included, and reports its id from now on. */
    ghost method Ingest(k: nat)
      requires Valid() && k < |history| && !history[k].deleted
      modifies this`history, this`reported
      ensures Valid() && history == Ingesting(old(history), k)
      ensures reported == old(reported) + {history[k].segment.id}
    {
      SameFilesAndLines(history, Ingesting(history, k));
      IngestingKeepsSafe(history, reported, k);
      SameNewestMarker(history, Ingesting(history, k), topology);
      hide NewestMarker;
      hide Safe;
      reported := reported + {history[k].segment.id};
      history := Ingesting(history, k);
    }

    static method Split(sealed: seq<Segment>, ids: set<Id>) returns (kept: seq<Segment>, removed: seq<Segment>)
      ensures kept == Chosen(sealed, ids, false) && removed == Chosen(sealed, ids, true)
    {
      kept, removed := [], [];
      for i := 0 to |sealed|
        invariant kept == Chosen(sealed[..i], ids, false) && removed == Chosen(sealed[..i], ids, true)
      {
        assert sealed[..i + 1][..i] == sealed[..i];
        if sealed[i].id in ids {
          removed := removed + [sealed[i]];
        } else {
          kept := kept + [sealed[i]];
        }
      }
      assert sealed[..|sealed|] == sealed;
    }

    /** Deletes the files whose ids a query returned. */
    method DeleteIngested(ids: set<Id>) returns (removed: seq<Segment>)
      requires Valid() && ids <= reported
      modifies this`sealed, this`history
      ensures Valid() && history == Deleting(old(history), ids)
      ensures sealed == Chosen(old(sealed), ids, false)
      ensures removed == Chosen(old(sealed), ids, true)
      ensures Size() <= old(Size())
    {
      hide Safe;
      hide OnDisk;
      hide SealedLines;
      hide SealedSize;
      hide LinesSize;
      hide Deleting;
      hide Chosen;
      DeletingLeaves(history, ids);
      DeletingKeepsSafe(history, reported, ids);
      SameNewestMarker(history, Deleting(history, ids), topology);
      hide NewestMarker;
      DeletionShrinks(sealed, ids, topology);
      if ids == {} {
        removed := [];
        ChosenByNone(sealed);
      } else {
        sealed, removed := Split(sealed, ids);
      }
      history := Deleting(history, ids);
    }

    /** An empty spool with tiny segments takes its first line. */
    method StartFile(line: Line)
      requires Valid() && active == [] && sealed == [] && history == [] && maxBytes == 0
      requires Rendered([line]) == [line]
      modifies this
      ensures Valid() && active == [line] && sealed == [] && history == []
    {
      var outcome, id := Write([line]);
      assert [] + [line] == [line];
    }

    /** One line is sealed by the next, taken in or not, and its file deleted. */
    method SealAndDelete(line: Line, ghost takenIn: bool)
      requires Valid() && active == [line] && sealed == [] && maxBytes == 0 && segmentBytes == 1
      requires Rendered([line]) == [line] && LinesSize([line]) == 3 && line.timestamp == Some(0)
      requires takenIn || Id(0, 0) in reported
      modifies this
      ensures Valid() && active == [line] && sealed == [] && reported == old(reported) + {Id(0, 0)}
      ensures |history| == |old(history)| + 1
      ensures var h := history[|history| - 1]; h.segment.lines == [line] && h.deleted && h.ingested == takenIn
    {
      hide MarkerSize;
      hide Safe;
      hide OnDisk;
      hide SealedLines;
      hide LinesSize;
      hide Rendered;
      hide SealName;
      hide Chosen;
      ghost var before := history;
      var outcome, id := Write([line]);
      FirstName(id, line);
      ghost var segment := Segment(Id(0, 0), [line]);
      assert history == before + [Sealing(segment, Id(0, 0) in reported, false, false)];
      if takenIn { Ingest(|before|); }
      var removed := DeleteIngested({Id(0, 0)});
      NothingLeft(segment, Id(0, 0));
    }

    /** A report can name a segment that was never taken in exactly when the segment was sealed under
        a name that had been reported before: only then can a deletion lose lines. */
    lemma LossNeedsReuse(i: nat)
      requires Valid() && i < |history| && !history[i].ingested
      ensures history[i].segment.id in reported <==> history[i].reused
      ensures history[i].deleted ==> history[i].reused
    {
      assert SafeOne(history[i], reported);
    }
  }

  /** A write that seals and then appends can pass the limit. */
  method LimitIsNotStrict() returns (s: Spool)
    ensures s.Valid() && s.maxBytes > 0 && s.Size() > s.maxBytes
  {
    var line := Line(" 0", Some(0));
    MarkerIsLong(Id(0, 0), "");
    OneLine(line);
    EmptyHasNoSize();
    hide MarkerSize;
    hide Safe;
    hide OnDisk;
    hide SealedLines;
    hide LinesSize;
    hide Rendered;
    hide Spool.SealName;
    hide Sealed;
    hide Text;
    hide Appended;
    hide Marker;
    s := NearlyFull(line);
    ghost var id;
    var outcome;
    outcome, id := s.Write([line]);
    FirstName(id, line);
  }

  /** Room for one short line and the marker of its segment, and that line is already there. */
  method NearlyFull(line: Line) returns (s: Spool)
    requires line == Line(" 0", Some(0))
    ensures s.Valid() && fresh(s) && s.topology == "" && s.maxBytes == 3 + MarkerSize(Id(0, 0), "")
    ensures s.active == [line] && s.sealed == [] && s.Size() == 3 && s.Long([line])
  {
    MarkerIsLong(Id(0, 0), "");
    OneLine(line);
    EmptyHasNoSize();
    hide MarkerSize;
    hide Safe;
    hide OnDisk;
    hide SealedLines;
    hide LinesSize;
    hide Rendered;
    hide Spool.SealName;
    hide Sealed;
    hide Text;
    hide Appended;
    hide Marker;
    s := new Spool(3 + MarkerSize(Id(0, 0), ""), 5, "");
    var outcome, id := s.Write([line]);
    assert [] + [line] == [line];
  }

  lemma MarkerIsLong(id: Id, topology: string)
    ensures MarkerSize(id, topology) >= 3
  {
    SizeAtLeastLength(Marker(id, topology));
    hide TagEscape.CollectorEscape;
  }

  lemma FirstName(id: Id, line: Line)
    requires line.timestamp == Some(0) && Spool.SealName(id, [line], [])
    ensures id == Id(0, 0)
  {
    assert Id(id.timestamp, 0) !in Ids([]);
  }

  lemma OneLine(line: Line)
    requires line.text == " 0"
    ensures Rendered([line]) == [line] && LinesSize([line]) == 3
  {
    assert [line][..0] == [];
    assert Utf8.Size(" 0") == 2 by { assert " 0"[1..] == "0" && "0"[1..] == ""; }
  }

  lemma {:induction false} SizeAtLeastLength(text: string)
    ensures Utf8.Size(text) >= |text|
  {
    if text != "" { SizeAtLeastLength(text[1..]); }
  }

  /** Deleting a segment frees its name, and a report about the old segment then deletes a new one of
      the same name whose lines the database never saw. */
  method ReusedNameLosesLines() returns (s: Spool)
    ensures s.Valid() && |s.history| == 2 && s.history[1].deleted && !s.history[1].ingested
    ensures s.history[1].segment.lines != []
  {
    var line := Line(" 0", Some(0));
    OneLine(line);
    s := new Spool(0, 1, "");
    hide *;
    s.StartFile(line);
    s.SealAndDelete(line, true);
    s.SealAndDelete(line, false);
  }

  lemma NothingLeft(s: Segment, id: Id)
    requires s.id == id
    ensures Chosen([s], {id}, false) == [] && [] + [s] == [s]
  {
    assert [s][..0] == [];
  }
}
