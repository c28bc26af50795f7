/** Size-bounded JSON payloads: compaction keeps complete values, as many as fit. */
module JsonPayload {
  import opened Numbers
  import Utf8

  /** A JSON value. A number is its text; a dictionary lists its entries in insertion order. */
  datatype Json =
    | Null
    | Bool(flag: bool)
    | Number(digits: string)
    | Str(text: string)
    | List(items: seq<Json>)
    | Dict(entries: seq<Entry>)

  datatype Entry = Entry(key: string, value: Json)

  // ---------------------------------------------------------------- size of the compact encoding

  /** Bytes one character takes inside a JSON string (section 7 of RFC 8259; other characters stay
      as they are). */
  function CharBytes(c: char): (n: nat)
    ensures n <= 6
  {
    if c == '\"' || c == '\\' then 2
    else if c as int in {8, 9, 10, 12, 13} then 2
    else if c as int < 0x20 then 6
    else Utf8.CharSize(c)
  }

  function TextBytes(s: string): nat {
    if s == "" then 0 else CharBytes(s[0]) + TextBytes(s[1..])
  }

  function StringBytes(s: string): nat { TextBytes(s) + 2 }

  function Commas(n: nat): nat { if n == 0 then 0 else n - 1 }

  /** `json_size`. */
  function JsonSize(v: Json): nat {
    match v
    case Null => 4
    case Bool(flag) => if flag then 4 else 5
    case Number(digits) => |digits|
    case Str(text) => StringBytes(text)
    case List(items) => 2 + Commas(|items|) + ItemsSize(items)
    case Dict(entries) => 2 + Commas(|entries|) + EntriesSize(entries)
  }

  function ItemsSize(items: seq<Json>): nat {
    if items == [] then 0 else ItemsSize(items[..|items| - 1]) + JsonSize(items[|items| - 1])
  }

  function EntriesSize(entries: seq<Entry>): nat {
    if entries == [] then 0
    else
      var last := entries[|entries| - 1];
      EntriesSize(entries[..|entries| - 1]) + StringBytes(last.key) + 1 + JsonSize(last.value)
  }

  // ---------------------------------------------------------------- the compact encoding

  function HexDigit(n: nat): char
    requires n < 16
  {
    "0123456789abcdef"[n]
  }

  /** A character inside a JSON string. */
  function Escaped(c: char): string {
    if c == '\"' then "\\\""
    else if c == '\\' then "\\\\"
    else if c as int == 8 then "\\b"
    else if c == '\t' then "\\t"
    else if c == '\n' then "\\n"
    else if c as int == 12 then "\\f"
    else if c == '\r' then "\\r"
    else if c as int < 32 then "\\u00" + [HexDigit(c as int / 16), HexDigit(c as int % 16)]
    else [c]
  }

  function EscapedText(s: string): string { if s == "" then "" else Escaped(s[0]) + EscapedText(s[1..]) }

  function Quoted(s: string): string { "\"" + EscapedText(s) + "\"" }

  /** `json.dumps` without blanks and with characters beyond ASCII kept as they are. */
  function Dump(v: Json): string {
    match v
    case Null => "null"
    case Bool(flag) => if flag then "true" else "false"
    case Number(digits) => digits
    case Str(text) => Quoted(text)
    case List(items) => "[" + DumpItems(items) + "]"
    case Dict(entries) => "{" + DumpEntries(entries) + "}"
  }

  function DumpItems(items: seq<Json>): string {
    if items == [] then ""
    else
      DumpItems(items[..|items| - 1]) + (if |items| == 1 then "" else ",") + Dump(items[|items| - 1])
  }

  function DumpEntries(entries: seq<Entry>): string {
    if entries == [] then ""
    else
      var last := entries[|entries| - 1];
      DumpEntries(entries[..|entries| - 1]) + (if |entries| == 1 then "" else ",") + Quoted(last.key) + ":" + Dump(last.value)
  }

  /** Numbers are written in plain characters. */
  predicate PlainNumbers(v: Json) {
    match v
    case Number(digits) => Utf8.Size(digits) == |digits|
    case List(items) => forall i :: 0 <= i < |items| ==> PlainNumbers(items[i])
    case Dict(entries) => forall i :: 0 <= i < |entries| ==> PlainNumbers(entries[i].value)
    case _ => true
  }

  /** `json_size` is the number of bytes of the encoding. */
  lemma {:induction false} SizeIsBytes(v: Json)
    requires PlainNumbers(v)
    ensures JsonSize(v) == Utf8.Size(Dump(v))
    decreases v, 1, 0
  {
    match v
    case Null => Literals();
    case Bool(_) => Literals();
    case Number(_) =>
    case Str(text) => QuotedSize(text);
    case List(items) =>
      ItemsSizeIsBytes(v, items);
      Literals();
      Bracketed("[", DumpItems(items), "]");
    case Dict(entries) =>
      EntriesSizeIsBytes(v, entries);
      Literals();
      Bracketed("{", DumpEntries(entries), "}");
  }

  lemma Literals()
    ensures Utf8.Size("null") == Utf8.Size("true") == 4 && Utf8.Size("false") == 5
    ensures Utf8.Size("[") == Utf8.Size("]") == Utf8.Size("{") == Utf8.Size("}") == 1
    ensures Utf8.Size(",") == Utf8.Size(":") == Utf8.Size("\"") == 1 && Utf8.Size("") == 0
  {
    PlainSize("null");
    PlainSize("true");
    PlainSize("false");
    PlainSize("[");
    PlainSize("]");
    PlainSize("{");
    PlainSize("}");
    PlainSize(",");
    PlainSize(":");
    PlainSize("\"");
  }

  lemma {:induction false} PlainSize(s: string)
    requires forall i :: 0 <= i < |s| ==> s[i] as int < 0x80
    ensures Utf8.Size(s) == |s|
  {
    if s != "" { PlainSize(s[1..]); }
  }

  lemma Bracketed(open: string, middle: string, close: string)
    ensures Utf8.Size(open + middle + close) == Utf8.Size(open) + Utf8.Size(middle) + Utf8.Size(close)
  {
    Utf8.SizeConcat(open + middle, close);
    Utf8.SizeConcat(open, middle);
  }

  lemma {:induction false} ItemsSizeIsBytes(parent: Json, items: seq<Json>)
    requires parent.List? && items <= parent.items && PlainNumbers(parent)
    ensures Commas(|items|) + ItemsSize(items) == Utf8.Size(DumpItems(items))
    decreases parent, 0, |items|
  {
    if items != [] {
      var front, last := items[..|items| - 1], items[|items| - 1];
      assert last == parent.items[|items| - 1];
      ItemsSizeIsBytes(parent, front);
      SizeIsBytes(last);
      Literals();
      hide JsonSize;
      hide Dump;
      hide Utf8.Size;
      Bracketed(DumpItems(front), if |items| == 1 then "" else ",", Dump(last));
    } else {
      Literals();
    }
  }

  lemma {:induction false} EntriesSizeIsBytes(parent: Json, entries: seq<Entry>)
    requires parent.Dict? && entries <= parent.entries && PlainNumbers(parent)
    ensures Commas(|entries|) + EntriesSize(entries) == Utf8.Size(DumpEntries(entries))
    decreases parent, 0, |entries|
  {
    if entries != [] {
      var front, last := entries[..|entries| - 1], entries[|entries| - 1];
      assert last == parent.entries[|entries| - 1];
      EntriesSizeIsBytes(parent, front);
      SizeIsBytes(last.value);
      QuotedSize(last.key);
      Literals();
      hide JsonSize;
      hide Dump;
      hide Utf8.Size;
      hide Quoted;
      hide StringBytes;
      var comma := if |entries| == 1 then "" else ",";
      Bracketed(DumpEntries(front) + comma + Quoted(last.key), ":", Dump(last.value));
      Bracketed(DumpEntries(front), comma, Quoted(last.key));
    } else {
      Literals();
    }
  }

  lemma QuotedSize(s: string)
    ensures StringBytes(s) == Utf8.Size(Quoted(s))
  {
    EscapedSize(s);
    Literals();
    Bracketed("\"", EscapedText(s), "\"");
  }

  lemma {:induction false} EscapedSize(s: string)
    ensures TextBytes(s) == Utf8.Size(EscapedText(s))
  {
    if s != "" {
      EscapedSize(s[1..]);
      EscapedCharSize(s[0]);
      Utf8.SizeConcat(Escaped(s[0]), EscapedText(s[1..]));
      hide CharBytes;
      hide Escaped;
    } else {
      Literals();
    }
  }

  lemma EscapedCharSize(c: char)
    ensures CharBytes(c) == Utf8.Size(Escaped(c))
  {
    if c == '\"' || c == '\\' || c as int < 32 {
      PlainSize(Escaped(c));
    } else {
      assert [c][1..] == "" && Utf8.Size("") == 0;
    }
  }

  // ---------------------------------------------------------------- sorting by key

  /** Lexicographic order by code point. */
  predicate AtMost(a: string, b: string) {
    a == "" || (b != "" && (a[0] < b[0] || (a[0] == b[0] && AtMost(a[1..], b[1..]))))
  }

  lemma {:induction false} AtMostTotal(a: string, b: string)
    ensures AtMost(a, b) || AtMost(b, a)
  {
    if a != "" && b != "" { AtMostTotal(a[1..], b[1..]); }
  }

  lemma {:induction false} AtMostTransitive(a: string, b: string, c: string)
    requires AtMost(a, b) && AtMost(b, c)
    ensures AtMost(a, c)
  {
    if a != "" && a[0] == b[0] == c[0] { AtMostTransitive(a[1..], b[1..], c[1..]); }
  }

  function Insert(e: Entry, sorted: seq<Entry>): (r: seq<Entry>)
    ensures multiset(r) == multiset(sorted) + multiset{e}
  {
    if sorted == [] || AtMost(e.key, sorted[0].key) then [e] + sorted
    else
      assert sorted == [sorted[0]] + sorted[1..];
      [sorted[0]] + Insert(e, sorted[1..])
  }

  function Sort(entries: seq<Entry>): (r: seq<Entry>)
    ensures multiset(r) == multiset(entries)
  {
    if entries == [] then []
    else
      assert entries == [entries[0]] + entries[1..];
      Insert(entries[0], Sort(entries[1..]))
  }

  ghost predicate Sorted(entries: seq<Entry>) {
    forall i, j :: 0 <= i < j < |entries| ==> AtMost(entries[i].key, entries[j].key)
  }

  lemma {:induction false} InsertSorted(e: Entry, sorted: seq<Entry>)
    requires Sorted(sorted)
    ensures Sorted(Insert(e, sorted))
  {
    if sorted == [] {
    } else if AtMost(e.key, sorted[0].key) {
      forall j | 0 <= j < |sorted| ensures AtMost(e.key, sorted[j].key) {
        if j > 0 { AtMostTransitive(e.key, sorted[0].key, sorted[j].key); }
      }
    } else {
      InsertSorted(e, sorted[1..]);
      AtMostTotal(e.key, sorted[0].key);
      var rest := Insert(e, sorted[1..]);
      forall j | 0 <= j < |rest| ensures AtMost(sorted[0].key, rest[j].key) {
        assert rest[j] in multiset(rest);
        assert rest[j] == e || rest[j] in sorted[1..];
      }
    }
  }

  lemma {:induction false} SortSorts(entries: seq<Entry>)
    ensures Sorted(Sort(entries)) && |Sort(entries)| == |entries|
  {
    if entries != [] {
      SortSorts(entries[1..]);
      InsertSorted(entries[0], Sort(entries[1..]));
    }
    assert |multiset(Sort(entries))| == |multiset(entries)|;
  }

  lemma SortedMembers(entries: seq<Entry>)
    ensures forall e :: e in Sort(entries) ==> e in entries
  {
    forall e | e in Sort(entries) ensures e in entries {
      assert e in multiset(Sort(entries));
    }
  }

  // ---------------------------------------------------------------- compaction

  const NOTE := "_truncation"

  /** What was left out, and how large the whole payload was. */
  function Note(original: nat, omitted: nat): Json {
    Dict([Entry("truncated", Bool(true)), Entry("original_bytes", Number(Decimal(original))),
          Entry("omitted_items", Number(Decimal(omitted)))])
  }

  function Put(entries: seq<Entry>, key: string, value: Json): seq<Entry> {
    if entries == [] then [Entry(key, value)]
    else if entries[0].key == key then [Entry(key, value)] + entries[1..]
    else [entries[0]] + Put(entries[1..], key, value)
  }

  lemma {:induction false} PutFresh(entries: seq<Entry>, key: string, value: Json)
    requires forall e :: e in entries ==> e.key != key
    ensures Put(entries, key, value) == entries + [Entry(key, value)]
  {
    if entries != [] { PutFresh(entries[1..], key, value); }
  }

  function NotedDict(kept: seq<Entry>, original: nat, omitted: nat): Json {
    Dict(Put(kept, NOTE, Note(original, omitted)))
  }

  function NotedList(kept: seq<Json>, original: nat, omitted: nat): Json {
    List(kept + [Dict([Entry(NOTE, Note(original, omitted))])])
  }

  function ShortText(prefix: string, chars: nat): Json {
    Dict([Entry("_truncated_text", Str(prefix)), Entry("original_chars", Number(Decimal(chars)))])
  }

  /** The first `limit` bytes of the UTF-8 encoding, decoded with errors ignored. */
  function CutText(text: string, limit: nat): string {
    var bytes := Utf8.Encode(text);
    Utf8.DecodeIgnoringErrors(bytes[..Min(limit, |bytes|)])
  }

  /** The budget a child is compacted to. */
  function Remaining(budget: int, used: nat): int { Max(128, budget - used - 256) }

  /** A child gets what the entries kept so far and the note leave, but never less than 128 bytes. */
  lemma RemainingLeavesRoom(budget: int, used: nat)
    ensures var child := Remaining(budget, used);
      child >= 128 && (if used + 256 + 128 <= budget then used + 256 + child == budget else child == 128)
  {
  }

  function Compact(v: Json, budget: int, original: nat): Json
    decreases v, 1, 0
  {
    match v
    case Dict(entries) =>
      var items := Sort(entries);
      SortedMembers(entries);
      var kept := KeepEntries(v, items, [], budget, original);
      NotedDict(kept, original, |items| - |kept|)
    case List(items) =>
      var kept := KeepItems(v, [], budget, original);
      NotedList(kept, original, |items| - |kept|)
    case Str(text) => ShortText(CutText(text, Max(0, budget - 160)), |text|)
    case _ => v
  }

  /** The loop over the sorted entries of `parent`, from the point where `kept` has been kept. */
  function KeepEntries(parent: Json, items: seq<Entry>, kept: seq<Entry>, budget: int, original: nat): (r: seq<Entry>)
    requires parent.Dict? && (forall e :: e in items ==> e in parent.entries) && |kept| <= |items|
    ensures |kept| <= |r| <= |items|
    decreases parent, 0, |items| - |kept|
  {
    if |kept| == |items| then kept
    else
      var item := items[|kept|];
      assert item in parent.entries;
      var more := kept + [Entry(item.key, Compact(item.value, Remaining(budget, JsonSize(Dict(kept))), original))];
      if JsonSize(NotedDict(more, original, |items| - |more|)) > budget then kept
      else KeepEntries(parent, items, more, budget, original)
  }

  function KeepItems(parent: Json, kept: seq<Json>, budget: int, original: nat): (r: seq<Json>)
    requires parent.List? && |kept| <= |parent.items|
    ensures |kept| <= |r| <= |parent.items|
    decreases parent, 0, |parent.items| - |kept|
  {
    if |kept| == |parent.items| then kept
    else
      var more := kept + [Compact(parent.items[|kept|], Remaining(budget, JsonSize(List(kept))), original)];
      if JsonSize(NotedList(more, original, |parent.items| - |more|)) > budget then kept
      else KeepItems(parent, more, budget, original)
  }

  /** `_compact`, which fills and pops a dictionary or list in place. */
  method CompactValue(v: Json, budget: int, original: nat) returns (r: Json)
    ensures r == Compact(v, budget, original)
    decreases v, 1
  {
    match v
    case Dict(entries) => r := CompactDict(v, budget, original);
    case List(items) => r := CompactList(v, budget, original);
    case Str(text) => r := ShortText(CutText(text, Max(0, budget - 160)), |text|);
    case _ => r := v;
  }

  method CompactDict(v: Json, budget: int, original: nat) returns (r: Json)
    requires v.Dict?
    ensures r == Compact(v, budget, original)
    decreases v, 0
  {
    hide JsonSize;
    hide NotedDict;
    hide Sort;
    var items := Sort(v.entries);
    SortedMembers(v.entries);
    var output: seq<Entry> := [];
    var index := 0;
    while index < |items|
      invariant |output| == index <= |items|
      invariant KeepEntries(v, items, [], budget, original) == KeepEntries(v, items, output, budget, original)
    {
      assert items[index] in v.entries;
      var child := CompactValue(items[index].value, Remaining(budget, JsonSize(Dict(output))), original);
      hide Compact;
      output := output + [Entry(items[index].key, child)];
      if JsonSize(NotedDict(output, original, |items| - index - 1)) > budget {
        output := output[..index];
        break;
      }
      index := index + 1;
    }
    r := NotedDict(output, original, |items| - |output|);
  }

  method CompactList(v: Json, budget: int, original: nat) returns (r: Json)
    requires v.List?
    ensures r == Compact(v, budget, original)
    decreases v, 0
  {
    hide JsonSize;
    hide NotedList;
    var items := v.items;
    var output: seq<Json> := [];
    var index := 0;
    while index < |items|
      invariant |output| == index <= |items|
      invariant KeepItems(v, [], budget, original) == KeepItems(v, output, budget, original)
    {
      var child := CompactValue(items[index], Remaining(budget, JsonSize(List(output))), original);
      hide Compact;
      output := output + [child];
      if JsonSize(NotedList(output, original, |items| - index - 1)) > budget {
        output := output[..index];
        break;
      }
      index := index + 1;
    }
    r := NotedList(output, original, |items| - |output|);
  }

  function Fallback(original: nat): Json {
    Dict([Entry(NOTE, Dict([Entry("truncated", Bool(true)), Entry("original_bytes", Number(Decimal(original)))]))])
  }

  function CompactJson(v: Json, maxBytes: int): Json {
    var original := JsonSize(v);
    if original <= maxBytes then v
    else
      var compacted := Compact(v, maxBytes, original);
      if JsonSize(compacted) <= maxBytes then compacted else Fallback(original)
  }

  /** What a dictionary says under a key. */
  function ValueAt(v: Json, key: string): Option<Json> {
    if v.Dict? then EntryAt(v.entries, key) else None
  }

  function EntryAt(entries: seq<Entry>, key: string): Option<Json> {
    if entries == [] then None
    else if entries[0].key == key then Some(entries[0].value)
    else EntryAt(entries[1..], key)
  }

  ghost predicate Says(v: Json, key: string, n: nat) {
    var found := ValueAt(v, key);
    found.Some? && found.value.Number? && NumberOf(found.value.digits) == n
  }

  /** A note says that something was cut, how large the payload was and how many entries are missing; the
      bare marker says the first two, and a cut text how long it was. */
  lemma NotesCanBeRead(original: nat, omitted: nat, prefix: string)
    ensures var note := Note(original, omitted);
      ValueAt(note, "truncated") == Some(Bool(true)) && Says(note, "original_bytes", original) && Says(note, "omitted_items", omitted)
    ensures var marker := ValueAt(Fallback(original), NOTE);
      marker.Some? && ValueAt(marker.value, "truncated") == Some(Bool(true)) && Says(marker.value, "original_bytes", original)
    ensures var cut := ShortText(prefix, omitted);
      ValueAt(cut, "_truncated_text") == Some(Str(prefix)) && Says(cut, "original_chars", omitted)
    ensures NOTE == "_truncation"
  {
    DecimalReadsBack(original);
    DecimalReadsBack(omitted);
    hide Decimal;
    hide NumberOf;
    hide EntryAt;
    var a, b, c := Entry("truncated", Bool(true)), Entry("original_bytes", Number(Decimal(original))), Entry("omitted_items", Number(Decimal(omitted)));
    var d, e := Entry("_truncated_text", Str(prefix)), Entry("original_chars", Number(Decimal(omitted)));
    assert |a.key| == 9 && |b.key| == 14 && |c.key| == 13 && |d.key| == 15 && |e.key| == 14;
    assert [a] + [b, c] == [a, b, c] && [b] + [c] == [b, c] && [c] + [] == [c] && [a] + [b] == [a, b] && [b] + [] == [b];
    assert [d] + [e] == [d, e] && [e] + [] == [e];
    EntryFound(a, [b, c]);
    EntryFound(a, [b]);
    EntryFound(b, [c]);
    EntryFound(b, []);
    EntryFound(c, []);
    EntryFound(d, [e]);
    EntryFound(e, []);
    EntryFound(Entry(NOTE, Dict([a, b])), []);
    assert [Entry(NOTE, Dict([a, b]))] + [] == [Entry(NOTE, Dict([a, b]))];
  }

  lemma EntryFound(e: Entry, rest: seq<Entry>)
    ensures EntryAt([e] + rest, e.key) == Some(e.value)
    ensures forall key :: key != e.key ==> EntryAt([e] + rest, key) == EntryAt(rest, key)
  {
  }

  method CompactPayload(v: Json, maxBytes: int) returns (r: Json)
    ensures r == CompactJson(v, maxBytes)
  {
    var original := JsonSize(v);
    if original <= maxBytes { return v; }
    r := CompactValue(v, maxBytes, original);
    if JsonSize(r) > maxBytes { r := Fallback(original); }
  }

  // ---------------------------------------------------------------- what compaction keeps

  /** The kept entries are the first ones in key order, each compacted to what was left; with the
      note they fit the budget unless none was kept; and one more would not have fitted. */
  ghost predicate GreedyEntries(items: seq<Entry>, kept: seq<Entry>, budget: int, original: nat) {
    && |kept| <= |items|
    && (forall j :: 0 <= j < |kept| ==>
          kept[j] == Entry(items[j].key, Compact(items[j].value, Remaining(budget, JsonSize(Dict(kept[..j]))), original)))
    && (kept != [] ==> JsonSize(NotedDict(kept, original, |items| - |kept|)) <= budget)
  }

  ghost predicate NoMoreEntries(items: seq<Entry>, kept: seq<Entry>, budget: int, original: nat) {
    |kept| < |items| ==>
      var next := items[|kept|];
      var more := kept + [Entry(next.key, Compact(next.value, Remaining(budget, JsonSize(Dict(kept))), original))];
      JsonSize(NotedDict(more, original, |items| - |more|)) > budget
  }

  ghost predicate GreedyItems(items: seq<Json>, kept: seq<Json>, budget: int, original: nat) {
    && |kept| <= |items|
    && (forall j :: 0 <= j < |kept| ==>
          kept[j] == Compact(items[j], Remaining(budget, JsonSize(List(kept[..j]))), original))
    && (kept != [] ==> JsonSize(NotedList(kept, original, |items| - |kept|)) <= budget)
  }

  ghost predicate NoMoreItems(items: seq<Json>, kept: seq<Json>, budget: int, original: nat) {
    |kept| < |items| ==>
      var more := kept + [Compact(items[|kept|], Remaining(budget, JsonSize(List(kept))), original)];
      JsonSize(NotedList(more, original, |items| - |more|)) > budget
  }

  lemma {:induction false} KeepEntriesIsGreedy(parent: Json, items: seq<Entry>, kept: seq<Entry>, budget: int, original: nat)
    requires parent.Dict? && (forall e :: e in items ==> e in parent.entries)
    requires GreedyEntries(items, kept, budget, original)
    ensures var r := KeepEntries(parent, items, kept, budget, original);
      GreedyEntries(items, r, budget, original) && NoMoreEntries(items, r, budget, original)
    decreases |items| - |kept|
  {
    hide Compact;
    hide JsonSize;
    hide NotedDict;
    hide GreedyEntries;
    if |kept| < |items| {
      var item := items[|kept|];
      var more := kept + [Entry(item.key, Compact(item.value, Remaining(budget, JsonSize(Dict(kept))), original))];
      if JsonSize(NotedDict(more, original, |items| - |more|)) <= budget {
        EntriesPush(items, kept, more[|kept|], budget, original);
        KeepEntriesIsGreedy(parent, items, more, budget, original);
      }
    }
  }

  lemma EntriesPush(items: seq<Entry>, kept: seq<Entry>, next: Entry, budget: int, original: nat)
    requires GreedyEntries(items, kept, budget, original) && |kept| < |items|
    requires next.key == items[|kept|].key
    requires next.value == Compact(items[|kept|].value, Remaining(budget, JsonSize(Dict(kept))), original)
    requires JsonSize(NotedDict(kept + [next], original, |items| - |kept| - 1)) <= budget
    ensures GreedyEntries(items, kept + [next], budget, original)
  {
    hide Compact;
    hide JsonSize;
    hide NotedDict;
    var more := kept + [next];
    assert more[..|kept|] == kept;
    forall j | 0 <= j < |kept| ensures more[..j] == kept[..j] {}
  }

  lemma ItemsPush(items: seq<Json>, kept: seq<Json>, next: Json, budget: int, original: nat)
    requires GreedyItems(items, kept, budget, original) && |kept| < |items|
    requires next == Compact(items[|kept|], Remaining(budget, JsonSize(List(kept))), original)
    requires JsonSize(NotedList(kept + [next], original, |items| - |kept| - 1)) <= budget
    ensures GreedyItems(items, kept + [next], budget, original)
  {
    hide Compact;
    hide JsonSize;
    hide NotedList;
    var more := kept + [next];
    assert more[..|kept|] == kept;
    forall j | 0 <= j < |kept| ensures more[..j] == kept[..j] {}
  }

  lemma {:induction false} KeepItemsIsGreedy(parent: Json, kept: seq<Json>, budget: int, original: nat)
    requires parent.List? && GreedyItems(parent.items, kept, budget, original)
    ensures var r := KeepItems(parent, kept, budget, original);
      GreedyItems(parent.items, r, budget, original) && NoMoreItems(parent.items, r, budget, original)
    decreases |parent.items| - |kept|
  {
    hide Compact;
    hide JsonSize;
    hide NotedList;
    hide GreedyItems;
    var items := parent.items;
    if |kept| < |items| {
      var more := kept + [Compact(items[|kept|], Remaining(budget, JsonSize(List(kept))), original)];
      if JsonSize(NotedList(more, original, |items| - |more|)) <= budget {
        ItemsPush(items, kept, more[|kept|], budget, original);
        KeepItemsIsGreedy(parent, more, budget, original);
      }
    }
  }

  ghost predicate NoReservedKey(v: Json) {
    match v
    case List(items) => forall i :: 0 <= i < |items| ==> NoReservedKey(items[i])
    case Dict(entries) => forall i :: 0 <= i < |entries| ==> entries[i].key != NOTE && NoReservedKey(entries[i].value)
    case _ => true
  }

  /** `r` is `v` with the ends of its texts, lists and dictionaries cut off, each cut on record:
      nothing is altered, reordered or invented on the way. */
  ghost predicate Abbreviates(r: Json, v: Json, original: nat)
    decreases v
  {
    match v
    case Str(text) => exists p :: p <= text && r == ShortText(p, |text|)
    case List(items) =>
      && r.List? && 1 <= |r.items| <= |items| + 1
      && r.items[|r.items| - 1] == Dict([Entry(NOTE, Note(original, |items| + 1 - |r.items|))])
      && (forall j :: 0 <= j < |r.items| - 1 ==> Abbreviates(r.items[j], items[j], original))
    case Dict(entries) =>
      var items := Sort(entries);
      SortedMembers(entries);
      && r.Dict? && 1 <= |r.entries| <= |items| + 1
      && r.entries[|r.entries| - 1] == Entry(NOTE, Note(original, |items| + 1 - |r.entries|))
      && (forall j :: 0 <= j < |r.entries| - 1 ==>
            assert items[j] in entries;
            r.entries[j].key == items[j].key && Abbreviates(r.entries[j].value, items[j].value, original))
    case _ => r == v
  }

  lemma {:induction false} CompactAbbreviates(v: Json, budget: int, original: nat)
    requires NoReservedKey(v)
    ensures Abbreviates(Compact(v, budget, original), v, original)
    decreases v, 1
  {
    match v
    case Str(text) =>
      Utf8.CutDecodesToLongestPrefix(text, Max(0, budget - 160));
      assert CutText(text, Max(0, budget - 160)) <= text;
    case List(items) => CompactListAbbreviates(v, budget, original);
    case Dict(entries) => CompactDictAbbreviates(v, budget, original);
    case _ =>
  }

  lemma {:induction false} CompactListAbbreviates(v: Json, budget: int, original: nat)
    requires v.List? && NoReservedKey(v)
    ensures Abbreviates(Compact(v, budget, original), v, original)
    decreases v, 0
  {
    hide JsonSize;
    hide Note;
    var kept := KeepItems(v, [], budget, original);
    KeepItemsIsGreedy(v, [], budget, original);
    assert Compact(v, budget, original) == NotedList(kept, original, |v.items| - |kept|);
    hide Compact;
    hide KeepItems;
    forall j | 0 <= j < |kept| ensures Abbreviates(kept[j], v.items[j], original) {
      CompactAbbreviates(v.items[j], Remaining(budget, JsonSize(List(kept[..j]))), original);
    }
  }

  lemma {:induction false} CompactDictAbbreviates(v: Json, budget: int, original: nat)
    requires v.Dict? && NoReservedKey(v)
    ensures Abbreviates(Compact(v, budget, original), v, original)
    decreases v, 0
  {
    hide Compact;
    hide JsonSize;
    hide NotedDict;
    hide Abbreviates;
    hide Sort;
    hide NoMoreEntries;
    var kept := CompactedDict(v.entries, budget, original);
    assert Dict(v.entries) == v;
    SortedMembers(v.entries);
    var items := Sort(v.entries);
    assert |items| == |multiset(items)| == |v.entries|;
    forall j | 0 <= j < |kept|
      ensures items[j] in v.entries && kept[j].key == items[j].key && kept[j].key != NOTE
      ensures Abbreviates(kept[j].value, items[j].value, original)
    {
      assert items[j] in v.entries;
      CompactAbbreviates(items[j].value, Remaining(budget, JsonSize(Dict(kept[..j]))), original);
    }
    AbbreviatedDict(v, kept, original);
  }

  lemma AbbreviatedDict(v: Json, kept: seq<Entry>, original: nat)
    requires v.Dict? && |Sort(v.entries)| == |v.entries| && |kept| <= |v.entries|
    requires forall j :: 0 <= j < |kept| ==> Sort(v.entries)[j] in v.entries && kept[j].key == Sort(v.entries)[j].key
    requires forall j :: 0 <= j < |kept| ==> kept[j].key != NOTE
    requires forall j :: 0 <= j < |kept| ==> Abbreviates(kept[j].value, Sort(v.entries)[j].value, original)
    ensures Abbreviates(NotedDict(kept, original, |v.entries| - |kept|), v, original)
  {
    hide Sort;
    hide Note;
    PutFresh(kept, NOTE, Note(original, |v.entries| - |kept|));
  }

  /** What `_compact` returns for a dictionary. */
  lemma CompactedDict(entries: seq<Entry>, budget: int, original: nat) returns (kept: seq<Entry>)
    ensures |kept| <= |entries| && Compact(Dict(entries), budget, original) == NotedDict(kept, original, |entries| - |kept|)
    ensures GreedyEntries(Sort(entries), kept, budget, original) && NoMoreEntries(Sort(entries), kept, budget, original)
    ensures Sorted(Sort(entries)) && multiset(Sort(entries)) == multiset(entries)
  {
    hide JsonSize;
    hide NotedDict;
    SortedMembers(entries);
    SortSorts(entries);
    hide Sort;
    kept := KeepEntries(Dict(entries), Sort(entries), [], budget, original);
    KeepEntriesIsGreedy(Dict(entries), Sort(entries), [], budget, original);
  }

  /** What `_compact` returns for a list. */
  lemma CompactedList(items: seq<Json>, budget: int, original: nat) returns (kept: seq<Json>)
    ensures |kept| <= |items| && Compact(List(items), budget, original) == NotedList(kept, original, |items| - |kept|)
    ensures GreedyItems(items, kept, budget, original) && NoMoreItems(items, kept, budget, original)
  {
    hide JsonSize;
    hide NotedList;
    kept := KeepItems(List(items), [], budget, original);
    KeepItemsIsGreedy(List(items), [], budget, original);
  }

  // ---------------------------------------------------------------- the bound

  predicate PlainChar(c: char) {
    0x20 <= c as int < 0x80 && c != '\"' && c != '\\'
  }

  predicate Plain(s: string) {
    forall i :: 0 <= i < |s| ==> PlainChar(s[i])
  }

  lemma {:induction false} PlainBytes(s: string)
    requires Plain(s)
    ensures TextBytes(s) == |s|
  {
    if s != "" { PlainBytes(s[1..]); }
  }

  lemma {:induction false} TextBytesRange(s: string)
    ensures |s| <= TextBytes(s) <= 6 * |s|
  {
    if s != "" { TextBytesRange(s[1..]); }
  }

  lemma {:induction false} TextSizeAtMost(s: string)
    ensures Utf8.Size(s) <= 4 * |s|
  {
    if s != "" { TextSizeAtMost(s[1..]); }
  }

  lemma EntryList(a: Entry, rest: seq<Entry>)
    ensures EntriesSize([a]) == StringBytes(a.key) + 1 + JsonSize(a.value)
    ensures EntriesSize(rest + [a]) == EntriesSize(rest) + StringBytes(a.key) + 1 + JsonSize(a.value)
  {
    assert [a][..0] == [];
    assert (rest + [a])[..|rest|] == rest;
  }

  lemma KeySizes()
    ensures StringBytes(NOTE) == 13 && StringBytes("truncated") == 11 && StringBytes("original_bytes") == 16
    ensures StringBytes("omitted_items") == 15 && StringBytes("_truncated_text") == 17
    ensures StringBytes("original_chars") == 16
  {
    hide TextBytes;
    PlainBytes(NOTE);
    PlainBytes("truncated");
    PlainBytes("original_bytes");
    PlainBytes("omitted_items");
    PlainBytes("_truncated_text");
    PlainBytes("original_chars");
  }

  lemma MarkerSizes(original: nat, omitted: nat)
    ensures JsonSize(Fallback(original)) == 52 + |Decimal(original)|
    ensures JsonSize(Note(original, omitted)) >= 36 + |Decimal(original)|
  {
    KeySizes();
    hide StringBytes;
    hide Decimal;
    var a, b := Entry("truncated", Bool(true)), Entry("original_bytes", Number(Decimal(original)));
    var c := Entry("omitted_items", Number(Decimal(omitted)));
    EntryList(a, []);
    EntryList(b, [a]);
    EntryList(c, [a, b]);
    assert [a, b] == [a] + [b] && [a, b, c] == [a, b] + [c];
    EntryList(Entry(NOTE, Dict([a, b])), []);
  }

  lemma {:induction false} EntriesConcat(a: seq<Entry>, b: seq<Entry>)
    ensures EntriesSize(a + b) == EntriesSize(a) + EntriesSize(b)
  {
    if b == [] {
      assert a + b == a;
    } else {
      EntriesConcat(a, b[..|b| - 1]);
      assert (a + b)[..|a + b| - 1] == a + b[..|b| - 1];
    }
  }

  lemma {:induction false} PutSize(entries: seq<Entry>, key: string, value: Json)
    ensures EntriesSize(Put(entries, key, value)) >= StringBytes(key) + 1 + JsonSize(value)
  {
    hide StringBytes;
    hide JsonSize;
    if entries == [] {
      EntryList(Entry(key, value), []);
    } else if entries[0].key == key {
      EntriesConcat([Entry(key, value)], entries[1..]);
      EntryList(Entry(key, value), []);
    } else {
      PutSize(entries[1..], key, value);
      EntriesConcat([entries[0]], Put(entries[1..], key, value));
    }
  }

  lemma {:induction false} DecimalLength(n: nat)
    ensures 1 <= |Decimal(n)| <= n + 1
    ensures |Decimal(10 * n)| == if n == 0 then 1 else |Decimal(n)| + 1
  {
    if n >= 10 { DecimalLength(n / 10); }
  }

  lemma {:induction false} DecimalMonotone(m: nat, n: nat)
    requires m <= n
    ensures |Decimal(m)| <= |Decimal(n)|
  {
    if m >= 10 { DecimalMonotone(m / 10, n / 10); }
  }

  /** A marked dictionary or list is larger than the bare marker. */
  lemma MarkedIsLarger(entries: seq<Entry>, items: seq<Json>, original: nat, omitted: nat)
    ensures JsonSize(NotedDict(entries, original, omitted)) >= 52 + |Decimal(original)|
    ensures JsonSize(NotedList(items, original, omitted)) >= 52 + |Decimal(original)|
  {
    MarkerSizes(original, omitted);
    KeySizes();
    hide Note;
    hide StringBytes;
    hide Decimal;
    var note := Note(original, omitted);
    PutSize(entries, NOTE, note);
    EntryList(Entry(NOTE, note), []);
    assert JsonSize(Dict([Entry(NOTE, note)])) == 16 + JsonSize(note);
    var all := items + [Dict([Entry(NOTE, note)])];
    assert all[..|items|] == items;
    assert ItemsSize(all) == ItemsSize(items) + JsonSize(Dict([Entry(NOTE, note)]));
  }

  /** When the bare marker does not fit, neither does the cut text: the number of characters is
      nearly as long as the number of bytes. */
  lemma CutTextIsLarge(text: string, maxBytes: int)
    requires maxBytes >= 1024 && 52 + |Decimal(JsonSize(Str(text)))| > maxBytes
    ensures JsonSize(ShortText(CutText(text, Max(0, maxBytes - 160)), |text|)) > maxBytes
  {
    var original, n, limit := JsonSize(Str(text)), |text|, maxBytes - 160;
    TextBytesRange(text);
    hide TextBytes;
    DecimalLength(original);
    DecimalLength(n);
    DecimalMonotone(original, 10 * n);
    assert |Decimal(n)| >= maxBytes - 52;
    hide Decimal;
    Utf8.CutDecodesToLongestPrefix(text, limit);
    var prefix := CutText(text, limit);
    TextSizeAtMost(text[..14]);
    Utf8.LongestIsLongest(text, limit, 14);
    TextBytesRange(prefix);
    KeySizes();
    assert StringBytes(prefix) >= 16;
    hide StringBytes;
    hide CutText;
    var a, b := Entry("_truncated_text", Str(prefix)), Entry("original_chars", Number(Decimal(n)));
    EntryList(a, []);
    EntryList(b, [a]);
    assert [a, b] == [a] + [b];
  }

  /** The result respects the limit exactly when the payload did, or the bare marker does: the limit
      can only be missed when the payload's size has more than `maxBytes - 52` digits. */
  lemma BoundIffMarkerFits(v: Json, maxBytes: int)
    requires maxBytes >= 1024
    ensures JsonSize(CompactJson(v, maxBytes)) <= maxBytes
       <==> JsonSize(v) <= maxBytes || 52 + |Decimal(JsonSize(v))| <= maxBytes
  {
    hide JsonSize;
    hide Compact;
    hide Decimal;
    hide Fallback;
    var original := JsonSize(v);
    MarkerSizes(original, 0);
    if original > maxBytes && 52 + |Decimal(original)| > maxBytes {
      CompactTooLarge(v, maxBytes);
    }
  }

  lemma {:induction false} DigitsBelow(n: nat, k: nat)
    requires 1 <= k && n < PowerOfTen(k)
    ensures |Decimal(n)| <= k
  {
    if n >= 10 { DigitsBelow(n / 10, k - 1); }
  }

  /** So it is met by every payload that can be held: one that misses it has `10^(maxBytes - 52)`
      bytes at the least. */
  lemma FeasiblePayloadsMeetTheBound(v: Json, maxBytes: int)
    requires maxBytes >= 1024 && JsonSize(v) < PowerOfTen(maxBytes - 52)
    ensures JsonSize(CompactJson(v, maxBytes)) <= maxBytes
  {
    DigitsBelow(JsonSize(v), maxBytes - 52);
    BoundIffMarkerFits(v, maxBytes);
  }

  lemma CompactTooLarge(v: Json, maxBytes: int)
    requires maxBytes >= 1024 && JsonSize(v) > maxBytes && 52 + |Decimal(JsonSize(v))| > maxBytes
    ensures JsonSize(Compact(v, maxBytes, JsonSize(v))) > maxBytes
  {
    if v.Dict? || v.List? {
      ContainerIsLarger(v, maxBytes, JsonSize(v));
    } else {
      hide JsonSize;
      hide Decimal;
      hide ShortText;
      hide CutText;
      if v.Str? { CutTextIsLarge(v.text, maxBytes); }
    }
  }

  lemma ContainerIsLarger(v: Json, budget: int, original: nat)
    requires v.Dict? || v.List?
    ensures JsonSize(Compact(v, budget, original)) >= 52 + |Decimal(original)|
  {
    hide *;
    if v.Dict? {
      var kept := CompactedDict(v.entries, budget, original);
      assert Dict(v.entries) == v;
      MarkedIsLarger(kept, [], original, |v.entries| - |kept|);
    } else {
      var kept := CompactedList(v.items, budget, original);
      assert List(v.items) == v;
      MarkedIsLarger([], kept, original, |v.items| - |kept|);
    }
  }

  /** Values that fit come back unchanged, so compaction is idempotent wherever the bound holds. */
  lemma CompactionIsIdempotent(v: Json, maxBytes: int)
    requires maxBytes >= 1024
    requires JsonSize(v) <= maxBytes || 52 + |Decimal(JsonSize(v))| <= maxBytes
    ensures JsonSize(v) <= maxBytes ==> CompactJson(v, maxBytes) == v
    ensures CompactJson(CompactJson(v, maxBytes), maxBytes) == CompactJson(v, maxBytes)
  {
    BoundIffMarkerFits(v, maxBytes);
    hide JsonSize;
    hide Compact;
  }

  function PowerOfTen(k: nat): nat { if k == 0 then 1 else 10 * PowerOfTen(k - 1) }

  lemma {:induction false} PowerOfTenDigits(k: nat)
    ensures PowerOfTen(k) > 0 && |Decimal(PowerOfTen(k))| == k + 1
  {
    if k > 0 {
      PowerOfTenDigits(k - 1);
      DecimalLength(PowerOfTen(k - 1));
    }
  }

  /** The bound fails at every limit for some payload: its own size is too long a number. */
  lemma BoundCanFail(maxBytes: nat) returns (v: Json)
    requires maxBytes >= 1024
    ensures JsonSize(v) == PowerOfTen(maxBytes + 1)
    ensures JsonSize(CompactJson(v, maxBytes)) > maxBytes
  {
    hide CompactJson;
    hide Decimal;
    hide PowerOfTen;
    hide JsonSize;
    v := NumberOfSize(PowerOfTen(maxBytes + 1));
    PowerOfTenDigits(maxBytes + 1);
    DecimalLength(JsonSize(v));
    BoundIffMarkerFits(v, maxBytes);
  }

  lemma NumberOfSize(size: nat) returns (v: Json)
    ensures JsonSize(v) == size
  {
    v := Number(seq(size, i => '1'));
  }
}
