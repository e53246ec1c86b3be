/** For which lists of entries the printed exception list reads back: an exact answer. */
module ExceptionListExact {
  import opened Options
  import opened Text
  import opened ExceptionList

  // ------------------------------------------------------------------ what the parser can return

  /** Keys and values as the parser returns them: keys plain, values on one line. */
  ghost predicate CleanEntry(m: Entry) {
    forall k :: k in m ==> PlainKey(k) && OneLine(m[k])
  }

  ghost predicate CleanProgress(p: Progress) {
    && (forall m :: m in p.done ==> CleanEntry(m))
    && (p.current.Some? ==> CleanEntry(p.current.value))
  }

  lemma SplitIsClean(line: string)
    requires OneLine(line) && SplitKv(line).Ok?
    ensures var (k, v) := SplitKv(line).value; PlainKey(k) && OneLine(v)
  {
    var i := Colon(line);
    var k, rest := Strip(line[..i]), Strip(line[i + 1..]);
    StripWithin(line[..i]);
    StripWithin(line[i + 1..]);
    OneLineWithin(k, line);
    OneLineWithin(rest, line);
    OneLineWithin(Unquote(rest), rest);
  }

  lemma StartIsClean(p: Progress, item: string)
    requires CleanProgress(p) && OneLine(item)
    ensures StartEntry(p, item).Ok? ==> CleanProgress(StartEntry(p, item).value)
  {
    if item != "" && SplitKv(item).Ok? {
      SplitIsClean(item);
    }
  }

  lemma FieldIsClean(p: Progress, line: string)
    requires CleanProgress(p) && OneLine(line)
    ensures AddField(p, line).Ok? ==> CleanProgress(AddField(p, line).value)
  {
    if p.current.Some? && SplitKv(line).Ok? {
      SplitIsClean(line);
    }
  }

  lemma LineIsClean(p: Progress, raw: string)
    requires CleanProgress(p) && OneLine(raw)
    ensures ParseLine(p, raw).Ok? ==> CleanProgress(ParseLine(p, raw).value)
  {
    var line := Strip(raw);
    StripWithin(raw);
    OneLineWithin(line, raw);
    if "- " <= line {
      StripWithin(line[2..]);
      OneLineWithin(Strip(line[2..]), line);
      StartIsClean(p, Strip(line[2..]));
    }
    FieldIsClean(p, line);
  }

  ghost predicate StaysClean(step: Step) {
    forall p: Progress, raw: string :: CleanProgress(p) && OneLine(raw) && step(p, raw).Ok? ==>
                                         CleanProgress(step(p, raw).value)
  }

  lemma {:induction false} FoldIsClean(step: Step, p: Progress, lines: seq<string>)
    requires StaysClean(step) && CleanProgress(p) && forall l :: l in lines ==> OneLine(l)
    ensures Fold(step, p, lines).Ok? ==> CleanProgress(Fold(step, p, lines).value)
    decreases |lines|
  {
    if lines != [] && step(p, lines[0]).Ok? {
      FoldIsClean(step, step(p, lines[0]).value, lines[1..]);
    }
  }

  /** Every entry the parser returns is clean, whatever the text. */
  lemma ParsedIsClean(text: string)
    requires Parse(text).Ok?
    ensures forall m :: m in Parse(text).value ==> CleanEntry(m)
  {
    forall p: Progress, raw: string | CleanProgress(p) && OneLine(raw) && ParseLine(p, raw).Ok?
      ensures CleanProgress(ParseLine(p, raw).value)
    {
      LineIsClean(p, raw);
    }
    LinesAreOneLine(text);
    FoldIsClean(ParseLine, Progress([], None), Lines(text));
  }

  // ------------------------------------------------------------------ printed entries with any plain keys

  predicate DistinctKeys(e: seq<Item>) {
    forall i, j :: 0 <= i < j < |e| ==> e[i].key != e[j].key
  }

  predicate PlainFields(e: seq<Item>) {
    forall i :: 0 <= i < |e| ==> PlainKey(e[i].key) && OneLine(e[i].value)
  }

  /** A key that reads as the start of another entry. */
  predicate Dashed(k: string) {
    "- " <= k
  }

  /** A key that reads as a comment or a header. */
  predicate Ignored(k: string) {
    "#" <= k || k == "version" || k == "exceptions"
  }

  function Dashes(e: seq<Item>): nat {
    if e == [] then 0 else (if Dashed(e[0].key) then 1 else 0) + Dashes(e[1..])
  }

  /** The fields that are read as such. */
  function Kept(e: seq<Item>): (r: seq<Item>)
    ensures forall kv :: kv in r ==> kv in e && InnerKey(kv.key)
  {
    if e == [] then [] else (if InnerKey(e[0].key) then [e[0]] else []) + Kept(e[1..])
  }

  /** What a step does with a line of its own, for every plain key. */
  ghost predicate ReadsPlain(step: Step) {
    ReadsEntries(step) && ReadsIgnored(step) && ReadsDashed(step)
  }

  ghost predicate ReadsIgnored(step: Step) {
    forall p: Progress, kv: Item {:trigger step(p, "  " + Pair(kv))} :: PlainKey(kv.key) && Ignored(kv.key) ==>
      step(p, "  " + Pair(kv)) == Ok(p)
  }

  ghost predicate ReadsDashed(step: Step) {
    forall p: Progress, kv: Item {:trigger step(p, "  " + Pair(kv))} :: PlainKey(kv.key) && Dashed(kv.key) ==>
      OpensAnother(step(p, "  " + Pair(kv)), p, ReadValue(kv))
  }

  /** The open entry is closed and another one opened, under some key. */
  ghost predicate OpensAnother(r: Result<Progress>, p: Progress, v: string) {
    exists k: string :: r == Opened(p, k, v)
  }

  function Opened(p: Progress, k: string, v: string): Result<Progress> {
    Ok(Progress(Flushed(p), Some(map[k := v])))
  }

  lemma ParserReadsPlain()
    ensures ReadsPlain(ParseLine)
  {
    ParserReadsEntries();
    ParserReadsIgnored();
    ParserReadsDashed();
  }

  lemma ParserReadsIgnored()
    ensures ReadsIgnored(ParseLine)
  {
    forall p: Progress, kv: Item | PlainKey(kv.key) && Ignored(kv.key)
      ensures ParseLine(p, "  " + Pair(kv)) == Ok(p)
    {
      IgnoredIsDropped(p, kv);
    }
  }

  lemma ParserReadsDashed()
    ensures ReadsDashed(ParseLine)
  {
    forall p: Progress, kv: Item | PlainKey(kv.key) && Dashed(kv.key)
      ensures OpensAnother(ParseLine(p, "  " + Pair(kv)), p, ReadValue(kv))
    {
      var k := DashedKeyStartsEntry(p, kv);
      assert ParseLine(p, "  " + Pair(kv)) == Opened(p, k, ReadValue(kv));
    }
  }

  lemma IgnoredIsDropped(p: Progress, kv: Item)
    requires PlainKey(kv.key) && Ignored(kv.key)
    ensures ParseLine(p, "  " + Pair(kv)) == Ok(p)
  {
    if "#" <= kv.key {
      HashedKeyIsDropped(p, kv);
    } else {
      ReservedInnerKeyIsDropped(p, kv);
    }
  }

  /** An open entry that has a field. */
  predicate IsOpen(p: Progress) {
    p.current.Some? && p.current.value != map[]
  }

  /** Inner lines open one more entry per dashed key; without one they add the fields kept. */
  lemma {:induction false} FoldPlain(step: Step, p: Progress, e: seq<Item>)
    requires ReadsPlain(step) && PlainFields(e) && IsOpen(p)
    ensures var r := Fold(step, p, InnerLines(e));
            && r.Ok? && IsOpen(r.value)
            && |r.value.done| == |p.done| + Dashes(e)
            && (Dashes(e) == 0 ==> r.value == p.(current := Some(Updated(p.current.value, Kept(e)))))
    decreases |e|
  {
    if e != [] {
      assert InnerLines(e)[1..] == InnerLines(e[1..]);
      var next := OnePlain(step, p, e[0]);
      FoldPlain(step, next, e[1..]);
      KeptHead(p.current.value, e);
    }
  }

  lemma KeptHead(m: Entry, e: seq<Item>)
    requires e != []
    ensures Updated(m, Kept(e)) == Updated(Updated(m, if InnerKey(e[0].key) then [e[0]] else []), Kept(e[1..]))
  {
    if InnerKey(e[0].key) {
      assert ([e[0]] + Kept(e[1..]))[1..] == Kept(e[1..]);
      assert [e[0]][1..] == [];
    } else {
      assert [] + Kept(e[1..]) == Kept(e[1..]);
    }
  }

  lemma OnePlain(step: Step, p: Progress, kv: Item) returns (next: Progress)
    requires ReadsPlain(step) && PlainKey(kv.key) && IsOpen(p)
    ensures step(p, "  " + Pair(kv)) == Ok(next) && IsOpen(next)
    ensures |next.done| == |p.done| + if Dashed(kv.key) then 1 else 0
    ensures !Dashed(kv.key) ==>
              next == p.(current := Some(Updated(p.current.value, if InnerKey(kv.key) then [kv] else [])))
  {
    if Ignored(kv.key) {
      assert !Dashed(kv.key) && !InnerKey(kv.key);
      next := p;
    } else if Dashed(kv.key) {
      var k: string :| step(p, "  " + Pair(kv)) == Opened(p, k, ReadValue(kv));
      assert k in map[k := ReadValue(kv)];
      next := Opened(p, k, ReadValue(kv)).value;
    } else {
      assert kv.key in p.current.value[kv.key := ReadValue(kv)];
      next := p.(current := Some(p.current.value[kv.key := ReadValue(kv)]));
      assert [kv][1..] == [];
    }
  }

  /** The entry that is read where no key is dashed. */
  function KeptEntry(e: Fields): Entry {
    Updated(map[e[0].key := ReadValue(e[0])], Kept(e[1..]))
  }

  lemma FoldPlainEntry(step: Step, p: Progress, e: Fields) returns (q: Progress)
    requires ReadsPlain(step) && PlainFields(e)
    ensures Fold(step, p, EntryLines(e)) == Ok(q) && IsOpen(q)
    ensures |q.done| == |Flushed(p)| + Dashes(e[1..])
    ensures Dashes(e[1..]) == 0 ==> q == Progress(Flushed(p), Some(KeptEntry(e)))
  {
    var begun := Progress(Flushed(p), Some(map[e[0].key := ReadValue(e[0])]));
    assert step(p, "- " + Pair(e[0])) == Ok(begun);
    assert e[0].key in begun.current.value;
    FoldPlain(step, begun, e[1..]);
    assert EntryLines(e)[1..] == InnerLines(e[1..]);
    q := Fold(step, begun, InnerLines(e[1..])).value;
  }

  function AllDashes(es: seq<Fields>): nat {
    if es == [] then 0 else Dashes(es[0][1..]) + AllDashes(es[1..])
  }

  function KeptEntries(es: seq<Fields>): (r: seq<Entry>)
    ensures |r| == |es|
    ensures forall i :: 0 <= i < |r| ==> r[i] == KeptEntry(es[i])
  {
    if es == [] then [] else [KeptEntry(es[0])] + KeptEntries(es[1..])
  }

  /** The entries after reading a printed list on top of those before it. */
  ghost predicate ReadOnTop(before: seq<Entry>, es: seq<Fields>, after: seq<Entry>) {
    && |after| == |before| + |es| + AllDashes(es)
    && (AllDashes(es) == 0 ==> after == before + KeptEntries(es))
  }

  lemma ReadOnTopHead(before: seq<Entry>, es: seq<Fields>, mid: seq<Entry>, after: seq<Entry>)
    requires es != [] && |mid| == |before| + 1 + Dashes(es[0][1..])
    requires Dashes(es[0][1..]) == 0 ==> mid == before + [KeptEntry(es[0])]
    requires ReadOnTop(mid, es[1..], after)
    ensures ReadOnTop(before, es, after)
  {
    Regroup(before, [KeptEntry(es[0])], KeptEntries(es[1..]));
  }

  lemma Regroup<T>(a: seq<T>, b: seq<T>, c: seq<T>)
    ensures (a + b) + c == a + (b + c)
  {
  }

  lemma {:induction false} FoldPlainAll(step: Step, p: Progress, es: seq<Fields>)
    requires ReadsPlain(step) && forall e :: e in es ==> PlainFields(e)
    ensures var r := Fold(step, p, AllLines(es));
            r.Ok? && ReadOnTop(Flushed(p), es, Flushed(r.value))
    decreases |es|
  {
    if es == [] {
      assert Flushed(p) + [] == Flushed(p);
    } else {
      assert es[0] in es;
      var q := FoldPlainFirst(step, p, es);
      FoldPlainAll(step, q, es[1..]);
      ReadOnTopHead(Flushed(p), es, Flushed(q), Flushed(Fold(step, q, AllLines(es[1..])).value));
    }
  }

  /** The state between the first entry and the others. */
  lemma FoldPlainFirst(step: Step, p: Progress, es: seq<Fields>) returns (q: Progress)
    requires ReadsPlain(step) && es != [] && PlainFields(es[0])
    ensures Fold(step, p, AllLines(es)) == Fold(step, q, AllLines(es[1..]))
    ensures |Flushed(q)| == |Flushed(p)| + 1 + Dashes(es[0][1..])
    ensures Dashes(es[0][1..]) == 0 ==> Flushed(q) == Flushed(p) + [KeptEntry(es[0])]
  {
    q := FoldPlainEntry(step, p, es[0]);
    FoldSplit(step, p, EntryLines(es[0]), AllLines(es[1..]));
  }

  lemma PlainIsOneLine(e: Fields)
    requires PlainFields(e)
    ensures OnOneLine(e)
  {
  }

  /** What parsing a printed list of plain fields gives. */
  lemma ParsePrinted(es: seq<Fields>)
    requires forall e :: e in es ==> PlainFields(e)
    ensures Parse(Print(es)).Ok?
    ensures |Parse(Print(es)).value| == |es| + AllDashes(es)
    ensures AllDashes(es) == 0 ==> Parse(Print(es)).value == KeptEntries(es)
  {
    var header, body := ["version: 1", "exceptions:"], AllLines(es);
    var start := Progress([], None);
    forall e | e in es
      ensures OnOneLine(e)
    {
      PlainIsOneLine(e);
    }
    LinesAreLines(es);
    LinesOfJoined(header + body);
    HeaderIsSkipped(start);
    FoldSplit(ParseLine, start, header, body);
    ParserReadsPlain();
    FoldPlainAll(ParseLine, start, es);
    assert Flushed(start) + KeptEntries(es) == KeptEntries(es);
  }

  // ------------------------------------------------------------------ the exact condition

  predicate HasKey(e: seq<Item>, k: string) {
    exists i :: 0 <= i < |e| && e[i].key == k
  }

  lemma HasKeyTail(e: seq<Item>, k: string)
    requires e != []
    ensures HasKey(e, k) <==> e[0].key == k || HasKey(e[1..], k)
  {
    if HasKey(e, k) && e[0].key != k {
      var i :| 0 <= i < |e| && e[i].key == k;
      assert e[1..][i - 1].key == k;
    }
    if HasKey(e[1..], k) {
      var i :| 0 <= i < |e| - 1 && e[1..][i].key == k;
      assert e[i + 1].key == k;
    }
  }

  /** Exactly the keys given are there afterwards; those not given keep their values. */
  lemma {:induction false} UpdatedKey(m: Entry, e: seq<Item>, k: string)
    ensures k in Updated(m, e) <==> k in m || HasKey(e, k)
    ensures k in Stated(m, e) <==> k in m || HasKey(e, k)
    ensures k in m && !HasKey(e, k) ==> Updated(m, e)[k] == m[k] && Stated(m, e)[k] == m[k]
    decreases |e|
  {
    if e != [] {
      HasKeyTail(e, k);
      UpdatedKey(m[e[0].key := ReadValue(e[0])], e[1..], k);
      UpdatedKey(m[e[0].key := e[0].value], e[1..], k);
    }
  }

  /** Distinct keys hold their own values. */
  lemma {:induction false} UpdatedValue(m: Entry, e: seq<Item>, i: nat)
    requires DistinctKeys(e) && i < |e|
    ensures e[i].key in Updated(m, e) && Updated(m, e)[e[i].key] == ReadValue(e[i])
    ensures e[i].key in Stated(m, e) && Stated(m, e)[e[i].key] == e[i].value
    decreases |e|
  {
    var read, meant := m[e[0].key := ReadValue(e[0])], m[e[0].key := e[0].value];
    if i == 0 {
      assert !HasKey(e[1..], e[0].key);
      UpdatedKey(read, e[1..], e[0].key);
      UpdatedKey(meant, e[1..], e[0].key);
    } else {
      assert e[1..][i - 1] == e[i];
      UpdatedValue(read, e[1..], i - 1);
      UpdatedValue(meant, e[1..], i - 1);
    }
  }

  lemma KeyIsRead(es: seq<Fields>, i: nat, j: nat)
    requires i < |es| && j < |es[i]| && DistinctKeys(es[i])
    ensures es[i][j].key in Read(es)[i] && Read(es)[i][es[i][j].key] == es[i][j].value
  {
    UpdatedValue(map[], es[i], j);
  }

  /** If parsing gives the list back, all its fields are plain. */
  lemma ReadBackIsPlain(es: seq<Fields>)
    requires Parse(Print(es)) == Ok(Read(es)) && forall e :: e in es ==> DistinctKeys(e)
    ensures forall e :: e in es ==> PlainFields(e)
  {
    ParsedIsClean(Print(es));
    forall e: Fields, j | e in es && 0 <= j < |e|
      ensures PlainKey(e[j].key) && OneLine(e[j].value)
    {
      var i :| 0 <= i < |es| && es[i] == e;
      KeyIsRead(es, i, j);
      assert CleanEntry(Read(es)[i]);
    }
  }

  lemma {:induction false} KeptHas(e: seq<Item>)
    ensures forall kv :: kv in Kept(e) <==> kv in e && InnerKey(kv.key)
    ensures DistinctKeys(e) ==> DistinctKeys(Kept(e))
  {
    if e != [] {
      KeptHas(e[1..]);
      var rest := Kept(e[1..]);
      if DistinctKeys(e) {
        forall j | 0 <= j < |rest|
          ensures rest[j].key != e[0].key
        {
          assert rest[j] in rest;
          var k :| 0 <= k < |e| - 1 && e[1..][k] == rest[j];
          assert e[k + 1] == rest[j];
        }
      }
    }
  }

  /** A key that is kept is the first or an inner key, and holds the value read. */
  lemma KeptHolds(e: Fields, j: nat)
    requires DistinctKeys(e) && j < |e| && e[j].key in KeptEntry(e)
    ensures KeptEntry(e)[e[j].key] == ReadValue(e[j]) && (j > 0 ==> InnerKey(e[j].key))
  {
    var first, kept := map[e[0].key := ReadValue(e[0])], Kept(e[1..]);
    KeptHas(e[1..]);
    UpdatedKey(first, kept, e[j].key);
    if HasKey(kept, e[j].key) {
      var i :| 0 <= i < |kept| && kept[i].key == e[j].key;
      assert kept[i] in kept;
      var k :| 0 <= k < |e| - 1 && e[1..][k] == kept[i];
      assert e[k + 1] == kept[i];
      UpdatedValue(first, kept, i);
    }
  }

  /**
   For every list of entries, each with distinct keys, and every choice of styles: printing and
   parsing gives the list back iff every value is on one line and, if bare, without outer whitespace
   or quotes around it, every first key is plain, and every other key is plain and does not read as
   a comment, a header or a new entry.
   */
  lemma ParseUndoesPrintIff(es: seq<Fields>)
    requires forall e :: e in es ==> DistinctKeys(e)
    ensures Parse(Print(es)) == Ok(Read(es)) <==> forall e :: e in es ==> Printable(e)
  {
    if forall e :: e in es ==> Printable(e) {
      ParseUndoesPrint(es);
    }
    if Parse(Print(es)) == Ok(Read(es)) {
      ReadBackIsPlain(es);
      ParsePrinted(es);
      forall e | e in es
        ensures Printable(e)
      {
        var i :| 0 <= i < |es| && es[i] == e;
        EntryIsPrintable(es, i);
      }
    }
  }

  lemma EntryIsPrintable(es: seq<Fields>, i: nat)
    requires i < |es| && DistinctKeys(es[i]) && PlainFields(es[i]) && KeptEntries(es) == Read(es)
    ensures Printable(es[i])
  {
    var e := es[i];
    assert KeptEntries(es)[i] == KeptEntry(e);
    forall j | 0 <= j < |e|
      ensures Intact(e[j]) && (j > 0 ==> InnerKey(e[j].key))
    {
      FieldIsPrintable(es, i, j);
    }
  }

  lemma FieldIsPrintable(es: seq<Fields>, i: nat, j: nat)
    requires i < |es| && j < |es[i]| && DistinctKeys(es[i]) && KeptEntry(es[i]) == Read(es)[i]
    ensures Intact(es[i][j]) && (j > 0 ==> InnerKey(es[i][j].key))
  {
    KeyIsRead(es, i, j);
    KeptHolds(es[i], j);
    IntactIff(es[i][j]);
  }
}
