/**
 The exception list of the audit gate: the small line parser of the script, a printer for the
 entries it is meant to read, and the proof that parsing undoes printing.
 */
module ExceptionList {
  import opened Options
  import opened Text

  type Entry = map<string, string>

  /** Unpacking a line that has no colon raises an error in the script. */
  datatype Result<+T> = Ok(value: T) | NoColon(line: string)

  /** Drops one pair of surrounding quotes; a lone quote counts as both ends. */
  function Unquote(v: string): string {
    if v != "" && v[0] == v[|v| - 1] && (v[0] == '"' || v[0] == '\'')
    then if |v| == 1 then "" else v[1..|v| - 1]
    else v
  }

  function SplitKv(line: string): Result<(string, string)> {
    var i := Colon(line);
    if i == |line| then NoColon(line)
    else Ok((Strip(line[..i]), Unquote(Strip(line[i + 1..]))))
  }

  datatype Progress = Progress(done: seq<Entry>, current: Option<Entry>)

  /** Entries so far, with the open one appended unless it is empty. */
  function Flushed(p: Progress): seq<Entry> {
    if p.current.Some? && p.current.value != map[] then p.done + [p.current.value] else p.done
  }

  predicate IsSkipped(line: string) {
    line == "" || "#" <= line || "version:" <= line || "exceptions:" <= line
  }

  /** A "- ..." line: closes the open entry and starts a new one, possibly with a first field. */
  function StartEntry(p: Progress, item: string): Result<Progress> {
    if item == "" then Ok(Progress(Flushed(p), Some(map[])))
    else
      match SplitKv(item)
      case NoColon(l) => NoColon(l)
      case Ok((key, value)) => Ok(Progress(Flushed(p), Some(map[key := value])))
  }

  /** Any other line: a field of the open entry, if there is one and the line has a colon. */
  function AddField(p: Progress, line: string): Result<Progress> {
    if p.current.Some? && ':' in line then
      match SplitKv(line)
      case NoColon(l) => NoColon(l)
      case Ok((key, value)) => Ok(p.(current := Some(p.current.value[key := value])))
    else Ok(p)
  }

  function ParseLine(p: Progress, raw: string): Result<Progress> {
    var line := Strip(raw);
    if IsSkipped(line) then Ok(p)
    else if "- " <= line then StartEntry(p, Strip(line[2..]))
    else AddField(p, line)
  }

  type Step = (Progress, string) -> Result<Progress>

  /** Taking the lines one by one, stopping at an error. */
  function Fold(step: Step, p: Progress, lines: seq<string>): Result<Progress>
    decreases |lines|
  {
    if lines == [] then Ok(p)
    else
      match step(p, lines[0])
      case NoColon(l) => NoColon(l)
      case Ok(next) => Fold(step, next, lines[1..])
  }

  function ParseLines(p: Progress, lines: seq<string>): Result<Progress> {
    Fold(ParseLine, p, lines)
  }

  function Parse(text: string): Result<seq<Entry>> {
    match ParseLines(Progress([], None), Lines(text))
    case NoColon(l) => NoColon(l)
    case Ok(p) => Ok(Flushed(p))
  }

  /** The parser as the script runs it. */
  method ParseExceptions(text: string) returns (r: Result<seq<Entry>>)
    ensures r == Parse(text)
  {
    var exceptions: seq<Entry> := [];
    var current: Option<Entry> := None;
    var lines := Lines(text);
    for i := 0 to |lines|
      invariant ParseLines(Progress([], None), lines) ==
                ParseLines(Progress(exceptions, current), lines[i..])
    {
      var line := Strip(lines[i]);
      if line == "" || "#" <= line {
        continue;
      }
      if "version:" <= line || "exceptions:" <= line {
        continue;
      }
      if "- " <= line {
        if current.Some? && current.value != map[] {
          exceptions := exceptions + [current.value];
        }
        current := Some(map[]);
        line := Strip(line[2..]);
        if line != "" {
          var kv := SplitKv(line);
          if kv.NoColon? {
            return NoColon(kv.line);
          }
          current := Some(map[kv.value.0 := kv.value.1]);
        }
        continue;
      }
      if current.Some? && ':' in line {
        var kv := SplitKv(line);
        if kv.NoColon? {
          return NoColon(kv.line);
        }
        current := Some(current.value[kv.value.0 := kv.value.1]);
      }
    }
    if current.Some? && current.value != map[] {
      exceptions := exceptions + [current.value];
    }
    return Ok(exceptions);
  }

  // ------------------------------------------------------------------ printing

  /** How a value is written: as it is, or between quotes of either kind. */
  datatype Style = Bare | Double | Single

  datatype Item = Item(key: string, value: string, style: Style)

  /** An entry as written: its fields in order, at least one. */
  type Fields = e: seq<Item> | e != [] witness [Item("", "", Bare)]

  /** A key that a "- key:" line gives back: one line, no colon, no outer whitespace. */
  predicate PlainKey(k: string) {
    ':' !in k && OneLine(k) && Strip(k) == k
  }

  /** On a line of its own a key must also not read as a comment, a header or a new entry. */
  predicate InnerKey(k: string) {
    PlainKey(k) && !("#" <= k) && k != "version" && k != "exceptions" && !("- " <= k)
  }

  /** A value that starts and ends with the same quote character, which may be one character. */
  predicate Enclosed(v: string) {
    v != "" && ((v[0] == '"' && v[|v| - 1] == '"') || (v[0] == '\'' && v[|v| - 1] == '\''))
  }

  /** A value that is read as it was meant: any quoted one, or a bare one without outer whitespace or quotes. */
  predicate Intact(i: Item) {
    i.style == Bare ==> Strip(i.value) == i.value && !Enclosed(i.value)
  }

  predicate Printable(e: Fields) {
    && PlainKey(e[0].key)
    && (forall i :: 1 <= i < |e| ==> InnerKey(e[i].key))
    && (forall i :: 0 <= i < |e| ==> OneLine(e[i].value) && Intact(e[i]))
  }

  function Written(i: Item): string {
    match i.style
    case Bare => i.value
    case Double => "\"" + i.value + "\""
    case Single => "'" + i.value + "'"
  }

  /** `key: value`, in one of the styles. */
  function Pair(i: Item): string {
    i.key + ":" + (" " + Written(i))
  }

  function InnerLines(e: seq<Item>): seq<string> {
    if e == [] then [] else ["  " + Pair(e[0])] + InnerLines(e[1..])
  }

  function EntryLines(e: Fields): seq<string> {
    ["- " + Pair(e[0])] + InnerLines(e[1..])
  }

  function AllLines(es: seq<Fields>): seq<string> {
    if es == [] then [] else EntryLines(es[0]) + AllLines(es[1..])
  }

  /** The file: its two header lines and the entries. */
  function Print(es: seq<Fields>): string {
    Joined(["version: 1", "exceptions:"] + AllLines(es))
  }

  /** What the value of a field is read as. */
  function ReadValue(i: Item): string {
    if i.style != Bare then i.value
    else
      var t := Strip(i.value);
      if !Enclosed(t) then t else if |t| == 1 then "" else t[1..|t| - 1]
  }

  /** Exactly the intact values are read as they were meant. */
  lemma IntactIff(i: Item)
    ensures ReadValue(i) == i.value <==> Intact(i)
  {
    StripShortens(i.value);
  }

  /** Adding fields as they are read to an entry, in order; a later field of the same name wins. */
  function Updated(m: Entry, e: seq<Item>): Entry
    decreases |e|
  {
    if e == [] then m else Updated(m[e[0].key := ReadValue(e[0])], e[1..])
  }

  /** The same with the values that were meant. */
  function Stated(m: Entry, e: seq<Item>): Entry
    decreases |e|
  {
    if e == [] then m else Stated(m[e[0].key := e[0].value], e[1..])
  }

  /** The list that was meant. */
  function Read(es: seq<Fields>): (r: seq<Entry>)
    ensures |r| == |es|
    ensures forall i :: 0 <= i < |r| ==> r[i] == Stated(map[], es[i])
  {
    seq(|es|, i requires 0 <= i < |es| => Stated(map[], es[i]))
  }

  lemma {:induction false} IntactIsStated(m: Entry, e: seq<Item>)
    requires forall i :: 0 <= i < |e| ==> Intact(e[i])
    ensures Updated(m, e) == Stated(m, e)
    decreases |e|
  {
    if e != [] {
      IntactIff(e[0]);
      IntactIsStated(m[e[0].key := e[0].value], e[1..]);
    }
  }

  // ------------------------------------------------------------------ single lines

  /** What is left of a line after its key. */
  function Tail(i: Item): string {
    StripRight(" " + Written(i))
  }

  /** A written field as the parser sees it. */
  function Line(i: Item): string {
    i.key + ":" + Tail(i)
  }

  lemma PairRight(i: Item)
    ensures StripRight(Pair(i)) == Line(i)
  {
    StripRightAfter(i.key + ":", " " + Written(i));
  }

  /** Stripping a field's line, indented or with a dash. */
  lemma PairLine(i: Item)
    requires PlainKey(i.key)
    ensures Strip(Pair(i)) == Line(i) && Strip("  " + Pair(i)) == Line(i) && Strip("- " + Pair(i)) == "- " + Line(i)
    ensures Strip(Line(i)) == Line(i)
  {
    var line := Pair(i);
    PairRight(i);
    assert line != "" && !IsSpace(line[0]) by {
      assert line[0] == if i.key == "" then ':' else i.key[0];
    }
    assert (" " + line)[1..] == line && ("  " + line)[1..] == " " + line;
    assert StripLeft("  " + line) == StripLeft(" " + line) == line;
    DashLine(i);
    LineIsTrimmed(i);
  }

  lemma DashLine(i: Item)
    ensures Strip("- " + Pair(i)) == "- " + Line(i)
  {
    var front := "- " + i.key + ":";
    assert "- " + Pair(i) == front + (" " + Written(i));
    StripRightAfter(front, " " + Written(i));
    assert front + Tail(i) == "- " + Line(i);
    assert (front + (" " + Written(i)))[0] == '-';
  }

  lemma LineIsTrimmed(i: Item)
    requires PlainKey(i.key)
    ensures Trimmed(Line(i)) && ':' in Line(i)
  {
    var line := Line(i);
    assert line[|i.key|] == ':';
    assert line[0] == if i.key == "" then ':' else i.key[0];
    assert line[|line| - 1] == if Tail(i) == "" then ':' else Tail(i)[|Tail(i)| - 1];
  }

  /** What unquoting makes of a written value: the quotes it was given go, whatever is between them. */
  lemma WrittenIsRead(i: Item)
    ensures Unquote(Strip(Tail(i))) == ReadValue(i)
  {
    StripAgain(Written(i));
    if i.style != Bare {
      QuotesGo(i);
    }
  }

  lemma QuotesGo(i: Item)
    requires i.style != Bare
    ensures Unquote(Strip(Written(i))) == i.value
  {
    var quoted := Written(i);
    assert quoted[0] == quoted[|quoted| - 1] && !IsSpace(quoted[0]);
    assert Strip(quoted) == quoted;
    assert quoted[1..|quoted| - 1] == i.value;
  }

  /** Splitting a line whose key may have outer whitespace. */
  lemma SplitLine(key: string, tail: string)
    requires ':' !in key
    ensures SplitKv(key + ":" + tail) == Ok((Strip(key), Unquote(Strip(tail))))
  {
    var line := key + ":" + tail;
    ColonIsFirst(key, tail);
    assert line[..|key|] == key && line[|key| + 1..] == tail;
  }

  /** A field line splits into the key and the value as read. */
  lemma SplitPair(i: Item)
    requires PlainKey(i.key)
    ensures SplitKv(Line(i)) == Ok((i.key, ReadValue(i)))
  {
    SplitLine(i.key, Tail(i));
    WrittenIsRead(i);
  }

  /** A "- key:" line closes the open entry and starts a new one. */
  lemma FirstLine(p: Progress, i: Item)
    requires PlainKey(i.key)
    ensures ParseLine(p, "- " + Pair(i)) == Ok(Progress(Flushed(p), Some(map[i.key := ReadValue(i)])))
  {
    PairLine(i);
    SplitPair(i);
    DashIsEntry(p, "- " + Pair(i), Line(i));
  }

  lemma DashIsEntry(p: Progress, raw: string, item: string)
    requires Strip(raw) == "- " + item
    ensures ParseLine(p, raw) == StartEntry(p, Strip(item))
  {
    var line := "- " + item;
    assert line[0] == '-' && line[2..] == item;
  }

  lemma InnerLine(p: Progress, i: Item)
    requires p.current.Some? && InnerKey(i.key)
    ensures ParseLine(p, "  " + Pair(i)) == Ok(p.(current := Some(p.current.value[i.key := ReadValue(i)])))
  {
    PairLine(i);
    SplitPair(i);
    LineIsTrimmed(i);
    InnerPairIsField(i);
  }

  lemma InnerPairIsField(i: Item)
    requires InnerKey(i.key)
    ensures !IsSkipped(Line(i)) && !("- " <= Line(i))
  {
    LineIsTrimmed(i);
    NotReserved(i, "version");
    NotReserved(i, "exceptions");
    LineStartsWithKey(i);
  }

  lemma LineStartsWithKey(i: Item)
    requires !("#" <= i.key) && !("- " <= i.key)
    ensures !("#" <= Line(i)) && !("- " <= Line(i))
  {
    var line := Line(i);
    assert i.key == "" ==> line[0] == ':';
    assert |i.key| == 1 ==> line[1] == ':';
    assert |i.key| >= 2 ==> line[..2] == i.key[..2];
    assert |i.key| >= 1 ==> line[..1] == i.key[..1];
  }

  /** A line starts with a reserved word and a colon only if that word is its key. */
  lemma NotReserved(i: Item, word: string)
    requires ':' !in i.key && ':' !in word && i.key != word
    ensures !(word + ":" <= Line(i))
  {
    if word + ":" <= i.key + ":" + Tail(i) {
      KeyOfLine(i.key, Tail(i), word);
    }
  }

  /** The key of a line is what stands before its first colon. */
  lemma KeyOfLine(key: string, tail: string, word: string)
    requires ':' !in key && ':' !in word && word + ":" <= key + ":" + tail
    ensures word == key
  {
    var line := key + ":" + tail;
    var rest := line[|word| + 1..];
    ColonIsFirst(key, tail);
    assert line == word + ":" + rest;
    ColonIsFirst(word, rest);
    assert line[..|key|] == key && line[..|word|] == word;
  }

  lemma SkippedIsDropped(p: Progress, i: Item)
    requires PlainKey(i.key) && IsSkipped(Line(i))
    ensures ParseLine(p, "  " + Pair(i)) == Ok(p)
  {
    PairLine(i);
  }

  /** The conditions on inner keys are needed: a field named `version` or `exceptions` is dropped. */
  lemma ReservedInnerKeyIsDropped(p: Progress, i: Item)
    requires PlainKey(i.key) && (i.key == "version" || i.key == "exceptions")
    ensures ParseLine(p, "  " + Pair(i)) == Ok(p)
  {
    var line := Line(i);
    assert line[..|i.key| + 1] == i.key + ":";
    SkippedIsDropped(p, i);
  }

  /** And so is one whose key starts with a hash. */
  lemma HashedKeyIsDropped(p: Progress, i: Item)
    requires PlainKey(i.key) && "#" <= i.key
    ensures ParseLine(p, "  " + Pair(i)) == Ok(p)
  {
    assert Line(i)[..1] == "#";
    SkippedIsDropped(p, i);
  }

  /** A key that starts with a dash opens a new entry, under the rest of the key. */
  lemma DashedKeyStartsEntry(p: Progress, i: Item) returns (k: string)
    requires PlainKey(i.key) && "- " <= i.key
    ensures |k| < |i.key| && ParseLine(p, "  " + Pair(i)) == Ok(Progress(Flushed(p), Some(map[k := ReadValue(i)])))
  {
    var rest := i.key[2..];
    PairLine(i);
    DashedLine(i);
    DashIsEntry(p, "  " + Pair(i), rest + ":" + Tail(i));
    k := DashedItem(rest, i);
    ItemStarts(p, Strip(rest + ":" + Tail(i)), k, ReadValue(i));
  }

  lemma DashedLine(i: Item)
    requires "- " <= i.key
    ensures Line(i) == "- " + (i.key[2..] + ":" + Tail(i))
  {
    assert i.key == "- " + i.key[2..];
  }

  lemma ItemStarts(p: Progress, item: string, k: string, v: string)
    requires item != "" && SplitKv(item) == Ok((k, v))
    ensures StartEntry(p, item) == Ok(Progress(Flushed(p), Some(map[k := v])))
  {
  }

  /** What the item of such a line becomes. */
  lemma DashedItem(rest: string, i: Item) returns (k: string)
    requires ':' !in rest
    ensures |k| <= |rest|
    ensures var item := Strip(rest + ":" + Tail(i)); item != "" && SplitKv(item) == Ok((k, ReadValue(i)))
  {
    var tail := ":" + Tail(i);
    assert rest + ":" + Tail(i) == rest + tail;
    assert tail[|tail| - 1] == if Tail(i) == "" then ':' else Tail(i)[|Tail(i)| - 1];
    var item, j := StripLeading(rest, tail);
    assert item == rest[j..] + ":" + Tail(i);
    SplitLine(rest[j..], Tail(i));
    WrittenIsRead(i);
    StripShortens(rest[j..]);
    k := Strip(rest[j..]);
  }

  /** Stripping a text that goes on with a visible part only takes from its front. */
  lemma {:induction false} StripLeading(rest: string, value: string) returns (item: string, j: nat)
    requires value != "" && !IsSpace(value[0]) && !IsSpace(value[|value| - 1])
    ensures j <= |rest| && item == rest[j..] + value && Strip(rest + value) == item
    decreases |rest|
  {
    if rest == "" || !IsSpace(rest[0]) {
      item, j := rest + value, 0;
    } else {
      assert (rest + value)[1..] == rest[1..] + value;
      item, j := StripLeading(rest[1..], value);
      assert rest[1..][j..] == rest[j + 1..];
      j := j + 1;
    }
  }

  /**
   Exactly the inner keys are read back: a line of its own with a plain key adds that field to the
   open entry iff the key does not read as a comment, a header or a new entry.
   */
  lemma InnerLineIff(p: Progress, i: Item)
    requires p.current.Some? && PlainKey(i.key) && i.key !in p.current.value
    ensures ParseLine(p, "  " + Pair(i)) == Ok(p.(current := Some(p.current.value[i.key := ReadValue(i)]))) <==>
              InnerKey(i.key)
  {
    if InnerKey(i.key) {
      InnerLine(p, i);
    } else if "- " <= i.key {
      var k := DashedKeyStartsEntry(p, i);
      assert i.key in p.current.value[i.key := ReadValue(i)];
    } else if "#" <= i.key {
      HashedKeyIsDropped(p, i);
    } else {
      ReservedInnerKeyIsDropped(p, i);
    }
  }

  /**
   What the three ways of writing a value give back under any plain key: a quoted value comes back
   exactly, whatever it contains; a bare one without its outer whitespace and without one pair of
   quotes around it, a lone quote counting as a pair.
   */
  lemma FieldReadsAs(p: Progress, key: string, v: string)
    requires PlainKey(key)
    ensures ParseLine(p, "- " + key + ": \"" + v + "\"") == Opens(p, key, v)
    ensures ParseLine(p, "- " + key + ": '" + v + "'") == Opens(p, key, v)
    ensures ParseLine(p, "- " + key + ": " + v) == Opens(p, key, BareValue(Strip(v)))
  {
    WrittenOut("- ", key, v);
    ItemOpens(p, Item(key, v, Double), "- " + key + ": \"" + v + "\"");
    ItemOpens(p, Item(key, v, Single), "- " + key + ": '" + v + "'");
    ItemOpens(p, Item(key, v, Bare), "- " + key + ": " + v);
    BareIsRead(key, v);
  }

  lemma WrittenOut(front: string, key: string, v: string)
    ensures front + key + ": \"" + v + "\"" == front + Pair(Item(key, v, Double))
    ensures front + key + ": '" + v + "'" == front + Pair(Item(key, v, Single))
    ensures front + key + ": " + v == front + Pair(Item(key, v, Bare))
  {
    assert ": \"" == ":" + " " + "\"" && ": '" == ":" + " " + "'" && ": " == ":" + " ";
  }

  lemma ItemOpens(p: Progress, i: Item, raw: string)
    requires PlainKey(i.key) && raw == "- " + Pair(i)
    ensures ParseLine(p, raw) == Opens(p, i.key, ReadValue(i))
  {
    FirstLine(p, i);
  }

  /** The same for a line of its own under a key that reads as one. */
  lemma InnerFieldReadsAs(p: Progress, key: string, v: string)
    requires p.current.Some? && InnerKey(key)
    ensures ParseLine(p, "  " + key + ": \"" + v + "\"") == Adds(p, key, v)
    ensures ParseLine(p, "  " + key + ": '" + v + "'") == Adds(p, key, v)
    ensures ParseLine(p, "  " + key + ": " + v) == Adds(p, key, BareValue(Strip(v)))
  {
    WrittenOut("  ", key, v);
    ItemAdds(p, Item(key, v, Double), "  " + key + ": \"" + v + "\"");
    ItemAdds(p, Item(key, v, Single), "  " + key + ": '" + v + "'");
    ItemAdds(p, Item(key, v, Bare), "  " + key + ": " + v);
    BareIsRead(key, v);
  }

  lemma ItemAdds(p: Progress, i: Item, raw: string)
    requires p.current.Some? && InnerKey(i.key) && raw == "  " + Pair(i)
    ensures ParseLine(p, raw) == Adds(p, i.key, ReadValue(i))
  {
    InnerLine(p, i);
  }

  function Adds(p: Progress, key: string, v: string): Result<Progress>
    requires p.current.Some?
  {
    Ok(p.(current := Some(p.current.value[key := v])))
  }

  /** The open entry is closed, and a new one holds one field. */
  function Opens(p: Progress, key: string, v: string): Result<Progress> {
    Ok(Progress(Flushed(p), Some(map[key := v])))
  }

  /** Text without one pair of quotes around it; a lone quote counts as a pair. */
  function BareValue(t: string): string {
    if t == "\"" || t == "'" then ""
    else if |t| >= 2 && t[0] == t[|t| - 1] && (t[0] == '"' || t[0] == '\'') then t[1..|t| - 1]
    else t
  }

  lemma BareIsRead(key: string, v: string)
    ensures ReadValue(Item(key, v, Bare)) == BareValue(Strip(v))
  {
    var t := Strip(v);
    assert |t| == 1 ==> t == [t[0]];
  }

  // ------------------------------------------------------------------ parsing undoes printing

  /** What a step has to do with the lines of a printed entry. */
  ghost predicate ReadsEntries(step: Step) {
    && (forall p: Progress, i: Item {:trigger step(p, "- " + Pair(i))} :: PlainKey(i.key) ==>
          step(p, "- " + Pair(i)) == Ok(Progress(Flushed(p), Some(map[i.key := ReadValue(i)]))))
    && (forall p: Progress, i: Item {:trigger step(p, "  " + Pair(i))} ::
          p.current.Some? && InnerKey(i.key) ==>
          step(p, "  " + Pair(i)) == Ok(p.(current := Some(p.current.value[i.key := ReadValue(i)]))))
  }

  lemma {:induction false} FoldSplit(step: Step, p: Progress, a: seq<string>, b: seq<string>)
    ensures Fold(step, p, a + b) == match Fold(step, p, a)
                                    case NoColon(l) => NoColon(l)
                                    case Ok(q) => Fold(step, q, b)
    decreases |a|
  {
    if a == [] {
      assert a + b == b;
    } else {
      assert (a + b)[0] == a[0] && (a + b)[1..] == a[1..] + b;
      match step(p, a[0])
      case NoColon(_) =>
      case Ok(next) => FoldSplit(step, next, a[1..], b);
    }
  }

  lemma {:induction false} FoldInner(step: Step, p: Progress, e: seq<Item>)
    requires ReadsEntries(step) && p.current.Some?
    requires forall i :: 0 <= i < |e| ==> InnerKey(e[i].key)
    ensures Fold(step, p, InnerLines(e)) == Ok(p.(current := Some(Updated(p.current.value, e))))
    decreases |e|
  {
    if e != [] {
      var next := p.(current := Some(p.current.value[e[0].key := ReadValue(e[0])]));
      assert step(p, "  " + Pair(e[0])) == Ok(next);
      FoldInner(step, next, e[1..]);
      assert InnerLines(e)[1..] == InnerLines(e[1..]);
    }
  }

  lemma FoldEntry(step: Step, p: Progress, e: Fields)
    requires ReadsEntries(step) && Printable(e)
    ensures Fold(step, p, EntryLines(e)) == Ok(Progress(Flushed(p), Some(Stated(map[], e))))
    ensures Stated(map[], e) != map[]
  {
    var first := map[e[0].key := ReadValue(e[0])];
    var begun := Progress(Flushed(p), Some(first));
    assert step(p, "- " + Pair(e[0])) == Ok(begun);
    FoldInner(step, begun, e[1..]);
    assert EntryLines(e)[1..] == InnerLines(e[1..]);
    var empty: Entry := map[];
    assert empty[e[0].key := ReadValue(e[0])] == first;
    IntactIsStated(empty, e);
    UpdatedKeeps(first, e[1..]);
    assert e[0].key in Updated(empty, e);
  }

  lemma {:induction false} UpdatedKeeps(m: Entry, e: seq<Item>)
    ensures m.Keys <= Updated(m, e).Keys
    decreases |e|
  {
    if e != [] {
      UpdatedKeeps(m[e[0].key := ReadValue(e[0])], e[1..]);
    }
  }

  ghost predicate AllPrintable(es: seq<Fields>) {
    forall e :: e in es ==> Printable(e)
  }

  lemma PrintableHead(es: seq<Fields>)
    requires AllPrintable(es) && es != []
    ensures Printable(es[0]) && AllPrintable(es[1..])
  {
    assert es[0] in es;
  }

  lemma {:induction false} FoldAll(step: Step, p: Progress, es: seq<Fields>)
    requires ReadsEntries(step) && AllPrintable(es)
    ensures var r := Fold(step, p, AllLines(es));
            r.Ok? && Flushed(r.value) == Flushed(p) + Read(es)
    decreases |es|
  {
    if es == [] {
      assert Flushed(p) + [] == Flushed(p);
    } else {
      PrintableHead(es);
      var q := FoldFirst(step, p, es);
      FoldAll(step, q, es[1..]);
      ReadHead(es);
      Regroup(Flushed(p), [Stated(map[], es[0])], Read(es[1..]));
    }
  }

  lemma Regroup<T>(a: seq<T>, b: seq<T>, c: seq<T>)
    ensures (a + b) + c == a + (b + c)
  {
  }

  lemma ReadHead(es: seq<Fields>)
    requires es != []
    ensures Read(es) == [Stated(map[], es[0])] + Read(es[1..])
  {
  }

  /** The state between the first entry and the others. */
  lemma FoldFirst(step: Step, p: Progress, es: seq<Fields>) returns (q: Progress)
    requires ReadsEntries(step) && es != [] && Printable(es[0])
    ensures Flushed(q) == Flushed(p) + [Stated(map[], es[0])]
    ensures Fold(step, p, AllLines(es)) == Fold(step, q, AllLines(es[1..]))
  {
    FoldEntry(step, p, es[0]);
    q := Progress(Flushed(p), Some(Stated(map[], es[0])));
    FoldSplit(step, p, EntryLines(es[0]), AllLines(es[1..]));
  }

  /** Keys and values on one line each. */
  predicate OnOneLine(e: seq<Item>) {
    forall i :: 0 <= i < |e| ==> OneLine(e[i].key) && OneLine(e[i].value)
  }

  lemma {:induction false} LinesAreLines(es: seq<Fields>)
    requires forall e :: e in es ==> OnOneLine(e)
    ensures forall l :: l in AllLines(es) ==> OneLine(l)
    decreases |es|
  {
    if es != [] {
      assert es[0] in es;
      PairIsLine(es[0][0]);
      InnerAreLines(es[0][1..]);
      LinesAreLines(es[1..]);
    }
  }

  lemma PairIsLine(i: Item)
    requires OneLine(i.key) && OneLine(i.value)
    ensures OneLine("  " + Pair(i)) && OneLine("- " + Pair(i))
  {
    assert OneLine(Written(i));
  }

  lemma {:induction false} InnerAreLines(e: seq<Item>)
    requires OnOneLine(e)
    ensures forall l :: l in InnerLines(e) ==> OneLine(l)
    decreases |e|
  {
    if e != [] {
      PairIsLine(e[0]);
      InnerAreLines(e[1..]);
    }
  }

  lemma ParserReadsEntries()
    ensures ReadsEntries(ParseLine)
  {
    forall p: Progress, i: Item | PlainKey(i.key)
      ensures ParseLine(p, "- " + Pair(i)) == Ok(Progress(Flushed(p), Some(map[i.key := ReadValue(i)])))
    {
      FirstLine(p, i);
    }
    forall p: Progress, i: Item | p.current.Some? && InnerKey(i.key)
      ensures ParseLine(p, "  " + Pair(i)) == Ok(p.(current := Some(p.current.value[i.key := ReadValue(i)])))
    {
      InnerLine(p, i);
    }
  }

  lemma HeaderIsSkipped(p: Progress)
    ensures ParseLines(p, ["version: 1", "exceptions:"]) == Ok(p)
  {
    var a, b := "version: 1", "exceptions:";
    StripIndent(a);
    StripIndent(b);
    assert ParseLine(p, a) == Ok(p) && ParseLine(p, b) == Ok(p);
    FoldSplit(ParseLine, p, [a], [b]);
    assert [a, b] == [a] + [b];
  }

  /** Printing any list of printable entries, in any styles, and parsing the file gives back what was meant. */
  lemma ParseUndoesPrint(es: seq<Fields>)
    requires forall e :: e in es ==> Printable(e)
    ensures Parse(Print(es)) == Ok(Read(es))
  {
    var header, body := ["version: 1", "exceptions:"], AllLines(es);
    forall e | e in es
      ensures OnOneLine(e)
    {
      PrintableOnOneLine(e);
    }
    LinesAreLines(es);
    LinesOfJoined(header + body);
    var start := Progress([], None);
    HeaderIsSkipped(start);
    FoldSplit(ParseLine, start, header, body);
    ParserReadsEntries();
    FoldAll(ParseLine, start, es);
    assert Flushed(start) + Read(es) == Read(es);
  }

  lemma PrintableOnOneLine(e: Fields)
    requires Printable(e)
    ensures OnOneLine(e)
  {
  }

  // ------------------------------------------------------------------ which texts cannot be read

  /** Reading fails iff some line, stripped, starts an entry with text that has no colon. */
  lemma ParseFailsIff(text: string)
    ensures Parse(text).NoColon? <==>
              exists l :: l in Lines(text) && "- " <= Strip(l) && ':' !in Strip(l)
  {
    FoldFailsIff(Progress([], None), Lines(text));
  }

  lemma {:induction false} FoldFailsIff(p: Progress, lines: seq<string>)
    ensures ParseLines(p, lines).NoColon? <==> exists l :: l in lines && "- " <= Strip(l) && ':' !in Strip(l)
    decreases |lines|
  {
    if lines != [] {
      LineFailsIff(p, lines[0]);
      match ParseLine(p, lines[0])
      case NoColon(_) => assert lines[0] in lines;
      case Ok(next) => FoldFailsIff(next, lines[1..]);
    }
  }

  lemma LineFailsIff(p: Progress, raw: string)
    ensures ParseLine(p, raw).NoColon? <==> "- " <= Strip(raw) && ':' !in Strip(raw)
  {
    var line := Strip(raw);
    if "- " <= line {
      assert line[0] == '-';
      var rest := line[2..];
      var left, right := StripParts(rest);
      assert line == "- " + rest;
      assert ':' in line <==> ':' in rest;
      assert rest == left + Strip(rest) + right;
      BlankHasNoColon(left);
      BlankHasNoColon(right);
      assert line[|line| - 1] == if rest == "" then ' ' else rest[|rest| - 1];
      VisibleIsKept(rest);
      SplitFailsIff(Strip(rest));
    } else if ':' in line {
      SplitFailsIff(line);
    }
  }

  lemma VisibleIsKept(s: string)
    requires s != "" && !IsSpace(s[|s| - 1])
    ensures Strip(s) != ""
  {
    var left, right := StripParts(s);
    assert Blank(left + right);
  }

  lemma BlankHasNoColon(s: string)
    requires Blank(s)
    ensures ':' !in s
  {
  }

  lemma SplitFailsIff(line: string)
    ensures SplitKv(line).NoColon? <==> ':' !in line
  {
    assert Colon(line) == |line| ==> line[..Colon(line)] == line;
  }
}
