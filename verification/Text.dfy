/** The string operations the audit script uses: stripping, splitting at a colon, lines. */
module Text {

  /** The characters Python's `str.strip` removes. */
  predicate IsSpace(c: char) {
    var n := c as int;
    || 9 <= n <= 13 || 28 <= n <= 32 || n == 0x85 || n == 0xA0 || n == 0x1680
    || 0x2000 <= n <= 0x200A || n == 0x2028 || n == 0x2029 || n == 0x202F || n == 0x205F || n == 0x3000
  }

  function StripLeft(s: string): (r: string)
    ensures r != "" ==> !IsSpace(r[0])
    ensures s != "" && !IsSpace(s[0]) ==> r == s
  {
    if s == "" || !IsSpace(s[0]) then s else StripLeft(s[1..])
  }

  function StripRight(s: string): (r: string)
    ensures r <= s
    ensures r != "" ==> !IsSpace(r[|r| - 1])
    ensures s != "" && !IsSpace(s[|s| - 1]) ==> r == s
  {
    if s == "" || !IsSpace(s[|s| - 1]) then s else StripRight(s[..|s| - 1])
  }

  function Strip(s: string): (r: string)
    ensures r != "" ==> !IsSpace(r[0]) && !IsSpace(r[|r| - 1])
    ensures s == "" || (!IsSpace(s[0]) && !IsSpace(s[|s| - 1])) ==> r == s
  {
    StripRight(StripLeft(s))
  }

  lemma {:induction false} StripShortens(s: string)
    ensures |Strip(s)| <= |s|
  {
    StripLeftShortens(s);
  }

  lemma {:induction false} StripLeftShortens(s: string)
    ensures |StripLeft(s)| <= |s|
  {
    if s != "" && IsSpace(s[0]) {
      StripLeftShortens(s[1..]);
    }
  }

  /** The position of the first colon, or the length of the text. */
  function Colon(s: string): (i: nat)
    ensures i <= |s|
    ensures ':' !in s[..i]
    ensures i < |s| ==> s[i] == ':'
  {
    if s == "" || s[0] == ':' then 0
    else
      var i := 1 + Colon(s[1..]);
      assert s[..i] == [s[0]] + s[1..][..i - 1];
      i
  }

  lemma ColonIsFirst(key: string, rest: string)
    requires ':' !in key
    ensures Colon(key + ":" + rest) == |key|
  {
    var s := key + ":" + rest;
    assert s[|key|] == ':';
    assert forall i :: 0 <= i < |key| ==> s[i] == key[i];
  }

  /** A text with visible first and last characters, as `strip` leaves it. */
  predicate Trimmed(s: string) {
    s != "" && !IsSpace(s[0]) && !IsSpace(s[|s| - 1])
  }

  lemma StripIndent(s: string)
    requires Trimmed(s)
    ensures Strip(s) == s && Strip(" " + s) == s && Strip("  " + s) == s
  {
    assert (" " + s)[1..] == s && ("  " + s)[1..] == " " + s;
    assert StripLeft(" " + s) == StripLeft(s);
    assert StripLeft("  " + s) == StripLeft(" " + s);
  }

  predicate IsNewline(c: char) {
    c == '\n' || c == '\r'
  }

  predicate OneLine(s: string) {
    forall i :: 0 <= i < |s| ==> !IsNewline(s[i])
  }

  /** The position of the first line end, or the length of the text. */
  function LineEnd(s: string): (i: nat)
    ensures i <= |s|
    ensures OneLine(s[..i])
    ensures i < |s| ==> IsNewline(s[i])
  {
    if s == "" || IsNewline(s[0]) then 0
    else
      var i := 1 + LineEnd(s[1..]);
      assert s[..i] == [s[0]] + s[1..][..i - 1];
      i
  }

  /** The lines of a text, without their ends. */
  function Lines(s: string): seq<string>
    decreases |s|
  {
    if s == "" then []
    else
      var i := LineEnd(s);
      if i == |s| then [s] else [s[..i]] + Lines(s[i + 1..])
  }

  /** The lines, each ended by a newline. */
  function Joined(lines: seq<string>): string {
    if lines == [] then "" else lines[0] + "\n" + Joined(lines[1..])
  }

  lemma LineEndAt(first: string, rest: string)
    requires OneLine(first)
    ensures LineEnd(first + "\n" + rest) == |first|
  {
    var s := first + "\n" + rest;
    assert s[|first|] == '\n';
    assert forall i :: 0 <= i < |first| ==> s[i] == first[i];
  }

  lemma {:induction false} LinesOfJoined(lines: seq<string>)
    requires forall l :: l in lines ==> OneLine(l)
    ensures Lines(Joined(lines)) == lines
  {
    if lines != [] {
      var first, rest := lines[0], Joined(lines[1..]);
      var s := first + "\n" + rest;
      LineEndAt(first, rest);
      assert s[..|first|] == first && s[|first| + 1..] == rest;
      LinesOfJoined(lines[1..]);
    }
  }

  /** Stripping only takes characters away. */
  lemma StripWithin(s: string)
    ensures forall c :: c in Strip(s) ==> c in s
  {
    StripLeftWithin(s);
    assert StripRight(StripLeft(s)) <= StripLeft(s);
  }

  lemma {:induction false} StripLeftWithin(s: string)
    ensures forall c :: c in StripLeft(s) ==> c in s
  {
    if s != "" && IsSpace(s[0]) {
      StripLeftWithin(s[1..]);
    }
  }

  lemma OneLineWithin(part: string, whole: string)
    requires OneLine(whole) && forall c :: c in part ==> c in whole
    ensures OneLine(part)
  {
    forall i | 0 <= i < |part|
      ensures !IsNewline(part[i])
    {
      assert part[i] in whole;
    }
  }

  lemma {:induction false} LinesAreOneLine(s: string)
    ensures forall l :: l in Lines(s) ==> OneLine(l)
    decreases |s|
  {
    if s != "" && LineEnd(s) < |s| {
      LinesAreOneLine(s[LineEnd(s) + 1..]);
    } else {
      assert s[..LineEnd(s)] == s;
    }
  }

  // ------------------------------------------------------------------ what stripping and splitting mean

  predicate Blank(s: string) {
    forall i :: 0 <= i < |s| ==> IsSpace(s[i])
  }

  /** The white space among the ASCII characters. */
  lemma AsciiSpaces(c: char)
    requires c as int < 128
    ensures IsSpace(c) <==> c == ' ' || c == '\t' || c == '\n' || c == '\r' || c as int in {11, 12, 28, 29, 30, 31}
  {
  }

  /** Text between blanks is what stripping leaves, if it is empty or its ends are visible. */
  lemma {:induction false} StripIs(left: string, middle: string, right: string)
    requires Blank(left) && Blank(right) && (middle == "" || Trimmed(middle))
    ensures Strip(left + middle + right) == middle
    decreases |left|
  {
    var s := left + middle + right;
    if left != "" {
      assert s[1..] == left[1..] + middle + right;
      assert s[0] == left[0];
      StripIs(left[1..], middle, right);
    } else {
      assert s == middle + right;
      if middle == "" {
        assert s == right;
        BlankIsStripped(right);
      } else {
        assert s[0] == middle[0];
        StripRightAfter(middle, right);
        StripRightOfBlank(right);
      }
    }
  }

  lemma {:induction false} StripRightOfBlank(s: string)
    requires Blank(s)
    ensures StripRight(s) == ""
    decreases |s|
  {
    if s != "" {
      StripRightOfBlank(s[..|s| - 1]);
    }
  }

  lemma {:induction false} BlankIsStripped(s: string)
    requires Blank(s)
    ensures Strip(s) == ""
  {
    if s != "" {
      BlankIsStripped(s[1..]);
    }
  }

  /** Every text is what stripping leaves of it, between two blanks. */
  lemma StripParts(s: string) returns (left: string, right: string)
    ensures Blank(left) && Blank(right) && s == left + Strip(s) + right
  {
    left := LeftPart(s);
    right := RightPart(StripLeft(s));
  }

  lemma {:induction false} LeftPart(s: string) returns (left: string)
    ensures Blank(left) && s == left + StripLeft(s)
  {
    if s != "" && IsSpace(s[0]) {
      var rest := LeftPart(s[1..]);
      left := [s[0]] + rest;
    } else {
      left := "";
    }
  }

  lemma {:induction false} RightPart(s: string) returns (right: string)
    ensures Blank(right) && s == StripRight(s) + right
    decreases |s|
  {
    if s != "" && IsSpace(s[|s| - 1]) {
      var rest := RightPart(s[..|s| - 1]);
      right := rest + [s[|s| - 1]];
    } else {
      right := "";
    }
  }

  /** Stripping on the right stops at a visible character. */
  lemma {:induction false} StripRightAfter(a: string, b: string)
    requires a != "" && !IsSpace(a[|a| - 1])
    ensures StripRight(a + b) == a + StripRight(b)
    decreases |b|
  {
    if b == "" {
      assert a + b == a;
    } else {
      assert (a + b)[|a + b| - 1] == b[|b| - 1];
      if IsSpace(b[|b| - 1]) {
        assert (a + b)[..|a + b| - 1] == a + b[..|b| - 1];
        StripRightAfter(a, b[..|b| - 1]);
      }
    }
  }

  /** A blank at the end makes no difference. */
  lemma StripBlankEnd(s: string, more: string)
    requires Blank(more)
    ensures Strip(s + more) == Strip(s)
  {
    var left, right := StripParts(s);
    assert s + more == left + Strip(s) + (right + more);
    StripIs(left, Strip(s), right + more);
  }

  /** Nor does stripping on the right first, or a space in front. */
  lemma StripAgain(s: string)
    ensures Strip(StripRight(" " + s)) == Strip(s)
  {
    var more := RightPart(" " + s);
    StripBlankEnd(StripRight(" " + s), more);
    assert (" " + s)[1..] == s;
    assert StripLeft(" " + s) == StripLeft(s);
  }

  lemma {:induction false} LineEndOfOneLine(s: string)
    requires OneLine(s)
    ensures LineEnd(s) == |s|
  {
    if s != "" {
      LineEndOfOneLine(s[1..]);
    }
  }

  /** The last line of a text need not be ended, and either newline character ends one. */
  lemma {:induction false} LinesOfUnended(lines: seq<string>, last: string)
    requires forall l :: l in lines ==> OneLine(l)
    requires OneLine(last) && last != ""
    ensures Lines(Joined(lines) + last) == lines + [last]
  {
    if lines == [] {
      assert Joined(lines) + last == last;
      LineEndOfOneLine(last);
    } else {
      var first, rest := lines[0], Joined(lines[1..]) + last;
      var s := first + "\n" + rest;
      assert Joined(lines) + last == s;
      LineEndAt(first, rest);
      assert s[..|first|] == first && s[|first| + 1..] == rest;
      LinesOfUnended(lines[1..], last);
    }
  }
}
