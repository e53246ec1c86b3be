/** How the gate's verdict depends on the order of its inputs and on the date. */
module AuditGateOrder {
  import opened Options
  import opened ExceptionList
  import opened AuditGate

  // ------------------------------------------------------------------ exceptions

  /** A value that occurs twice has two places. */
  lemma {:induction false} TwoPlaces<T>(s: seq<T>, x: T) returns (i: nat, j: nat)
    requires multiset(s)[x] >= 2
    ensures i < j < |s| && s[i] == x && s[j] == x
    decreases |s|
  {
    var n := |s| - 1;
    assert s == s[..n] + [s[n]];
    if s[n] == x {
      assert x in multiset(s[..n]);
      i := OnePlace(s[..n], x);
      j := n;
    } else {
      i, j := TwoPlaces(s[..n], x);
    }
  }

  lemma OnePlace<T>(s: seq<T>, x: T) returns (i: nat)
    requires x in multiset(s)
    ensures i < |s| && s[i] == x
  {
    assert x in s;
    i :| i < |s| && s[i] == x;
  }

  /** Two places holding the same value make it occur twice. */
  lemma TwiceIfTwoPlaces<T>(s: seq<T>, i: nat, j: nat)
    requires i < j < |s| && s[i] == s[j]
    ensures multiset(s)[s[i]] >= 2
  {
    assert s == s[..j] + [s[j]] + s[j + 1..];
    assert s[..j][i] == s[i];
    assert s[i] in multiset(s[..j]);
    assert multiset(s) == multiset(s[..j]) + multiset([s[j]]) + multiset(s[j + 1..]);
  }

  lemma SoundIsOrderFree(r: Rules, a: seq<Entry>, b: seq<Entry>)
    requires multiset(a) == multiset(b) && Sound(r, a)
    ensures Sound(r, b)
  {
    forall i | 0 <= i < |b|
      ensures Acceptable(r, b[i])
    {
      assert b[i] in multiset(b);
      var k := OnePlace(a, b[i]);
    }
    forall i, j | 0 <= i < j < |b|
      ensures ExceptionKey(r, b[i]) != ExceptionKey(r, b[j])
    {
      assert b[i] in multiset(b) && b[j] in multiset(b);
      if b[i] == b[j] {
        TwiceIfTwoPlaces(b, i, j);
        var k, l := TwoPlaces(a, b[i]);
      } else {
        var k := OnePlace(a, b[i]);
        var l := OnePlace(a, b[j]);
      }
    }
  }

  lemma ExcusedByAny(r: Rules, a: seq<Entry>, b: seq<Entry>, f: Finding)
    requires multiset(a) == multiset(b) && Excused(r, a, f)
    ensures Excused(r, b, f)
  {
    var i :| 0 <= i < |a| && Excuses(r, a[i], f);
    assert a[i] in multiset(a);
    var k := OnePlace(b, a[i]);
    assert Excuses(r, b[k], f);
  }

  lemma PassesInAnyExceptionOrder(r: Rules, a: seq<Entry>, b: seq<Entry>, fs: seq<Finding>)
    requires multiset(a) == multiset(b) && Passes(r, a, fs)
    ensures Passes(r, b, fs)
  {
    SoundIsOrderFree(r, a, b);
    forall i | 0 <= i < |fs|
      ensures FindingCovered(r, b, fs, i)
    {
      assert FindingCovered(r, a, fs, i);
      if Relevant(r, fs[i]) && IsFirst(r, fs, i) {
        ExcusedByAny(r, a, b, fs[i]);
      }
    }
  }

  /** Permuting the exceptions never changes the verdict. */
  lemma ExceptionOrderIsIrrelevant(r: Rules, a: seq<Entry>, b: seq<Entry>, fs: seq<Finding>)
    requires multiset(a) == multiset(b)
    ensures Report(r, a, fs) == [] <==> Report(r, b, fs) == []
  {
    GateDecidesRule(r, a, fs);
    GateDecidesRule(r, b, fs);
    if Passes(r, a, fs) {
      PassesInAnyExceptionOrder(r, a, b, fs);
    }
    if Passes(r, b, fs) {
      PassesInAnyExceptionOrder(r, b, a, fs);
    }
  }

  // ------------------------------------------------------------------ findings

  /** Relevant findings that share a key share a severity. */
  ghost predicate Consistent(r: Rules, fs: seq<Finding>) {
    forall i, j |
      0 <= i < |fs| && 0 <= j < |fs| && Relevant(r, fs[i]) && Relevant(r, fs[j]) &&
      FindingKey(r, fs[i]) == FindingKey(r, fs[j])
      :: SeverityOf(r, fs[i]) == SeverityOf(r, fs[j])
  }

  /** Every relevant finding, not just the first with its key, has an advisory and an exception. */
  ghost predicate AllCovered(r: Rules, exs: seq<Entry>, fs: seq<Finding>) {
    forall i :: 0 <= i < |fs| && Relevant(r, fs[i]) ==> HasAdvisory(r, fs[i]) && Excused(r, exs, fs[i])
  }

  /** The first relevant finding with the key of the i-th. */
  lemma {:induction false} FirstWithKey(r: Rules, fs: seq<Finding>, i: nat) returns (k: nat)
    requires i < |fs| && Relevant(r, fs[i])
    ensures k <= i && Relevant(r, fs[k]) && FindingKey(r, fs[k]) == FindingKey(r, fs[i]) && IsFirst(r, fs, k)
    decreases i
  {
    if IsFirst(r, fs, i) {
      k := i;
    } else {
      var j :| 0 <= j < i && Relevant(r, fs[j]) && FindingKey(r, fs[j]) == FindingKey(r, fs[i]);
      k := FirstWithKey(r, fs, j);
    }
  }

  lemma ConsistentCover(r: Rules, exs: seq<Entry>, fs: seq<Finding>)
    requires Consistent(r, fs)
    ensures Covered(r, exs, fs) <==> AllCovered(r, exs, fs)
  {
    if Covered(r, exs, fs) {
      forall i | 0 <= i < |fs| && Relevant(r, fs[i])
        ensures HasAdvisory(r, fs[i]) && Excused(r, exs, fs[i])
      {
        assert FindingCovered(r, exs, fs, i);
        var k := FirstWithKey(r, fs, i);
        assert FindingCovered(r, exs, fs, k);
        var e :| 0 <= e < |exs| && Excuses(r, exs[e], fs[k]);
        assert Excuses(r, exs[e], fs[i]);
      }
    }
  }

  /** Findings of one list all occur in the other. */
  ghost predicate Within(a: seq<Finding>, b: seq<Finding>) {
    forall f :: f in a ==> f in b
  }

  lemma AllCoveredWithin(r: Rules, exs: seq<Entry>, a: seq<Finding>, b: seq<Finding>)
    requires Within(a, b) && AllCovered(r, exs, b)
    ensures AllCovered(r, exs, a)
  {
    forall i | 0 <= i < |a| && Relevant(r, a[i])
      ensures HasAdvisory(r, a[i]) && Excused(r, exs, a[i])
    {
      assert a[i] in b;
      var k :| 0 <= k < |b| && b[k] == a[i];
    }
  }

  lemma ConsistentWithin(r: Rules, a: seq<Finding>, b: seq<Finding>)
    requires Within(a, b) && Consistent(r, b)
    ensures Consistent(r, a)
  {
    forall i, j | 0 <= i < |a| && 0 <= j < |a| && Relevant(r, a[i]) && Relevant(r, a[j]) &&
                  FindingKey(r, a[i]) == FindingKey(r, a[j])
      ensures SeverityOf(r, a[i]) == SeverityOf(r, a[j])
    {
      assert a[i] in b && a[j] in b;
      var k :| 0 <= k < |b| && b[k] == a[i];
      var l :| 0 <= l < |b| && b[l] == a[j];
    }
  }

  /** Permuting or repeating findings that agree on severities never changes the verdict. */
  lemma FindingOrderIsIrrelevant(r: Rules, exs: seq<Entry>, a: seq<Finding>, b: seq<Finding>)
    requires Within(a, b) && Within(b, a) && Consistent(r, a)
    ensures Report(r, exs, a) == [] <==> Report(r, exs, b) == []
  {
    GateDecidesRule(r, exs, a);
    GateDecidesRule(r, exs, b);
    ConsistentWithin(r, b, a);
    ConsistentCover(r, exs, a);
    ConsistentCover(r, exs, b);
    if AllCovered(r, exs, a) {
      AllCoveredWithin(r, exs, b, a);
    }
    if AllCovered(r, exs, b) {
      AllCoveredWithin(r, exs, a, b);
    }
  }

  ghost predicate PassesInEveryOrder(r: Rules, exs: seq<Entry>, fs: seq<Finding>) {
    forall g: seq<Finding> :: multiset(g) == multiset(fs) ==> Report(r, exs, g) == []
  }

  /**
   Without that agreement the order matters, and exactly so: the gate passes for every order of
   the findings iff the exceptions are sound and excuse every finding, not just the first one
   seen under its key.
   */
  lemma EveryOrderPassesIff(r: Rules, exs: seq<Entry>, fs: seq<Finding>)
    ensures PassesInEveryOrder(r, exs, fs) <==> Sound(r, exs) && AllCovered(r, exs, fs)
  {
    if Sound(r, exs) && AllCovered(r, exs, fs) {
      forall g: seq<Finding> | multiset(g) == multiset(fs)
        ensures Report(r, exs, g) == []
      {
        forall f | f in g
          ensures f in fs
        {
          assert f in multiset(g);
        }
        AllCoveredWithin(r, exs, g, fs);
        GateDecidesRule(r, exs, g);
      }
    }
    if PassesInEveryOrder(r, exs, fs) {
      GateDecidesRule(r, exs, fs);
      forall i | 0 <= i < |fs| && Relevant(r, fs[i])
        ensures HasAdvisory(r, fs[i]) && Excused(r, exs, fs[i])
      {
        var g := MovedToFront(fs, i);
        assert Report(r, exs, g) == [];
        GateDecidesRule(r, exs, g);
        assert IsFirst(r, g, 0) && FindingCovered(r, exs, g, 0);
      }
    }
  }

  lemma MovedToFront(fs: seq<Finding>, i: nat) returns (g: seq<Finding>)
    requires i < |fs|
    ensures g != [] && g[0] == fs[i] && multiset(g) == multiset(fs)
  {
    g := [fs[i]] + (fs[..i] + fs[i + 1..]);
    assert fs == fs[..i] + ([fs[i]] + fs[i + 1..]);
    assert multiset(fs) == multiset(fs[..i]) + multiset([fs[i]]) + multiset(fs[i + 1..]);
    assert multiset(g) == multiset([fs[i]]) + (multiset(fs[..i]) + multiset(fs[i + 1..]));
  }

  /** Rules that take severities and keys as they are and read every date as day 1, on day 0. */
  const PLAIN_RULES: Rules := Rules(s => s, _ => Some(1), 0)

  const HIGH_ONLY: Entry := map["package" := "p", "advisory" := "a", "severity" := "high",
                                "mitigation" := "m", "expires_on" := "d"]

  function Seen(severity: string): Finding {
    Finding(Some("p"), Some(severity), Some("a"), None)
  }

  lemma HighOnlyIsSound()
    ensures Acceptable(PLAIN_RULES, HIGH_ONLY)
    ensures ExceptionKey(PLAIN_RULES, HIGH_ONLY) == ("p", "a")
    ensures NormalSeverity(PLAIN_RULES, Get(HIGH_ONLY, "severity")) == "high"
    ensures ExpiryDate(PLAIN_RULES, HIGH_ONLY) == Some(1)
  {
  }

  lemma SeenMeans(severity: string)
    requires IsHigh(severity)
    ensures SeverityOf(PLAIN_RULES, Seen(severity)) == severity
    ensures Relevant(PLAIN_RULES, Seen(severity)) && HasAdvisory(PLAIN_RULES, Seen(severity))
    ensures FindingKey(PLAIN_RULES, Seen(severity)) == ("p", "a")
  {
  }

  /** Of two relevant findings with one key, only the first has to be excused. */
  lemma PairPassesIff(r: Rules, exs: seq<Entry>, f: Finding, g: Finding)
    requires Relevant(r, f) && HasAdvisory(r, f) && Relevant(r, g) && FindingKey(r, f) == FindingKey(r, g)
    ensures Report(r, exs, [f, g]) == [] <==> Sound(r, exs) && Excused(r, exs, f)
  {
    var fs := [f, g];
    GateDecidesRule(r, exs, fs);
    assert Relevant(r, fs[0]) && FindingKey(r, fs[0]) == FindingKey(r, fs[1]);
    assert !IsFirst(r, fs, 1) && IsFirst(r, fs, 0);
    SightMeaning(r, f);
    SightMeaning(r, g);
    assert Covered(r, exs, fs) <==> FindingCovered(r, exs, fs, 0) && FindingCovered(r, exs, fs, 1);
  }

  lemma SeenIsExcusedIff(severity: string)
    requires IsHigh(severity)
    ensures Sound(PLAIN_RULES, [HIGH_ONLY])
    ensures Excused(PLAIN_RULES, [HIGH_ONLY], Seen(severity)) <==> severity == "high"
  {
    HighOnlyIsSound();
    SeenMeans(severity);
    assert Excuses(PLAIN_RULES, [HIGH_ONLY][0], Seen(severity)) <==> severity == "high";
  }

  /** One exception for a high finding: a critical one with the same key passes after it, not before it. */
  lemma OrderMatters()
    ensures Report(PLAIN_RULES, [HIGH_ONLY], [Seen("high"), Seen("critical")]) == []
    ensures Report(PLAIN_RULES, [HIGH_ONLY], [Seen("critical"), Seen("high")]) != []
  {
    SeenMeans("high");
    SeenMeans("critical");
    SeenIsExcusedIff("high");
    SeenIsExcusedIff("critical");
    PairPassesIff(PLAIN_RULES, [HIGH_ONLY], Seen("high"), Seen("critical"));
    PairPassesIff(PLAIN_RULES, [HIGH_ONLY], Seen("critical"), Seen("high"));
  }

  // ------------------------------------------------------------------ monotonicity

  /** Appending findings or letting time pass never turns a failure into a pass. */
  lemma MoreFindingsOrLaterNeverHelps(r: Rules, exs: seq<Entry>, fs: seq<Finding>, more: seq<Finding>, later: int)
    requires r.today <= later
    requires Report(r.(today := later), exs, fs + more) == []
    ensures Report(r, exs, fs) == []
  {
    var r' := r.(today := later);
    GateDecidesRule(r', exs, fs + more);
    GateDecidesRule(r, exs, fs);
    SoundIgnoresDate(r, later, exs);
    forall i | 0 <= i < |fs|
      ensures FindingCovered(r, exs, fs, i)
    {
      CoverIsKept(r, later, exs, fs, more, i);
    }
  }

  lemma SoundIgnoresDate(r: Rules, later: int, exs: seq<Entry>)
    ensures Sound(r, exs) <==> Sound(r.(today := later), exs)
  {
    forall e
      ensures Acceptable(r.(today := later), e) <==> Acceptable(r, e)
      ensures ExceptionKey(r.(today := later), e) == ExceptionKey(r, e)
    {
    }
  }

  lemma FindingIgnoresDate(r: Rules, later: int, f: Finding)
    ensures var r' := r.(today := later);
            && (Relevant(r', f) <==> Relevant(r, f)) && (HasAdvisory(r', f) <==> HasAdvisory(r, f))
            && FindingKey(r', f) == FindingKey(r, f)
  {
  }

  lemma ExcusesEarlier(r: Rules, later: int, e: Entry, f: Finding)
    requires r.today <= later && Excuses(r.(today := later), e, f)
    ensures Excuses(r, e, f)
  {
  }

  lemma CoverIsKept(r: Rules, later: int, exs: seq<Entry>, fs: seq<Finding>, more: seq<Finding>, i: nat)
    requires r.today <= later && i < |fs|
    requires Covered(r.(today := later), exs, fs + more)
    ensures FindingCovered(r, exs, fs, i)
  {
    var r', all, f := r.(today := later), fs + more, fs[i];
    assert all[i] == f;
    FindingIgnoresDate(r, later, f);
    assert FindingCovered(r', exs, all, i);
    if Relevant(r, f) && IsFirst(r, fs, i) {
      assert IsFirst(r', all, i) by {
        forall j | 0 <= j < i && Relevant(r', all[j])
          ensures FindingKey(r', all[j]) != FindingKey(r', all[i])
        {
          FindingIgnoresDate(r, later, fs[j]);
          assert all[j] == fs[j];
        }
      }
      var e :| 0 <= e < |exs| && Excuses(r', exs[e], f);
      ExcusesEarlier(r, later, exs[e], f);
    }
  }
}
