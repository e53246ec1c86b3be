/**
 The audit report: the findings the script draws from its two formats, and what a passing gate
 says about the report itself.
 */
module AuditReport {
  import opened Options
  import opened ExceptionList
  import opened AuditGate
  import opened AuditGateOrder
  import AuditRule

  /** A decoded JSON text or number. */
  datatype Scalar = Str(s: string) | Num(n: int)

  type Field = Option<Scalar>

  /** An entry of `advisories`. */
  datatype Advisory = Advisory(
    moduleName: Option<string>, name: Option<string>, severity: Option<string>,
    githubId: Field, url: Field, cves: seq<Field>, id: Field, title: Field, advisory: Field, overview: Field)

  /** An element of a `via` list: an object, a text, or anything else. */
  datatype ViaItem =
    | Detail(githubId: Field, url: Field, source: Field, title: Field, advisory: Field, name: Field)
    | Plain(text: string)
    | OtherItem

  datatype Via = Items(items: seq<ViaItem>) | Single(text: string) | OtherVia

  /** The name is the entry's key in `vulnerabilities`. */
  datatype Vulnerability = Vulnerability(name: string, severity: Option<string>, via: Via)

  /** A decoded report; a section that is missing or not an object has no entries. */
  datatype Audit = Audit(advisories: seq<Advisory>, vulnerabilities: seq<Vulnerability>)

  /** Joining titles that are not all texts raises an error. */
  datatype ReadResult<+T> = Read(value: T) | TitleNotText(name: string)

  // ------------------------------------------------------------------ identifiers and titles

  predicate Truthy(f: Field) {
    f.Some? && f.value != Str("") && f.value != Num(0)
  }

  /** The value of `a or b or ...`. */
  function FirstOf(options: seq<Field>): (r: Field)
    requires options != []
    ensures Truthy(r) <==> exists i :: 0 <= i < |options| && Truthy(options[i])
    ensures Truthy(r) ==>
              exists i :: 0 <= i < |options| && r == options[i] && forall j :: 0 <= j < i ==> !Truthy(options[j])
    ensures !Truthy(r) ==> r == options[|options| - 1]
  {
    if |options| == 1 then
      assert Truthy(options[0]) ==> options[0] == options[0];
      options[0]
    else if Truthy(options[0]) then options[0]
    else
      var r := FirstOf(options[1..]);
      assert forall i :: 0 <= i < |options| - 1 ==> options[1..][i] == options[i + 1];
      r
  }

  function Printed(show: int -> string, f: Field): Option<string> {
    match f
    case None => None
    case Some(Str(s)) => Some(s)
    case Some(Num(n)) => Some(show(n))
  }

  function PickAdvisoryId(show: int -> string, a: Advisory): Field {
    var printed := Printed(show, a.id);
    FirstOf([a.githubId, a.url, if a.cves == [] then None else a.cves[0],
             if printed.Some? then Some(Str(printed.value)) else None, a.title, a.advisory, a.overview])
  }

  function AdvisoryFinding(show: int -> string, a: Advisory): Finding {
    Finding(if Or(a.moduleName, "") != "" then a.moduleName else a.name, a.severity,
            Printed(show, PickAdvisoryId(show, a)),
            Printed(show, FirstOf([a.title, a.advisory, a.overview, a.url])))
  }

  function ItemsOf(via: Via): seq<ViaItem> {
    match via
    case Items(items) => items
    case Single(text) => [Plain(text)]
    case OtherVia => []
  }

  function IdOf(item: ViaItem): Field {
    match item
    case Detail(githubId, url, source, title, _, name) => FirstOf([githubId, url, source, title, name])
    case Plain(text) => Some(Str(text))
    case OtherItem => None
  }

  function TitleOf(item: ViaItem): Field {
    match item
    case Detail(_, url, source, title, advisory, _) => FirstOf([title, url, advisory, source])
    case Plain(text) => Some(Str(text))
    case OtherItem => None
  }

  /** The values that count as true, in order. */
  function TruthyOnes(fs: seq<Field>): (r: seq<Scalar>)
    ensures forall x :: x in r <==> Truthy(Some(x)) && Some(x) in fs
  {
    if fs == [] then []
    else
      var n := |fs| - 1;
      assert fs == fs[..n] + [fs[n]];
      TruthyOnes(fs[..n]) + if Truthy(fs[n]) then [fs[n].value] else []
  }

  function Ids(items: seq<ViaItem>): (r: seq<Field>)
    ensures |r| == |items|
    ensures forall i :: 0 <= i < |r| ==> r[i] == IdOf(items[i])
  {
    seq(|items|, i requires 0 <= i < |items| => IdOf(items[i]))
  }

  function Titles(items: seq<ViaItem>): (r: seq<Field>)
    ensures |r| == |items|
    ensures forall i :: 0 <= i < |r| ==> r[i] == TitleOf(items[i])
  {
    seq(|items|, i requires 0 <= i < |items| => TitleOf(items[i]))
  }

  /** `"; ".join(...)`, which refuses numbers. */
  function JoinTitles(titles: seq<Scalar>): (r: Option<string>)
    ensures r.None? <==> exists x :: x in titles && x.Num?
  {
    if titles == [] then Some("")
    else
      var n := |titles| - 1;
      assert titles == titles[..n] + [titles[n]];
      var before := JoinTitles(titles[..n]);
      if before.None? || titles[n].Num? then None
      else Some(if n == 0 then titles[n].s else before.value + "; " + titles[n].s)
  }

  // ------------------------------------------------------------------ one vulnerability

  /** What the script keeps of a vulnerability: its identifiers and its joined titles, if they join. */
  datatype Summary = Summary(name: string, severity: Option<string>, ids: seq<Scalar>, title: Option<string>)

  function Summarize(v: Vulnerability): Summary {
    var items := ItemsOf(v.via);
    Summary(v.name, v.severity, TruthyOnes(Ids(items)), JoinTitles(TruthyOnes(Titles(items))))
  }

  /** The identifiers kept are those of the `via` items that have one. */
  lemma IdsKept(v: Vulnerability, id: Scalar)
    ensures id in Summarize(v).ids <==>
              exists item :: item in ItemsOf(v.via) && IdOf(item) == Some(id) && Truthy(Some(id))
  {
    var items := ItemsOf(v.via);
    assert Some(id) in Ids(items) <==> exists k :: 0 <= k < |items| && Ids(items)[k] == Some(id);
    if k :| 0 <= k < |items| && Ids(items)[k] == Some(id) {
      assert items[k] in items && IdOf(items[k]) == Some(id);
    }
  }

  /** The titles fail to join iff some item has only a number to offer as its title. */
  lemma TitlesKept(v: Vulnerability)
    ensures Summarize(v).title.None? <==>
              exists item :: item in ItemsOf(v.via) && Truthy(TitleOf(item)) && TitleOf(item).value.Num?
  {
    var items := ItemsOf(v.via);
    var titles := Titles(items);
    if Summarize(v).title.None? {
      var x :| x in TruthyOnes(titles) && x.Num?;
      var k :| 0 <= k < |titles| && titles[k] == Some(x);
      assert items[k] in items && TitleOf(items[k]) == Some(x);
    }
    if item :| item in items && Truthy(TitleOf(item)) && TitleOf(item).value.Num? {
      var k :| 0 <= k < |items| && items[k] == item;
      assert titles[k] == TitleOf(item);
      assert TitleOf(item).value in TruthyOnes(titles);
    }
  }

  /** The finding of a vulnerability under one of its identifiers. */
  function ViaFinding(show: int -> string, s: Summary, id: Scalar): Finding {
    Finding(Some(s.name), s.severity, Printed(show, Some(id)), s.title)
  }

  function ViaFindings(show: int -> string, s: Summary): (r: seq<Finding>)
    ensures |r| == |s.ids|
    ensures forall k :: 0 <= k < |r| ==> r[k] == ViaFinding(show, s, s.ids[k])
  {
    seq(|s.ids|, k requires 0 <= k < |s.ids| => ViaFinding(show, s, s.ids[k]))
  }

  // ------------------------------------------------------------------ all findings

  function FromAdvisories(show: int -> string, advisories: seq<Advisory>): (r: seq<Finding>)
    ensures |r| == |advisories|
    ensures forall i :: 0 <= i < |r| ==> r[i] == AdvisoryFinding(show, advisories[i])
  {
    seq(|advisories|, i requires 0 <= i < |advisories| => AdvisoryFinding(show, advisories[i]))
  }

  function Summaries(vs: seq<Vulnerability>): (r: seq<Summary>)
    ensures |r| == |vs|
    ensures forall i :: 0 <= i < |r| ==> r[i] == Summarize(vs[i])
  {
    seq(|vs|, i requires 0 <= i < |vs| => Summarize(vs[i]))
  }

  function FromSummaries(show: int -> string, ss: seq<Summary>): (r: ReadResult<seq<Finding>>)
    ensures r.TitleNotText? <==> exists s :: s in ss && s.title.None?
  {
    if ss == [] then Read([])
    else
      var n := |ss| - 1;
      assert ss == ss[..n] + [ss[n]];
      var before := FromSummaries(show, ss[..n]);
      if before.TitleNotText? then before
      else if ss[n].title.None? then TitleNotText(ss[n].name)
      else Read(before.value + ViaFindings(show, ss[n]))
  }

  function FindingsOf(show: int -> string, audit: Audit): ReadResult<seq<Finding>> {
    match FromSummaries(show, Summaries(audit.vulnerabilities))
    case TitleNotText(name) => TitleNotText(name)
    case Read(more) => Read(FromAdvisories(show, audit.advisories) + more)
  }

  /** The identifiers and titles a `via` lists, before the empty ones are dropped. */
  method ListVia(via: Via) returns (ids: seq<Field>, titles: seq<Field>)
    ensures TruthyOnes(ids) == TruthyOnes(Ids(ItemsOf(via)))
    ensures TruthyOnes(titles) == TruthyOnes(Titles(ItemsOf(via)))
  {
    ids, titles := [], [];
    match via
    case Items(items) =>
      ids, titles := ListItems(items);
    case Single(text) =>
      ids, titles := [Some(Str(text))], [Some(Str(text))];
      assert Ids(ItemsOf(via)) == ids && Titles(ItemsOf(via)) == titles;
    case OtherVia =>
      assert Ids(ItemsOf(via)) == ids && Titles(ItemsOf(via)) == titles;
  }

  method ListItems(items: seq<ViaItem>) returns (ids: seq<Field>, titles: seq<Field>)
    ensures TruthyOnes(ids) == TruthyOnes(Ids(items))
    ensures TruthyOnes(titles) == TruthyOnes(Titles(items))
  {
    ids, titles := [], [];
    ghost var allIds, allTitles := Ids(items), Titles(items);
    for i := 0 to |items|
      invariant TruthyOnes(ids) == TruthyOnes(allIds[..i])
      invariant TruthyOnes(titles) == TruthyOnes(allTitles[..i])
    {
      var kept := !items[i].OtherItem?;
      OneMore(ids, allIds, i, kept);
      OneMore(titles, allTitles, i, kept);
      if kept {
        ids, titles := ids + [IdOf(items[i])], titles + [TitleOf(items[i])];
      }
    }
    assert allIds[..|items|] == allIds && allTitles[..|items|] == allTitles;
  }

  lemma OneMore(fs: seq<Field>, all: seq<Field>, i: nat, kept: bool)
    requires i < |all| && TruthyOnes(fs) == TruthyOnes(all[..i])
    requires kept || !Truthy(all[i])
    ensures TruthyOnes(if kept then fs + [all[i]] else fs) == TruthyOnes(all[..i + 1])
  {
    assert (fs + [all[i]])[..|fs|] == fs;
    assert all[..i + 1][..i] == all[..i];
  }

  /** Reads a report: its advisories first, then its vulnerabilities, each under all its identifiers. */
  method IterVulns(show: int -> string, audit: Audit) returns (r: ReadResult<seq<Finding>>)
    ensures r == FindingsOf(show, audit)
  {
    var findings: seq<Finding> := [];
    for i := 0 to |audit.advisories|
      invariant findings == FromAdvisories(show, audit.advisories[..i])
    {
      findings := findings + [AdvisoryFinding(show, audit.advisories[i])];
    }
    assert audit.advisories[..|audit.advisories|] == audit.advisories;
    var more := IterVia(show, audit.vulnerabilities);
    match more
    case TitleNotText(name) => return TitleNotText(name);
    case Read(others) => return Read(findings + others);
  }

  method IterVia(show: int -> string, vs: seq<Vulnerability>) returns (r: ReadResult<seq<Finding>>)
    ensures r == FromSummaries(show, Summaries(vs))
  {
    var findings: seq<Finding> := [];
    ghost var ss := Summaries(vs);
    for i := 0 to |vs|
      invariant FromSummaries(show, ss[..i]) == Read(findings)
    {
      OneMoreSummary(show, ss, i);
      var s := ReadOne(vs[i]);
      if s.title.None? {
        StaysUnreadable(show, ss, i + 1);
        return TitleNotText(s.name);
      }
      findings := Append(show, findings, s);
    }
    assert ss[..|vs|] == ss;
    return Read(findings);
  }

  method ReadOne(v: Vulnerability) returns (s: Summary)
    ensures s == Summarize(v)
  {
    var ids, titles := ListVia(v.via);
    s := Summary(v.name, v.severity, TruthyOnes(ids), JoinTitles(TruthyOnes(titles)));
  }

  method Append(show: int -> string, before: seq<Finding>, s: Summary) returns (findings: seq<Finding>)
    ensures findings == before + ViaFindings(show, s)
  {
    findings := before;
    for k := 0 to |s.ids|
      invariant findings == before + ViaFindings(show, s)[..k]
    {
      findings := findings + [ViaFinding(show, s, s.ids[k])];
    }
  }

  lemma OneMoreSummary(show: int -> string, ss: seq<Summary>, i: nat)
    requires i < |ss| && FromSummaries(show, ss[..i]).Read?
    ensures FromSummaries(show, ss[..i + 1]) ==
            if ss[i].title.None? then TitleNotText(ss[i].name)
            else Read(FromSummaries(show, ss[..i]).value + ViaFindings(show, ss[i]))
  {
    assert ss[..i + 1][..i] == ss[..i];
  }

  /** The first vulnerability whose titles cannot be joined ends the reading. */
  lemma {:induction false} StaysUnreadable(show: int -> string, ss: seq<Summary>, i: nat)
    requires i <= |ss| && FromSummaries(show, ss[..i]).TitleNotText?
    ensures FromSummaries(show, ss) == FromSummaries(show, ss[..i])
    decreases |ss|
  {
    if i < |ss| {
      var rest := ss[..|ss| - 1];
      assert rest[..i] == ss[..i];
      StaysUnreadable(show, rest, i);
    } else {
      assert ss[..i] == ss;
    }
  }

  // ------------------------------------------------------------------ which findings there are

  /** A finding of some vulnerability under one of its identifiers. */
  ghost predicate IsViaFinding(show: int -> string, ss: seq<Summary>, f: Finding) {
    exists s, id :: s in ss && id in s.ids && f == ViaFinding(show, s, id)
  }

  lemma ViaFindingsAre(show: int -> string, s: Summary, f: Finding)
    ensures f in ViaFindings(show, s) <==> exists id :: id in s.ids && f == ViaFinding(show, s, id)
  {
    var fs := ViaFindings(show, s);
    if f in fs {
      var j :| 0 <= j < |fs| && f == fs[j];
      assert s.ids[j] in s.ids;
    }
    if id :| id in s.ids && f == ViaFinding(show, s, id) {
      var j :| 0 <= j < |s.ids| && s.ids[j] == id;
      assert fs[j] == f;
    }
  }

  lemma {:induction false} FromSummariesAre(show: int -> string, ss: seq<Summary>, f: Finding)
    requires FromSummaries(show, ss).Read?
    ensures f in FromSummaries(show, ss).value <==> IsViaFinding(show, ss, f)
    decreases |ss|
  {
    if ss != [] {
      var n := |ss| - 1;
      assert ss == ss[..n] + [ss[n]];
      FromSummariesAre(show, ss[..n], f);
      ViaFindingsAre(show, ss[n], f);
    }
  }

  // ------------------------------------------------------------------ what the gate says about a report

  /** A finding that is of no concern, or is identified and excused. */
  ghost predicate Settled(r: Rules, exs: seq<Entry>, f: Finding) {
    Relevant(r, f) ==> HasAdvisory(r, f) && Excused(r, exs, f)
  }

  ghost predicate AdvisoriesSettled(r: Rules, show: int -> string, exs: seq<Entry>, advisories: seq<Advisory>) {
    forall a :: a in advisories ==> Settled(r, exs, AdvisoryFinding(show, a))
  }

  /** Every vulnerability is settled under each identifier it lists. */
  ghost predicate ViasSettled(r: Rules, show: int -> string, exs: seq<Entry>, ss: seq<Summary>) {
    forall s, id :: s in ss && id in s.ids ==> Settled(r, exs, ViaFinding(show, s, id))
  }

  ghost predicate AllSettled(r: Rules, exs: seq<Entry>, fs: seq<Finding>) {
    forall f :: f in fs ==> Settled(r, exs, f)
  }

  lemma AllCoveredIsSettled(r: Rules, exs: seq<Entry>, fs: seq<Finding>)
    ensures AllCovered(r, exs, fs) <==> AllSettled(r, exs, fs)
  {
    if AllCovered(r, exs, fs) {
      forall f | f in fs
        ensures Settled(r, exs, f)
      {
        var i :| 0 <= i < |fs| && fs[i] == f;
      }
    }
    if AllSettled(r, exs, fs) {
      forall i | 0 <= i < |fs|
        ensures Settled(r, exs, fs[i])
      {
        assert fs[i] in fs;
      }
    }
  }

  lemma AdvisoriesAllSettled(r: Rules, show: int -> string, exs: seq<Entry>, advisories: seq<Advisory>)
    ensures AllSettled(r, exs, FromAdvisories(show, advisories)) <==> AdvisoriesSettled(r, show, exs, advisories)
  {
    var fs := FromAdvisories(show, advisories);
    if AllSettled(r, exs, fs) {
      forall a | a in advisories
        ensures Settled(r, exs, AdvisoryFinding(show, a))
      {
        var i :| 0 <= i < |advisories| && advisories[i] == a;
        assert fs[i] in fs;
      }
    }
  }

  lemma ViasAllSettled(r: Rules, show: int -> string, exs: seq<Entry>, ss: seq<Summary>)
    requires FromSummaries(show, ss).Read?
    ensures AllSettled(r, exs, FromSummaries(show, ss).value) <==> ViasSettled(r, show, exs, ss)
  {
    var fs := FromSummaries(show, ss).value;
    forall f
      ensures f in fs <==> IsViaFinding(show, ss, f)
    {
      FromSummariesAre(show, ss, f);
    }
    if AllSettled(r, exs, fs) {
      forall s, id | s in ss && id in s.ids
        ensures Settled(r, exs, ViaFinding(show, s, id))
      {
        assert IsViaFinding(show, ss, ViaFinding(show, s, id));
      }
    }
  }

  /**
   On a readable report whose findings agree on severities the gate passes iff the exceptions are
   sound and everything the report lists is settled.
   */
  lemma ReportPassesIff(r: Rules, show: int -> string, exs: seq<Entry>, audit: Audit)
    requires FindingsOf(show, audit).Read? && Consistent(r, FindingsOf(show, audit).value)
    ensures Report(r, exs, FindingsOf(show, audit).value) == [] <==>
              && Sound(r, exs)
              && AdvisoriesSettled(r, show, exs, audit.advisories)
              && ViasSettled(r, show, exs, Summaries(audit.vulnerabilities))
  {
    var ss := Summaries(audit.vulnerabilities);
    var fs := FindingsOf(show, audit).value;
    GateDecidesRule(r, exs, fs);
    ConsistentCover(r, exs, fs);
    AllCoveredIsSettled(r, exs, fs);
    AdvisoriesAllSettled(r, show, exs, audit.advisories);
    ViasAllSettled(r, show, exs, ss);
    AllSettledInBoth(r, exs, FromAdvisories(show, audit.advisories), FromSummaries(show, ss).value);
  }

  lemma AllSettledInBoth(r: Rules, exs: seq<Entry>, a: seq<Finding>, b: seq<Finding>)
    ensures AllSettled(r, exs, a + b) <==> AllSettled(r, exs, a) && AllSettled(r, exs, b)
  {
    if AllSettled(r, exs, a + b) {
      assert forall f :: f in a || f in b ==> f in a + b;
    }
  }

  /** The whole script: no exit code when reading the list or the report raises an error. */
  method CheckAudit(r: Rules, show: int -> string, text: string, audit: Audit) returns (code: Option<int>)
    ensures code.None? <==> Parse(text).NoColon? || FindingsOf(show, audit).TitleNotText?
    ensures code == Some(0) <==>
              && Parse(text).Ok? && FindingsOf(show, audit).Read?
              && AuditRule.Rule(r, Parse(text).value, FindingsOf(show, audit).value)
    ensures code.Some? ==> code.value == 0 || code.value == 1
  {
    var exs := ParseExceptions(text);
    if exs.NoColon? {
      return None;
    }
    var findings := IterVulns(show, audit);
    if findings.TitleNotText? {
      return None;
    }
    var exit, _ := RunGate(r, exs.value, findings.value);
    AuditRule.GateEnforcesRule(r, exs.value, findings.value);
    GateDecidesRule(r, exs.value, findings.value);
    return Some(exit);
  }

  // ------------------------------------------------------------------ what the gate can overlook

  /** High or critical under a name that is not empty. */
  predicate Alarming(r: Rules, name: Option<string>, severity: Option<string>) {
    IsHigh(NormalSeverity(r, severity)) && Or(name, "") != ""
  }

  lemma WithoutExceptions(r: Rules, fs: seq<Finding>)
    ensures Report(r, [], fs) != [] <==> exists i :: 0 <= i < |fs| && Relevant(r, fs[i])
  {
    GateDecidesRule(r, [], fs);
    if i :| 0 <= i < |fs| && Relevant(r, fs[i]) {
      var k := FirstWithKey(r, fs, i);
      assert !FindingCovered(r, [], fs, k);
    }
  }

  /** Without exceptions, an advisory stops the gate iff it is alarming, identified or not. */
  lemma AdvisoryIsNeverOverlooked(r: Rules, show: int -> string, a: Advisory)
    ensures var fs := FromAdvisories(show, [a]);
            Report(r, [], fs) != [] <==>
              Alarming(r, if Or(a.moduleName, "") != "" then a.moduleName else a.name, a.severity)
  {
    var fs := FromAdvisories(show, [a]);
    WithoutExceptions(r, fs);
    assert fs[0] == AdvisoryFinding(show, [a][0]);
    assert Relevant(r, fs[0]) <==> Relevant(r, AdvisoryFinding(show, a));
  }

  /**
   An alarming vulnerability, in contrast, gets past a gate without exceptions iff no item of its
   `via` has an identifier: nothing is then reported for it at all.
   */
  lemma VulnerabilityIsOverlookedIff(r: Rules, show: int -> string, v: Vulnerability)
    requires Alarming(r, Some(v.name), v.severity)
    ensures Report(r, [], ViaFindings(show, Summarize(v))) == [] <==>
              forall item :: item in ItemsOf(v.via) ==> !Truthy(IdOf(item))
  {
    var fs := ViaFindings(show, Summarize(v));
    WithoutExceptions(r, fs);
    NoIdsIff(v);
    assert forall i :: 0 <= i < |fs| ==> Relevant(r, fs[i]);
  }

  /** For instance a vulnerability whose `via` is empty. */
  lemma EmptyViaIsOverlooked(show: int -> string)
    ensures var v := Vulnerability("p", Some("high"), Items([]));
            && Alarming(PLAIN_RULES, Some(v.name), v.severity)
            && FindingsOf(show, Audit([], [v])) == Read([])
            && Report(PLAIN_RULES, [], []) == []
  {
    var v := Vulnerability("p", Some("high"), Items([]));
    var one := Summaries([v]);
    assert one[..0] == [];
    assert one[0].ids == [] && one[0].title == Some("");
    WithoutExceptions(PLAIN_RULES, []);
    assert FromAdvisories(show, []) == [] && ViaFindings(show, one[0]) == [];
  }

  lemma {:induction false} FromSummariesSplit(show: int -> string, a: seq<Summary>, b: seq<Summary>)
    requires FromSummaries(show, a + b).Read?
    ensures FromSummaries(show, a).Read? && FromSummaries(show, b).Read?
    ensures FromSummaries(show, a + b).value == FromSummaries(show, a).value + FromSummaries(show, b).value
    decreases |b|
  {
    if b == [] {
      assert a + b == a;
    } else {
      var n := |b| - 1;
      assert (a + b)[..|a + b| - 1] == a + b[..n];
      FromSummariesSplit(show, a, b[..n]);
    }
  }

  /** The findings of a list with one summary in its middle. */
  lemma FromSummariesAround(show: int -> string, before: seq<Summary>, s: Summary, after: seq<Summary>)
    requires FromSummaries(show, before + [s] + after).Read?
    ensures FromSummaries(show, before).Read? && FromSummaries(show, after).Read?
    ensures FromSummaries(show, before + [s] + after).value ==
            FromSummaries(show, before).value + ViaFindings(show, s) + FromSummaries(show, after).value
  {
    FromSummariesSplit(show, before + [s], after);
    assert (before + [s])[..|before|] == before;
  }

  lemma {:induction false} FromSummariesJoin(show: int -> string, a: seq<Summary>, b: seq<Summary>)
    requires FromSummaries(show, a).Read? && FromSummaries(show, b).Read?
    ensures FromSummaries(show, a + b).Read?
    ensures FromSummaries(show, a + b).value == FromSummaries(show, a).value + FromSummaries(show, b).value
  {
    FromSummariesSplit(show, a, b);
  }

  lemma SummariesAround(before: seq<Vulnerability>, v: Vulnerability, after: seq<Vulnerability>)
    ensures Summaries(before + [v] + after) == Summaries(before) + [Summarize(v)] + Summaries(after)
    ensures Summaries(before + after) == Summaries(before) + Summaries(after)
  {
    PointwiseAround(Summarize, before, v, after,
                    Summaries(before), Summaries(after), Summaries(before + [v] + after), Summaries(before + after));
  }

  ghost predicate Pointwise<A, B>(f: A -> B, xs: seq<A>, ys: seq<B>) {
    |ys| == |xs| && forall i :: 0 <= i < |xs| ==> ys[i] == f(xs[i])
  }

  lemma PointwiseAround<A, B>(f: A -> B, a: seq<A>, x: A, b: seq<A>,
                              fa: seq<B>, fb: seq<B>, with: seq<B>, without: seq<B>)
    requires Pointwise(f, a, fa) && Pointwise(f, b, fb)
    requires Pointwise(f, a + [x] + b, with) && Pointwise(f, a + b, without)
    ensures with == fa + [f(x)] + fb && without == fa + fb
  {
  }

  /** Leaving a vulnerability out of a readable report changes the findings iff it is kept under some identifier. */
  lemma VulnerabilityContributes(show: int -> string, advisories: seq<Advisory>,
                                 before: seq<Vulnerability>, v: Vulnerability, after: seq<Vulnerability>)
    requires FindingsOf(show, Audit(advisories, before + [v] + after)).Read?
    ensures FindingsOf(show, Audit(advisories, before + [v] + after)) ==
            FindingsOf(show, Audit(advisories, before + after)) <==>
            Summarize(v).ids == []
  {
    SummariesAround(before, v, after);
    SummaryContributesIff(show, FromAdvisories(show, advisories), Summaries(before), Summarize(v), Summaries(after));
  }

  /**
   In any readable report, and so for any exceptions: leaving a vulnerability out changes the
   findings iff some item of its `via` has an identifier.
   */
  lemma VulnerabilityContributesIff(show: int -> string, advisories: seq<Advisory>,
                                    before: seq<Vulnerability>, v: Vulnerability, after: seq<Vulnerability>)
    requires FindingsOf(show, Audit(advisories, before + [v] + after)).Read?
    ensures FindingsOf(show, Audit(advisories, before + [v] + after)) ==
            FindingsOf(show, Audit(advisories, before + after)) <==>
            forall item :: item in ItemsOf(v.via) ==> !Truthy(IdOf(item))
  {
    VulnerabilityContributes(show, advisories, before, v, after);
    NoIdsIff(v);
  }

  lemma SummaryContributesIff(show: int -> string, first: seq<Finding>, a: seq<Summary>, s: Summary, b: seq<Summary>)
    requires FromSummaries(show, a + [s] + b).Read?
    ensures FromSummaries(show, a + b).Read?
    ensures first + FromSummaries(show, a + [s] + b).value == first + FromSummaries(show, a + b).value <==> s.ids == []
  {
    FromSummariesAround(show, a, s, b);
    FromSummariesJoin(show, a, b);
    Insertion(first, FromSummaries(show, a).value, ViaFindings(show, s), FromSummaries(show, b).value);
  }

  lemma NoIdsIff(v: Vulnerability)
    ensures Summarize(v).ids == [] <==> forall item :: item in ItemsOf(v.via) ==> !Truthy(IdOf(item))
  {
    var ids := Summarize(v).ids;
    if ids != [] {
      IdsKept(v, ids[0]);
    }
    if item :| item in ItemsOf(v.via) && Truthy(IdOf(item)) {
      IdsKept(v, IdOf(item).value);
    }
  }

  lemma Insertion<T>(first: seq<T>, a: seq<T>, middle: seq<T>, b: seq<T>)
    ensures first + (a + middle + b) == first + (a + b) <==> middle == []
  {
    assert |first + (a + middle + b)| == |first + (a + b)| + |middle|;
    assert a + [] == a;
  }

  /** A report whose only title is a number cannot be read. */
  lemma NumericTitleIsUnreadable(show: int -> string)
    ensures var item := Detail(None, None, Some(Num(7)), None, None, None);
            FindingsOf(show, Audit([], [Vulnerability("p", Some("high"), Items([item]))])) == TitleNotText("p")
  {
    var item := Detail(None, None, Some(Num(7)), None, None, None);
    var v := Vulnerability("p", Some("high"), Items([item]));
    NumericTitle(item, v);
    var one := Summaries([v]);
    assert one[..0] == [] && one[0].name == "p";
  }

  lemma NumericTitle(item: ViaItem, v: Vulnerability)
    requires item == Detail(None, None, Some(Num(7)), None, None, None) && v.via == Items([item])
    ensures Summarize(v).title == None
  {
    assert Truthy(Some(Num(7)));
    assert TitleOf(item) == Some(Num(7)) by {
      assert [None, None, None, Some(Num(7))][3] == Some(Num(7));
    }
    assert item in ItemsOf(v.via);
    TitlesKept(v);
  }

  // ------------------------------------------------------------------ which fields findings are made of

  /** A field that is there and neither empty nor zero. */
  predicate Given(f: Field) {
    match f
    case None => false
    case Some(Str(s)) => s != ""
    case Some(Num(n)) => n != 0
  }

  /** The identifier of an advisory: GitHub's, the address, the first CVE, the number, or one of its texts. */
  lemma AdvisoryIdIs(show: int -> string, a: Advisory)
    ensures var r := PickAdvisoryId(show, a);
            var number := a.id.Some? && (if a.id.value.Num? then show(a.id.value.n) != "" else a.id.value.s != "");
            && (Given(a.githubId) ==> r == a.githubId)
            && (!Given(a.githubId) && Given(a.url) ==> r == a.url)
            && (!Given(a.githubId) && !Given(a.url) && a.cves != [] && Given(a.cves[0]) ==> r == a.cves[0])
            && (!Given(a.githubId) && !Given(a.url) && (a.cves == [] || !Given(a.cves[0])) ==>
                  if number then r == Some(Str(if a.id.value.Num? then show(a.id.value.n) else a.id.value.s))
                  else r == if Given(a.title) then a.title else if Given(a.advisory) then a.advisory else a.overview)
  {
    TruthyIsGiven();
    var printed := Printed(show, a.id);
    var cve: Field := if a.cves == [] then None else a.cves[0];
    var id: Field := if printed.Some? then Some(Str(printed.value)) else None;
    ChainOfSeven(a.githubId, a.url, cve, id, a.title, a.advisory, a.overview);
  }

  lemma TruthyIsGiven()
    ensures forall f: Field :: Truthy(f) <==> Given(f)
  {
  }

  lemma ChainOfSeven(a: Field, b: Field, c: Field, d: Field, e: Field, f: Field, g: Field)
    ensures FirstOf([a, b, c, d, e, f, g]) ==
            if Truthy(a) then a else if Truthy(b) then b else if Truthy(c) then c else if Truthy(d) then d
            else if Truthy(e) then e else if Truthy(f) then f else g
  {
    ChainOfFive(c, d, e, f, g);
    assert [b, c, d, e, f, g][1..] == [c, d, e, f, g];
    assert [a, b, c, d, e, f, g][1..] == [b, c, d, e, f, g];
  }

  lemma ChainOfFive(a: Field, b: Field, c: Field, d: Field, e: Field)
    ensures FirstOf([a, b, c, d, e]) ==
            if Truthy(a) then a else if Truthy(b) then b else if Truthy(c) then c else if Truthy(d) then d else e
  {
    ChainOfFour(b, c, d, e);
    assert [a, b, c, d, e][1..] == [b, c, d, e];
  }

  lemma ChainOfFour(a: Field, b: Field, c: Field, d: Field)
    ensures FirstOf([a, b, c, d]) == if Truthy(a) then a else if Truthy(b) then b else if Truthy(c) then c else d
  {
    assert FirstOf([d]) == d;
    assert [c, d][1..] == [d];
    assert FirstOf([c, d]) == if Truthy(c) then c else d;
    assert [b, c, d][1..] == [c, d];
    assert FirstOf([b, c, d]) == if Truthy(b) then b else FirstOf([c, d]);
    assert [a, b, c, d][1..] == [b, c, d];
  }

  /** The finding of an advisory: its package, severity, identifier and title. */
  lemma AdvisoryFindingIs(show: int -> string, a: Advisory)
    ensures var f := AdvisoryFinding(show, a);
            && f.name == (if a.moduleName.Some? && a.moduleName.value != "" then a.moduleName else a.name)
            && f.severity == a.severity
            && PrintsAs(show, PickAdvisoryId(show, a), f.advisory)
            && PrintsAs(show, if Given(a.title) then a.title else if Given(a.advisory) then a.advisory
                              else if Given(a.overview) then a.overview else a.url, f.title)
  {
    TruthyIsGiven();
    ChainOfFour(a.title, a.advisory, a.overview, a.url);
  }

  predicate PrintsAs(show: int -> string, f: Field, printed: Option<string>) {
    match f
    case None => printed == None
    case Some(Str(s)) => printed == Some(s)
    case Some(Num(n)) => printed == Some(show(n))
  }

  /** The identifier and the title of a `via` object: which of its fields come first. */
  lemma DetailIs(item: ViaItem)
    requires item.Detail?
    ensures IdOf(item) ==
            if Given(item.githubId) then item.githubId else if Given(item.url) then item.url
            else if Given(item.source) then item.source else if Given(item.title) then item.title else item.name
    ensures TitleOf(item) ==
            if Given(item.title) then item.title else if Given(item.url) then item.url
            else if Given(item.advisory) then item.advisory else item.source
  {
    TruthyIsGiven();
    ChainOfFive(item.githubId, item.url, item.source, item.title, item.name);
    ChainOfFour(item.title, item.url, item.advisory, item.source);
  }

  /** A text in a `via` is identifier and title at once; anything else is neither. */
  lemma OtherItemsAre(text: string)
    ensures IdOf(Plain(text)) == Some(Str(text)) && TitleOf(Plain(text)) == Some(Str(text))
    ensures IdOf(OtherItem) == None && TitleOf(OtherItem) == None
    ensures ItemsOf(Via.Single(text)) == [Plain(text)] && ItemsOf(OtherVia) == []
  {
  }

  /** The finding of a vulnerability under an identifier. */
  lemma ViaFindingIs(show: int -> string, v: Vulnerability, id: Scalar)
    ensures var f := ViaFinding(show, Summarize(v), id);
            && f.name == Some(v.name) && f.severity == v.severity && f.title == Summarize(v).title
            && PrintsAs(show, Some(id), f.advisory)
  {
  }

  /** Titles are joined in order, with a semicolon and a space between two. */
  lemma TitlesJoin(titles: seq<Scalar>, last: string)
    requires JoinTitles(titles).Some?
    ensures JoinTitles(titles + [Str(last)]) ==
            Some(if titles == [] then last else JoinTitles(titles).value + "; " + last)
  {
    assert (titles + [Str(last)])[..|titles|] == titles;
  }
}
