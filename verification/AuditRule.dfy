/**
 The gate's rule in the script's own terms: stripped and lower-cased texts of named fields, with
 none of the normalisations and keys that the gate computes with.
 */
module AuditRule {
  import opened Options
  import opened Text
  import opened ExceptionList
  import opened AuditGate

  // ------------------------------------------------------------------ one exception, one finding

  predicate Filled(e: Entry, field: string) {
    field in e && e[field] != ""
  }

  predicate AllFilled(e: Entry) {
    && Filled(e, "package") && Filled(e, "advisory") && Filled(e, "severity")
    && Filled(e, "mitigation") && Filled(e, "expires_on")
  }

  predicate Dated(r: Rules, e: Entry)
    requires AllFilled(e)
  {
    r.parseDate(e["expires_on"]).Some?
  }

  predicate Named(r: Rules, e: Entry)
    requires AllFilled(e)
  {
    Strip(e["package"]) != "" && r.lower(Strip(e["advisory"])) != ""
  }

  /** An exception the gate accepts on its own. */
  predicate Stands(r: Rules, e: Entry) {
    AllFilled(e) && Dated(r, e) && Named(r, e)
  }

  predicate SameException(r: Rules, a: Entry, b: Entry)
    requires AllFilled(a) && AllFilled(b)
  {
    Strip(a["package"]) == Strip(b["package"]) && r.lower(Strip(a["advisory"])) == r.lower(Strip(b["advisory"]))
  }

  function TextOr(s: Option<string>): string {
    match s
    case None => ""
    case Some(t) => t
  }

  function FindingSeverity(r: Rules, f: Finding): string {
    r.lower(Strip(TextOr(f.severity)))
  }

  function FindingAdvisory(r: Rules, f: Finding): string {
    match f.advisory
    case None => ""
    case Some(t) => r.lower(Strip(t))
  }

  /** A finding the gate looks at: high or critical, under a name that is not empty. */
  predicate Counts(r: Rules, f: Finding) {
    && TextOr(f.name) != ""
    && (FindingSeverity(r, f) == "high" || FindingSeverity(r, f) == "critical")
  }

  predicate SameFinding(r: Rules, f: Finding, g: Finding) {
    Strip(TextOr(f.name)) == Strip(TextOr(g.name)) && FindingAdvisory(r, f) == FindingAdvisory(r, g)
  }

  /** The exception is for this finding, not expired, and of blank or the same severity. */
  predicate Permits(r: Rules, e: Entry, f: Finding)
    requires Stands(r, e)
  {
    && Strip(e["package"]) == Strip(TextOr(f.name))
    && r.lower(Strip(e["advisory"])) == FindingAdvisory(r, f)
    && (r.lower(Strip(e["severity"])) == "" || r.lower(Strip(e["severity"])) == FindingSeverity(r, f))
    && r.today <= r.parseDate(e["expires_on"]).value
  }

  // ------------------------------------------------------------------ the rule

  ghost predicate AllStand(r: Rules, exs: seq<Entry>) {
    forall i :: 0 <= i < |exs| ==> Stands(r, exs[i])
  }

  ghost predicate NoTwins(r: Rules, exs: seq<Entry>)
    requires AllStand(r, exs)
  {
    forall i, j :: 0 <= i < j < |exs| ==> !SameException(r, exs[i], exs[j])
  }

  ghost predicate Permitted(r: Rules, exs: seq<Entry>, f: Finding)
    requires AllStand(r, exs)
  {
    exists i :: 0 <= i < |exs| && Permits(r, exs[i], f)
  }

  ghost predicate ComesFirst(r: Rules, fs: seq<Finding>, i: nat)
    requires i < |fs|
  {
    forall j :: 0 <= j < i && Counts(r, fs[j]) ==> !SameFinding(r, fs[j], fs[i])
  }

  ghost predicate FindingPasses(r: Rules, exs: seq<Entry>, fs: seq<Finding>, i: nat)
    requires AllStand(r, exs) && i < |fs|
  {
    Counts(r, fs[i]) ==>
      FindingAdvisory(r, fs[i]) != "" && (ComesFirst(r, fs, i) ==> Permitted(r, exs, fs[i]))
  }

  ghost predicate Rule(r: Rules, exs: seq<Entry>, fs: seq<Finding>) {
    && AllStand(r, exs) && NoTwins(r, exs)
    && forall i :: 0 <= i < |fs| ==> FindingPasses(r, exs, fs, i)
  }

  // ------------------------------------------------------------------ the gate enforces it

  lemma StandsIff(r: Rules, e: Entry)
    ensures Acceptable(r, e) <==> Stands(r, e)
    ensures Stands(r, e) ==>
              && ExceptionKey(r, e) == (Strip(e["package"]), r.lower(Strip(e["advisory"])))
              && NormalSeverity(r, Get(e, "severity")) == r.lower(Strip(e["severity"]))
              && ExpiryDate(r, e) == r.parseDate(e["expires_on"])
  {
  }

  lemma FindingIs(r: Rules, f: Finding)
    ensures Relevant(r, f) <==> Counts(r, f)
    ensures SeverityOf(r, f) == FindingSeverity(r, f)
    ensures HasAdvisory(r, f) <==> FindingAdvisory(r, f) != ""
    ensures FindingKey(r, f) == (Strip(TextOr(f.name)), FindingAdvisory(r, f))
  {
  }

  lemma PermitsIff(r: Rules, e: Entry, f: Finding)
    requires Stands(r, e)
    ensures Excuses(r, e, f) <==> Permits(r, e, f)
  {
    StandsIff(r, e);
    FindingIs(r, f);
  }

  lemma SoundIff(r: Rules, exs: seq<Entry>)
    ensures Sound(r, exs) <==> AllStand(r, exs) && NoTwins(r, exs)
  {
    forall i | 0 <= i < |exs|
      ensures Acceptable(r, exs[i]) <==> Stands(r, exs[i])
    {
      StandsIff(r, exs[i]);
    }
    if AllStand(r, exs) {
      forall i, j | 0 <= i < j < |exs|
        ensures ExceptionKey(r, exs[i]) == ExceptionKey(r, exs[j]) <==> SameException(r, exs[i], exs[j])
      {
        StandsIff(r, exs[i]);
        StandsIff(r, exs[j]);
      }
    }
  }

  lemma PermittedIff(r: Rules, exs: seq<Entry>, f: Finding)
    requires AllStand(r, exs)
    ensures Excused(r, exs, f) <==> Permitted(r, exs, f)
  {
    forall i | 0 <= i < |exs|
      ensures Excuses(r, exs[i], f) <==> Permits(r, exs[i], f)
    {
      PermitsIff(r, exs[i], f);
    }
  }

  lemma FirstIff(r: Rules, fs: seq<Finding>, i: nat)
    requires i < |fs|
    ensures IsFirst(r, fs, i) <==> ComesFirst(r, fs, i)
  {
    FindingIs(r, fs[i]);
    forall j | 0 <= j < i
      ensures Relevant(r, fs[j]) <==> Counts(r, fs[j])
      ensures FindingKey(r, fs[j]) == FindingKey(r, fs[i]) <==> SameFinding(r, fs[j], fs[i])
    {
      FindingIs(r, fs[j]);
    }
  }

  /** The gate reports nothing iff the rule holds. */
  lemma GateEnforcesRule(r: Rules, exs: seq<Entry>, fs: seq<Finding>)
    ensures Report(r, exs, fs) == [] <==> Rule(r, exs, fs)
  {
    GateDecidesRule(r, exs, fs);
    SoundIff(r, exs);
    if AllStand(r, exs) {
      forall i | 0 <= i < |fs|
        ensures FindingCovered(r, exs, fs, i) <==> FindingPasses(r, exs, fs, i)
      {
        FindingIs(r, fs[i]);
        FirstIff(r, fs, i);
        PermittedIff(r, exs, fs[i]);
      }
    }
  }

  /**
   One high or critical finding under one exception passes iff the exception's five fields are
   there, its date parses and is not past, packages agree up to outer whitespace, advisories and
   severities also up to case, the advisory is not blank and the severity may be.
   */
  lemma SinglePassesIff(r: Rules, e: Entry, f: Finding)
    requires Counts(r, f)
    ensures Report(r, [e], [f]) == [] <==>
              && AllFilled(e)
              && r.parseDate(e["expires_on"]).Some? && r.today <= r.parseDate(e["expires_on"]).value
              && Strip(e["package"]) != "" && Strip(e["package"]) == Strip(TextOr(f.name))
              && f.advisory.Some? && r.lower(Strip(e["advisory"])) != ""
              && r.lower(Strip(e["advisory"])) == r.lower(Strip(f.advisory.value))
              && (r.lower(Strip(e["severity"])) == "" ||
                  r.lower(Strip(e["severity"])) == r.lower(Strip(TextOr(f.severity))))
  {
    GateEnforcesRule(r, [e], [f]);
    assert AllStand(r, [e]) <==> Stands(r, [e][0]);
    if Stands(r, e) {
      SingleRule(r, e, f);
    }
  }

  lemma SingleRule(r: Rules, e: Entry, f: Finding)
    requires Stands(r, e) && Counts(r, f)
    ensures Rule(r, [e], [f]) <==> FindingAdvisory(r, f) != "" && Permits(r, e, f)
  {
    var exs, fs := [e], [f];
    assert AllStand(r, exs) && NoTwins(r, exs);
    assert ComesFirst(r, fs, 0);
    assert Permitted(r, exs, f) <==> Permits(r, exs[0], f);
    assert FindingPasses(r, exs, fs, 0) <==> FindingAdvisory(r, f) != "" && Permits(r, e, f);
    assert Rule(r, exs, fs) <==> FindingPasses(r, exs, fs, 0);
  }

  // ------------------------------------------------------------------ spelling

  /** Written alike but for outer whitespace and, in advisory and severity, case. */
  predicate SameSpelling(r: Rules, f: Finding, g: Finding) {
    && (TextOr(f.name) == "" <==> TextOr(g.name) == "")
    && Strip(TextOr(f.name)) == Strip(TextOr(g.name))
    && FindingAdvisory(r, f) == FindingAdvisory(r, g)
    && FindingSeverity(r, f) == FindingSeverity(r, g)
  }

  predicate SameEntrySpelling(r: Rules, a: Entry, b: Entry) {
    && (AllFilled(a) <==> AllFilled(b))
    && (AllFilled(a) ==>
          && Strip(a["package"]) == Strip(b["package"])
          && r.lower(Strip(a["advisory"])) == r.lower(Strip(b["advisory"]))
          && r.lower(Strip(a["severity"])) == r.lower(Strip(b["severity"]))
          && r.parseDate(a["expires_on"]) == r.parseDate(b["expires_on"]))
  }

  ghost predicate Respelled(r: Rules, exs: seq<Entry>, exs': seq<Entry>, fs: seq<Finding>, fs': seq<Finding>) {
    && |exs| == |exs'| && (forall i :: 0 <= i < |exs| ==> SameEntrySpelling(r, exs[i], exs'[i]))
    && |fs| == |fs'| && (forall i :: 0 <= i < |fs| ==> SameSpelling(r, fs[i], fs'[i]))
  }

  lemma RespelledRule(r: Rules, exs: seq<Entry>, exs': seq<Entry>, fs: seq<Finding>, fs': seq<Finding>)
    requires Respelled(r, exs, exs', fs, fs') && Rule(r, exs, fs)
    ensures Rule(r, exs', fs')
  {
    forall i | 0 <= i < |exs'|
      ensures Stands(r, exs'[i])
    {
      assert Stands(r, exs[i]) && SameEntrySpelling(r, exs[i], exs'[i]);
    }
    forall i, j | 0 <= i < j < |exs'|
      ensures !SameException(r, exs'[i], exs'[j])
    {
      assert !SameException(r, exs[i], exs[j]);
      assert SameEntrySpelling(r, exs[i], exs'[i]) && SameEntrySpelling(r, exs[j], exs'[j]);
    }
    forall i | 0 <= i < |fs'|
      ensures FindingPasses(r, exs', fs', i)
    {
      RespelledFinding(r, exs, exs', fs, fs', i);
    }
  }

  lemma RespelledFinding(r: Rules, exs: seq<Entry>, exs': seq<Entry>, fs: seq<Finding>, fs': seq<Finding>, i: nat)
    requires Respelled(r, exs, exs', fs, fs') && AllStand(r, exs) && AllStand(r, exs') && i < |fs|
    requires FindingPasses(r, exs, fs, i)
    ensures FindingPasses(r, exs', fs', i)
  {
    assert SameSpelling(r, fs[i], fs'[i]);
    if Counts(r, fs'[i]) && ComesFirst(r, fs', i) {
      forall j | 0 <= j < i && Counts(r, fs[j])
        ensures !SameFinding(r, fs[j], fs[i])
      {
        assert SameSpelling(r, fs[j], fs'[j]) && !SameFinding(r, fs'[j], fs'[i]);
      }
      assert ComesFirst(r, fs, i) && Permitted(r, exs, fs[i]);
      var k :| 0 <= k < |exs| && Permits(r, exs[k], fs[i]);
      assert SameEntrySpelling(r, exs[k], exs'[k]);
      assert Permits(r, exs'[k], fs'[i]);
    }
  }

  /**
   Outer whitespace of packages, advisories and severities, and the case of the latter two, never
   change the verdict of any run.
   */
  lemma SpellingIsIrrelevant(r: Rules, exs: seq<Entry>, exs': seq<Entry>, fs: seq<Finding>, fs': seq<Finding>)
    requires Respelled(r, exs, exs', fs, fs')
    ensures Report(r, exs, fs) == [] <==> Report(r, exs', fs') == []
  {
    GateEnforcesRule(r, exs, fs);
    GateEnforcesRule(r, exs', fs');
    if Rule(r, exs, fs) {
      RespelledRule(r, exs, exs', fs, fs');
    }
    if Rule(r, exs', fs') {
      RespelledRule(r, exs', exs, fs', fs);
    }
  }

  // ------------------------------------------------------------------ what is reported

  /** Which exceptions are refused for what, and what is kept of the others. */
  lemma RefusalSays(r: Rules, e: Entry)
    ensures Assess(r, e) ==
            if !AllFilled(e) then Refused(MissingFields(e))
            else if !Dated(r, e) then Refused(InvalidDate(e))
            else if !Named(r, e) then Refused(BlankKey)
            else Accepted((Strip(e["package"]), r.lower(Strip(e["advisory"]))),
                          Indexed(e, r.lower(Strip(e["severity"])), r.parseDate(e["expires_on"]).value))
  {
  }

  /** Which findings are ignored, which reported as unidentified, and under what key the others go. */
  lemma SightingSays(r: Rules, f: Finding)
    ensures Sight(r, f) ==
            if !Counts(r, f) then Ignored
            else if FindingAdvisory(r, f) == "" then Unidentified(MissingAdvisory(f, FindingSeverity(r, f)))
            else Sighted((Strip(TextOr(f.name)), FindingAdvisory(r, f)), FindingSeverity(r, f), f)
  {
    FindingIs(r, f);
  }
}
