/**
 The decision of the audit gate: exceptions are indexed by normalised package and advisory, then
 every high or critical finding is looked up once per key.
 */
module AuditGate {
  import opened Options
  import opened Text
  import opened ExceptionList

  /** Lower-casing, ISO date parsing (dates are day numbers) and the current date. */
  datatype Rules = Rules(lower: string -> string, parseDate: string -> Option<int>, today: int)

  type Key = (string, string)

  datatype Finding = Finding(
    name: Option<string>, severity: Option<string>, advisory: Option<string>, title: Option<string>)

  datatype GateError =
    | MissingFields(e: Entry)
    | InvalidDate(e: Entry)
    | BlankKey
    | DuplicateException(key: Key)
    | MissingAdvisory(f: Finding, severity: string)
    | SeverityMismatch(f: Finding, expected: string, got: string)
    | MissingHeader
    | MissingException(f: Finding, severity: string)
    | ExpiredHeader
    | Expired(f: Finding, severity: string, date: int)

  // ------------------------------------------------------------------ normalisation

  function Or(s: Option<string>, default: string): string {
    if s.Some? then s.value else default
  }

  function NormalSeverity(r: Rules, s: Option<string>): string {
    r.lower(Strip(Or(s, "")))
  }

  function NormalPackage(s: Option<string>): string {
    Strip(Or(s, ""))
  }

  function NormalAdvisory(r: Rules, s: Option<string>): string {
    if s.None? then "" else r.lower(Strip(s.value))
  }

  function Get(e: Entry, field: string): Option<string> {
    if field in e then Some(e[field]) else None
  }

  // ------------------------------------------------------------------ one exception

  predicate Has(e: Entry, field: string) {
    field in e && e[field] != ""
  }

  predicate Complete(e: Entry) {
    Has(e, "package") && Has(e, "advisory") && Has(e, "severity") && Has(e, "mitigation") && Has(e, "expires_on")
  }

  function ExceptionKey(r: Rules, e: Entry): Key {
    (NormalPackage(Get(e, "package")), NormalAdvisory(r, Get(e, "advisory")))
  }

  function ExpiryDate(r: Rules, e: Entry): Option<int> {
    if "expires_on" in e then r.parseDate(e["expires_on"]) else None
  }

  /** What the index keeps of an exception. */
  datatype Indexed = Indexed(raw: Entry, severity: string, expiresOn: int)

  function IndexedOf(r: Rules, e: Entry): Indexed
    requires ExpiryDate(r, e).Some?
  {
    Indexed(e, NormalSeverity(r, Get(e, "severity")), ExpiryDate(r, e).value)
  }

  /** Complete, validly dated and with a non-blank key. */
  predicate Acceptable(r: Rules, e: Entry) {
    Complete(e) && ExpiryDate(r, e).Some? && ExceptionKey(r, e).0 != "" && ExceptionKey(r, e).1 != ""
  }

  // ------------------------------------------------------------------ one finding

  predicate IsHigh(severity: string) {
    severity == "high" || severity == "critical"
  }

  function SeverityOf(r: Rules, f: Finding): string {
    NormalSeverity(r, f.severity)
  }

  /** High or critical, with a package name. */
  predicate Relevant(r: Rules, f: Finding) {
    IsHigh(SeverityOf(r, f)) && Or(f.name, "") != ""
  }

  function FindingKey(r: Rules, f: Finding): Key {
    (NormalPackage(f.name), NormalAdvisory(r, f.advisory))
  }

  predicate HasAdvisory(r: Rules, f: Finding) {
    NormalAdvisory(r, f.advisory) != ""
  }

  // ------------------------------------------------------------------ what the passes see

  /** An exception as the indexing pass sees it. */
  datatype Candidate = Refused(error: GateError) | Accepted(key: Key, item: Indexed)

  function Assess(r: Rules, e: Entry): Candidate {
    if !Complete(e) then Refused(MissingFields(e))
    else if ExpiryDate(r, e).None? then Refused(InvalidDate(e))
    else if ExceptionKey(r, e).0 == "" || ExceptionKey(r, e).1 == "" then Refused(BlankKey)
    else Accepted(ExceptionKey(r, e), IndexedOf(r, e))
  }

  /** A finding as the lookup pass sees it. */
  datatype Sighting = Ignored | Unidentified(error: GateError) | Sighted(key: Key, severity: string, f: Finding)

  function Sight(r: Rules, f: Finding): Sighting {
    if !Relevant(r, f) then Ignored
    else if !HasAdvisory(r, f) then Unidentified(MissingAdvisory(f, SeverityOf(r, f)))
    else Sighted(FindingKey(r, f), SeverityOf(r, f), f)
  }

  function Candidates(r: Rules, exs: seq<Entry>): (cs: seq<Candidate>)
    ensures |cs| == |exs|
    ensures forall i :: 0 <= i < |cs| ==> cs[i] == Assess(r, exs[i])
  {
    seq(|exs|, i requires 0 <= i < |exs| => Assess(r, exs[i]))
  }

  function Sightings(r: Rules, fs: seq<Finding>): (ss: seq<Sighting>)
    ensures |ss| == |fs|
    ensures forall i :: 0 <= i < |ss| ==> ss[i] == Sight(r, fs[i])
  {
    seq(|fs|, i requires 0 <= i < |fs| => Sight(r, fs[i]))
  }

  // ------------------------------------------------------------------ the two passes

  datatype Catalog = Catalog(index: map<Key, Indexed>, errors: seq<GateError>)

  function AddCandidate(c: Catalog, x: Candidate): Catalog {
    match x
    case Refused(e) => c.(errors := c.errors + [e])
    case Accepted(key, item) =>
      if key in c.index then c.(errors := c.errors + [DuplicateException(key)])
      else c.(index := c.index[key := item])
  }

  function CatalogOf(cs: seq<Candidate>): Catalog {
    if cs == [] then Catalog(map[], []) else AddCandidate(CatalogOf(cs[..|cs| - 1]), cs[|cs| - 1])
  }

  datatype Tally = Tally(seen: set<Key>, errors: seq<GateError>, missing: seq<GateError>, expired: seq<GateError>)

  predicate Contradicts(exc: Indexed, severity: string) {
    exc.severity != "" && exc.severity != severity
  }

  /** The treatment of a key that has not been seen before. */
  function LookUp(today: int, index: map<Key, Indexed>, t: Tally, s: Sighting): Tally
    requires s.Sighted?
  {
    if s.key !in index then t.(missing := t.missing + [MissingException(s.f, s.severity)])
    else
      var exc := index[s.key];
      t.(errors := if Contradicts(exc, s.severity)
                   then t.errors + [SeverityMismatch(s.f, s.severity, exc.severity)] else t.errors,
         expired := if exc.expiresOn < today
                    then t.expired + [Expired(s.f, s.severity, exc.expiresOn)] else t.expired)
  }

  function AddSighting(today: int, index: map<Key, Indexed>, t: Tally, s: Sighting): Tally {
    match s
    case Ignored => t
    case Unidentified(e) => t.(errors := t.errors + [e])
    case Sighted(key, _, _) =>
      if key in t.seen then t else LookUp(today, index, t.(seen := t.seen + {key}), s)
  }

  function TallyOf(today: int, index: map<Key, Indexed>, ss: seq<Sighting>): Tally {
    if ss == [] then Tally({}, [], [], [])
    else AddSighting(today, index, TallyOf(today, index, ss[..|ss| - 1]), ss[|ss| - 1])
  }

  /** All errors, in the order they are reported. */
  function Report(r: Rules, exs: seq<Entry>, fs: seq<Finding>): seq<GateError> {
    var c := CatalogOf(Candidates(r, exs));
    var t := TallyOf(r.today, c.index, Sightings(r, fs));
    c.errors + t.errors
    + (if t.missing == [] then [] else [MissingHeader] + t.missing)
    + (if t.expired == [] then [] else [ExpiredHeader] + t.expired)
  }

  /** The indexing loop. */
  method IndexExceptions(r: Rules, exs: seq<Entry>) returns (index: map<Key, Indexed>, errors: seq<GateError>)
    ensures Catalog(index, errors) == CatalogOf(Candidates(r, exs))
  {
    index, errors := map[], [];
    ghost var cs := Candidates(r, exs);
    for i := 0 to |exs|
      invariant Catalog(index, errors) == CatalogOf(cs[..i])
    {
      assert cs[..i + 1][..i] == cs[..i];
      match Assess(r, exs[i])
      case Refused(e) =>
        errors := errors + [e];
      case Accepted(key, item) =>
        if key in index {
          errors := errors + [DuplicateException(key)];
        } else {
          index := index[key := item];
        }
    }
    assert cs[..|exs|] == cs;
  }

  /** The lookup loop; its errors follow those of the indexing loop. */
  method LookUpFindings(r: Rules, index: map<Key, Indexed>, fs: seq<Finding>)
    returns (errors: seq<GateError>, missing: seq<GateError>, expired: seq<GateError>)
    ensures var t := TallyOf(r.today, index, Sightings(r, fs));
            errors == t.errors && missing == t.missing && expired == t.expired
  {
    errors, missing, expired := [], [], [];
    var seen: set<Key> := {};
    ghost var ss := Sightings(r, fs);
    for i := 0 to |fs|
      invariant Tally(seen, errors, missing, expired) == TallyOf(r.today, index, ss[..i])
    {
      assert ss[..i + 1][..i] == ss[..i];
      match Sight(r, fs[i])
      case Ignored =>
      case Unidentified(e) =>
        errors := errors + [e];
      case Sighted(key, sev, f) =>
        if key in seen {
          continue;
        }
        seen := seen + {key};
        if key !in index {
          missing := missing + [MissingException(f, sev)];
          continue;
        }
        var exc := index[key];
        if Contradicts(exc, sev) {
          errors := errors + [SeverityMismatch(f, sev, exc.severity)];
        }
        if exc.expiresOn < r.today {
          expired := expired + [Expired(f, sev, exc.expiresOn)];
        }
    }
    assert ss[..|fs|] == ss;
  }

  /** The gate: exit code 0 iff nothing is reported. */
  method RunGate(r: Rules, exs: seq<Entry>, fs: seq<Finding>) returns (code: int, errors: seq<GateError>)
    ensures errors == Report(r, exs, fs)
    ensures code == (if Passes(r, exs, fs) then 0 else 1)
  {
    var index, indexing := IndexExceptions(r, exs);
    var looking, missing, expired := LookUpFindings(r, index, fs);
    errors := indexing + looking;
    if missing != [] {
      errors := errors + ([MissingHeader] + missing);
    }
    if expired != [] {
      errors := errors + ([ExpiredHeader] + expired);
    }
    code := if errors == [] then 0 else 1;
    GateDecidesRule(r, exs, fs);
  }

  // ------------------------------------------------------------------ the rule it enforces

  ghost predicate Sound(r: Rules, exs: seq<Entry>) {
    && (forall i :: 0 <= i < |exs| ==> Acceptable(r, exs[i]))
    && (forall i, j :: 0 <= i < j < |exs| ==> ExceptionKey(r, exs[i]) != ExceptionKey(r, exs[j]))
  }

  /** An unexpired exception for the finding's key, whose severity is blank or the finding's. */
  predicate Excuses(r: Rules, e: Entry, f: Finding) {
    && ExceptionKey(r, e) == FindingKey(r, f)
    && (NormalSeverity(r, Get(e, "severity")) == "" || NormalSeverity(r, Get(e, "severity")) == SeverityOf(r, f))
    && ExpiryDate(r, e).Some? && r.today <= ExpiryDate(r, e).value
  }

  ghost predicate Excused(r: Rules, exs: seq<Entry>, f: Finding) {
    exists i :: 0 <= i < |exs| && Excuses(r, exs[i], f)
  }

  /** No earlier relevant finding has the same key. */
  ghost predicate IsFirst(r: Rules, fs: seq<Finding>, i: nat)
    requires i < |fs|
  {
    forall j :: 0 <= j < i && Relevant(r, fs[j]) ==> FindingKey(r, fs[j]) != FindingKey(r, fs[i])
  }

  ghost predicate Covered(r: Rules, exs: seq<Entry>, fs: seq<Finding>) {
    forall i :: 0 <= i < |fs| ==> FindingCovered(r, exs, fs, i)
  }

  /** A relevant finding has an advisory and, if it is the first with its key, an exception. */
  ghost predicate FindingCovered(r: Rules, exs: seq<Entry>, fs: seq<Finding>, i: nat)
    requires i < |fs|
  {
    Relevant(r, fs[i]) ==> HasAdvisory(r, fs[i]) && (IsFirst(r, fs, i) ==> Excused(r, exs, fs[i]))
  }

  /** What a passing gate means. */
  ghost predicate Passes(r: Rules, exs: seq<Entry>, fs: seq<Finding>) {
    Sound(r, exs) && Covered(r, exs, fs)
  }

  // ------------------------------------------------------------------ the passes, seen abstractly

  ghost predicate SoundCandidates(cs: seq<Candidate>) {
    && (forall i :: 0 <= i < |cs| ==> cs[i].Accepted?)
    && (forall i, j :: 0 <= i < j < |cs| ==> cs[i].key != cs[j].key)
  }

  /** The index holds exactly the accepted exceptions under their keys. */
  ghost predicate Indexes(index: map<Key, Indexed>, cs: seq<Candidate>) {
    && (forall i :: 0 <= i < |cs| ==> cs[i].Accepted? && cs[i].key in index && index[cs[i].key] == cs[i].item)
    && (forall k :: k in index ==> exists i :: 0 <= i < |cs| && cs[i].Accepted? && cs[i].key == k)
  }

  lemma {:induction false} CatalogMeaning(cs: seq<Candidate>)
    ensures CatalogOf(cs).errors == [] <==> SoundCandidates(cs)
    ensures SoundCandidates(cs) ==> Indexes(CatalogOf(cs).index, cs)
    decreases |cs|
  {
    if cs != [] {
      var n := |cs| - 1;
      var rest, x := cs[..n], cs[n];
      CatalogMeaning(rest);
      assert SoundCandidates(cs) ==> SoundCandidates(rest);
      if SoundCandidates(rest) && x.Accepted? && x.key in CatalogOf(rest).index {
        var i :| 0 <= i < n && rest[i].key == x.key;
        assert cs[i] == rest[i];
      } else if SoundCandidates(cs) {
        IndexGrows(CatalogOf(rest).index, cs);
      }
    }
  }

  lemma IndexGrows(index: map<Key, Indexed>, cs: seq<Candidate>)
    requires cs != [] && SoundCandidates(cs) && Indexes(index, cs[..|cs| - 1])
    ensures Indexes(index[cs[|cs| - 1].key := cs[|cs| - 1].item], cs)
  {
    var n := |cs| - 1;
    forall k | k in index
      ensures exists i :: 0 <= i < |cs| && cs[i].Accepted? && cs[i].key == k
    {
      var i :| 0 <= i < n && cs[..n][i].key == k;
      assert cs[i].key == k;
    }
  }

  /** Some accepted exception allows the sighting today. */
  ghost predicate Allowed(today: int, cs: seq<Candidate>, s: Sighting)
    requires s.Sighted?
  {
    exists i :: 0 <= i < |cs| && Allows(today, cs[i], s)
  }

  predicate Allows(today: int, c: Candidate, s: Sighting)
    requires s.Sighted?
  {
    c.Accepted? && c.key == s.key && !Contradicts(c.item, s.severity) && today <= c.item.expiresOn
  }

  ghost predicate FirstSighting(ss: seq<Sighting>, i: nat)
    requires i < |ss|
  {
    ss[i].Sighted? && forall j :: 0 <= j < i && ss[j].Sighted? ==> ss[j].key != ss[i].key
  }

  ghost predicate CoveredSightings(today: int, cs: seq<Candidate>, ss: seq<Sighting>) {
    forall i :: 0 <= i < |ss| ==> CoveredAt(today, cs, ss, i)
  }

  ghost predicate CoveredAt(today: int, cs: seq<Candidate>, ss: seq<Sighting>, i: nat)
    requires i < |ss|
  {
    !ss[i].Unidentified? && (FirstSighting(ss, i) ==> Allowed(today, cs, ss[i]))
  }

  predicate Clean(t: Tally) {
    t.errors == [] && t.missing == [] && t.expired == []
  }

  /** With a sound index, a lookup leaves no trace exactly when the sighting is allowed. */
  lemma LookUpMeaning(today: int, cs: seq<Candidate>, index: map<Key, Indexed>, t: Tally, s: Sighting)
    requires SoundCandidates(cs) && Indexes(index, cs) && s.Sighted?
    ensures Clean(LookUp(today, index, t, s)) <==> Clean(t) && Allowed(today, cs, s)
    ensures LookUp(today, index, t, s).seen == t.seen
  {
    if s.key in index {
      var i :| 0 <= i < |cs| && cs[i].key == s.key;
      assert Allows(today, cs[i], s) ==> Allowed(today, cs, s);
      assert Allowed(today, cs, s) ==> Allows(today, cs[i], s);
    }
  }

  ghost predicate SeenIn(ss: seq<Sighting>, k: Key) {
    exists i :: 0 <= i < |ss| && ss[i].Sighted? && ss[i].key == k
  }

  lemma {:induction false} TallyMeaning(today: int, cs: seq<Candidate>, index: map<Key, Indexed>, ss: seq<Sighting>)
    requires SoundCandidates(cs) && Indexes(index, cs)
    ensures forall k :: k in TallyOf(today, index, ss).seen <==> SeenIn(ss, k)
    ensures Clean(TallyOf(today, index, ss)) <==> CoveredSightings(today, cs, ss)
    decreases |ss|
  {
    if ss != [] {
      var n := |ss| - 1;
      var rest, s := ss[..n], ss[n];
      var t := TallyOf(today, index, rest);
      TallyMeaning(today, cs, index, rest);
      CoveredGrows(today, cs, ss);
      forall k
        ensures SeenIn(ss, k) <==> SeenIn(rest, k) || (s.Sighted? && s.key == k)
      {
        SeenGrows(ss, k);
      }
      if s.Sighted? && s.key !in t.seen {
        LookUpMeaning(today, cs, index, t.(seen := t.seen + {s.key}), s);
      }
    }
  }

  /** One more sighting. */
  lemma SeenGrows(ss: seq<Sighting>, k: Key)
    requires ss != []
    ensures var rest, s := ss[..|ss| - 1], ss[|ss| - 1];
            SeenIn(ss, k) <==> SeenIn(rest, k) || (s.Sighted? && s.key == k)
  {
    var n := |ss| - 1;
    var rest := ss[..n];
    if SeenIn(rest, k) {
      var i :| 0 <= i < n && rest[i].Sighted? && rest[i].key == k;
      assert ss[i].key == k;
    }
    if SeenIn(ss, k) {
      var i :| 0 <= i < |ss| && ss[i].Sighted? && ss[i].key == k;
      assert i < n ==> rest[i].key == k;
    }
  }

  lemma CoveredGrows(today: int, cs: seq<Candidate>, ss: seq<Sighting>)
    requires ss != []
    ensures var rest, s := ss[..|ss| - 1], ss[|ss| - 1];
            CoveredSightings(today, cs, ss) <==>
              && CoveredSightings(today, cs, rest)
              && !s.Unidentified?
              && (s.Sighted? && !SeenIn(rest, s.key) ==> Allowed(today, cs, s))
  {
    var n := |ss| - 1;
    var rest, s := ss[..n], ss[n];
    forall i | 0 <= i < n
      ensures CoveredAt(today, cs, ss, i) <==> CoveredAt(today, cs, rest, i)
    {
      CoveredAtPrefix(today, cs, ss, i);
    }
    if s.Sighted? {
      LastIsFirst(ss);
    }
    if CoveredSightings(today, cs, ss) {
      assert CoveredAt(today, cs, ss, n);
    }
  }

  lemma CoveredAtPrefix(today: int, cs: seq<Candidate>, ss: seq<Sighting>, i: nat)
    requires i < |ss| - 1
    ensures CoveredAt(today, cs, ss, i) <==> CoveredAt(today, cs, ss[..|ss| - 1], i)
  {
    assert forall j :: 0 <= j < |ss| - 1 ==> ss[..|ss| - 1][j] == ss[j];
  }

  lemma LastIsFirst(ss: seq<Sighting>)
    requires ss != [] && ss[|ss| - 1].Sighted?
    ensures FirstSighting(ss, |ss| - 1) <==> !SeenIn(ss[..|ss| - 1], ss[|ss| - 1].key)
  {
    var n := |ss| - 1;
    assert forall i :: 0 <= i < n ==> ss[..n][i] == ss[i];
  }

  // ------------------------------------------------------------------ the decision

  lemma SoundMeaning(r: Rules, exs: seq<Entry>)
    ensures SoundCandidates(Candidates(r, exs)) <==> Sound(r, exs)
  {
    var cs := Candidates(r, exs);
    forall i | 0 <= i < |exs|
      ensures cs[i].Accepted? <==> Acceptable(r, exs[i])
      ensures cs[i].Accepted? ==> cs[i].key == ExceptionKey(r, exs[i])
    {
      AssessMeaning(r, exs[i]);
    }
  }

  lemma AssessMeaning(r: Rules, e: Entry)
    ensures Assess(r, e).Accepted? <==> Acceptable(r, e)
    ensures Acceptable(r, e) ==> Assess(r, e) == Accepted(ExceptionKey(r, e), IndexedOf(r, e))
  {
  }

  lemma AllowsMeaning(r: Rules, e: Entry, f: Finding)
    requires Acceptable(r, e) && Relevant(r, f) && HasAdvisory(r, f)
    ensures Allows(r.today, Assess(r, e), Sight(r, f)) <==> Excuses(r, e, f)
  {
    AssessMeaning(r, e);
  }

  lemma AllowedMeaning(r: Rules, exs: seq<Entry>, f: Finding)
    requires Sound(r, exs) && Relevant(r, f) && HasAdvisory(r, f)
    ensures Allowed(r.today, Candidates(r, exs), Sight(r, f)) <==> Excused(r, exs, f)
  {
    var cs, s := Candidates(r, exs), Sight(r, f);
    forall i | 0 <= i < |exs|
      ensures Allows(r.today, cs[i], s) <==> Excuses(r, exs[i], f)
    {
      AllowsMeaning(r, exs[i], f);
    }
  }

  lemma SightMeaning(r: Rules, f: Finding)
    ensures Sight(r, f).Ignored? <==> !Relevant(r, f)
    ensures Sight(r, f).Unidentified? <==> Relevant(r, f) && !HasAdvisory(r, f)
    ensures Sight(r, f).Sighted? ==> Sight(r, f).key == FindingKey(r, f)
    ensures HasAdvisory(r, f) <==> FindingKey(r, f).1 != ""
  {
  }

  lemma FirstMeaning(r: Rules, fs: seq<Finding>, i: nat)
    requires i < |fs| && Sight(r, fs[i]).Sighted?
    ensures FirstSighting(Sightings(r, fs), i) <==> IsFirst(r, fs, i)
  {
    var ss := Sightings(r, fs);
    forall j | 0 <= j <= i
      ensures ss[j].Sighted? ==> Relevant(r, fs[j]) && ss[j].key == FindingKey(r, fs[j])
      ensures Relevant(r, fs[j]) && !ss[j].Sighted? ==> FindingKey(r, fs[j]) != FindingKey(r, fs[i])
    {
      SightMeaning(r, fs[j]);
      SightMeaning(r, fs[i]);
    }
  }

  lemma CoveredAtMeaning(r: Rules, exs: seq<Entry>, fs: seq<Finding>, i: nat)
    requires Sound(r, exs) && i < |fs|
    ensures CoveredAt(r.today, Candidates(r, exs), Sightings(r, fs), i) <==> FindingCovered(r, exs, fs, i)
  {
    SightMeaning(r, fs[i]);
    if Sight(r, fs[i]).Sighted? {
      FirstMeaning(r, fs, i);
      AllowedMeaning(r, exs, fs[i]);
    }
  }

  lemma CoveredMeaning(r: Rules, exs: seq<Entry>, fs: seq<Finding>)
    requires Sound(r, exs)
    ensures CoveredSightings(r.today, Candidates(r, exs), Sightings(r, fs)) <==> Covered(r, exs, fs)
  {
    forall i | 0 <= i < |fs|
      ensures CoveredAt(r.today, Candidates(r, exs), Sightings(r, fs), i) <==> FindingCovered(r, exs, fs, i)
    {
      CoveredAtMeaning(r, exs, fs, i);
    }
  }

  /** The gate reports nothing exactly when the rule holds. */
  lemma GateDecidesRule(r: Rules, exs: seq<Entry>, fs: seq<Finding>)
    ensures Report(r, exs, fs) == [] <==> Passes(r, exs, fs)
  {
    var cs := Candidates(r, exs);
    CatalogMeaning(cs);
    SoundMeaning(r, exs);
    if Sound(r, exs) {
      TallyMeaning(r.today, cs, CatalogOf(cs).index, Sightings(r, fs));
      CoveredMeaning(r, exs, fs);
    }
  }
}
