/** The comparison of two observations of a controller by the SDL consumer: every measured leaf
    is a match, an expected limitation that a rule cites exactly, an unexpected difference, or
    not measured. */
module ObservationComparator {
  import opened Outcomes
  import opened FlatTrees
  import opened Sorting
  import opened Texts
  import opened ValueEquality

  const FIELDS: seq<string> := [
    "identity", "build", "backend", "backend_request", "mapping", "mapping_source",
    "capabilities", "controls", "sensors", "touch", "output_calls", "controller_reverse",
    "opened", "closed", "reopened", "reclosed", "device_removed"]

  /** The fields that can be compared between different scenarios. */
  const SCENARIO_FREE: set<string> :=
    {"build", "identity", "backend", "mapping", "backend_request", "mapping_source"}

  // ---------------------------------------------------------------- rules

  datatype Rule = Rule(field: string, reference: Value, virtual: Value, reason: string,
                       evidence: string)

  datatype RuleError = UnknownOrDuplicate | Unexplained | MissingEvidence

  /** What the language strips from both ends of a text. */
  predicate IsSpace(c: char) {
    || '\U{9}' <= c <= '\U{d}' || '\U{1c}' <= c <= '\U{20}' || c == '\U{85}' || c == '\U{a0}'
    || c == '\U{1680}' || '\U{2000}' <= c <= '\U{200a}' || c == '\U{2028}' || c == '\U{2029}'
    || c == '\U{202f}' || c == '\U{205f}' || c == '\U{3000}'
  }

  predicate Blank(s: string) { forall c | c in s :: IsSpace(c) }

  /** field.split('.')[0]. */
  function TopField(path: string): string {
    if path == "" || path[0] == '.' then "" else [path[0]] + TopField(path[1..])
  }

  predicate KnownField(path: string) { TopField(path) in FIELDS }

  predicate GoodRule(r: Rule) {
    && KnownField(r.field)
    && !Blank(r.reason) && !Blank(r.evidence)
    && r.reference != Null && r.virtual != Null
  }

  predicate NewPath(rules: seq<Rule>, n: nat)
    requires n < |rules|
  {
    forall j | 0 <= j < n :: rules[j].field != rules[n].field
  }

  /** Every rule is good and no path has two. */
  predicate GoodRules(rules: seq<Rule>, n: nat)
    requires n <= |rules|
  {
    forall i | 0 <= i < n :: GoodAt(rules, i)
  }

  predicate GoodAt(rules: seq<Rule>, i: nat)
    requires i < |rules|
  {
    GoodRule(rules[i]) && NewPath(rules, i)
  }

  /** The index of the first n rules: each of them by its path, and nothing else. */
  predicate Indexes(index: map<string, Rule>, rules: seq<Rule>, n: nat)
    requires n <= |rules|
  {
    && (forall i | 0 <= i < n :: rules[i].field in index && index[rules[i].field] == rules[i])
    && (forall path | path in index :: exists i | 0 <= i < n :: rules[i].field == path)
  }

  lemma KnownPath(index: map<string, Rule>, rules: seq<Rule>, n: nat)
    requires n < |rules| && Indexes(index, rules, n)
    ensures rules[n].field in index <==> !NewPath(rules, n)
    ensures NewPath(rules, n) ==> Indexes(index[rules[n].field := rules[n]], rules, n + 1)
  {
  }

  /** The checks of one rule, in their order. */
  method CheckRule(rule: Rule, known: bool) returns (error: Option<RuleError>)
    ensures error == None <==> GoodRule(rule) && !known
  {
    if !KnownField(rule.field) || known {
      return Some(UnknownOrDuplicate);
    }
    if Blank(rule.reason) || Blank(rule.evidence) {
      return Some(Unexplained);
    }
    if rule.reference == Null || rule.virtual == Null {
      return Some(MissingEvidence);
    }
    error := None;
  }

  /** expected_rules: only good rules, and all of them, are indexed by their path. */
  method ExpectedRules(rules: seq<Rule>) returns (r: Result<map<string, Rule>, RuleError>)
    ensures r.Ok? <==> GoodRules(rules, |rules|)
    ensures r.Ok? ==> Indexes(r.value, rules, |rules|)
  {
    var index: map<string, Rule> := map[];
    for n := 0 to |rules|
      invariant GoodRules(rules, n) && Indexes(index, rules, n)
    {
      KnownPath(index, rules, n);
      var error := CheckRule(rules[n], rules[n].field in index);
      if error.Some? {
        assert !GoodAt(rules, n);
        return Err(error.value);
      }
      assert GoodAt(rules, n);
      index := index[rules[n].field := rules[n]];
    }
    r := Ok(index);
  }

  // ---------------------------------------------------------------- classification

  datatype Class = Match | ExpectedLimitation | UnexpectedDifference | NotMeasured

  function Leaf(leaves: map<string, Value>, path: string): Value {
    if path in leaves then leaves[path] else Null
  }

  predicate Cited(rules: map<string, Rule>, path: string, x: Value, y: Value) {
    path in rules && Exactly(x, rules[path].reference) && Exactly(y, rules[path].virtual)
  }

  function Classify(x: Value, y: Value, path: string, rules: map<string, Rule>): Class {
    if x == Null || y == Null then NotMeasured
    else if Exactly(x, y) then Match
    else if Cited(rules, path, x, y) then ExpectedLimitation
    else UnexpectedDifference
  }

  /** An observation after it was accepted as one of the contract: how many devices it selected,
      whether it passed, its scenario, and each field's value, null when not measured. */
  datatype Record = Record(selected: int, passed: bool, profile: string,
                           controlCase: Option<string>, values: string -> Value)

  predicate Passed(r: Record) { r.selected == 1 && r.passed }

  predicate SameScenario(a: Record, b: Record) {
    a.profile == b.profile && a.controlCase == b.controlCase
  }

  predicate Comparable(a: Record, b: Record, field: string) {
    a.values(field) != Null && b.values(field) != Null
    && (SameScenario(a, b) || field in SCENARIO_FREE)
  }

  /** The results of one field: none of its leaves, or each of them with its class. */
  datatype FieldResult = Skipped | Leaves(classes: map<string, Class>)

  datatype Report = Report(sameScenario: bool, referencePassed: bool, virtualPassed: bool,
                           fields: seq<FieldResult>)

  function ResultOf(a: Record, b: Record, field: string, rules: map<string, Rule>): FieldResult {
    if !Comparable(a, b, field) then Skipped
    else
      var av, bv := Flatten(a.values(field), field), Flatten(b.values(field), field);
      Leaves(map path | path in av.Keys + bv.Keys :: Classify(Leaf(av, path), Leaf(bv, path), path, rules))
  }

  function ResultsOf(a: Record, b: Record, names: seq<string>, rules: map<string, Rule>):
    (results: seq<FieldResult>)
    ensures |results| == |names|
  {
    seq(|names|, i requires 0 <= i < |names| => ResultOf(a, b, names[i], rules))
  }

  /** What the comparison of two observations must report. */
  function ReportOf(a: Record, b: Record, rules: map<string, Rule>): Report {
    Report(SameScenario(a, b), Passed(a), Passed(b), ResultsOf(a, b, FIELDS, rules))
  }

  function Having(classes: map<string, Class>, c: Class): set<string> {
    set path | path in classes && classes[path] == c
  }

  function CountIn(result: FieldResult, c: Class): nat {
    match result
    case Skipped => if c == NotMeasured then 1 else 0
    case Leaves(classes) => |Having(classes, c)|
  }

  function CountAll(fields: seq<FieldResult>, c: Class): nat {
    if fields == [] then 0
    else CountAll(fields[..|fields| - 1], c) + CountIn(fields[|fields| - 1], c)
  }

  function Failures(report: Report): nat {
    (if report.sameScenario then 0 else 1)
    + (if report.referencePassed then 0 else 1)
    + (if report.virtualPassed then 0 else 1)
  }

  function Counts(report: Report, c: Class): nat {
    CountAll(report.fields, c) + if c == UnexpectedDifference then Failures(report) else 0
  }

  // ---------------------------------------------------------------- the list of results

  /** One line of the printed comparison. */
  datatype Entry = Entry(field: string, kind: Class)

  function CountOf(entries: seq<Entry>, c: Class): nat {
    if entries == [] then 0
    else
      CountOf(entries[..|entries| - 1], c)
      + if entries[|entries| - 1].kind == c then 1 else 0
  }

  predicate Ascending(entries: seq<Entry>) {
    forall i, j | 0 <= i < j < |entries| ::
      TextAtMost(entries[i].field, entries[j].field) && entries[i].field != entries[j].field
  }

  /** The entries of a field: one for its whole when it is skipped, or one for each leaf with its
      class, in ascending order of the paths. */
  predicate Lists(entries: seq<Entry>, field: string, result: FieldResult) {
    match result
    case Skipped => entries == [Entry(field, NotMeasured)]
    case Leaves(classes) =>
      && Ascending(entries)
      && (forall i | 0 <= i < |entries| ::
            entries[i].field in classes && entries[i].kind == classes[entries[i].field])
      && (forall path | path in classes :: Entry(path, classes[path]) in entries)
  }

  /** The labels of a class. */
  function Labels(entries: seq<Entry>, c: Class): set<string> {
    if entries == [] then {}
    else
      var last := entries[|entries| - 1];
      Labels(entries[..|entries| - 1], c) + if last.kind == c then {last.field} else {}
  }

  lemma {:induction false} LabelsMeaning(entries: seq<Entry>, c: Class)
    ensures forall name :: name in Labels(entries, c) <==> Entry(name, c) in entries
  {
    if entries != [] {
      LabelsMeaning(entries[..|entries| - 1], c);
      assert entries == entries[..|entries| - 1] + [entries[|entries| - 1]];
    }
  }

  lemma LastIsNew(entries: seq<Entry>, c: Class)
    requires entries != [] && Ascending(entries)
    ensures Ascending(entries[..|entries| - 1])
    ensures entries[|entries| - 1].field !in Labels(entries[..|entries| - 1], c)
  {
    LabelsMeaning(entries[..|entries| - 1], c);
  }

  lemma {:induction false} CountOfLabels(entries: seq<Entry>, c: Class)
    requires Ascending(entries)
    ensures |Labels(entries, c)| == CountOf(entries, c)
  {
    if entries != [] {
      LastIsNew(entries, c);
      CountOfLabels(entries[..|entries| - 1], c);
    }
  }

  lemma CountListed(entries: seq<Entry>, field: string, result: FieldResult, c: Class)
    requires Lists(entries, field, result)
    ensures CountOf(entries, c) == CountIn(result, c)
  {
    if result.Leaves? {
      CountOfLabels(entries, c);
      LabelsMeaning(entries, c);
      forall path | path in Having(result.classes, c) ensures path in Labels(entries, c) {
        assert Entry(path, result.classes[path]) in entries;
      }
      assert Labels(entries, c) == Having(result.classes, c);
    }
  }

  lemma {:induction false} CountOfBoth(a: seq<Entry>, b: seq<Entry>, c: Class)
    ensures CountOf(a + b, c) == CountOf(a, c) + CountOf(b, c)
  {
    if b == [] {
      assert a + b == a;
    } else {
      CountOfBoth(a, b[..|b| - 1], c);
      assert (a + b)[..|a + b| - 1] == a + b[..|b| - 1];
    }
  }

  function Joined(parts: seq<seq<Entry>>): seq<Entry> {
    if parts == [] then [] else Joined(parts[..|parts| - 1]) + parts[|parts| - 1]
  }

  predicate ListsAll(parts: seq<seq<Entry>>, names: seq<string>, results: seq<FieldResult>)
    requires |parts| == |results| <= |names|
  {
    forall i | 0 <= i < |parts| :: Lists(parts[i], names[i], results[i])
  }

  lemma {:induction false} CountJoined(parts: seq<seq<Entry>>, names: seq<string>,
                                       results: seq<FieldResult>, c: Class)
    requires |parts| == |results| <= |names| && ListsAll(parts, names, results)
    ensures CountOf(Joined(parts), c) == CountAll(results, c)
  {
    if parts != [] {
      var n := |parts| - 1;
      CountJoined(parts[..n], names, results[..n], c);
      CountListed(parts[n], names[n], results[n], c);
      CountOfBoth(Joined(parts[..n]), parts[n], c);
    }
  }

  /** The entries about the captures as wholes. */
  function Heads(a: Record, b: Record): seq<Entry> {
    (if SameScenario(a, b) then [] else [Entry("comparison_context", UnexpectedDifference)])
    + (if Passed(a) then [] else [Entry("reference.capture", UnexpectedDifference)])
    + (if Passed(b) then [] else [Entry("virtual.capture", UnexpectedDifference)])
  }

  // ---------------------------------------------------------------- compare

  lemma TextOrder()
    ensures Total(TextAtMost) && Transitive(TextAtMost)
  {
    forall a, b ensures TextAtMost(a, b) || TextAtMost(b, a) {
      TextOrderTotal(a, b);
    }
    forall a, b, c | TextAtMost(a, b) && TextAtMost(b, c) ensures TextAtMost(a, c) {
      TextOrderTransitive(a, b, c);
    }
  }

  lemma NoRepeats(s: seq<string>, paths: set<string>)
    requires multiset(s) == multiset(paths)
    ensures forall i, j | 0 <= i < j < |s| :: s[i] != s[j]
  {
    forall i, j | 0 <= i < j < |s| ensures s[i] != s[j] {
      var before, after := s[..j], s[j..];
      assert s == before + after;
      assert before[i] == s[i] && after[0] == s[j];
      assert multiset(s)[s[j]] <= 1;
      assert multiset(s)[s[j]] == multiset(before)[s[j]] + multiset(after)[s[j]];
      assert s[j] in multiset(after);
      assert s[i] in multiset(before);
    }
  }

  /** sorted(paths). */
  method SortedPaths(paths: set<string>) returns (sorted: seq<string>)
    ensures InOrder(sorted, TextAtMost) && multiset(sorted) == multiset(paths)
  {
    TextOrder();
    sorted := [];
    var rest := paths;
    while rest != {}
      invariant rest <= paths
      invariant InOrder(sorted, TextAtMost) && multiset(sorted) == multiset(paths - rest)
    {
      var path :| path in rest;
      InsertContents(sorted, path, TextAtMost);
      InsertOrders(sorted, path, TextAtMost);
      assert paths - (rest - {path}) == (paths - rest) + {path};
      sorted, rest := Insert(sorted, path, TextAtMost), rest - {path};
    }
    assert paths - rest == paths;
  }

  /** The class of one leaf, decided in the order of the code. */
  method ClassifyLeaf(x: Value, y: Value, path: string, rules: map<string, Rule>)
    returns (kind: Class)
    ensures kind == Classify(x, y, path, rules)
  {
    if x == Null || y == Null {
      return NotMeasured;
    }
    if SameType(x, y) && Equal(x, y) {
      return Match;
    }
    if path !in rules {
      return UnexpectedDifference;
    }
    var rule := rules[path];
    var expected := SameType(x, rule.reference) && SameType(y, rule.virtual)
                    && Equal(x, rule.reference) && Equal(y, rule.virtual);
    kind := if expected then ExpectedLimitation else UnexpectedDifference;
  }

  lemma LeavesListed(entries: seq<Entry>, sorted: seq<string>, classes: map<string, Class>,
                     field: string)
    requires InOrder(sorted, TextAtMost) && multiset(sorted) == multiset(classes.Keys)
    requires |entries| == |sorted|
    requires forall i | 0 <= i < |sorted| :: sorted[i] in classes
    requires forall i | 0 <= i < |sorted| :: entries[i] == Entry(sorted[i], classes[sorted[i]])
    ensures Lists(entries, field, Leaves(classes))
  {
    NoRepeats(sorted, classes.Keys);
    forall path | path in classes ensures Entry(path, classes[path]) in entries {
      assert path in multiset(sorted);
      var i :| 0 <= i < |sorted| && sorted[i] == path;
      assert entries[i] in entries;
    }
  }

  method ClassifyLeaves(av: map<string, Value>, bv: map<string, Value>, paths: seq<string>,
                        rules: map<string, Rule>)
    returns (entries: seq<Entry>)
    ensures |entries| == |paths|
    ensures forall i | 0 <= i < |paths| ::
              entries[i] == Entry(paths[i], Classify(Leaf(av, paths[i]), Leaf(bv, paths[i]), paths[i], rules))
  {
    entries := [];
    for i := 0 to |paths|
      invariant |entries| == i
      invariant forall j | 0 <= j < i ::
                  entries[j] == Entry(paths[j], Classify(Leaf(av, paths[j]), Leaf(bv, paths[j]), paths[j], rules))
    {
      var path := paths[i];
      var kind := ClassifyLeaf(Leaf(av, path), Leaf(bv, path), path, rules);
      entries := entries + [Entry(path, kind)];
    }
  }

  /** The inner loop: the leaves of both sides, by ascending path. */
  method CompareField(a: Record, b: Record, field: string, rules: map<string, Rule>)
    returns (entries: seq<Entry>)
    ensures Lists(entries, field, ResultOf(a, b, field, rules))
  {
    if !Comparable(a, b, field) {
      return [Entry(field, NotMeasured)];
    }
    var av, bv := Flatten(a.values(field), field), Flatten(b.values(field), field);
    ghost var classes := ResultOf(a, b, field, rules).classes;
    var sorted := SortedPaths(av.Keys + bv.Keys);
    assert classes.Keys == av.Keys + bv.Keys;
    forall i | 0 <= i < |sorted| ensures sorted[i] in classes {
      assert sorted[i] in multiset(sorted);
    }
    entries := ClassifyLeaves(av, bv, sorted, rules);
    LeavesListed(entries, sorted, classes, field);
  }

  const CLASSES: seq<Class> := [Match, ExpectedLimitation, UnexpectedDifference, NotMeasured]

  /** The outer loop. */
  method ListFields(a: Record, b: Record, names: seq<string>, rules: map<string, Rule>)
    returns (results: seq<Entry>, ghost parts: seq<seq<Entry>>)
    ensures |parts| == |names| && ListsAll(parts, names, ResultsOf(a, b, names, rules))
    ensures results == Joined(parts)
  {
    results, parts := [], [];
    for i := 0 to |names|
      invariant |parts| == i && results == Joined(parts)
      invariant forall j | 0 <= j < i :: Lists(parts[j], names[j], ResultOf(a, b, names[j], rules))
    {
      var entries := CompareField(a, b, names[i], rules);
      assert (parts + [entries])[..i] == parts;
      results, parts := results + entries, parts + [entries];
    }
  }

  method CountClasses(results: seq<Entry>) returns (counts: map<Class, nat>)
    ensures forall c :: c in counts && counts[c] == CountOf(results, c)
  {
    counts := map[];
    for k := 0 to |CLASSES|
      invariant forall j | 0 <= j < k ::
                  CLASSES[j] in counts && counts[CLASSES[j]] == CountOf(results, CLASSES[j])
    {
      counts := counts[CLASSES[k] := CountOf(results, CLASSES[k])];
    }
    forall c: Class ensures c in counts && counts[c] == CountOf(results, c) {
      assert c == CLASSES[0] || c == CLASSES[1] || c == CLASSES[2] || c == CLASSES[3];
    }
  }

  /** compare: the list of results has the captures first and then every field's entries, and its
      counts are those of the report. */
  method Compare(a: Record, b: Record, rules: map<string, Rule>)
    returns (results: seq<Entry>, counts: map<Class, nat>, ghost parts: seq<seq<Entry>>)
    ensures |parts| == |FIELDS| && ListsAll(parts, FIELDS, ReportOf(a, b, rules).fields)
    ensures results == Heads(a, b) + Joined(parts)
    ensures forall c :: c in counts && counts[c] == Counts(ReportOf(a, b, rules), c)
  {
    results := [];
    if !SameScenario(a, b) {
      results := results + [Entry("comparison_context", UnexpectedDifference)];
    }
    if a.selected != 1 || !a.passed {
      results := results + [Entry("reference.capture", UnexpectedDifference)];
    }
    if b.selected != 1 || !b.passed {
      results := results + [Entry("virtual.capture", UnexpectedDifference)];
    }
    assert results == Heads(a, b);
    var entries;
    entries, parts := ListFields(a, b, FIELDS, rules);
    results := results + entries;
    counts := CountClasses(results);
    forall c: Class ensures counts[c] == Counts(ReportOf(a, b, rules), c) {
      CountsOfResults(a, b, rules, parts, c);
    }
  }

  lemma CountsOfResults(a: Record, b: Record, rules: map<string, Rule>, parts: seq<seq<Entry>>,
                        c: Class)
    requires |parts| == |FIELDS| && ListsAll(parts, FIELDS, ReportOf(a, b, rules).fields)
    ensures CountOf(Heads(a, b) + Joined(parts), c) == Counts(ReportOf(a, b, rules), c)
  {
    CountJoined(parts, FIELDS, ReportOf(a, b, rules).fields, c);
    CountOfBoth(Heads(a, b), Joined(parts), c);
    CountOfHeads(a, b, c);
  }

  lemma CountOfHead(fine: bool, name: string, c: Class)
    ensures CountOf(if fine then [] else [Entry(name, UnexpectedDifference)], c)
         == if !fine && c == UnexpectedDifference then 1 else 0
  {
    assert [Entry(name, UnexpectedDifference)][..0] == [];
  }

  lemma CountOfHeads(a: Record, b: Record, c: Class)
    ensures CountOf(Heads(a, b), c)
         == if c == UnexpectedDifference then
              (if SameScenario(a, b) then 0 else 1) + (if Passed(a) then 0 else 1)
              + (if Passed(b) then 0 else 1)
            else 0
  {
    var context := if SameScenario(a, b) then [] else [Entry("comparison_context", UnexpectedDifference)];
    var reference := if Passed(a) then [] else [Entry("reference.capture", UnexpectedDifference)];
    var virtual := if Passed(b) then [] else [Entry("virtual.capture", UnexpectedDifference)];
    CountOfHead(SameScenario(a, b), "comparison_context", c);
    CountOfHead(Passed(a), "reference.capture", c);
    CountOfHead(Passed(b), "virtual.capture", c);
    CountOfBoth(context, reference, c);
    CountOfBoth(context + reference, virtual, c);
  }

  // ---------------------------------------------------------------- what the counts mean

  predicate Lacks(result: FieldResult, c: Class) {
    result.Leaves? ==> forall path | path in result.classes :: result.classes[path] != c
  }

  lemma CountedNowhere(result: FieldResult, c: Class)
    requires c != NotMeasured
    ensures CountIn(result, c) == 0 <==> Lacks(result, c)
  {
    if result.Leaves? {
      if CountIn(result, c) == 0 {
        forall path | path in result.classes ensures result.classes[path] != c {
          assert path !in Having(result.classes, c);
        }
      } else {
        var path :| path in Having(result.classes, c);
        assert result.classes[path] == c;
      }
    }
  }

  lemma {:induction false} NoneCounted(fields: seq<FieldResult>, c: Class)
    requires c != NotMeasured
    ensures CountAll(fields, c) == 0 <==> forall i | 0 <= i < |fields| :: Lacks(fields[i], c)
  {
    if fields != [] {
      var init, last := fields[..|fields| - 1], fields[|fields| - 1];
      NoneCounted(init, c);
      CountedNowhere(last, c);
      assert fields == init + [last];
    }
  }

  /** A leaf that both sides measured agrees, or differs exactly as a rule says. */
  predicate Agrees(a: Record, b: Record, field: string, path: string, rules: map<string, Rule>) {
    var x, y := Leaf(Flatten(a.values(field), field), path), Leaf(Flatten(b.values(field), field), path);
    x == Null || y == Null || Exactly(x, y) || Cited(rules, path, x, y)
  }

  ghost predicate FieldAgrees(a: Record, b: Record, field: string, rules: map<string, Rule>) {
    Comparable(a, b, field) ==> forall path :: Agrees(a, b, field, path, rules)
  }

  lemma FieldMeaning(a: Record, b: Record, field: string, rules: map<string, Rule>)
    ensures FieldAgrees(a, b, field, rules) <==>
              Lacks(ResultOf(a, b, field, rules), UnexpectedDifference)
  {
    var result := ResultOf(a, b, field, rules);
    if result.Leaves? && FieldAgrees(a, b, field, rules) {
      forall path | path in result.classes ensures result.classes[path] != UnexpectedDifference {
        assert Agrees(a, b, field, path, rules);
      }
    }
    if result.Leaves? && !FieldAgrees(a, b, field, rules) {
      var path :| !Agrees(a, b, field, path, rules);
      assert path in result.classes && result.classes[path] == UnexpectedDifference;
    }
  }

  /** A field that both sides measured was compared, unless the scenarios differ and it is not
      one of the few that do not depend on them. */
  lemma ComparedMeaning(a: Record, b: Record, field: string, rules: map<string, Rule>)
    ensures ResultOf(a, b, field, rules).Leaves? <==>
              && a.values(field) != Null && b.values(field) != Null
              && (|| (a.profile == b.profile && a.controlCase == b.controlCase)
                  || field in ["build", "identity", "backend", "mapping", "backend_request",
                               "mapping_source"])
  {
  }

  /** No unexpected difference: both captures selected one device and passed, in the same profile
      and control case, and every leaf that both sides measured passes the leaf test or differs
      exactly as a rule for its path says; and the converse. */
  lemma NoUnexpectedMeaning(a: Record, b: Record, rules: map<string, Rule>)
    ensures Counts(ReportOf(a, b, rules), UnexpectedDifference) == 0 <==>
              && a.selected == 1 && a.passed && b.selected == 1 && b.passed
              && a.profile == b.profile && a.controlCase == b.controlCase
              && forall field | field in FIELDS :: FieldAgrees(a, b, field, rules)
  {
    var report := ReportOf(a, b, rules);
    NoneCounted(report.fields, UnexpectedDifference);
    forall i | 0 <= i < |FIELDS|
      ensures FieldAgrees(a, b, FIELDS[i], rules) <==>
                Lacks(report.fields[i], UnexpectedDifference)
    {
      FieldMeaning(a, b, FIELDS[i], rules);
    }
  }

  /** A leaf that one side did not measure is in no list of results as a match or a limitation. */
  lemma MissingNeverMatches(entries: seq<Entry>, a: Record, b: Record, field: string,
                            rules: map<string, Rule>, i: nat)
    requires Lists(entries, field, ResultOf(a, b, field, rules)) && i < |entries|
    requires entries[i].kind == Match || entries[i].kind == ExpectedLimitation
    ensures var av, bv := Flatten(a.values(field), field), Flatten(b.values(field), field);
            && entries[i].field in av && av[entries[i].field] != Null
            && entries[i].field in bv && bv[entries[i].field] != Null
            && (entries[i].kind == Match ==> Exactly(av[entries[i].field], bv[entries[i].field]))
  {
    assert ResultOf(a, b, field, rules).Leaves?;
  }

  /** A match is the same value whatever the other side is, if and only if no flag, integer or
      integral decimal occurs inside the leaf. */
  lemma MatchMeansIdentical(x: Value, path: string, rules: map<string, Rule>)
    requires Keyed(x) && x != Null
    ensures (forall y :: Classify(x, y, path, rules) == Match ==> Identical(x, y))
            <==> !HasTwinInside(x)
  {
    ExactlyMeansIdentical(x);
    if HasTwinInside(x) {
      var y :| Exactly(x, y) && !Identical(x, y);
      assert Classify(x, y, path, rules) == Match;
    }
  }

  lemma CitedLeaf(x: Value, y: Value, path: string, rules: map<string, Rule>)
    requires x != Null && y != Null && !Exactly(x, y) && Cited(rules, path, x, y)
    ensures Classify(x, y, path, rules) == ExpectedLimitation
  {
  }

  /** The rule that cites these two values. */
  function Citing(path: string, x: Value, y: Value): map<string, Rule> {
    map[path := Rule(path, x, y, "reason", "evidence")]
  }

  /** Rules are as loose as the test of a leaf, on either side: what excuses a difference always
      cites the same two values if and only if neither has a flag, an integer or an integral
      decimal inside. */
  lemma RulesMeanIdentical(x: Value, y: Value, path: string)
    requires Keyed(x) && Keyed(y) && x != Null && y != Null && !Exactly(x, y)
    ensures (forall rules: map<string, Rule> | Classify(x, y, path, rules) == ExpectedLimitation ::
               Identical(x, rules[path].reference) && Identical(y, rules[path].virtual))
            <==> !HasTwinInside(x) && !HasTwinInside(y)
  {
    if HasTwinInside(x) {
      LooseReference(x, y, path);
    } else if HasTwinInside(y) {
      LooseVirtual(x, y, path);
    } else {
      ExactlyMeansIdentical(x);
      ExactlyMeansIdentical(y);
      forall rules: map<string, Rule> | Classify(x, y, path, rules) == ExpectedLimitation
        ensures Identical(x, rules[path].reference) && Identical(y, rules[path].virtual)
      {
        assert Exactly(x, rules[path].reference) && Exactly(y, rules[path].virtual);
      }
    }
  }

  lemma LooseReference(x: Value, y: Value, path: string)
    requires Keyed(x) && HasTwinInside(x) && y != Null && !Exactly(x, y)
    ensures Classify(x, y, path, Citing(path, Twin(x), y)) == ExpectedLimitation
    ensures !Identical(x, Citing(path, Twin(x), y)[path].reference)
  {
    TwinPasses(x);
    EqualIsReflexive(y);
    CitedLeaf(x, y, path, Citing(path, Twin(x), y));
  }

  lemma LooseVirtual(x: Value, y: Value, path: string)
    requires Keyed(y) && HasTwinInside(y) && x != Null && !Exactly(x, y)
    ensures Classify(x, y, path, Citing(path, x, Twin(y))) == ExpectedLimitation
    ensures !Identical(y, Citing(path, x, Twin(y))[path].virtual)
  {
    TwinPasses(y);
    EqualIsReflexive(x);
    CitedLeaf(x, y, path, Citing(path, x, Twin(y)));
  }

  // ---------------------------------------------------------------- swapping the sides

  function SwapRules(rules: map<string, Rule>): map<string, Rule> {
    map path | path in rules ::
      rules[path].(reference := rules[path].virtual, virtual := rules[path].reference)
  }

  lemma ClassifySwapped(x: Value, y: Value, path: string, rules: map<string, Rule>)
    ensures Classify(y, x, path, SwapRules(rules)) == Classify(x, y, path, rules)
  {
    if Equal(x, y) {
      EqualIsSymmetric(x, y);
    }
    if Equal(y, x) {
      EqualIsSymmetric(y, x);
    }
  }

  lemma FieldSwapped(a: Record, b: Record, field: string, rules: map<string, Rule>)
    ensures ResultOf(b, a, field, SwapRules(rules)) == ResultOf(a, b, field, rules)
  {
    if Comparable(a, b, field) {
      var av, bv := Flatten(a.values(field), field), Flatten(b.values(field), field);
      var one, other := ResultOf(a, b, field, rules).classes,
                        ResultOf(b, a, field, SwapRules(rules)).classes;
      forall path | path in one ensures path in other && other[path] == one[path] {
        ClassifySwapped(Leaf(av, path), Leaf(bv, path), path, rules);
      }
      assert other.Keys == one.Keys;
    }
  }

  /** Swapping the sides and the rules changes no count. */
  lemma SwapKeepsCounts(a: Record, b: Record, rules: map<string, Rule>, c: Class)
    ensures Counts(ReportOf(b, a, SwapRules(rules)), c) == Counts(ReportOf(a, b, rules), c)
  {
    var one, other := ReportOf(a, b, rules), ReportOf(b, a, SwapRules(rules));
    forall i | 0 <= i < |FIELDS| ensures one.fields[i] == other.fields[i] {
      FieldSwapped(a, b, FIELDS[i], rules);
    }
    assert one.fields == other.fields;
  }
}
