/** The script that merges the Trivy reports of several images into one SARIF run: labels on
    results, rules kept once by id, rule indices renumbered. Reports are taken as parsed SARIF;
    a field nothing here looks at is part of `rest`. */
module Sarif {
  import opened Base

  datatype Rule = Rule(id: string, rest: string)

  datatype Message = Message(text: Option<string>, rest: string)

  datatype Finding = Finding(ruleId: Option<string>, ruleIndex: Option<int>, message: Option<Message>,
                             properties: Option<map<string, string>>, rest: string)

  datatype Run = Run(driver: map<string, string>, rules: seq<Rule>, results: seq<Finding>)

  datatype Report = Report(path: string, runs: seq<Run>)

  datatype Merged = Merged(driver: map<string, string>, rules: seq<Rule>, results: seq<Finding>)

  // ---------------------------------------------------------------- labels

  predicate StartsWith(s: string, prefix: string) {
    |prefix| <= |s| && s[..|prefix|] == prefix
  }

  function Basename(path: string): string {
    if path == "" || path[|path| - 1] == '/' then ""
    else Basename(path[..|path| - 1]) + [path[|path| - 1]]
  }

  function RemoveSuffix(s: string, suffix: string): string {
    if |suffix| <= |s| && s[|s| - |suffix|..] == suffix then s[..|s| - |suffix|] else s
  }

  const IMAGE_PREFIX := "trivy-image-"
  const PREFIX := "trivy-"
  const SUFFIX := ".sarif"

  function LabelFor(path: string): string {
    var name := Basename(path);
    var cut := if StartsWith(name, IMAGE_PREFIX) then name[|IMAGE_PREFIX|..]
               else if StartsWith(name, PREFIX) then name[|PREFIX|..] else name;
    RemoveSuffix(cut, SUFFIX)
  }

  lemma {:induction false} BasenameOf(dir: string, name: string)
    requires '/' !in name && (dir == "" || dir[|dir| - 1] == '/')
    ensures Basename(dir + name) == name
    decreases |name|
  {
    var path := dir + name;
    if name == "" {
      assert path == dir;
    } else {
      var n := |name| - 1;
      BasenameOf(dir, name[..n]);
      assert path[..|path| - 1] == dir + name[..n] && path[|path| - 1] == name[n];
      assert name[..n] + [name[n]] == name;
    }
  }

  /** The workflow's file names give the image back, whatever the directory and whatever the
      image is called. */
  lemma LabelRoundTrip(dir: string, image: string)
    requires '/' !in image && (dir == "" || dir[|dir| - 1] == '/')
    ensures LabelFor(dir + (IMAGE_PREFIX + image + SUFFIX)) == image
  {
    var name := IMAGE_PREFIX + image + SUFFIX;
    assert '/' !in IMAGE_PREFIX && '/' !in SUFFIX;
    BasenameOf(dir, name);
    assert name[..|IMAGE_PREFIX|] == IMAGE_PREFIX;
    assert name[|IMAGE_PREFIX|..] == image + SUFFIX;
    assert (image + SUFFIX)[|image|..] == SUFFIX && (image + SUFFIX)[..|image|] == image;
  }

  function Tag(image: string): string { "[" + image + "]" }

  function LabelText(image: string, text: string): string {
    if StartsWith(text, Tag(image)) then text else Tag(image) + " " + text
  }

  /** Names without the long prefix: the short one is cut off, or nothing is. */
  lemma LabelOfOthers(dir: string, name: string)
    requires '/' !in name && (dir == "" || dir[|dir| - 1] == '/')
    ensures !StartsWith(name + SUFFIX, PREFIX) ==> LabelFor(dir + (name + SUFFIX)) == name
    ensures !StartsWith(PREFIX + name + SUFFIX, IMAGE_PREFIX) ==> LabelFor(dir + (PREFIX + name + SUFFIX)) == name
  {
    assert '/' !in SUFFIX && '/' !in PREFIX;
    BasenameOf(dir, name + SUFFIX);
    BasenameOf(dir, PREFIX + name + SUFFIX);
    assert (name + SUFFIX)[|name|..] == SUFFIX && (name + SUFFIX)[..|name|] == name;
    var long := PREFIX + name + SUFFIX;
    assert long[..|PREFIX|] == PREFIX && long[|PREFIX|..] == name + SUFFIX;
    if StartsWith(name + SUFFIX, IMAGE_PREFIX) {
      ImageIsTrivy(name + SUFFIX);
    }
  }

  lemma ImageIsTrivy(s: string)
    requires StartsWith(s, IMAGE_PREFIX)
    ensures StartsWith(s, PREFIX)
  {
    assert IMAGE_PREFIX[..|PREFIX|] == PREFIX;
    assert s[..|PREFIX|] == s[..|IMAGE_PREFIX|][..|PREFIX|];
  }

  /** What the merge does to one result before it is numbered again. */
  function Labelled(image: string, f: Finding): Finding {
    var m := if f.message.Some? then f.message.value else Message(None, "");
    var text := if m.text.Some? then Some(LabelText(image, m.text.value)) else None;
    var props := if f.properties.Some? then f.properties.value else map[];
    f.(ruleIndex := None, message := Some(m.(text := text)), properties := Some(props["image" := image]))
  }

  /** The same finding with its label: every field written out. The text gets the label in front
      unless it has it already, the image goes into the properties, the index is dropped, and all
      else stays. */
  ghost predicate Carries(image: string, f: Finding, g: Finding) {
    && g.ruleId == f.ruleId && g.rest == f.rest && g.message.Some?
    && g.message.value.rest == (if f.message.Some? then f.message.value.rest else "")
    && (g.message.value.text.Some? <==> f.message.Some? && f.message.value.text.Some?)
    && (g.message.value.text.Some? ==>
          var was := f.message.value.text.value;
          g.message.value.text.value ==
          if |image| + 2 <= |was| && was[..|image| + 2] == "[" + image + "]" then was else "[" + image + "] " + was)
    && g.properties.Some? && "image" in g.properties.value && g.properties.value["image"] == image
    && (forall key :: key != "image" ==>
          && (key in g.properties.value <==> f.properties.Some? && key in f.properties.value)
          && (key in g.properties.value ==> g.properties.value[key] == f.properties.value[key]))
  }

  lemma LabelledCarries(image: string, f: Finding)
    ensures Carries(image, f, Labelled(image, f)) && Labelled(image, f).ruleIndex == None
  {
    if f.message.Some? && f.message.value.text.Some? {
      var was := f.message.value.text.value;
      assert |Tag(image)| == |image| + 2;
      assert Tag(image) + " " + was == "[" + image + "] " + was;
    }
  }

  /** A labelled text names its image, ends in the text as it was, and is not labelled twice. */
  lemma LabellingIsSafe(image: string, f: Finding)
    ensures var g := Labelled(image, f);
            && g.properties.Some? && "image" in g.properties.value && g.properties.value["image"] == image
            && (f.message.Some? && f.message.value.text.Some? ==>
                  && g.message.value.text.Some?
                  && var was, now := f.message.value.text.value, g.message.value.text.value;
                  StartsWith(now, Tag(image)) && |was| <= |now| && now[|now| - |was|..] == was)
            && Labelled(image, g) == g
  {
    var props := Labelled(image, f).properties.value;
    assert props["image" := image] == props;
    if f.message.Some? && f.message.value.text.Some? {
      var was := f.message.value.text.value;
      var now := LabelText(image, was);
      if !StartsWith(was, Tag(image)) {
        assert now[..|Tag(image)|] == Tag(image);
        assert now[|now| - |was|..] == was;
      }
    }
  }

  // ---------------------------------------------------------------- rules

  predicate HasRule(rules: seq<Rule>, id: string) {
    exists i :: 0 <= i < |rules| && rules[i].id == id
  }

  /** `setdefault` for each rule in turn. */
  function AddRules(rules: seq<Rule>, more: seq<Rule>): seq<Rule> {
    if more == [] then rules
    else
      var so := AddRules(rules, more[..|more| - 1]);
      var r := more[|more| - 1];
      if HasRule(so, r.id) then so else so + [r]
  }

  /** Position of the first rule with that id. */
  function FirstWith(rules: seq<Rule>, id: string): Option<nat> {
    if rules == [] then None
    else
      var p := FirstWith(rules[..|rules| - 1], id);
      if p.Some? then p else if rules[|rules| - 1].id == id then Some(|rules| - 1) else None
  }

  lemma {:induction false} FirstWithSpec(rules: seq<Rule>, id: string)
    ensures FirstWith(rules, id).Some? <==> HasRule(rules, id)
    ensures FirstWith(rules, id).Some? ==>
              var p := FirstWith(rules, id).value;
              p < |rules| && rules[p].id == id && forall i :: 0 <= i < p ==> rules[i].id != id
  {
    if rules != [] {
      var n := |rules| - 1;
      FirstWithSpec(rules[..n], id);
      assert forall i :: 0 <= i < n ==> rules[..n][i] == rules[i];
    }
  }

  ghost predicate DistinctIds(rules: seq<Rule>) {
    forall i, j :: 0 <= i < j < |rules| ==> rules[i].id != rules[j].id
  }

  /** Of every id that occurs, exactly one rule is kept, and it is the first. */
  lemma {:induction false} AddRulesKeepsFirst(all: seq<Rule>)
    ensures DistinctIds(AddRules([], all))
    ensures forall id :: HasRule(AddRules([], all), id) <==> HasRule(all, id)
    ensures forall i :: 0 <= i < |AddRules([], all)| ==>
              var r := AddRules([], all)[i];
              FirstWith(all, r.id).Some? && FirstWith(all, r.id).value < |all| && all[FirstWith(all, r.id).value] == r
  {
    if all != [] {
      var n := |all| - 1;
      AddRulesKeepsFirst(all[..n]);
      var so, r := AddRules([], all[..n]), all[n];
      var now := AddRules([], all);
      forall id ensures HasRule(now, id) <==> HasRule(all, id) {
        HasRuleSnoc(all[..n], r, id);
        HasRuleSnoc(so, r, id);
        assert all == all[..n] + [r];
      }
      if !HasRule(so, r.id) {
        assert !HasRule(all[..n], r.id);
        FirstWithSpec(all[..n], r.id);
        assert forall i :: 0 <= i < |so| ==> now[i] == so[i];
      }
    }
  }

  lemma HasRuleSnoc(rules: seq<Rule>, r: Rule, id: string)
    ensures HasRule(rules + [r], id) <==> HasRule(rules, id) || r.id == id
  {
    var all := rules + [r];
    assert all[|rules|] == r;
    assert forall i :: 0 <= i < |rules| ==> all[i] == rules[i];
  }

  /** Rules keep the order in which their ids first occur. */
  lemma {:induction false} AddRulesKeepsOrder(all: seq<Rule>, i: nat, j: nat)
    requires i < j < |AddRules([], all)|
    ensures var rules := AddRules([], all);
            FirstWith(all, rules[i].id).Some? && FirstWith(all, rules[j].id).Some?
            && FirstWith(all, rules[i].id).value < FirstWith(all, rules[j].id).value
  {
    var n := |all| - 1;
    var so := AddRules([], all[..n]);
    AddRulesKeepsFirst(all);
    AddRulesKeepsFirst(all[..n]);
    if j < |so| {
      AddRulesKeepsOrder(all[..n], i, j);
    } else {
      FirstWithSpec(all[..n], all[n].id);
      FirstWithSpec(all[..n], so[i].id);
      assert HasRule(so, so[i].id);
    }
  }

  /** Adding in two goes is adding once. */
  lemma {:induction false} AddRulesAppend(rules: seq<Rule>, a: seq<Rule>, b: seq<Rule>)
    ensures AddRules(AddRules(rules, a), b) == AddRules(rules, a + b)
    decreases |b|
  {
    if b == [] {
      assert a + b == a;
    } else {
      AddRulesAppend(rules, a, b[..|b| - 1]);
      assert (a + b)[..|a + b| - 1] == a + b[..|b| - 1];
    }
  }

  /** So merging reports in batches, and then the merged batches, keeps the same rules in the
      same order as merging them all at once. */
  lemma {:induction false} RulesMergeInBatches(a: seq<Rule>, b: seq<Rule>)
    ensures AddRules(AddRules([], a), AddRules([], b)) == AddRules([], a + b)
    decreases |b|
  {
    if b == [] {
      assert a + b == a;
    } else {
      var n := |b| - 1;
      RulesMergeInBatches(a, b[..n]);
      assert (a + b)[..|a + b| - 1] == a + b[..n];
      var left, so, r := AddRules([], a), AddRules([], b[..n]), b[n];
      if HasRule(so, r.id) {
        AddRulesHas(left, so, r.id);
      } else {
        assert (so + [r])[..|so|] == so;
      }
    }
  }

  lemma {:induction false} AddRulesHas(rules: seq<Rule>, more: seq<Rule>, id: string)
    ensures HasRule(AddRules(rules, more), id) <==> HasRule(rules, id) || HasRule(more, id)
    decreases |more|
  {
    if more != [] {
      var n := |more| - 1;
      AddRulesHas(rules, more[..n], id);
      HasRuleSnoc(more[..n], more[n], id);
      HasRuleSnoc(AddRules(rules, more[..n]), more[n], id);
      assert more == more[..n] + [more[n]];
    }
  }

  // ---------------------------------------------------------------- the reports as one list

  datatype Scan = Scan(image: string, run: Run)

  /** Every run of every report with the label of its file, in order. */
  function Scans(reports: seq<Report>): seq<Scan> {
    if reports == [] then []
    else Scans(reports[..|reports| - 1]) + ScansOf(reports[|reports| - 1])
  }

  function ScansOf(report: Report): (s: seq<Scan>)
    ensures |s| == |report.runs| && forall i :: 0 <= i < |s| ==> s[i] == Scan(LabelFor(report.path), report.runs[i])
  {
    seq(|report.runs|, i requires 0 <= i < |report.runs| => Scan(LabelFor(report.path), report.runs[i]))
  }

  function RulesIn(scans: seq<Scan>): seq<Rule> {
    if scans == [] then [] else RulesIn(scans[..|scans| - 1]) + scans[|scans| - 1].run.rules
  }

  function LabelledAll(image: string, fs: seq<Finding>): (g: seq<Finding>)
    ensures |g| == |fs| && forall i :: 0 <= i < |fs| ==> g[i] == Labelled(image, fs[i])
  {
    seq(|fs|, i requires 0 <= i < |fs| => Labelled(image, fs[i]))
  }

  /** Every result of every run, labelled, in order. */
  function ResultsIn(scans: seq<Scan>): seq<Finding> {
    if scans == [] then []
    else ResultsIn(scans[..|scans| - 1]) + LabelledAll(scans[|scans| - 1].image, scans[|scans| - 1].run.results)
  }

  const KEYS := ["name", "version", "informationUri", "semanticVersion"]

  /** The value the first run that has the key gives it. */
  function FirstValue(scans: seq<Scan>, key: string): Option<string> {
    if scans == [] then None
    else
      var v := FirstValue(scans[..|scans| - 1], key);
      if v.Some? then v
      else if key in scans[|scans| - 1].run.driver then Some(scans[|scans| - 1].run.driver[key]) else None
  }

  /** The tool's fields: the name is fixed from the start, the others are the first run's. */
  ghost predicate DriverOf(driver: map<string, string>, scans: seq<Scan>) {
    forall key :: (key in driver <==> key == "name" || (key in KEYS && FirstValue(scans, key).Some?))
                  && (key in driver ==> driver[key] == if key == "name" then "Trivy" else FirstValue(scans, key).value)
  }

  // ---------------------------------------------------------------- the merge

  /** The index is positional: it points at the rule it names, or there is none to point at. */
  predicate Numbered(rules: seq<Rule>, before: Finding, after: Finding) {
    && after.(ruleIndex := before.ruleIndex) == before
    && (after.ruleIndex.Some? <==> before.ruleId.Some? && HasRule(rules, before.ruleId.value))
    && (after.ruleIndex.Some? ==>
          0 <= after.ruleIndex.value < |rules| && rules[after.ruleIndex.value].id == before.ruleId.value)
  }

  method MergeRules(rules: seq<Rule>, more: seq<Rule>) returns (all: seq<Rule>)
    ensures all == AddRules(rules, more)
  {
    all := rules;
    for i := 0 to |more|
      invariant all == AddRules(rules, more[..i])
    {
      assert more[..i + 1][..i] == more[..i];
      if !HasRule(all, more[i].id) {
        all := all + [more[i]];
      }
    }
    assert more[..|more|] == more;
  }

  method MergeResults(results: seq<Finding>, image: string, more: seq<Finding>) returns (all: seq<Finding>)
    ensures all == results + LabelledAll(image, more)
    ensures |all| == |results| + |more| && all[..|results|] == results
    ensures forall i :: 0 <= i < |more| ==>
              Carries(image, more[i], all[|results| + i]) && all[|results| + i].ruleIndex == None
  {
    all := results;
    ghost var done := LabelledAll(image, more);
    for i := 0 to |more|
      invariant all == results + done[..i]
    {
      var f := more[i].(ruleIndex := None);
      if f.message.None? {
        f := f.(message := Some(Message(None, "")));
      }
      var text := f.message.value.text;
      if text.Some? && !StartsWith(text.value, Tag(image)) {
        f := f.(message := Some(f.message.value.(text := Some(Tag(image) + " " + text.value))));
      }
      if f.properties.None? {
        f := f.(properties := Some(map[]));
      }
      f := f.(properties := Some(f.properties.value["image" := image]));
      assert f == Labelled(image, more[i]);
      all := all + [f];
      assert done[..i + 1] == done[..i] + [done[i]];
    }
    assert done[..|more|] == done;
    forall i | 0 <= i < |more| ensures Carries(image, more[i], done[i]) && done[i].ruleIndex == None {
      LabelledCarries(image, more[i]);
    }
  }

  method MergeDriver(driver: map<string, string>, run: map<string, string>) returns (all: map<string, string>)
    ensures forall key :: key in all <==> key in driver || (key in KEYS && key in run)
    ensures forall key :: key in all ==> all[key] == if key in driver then driver[key] else run[key]
  {
    all := driver;
    for i := 0 to |KEYS|
      invariant forall key :: key in all <==> key in driver || (key in KEYS[..i] && key in run)
      invariant forall key :: key in all ==> all[key] == if key in driver then driver[key] else run[key]
    {
      var key := KEYS[i];
      assert KEYS[..i + 1] == KEYS[..i] + [key];
      if key in run && key !in all {
        all := all[key := run[key]];
      }
    }
  }

  method IndexRules(rules: seq<Rule>) returns (index: map<string, nat>)
    requires DistinctIds(rules)
    ensures forall id :: id in index <==> HasRule(rules, id)
    ensures forall id :: id in index ==> index[id] < |rules| && rules[index[id]].id == id
  {
    index := map[];
    for i := 0 to |rules|
      invariant forall id :: id in index <==> HasRule(rules[..i], id)
      invariant forall id :: id in index ==> index[id] < i && rules[index[id]].id == id
    {
      forall id ensures HasRule(rules[..i + 1], id) <==> HasRule(rules[..i], id) || rules[i].id == id {
        HasRuleSnoc(rules[..i], rules[i], id);
        assert rules[..i + 1] == rules[..i] + [rules[i]];
      }
      index := index[rules[i].id := i];
    }
    assert rules[..|rules|] == rules;
  }

  method Renumber(rules: seq<Rule>, results: seq<Finding>) returns (numbered: seq<Finding>)
    requires DistinctIds(rules)
    requires forall i :: 0 <= i < |results| ==> results[i].ruleIndex.None?
    ensures |numbered| == |results| && forall i :: 0 <= i < |results| ==> Numbered(rules, results[i], numbered[i])
  {
    var index := IndexRules(rules);
    numbered := [];
    for i := 0 to |results|
      invariant |numbered| == i && forall k :: 0 <= k < i ==> Numbered(rules, results[k], numbered[k])
    {
      var f := results[i];
      if f.ruleId.Some? && f.ruleId.value in index {
        f := f.(ruleIndex := Some(index[f.ruleId.value]));
      }
      assert Numbered(rules, results[i], f);
      numbered := numbered + [f];
    }
  }

  lemma {:induction false} ResultsInUnnumbered(scans: seq<Scan>)
    ensures forall i :: 0 <= i < |ResultsIn(scans)| ==> ResultsIn(scans)[i].ruleIndex.None?
  {
    if scans != [] {
      ResultsInUnnumbered(scans[..|scans| - 1]);
    }
  }

  /** What one more run adds to each of the four lists. */
  lemma OneMoreScan(scans: seq<Scan>, s: Scan)
    ensures RulesIn(scans + [s]) == RulesIn(scans) + s.run.rules
    ensures ResultsIn(scans + [s]) == ResultsIn(scans) + LabelledAll(s.image, s.run.results)
    ensures AddRules([], RulesIn(scans + [s])) == AddRules(AddRules([], RulesIn(scans)), s.run.rules)
  {
    assert (scans + [s])[..|scans|] == scans;
    AddRulesAppend([], RulesIn(scans), s.run.rules);
  }

  lemma DriverWithScan(driver: map<string, string>, scans: seq<Scan>, s: Scan, after: map<string, string>)
    requires DriverOf(driver, scans)
    requires forall key :: key in after <==> key in driver || (key in KEYS && key in s.run.driver)
    requires forall key :: key in after ==> after[key] == if key in driver then driver[key] else s.run.driver[key]
    ensures DriverOf(after, scans + [s])
  {
    assert (scans + [s])[..|scans|] == scans;
  }

  /** The tool, the rules and the results collected so far are those of these runs. */
  ghost predicate Collected(driver: map<string, string>, rules: seq<Rule>, results: seq<Finding>, scans: seq<Scan>) {
    rules == AddRules([], RulesIn(scans)) && results == ResultsIn(scans) && DriverOf(driver, scans)
  }

  method MergeRun(driver: map<string, string>, rules: seq<Rule>, results: seq<Finding>, image: string, run: Run,
                  ghost seen: seq<Scan>)
    returns (driver': map<string, string>, rules': seq<Rule>, results': seq<Finding>)
    requires Collected(driver, rules, results, seen)
    ensures Collected(driver', rules', results', seen + [Scan(image, run)])
  {
    OneMoreScan(seen, Scan(image, run));
    driver' := MergeDriver(driver, run.driver);
    DriverWithScan(driver, seen, Scan(image, run), driver');
    rules' := MergeRules(rules, run.rules);
    results' := MergeResults(results, image, run.results);
  }

  method MergeReport(driver: map<string, string>, rules: seq<Rule>, results: seq<Finding>, report: Report,
                     ghost seen: seq<Scan>)
    returns (driver': map<string, string>, rules': seq<Rule>, results': seq<Finding>)
    requires Collected(driver, rules, results, seen)
    ensures Collected(driver', rules', results', seen + ScansOf(report))
  {
    driver', rules', results' := driver, rules, results;
    var image := LabelFor(report.path);
    ghost var scans := ScansOf(report);
    ghost var sofar := seen;
    for j := 0 to |report.runs|
      invariant sofar == seen + scans[..j]
      invariant Collected(driver', rules', results', sofar)
    {
      driver', rules', results' := MergeRun(driver', rules', results', image, report.runs[j], sofar);
      sofar := sofar + [Scan(image, report.runs[j])];
      assert scans[..j + 1] == scans[..j] + [scans[j]];
    }
    assert sofar == seen + scans;
  }

  // ---------------------------------------------------------------- by report, run and position

  /** Where a result stands in the input. */
  datatype Place = Place(report: nat, run: nat, at: nat)

  predicate Earlier(p: Place, q: Place) {
    p.report < q.report || (p.report == q.report && (p.run < q.run || (p.run == q.run && p.at < q.at)))
  }

  predicate IsPlace(reports: seq<Report>, p: Place) {
    && p.report < |reports| && p.run < |reports[p.report].runs|
    && p.at < |reports[p.report].runs[p.run].results|
  }

  function FindingAt(reports: seq<Report>, p: Place): Finding
    requires IsPlace(reports, p)
  {
    reports[p.report].runs[p.run].results[p.at]
  }

  ghost predicate InOrder(places: seq<Place>) {
    forall i, j :: 0 <= i < j < |places| ==> Earlier(places[i], places[j])
  }

  lemma InOrderAppend(a: seq<Place>, b: seq<Place>)
    requires InOrder(a) && InOrder(b)
    requires forall i, j :: 0 <= i < |a| && 0 <= j < |b| ==> Earlier(a[i], b[j])
    ensures InOrder(a + b)
  {
  }

  ghost function RunPlaces(r: nat, k: nat, n: nat): (places: seq<Place>)
    ensures |places| == n && forall a :: 0 <= a < n ==> places[a] == Place(r, k, a)
  {
    seq(n, a requires 0 <= a < n => Place(r, k, a))
  }

  ghost function ReportPlaces(report: Report, r: nat, k: nat): seq<Place>
    requires k <= |report.runs|
  {
    if k == 0 then []
    else ReportPlaces(report, r, k - 1) + RunPlaces(r, k - 1, |report.runs[k - 1].results|)
  }

  ghost function Places(reports: seq<Report>, n: nat): seq<Place>
    requires n <= |reports|
  {
    if n == 0 then [] else Places(reports, n - 1) + ReportPlaces(reports[n - 1], n - 1, |reports[n - 1].runs|)
  }

  /** The places of one report's first k runs: those and no others, in order. */
  ghost predicate ReportCovered(report: Report, r: nat, k: nat, places: seq<Place>)
    requires k <= |report.runs|
  {
    && InOrder(places)
    && forall p :: p in places <==> p.report == r && p.run < k && p.at < |report.runs[p.run].results|
  }

  lemma {:induction false} ReportPlacesCover(report: Report, r: nat, k: nat)
    requires k <= |report.runs|
    ensures ReportCovered(report, r, k, ReportPlaces(report, r, k))
  {
    if k > 0 {
      ReportPlacesCover(report, r, k - 1);
      var a, b := ReportPlaces(report, r, k - 1), RunPlaces(r, k - 1, |report.runs[k - 1].results|);
      assert forall i :: 0 <= i < |a| ==> a[i] in a;
      InOrderAppend(a, b);
      forall p ensures p in a + b <==> p.report == r && p.run < k && p.at < |report.runs[p.run].results| {
        if p.report == r && p.run == k - 1 && p.at < |b| { assert b[p.at] == p; }
      }
    }
  }

  ghost predicate Covered(reports: seq<Report>, n: nat, places: seq<Place>) {
    InOrder(places) && forall p :: p in places <==> IsPlace(reports, p) && p.report < n
  }

  lemma {:induction false} PlacesCover(reports: seq<Report>, n: nat)
    requires n <= |reports|
    ensures Covered(reports, n, Places(reports, n))
  {
    if n > 0 {
      PlacesCover(reports, n - 1);
      var report := reports[n - 1];
      ReportPlacesCover(report, n - 1, |report.runs|);
      var a, b := Places(reports, n - 1), ReportPlaces(report, n - 1, |report.runs|);
      assert forall i :: 0 <= i < |a| ==> a[i] in a;
      assert forall i :: 0 <= i < |b| ==> b[i] in b;
      InOrderAppend(a, b);
    }
  }

  lemma {:induction false} ResultsInAppend(a: seq<Scan>, b: seq<Scan>)
    ensures ResultsIn(a + b) == ResultsIn(a) + ResultsIn(b)
    decreases |b|
  {
    if b == [] {
      assert a + b == a;
    } else {
      var n := |b| - 1;
      assert (a + b)[..|a + b| - 1] == a + b[..n] && (a + b)[|a + b| - 1] == b[n];
      ResultsInAppend(a, b[..n]);
      var last := LabelledAll(b[n].image, b[n].run.results);
      assert ResultsIn(a) + ResultsIn(b[..n]) + last == ResultsIn(a) + (ResultsIn(b[..n]) + last);
    }
  }

  /** The collected results are those at the places, one for one. */
  ghost predicate OneForOne(image: string, report: Report, places: seq<Place>, results: seq<Finding>) {
    && |results| == |places|
    && forall i :: 0 <= i < |places| ==>
         && places[i].run < |report.runs| && places[i].at < |report.runs[places[i].run].results|
         && results[i] == Labelled(image, report.runs[places[i].run].results[places[i].at])
  }

  lemma {:induction false} ReportResults(report: Report, r: nat, k: nat)
    requires k <= |report.runs|
    ensures OneForOne(LabelFor(report.path), report, ReportPlaces(report, r, k), ResultsIn(ScansOf(report)[..k]))
  {
    if k > 0 {
      ReportResults(report, r, k - 1);
      assert ScansOf(report)[..k][..k - 1] == ScansOf(report)[..k - 1];
    }
  }

  /** And so for all reports. */
  ghost predicate AllOneForOne(reports: seq<Report>, places: seq<Place>, results: seq<Finding>) {
    && |results| == |places|
    && forall i :: 0 <= i < |places| ==>
         && IsPlace(reports, places[i])
         && results[i] == Labelled(LabelFor(reports[places[i].report].path), FindingAt(reports, places[i]))
  }

  lemma AllOneForOneAppend(reports: seq<Report>, a: seq<Place>, ra: seq<Finding>, b: seq<Place>, rb: seq<Finding>)
    requires AllOneForOne(reports, a, ra) && AllOneForOne(reports, b, rb)
    ensures AllOneForOne(reports, a + b, ra + rb)
  {
  }

  lemma OneReportOneForOne(reports: seq<Report>, r: nat, places: seq<Place>, results: seq<Finding>)
    requires r < |reports| && OneForOne(LabelFor(reports[r].path), reports[r], places, results)
    requires ReportCovered(reports[r], r, |reports[r].runs|, places)
    ensures AllOneForOne(reports, places, results)
  {
    assert forall i :: 0 <= i < |places| ==> places[i] in places;
  }

  lemma {:induction false} ResultsAtPlaces(reports: seq<Report>, n: nat)
    requires n <= |reports|
    ensures AllOneForOne(reports, Places(reports, n), ResultsIn(Scans(reports[..n])))
  {
    if n > 0 {
      ResultsAtPlaces(reports, n - 1);
      var b := ReportAtPlaces(reports, n - 1);
      ScansMore(reports, n);
      AllOneForOneAppend(reports, Places(reports, n - 1), ResultsIn(Scans(reports[..n - 1])), b,
                         ResultsIn(ScansOf(reports[n - 1])));
    }
  }

  lemma ReportAtPlaces(reports: seq<Report>, r: nat) returns (b: seq<Place>)
    requires r < |reports|
    ensures b == ReportPlaces(reports[r], r, |reports[r].runs|)
    ensures AllOneForOne(reports, b, ResultsIn(ScansOf(reports[r])))
  {
    var report := reports[r];
    b := ReportPlaces(report, r, |report.runs|);
    assert ScansOf(report)[..|report.runs|] == ScansOf(report);
    ReportResults(report, r, |report.runs|);
    ReportPlacesCover(report, r, |report.runs|);
    OneReportOneForOne(reports, r, b, ResultsIn(ScansOf(report)));
  }

  lemma ScansMore(reports: seq<Report>, n: nat)
    requires 0 < n <= |reports|
    ensures ResultsIn(Scans(reports[..n])) == ResultsIn(Scans(reports[..n - 1])) + ResultsIn(ScansOf(reports[n - 1]))
  {
    assert reports[..n][..n - 1] == reports[..n - 1];
    ResultsInAppend(Scans(reports[..n - 1]), ScansOf(reports[n - 1]));
  }

  /** A run of a report has a rule with the id. */
  predicate RunHas(reports: seq<Report>, r: int, k: int, id: string) {
    && 0 <= r < |reports| && 0 <= k < |reports[r].runs|
    && exists a :: 0 <= a < |reports[r].runs[k].rules| && reports[r].runs[k].rules[a].id == id
  }

  ghost predicate Occurs(reports: seq<Report>, id: string) { OccursBelow(reports, |reports|, id) }

  ghost predicate OccursBelow(reports: seq<Report>, n: nat, id: string) {
    exists r, k :: r < n && RunHas(reports, r, k, id)
  }

  lemma HasRuleAppend(a: seq<Rule>, b: seq<Rule>, id: string)
    ensures HasRule(a + b, id) <==> HasRule(a, id) || HasRule(b, id)
  {
    if i :| 0 <= i < |a| && a[i].id == id { assert (a + b)[i].id == id; }
    if i :| 0 <= i < |b| && b[i].id == id { assert (a + b)[|a| + i].id == id; }
  }

  lemma {:induction false} RulesInAppend(a: seq<Scan>, b: seq<Scan>)
    ensures RulesIn(a + b) == RulesIn(a) + RulesIn(b)
    decreases |b|
  {
    if b == [] {
      assert a + b == a;
    } else {
      assert (a + b)[..|a + b| - 1] == a + b[..|b| - 1];
      RulesInAppend(a, b[..|b| - 1]);
    }
  }

  lemma {:induction false} ReportRulesIff(reports: seq<Report>, r: nat, n: nat, id: string)
    requires r < |reports| && n <= |reports[r].runs|
    ensures HasRule(RulesIn(ScansOf(reports[r])[..n]), id) <==> exists k :: k < n && RunHas(reports, r, k, id)
  {
    if n > 0 {
      var scans := ScansOf(reports[r]);
      ReportRulesIff(reports, r, n - 1, id);
      assert scans[..n][..n - 1] == scans[..n - 1];
      HasRuleAppend(RulesIn(scans[..n - 1]), reports[r].runs[n - 1].rules, id);
      var k := n - 1;
      assert HasRule(reports[r].runs[k].rules, id) <==> RunHas(reports, r, k, id);
    }
  }

  lemma {:induction false} OccursIff(reports: seq<Report>, n: nat, id: string)
    requires n <= |reports|
    ensures HasRule(RulesIn(Scans(reports[..n])), id) <==> OccursBelow(reports, n, id)
  {
    if n > 0 {
      OccursIff(reports, n - 1, id);
      var last := ScansOf(reports[n - 1]);
      assert reports[..n][..n - 1] == reports[..n - 1] && last[..|last|] == last;
      RulesInAppend(Scans(reports[..n - 1]), last);
      HasRuleAppend(RulesIn(Scans(reports[..n - 1])), RulesIn(last), id);
      ReportRulesIff(reports, n - 1, |last|, id);
      OneMoreReport(reports, n - 1, id);
    }
  }

  lemma OneMoreReport(reports: seq<Report>, n: nat, id: string)
    requires n < |reports|
    ensures OccursBelow(reports, n + 1, id) <==>
            OccursBelow(reports, n, id) || exists k :: k < |reports[n].runs| && RunHas(reports, n, k, id)
  {
    if r, k :| r < n + 1 && RunHas(reports, r, k, id) {
      assert r < n || r == n;
    }
  }

  /** What the merge promises of one result, on the input alone: it is the finding at its place with
      the label of its report, and it has an index exactly when some report has a rule with its
      id, which is then the id of the rule the index points at. */
  ghost predicate Merges(reports: seq<Report>, p: Place, rules: seq<Rule>, g: Finding)
    requires IsPlace(reports, p)
  {
    var f := FindingAt(reports, p);
    && Carries(LabelFor(reports[p.report].path), f, g)
    && (g.ruleIndex.Some? <==> f.ruleId.Some? && Occurs(reports, f.ruleId.value))
    && (g.ruleIndex.Some? ==> 0 <= g.ruleIndex.value < |rules| && rules[g.ruleIndex.value].id == f.ruleId.value)
  }

  lemma IndexAside(image: string, f: Finding, g: Finding, h: Finding)
    requires Carries(image, f, g) && h == g.(ruleIndex := h.ruleIndex)
    ensures Carries(image, f, h)
  {
  }

  lemma MergedAt(reports: seq<Report>, p: Place, rules: seq<Rule>, before: Finding, after: Finding)
    requires IsPlace(reports, p) && before == Labelled(LabelFor(reports[p.report].path), FindingAt(reports, p))
    requires rules == AddRules([], RulesIn(Scans(reports))) && Numbered(rules, before, after)
    ensures Merges(reports, p, rules, after)
  {
    LabelledCarries(LabelFor(reports[p.report].path), FindingAt(reports, p));
    IndexAside(LabelFor(reports[p.report].path), FindingAt(reports, p), before, after);
    if before.ruleId.Some? {
      AddRulesKeepsFirst(RulesIn(Scans(reports)));
      assert reports[..|reports|] == reports;
      OccursIff(reports, |reports|, before.ruleId.value);
    }
  }

  /** The whole merge. The results are the input's own, one for one and in order of report, run and
      position, each labelled and otherwise as it was; of every rule id one rule, the first; and
      every result whose rule occurs in any report, and no other, has an index, which points at the
      rule with its id (section 3.27.6 of SARIF 2.1.0). */
  method Merge(reports: seq<Report>) returns (m: Merged, ghost places: seq<Place>)
    ensures |m.results| == |places| && InOrder(places) && forall p :: p in places <==> IsPlace(reports, p)
    ensures forall i :: 0 <= i < |places| ==>
              IsPlace(reports, places[i]) && Merges(reports, places[i], m.rules, m.results[i])
    ensures m.rules == AddRules([], RulesIn(Scans(reports))) && DistinctIds(m.rules)
    ensures forall id :: HasRule(m.rules, id) <==> Occurs(reports, id)
    ensures DriverOf(m.driver, Scans(reports))
  {
    var driver: map<string, string> := map["name" := "Trivy"];
    var rules: seq<Rule>, results: seq<Finding> := [], [];
    for i := 0 to |reports|
      invariant Collected(driver, rules, results, Scans(reports[..i]))
    {
      driver, rules, results := MergeReport(driver, rules, results, reports[i], Scans(reports[..i]));
      assert reports[..i + 1][..i] == reports[..i];
    }
    assert reports[..|reports|] == reports;
    AddRulesKeepsFirst(RulesIn(Scans(reports)));
    ResultsInUnnumbered(Scans(reports));
    var numbered := Renumber(rules, results);
    m := Merged(driver, rules, numbered);
    places := Places(reports, |reports|);
    MergeIsFaithful(reports, rules, results, numbered);
  }

  lemma MergeIsFaithful(reports: seq<Report>, rules: seq<Rule>, results: seq<Finding>, numbered: seq<Finding>)
    requires rules == AddRules([], RulesIn(Scans(reports))) && results == ResultsIn(Scans(reports))
    requires |numbered| == |results| && forall i :: 0 <= i < |results| ==> Numbered(rules, results[i], numbered[i])
    ensures var places := Places(reports, |reports|);
            && |numbered| == |places| && InOrder(places) && (forall p :: p in places <==> IsPlace(reports, p))
            && forall i :: 0 <= i < |places| ==>
                 IsPlace(reports, places[i]) && Merges(reports, places[i], rules, numbered[i])
    ensures forall id :: HasRule(rules, id) <==> Occurs(reports, id)
  {
    var places := Places(reports, |reports|);
    assert reports[..|reports|] == reports;
    PlacesCover(reports, |reports|);
    ResultsAtPlaces(reports, |reports|);
    forall i | 0 <= i < |places| ensures IsPlace(reports, places[i]) && Merges(reports, places[i], rules, numbered[i]) {
      MergedAt(reports, places[i], rules, results[i], numbered[i]);
    }
    AddRulesKeepsFirst(RulesIn(Scans(reports)));
    forall id ensures HasRule(rules, id) <==> Occurs(reports, id) {
      OccursIff(reports, |reports|, id);
    }
  }
}
