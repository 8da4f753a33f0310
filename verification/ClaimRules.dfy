/** How `compare/summary.go` accounts for a list of changes: rules claim, leftovers are grouped. */
module ClaimRules {
  import opened Options
  import opened Json
  import opened ComparePaths
  import opened CompareReport
  import opened CompareLaws

  /** An insight without its title, which is for display only. */
  datatype Insight = Insight(category: string, a: string, b: string, paths: seq<string>)
  datatype Note = Note(category: string, a: string, b: string)

  /**
   Claims the changes under any of the prefixes and explains them by the
   notes; without `always` it stays silent when there is nothing to claim.
   */
  datatype Rule = Rule(prefixes: seq<string>, notes: seq<Note>, always: bool)

  predicate HasPrefix(path: string, prefix: string) {
    || path == prefix
    || (|prefix| < |path| && path[..|prefix|] == prefix && (path[|prefix|] == '.' || path[|prefix|] == '['))
  }

  predicate IsUnder(path: string, prefixes: seq<string>) {
    exists i :: 0 <= i < |prefixes| && HasPrefix(path, prefixes[i])
  }

  predicate Covered(rules: seq<Rule>, path: string) {
    rules != [] && (IsUnder(path, rules[|rules| - 1].prefixes) || Covered(rules[..|rules| - 1], path))
  }

  /** The changes among the first n that no earlier rule has claimed. */
  function Taken(changes: seq<FieldChange>, rules: seq<Rule>, prefixes: seq<string>, n: nat): seq<nat>
    requires n <= |changes|
  {
    if n == 0 then []
    else
      var before := Taken(changes, rules, prefixes, n - 1);
      if !Covered(rules, changes[n - 1].path) && IsUnder(changes[n - 1].path, prefixes) then before + [n - 1] else before
  }

  function Paths(changes: seq<FieldChange>, claim: seq<nat>): seq<string> {
    seq(|claim|, i requires 0 <= i < |claim| => if claim[i] < |changes| then changes[claim[i]].path else "")
  }

  function Insights(rule: Rule, paths: seq<string>): seq<Insight> {
    if rule.always || |paths| > 0
    then seq(|rule.notes|, i requires 0 <= i < |rule.notes| =>
               Insight(rule.notes[i].category, rule.notes[i].a, rule.notes[i].b, paths))
    else []
  }

  /** Each rule's claim, in order. */
  function Claims(changes: seq<FieldChange>, rules: seq<Rule>): (r: seq<seq<nat>>)
    ensures |r| == |rules|
  {
    if rules == [] then []
    else
      var init, last := rules[..|rules| - 1], rules[|rules| - 1];
      Claims(changes, init) + [Taken(changes, init, last.prefixes, |changes|)]
  }

  function Explained(changes: seq<FieldChange>, rules: seq<Rule>): seq<Insight> {
    if rules == [] then []
    else
      var init, last := rules[..|rules| - 1], rules[|rules| - 1];
      Explained(changes, init) + Insights(last, Paths(changes, Taken(changes, init, last.prefixes, |changes|)))
  }

  // ---- leftovers -----------------------------------------------------------

  function Left(changes: seq<FieldChange>, rules: seq<Rule>, n: nat): seq<nat>
    requires n <= |changes|
  {
    if n == 0 then []
    else
      var before := Left(changes, rules, n - 1);
      if Covered(rules, changes[n - 1].path) then before else before + [n - 1]
  }

  /** The top two path segments. */
  function Section(path: string): string {
    var parts := SplitFrom(path, 0, 0, 0);
    if |parts| == 0 then "" else if |parts| == 1 then parts[0] else parts[0] + "." + parts[1]
  }

  function Sections(changes: seq<FieldChange>): (r: seq<string>)
    ensures |r| == |changes|
  {
    seq(|changes|, i requires 0 <= i < |changes| => Section(changes[i].path))
  }

  function SectionAt(sections: seq<string>, i: nat): string {
    if i < |sections| then sections[i] else ""
  }

  /** Sections in the order they are first seen. */
  function Order(sections: seq<string>, left: seq<nat>): seq<string> {
    if left == [] then []
    else
      var before, g := Order(sections, left[..|left| - 1]), SectionAt(sections, left[|left| - 1]);
      if g in before then before else before + [g]
  }

  function Group(sections: seq<string>, left: seq<nat>, g: string): seq<nat> {
    if left == [] then []
    else
      var before := Group(sections, left[..|left| - 1], g);
      if SectionAt(sections, left[|left| - 1]) == g then before + [left[|left| - 1]] else before
  }

  function Groups(changes: seq<FieldChange>, rules: seq<Rule>): seq<seq<nat>> {
    var sections, left := Sections(changes), Left(changes, rules, |changes|);
    var order := Order(sections, left);
    seq(|order|, k requires 0 <= k < |order| => Group(sections, left, order[k]))
  }

  function Text(render: Printer, v: Option<Json>): string {
    if v.None? then "" else render(v.value)
  }

  function GroupInsight(render: Printer, changes: seq<FieldChange>, g: string, claim: seq<nat>): Insight {
    var category := if |g| >= 8 && g[..8] == "metadata" then "other" else "spec";
    if |claim| == 1 && claim[0] < |changes|
    then Insight(category, Text(render, changes[claim[0]].a), Text(render, changes[claim[0]].b), Paths(changes, claim))
    else Insight(category, "", "", Paths(changes, claim))
  }

  function GroupInsights(render: Printer, changes: seq<FieldChange>, sections: seq<string>, left: seq<nat>,
                         order: seq<string>): seq<Insight> {
    seq(|order|, k requires 0 <= k < |order| =>
          GroupInsight(render, changes, order[k], Group(sections, left, order[k])))
  }

  /** The whole summary under a list of rules. */
  function Summary(render: Printer, changes: seq<FieldChange>, rules: seq<Rule>): seq<Insight> {
    var sections, left := Sections(changes), Left(changes, rules, |changes|);
    Explained(changes, rules) + GroupInsights(render, changes, sections, left, Order(sections, left))
  }

  // ---- what the summary accounts for ---------------------------------------

  /** Claims of the rules, then of the leftover groups. */
  function AllClaims(changes: seq<FieldChange>, rules: seq<Rule>): seq<seq<nat>> {
    Claims(changes, rules) + Groups(changes, rules)
  }

  lemma {:induction false} TakenIff(changes: seq<FieldChange>, rules: seq<Rule>, prefixes: seq<string>, n: nat, i: nat)
    requires n <= |changes|
    ensures i in Taken(changes, rules, prefixes, n)
       <==> i < n && !Covered(rules, changes[i].path) && IsUnder(changes[i].path, prefixes)
  {
    if n > 0 {
      TakenIff(changes, rules, prefixes, n - 1, i);
    }
  }

  lemma {:induction false} LeftIff(changes: seq<FieldChange>, rules: seq<Rule>, n: nat, i: nat)
    requires n <= |changes|
    ensures i in Left(changes, rules, n) <==> i < n && !Covered(rules, changes[i].path)
  {
    if n > 0 {
      LeftIff(changes, rules, n - 1, i);
    }
  }

  lemma {:induction false} GroupIff(sections: seq<string>, left: seq<nat>, g: string, i: nat)
    ensures i in Group(sections, left, g) <==> i in left && SectionAt(sections, i) == g
  {
    if left != [] {
      GroupIff(sections, left[..|left| - 1], g, i);
    }
  }

  lemma {:induction false} OrderListsSections(sections: seq<string>, left: seq<nat>, i: nat)
    ensures i in left ==> SectionAt(sections, i) in Order(sections, left)
  {
    if left != [] {
      OrderListsSections(sections, left[..|left| - 1], i);
    }
  }

  lemma DistinctAppend(names: seq<string>, n: string)
    requires Distinct(names) && n !in names
    ensures Distinct(names + [n])
  {
  }

  lemma {:induction false} OrderIsDistinct(sections: seq<string>, left: seq<nat>)
    ensures Distinct(Order(sections, left))
  {
    if left != [] {
      OrderIsDistinct(sections, left[..|left| - 1]);
      var before, g := Order(sections, left[..|left| - 1]), SectionAt(sections, left[|left| - 1]);
      if g !in before {
        DistinctAppend(before, g);
      }
    }
  }

  lemma {:induction false} CoveredIff(rules: seq<Rule>, path: string)
    ensures Covered(rules, path) <==> exists k :: 0 <= k < |rules| && IsUnder(path, rules[k].prefixes)
  {
    if rules != [] {
      var init := rules[..|rules| - 1];
      CoveredIff(init, path);
      if Covered(init, path) {
        var k :| 0 <= k < |init| && IsUnder(path, init[k].prefixes);
        assert IsUnder(path, rules[k].prefixes);
      }
      if k :| 0 <= k < |rules| && IsUnder(path, rules[k].prefixes) {
        assert k < |init| ==> IsUnder(path, init[k].prefixes);
      }
    }
  }

  /** A change belongs to the first rule whose prefixes its path is under. */
  lemma {:induction false} FirstRuleTakes(changes: seq<FieldChange>, rules: seq<Rule>, k: nat, i: nat)
    requires k < |rules| && i < |changes|
    ensures i in Claims(changes, rules)[k]
       <==> IsUnder(changes[i].path, rules[k].prefixes)
            && !Covered(rules[..k], changes[i].path)
  {
    var init := rules[..|rules| - 1];
    if k == |rules| - 1 {
      TakenIff(changes, init, rules[k].prefixes, |changes|, i);
    } else {
      FirstRuleTakes(changes, init, k, i);
      assert init[..k] == rules[..k];
    }
  }

  lemma {:induction false} FirstCovering(rules: seq<Rule>, path: string) returns (k: nat)
    requires Covered(rules, path)
    ensures k < |rules| && IsUnder(path, rules[k].prefixes) && !Covered(rules[..k], path)
  {
    var init := rules[..|rules| - 1];
    if Covered(init, path) {
      k := FirstCovering(init, path);
      assert init[..k] == rules[..k];
    } else {
      k := |rules| - 1;
    }
  }

  lemma CoveredGrows(rules: seq<Rule>, k: nat, path: string)
    requires k < |rules| && IsUnder(path, rules[k].prefixes)
    ensures forall j :: k < j <= |rules| ==> Covered(rules[..j], path)
  {
    forall j | k < j <= |rules| ensures Covered(rules[..j], path) {
      CoveredIff(rules[..j], path);
      assert IsUnder(path, rules[..j][k].prefixes);
    }
  }

  /** Every change is in exactly one claim. */
  lemma EachChangeClaimedOnce(changes: seq<FieldChange>, rules: seq<Rule>, i: nat) returns (k: nat)
    requires i < |changes|
    ensures k < |AllClaims(changes, rules)| && i in AllClaims(changes, rules)[k]
    ensures forall j :: 0 <= j < |AllClaims(changes, rules)| && i in AllClaims(changes, rules)[j] ==> j == k
  {
    var all, n := AllClaims(changes, rules), |rules|;
    var left := Left(changes, rules, |changes|);
    LeftIff(changes, rules, |changes|, i);
    if Covered(rules, changes[i].path) {
      k := FirstCovering(rules, changes[i].path);
      CoveredGrows(rules, k, changes[i].path);
    } else {
      k := GroupPosition(Sections(changes), left, i);
      k := n + k;
    }
    forall j | 0 <= j < |all| ensures i in all[j] <==> j == k {
      if j < n {
        RuleClaim(changes, rules, j, i, k);
      } else {
        GroupClaim(Sections(changes), left, j - n, i, k - n);
        assert all[j] == Groups(changes, rules)[j - n];
      }
    }
  }

  lemma GroupPosition(sections: seq<string>, left: seq<nat>, i: nat) returns (g: nat)
    requires i in left
    ensures g < |Order(sections, left)| && Order(sections, left)[g] == SectionAt(sections, i)
  {
    OrderListsSections(sections, left, i);
    g :| g < |Order(sections, left)| && Order(sections, left)[g] == SectionAt(sections, i);
  }

  lemma RuleClaim(changes: seq<FieldChange>, rules: seq<Rule>, j: nat, i: nat, k: nat)
    requires j < |rules| && i < |changes|
    requires Covered(rules, changes[i].path)
             ==> k < |rules| && IsUnder(changes[i].path, rules[k].prefixes) && !Covered(rules[..k], changes[i].path)
                 && forall m :: k < m <= |rules| ==> Covered(rules[..m], changes[i].path)
    requires !Covered(rules, changes[i].path) ==> k >= |rules|
    ensures i in AllClaims(changes, rules)[j] <==> j == k
  {
    FirstRuleTakes(changes, rules, j, i);
    if IsUnder(changes[i].path, rules[j].prefixes) {
      CoveredIff(rules, changes[i].path);
      CoveredGrows(rules, j, changes[i].path);
    }
  }

  lemma GroupClaim(sections: seq<string>, left: seq<nat>, j: nat, i: nat, k: int)
    requires j < |Order(sections, left)|
    requires i in left ==> 0 <= k < |Order(sections, left)| && Order(sections, left)[k] == SectionAt(sections, i)
    requires i !in left ==> k < 0
    ensures i in Group(sections, left, Order(sections, left)[j]) <==> j == k
  {
    GroupIff(sections, left, Order(sections, left)[j], i);
    OrderIsDistinct(sections, left);
  }

  /** Each rule has something to say, and just one thing unless it does so always. */
  ghost predicate AllSpeak(rules: seq<Rule>) {
    forall k :: 0 <= k < |rules| ==> |rules[k].notes| > 0 && (!rules[k].always ==> |rules[k].notes| == 1)
  }

  lemma {:induction false} InsightOfClaim(changes: seq<FieldChange>, rules: seq<Rule>, k: nat) returns (j: nat)
    requires k < |rules| && Claims(changes, rules)[k] != [] && |rules[k].notes| > 0
    ensures j < |Explained(changes, rules)|
    ensures Explained(changes, rules)[j].paths == Paths(changes, Claims(changes, rules)[k])
  {
    var init := rules[..|rules| - 1];
    if k < |init| {
      j := InsightOfClaim(changes, init, k);
    } else {
      j := |Explained(changes, init)|;
    }
  }

  lemma {:induction false} ClaimOfInsight(changes: seq<FieldChange>, rules: seq<Rule>, j: nat) returns (k: nat)
    requires j < |Explained(changes, rules)|
    ensures k < |rules| && Explained(changes, rules)[j].paths == Paths(changes, Claims(changes, rules)[k])
  {
    var init := rules[..|rules| - 1];
    if j < |Explained(changes, init)| {
      k := ClaimOfInsight(changes, init, j);
    } else {
      k := |init|;
    }
  }

  /** Every change's path is listed by an insight. */
  lemma EachPathIsShown(render: Printer, changes: seq<FieldChange>, rules: seq<Rule>, i: nat) returns (j: nat)
    requires i < |changes| && AllSpeak(rules)
    ensures j < |Summary(render, changes, rules)| && changes[i].path in Summary(render, changes, rules)[j].paths
  {
    var k := EachChangeClaimedOnce(changes, rules, i);
    ListedInClaim(changes, AllClaims(changes, rules)[k], i);
    if k < |rules| {
      assert AllClaims(changes, rules)[k] == Claims(changes, rules)[k];
      j := InsightOfClaim(changes, rules, k);
      assert Summary(render, changes, rules)[j] == Explained(changes, rules)[j];
    } else {
      j := InsightOfGroup(render, changes, rules, k - |rules|);
    }
  }

  lemma InsightOfGroup(render: Printer, changes: seq<FieldChange>, rules: seq<Rule>, g: nat) returns (j: nat)
    requires g < |Groups(changes, rules)|
    ensures j < |Summary(render, changes, rules)|
    ensures Summary(render, changes, rules)[j].paths == Paths(changes, AllClaims(changes, rules)[|rules| + g])
  {
    j := |Explained(changes, rules)| + g;
    assert AllClaims(changes, rules)[|rules| + g] == Groups(changes, rules)[g];
  }

  lemma ListedInClaim(changes: seq<FieldChange>, claim: seq<nat>, i: nat)
    requires i in claim && i < |changes|
    ensures changes[i].path in Paths(changes, claim)
  {
    var p :| 0 <= p < |claim| && claim[p] == i;
    assert Paths(changes, claim)[p] == changes[i].path;
  }

  /** Every insight's paths are those of one claim. */
  lemma EachInsightShowsOneClaim(render: Printer, changes: seq<FieldChange>, rules: seq<Rule>, j: nat) returns (k: nat)
    requires j < |Summary(render, changes, rules)|
    ensures k < |AllClaims(changes, rules)|
    ensures Summary(render, changes, rules)[j].paths == Paths(changes, AllClaims(changes, rules)[k])
  {
    var said := Explained(changes, rules);
    if j < |said| {
      k := ClaimOfInsight(changes, rules, j);
      assert AllClaims(changes, rules)[k] == Claims(changes, rules)[k];
    } else {
      k := |rules| + (j - |said|);
      assert AllClaims(changes, rules)[k] == Groups(changes, rules)[j - |said|];
    }
  }
}
