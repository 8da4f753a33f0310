/** How many insights list one change: when the comment on `Summarize`, that at most one does, is true. */
module SummaryCounts {
  import opened Options
  import opened Json
  import opened KeyOrder
  import opened CompareLaws
  import opened CompareReport
  import opened ClaimRules
  import opened SummaryRules
  import opened SummaryContent
  import SummaryLines

  /** How many insights list the path. */
  function Listing(out: seq<Insight>, path: string): nat {
    if out == [] then 0
    else Listing(out[..|out| - 1], path) + if path in out[|out| - 1].paths then 1 else 0
  }

  lemma {:induction false} ListingConcat(xs: seq<Insight>, ys: seq<Insight>, path: string)
    ensures Listing(xs + ys, path) == Listing(xs, path) + Listing(ys, path)
  {
    if ys == [] {
      assert xs + ys == xs;
    } else {
      assert (xs + ys)[..|xs + ys| - 1] == xs + ys[..|ys| - 1];
      ListingConcat(xs, ys[..|ys| - 1], path);
    }
  }

  /** No other change has the path of change i. */
  ghost predicate HasOwnPath(changes: seq<FieldChange>, i: nat) {
    i < |changes| && forall j :: 0 <= j < |changes| && j != i ==> changes[j].path != changes[i].path
  }

  lemma {:induction false} ListedIffClaimed(changes: seq<FieldChange>, claim: seq<nat>, i: nat)
    requires HasOwnPath(changes, i) && forall j :: j in claim ==> j < |changes|
    ensures changes[i].path in Paths(changes, claim) <==> i in claim
  {
    if i in claim {
      ListedInClaim(changes, claim, i);
    }
    if changes[i].path in Paths(changes, claim) {
      var q :| 0 <= q < |claim| && Paths(changes, claim)[q] == changes[i].path;
      assert claim[q] in claim;
    }
  }

  /** The insights of one rule have the same paths. */
  lemma {:induction false} ListingSame(out: seq<Insight>, paths: seq<string>, path: string)
    requires forall j :: 0 <= j < |out| ==> out[j].paths == paths
    ensures Listing(out, path) == if path in paths then |out| else 0
  {
    if out != [] {
      ListingSame(out[..|out| - 1], paths, path);
    }
  }

  lemma {:induction false} ListingOfRule(rule: Rule, paths: seq<string>, path: string)
    ensures Listing(Insights(rule, paths), path) == if path in paths then |rule.notes| else 0
  {
    ListingSame(Insights(rule, paths), paths, path);
  }

  // ---- the rules' insights -------------------------------------------------

  /** The rule that claims a path. */
  function FirstRule(rules: seq<Rule>, path: string): Option<Rule> {
    if rules == [] then None
    else
      var before := FirstRule(rules[..|rules| - 1], path);
      if before.Some? then before
      else if IsUnder(path, rules[|rules| - 1].prefixes) then Some(rules[|rules| - 1]) else None
  }

  lemma {:induction false} FirstRuleIff(rules: seq<Rule>, path: string)
    ensures FirstRule(rules, path).Some? <==> Covered(rules, path)
  {
    if rules != [] {
      FirstRuleIff(rules[..|rules| - 1], path);
    }
  }

  /** A rule that covers the path and has no earlier one that does is the first. */
  lemma {:induction false} FirstRuleAt(rules: seq<Rule>, k: nat, path: string)
    requires k < |rules| && IsUnder(path, rules[k].prefixes) && !Covered(rules[..k], path)
    ensures FirstRule(rules, path) == Some(rules[k])
  {
    var init := rules[..|rules| - 1];
    if k < |init| {
      assert init[..k] == rules[..k];
      FirstRuleAt(init, k, path);
    } else {
      FirstRuleIff(init, path);
    }
  }

  lemma {:induction false} TakenBelow(changes: seq<FieldChange>, rules: seq<Rule>, prefixes: seq<string>)
    ensures forall j :: j in Taken(changes, rules, prefixes, |changes|) ==> j < |changes|
  {
    forall j | j in Taken(changes, rules, prefixes, |changes|) ensures j < |changes| {
      TakenIff(changes, rules, prefixes, |changes|, j);
    }
  }

  lemma {:induction false} ListingOfClaim(changes: seq<FieldChange>, rules: seq<Rule>, r: Rule, i: nat)
    requires HasOwnPath(changes, i)
    ensures var path := changes[i].path;
            Listing(Insights(r, Paths(changes, Taken(changes, rules, r.prefixes, |changes|))), path)
            == if !Covered(rules, path) && IsUnder(path, r.prefixes) then |r.notes| else 0
  {
    var claim := Taken(changes, rules, r.prefixes, |changes|);
    TakenBelow(changes, rules, r.prefixes);
    TakenIff(changes, rules, r.prefixes, |changes|, i);
    ListedIffClaimed(changes, claim, i);
    ListingOfRule(r, Paths(changes, claim), changes[i].path);
  }

  lemma {:induction false} ListingExplained(changes: seq<FieldChange>, rules: seq<Rule>, i: nat)
    requires HasOwnPath(changes, i)
    ensures Listing(Explained(changes, rules), changes[i].path)
         == match FirstRule(rules, changes[i].path) case Some(r) => |r.notes| case None => 0
  {
    if rules != [] {
      var init, last := rules[..|rules| - 1], rules[|rules| - 1];
      ListingExplained(changes, init, i);
      ListingOfClaim(changes, init, last, i);
      FirstRuleIff(init, changes[i].path);
      ListingConcat(Explained(changes, init), Insights(last, Paths(changes, Taken(changes, init, last.prefixes, |changes|))),
                    changes[i].path);
    }
  }

  // ---- the groups' insights ------------------------------------------------

  lemma {:induction false} ListingOfGroup(render: Printer, changes: seq<FieldChange>, sections: seq<string>, left: seq<nat>,
                                          g: string, i: nat)
    requires HasOwnPath(changes, i) && forall j :: j in left ==> j < |changes|
    ensures changes[i].path in GroupInsight(render, changes, g, Group(sections, left, g)).paths
       <==> i in left && SectionAt(sections, i) == g
  {
    var claim := Group(sections, left, g);
    forall j | j in claim ensures j < |changes| {
      GroupIff(sections, left, g, j);
    }
    GroupIff(sections, left, g, i);
    ListedIffClaimed(changes, claim, i);
  }

  lemma {:induction false} ListingGroups(render: Printer, changes: seq<FieldChange>, sections: seq<string>, left: seq<nat>,
                                         order: seq<string>, i: nat)
    requires HasOwnPath(changes, i) && Distinct(order) && forall j :: j in left ==> j < |changes|
    ensures Listing(GroupInsights(render, changes, sections, left, order), changes[i].path)
         == if i in left && SectionAt(sections, i) in order then 1 else 0
  {
    if order != [] {
      var init, g := order[..|order| - 1], order[|order| - 1];
      var out := GroupInsights(render, changes, sections, left, order);
      assert out[..|out| - 1] == GroupInsights(render, changes, sections, left, init);
      ListingGroups(render, changes, sections, left, init, i);
      ListingOfGroup(render, changes, sections, left, g, i);
      assert SectionAt(sections, i) in order <==> SectionAt(sections, i) in init || SectionAt(sections, i) == g;
    }
  }

  // ---- the whole summary ---------------------------------------------------

  /** A change is listed once for each note of the rule that claims it, and once if no rule does. */
  lemma {:induction false} ListingIsNotes(render: Printer, changes: seq<FieldChange>, rules: seq<Rule>, i: nat)
    requires HasOwnPath(changes, i)
    ensures Listing(Summary(render, changes, rules), changes[i].path)
         == match FirstRule(rules, changes[i].path) case Some(r) => |r.notes| case None => 1
  {
    var path, sections, left := changes[i].path, Sections(changes), Left(changes, rules, |changes|);
    var order := Order(sections, left);
    forall j | j in left ensures j < |changes| {
      LeftIff(changes, rules, |changes|, j);
    }
    LeftIff(changes, rules, |changes|, i);
    OrderIsDistinct(sections, left);
    OrderListsSections(sections, left, i);
    FirstRuleIff(rules, path);
    ListingExplained(changes, rules, i);
    ListingGroups(render, changes, sections, left, order, i);
    ListingConcat(Explained(changes, rules), GroupInsights(render, changes, sections, left, order), path);
  }

  ghost predicate OwnPaths(changes: seq<FieldChange>) {
    forall i :: 0 <= i < |changes| ==> HasOwnPath(changes, i)
  }

  ghost predicate ListedAtMostOnce(changes: seq<FieldChange>, out: seq<Insight>) {
    forall i :: 0 <= i < |changes| ==> Listing(out, changes[i].path) <= 1
  }

  /** Whatever claims anything says just one thing. */
  ghost predicate ClaimsTellOnce(changes: seq<FieldChange>, rules: seq<Rule>) {
    forall k :: 0 <= k < |rules| && Claims(changes, rules)[k] != [] ==> |rules[k].notes| <= 1
  }

  /** At most one insight covers each change exactly if no rule with several notes claims anything. */
  lemma {:induction false} AtMostOnceIff(render: Printer, changes: seq<FieldChange>, rules: seq<Rule>)
    requires OwnPaths(changes)
    ensures ListedAtMostOnce(changes, Summary(render, changes, rules)) <==> ClaimsTellOnce(changes, rules)
  {
    if ListedAtMostOnce(changes, Summary(render, changes, rules)) {
      forall k | 0 <= k < |rules| && Claims(changes, rules)[k] != [] ensures |rules[k].notes| <= 1 {
        var i := SomeClaimed(changes, rules, k);
        FirstRuleAt(rules, k, changes[i].path);
        ListingIsNotes(render, changes, rules, i);
      }
    }
    if ClaimsTellOnce(changes, rules) {
      forall i | 0 <= i < |changes| ensures Listing(Summary(render, changes, rules), changes[i].path) <= 1 {
        ListingIsNotes(render, changes, rules, i);
        FirstRuleIff(rules, changes[i].path);
        if Covered(rules, changes[i].path) {
          var k := FirstCovering(rules, changes[i].path);
          FirstRuleTakes(changes, rules, k, i);
          FirstRuleAt(rules, k, changes[i].path);
        }
      }
    }
  }

  lemma {:induction false} SomeClaimed(changes: seq<FieldChange>, rules: seq<Rule>, k: nat) returns (i: nat)
    requires k < |rules| && Claims(changes, rules)[k] != []
    ensures i < |changes| && IsUnder(changes[i].path, rules[k].prefixes) && !Covered(rules[..k], changes[i].path)
  {
    i := Claims(changes, rules)[k][0];
    ClaimBelow(changes, rules, k, i);
    FirstRuleTakes(changes, rules, k, i);
  }

  lemma {:induction false} ClaimBelow(changes: seq<FieldChange>, rules: seq<Rule>, k: nat, i: nat)
    requires k < |rules| && i in Claims(changes, rules)[k]
    ensures i < |changes|
  {
    var init := rules[..|rules| - 1];
    if k < |init| {
      ClaimBelow(changes, init, k, i);
    } else {
      TakenBelow(changes, init, rules[k].prefixes);
    }
  }

  // ---- what the documents have to do with it -------------------------------

  function One(b: bool): nat {
    if b then 1 else 0
  }

  lemma {:induction false} EnumerateSize(rank: string -> int, s: set<string>)
    ensures |Enumerate(rank, s)| == |s|
    decreases |s|
  {
    if s != {} {
      var k := First(rank, s);
      EnumerateSize(rank, s - {k});
      assert |s - {k}| == |s| - 1;
    }
  }

  /** Insights about an environment: one for each kind of one-sided variable and one for each variable that differs. */
  function EnvParts(ea: map<string, string>, eb: map<string, string>): nat {
    One(OnlyIn(ea, eb) != {}) + One(OnlyIn(eb, ea) != {}) + |Differing(ea, eb)|
  }

  lemma EnvNotes(base: string, ea: map<string, string>, eb: map<string, string>)
    ensures |EnvRule(base, ea, eb).notes| == if EnvParts(ea, eb) == 0 then 1 else EnvParts(ea, eb)
  {
    EnumerateSize(ByKey, Differing(ea, eb));
  }

  function DataParts(da: map<string, Json>, db: map<string, Json>): nat {
    One(OnlyIn(da, db) != {}) + One(OnlyIn(db, da) != {}) + One(Unequal(da, db) != {})
  }

  lemma DataNotes(a: Json, b: Json, field: string)
    ensures var n := DataParts(Fields(Field(a, field)), Fields(Field(b, field)));
            if n == 0 then DataRules(a, b, field) == []
            else |DataRules(a, b, field)| == 1 && |DataRules(a, b, field)[0].notes| == n
                 && DataRules(a, b, field)[0].notes[0] == Note("data", "", "")
  {
  }

  /** Only the rules of environments and of data share their claim among several insights. */
  lemma {:induction false} SharedRulesDecide(p: Printers, changes: seq<FieldChange>, a: Json, b: Json)
    requires OwnPaths(changes)
    ensures var rules := RulesFor(p, changes, a, b);
            ListedAtMostOnce(changes, Summary(p.render, changes, rules))
            <==> forall k :: 0 <= k < |rules| && rules[k].always && Claims(changes, rules)[k] != [] ==> |rules[k].notes| <= 1
  {
    var rules := RulesFor(p, changes, a, b);
    RulesSpeak(p, changes, a, b);
    AtMostOnceIff(p.render, changes, rules);
  }

  /** A change to a container's environment is listed by at most one insight exactly if there is just one to give. */
  lemma {:induction false} EnvListing(p: Printers, changes: seq<FieldChange>, a: Json, b: Json, slot: Slot, i: nat)
    requires HasOwnPath(changes, i) && ChangesPlainSetting(p, a, b, slot, changes[i].path) && slot.what.Environment?
    ensures var pods := PodsOf(a, b);
            var n := EnvParts(EnvIn(p, pods, pods.a, slot), EnvIn(p, pods, pods.b, slot));
            var times := Listing(Summary(p.render, changes, RulesFor(p, changes, a, b)), changes[i].path);
            times == (if n == 0 then 1 else n) && (times <= 1 <==> n <= 1)
  {
    var pods := PodsOf(a, b);
    SettingListing(p, changes, a, b, slot, i);
    EnvNotesOf(p, pods, slot);
  }

  lemma {:induction false} EnvNotesOf(p: Printers, pods: Pods, slot: Slot)
    requires slot.what.Environment?
    ensures var n := EnvParts(EnvIn(p, pods, pods.a, slot), EnvIn(p, pods, pods.b, slot));
            |RuleOf(p, pods, slot).notes| == if n == 0 then 1 else n
  {
    EnvNotes(Place(pods.base + "." + slot.list, NameAt(p, pods, slot)), EnvIn(p, pods, pods.a, slot), EnvIn(p, pods, pods.b, slot));
  }

  lemma {:induction false} SettingListing(p: Printers, changes: seq<FieldChange>, a: Json, b: Json, slot: Slot, i: nat)
    requires HasOwnPath(changes, i) && ChangesPlainSetting(p, a, b, slot, changes[i].path)
    ensures Listing(Summary(p.render, changes, RulesFor(p, changes, a, b)), changes[i].path)
         == |RuleOf(p, PodsOf(a, b), slot).notes|
  {
    SettingIsFirst(p, changes, a, b, slot, changes[i].path);
    ListingIsNotes(p.render, changes, RulesFor(p, changes, a, b), i);
  }

  lemma {:induction false} SettingIsFirst(p: Printers, changes: seq<FieldChange>, a: Json, b: Json, slot: Slot, path: string)
    requires ChangesPlainSetting(p, a, b, slot, path)
    ensures FirstRule(RulesFor(p, changes, a, b), path) == Some(RuleOf(p, PodsOf(a, b), slot))
  {
    var k := SettingInDocument(p, changes, a, b, slot, path);
    PlainNamesDoNotShadow(p, PodsOf(a, b), slot, path);
    FirstRuleAt(RulesFor(p, changes, a, b), k, path);
  }

  lemma {:induction false} FirstRuleConcat(xs: seq<Rule>, ys: seq<Rule>, path: string)
    ensures FirstRule(xs + ys, path) == if FirstRule(xs, path).Some? then FirstRule(xs, path) else FirstRule(ys, path)
  {
    if ys == [] {
      assert xs + ys == xs;
    } else {
      assert (xs + ys)[..|xs + ys| - 1] == xs + ys[..|ys| - 1];
      FirstRuleConcat(xs, ys[..|ys| - 1], path);
    }
  }

  lemma {:induction false} NoFirstRule(rules: seq<Rule>, top: string, field: string, path: string, d: nat)
    requires AllUnder(rules, top) && HasPrefix(path, field) && d < |top| && d < |field| && top[d] != field[d]
    ensures FirstRule(rules, path) == None
  {
    PartedNotCovered(rules, top, field, path, d);
    FirstRuleIff(rules, path);
  }

  /** Nothing but the data rules claims data. */
  lemma {:induction false} FirstDataRule(p: Printers, changes: seq<FieldChange>, a: Json, b: Json, field: string, path: string)
    requires KindOf(a) == KindOf(b) && (KindOf(a) == "ConfigMap" || KindOf(a) == "Secret")
    requires (field == "data" || field == "binaryData") && HasPrefix(path, field)
    ensures FirstRule(RulesFor(p, changes, a, b), path) == FirstRule(DataRules(a, b, field), path)
  {
    HeadLeavesData(p, a, b, field, path);
    TailLeavesData(a, b, field, path);
    OtherDataApart(a, b, field, path);
    DataLayout(p, changes, a, b);
    FirstInMiddle(HeadRules(p, a, b), DataRules(a, b, "data"), DataRules(a, b, "binaryData"), TailRules(a, b), path);
  }

  lemma {:induction false} OtherDataApart(a: Json, b: Json, field: string, path: string)
    requires (field == "data" || field == "binaryData") && HasPrefix(path, field)
    ensures FirstRule(DataRules(a, b, if field == "data" then "binaryData" else "data"), path) == None
  {
    var other := if field == "data" then "binaryData" else "data";
    NoFirstRule(DataRules(a, b, other), other, field, path, 0);
  }

  lemma {:induction false} FirstInMiddle(head: seq<Rule>, xs: seq<Rule>, ys: seq<Rule>, tail: seq<Rule>, path: string)
    requires FirstRule(head, path) == None == FirstRule(tail, path)
    ensures FirstRule(head + (xs + ys) + tail, path)
         == if FirstRule(xs, path).Some? then FirstRule(xs, path) else FirstRule(ys, path)
  {
    FirstRuleConcat(head + (xs + ys), tail, path);
    FirstRuleConcat(head, xs + ys, path);
    FirstRuleConcat(xs, ys, path);
  }

  lemma {:induction false} DataLayout(p: Printers, changes: seq<FieldChange>, a: Json, b: Json)
    requires KindOf(a) == KindOf(b) && (KindOf(a) == "ConfigMap" || KindOf(a) == "Secret")
    ensures RulesFor(p, changes, a, b)
         == HeadRules(p, a, b) + (DataRules(a, b, "data") + DataRules(a, b, "binaryData")) + TailRules(a, b)
  {
    NoPodSpec(KindOf(a));
    SameKindData(p, changes, a, b);
  }

  lemma NoPodSpec(kind: string)
    requires kind == "ConfigMap" || kind == "Secret"
    ensures PodSpecPath(kind) == []
  {
  }

  lemma {:induction false} SameKindData(p: Printers, changes: seq<FieldChange>, a: Json, b: Json)
    requires KindOf(a) == "ConfigMap" || KindOf(a) == "Secret"
    ensures SameKindRules(p, changes, a, b, []) == DataRules(a, b, "data") + DataRules(a, b, "binaryData")
  {
    AddNone(KindSpecificRules(p, changes, a, b));
  }

  lemma {:induction false} HeadLeavesData(p: Printers, a: Json, b: Json, field: string, path: string)
    requires KindOf(a) == KindOf(b) && (field == "data" || field == "binaryData") && HasPrefix(path, field)
    ensures FirstRule(HeadRules(p, a, b), path) == None
  {
    var kinds, names, spaces := KindRules(p, a, b), NameRules(p, a, b), NamespaceRules(p, a, b);
    Dotted("metadata", ".name");
    Dotted("metadata", ".namespace");
    NoFirstRule(kinds, "apiVersion", field, path, 0);
    NoFirstRule(names, "metadata", field, path, 0);
    NoFirstRule(spaces, "metadata", field, path, 0);
    FirstRuleConcat(kinds, names, path);
    FirstRuleConcat(kinds + names, spaces, path);
  }

  lemma {:induction false} TailLeavesData(a: Json, b: Json, field: string, path: string)
    requires (field == "data" || field == "binaryData") && HasPrefix(path, field)
    ensures FirstRule(TailRules(a, b), path) == None
  {
    var labels, annotations := MapRules(a, b, "labels", "metadata.labels"), MapRules(a, b, "annotations", "metadata.annotations");
    NoFirstRule(labels, "metadata.labels", field, path, 0);
    NoFirstRule(annotations, "metadata.annotations", field, path, 0);
    NoFirstRule([Bare("status", ["status"])], "status", field, path, 0);
    FirstRuleConcat(labels, annotations, path);
    FirstRuleConcat(labels + annotations, [Bare("status", ["status"])], path);
  }

  /** Likewise a change to the data of a ConfigMap or Secret. */
  lemma {:induction false} DataListing(p: Printers, changes: seq<FieldChange>, a: Json, b: Json, field: string, i: nat)
    requires KindOf(a) == KindOf(b) && (KindOf(a) == "ConfigMap" || KindOf(a) == "Secret")
    requires HasOwnPath(changes, i) && (field == "data" || field == "binaryData") && HasPrefix(changes[i].path, field)
    ensures var n := DataParts(Fields(Field(a, field)), Fields(Field(b, field)));
            var times := Listing(Summary(p.render, changes, RulesFor(p, changes, a, b)), changes[i].path);
            times == (if n == 0 then 1 else n) && (times <= 1 <==> n <= 1)
  {
    FirstDataRule(p, changes, a, b, field, changes[i].path);
    ListingIsNotes(p.render, changes, RulesFor(p, changes, a, b), i);
    OwnDataRule(a, b, field, changes[i].path);
  }

  /** And is told as one, if any key is on one side only or has values that differ. */
  lemma {:induction false} DataIsTold(p: Printers, changes: seq<FieldChange>, a: Json, b: Json, field: string, i: nat)
    requires KindOf(a) == KindOf(b) && (KindOf(a) == "ConfigMap" || KindOf(a) == "Secret")
    requires i < |changes| && (field == "data" || field == "binaryData") && HasPrefix(changes[i].path, field)
    requires SummaryLines.MapsDiffer(SummaryLines.MapOf(a, [field]), SummaryLines.MapOf(b, [field]))
    ensures SummaryLines.DocsTell(p, changes, a, b, Note("data", "", ""), changes[i].path)
  {
    FirstDataRule(p, changes, a, b, field, changes[i].path);
    DataSpeaks(a, b, field);
    OwnDataRule(a, b, field, changes[i].path);
    var r := FirstRule(DataRules(a, b, field), changes[i].path).value;
    FirstRuleSpeaks(p.render, changes, RulesFor(p, changes, a, b), r, i, 0);
  }

  lemma {:induction false} DataSpeaks(a: Json, b: Json, field: string)
    requires SummaryLines.MapsDiffer(SummaryLines.MapOf(a, [field]), SummaryLines.MapOf(b, [field]))
    ensures DataParts(Fields(Field(a, field)), Fields(Field(b, field))) > 0
  {
    FieldIsGet(a, field);
    FieldIsGet(b, field);
    var x, y := SummaryLines.MapOf(a, [field]), SummaryLines.MapOf(b, [field]);
    var k :| (k in x && k !in y) || (k !in x && k in y) || (k in x && k in y && !Compare.LooseEqual(x[k], y[k]));
    assert k in OnlyIn(x, y) + OnlyIn(y, x) + Unequal(x, y);
  }

  lemma {:induction false} FirstRuleSpeaks(render: Printer, changes: seq<FieldChange>, rules: seq<Rule>, r: Rule, i: nat, m: nat)
    requires i < |changes| && FirstRule(rules, changes[i].path) == Some(r) && m < |r.notes|
    ensures Tells(Summary(render, changes, rules), r.notes[m], changes[i].path)
  {
    var k := FirstRuleSits(rules, changes[i].path);
    SummaryTells(render, changes, rules, k, r, i, m);
  }

  lemma {:induction false} FirstRuleSits(rules: seq<Rule>, path: string) returns (k: nat)
    requires FirstRule(rules, path).Some?
    ensures IsAt(rules, k, FirstRule(rules, path).value, path, false) && IsUnder(path, FirstRule(rules, path).value.prefixes)
  {
    var init := rules[..|rules| - 1];
    if FirstRule(init, path).Some? {
      k := FirstRuleSits(init, path);
      assert init[..k] == rules[..k];
    } else {
      k := |init|;
      FirstRuleIff(init, path);
    }
  }

  lemma {:induction false} OwnDataRule(a: Json, b: Json, field: string, path: string)
    requires HasPrefix(path, field)
    ensures var n := DataParts(Fields(Field(a, field)), Fields(Field(b, field)));
            var first := FirstRule(DataRules(a, b, field), path);
            if n == 0 then first == None
            else first.Some? && |first.value.notes| == n && first.value.notes[0] == Note("data", "", "")
  {
    var own := DataRules(a, b, field);
    DataNotes(a, b, field);
    if own != [] {
      assert HasPrefix(path, own[0].prefixes[0]) && own[..0] == [];
      FirstRuleAt(own, 0, path);
    }
  }

  // ---- two insights for one change -----------------------------------------

  function Variable(name: string, text: string): Json {
    Obj(map["name" := Str(name), "value" := Str(text)])
  }

  function Container(x: string, y: string): Json {
    Obj(map["name" := Str("c"), "env" := List([Variable("X", x), Variable("Y", y)])])
  }

  function PodWith(container: Json): Json {
    Obj(map["kind" := Str("Pod"), "spec" := Obj(map["containers" := List([container])])])
  }

  lemma {:induction false} EnvOfContainer(render: Printer, x: string, y: string)
    ensures EnvOf(render, Items(Field(Container(x, y), "env"))) == map["X" := x, "Y" := y]
  {
    var items := [Variable("X", x), Variable("Y", y)];
    assert items[..1] == [Variable("X", x)] && items[..1][..0] == [];
    assert EnvOf(render, items[..1]) == map["X" := x];
  }

  lemma {:induction false} PodsWith(p: Printers, c: Json, d: Json)
    requires c.Obj? && d.Obj? && Field(c, "name") == Str("c") == Field(d, "name")
    ensures var pods := PodsOf(PodWith(c), PodWith(d));
            && KindOf(PodWith(c)) == KindOf(PodWith(d)) == "Pod" && PodSpecPath("Pod") != []
            && pods.base + "." + "containers" == "spec.containers"
            && Items(Field(pods.a, "containers")) == [c] && Items(Field(pods.b, "containers")) == [d]
            && Listed(p, pods, "containers") == ["c"]
  {
    PodSpecOf(c);
    PodSpecOf(d);
    OneName(p, c, d);
    assert Join(["spec"]) == "spec";
  }

  lemma {:induction false} PodSpecOf(c: Json)
    ensures KindOf(PodWith(c)) == "Pod" && PodSpecPath("Pod") == ["spec"]
    ensures MapAt(PodWith(c), ["spec"]) == Obj(map["containers" := List([c])])
  {
    assert ["spec"][1..] == [];
  }

  lemma {:induction false} OneName(p: Printers, c: Json, d: Json)
    requires c.Obj? && d.Obj? && Field(c, "name") == Str("c") == Field(d, "name")
    ensures FirstSeen(NamesIn(p.render, [c]) + NamesIn(p.render, [d])) == ["c"]
  {
    assert [c][..0] == [] && [d][..0] == [];
    assert NamesIn(p.render, [c]) == ["c"] && NamesIn(p.render, [d]) == ["c"];
    var names := ["c"] + ["c"];
    assert names[..1] == ["c"] && names[..1][..0] == [];
    assert FirstSeen(names[..1]) == ["c"];
  }

  /** Two variables of one container differ: any change below its environment is listed by two insights. */
  lemma {:induction false} TwoVariablesTwoInsights(p: Printers, changes: seq<FieldChange>, i: nat)
    requires HasOwnPath(changes, i) && HasPrefix(changes[i].path, Place("spec.containers", "c") + ".env")
    ensures var a, b := PodWith(Container("1", "2")), PodWith(Container("3", "4"));
            Listing(Summary(p.render, changes, RulesFor(p, changes, a, b)), changes[i].path) == 2
  {
    var c, d := Container("1", "2"), Container("3", "4");
    var a, b, slot := PodWith(c), PodWith(d), Slot("containers", 0, Environment);
    var pods := PodsOf(a, b);
    PodsWith(p, c, d);
    EnvOfContainer(p.render, "1", "2");
    EnvOfContainer(p.render, "3", "4");
    SlotOfPair(p, pods, c, d, changes[i].path);
    EnvListing(p, changes, a, b, slot, i);
    TwoDiffer();
  }

  lemma {:induction false} SlotOfPair(p: Printers, pods: Pods, c: Json, d: Json, path: string)
    requires c.Obj? && d.Obj? && Field(c, "name") == Str("c") == Field(d, "name")
    requires pods.base + "." + "containers" == "spec.containers" && Listed(p, pods, "containers") == ["c"]
    requires Items(Field(pods.a, "containers")) == [c] && Items(Field(pods.b, "containers")) == [d]
    requires HasPrefix(path, Place("spec.containers", "c") + ".env")
    ensures var slot := Slot("containers", 0, Environment);
            && IsSetting(p, pods, slot, path) && PlainNames(p, pods, slot)
            && ContainerOf(p, pods, pods.a, slot) == c && ContainerOf(p, pods, pods.b, slot) == d
  {
    var slot := Slot("containers", 0, Environment);
    assert NameAt(p, pods, slot) == "c";
    assert ByName(p.render, [c], "c") == c && ByName(p.render, [d], "c") == d;
    var prefixes := RuleOf(p, pods, slot).prefixes;
    assert Place("spec.containers", "c") + ".env" in prefixes;
    var q :| 0 <= q < |prefixes| && prefixes[q] == Place("spec.containers", "c") + ".env";
  }

  lemma TwoDiffer()
    ensures EnvParts(map["X" := "1", "Y" := "2"], map["X" := "3", "Y" := "4"]) == 2
  {
    var ea, eb := map["X" := "1", "Y" := "2"], map["X" := "3", "Y" := "4"];
    assert Differing(ea, eb) == {"X", "Y"};
    assert OnlyIn(ea, eb) == {} && OnlyIn(eb, ea) == {};
  }
}
