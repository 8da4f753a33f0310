/** The summarizer of `compare/summary.go`, which marks changes used as it explains them. */
module Summarizers {
  import opened Collections
  import opened Options
  import opened Json
  import opened KeyOrder
  import opened Compare
  import opened ComparePaths
  import opened CompareReport
  import opened ClaimRules
  import opened SummaryRules

  class Summarizer {
    const p: Printers
    const changes: seq<FieldChange>
    const used: array<bool>
    var out: seq<Insight>
    /** The rules applied so far. */
    ghost var rules: seq<Rule>

    ghost predicate Marked()
      reads this, used
    {
      && used.Length == |changes|
      && forall i :: 0 <= i < |changes| ==> used[i] == Covered(rules, changes[i].path)
    }

    ghost predicate Valid()
      reads this, used
    {
      Marked() && out == Explained(changes, rules)
    }

    constructor (p: Printers, changes: seq<FieldChange>)
      ensures Valid() && fresh(used) && rules == [] && this.p == p && this.changes == changes
    {
      this.p, this.changes := p, changes;
      used := new bool[|changes|](_ => false);
      out, rules := [], [];
    }

    /** Marks the unused changes under any prefix and returns their paths. */
    method Claim(prefixes: seq<string>, ghost rule: Rule) returns (paths: seq<string>)
      requires Valid() && rule.prefixes == prefixes
      modifies used, `rules
      ensures rules == old(rules) + [rule] && Marked()
      ensures paths == Paths(changes, Taken(changes, old(rules), prefixes, |changes|))
    {
      paths := [];
      for i := 0 to |changes|
        invariant used.Length == |changes| && rules == old(rules)
        invariant forall j :: 0 <= j < |changes| ==>
                    used[j] == (Covered(rules, changes[j].path) || (j < i && IsUnder(changes[j].path, prefixes)))
        invariant paths == Paths(changes, Taken(changes, rules, prefixes, i))
      {
        if !used[i] {
          var under := AnyPrefix(changes[i].path, prefixes);
          if under {
            used[i] := true;
            paths := paths + [changes[i].path];
          }
        }
      }
      rules := rules + [rule];
      assert rules[..|rules| - 1] == old(rules);
    }

    method AnyPrefix(path: string, prefixes: seq<string>) returns (under: bool)
      ensures under == IsUnder(path, prefixes)
    {
      for i := 0 to |prefixes|
        invariant forall j :: 0 <= j < i ==> !HasPrefix(path, prefixes[j])
      {
        if HasPrefix(path, prefixes[i]) {
          return true;
        }
      }
      return false;
    }

    /** Records one insight if there is anything to claim. */
    method Add(category: string, a: string, b: string, prefixes: seq<string>)
      requires Valid()
      modifies this, used
      ensures Valid() && rules == old(rules) + [Rule(prefixes, [Note(category, a, b)], false)]
    {
      ghost var rule := Rule(prefixes, [Note(category, a, b)], false);
      var paths := Claim(prefixes, rule);
      if |paths| > 0 {
        out := out + [Insight(category, a, b, paths)];
      }
      ExplainedAppend(changes, old(rules), rule);
    }

    method Scalar(path: string)
      requires Valid()
      modifies this, used
      ensures Valid() && rules == old(rules) + ScalarRules(p, changes, path)
    {
      for i := 0 to |changes|
        invariant Valid() && rules == old(rules) && FirstAt(changes[..i], path).None?
      {
        assert changes[..i + 1][..i] == changes[..i];
        if changes[i].path == path {
          FirstAtPrefix(changes, path, i + 1);
          Add("spec", OrNone(Text(p.render, changes[i].a)), OrNone(Text(p.render, changes[i].b)), [path]);
          return;
        }
      }
      assert changes[..|changes|] == changes;
    }

    method Identity(a: Json, b: Json)
      requires Valid()
      modifies this, used
      ensures Valid() && rules == old(rules) + NameRules(p, a, b) + NamespaceRules(p, a, b)
    {
      var na, nb := MetaText(p, a, "name"), MetaText(p, b, "name");
      var sa, sb := MetaText(p, a, "namespace"), MetaText(p, b, "namespace");
      if na != nb {
        Add("identity", na, nb, ["metadata.name"]);
      }
      if sa != sb {
        Add("identity", OrNone(sa), OrNone(sb), ["metadata.namespace"]);
      }
    }

    method Kinds(a: Json, b: Json)
      requires Valid()
      modifies this, used
      ensures Valid() && rules == old(rules) + KindRules(p, a, b)
    {
      var ka, kb := KindOf(a), KindOf(b);
      if ka != kb {
        Add("kind", ka, kb, ["kind", "apiVersion"]);
      } else {
        Add("kind", TextOf(p.render, Field(a, "apiVersion")), TextOf(p.render, Field(b, "apiVersion")), ["apiVersion"]);
      }
    }

    method Head(a: Json, b: Json)
      requires Valid() && rules == []
      modifies this, used
      ensures Valid() && rules == HeadRules(p, a, b)
    {
      Kinds(a, b);
      Identity(a, b);
    }

    method Body(a: Json, b: Json)
      requires Valid()
      modifies this, used
      ensures Valid()
      ensures rules == old(rules) + if KindOf(a) == KindOf(b) then SameKindRules(p, changes, a, b, PodSpecPath(KindOf(a)))
                                    else []
    {
      if KindOf(a) == KindOf(b) {
        SameKind(a, b, PodSpecPath(KindOf(a)));
      } else {
        AddNone(rules);
      }
    }

    method Tail(a: Json, b: Json)
      requires Valid()
      modifies this, used
      ensures Valid() && rules == old(rules) + TailRules(a, b)
    {
      MapKeys(a, b, "labels", "metadata.labels");
      MapKeys(a, b, "annotations", "metadata.annotations");
      Add("status", "", "", ["status"]);
      ReassociateThree(old(rules), MapRules(a, b, "labels", "metadata.labels"),
                       MapRules(a, b, "annotations", "metadata.annotations"), [Bare("status", ["status"])]);
    }

    method Explain(a: Json, b: Json)
      requires Valid() && rules == []
      modifies this, used
      ensures Valid() && rules == RulesFor(p, changes, a, b)
    {
      Head(a, b);
      Body(a, b);
      Tail(a, b);
    }

    method Replicas(a: Json, b: Json)
      requires Valid()
      modifies this, used
      ensures Valid() && rules == old(rules) + ReplicaRules(p, a, b)
    {
      var ra, rb := Field(MapAt(a, ["spec"]), "replicas"), Field(MapAt(b, ["spec"]), "replicas");
      if ra == Null && rb == Null {
        return;
      }
      Add("replicas", OrNone(Shown(p.render, ra)), OrNone(Shown(p.render, rb)), ["spec.replicas"]);
    }

    /** Appends one insight for each note, all with the same paths. */
    method Tell(notes: seq<Note>, paths: seq<string>)
      modifies `out
      ensures out == old(out) + Insights(Rule([], notes, true), paths)
    {
      for i := 0 to |notes|
        invariant out == old(out) + Insights(Rule([], notes[..i], true), paths)
      {
        assert Insights(Rule([], notes[..i + 1], true), paths)
            == Insights(Rule([], notes[..i], true), paths) + [Insight(notes[i].category, notes[i].a, notes[i].b, paths)];
        out := out + [Insight(notes[i].category, notes[i].a, notes[i].b, paths)];
      }
      assert notes[..|notes|] == notes;
    }

    method Env(base: string, x: Json, y: Json)
      requires Valid()
      modifies this, used
      ensures Valid()
      ensures rules == old(rules) + [EnvRule(base, EnvOf(p.render, Items(Field(x, "env"))),
                                                   EnvOf(p.render, Items(Field(y, "env"))))]
    {
      var ea := EnvMap(p.render, Items(Field(x, "env")));
      var eb := EnvMap(p.render, Items(Field(y, "env")));
      var onlyA, onlyB := OnlyIn(ea, eb), OnlyIn(eb, ea);
      var diff := SortKeys(ByKey, Differing(ea, eb));
      EnumerateIsExact(ByKey, Differing(ea, eb));
      if |onlyA| + |onlyB| + |diff| == 0 {
        Add("env", "", "", [base + ".envFrom", base + ".env"]);
        return;
      }
      ghost var rule := EnvRule(base, ea, eb);
      var paths := Claim([base + ".env", base + ".envFrom"], rule);
      Tell(OnlyNotes("env", onlyA) + OnlyNotes("env", onlyB) + DiffNotes(ea, eb, diff), paths);
      ExplainedAppend(changes, old(rules), rule);
    }

    method DataKeys(a: Json, b: Json, field: string)
      requires Valid()
      modifies this, used
      ensures Valid() && rules == old(rules) + DataRules(a, b, field)
    {
      var da, db := Fields(Field(a, field)), Fields(Field(b, field));
      var onlyA, onlyB, diff := OnlyIn(da, db), OnlyIn(db, da), Unequal(da, db);
      if |onlyA| + |onlyB| + |diff| == 0 {
        return;
      }
      var notes := OnlyNotes("data", onlyA) + OnlyNotes("data", onlyB) + OnlyNotes("data", diff);
      ghost var rule := Rule([field], notes, true);
      var paths := Claim([field], rule);
      Tell(notes, paths);
      ExplainedAppend(changes, old(rules), rule);
    }

    method MapKeys(a: Json, b: Json, what: string, prefix: string)
      requires Valid()
      modifies this, used
      ensures Valid() && rules == old(rules) + MapRules(a, b, what, prefix)
    {
      var ma, mb := Fields(Field(MapAt(a, ["metadata"]), what)), Fields(Field(MapAt(b, ["metadata"]), what));
      if OnlyIn(ma, mb) + OnlyIn(mb, ma) + Unequal(ma, mb) != {} {
        Add(what, "", "", [prefix]);
      }
    }

    method Container(at: string, x: Json, y: Json)
      requires Valid()
      modifies this, used
      ensures Valid() && rules == old(rules) + ContainerRules(p, at, x, y)
    {
      if x == Null || y == Null {
        Add("spec", "", "", [at]);
        return;
      }
      Settings(at, x, y);
      Probes(at);
      Others(at);
      ReassociateThree(old(rules), SettingRules(p, at, x, y), ProbeRules(at), OtherRules(at));
    }

    method Settings(at: string, x: Json, y: Json)
      requires Valid()
      modifies this, used
      ensures Valid() && rules == old(rules) + SettingRules(p, at, x, y)
    {
      Add("image", ImageText(p, x), ImageText(p, y), [at + ".image"]);
      Env(at, x, y);
      Add("resources", p.resources(x), p.resources(y), [at + ".resources"]);
    }

    method Probes(at: string)
      requires Valid()
      modifies this, used
      ensures Valid() && rules == old(rules) + ProbeRules(at)
    {
      Add("ports", "", "", [at + ".ports"]);
      Add("probes", "", "", [at + ".livenessProbe"]);
      Add("probes", "", "", [at + ".readinessProbe"]);
      Add("probes", "", "", [at + ".startupProbe"]);
    }

    method Others(at: string)
      requires Valid()
      modifies this, used
      ensures Valid() && rules == old(rules) + OtherRules(at)
    {
      Add("spec", "", "", [at + ".command", at + ".args"]);
      Add("volumes", "", "", [at + ".volumeMounts"]);
      Add("spec", "", "", [at]);
    }

    method Containers(base: string, pa: Json, pb: Json, list: string)
      requires Valid()
      modifies this, used
      ensures Valid() && rules == old(rules) + ListRules(p, base, pa, pb, list)
    {
      var xs, ys := Items(Field(pa, list)), Items(Field(pb, list));
      var nx := ContainerNames(p.render, xs);
      var ny := ContainerNames(p.render, ys);
      var names := UnionNames(nx + ny);
      NamedContainers(base + "." + list, xs, ys, names);
    }

    method NamedContainers(base: string, xs: seq<Json>, ys: seq<Json>, names: seq<string>)
      requires Valid()
      modifies this, used
      ensures Valid() && rules == old(rules) + ContainersRules(p, base, xs, ys, names)
    {
      for i := 0 to |names|
        invariant Valid() && rules == old(rules) + ContainersRules(p, base, xs, ys, names[..i])
      {
        NamedContainer(base, xs, ys, names, i, old(rules));
      }
      assert names[..|names|] == names;
    }

    method NamedContainer(base: string, xs: seq<Json>, ys: seq<Json>, names: seq<string>, i: nat, ghost before: seq<Rule>)
      requires i < |names|
      requires Valid() && rules == before + ContainersRules(p, base, xs, ys, names[..i])
      modifies this, used
      ensures Valid() && rules == before + ContainersRules(p, base, xs, ys, names[..i + 1])
    {
      var x := FindContainer(p.render, xs, names[i]);
      var y := FindContainer(p.render, ys, names[i]);
      Container(base + "[" + names[i] + "]", x, y);
      ContainersStep(p, base, xs, ys, names, i);
      Associate(before, ContainersRules(p, base, xs, ys, names[..i]), ContainerRules(p, base + "[" + names[i] + "]", x, y));
    }

    method PodSpec(base: string, pa: Json, pb: Json)
      requires Valid()
      modifies this, used
      ensures Valid() && rules == old(rules) + PodSpecRules(p, changes, base, pa, pb)
    {
      Containers(base, pa, pb, "initContainers");
      Containers(base, pa, pb, "containers");
      ghost var lists := ListRules(p, base, pa, pb, "initContainers") + ListRules(p, base, pa, pb, "containers");
      assert rules == old(rules) + lists by {
        Associate(old(rules), ListRules(p, base, pa, pb, "initContainers"), ListRules(p, base, pa, pb, "containers"));
      }
      PodSettings(base);
      Associate(old(rules), lists, PodRules(base) + ScalarRules(p, changes, base + ".serviceAccountName"));
    }

    method PodSettings(base: string)
      requires Valid()
      modifies this, used
      ensures Valid() && rules == old(rules) + (PodRules(base) + ScalarRules(p, changes, base + ".serviceAccountName"))
    {
      Add("volumes", "", "", [base + ".volumes"]);
      Add("scheduling", "", "", [base + ".nodeSelector", base + ".affinity", base + ".tolerations",
                                 base + ".topologySpreadConstraints", base + ".priorityClassName"]);
      Scalar(base + ".serviceAccountName");
      Associate(old(rules), PodRules(base), ScalarRules(p, changes, base + ".serviceAccountName"));
    }

    method KindSpecific(a: Json, b: Json)
      requires Valid()
      modifies this, used
      ensures Valid() && rules == old(rules) + KindSpecificRules(p, changes, a, b)
    {
      var kind := KindOf(a);
      if kind == "ConfigMap" || kind == "Secret" {
        DataKeys(a, b, "data");
        DataKeys(a, b, "binaryData");
        Associate(old(rules), DataRules(a, b, "data"), DataRules(a, b, "binaryData"));
      } else if kind == "Service" {
        Service();
      }
    }

    method Service()
      requires Valid()
      modifies this, used
      ensures Valid() && rules == old(rules) + ServiceRules(p, changes)
    {
      Add("ports", "", "", ["spec.ports"]);
      Add("scheduling", "", "", ["spec.selector"]);
      Scalar("spec.type");
      Associate(old(rules), [Bare("ports", ["spec.ports"]), Bare("scheduling", ["spec.selector"])],
              ScalarRules(p, changes, "spec.type"));
    }

    method Workload(a: Json, b: Json, path: seq<string>)
      requires Valid()
      modifies this, used
      ensures Valid() && rules == old(rules) + WorkloadRules(p, changes, a, b, path)
    {
      Replicas(a, b);
      PodSpec(Join(path), MapAt(a, path), MapAt(b, path));
      Associate(old(rules), ReplicaRules(p, a, b), PodSpecRules(p, changes, Join(path), MapAt(a, path), MapAt(b, path)));
    }

    method SameKind(a: Json, b: Json, path: seq<string>)
      requires Valid()
      modifies this, used
      ensures Valid() && rules == old(rules) + SameKindRules(p, changes, a, b, path)
    {
      if path != [] {
        Workload(a, b, path);
        KindSpecific(a, b);
        Associate(old(rules), WorkloadRules(p, changes, a, b, path), KindSpecificRules(p, changes, a, b));
      } else {
        KindSpecific(a, b);
        AddNone(KindSpecificRules(p, changes, a, b));
      }
    }

    /** Groups whatever is left by its top two path segments. */
    method Leftovers()
      requires Valid()
      modifies used, `out
      ensures out == Summary(p.render, changes, rules)
      ensures forall i :: 0 <= i < used.Length ==> used[i]
    {
      ghost var sections, left := Sections(changes), Left(changes, rules, |changes|);
      ghost var explained := out;
      var order, groups := CollectGroups();
      for k := 0 to |order|
        invariant out == explained + GroupInsights(p.render, changes, sections, left, order[..k])
        invariant MarkedIn(sections, order[..k])
      {
        TellGroup(order, k, groups[order[k]], explained, sections, left);
      }
      assert order[..|order|] == order;
      forall i | 0 <= i < |changes| ensures used[i] {
        LeftIff(changes, rules, |changes|, i);
        OrderListsSections(sections, left, i);
      }
    }

    /** The changes of some sections are used besides those the rules claimed. */
    ghost predicate MarkedIn(sections: seq<string>, marked: seq<string>)
      reads this, used
    {
      && used.Length == |changes|
      && forall i :: 0 <= i < |changes| ==>
           used[i] == (Covered(rules, changes[i].path) || SectionAt(sections, i) in marked)
    }

    method TellGroup(order: seq<string>, k: nat, claim: seq<nat>, ghost explained: seq<Insight>,
                     ghost sections: seq<string>, ghost left: seq<nat>)
      requires k < |order| && left == Left(changes, rules, |changes|) && claim == Group(sections, left, order[k])
      requires |sections| == |changes|
      requires out == explained + GroupInsights(p.render, changes, sections, left, order[..k])
      requires MarkedIn(sections, order[..k])
      modifies used, `out
      ensures out == explained + GroupInsights(p.render, changes, sections, left, order[..k + 1])
      ensures MarkedIn(sections, order[..k + 1])
    {
      assert order[..k + 1] == order[..k] + [order[k]];
      out := out + [GroupInsight(p.render, changes, order[k], claim)];
      assert GroupInsights(p.render, changes, sections, left, order[..k + 1])
          == GroupInsights(p.render, changes, sections, left, order[..k]) + [GroupInsight(p.render, changes, order[k], claim)];
      MarkGroup(order[k], claim, sections, left, order[..k]);
    }

    method MarkGroup(g: string, claim: seq<nat>, ghost sections: seq<string>, ghost left: seq<nat>,
                     ghost marked: seq<string>)
      requires |sections| == |changes| && left == Left(changes, rules, |changes|) && claim == Group(sections, left, g)
      requires MarkedIn(sections, marked)
      modifies used
      ensures MarkedIn(sections, marked + [g])
    {
      GroupMembers(changes, rules, sections, g);
      MarkAll(claim);
    }

    method MarkAll(claim: seq<nat>)
      requires forall i :: i in claim ==> i < used.Length
      modifies used
      ensures forall i :: 0 <= i < used.Length ==> used[i] == (old(used[i]) || i in claim)
    {
      for k := 0 to |claim|
        invariant forall i :: 0 <= i < used.Length ==> used[i] == (old(used[i]) || i in claim[..k])
      {
        assert claim[k] in claim;
        used[claim[k]] := true;
        assert claim[..k + 1] == claim[..k] + [claim[k]];
      }
      assert claim[..|claim|] == claim;
    }

    /** Ends with every change used and with the summary of the documents' rules. */
    method Run(a: Json, b: Json)
      requires Valid() && rules == []
      modifies this, used
      ensures rules == RulesFor(p, changes, a, b)
      ensures out == Summary(p.render, changes, rules)
      ensures forall i :: 0 <= i < used.Length ==> used[i]
    {
      Explain(a, b);
      Leftovers();
    }

    method CollectGroups() returns (order: seq<string>, groups: map<string, seq<nat>>)
      requires Marked()
      ensures IsGrouping(Sections(changes), Left(changes, rules, |changes|), order, groups)
    {
      order, groups := [], map[];
      ghost var sections := Sections(changes);
      ghost var left: seq<nat> := [];
      for i := 0 to |changes|
        invariant left == Left(changes, rules, i) && IsGrouping(sections, left, order, groups)
      {
        if !used[i] {
          var g := SectionOf(changes[i].path);
          GroupingGrows(sections, left, order, groups, i);
          if g !in groups {
            order, groups := order + [g], groups[g := [i]];
          } else {
            groups := groups[g := groups[g] + [i]];
          }
          left := left + [i];
        }
      }
    }
  }

  method SectionOf(path: string) returns (g: string)
    ensures g == Section(path)
  {
    var parts := SplitPath(path);
    g := if |parts| == 0 then "" else if |parts| == 1 then parts[0] else parts[0] + "." + parts[1];
  }

  /** Every section seen so far has its group, and no other has one. */
  ghost predicate IsGrouping(sections: seq<string>, left: seq<nat>, order: seq<string>, groups: map<string, seq<nat>>) {
    && order == Order(sections, left)
    && (forall g :: g in groups <==> g in order)
    && (forall g :: g in groups ==> groups[g] == Group(sections, left, g))
    && (forall g :: g !in groups ==> Group(sections, left, g) == [])
  }

  lemma GroupingGrows(sections: seq<string>, left: seq<nat>, order: seq<string>, groups: map<string, seq<nat>>, i: nat)
    requires IsGrouping(sections, left, order, groups) && i < |sections|
    ensures var g := sections[i];
            if g in groups then IsGrouping(sections, left + [i], order, groups[g := groups[g] + [i]])
            else IsGrouping(sections, left + [i], order + [g], groups[g := [i]])
  {
    assert (left + [i])[..|left|] == left;
  }

  lemma GroupMembers(changes: seq<FieldChange>, rules: seq<Rule>, sections: seq<string>, g: string)
    ensures var claim := Group(sections, Left(changes, rules, |changes|), g);
            forall i: nat :: i in claim
                   <==> i < |changes| && !Covered(rules, changes[i].path) && SectionAt(sections, i) == g
  {
    forall i: nat ensures i in Group(sections, Left(changes, rules, |changes|), g)
                <==> i < |changes| && !Covered(rules, changes[i].path) && SectionAt(sections, i) == g {
      GroupIff(sections, Left(changes, rules, |changes|), g, i);
      LeftIff(changes, rules, |changes|, i);
    }
  }

  method Summarize(p: Printers, a: Json, b: Json, changes: seq<FieldChange>) returns (out: seq<Insight>)
    ensures out == Summary(p.render, changes, RulesFor(p, changes, a, b))
  {
    var s := new Summarizer(p, changes);
    s.Run(a, b);
    out := s.out;
  }

  lemma ExplainedAppend(changes: seq<FieldChange>, rules: seq<Rule>, rule: Rule)
    ensures Explained(changes, rules + [rule])
         == Explained(changes, rules) + Insights(rule, Paths(changes, Taken(changes, rules, rule.prefixes, |changes|)))
  {
    assert (rules + [rule])[..|rules|] == rules;
  }

  lemma {:induction false} FirstAtPrefix(changes: seq<FieldChange>, path: string, n: nat)
    requires n <= |changes| && FirstAt(changes[..n], path).Some?
    ensures FirstAt(changes, path) == FirstAt(changes[..n], path)
  {
    if n < |changes| {
      assert changes[..|changes| - 1][..n] == changes[..n];
      FirstAtPrefix(changes[..|changes| - 1], path, n);
    } else {
      assert changes[..n] == changes;
    }
  }

  method EnvMap(render: Printer, items: seq<Json>) returns (env: map<string, string>)
    ensures env == EnvOf(render, items)
    ensures forall n :: IsEnvAt(render, items, env, n)
  {
    env := map[];
    for i := 0 to |items|
      invariant env == EnvOf(render, items[..i])
    {
      assert items[..i + 1][..i] == items[..i];
      if items[i].Obj? {
        env := env[TextOf(render, Field(items[i], "name")) := EnvValue(render, items[i])];
      }
    }
    assert items[..|items|] == items;
    forall n ensures IsEnvAt(render, items, env, n) {
      EnvOfIsLast(render, items, n);
    }
  }

  method ContainerNames(render: Printer, items: seq<Json>) returns (names: seq<string>)
    ensures names == NamesIn(render, items)
  {
    names := [];
    for i := 0 to |items|
      invariant names == NamesIn(render, items[..i])
    {
      assert items[..i + 1][..i] == items[..i];
      if items[i].Obj? {
        names := names + [TextOf(render, Field(items[i], "name"))];
      }
    }
    assert items[..|items|] == items;
  }

  method FindContainer(render: Printer, items: seq<Json>, name: string) returns (c: Json)
    ensures c == ByName(render, items, name)
    ensures c == Null <==> forall i :: 0 <= i < |items| ==> !IsNamed(render, items[i], name)
    ensures forall i: nat :: IsLastNamed(render, items, name, i) ==> c == items[i]
  {
    c := Null;
    for i := 0 to |items|
      invariant c == ByName(render, items[..i], name)
    {
      assert items[..i + 1][..i] == items[..i];
      if items[i].Obj? && TextOf(render, Field(items[i], "name")) == name {
        c := items[i];
      }
    }
    assert items[..|items|] == items;
    ByNameIsLast(render, items, name);
  }

  method UnionNames(names: seq<string>) returns (out: seq<string>)
    ensures out == FirstSeen(names)
    ensures InOrderSeen(names, out)
  {
    out := [];
    var seen: set<string> := {};
    for i := 0 to |names|
      invariant out == FirstSeen(names[..i])
      invariant forall n :: n in seen <==> n in out
    {
      assert names[..i + 1][..i] == names[..i];
      if names[i] !in seen {
        seen := seen + {names[i]};
        out := out + [names[i]];
      }
    }
    assert names[..|names|] == names;
    FirstSeenIsInOrder(names);
  }

  /**
   For any documents and changes: one claim for each change, its path in some
   insight, and the paths of each insight those of one claim.
   */
  lemma SummaryIsComplete(p: Printers, a: Json, b: Json, changes: seq<FieldChange>, i: nat) returns (k: nat, j: nat)
    requires i < |changes|
    ensures var rules := RulesFor(p, changes, a, b);
            var claims, out := AllClaims(changes, rules), Summary(p.render, changes, rules);
            && k < |claims| && i in claims[k] && (forall m :: 0 <= m < |claims| && i in claims[m] ==> m == k)
            && j < |out| && changes[i].path in out[j].paths
            && forall m :: 0 <= m < |out| ==> ShowsOneClaim(changes, claims, out[m])
  {
    var rules := RulesFor(p, changes, a, b);
    RulesSpeak(p, changes, a, b);
    k := EachChangeClaimedOnce(changes, rules, i);
    j := EachPathIsShown(p.render, changes, rules, i);
    AllShowOneClaim(p.render, changes, rules);
  }

  ghost predicate ShowsOneClaim(changes: seq<FieldChange>, claims: seq<seq<nat>>, insight: Insight) {
    exists q :: 0 <= q < |claims| && insight.paths == Paths(changes, claims[q])
  }

  lemma AllShowOneClaim(render: Printer, changes: seq<FieldChange>, rules: seq<Rule>)
    ensures var out := Summary(render, changes, rules);
            forall m :: 0 <= m < |out| ==> ShowsOneClaim(changes, AllClaims(changes, rules), out[m])
  {
    var out := Summary(render, changes, rules);
    forall m | 0 <= m < |out| ensures ShowsOneClaim(changes, AllClaims(changes, rules), out[m]) {
      var q := EachInsightShowsOneClaim(render, changes, rules, m);
    }
  }
}
