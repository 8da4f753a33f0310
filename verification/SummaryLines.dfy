/** What the insights outside containers say, by the documents and the changes themselves. */
module SummaryLines {
  import opened Options
  import opened Json
  import opened ComparePaths
  import opened CompareReport
  import opened CompareLaws
  import opened ClaimRules
  import opened SummaryRules
  import opened SummaryContent

  function Written(render: Printer, v: Option<Json>): string {
    if v.Some? then render(v.value) else ""
  }

  // ---- leftovers -----------------------------------------------------------

  /** No rule covers the change. */
  ghost predicate IsLeft(changes: seq<FieldChange>, rules: seq<Rule>, i: nat) {
    i < |changes| && !Covered(rules, changes[i].path)
  }

  /** No other change that is left is in its section. */
  ghost predicate IsAlone(changes: seq<FieldChange>, rules: seq<Rule>, i: nat) {
    && IsLeft(changes, rules, i)
    && forall j: nat :: IsLeft(changes, rules, j) && Section(changes[j].path) == Section(changes[i].path) ==> j == i
  }

  /** Changes below metadata are told as such. */
  function LeftCategory(path: string): string {
    var section := Section(path);
    if |section| >= 8 && section[..8] == "metadata" then "other" else "spec"
  }

  lemma {:induction false} LoneGroup(sections: seq<string>, left: seq<nat>, g: string, i: nat)
    requires i in left && SectionAt(sections, i) == g
    requires forall j :: j in left && SectionAt(sections, j) == g ==> j == i
    requires NoRepeats(left)
    ensures Group(sections, left, g) == [i]
  {
    var init, last := left[..|left| - 1], left[|left| - 1];
    if last == i {
      NoGroup(sections, init, g);
    } else {
      LoneGroup(sections, init, g, i);
    }
  }

  lemma {:induction false} NoGroup(sections: seq<string>, left: seq<nat>, g: string)
    requires forall j :: j in left ==> SectionAt(sections, j) != g
    ensures Group(sections, left, g) == []
  {
    if left != [] {
      NoGroup(sections, left[..|left| - 1], g);
    }
  }

  ghost predicate NoRepeats(left: seq<nat>) {
    forall p, q :: 0 <= p < q < |left| ==> left[p] != left[q]
  }

  lemma {:induction false} LeftIsDistinct(changes: seq<FieldChange>, rules: seq<Rule>, n: nat)
    requires n <= |changes|
    ensures NoRepeats(Left(changes, rules, n))
  {
    if n > 0 {
      LeftIsDistinct(changes, rules, n - 1);
      LeftIff(changes, rules, n - 1, n - 1);
    }
  }

  lemma {:induction false} GroupIsLarger(sections: seq<string>, left: seq<nat>, g: string, i: nat, j: nat)
    requires i in Group(sections, left, g) && j in Group(sections, left, g) && i != j
    ensures |Group(sections, left, g)| > 1
  {
    var claim := Group(sections, left, g);
    var p, q :| 0 <= p < |claim| && 0 <= q < |claim| && claim[p] == i && claim[q] == j;
  }

  lemma {:induction false} InsightOfGroup(render: Printer, changes: seq<FieldChange>, sections: seq<string>, left: seq<nat>,
                                          order: seq<string>, before: seq<Insight>, k: nat)
    requires k < |order|
    ensures var out := before + GroupInsights(render, changes, sections, left, order);
            |before| + k < |out| && out[|before| + k] == GroupInsight(render, changes, order[k], Group(sections, left, order[k]))
  {
  }

  /** The insight of a leftover's section lists it. */
  lemma {:induction false} GroupTells(render: Printer, changes: seq<FieldChange>, rules: seq<Rule>, i: nat) returns (j: nat)
    requires IsLeft(changes, rules, i)
    ensures var out, g := Summary(render, changes, rules), Section(changes[i].path);
            && |Explained(changes, rules)| <= j < |out| && changes[i].path in out[j].paths
            && out[j] == GroupInsight(render, changes, g, Group(Sections(changes), Left(changes, rules, |changes|), g))
  {
    var sections, left := Sections(changes), Left(changes, rules, |changes|);
    LeftIff(changes, rules, |changes|, i);
    var k := GroupPosition(sections, left, i);
    j := |Explained(changes, rules)| + k;
    InsightOfGroup(render, changes, sections, left, Order(sections, left), Explained(changes, rules), k);
    GroupIff(sections, left, sections[i], i);
    ListedInClaim(changes, Group(sections, left, sections[i]), i);
  }

  /** A leftover change that is alone in its section is told with its own two values, in their order. */
  lemma {:induction false} LoneLeftoverIsTold(render: Printer, changes: seq<FieldChange>, rules: seq<Rule>, i: nat)
    requires IsAlone(changes, rules, i)
    ensures var c := changes[i];
            Tells(Summary(render, changes, rules), Note(LeftCategory(c.path), Written(render, c.a), Written(render, c.b)), c.path)
  {
    var sections, left := Sections(changes), Left(changes, rules, |changes|);
    var j := GroupTells(render, changes, rules, i);
    forall k | k in left && SectionAt(sections, k) == sections[i] ensures k == i {
      LeftIff(changes, rules, |changes|, k);
    }
    LeftIff(changes, rules, |changes|, i);
    LeftIsDistinct(changes, rules, |changes|);
    LoneGroup(sections, left, sections[i], i);
    assert Says(Summary(render, changes, rules)[j],
                Note(LeftCategory(changes[i].path), Written(render, changes[i].a), Written(render, changes[i].b)), changes[i].path);
  }

  /** Several leftover changes of one section are told together, without values. */
  lemma {:induction false} LeftoversAreTold(render: Printer, changes: seq<FieldChange>, rules: seq<Rule>, i: nat, k: nat)
    requires IsLeft(changes, rules, i) && IsLeft(changes, rules, k) && i != k
    requires Section(changes[i].path) == Section(changes[k].path)
    ensures exists j :: 0 <= j < |Summary(render, changes, rules)|
                        && Says(Summary(render, changes, rules)[j], Note(LeftCategory(changes[i].path), "", ""), changes[i].path)
                        && changes[k].path in Summary(render, changes, rules)[j].paths
  {
    var sections, left := Sections(changes), Left(changes, rules, |changes|);
    var j := GroupTells(render, changes, rules, i);
    LeftIff(changes, rules, |changes|, i);
    LeftIff(changes, rules, |changes|, k);
    GroupIff(sections, left, sections[i], i);
    GroupIff(sections, left, sections[i], k);
    GroupIsLarger(sections, left, sections[i], i, k);
    ListedInClaim(changes, Group(sections, left, sections[i]), k);
    assert Says(Summary(render, changes, rules)[j], Note(LeftCategory(changes[i].path), "", ""), changes[i].path);
  }

  /** The section of a printed position is its first two segments. */
  lemma SectionOfPath(pos: seq<Compare.Seg>)
    requires AllPlain(pos)
    ensures Section(PathFrom("", pos))
         == if |pos| == 0 then "" else if |pos| == 1 then SegText(pos[0]) else SegText(pos[0]) + "." + SegText(pos[1])
  {
    SplitOfPath(pos);
    if |pos| > 1 {
      assert Texts(pos[1..])[0] == SegText(pos[1]);
    }
  }

  // ---- kinds, names and replicas -------------------------------------------

  /** The summary of the two documents tells the note with the path. */
  ghost predicate DocsTell(p: Printers, changes: seq<FieldChange>, a: Json, b: Json, note: Note, path: string) {
    Tells(Summary(p.render, changes, RulesFor(p, changes, a, b)), note, path)
  }

  /** The one note of the rule at a place, if it covers the path and no earlier rule does. */
  ghost function NoteAt(rules: seq<Rule>, k: nat, path: string): Option<Note> {
    if k < |rules| && IsAt(rules, k, rules[k], path, false) && IsUnder(path, rules[k].prefixes) && |rules[k].notes| == 1
    then Some(rules[k].notes[0])
    else None
  }

  ghost predicate HasClaim(rules: seq<Rule>, k: nat, note: Note, path: string) {
    NoteAt(rules, k, path) == Some(note)
  }

  lemma {:induction false} ClaimsBetween(before: seq<Rule>, rules: seq<Rule>, after: seq<Rule>, k: nat, note: Note, path: string)
    requires HasClaim(rules, k, note, path) && !Covered(before, path)
    ensures HasClaim(before + rules + after, |before| + k, note, path)
  {
    AtBetween(before, rules, after, k, rules[k], path, false);
  }

  lemma {:induction false} ClaimsLeft(rules: seq<Rule>, after: seq<Rule>, k: nat, note: Note, path: string)
    requires HasClaim(rules, k, note, path)
    ensures HasClaim(rules + after, k, note, path)
  {
    AtLeft(rules, after, k, rules[k], path, false);
  }

  lemma {:induction false} ClaimsRight(before: seq<Rule>, rules: seq<Rule>, k: nat, note: Note, path: string)
    requires HasClaim(rules, k, note, path) && !Covered(before, path)
    ensures HasClaim(before + rules, |before| + k, note, path)
  {
    AtRight(before, rules, k, rules[k], path, false);
  }

  lemma {:induction false} ClaimsAlone(r: Rule, note: Note, path: string)
    requires IsUnder(path, r.prefixes) && r.notes == [note]
    ensures HasClaim([r], 0, note, path)
  {
    assert [r][..0] == [];
  }

  lemma {:induction false} ClaimTells(render: Printer, changes: seq<FieldChange>, rules: seq<Rule>, k: nat, note: Note, i: nat)
    requires i < |changes| && HasClaim(rules, k, note, changes[i].path)
    ensures Tells(Summary(render, changes, rules), note, changes[i].path)
  {
    SummaryTells(render, changes, rules, k, rules[k], i, 0);
  }

  lemma {:induction false} HeadTells(p: Printers, changes: seq<FieldChange>, a: Json, b: Json, head: seq<Rule>, k: nat, note: Note,
                                     i: nat)
    requires i < |changes| && head == HeadRules(p, a, b) && HasClaim(head, k, note, changes[i].path)
    ensures DocsTell(p, changes, a, b, note, changes[i].path)
  {
    var same := if KindOf(a) == KindOf(b) then SameKindRules(p, changes, a, b, PodSpecPath(KindOf(a))) else [];
    ClaimsLeft(head, same, k, note, changes[i].path);
    ClaimsLeft(head + same, TailRules(a, b), k, note, changes[i].path);
    ClaimTells(p.render, changes, RulesFor(p, changes, a, b), k, note, i);
  }

  lemma {:induction false} SameTells(p: Printers, changes: seq<FieldChange>, a: Json, b: Json, same: seq<Rule>, k: nat, note: Note,
                                     i: nat)
    requires KindOf(a) == KindOf(b) && same == SameKindRules(p, changes, a, b, PodSpecPath(KindOf(a)))
    requires i < |changes| && HasClaim(same, k, note, changes[i].path) && !Covered(HeadRules(p, a, b), changes[i].path)
    ensures DocsTell(p, changes, a, b, note, changes[i].path)
  {
    SameLayout(p, changes, a, b);
    BetweenTells(p.render, changes, RulesFor(p, changes, a, b), HeadRules(p, a, b), same, TailRules(a, b), k, note, i);
  }

  lemma {:induction false} SameLayout(p: Printers, changes: seq<FieldChange>, a: Json, b: Json)
    requires KindOf(a) == KindOf(b)
    ensures RulesFor(p, changes, a, b)
         == HeadRules(p, a, b) + SameKindRules(p, changes, a, b, PodSpecPath(KindOf(a))) + TailRules(a, b)
  {
  }

  lemma {:induction false} BetweenTells(render: Printer, changes: seq<FieldChange>, all: seq<Rule>, head: seq<Rule>, same: seq<Rule>,
                                        tail: seq<Rule>, k: nat, note: Note, i: nat)
    requires all == head + same + tail && i < |changes|
    requires HasClaim(same, k, note, changes[i].path) && !Covered(head, changes[i].path)
    ensures Tells(Summary(render, changes, all), note, changes[i].path)
  {
    ClaimsBetween(head, same, tail, k, note, changes[i].path);
    ClaimTells(render, changes, all, |head| + k, note, i);
  }

  /** What is said of kinds: both, if they differ, and otherwise both API versions. */
  function KindNote(p: Printers, a: Json, b: Json): Note {
    var ka, kb := Get(a, ["kind"]), Get(b, ["kind"]);
    var x, y := if ka.Str? then ka.s else "", if kb.Str? then kb.s else "";
    if x != y then Note("kind", x, y)
    else Note("kind", Plainly(p.render, Get(a, ["apiVersion"])), Plainly(p.render, Get(b, ["apiVersion"])))
  }

  lemma {:induction false} KindClaims(p: Printers, a: Json, b: Json, path: string)
    requires HasPrefix(path, "apiVersion") || (HasPrefix(path, "kind") && KindOf(a) != KindOf(b))
    ensures HasClaim(KindRules(p, a, b), 0, KindNote(p, a, b), path)
  {
    KindIsGet(a);
    KindIsGet(b);
    FieldIsGet(a, "apiVersion");
    FieldIsGet(b, "apiVersion");
    var r := KindRules(p, a, b)[0];
    assert IsUnder(path, r.prefixes) by {
      if HasPrefix(path, "apiVersion") {
        assert r.prefixes[|r.prefixes| - 1] == "apiVersion";
      } else {
        assert r.prefixes[0] == "kind";
      }
    }
    ClaimsAlone(r, KindNote(p, a, b), path);
    assert KindRules(p, a, b) == [r];
  }

  /** Different kinds are told with both; of one kind, the two API versions are. */
  lemma {:induction false} KindIsTold(p: Printers, changes: seq<FieldChange>, a: Json, b: Json, i: nat)
    requires i < |changes|
    requires HasPrefix(changes[i].path, "apiVersion") || (HasPrefix(changes[i].path, "kind") && KindOf(a) != KindOf(b))
    ensures DocsTell(p, changes, a, b, KindNote(p, a, b), changes[i].path)
  {
    var kinds, names, spaces, note := KindRules(p, a, b), NameRules(p, a, b), NamespaceRules(p, a, b), KindNote(p, a, b);
    KindClaims(p, a, b, changes[i].path);
    ClaimsLeft(kinds, names, 0, note, changes[i].path);
    ClaimsLeft(kinds + names, spaces, 0, note, changes[i].path);
    HeadTells(p, changes, a, b, kinds + names + spaces, 0, note, i);
  }

  lemma {:induction false} KindsLeaveMetadata(p: Printers, a: Json, b: Json, top: string, path: string)
    requires HasPrefix(path, top) && |top| > 0 && top[0] == 'm'
    ensures !Covered(KindRules(p, a, b), path)
  {
    var rules := KindRules(p, a, b);
    CoveredIff(rules, path);
    if Covered(rules, path) {
      var q :| 0 <= q < |rules[0].prefixes| && HasPrefix(path, rules[0].prefixes[q]);
      PrefixesAgree(path, rules[0].prefixes[q], top, 0);
    }
  }

  lemma {:induction false} NameClaims(p: Printers, a: Json, b: Json, path: string, x: string, y: string)
    requires HasPrefix(path, "metadata.name") && x != y
    requires x == Plainly(p.render, Get(a, ["metadata", "name"])) && y == Plainly(p.render, Get(b, ["metadata", "name"]))
    ensures HasClaim(NameRules(p, a, b), 0, Note("identity", x, y), path)
  {
    FieldBelow(a, "metadata", "name");
    FieldBelow(b, "metadata", "name");
    var r := NameRules(p, a, b)[0];
    assert HasPrefix(path, r.prefixes[0]) && NameRules(p, a, b) == [r];
    ClaimsAlone(r, Note("identity", x, y), path);
  }

  /** A change to the name is told with both names, if they differ as text. */
  lemma {:induction false} NameIsTold(p: Printers, changes: seq<FieldChange>, a: Json, b: Json, i: nat, x: string, y: string)
    requires i < |changes| && HasPrefix(changes[i].path, "metadata.name") && x != y
    requires x == Plainly(p.render, Get(a, ["metadata", "name"])) && y == Plainly(p.render, Get(b, ["metadata", "name"]))
    ensures DocsTell(p, changes, a, b, Note("identity", x, y), changes[i].path)
  {
    var kinds, names, spaces := KindRules(p, a, b), NameRules(p, a, b), NamespaceRules(p, a, b);
    KindsLeaveMetadata(p, a, b, "metadata.name", changes[i].path);
    NameClaims(p, a, b, changes[i].path, x, y);
    ClaimsBetween(kinds, names, spaces, 0, Note("identity", x, y), changes[i].path);
    HeadTells(p, changes, a, b, kinds + names + spaces, |kinds|, Note("identity", x, y), i);
  }

  lemma {:induction false} NotTheName(p: Printers, a: Json, b: Json, path: string)
    requires HasPrefix(path, "metadata.namespace")
    ensures !Covered(NameRules(p, a, b), path)
  {
    NotUnderName(path);
    CoveredIff(NameRules(p, a, b), path);
  }

  lemma NotUnderName(path: string)
    requires HasPrefix(path, "metadata.namespace")
    ensures !HasPrefix(path, "metadata.name")
  {
    assert path[..18] == "metadata.namespace";
    assert path[13] == path[..18][13] == 's';
  }

  lemma {:induction false} NamespaceClaims(p: Printers, a: Json, b: Json, path: string, x: string, y: string)
    requires HasPrefix(path, "metadata.namespace") && x != y
    requires x == Plainly(p.render, Get(a, ["metadata", "namespace"]))
    requires y == Plainly(p.render, Get(b, ["metadata", "namespace"]))
    ensures HasClaim(NamespaceRules(p, a, b), 0, Note("identity", OrNotSet(x), OrNotSet(y)), path)
  {
    FieldBelow(a, "metadata", "namespace");
    FieldBelow(b, "metadata", "namespace");
    var r := NamespaceRules(p, a, b)[0];
    assert HasPrefix(path, r.prefixes[0]) && NamespaceRules(p, a, b) == [r];
    ClaimsAlone(r, Note("identity", OrNotSet(x), OrNotSet(y)), path);
  }

  /** And one to the namespace with both namespaces. */
  lemma {:induction false} NamespaceIsTold(p: Printers, changes: seq<FieldChange>, a: Json, b: Json, i: nat, x: string, y: string)
    requires i < |changes| && HasPrefix(changes[i].path, "metadata.namespace") && x != y
    requires x == Plainly(p.render, Get(a, ["metadata", "namespace"]))
    requires y == Plainly(p.render, Get(b, ["metadata", "namespace"]))
    ensures DocsTell(p, changes, a, b, Note("identity", OrNotSet(x), OrNotSet(y)), changes[i].path)
  {
    var kinds, names, spaces := KindRules(p, a, b), NameRules(p, a, b), NamespaceRules(p, a, b);
    var note := Note("identity", OrNotSet(x), OrNotSet(y));
    KindsLeaveMetadata(p, a, b, "metadata.namespace", changes[i].path);
    NotTheName(p, a, b, changes[i].path);
    CoveredConcat(kinds, names, changes[i].path);
    NamespaceClaims(p, a, b, changes[i].path, x, y);
    ClaimsRight(kinds + names, spaces, 0, note, changes[i].path);
    HeadTells(p, changes, a, b, kinds + names + spaces, |kinds + names|, note, i);
  }

  lemma {:induction false} HeadLeavesSpec(p: Printers, a: Json, b: Json, top: string, path: string)
    requires KindOf(a) == KindOf(b) && |top| > 0 && top[0] == 's' && HasPrefix(path, top)
    ensures !Covered(HeadRules(p, a, b), path)
  {
    var kinds, names, spaces := KindRules(p, a, b), NameRules(p, a, b), NamespaceRules(p, a, b);
    Dotted("metadata", ".name");
    Dotted("metadata", ".namespace");
    PartedNotCovered(kinds, "apiVersion", top, path, 0);
    PartedNotCovered(names, "metadata", top, path, 0);
    PartedNotCovered(spaces, "metadata", top, path, 0);
    CoveredConcat(kinds, names, path);
    CoveredConcat(kinds + names, spaces, path);
  }

  lemma {:induction false} WorkloadTells(p: Printers, changes: seq<FieldChange>, a: Json, b: Json, work: seq<Rule>, k: nat,
                                         note: Note, i: nat)
    requires KindOf(a) == KindOf(b) && PodSpecPath(KindOf(a)) != []
    requires work == WorkloadRules(p, changes, a, b, PodSpecPath(KindOf(a)))
    requires i < |changes| && HasClaim(work, k, note, changes[i].path) && !Covered(HeadRules(p, a, b), changes[i].path)
    ensures DocsTell(p, changes, a, b, note, changes[i].path)
  {
    ClaimsLeft(work, KindSpecificRules(p, changes, a, b), k, note, changes[i].path);
    SameTells(p, changes, a, b, work + KindSpecificRules(p, changes, a, b), k, note, i);
  }

  /** How a number of replicas is told. */
  function Replicas(render: Printer, v: Json): string {
    var n := Get(v, ["spec", "replicas"]);
    OrNotSet(if n == Null then "" else render(n))
  }

  lemma {:induction false} ReplicasClaim(p: Printers, a: Json, b: Json, path: string)
    requires Get(a, ["spec", "replicas"]) != Null || Get(b, ["spec", "replicas"]) != Null
    requires HasPrefix(path, "spec.replicas")
    ensures HasClaim(ReplicaRules(p, a, b), 0, Note("replicas", Replicas(p.render, a), Replicas(p.render, b)), path)
  {
    FieldBelow(a, "spec", "replicas");
    FieldBelow(b, "spec", "replicas");
    var r := ReplicaRules(p, a, b)[0];
    assert HasPrefix(path, r.prefixes[0]) && ReplicaRules(p, a, b) == [r];
    ClaimsAlone(r, Note("replicas", Replicas(p.render, a), Replicas(p.render, b)), path);
  }

  /** A change to the replicas of two workloads of one kind is told with both numbers. */
  lemma {:induction false} ReplicasAreTold(p: Printers, changes: seq<FieldChange>, a: Json, b: Json, i: nat)
    requires KindOf(a) == KindOf(b) && PodSpecPath(KindOf(a)) != []
    requires i < |changes| && HasPrefix(changes[i].path, "spec.replicas")
    requires Get(a, ["spec", "replicas"]) != Null || Get(b, ["spec", "replicas"]) != Null
    ensures DocsTell(p, changes, a, b, Note("replicas", Replicas(p.render, a), Replicas(p.render, b)), changes[i].path)
  {
    var replicas, pods := ReplicaRules(p, a, b), PodsOf(a, b);
    var pod := PodSpecRules(p, changes, pods.base, pods.a, pods.b);
    var note := Note("replicas", Replicas(p.render, a), Replicas(p.render, b));
    HeadLeavesSpec(p, a, b, "spec.replicas", changes[i].path);
    ReplicasClaim(p, a, b, changes[i].path);
    ClaimsLeft(replicas, pod, 0, note, changes[i].path);
    WorkloadTells(p, changes, a, b, replicas + pod, 0, note, i);
  }

  // ---- single fields -------------------------------------------------------

  /** The change at a path of its own. */
  ghost predicate HasOwn(changes: seq<FieldChange>, i: nat) {
    i < |changes| && forall j :: 0 <= j < |changes| && j != i ==> changes[j].path != changes[i].path
  }

  lemma {:induction false} FirstAtOwn(changes: seq<FieldChange>, n: nat, i: nat)
    requires HasOwn(changes, i) && n <= |changes|
    ensures FirstAt(changes[..n], changes[i].path) == if i < n then Some(changes[i]) else None
  {
    if n > 0 {
      assert changes[..n][..n - 1] == changes[..n - 1];
      FirstAtOwn(changes, n - 1, i);
    }
  }

  /** How a single field's change is told. */
  function FieldNote(render: Printer, c: FieldChange): Note {
    Note("spec", OrNotSet(Written(render, c.a)), OrNotSet(Written(render, c.b)))
  }

  lemma {:induction false} ScalarClaims(p: Printers, changes: seq<FieldChange>, i: nat)
    requires HasOwn(changes, i)
    ensures HasClaim(ScalarRules(p, changes, changes[i].path), 0, FieldNote(p.render, changes[i]), changes[i].path)
  {
    assert changes[..|changes|] == changes;
    FirstAtOwn(changes, |changes|, i);
    var r := ScalarRules(p, changes, changes[i].path)[0];
    assert HasPrefix(changes[i].path, r.prefixes[0]) && ScalarRules(p, changes, changes[i].path) == [r];
    ClaimsAlone(r, FieldNote(p.render, changes[i]), changes[i].path);
  }

  lemma {:induction false} TypeClaims(p: Printers, changes: seq<FieldChange>, i: nat)
    requires HasOwn(changes, i) && changes[i].path == "spec.type"
    ensures HasClaim(ServiceRules(p, changes), 2, FieldNote(p.render, changes[i]), changes[i].path)
  {
    var path := changes[i].path;
    var ports, selector := Bare("ports", ["spec.ports"]), Bare("scheduling", ["spec.selector"]);
    ScalarClaims(p, changes, i);
    PartedNotCovered([ports], "spec.ports", "spec.type", path, 5);
    PartedNotCovered([selector], "spec.selector", "spec.type", path, 5);
    CoveredConcat([ports], [selector], path);
    assert [ports] + [selector] == [ports, selector];
    ClaimsRight([ports, selector], ScalarRules(p, changes, path), 0, FieldNote(p.render, changes[i]), path);
  }

  lemma {:induction false} ServiceLayout(p: Printers, changes: seq<FieldChange>, a: Json, b: Json)
    requires KindOf(a) == "Service"
    ensures PodSpecPath("Service") == [] && SameKindRules(p, changes, a, b, []) == ServiceRules(p, changes)
  {
    AddNone(ServiceRules(p, changes));
  }

  /** A change of a Service's type is told with both types. */
  lemma {:induction false} ServiceTypeIsTold(p: Printers, changes: seq<FieldChange>, a: Json, b: Json, i: nat)
    requires KindOf(a) == KindOf(b) == "Service" && HasOwn(changes, i) && changes[i].path == "spec.type"
    ensures DocsTell(p, changes, a, b, FieldNote(p.render, changes[i]), changes[i].path)
  {
    HeadLeavesSpec(p, a, b, "spec.type", changes[i].path);
    TypeClaims(p, changes, i);
    ServiceLayout(p, changes, a, b);
    SameTells(p, changes, a, b, ServiceRules(p, changes), 2, FieldNote(p.render, changes[i]), i);
  }

  lemma {:induction false} PodRulesApart(base: string, path: string)
    requires path == base + ".serviceAccountName"
    ensures !Covered(PodRules(base), path)
  {
    var rules := PodRules(base);
    forall k, q | 0 <= k < |rules| && 0 <= q < |rules[k].prefixes| ensures !HasPrefix(path, rules[k].prefixes[q]) {
      NotUnder(path, path, rules[k].prefixes[q], |base| + 1);
    }
    CoveredIff(rules, path);
  }

  lemma {:induction false} ListsApart(p: Printers, base: string, pa: Json, pb: Json, list: string, path: string)
    requires list in ["initContainers", "containers"] && path == base + ".serviceAccountName"
    ensures !Covered(ListRules(p, base, pa, pb, list), path)
  {
    var pods := Pods(base, pa, pb);
    ContainersUnder(p, base + "." + list, Items(Field(pa, list)), Items(Field(pb, list)), Listed(p, pods, list));
    PartedNotCovered(ListRules(p, base, pa, pb, list), base + "." + list, base + ".serviceAccountName", path, |base| + 1);
  }

  lemma {:induction false} AccountClaims(p: Printers, changes: seq<FieldChange>, pods: Pods, i: nat) returns (k: nat)
    requires HasOwn(changes, i) && changes[i].path == pods.base + ".serviceAccountName"
    ensures HasClaim(PodSpecRules(p, changes, pods.base, pods.a, pods.b), k, FieldNote(p.render, changes[i]), changes[i].path)
  {
    var inits := ListRules(p, pods.base, pods.a, pods.b, "initContainers");
    var mains := ListRules(p, pods.base, pods.a, pods.b, "containers");
    ScalarClaims(p, changes, i);
    ListsApart(p, pods.base, pods.a, pods.b, "initContainers", changes[i].path);
    ListsApart(p, pods.base, pods.a, pods.b, "containers", changes[i].path);
    PodRulesApart(pods.base, changes[i].path);
    k := LastClaims(inits, mains, PodRules(pods.base), ScalarRules(p, changes, changes[i].path), FieldNote(p.render, changes[i]),
                    changes[i].path);
  }

  lemma {:induction false} LastClaims(inits: seq<Rule>, mains: seq<Rule>, settings: seq<Rule>, scalar: seq<Rule>, note: Note,
                                      path: string) returns (k: nat)
    requires HasClaim(scalar, 0, note, path) && !Covered(inits, path) && !Covered(mains, path) && !Covered(settings, path)
    ensures HasClaim(inits + mains + (settings + scalar), k, note, path)
  {
    CoveredConcat(inits, mains, path);
    ClaimsRight(settings, scalar, 0, note, path);
    ClaimsRight(inits + mains, settings + scalar, |settings|, note, path);
    k := |inits + mains| + |settings|;
  }

  /** A change of a pod's service account is told with both. */
  lemma {:induction false} ServiceAccountIsTold(p: Printers, changes: seq<FieldChange>, a: Json, b: Json, i: nat)
    requires KindOf(a) == KindOf(b) && PodSpecPath(KindOf(a)) != [] && HasOwn(changes, i)
    requires changes[i].path == PodsOf(a, b).base + ".serviceAccountName"
    ensures DocsTell(p, changes, a, b, FieldNote(p.render, changes[i]), changes[i].path)
  {
    BaseText(KindOf(a));
    HeadLeavesSpec(p, a, b, changes[i].path, changes[i].path);
    var k := AccountInWorkload(p, changes, a, b, PodsOf(a, b), i);
    WorkloadLayout(p, changes, a, b);
    WorkloadTells(p, changes, a, b, WorkloadRules(p, changes, a, b, PodSpecPath(KindOf(a))), k, FieldNote(p.render, changes[i]), i);
  }

  lemma {:induction false} WorkloadLayout(p: Printers, changes: seq<FieldChange>, a: Json, b: Json)
    ensures var pods := PodsOf(a, b);
            WorkloadRules(p, changes, a, b, PodSpecPath(KindOf(a)))
            == ReplicaRules(p, a, b) + PodSpecRules(p, changes, pods.base, pods.a, pods.b)
  {
  }

  lemma {:induction false} AccountInWorkload(p: Printers, changes: seq<FieldChange>, a: Json, b: Json, pods: Pods, i: nat)
    returns (k: nat)
    requires HasOwn(changes, i) && changes[i].path == pods.base + ".serviceAccountName" && StartsAsSpec(pods.base)
    ensures HasClaim(ReplicaRules(p, a, b) + PodSpecRules(p, changes, pods.base, pods.a, pods.b), k,
                     FieldNote(p.render, changes[i]), changes[i].path)
  {
    ReplicasLeave(p, a, b, changes[i].path);
    k := AccountClaims(p, changes, pods, i);
    k := After(ReplicaRules(p, a, b), PodSpecRules(p, changes, pods.base, pods.a, pods.b), k, FieldNote(p.render, changes[i]),
               changes[i].path);
  }

  lemma {:induction false} After(before: seq<Rule>, rules: seq<Rule>, k: nat, note: Note, path: string) returns (at: nat)
    requires HasClaim(rules, k, note, path) && !Covered(before, path)
    ensures HasClaim(before + rules, at, note, path)
  {
    ClaimsRight(before, rules, k, note, path);
    at := |before| + k;
  }

  lemma {:induction false} ReplicasLeave(p: Printers, a: Json, b: Json, path: string)
    requires |path| > 5 && path[5] != 'r'
    ensures !Covered(ReplicaRules(p, a, b), path)
  {
    PartedNotCovered(ReplicaRules(p, a, b), "spec.replicas", path, path, 5);
  }

  // ---- the pod's other settings, ports and selectors -----------------------

  /** The category under which a pod's other settings are told. */
  function PodCategory(field: string): Option<string> {
    if field == ".volumes" then Some("volumes")
    else if field in [".nodeSelector", ".affinity", ".tolerations", ".topologySpreadConstraints", ".priorityClassName"] then Some("scheduling")
    else None
  }

  lemma {:induction false} PodSettingClaims(base: string, field: string, path: string) returns (k: nat)
    requires PodCategory(field).Some? && HasPrefix(path, base + field)
    ensures HasClaim(PodRules(base), k, Note(PodCategory(field).value, "", ""), path)
  {
    var volumes, scheduling := PodRules(base)[0], PodRules(base)[1];
    assert PodRules(base) == [volumes] + [scheduling];
    if field == ".volumes" {
      assert HasPrefix(path, volumes.prefixes[0]);
      ClaimsAlone(volumes, Note("volumes", "", ""), path);
      ClaimsLeft([volumes], [scheduling], 0, Note("volumes", "", ""), path);
      k := 0;
    } else {
      SchedulingCovers(base, field, path);
      NotUnder(path, base + field, base + ".volumes", |base| + 1);
      CoveredIff([volumes], path);
      ClaimsAlone(scheduling, Note("scheduling", "", ""), path);
      k := After([volumes], [scheduling], 0, Note("scheduling", "", ""), path);
    }
  }

  lemma {:induction false} SchedulingCovers(base: string, field: string, path: string)
    requires PodCategory(field) == Some("scheduling") && HasPrefix(path, base + field)
    ensures IsUnder(path, PodRules(base)[1].prefixes)
  {
    var prefixes := PodRules(base)[1].prefixes;
    assert prefixes[0] == base + ".nodeSelector" && prefixes[1] == base + ".affinity" && prefixes[2] == base + ".tolerations"
           && prefixes[3] == base + ".topologySpreadConstraints" && prefixes[4] == base + ".priorityClassName";
  }

  lemma {:induction false} ListLeaves(p: Printers, base: string, pa: Json, pb: Json, list: string, field: string, path: string)
    requires list in ["initContainers", "containers"] && PodCategory(field).Some? && HasPrefix(path, base + field)
    ensures !Covered(ListRules(p, base, pa, pb, list), path)
  {
    ContainersUnder(p, base + "." + list, Items(Field(pa, list)), Items(Field(pb, list)), Listed(p, Pods(base, pa, pb), list));
    PartedNotCovered(ListRules(p, base, pa, pb, list), base + "." + list, base + field, path, |base| + 1);
  }

  lemma {:induction false} PodSettingInSpec(p: Printers, changes: seq<FieldChange>, pods: Pods, field: string, path: string)
    returns (k: nat)
    requires PodCategory(field).Some? && HasPrefix(path, pods.base + field)
    ensures HasClaim(PodSpecRules(p, changes, pods.base, pods.a, pods.b), k, Note(PodCategory(field).value, "", ""), path)
  {
    ListLeaves(p, pods.base, pods.a, pods.b, "initContainers", field, path);
    ListLeaves(p, pods.base, pods.a, pods.b, "containers", field, path);
    k := PodSettingClaims(pods.base, field, path);
    k := AfterLists(ListRules(p, pods.base, pods.a, pods.b, "initContainers"), ListRules(p, pods.base, pods.a, pods.b, "containers"),
                    PodRules(pods.base), ScalarRules(p, changes, pods.base + ".serviceAccountName"), k,
                    Note(PodCategory(field).value, "", ""), path);
  }

  lemma {:induction false} AfterLists(inits: seq<Rule>, mains: seq<Rule>, settings: seq<Rule>, scalar: seq<Rule>, k: nat, note: Note,
                                      path: string) returns (at: nat)
    requires HasClaim(settings, k, note, path) && !Covered(inits, path) && !Covered(mains, path)
    ensures HasClaim(inits + mains + (settings + scalar), at, note, path)
  {
    CoveredConcat(inits, mains, path);
    ClaimsLeft(settings, scalar, k, note, path);
    at := After(inits + mains, settings + scalar, k, note, path);
  }

  /** Changes to volumes and to what decides scheduling are told as such. */
  lemma {:induction false} PodSettingIsTold(p: Printers, changes: seq<FieldChange>, a: Json, b: Json, field: string, i: nat)
    requires KindOf(a) == KindOf(b) && PodSpecPath(KindOf(a)) != [] && i < |changes|
    requires PodCategory(field).Some? && HasPrefix(changes[i].path, PodsOf(a, b).base + field)
    ensures DocsTell(p, changes, a, b, Note(PodCategory(field).value, "", ""), changes[i].path)
  {
    BaseText(KindOf(a));
    HeadLeavesSpec(p, a, b, PodsOf(a, b).base + field, changes[i].path);
    var k := PodSettingInWork(p, changes, a, b, PodsOf(a, b), field, changes[i].path);
    WorkloadLayout(p, changes, a, b);
    WorkloadTells(p, changes, a, b, WorkloadRules(p, changes, a, b, PodSpecPath(KindOf(a))), k, Note(PodCategory(field).value, "", ""), i);
  }

  lemma {:induction false} PodSettingInWork(p: Printers, changes: seq<FieldChange>, a: Json, b: Json, pods: Pods, field: string,
                                            path: string) returns (k: nat)
    requires StartsAsSpec(pods.base) && PodCategory(field).Some? && HasPrefix(path, pods.base + field)
    ensures HasClaim(ReplicaRules(p, a, b) + PodSpecRules(p, changes, pods.base, pods.a, pods.b), k,
                     Note(PodCategory(field).value, "", ""), path)
  {
    PartedNotCovered(ReplicaRules(p, a, b), "spec.replicas", pods.base + field, path, 5);
    k := PodSettingInSpec(p, changes, pods, field, path);
    k := After(ReplicaRules(p, a, b), PodSpecRules(p, changes, pods.base, pods.a, pods.b), k,
               Note(PodCategory(field).value, "", ""), path);
  }

  /** Changes to a Service's ports and selector are told as such. */
  lemma {:induction false} ServicePartIsTold(p: Printers, changes: seq<FieldChange>, a: Json, b: Json, i: nat)
    requires KindOf(a) == KindOf(b) == "Service" && i < |changes|
    ensures HasPrefix(changes[i].path, "spec.ports") ==> DocsTell(p, changes, a, b, Note("ports", "", ""), changes[i].path)
    ensures HasPrefix(changes[i].path, "spec.selector") ==> DocsTell(p, changes, a, b, Note("scheduling", "", ""), changes[i].path)
  {
    ServiceLayout(p, changes, a, b);
    if HasPrefix(changes[i].path, "spec.ports") {
      HeadLeavesSpec(p, a, b, "spec.ports", changes[i].path);
      PortsClaim(p, changes, changes[i].path);
      SameTells(p, changes, a, b, ServiceRules(p, changes), 0, Note("ports", "", ""), i);
    }
    if HasPrefix(changes[i].path, "spec.selector") {
      HeadLeavesSpec(p, a, b, "spec.selector", changes[i].path);
      SelectorClaims(p, changes, changes[i].path);
      SameTells(p, changes, a, b, ServiceRules(p, changes), 1, Note("scheduling", "", ""), i);
    }
  }

  lemma {:induction false} PortsClaim(p: Printers, changes: seq<FieldChange>, path: string)
    requires HasPrefix(path, "spec.ports")
    ensures HasClaim(ServiceRules(p, changes), 0, Note("ports", "", ""), path)
  {
    var ports, selector := ServiceRules(p, changes)[0], ServiceRules(p, changes)[1];
    assert HasPrefix(path, ports.prefixes[0]);
    ClaimsAlone(ports, Note("ports", "", ""), path);
    ClaimsLeft([ports], [selector] + ScalarRules(p, changes, "spec.type"), 0, Note("ports", "", ""), path);
    assert [ports] + ([selector] + ScalarRules(p, changes, "spec.type")) == ServiceRules(p, changes);
  }

  lemma {:induction false} SelectorClaims(p: Printers, changes: seq<FieldChange>, path: string)
    requires HasPrefix(path, "spec.selector")
    ensures HasClaim(ServiceRules(p, changes), 1, Note("scheduling", "", ""), path)
  {
    var ports, selector := ServiceRules(p, changes)[0], ServiceRules(p, changes)[1];
    PartedNotCovered([ports], "spec.ports", "spec.selector", path, 5);
    assert HasPrefix(path, selector.prefixes[0]);
    ClaimsAlone(selector, Note("scheduling", "", ""), path);
    ClaimsBetween([ports], [selector], ScalarRules(p, changes, "spec.type"), 0, Note("scheduling", "", ""), path);
    assert [ports] + [selector] + ScalarRules(p, changes, "spec.type") == ServiceRules(p, changes);
  }

  // ---- labels, annotations and status --------------------------------------

  /** The path begins like a specification's or like data. */
  predicate Begins(path: string) {
    |path| > 1 && ((path[0] == 's' && path[1] == 'p') || path[0] == 'd' || path[0] == 'b')
  }

  ghost predicate AllBegin(rules: seq<Rule>) {
    forall k, q :: 0 <= k < |rules| && 0 <= q < |rules[k].prefixes| ==> Begins(rules[k].prefixes[q])
  }

  lemma {:induction false} BeginConcat(xs: seq<Rule>, ys: seq<Rule>)
    requires AllBegin(xs) && AllBegin(ys)
    ensures AllBegin(xs + ys)
  {
  }

  lemma {:induction false} BeginUnder(rules: seq<Rule>, top: string)
    requires AllUnder(rules, top) && Begins(top)
    ensures AllBegin(rules)
  {
    forall k, q | 0 <= k < |rules| && 0 <= q < |rules[k].prefixes| ensures Begins(rules[k].prefixes[q]) {
      var prefix := rules[k].prefixes[q];
      assert HasPrefix(prefix, top) && prefix[..|top|] == top;
      assert prefix[0] == prefix[..|top|][0] && prefix[1] == prefix[..|top|][1];
    }
  }

  lemma {:induction false} BeginNotCovered(rules: seq<Rule>, top: string, path: string)
    requires AllBegin(rules) && HasPrefix(path, top) && |top| > 1
    requires top[0] == 'm' || (top[0] == 's' && top[1] == 't')
    ensures !Covered(rules, path)
  {
    CoveredIff(rules, path);
    forall k, q | 0 <= k < |rules| && 0 <= q < |rules[k].prefixes| ensures !HasPrefix(path, rules[k].prefixes[q]) {
      NotUnder(path, top, rules[k].prefixes[q], if top[0] == 'm' || rules[k].prefixes[q][0] != 's' then 0 else 1);
    }
  }

  lemma {:induction false} PodSpecBegins(p: Printers, changes: seq<FieldChange>, base: string, pa: Json, pb: Json)
    requires Begins(base)
    ensures AllBegin(PodSpecRules(p, changes, base, pa, pb))
  {
    ListBegins(p, base, pa, pb, "initContainers");
    ListBegins(p, base, pa, pb, "containers");
    BeginConcat(ListRules(p, base, pa, pb, "initContainers"), ListRules(p, base, pa, pb, "containers"));
    PodRulesBegin(base);
    BeginConcat(PodRules(base), ScalarRules(p, changes, base + ".serviceAccountName"));
    BeginConcat(ListRules(p, base, pa, pb, "initContainers") + ListRules(p, base, pa, pb, "containers"),
                PodRules(base) + ScalarRules(p, changes, base + ".serviceAccountName"));
  }

  lemma {:induction false} ListBegins(p: Printers, base: string, pa: Json, pb: Json, list: string)
    requires Begins(base)
    ensures AllBegin(ListRules(p, base, pa, pb, list))
  {
    ContainersUnder(p, base + "." + list, Items(Field(pa, list)), Items(Field(pb, list)), Listed(p, Pods(base, pa, pb), list));
    BeginUnder(ListRules(p, base, pa, pb, list), base + "." + list);
  }

  lemma {:induction false} PodRulesBegin(base: string)
    requires Begins(base)
    ensures AllBegin(PodRules(base))
  {
    Dotted(base, ".volumes");
    Dotted(base, ".nodeSelector");
    Dotted(base, ".affinity");
    Dotted(base, ".tolerations");
    Dotted(base, ".topologySpreadConstraints");
    Dotted(base, ".priorityClassName");
    BeginUnder(PodRules(base), base);
  }

  lemma BaseBegins(kind: string)
    requires PodSpecPath(kind) != []
    ensures Begins(Join(PodSpecPath(kind)))
  {
    var path := PodSpecPath(kind);
    if |path| == 1 {
      assert path == ["spec"] && Join(path) == path[0];
    } else if |path| == 3 {
      JoinThree("spec", "template", "spec");
    } else {
      JoinFive("spec", "jobTemplate", "spec", "template", "spec");
    }
  }

  lemma {:induction false} WorkloadBegins(p: Printers, changes: seq<FieldChange>, a: Json, b: Json, pods: Pods)
    requires Begins(pods.base)
    ensures AllBegin(ReplicaRules(p, a, b) + PodSpecRules(p, changes, pods.base, pods.a, pods.b))
  {
    PodSpecBegins(p, changes, pods.base, pods.a, pods.b);
    ReplicasBegin(p, a, b);
    BeginConcat(ReplicaRules(p, a, b), PodSpecRules(p, changes, pods.base, pods.a, pods.b));
  }

  lemma {:induction false} ReplicasBegin(p: Printers, a: Json, b: Json)
    ensures AllBegin(ReplicaRules(p, a, b))
  {
    BeginUnder(ReplicaRules(p, a, b), "spec.replicas");
  }

  lemma {:induction false} DataBegins(a: Json, b: Json)
    ensures AllBegin(DataRules(a, b, "data") + DataRules(a, b, "binaryData"))
  {
    BeginUnder(DataRules(a, b, "data"), "data");
    BeginUnder(DataRules(a, b, "binaryData"), "binaryData");
    BeginConcat(DataRules(a, b, "data"), DataRules(a, b, "binaryData"));
  }

  lemma {:induction false} KindSpecificBegins(p: Printers, changes: seq<FieldChange>, a: Json, b: Json)
    ensures AllBegin(KindSpecificRules(p, changes, a, b))
  {
    DataBegins(a, b);
    ServiceBegins(p, changes);
  }

  lemma {:induction false} ServiceBegins(p: Printers, changes: seq<FieldChange>)
    ensures AllBegin(ServiceRules(p, changes))
  {
    BeginConcat([Bare("ports", ["spec.ports"]), Bare("scheduling", ["spec.selector"])], ScalarRules(p, changes, "spec.type"));
  }

  lemma {:induction false} SameBegins(p: Printers, changes: seq<FieldChange>, a: Json, b: Json, path: seq<string>)
    requires path == PodSpecPath(KindOf(a))
    ensures AllBegin(SameKindRules(p, changes, a, b, path))
  {
    KindSpecificBegins(p, changes, a, b);
    if path != [] {
      BaseBegins(KindOf(a));
      WorkloadLayout(p, changes, a, b);
      WorkloadBegins(p, changes, a, b, PodsOf(a, b));
      BeginConcat(WorkloadRules(p, changes, a, b, path), KindSpecificRules(p, changes, a, b));
    } else {
      AddNone(KindSpecificRules(p, changes, a, b));
    }
  }

  /** No rule of the documents' head covers a path that parts from its prefixes. */
  lemma {:induction false} HeadLeaves(p: Printers, a: Json, b: Json, top: string, path: string, d: nat)
    requires HasPrefix(path, top) && d < |top| && d < 13 && top[d] != "metadata.name"[d]
    requires top[0] == 'm' || top[0] == 's'
    ensures !Covered(HeadRules(p, a, b), path)
  {
    var kinds, names, spaces := KindRules(p, a, b), NameRules(p, a, b), NamespaceRules(p, a, b);
    KindsLeave(p, a, b, top, path);
    PartedNotCovered(names, "metadata.name", top, path, d);
    assert "metadata.namespace"[..13] == "metadata.name";
    assert "metadata.namespace"[d] == "metadata.namespace"[..13][d];
    PartedNotCovered(spaces, "metadata.namespace", top, path, d);
    CoveredConcat(kinds, names, path);
    CoveredConcat(kinds + names, spaces, path);
  }

  lemma {:induction false} KindsLeave(p: Printers, a: Json, b: Json, top: string, path: string)
    requires HasPrefix(path, top) && |top| > 0 && (top[0] == 'm' || top[0] == 's')
    ensures !Covered(KindRules(p, a, b), path)
  {
    var kinds := KindRules(p, a, b);
    CoveredIff(kinds, path);
    forall q | 0 <= q < |kinds[0].prefixes| ensures !HasPrefix(path, kinds[0].prefixes[q]) {
      NotUnder(path, top, kinds[0].prefixes[q], 0);
    }
  }

  lemma {:induction false} TailTells(p: Printers, changes: seq<FieldChange>, a: Json, b: Json, top: string, d: nat, tail: seq<Rule>,
                                     k: nat, note: Note, i: nat)
    requires tail == TailRules(a, b) && i < |changes| && HasClaim(tail, k, note, changes[i].path)
    requires HasPrefix(changes[i].path, top) && |top| > 1 && (top[0] == 'm' || (top[0] == 's' && top[1] == 't'))
    requires d < |top| && d < 13 && top[d] != "metadata.name"[d]
    ensures DocsTell(p, changes, a, b, note, changes[i].path)
  {
    var same := if KindOf(a) == KindOf(b) then SameKindRules(p, changes, a, b, PodSpecPath(KindOf(a))) else [];
    HeadLeaves(p, a, b, top, changes[i].path, d);
    SameBegins(p, changes, a, b, PodSpecPath(KindOf(a)));
    BeginNotCovered(same, top, changes[i].path);
    WholeLayout(p, changes, a, b, same);
    LastTells(p.render, changes, RulesFor(p, changes, a, b), HeadRules(p, a, b), same, tail, k, note, i);
  }

  lemma {:induction false} WholeLayout(p: Printers, changes: seq<FieldChange>, a: Json, b: Json, same: seq<Rule>)
    requires same == if KindOf(a) == KindOf(b) then SameKindRules(p, changes, a, b, PodSpecPath(KindOf(a))) else []
    ensures RulesFor(p, changes, a, b) == HeadRules(p, a, b) + same + TailRules(a, b)
  {
    if KindOf(a) == KindOf(b) {
      SameLayout(p, changes, a, b);
    }
  }

  lemma {:induction false} LastTells(render: Printer, changes: seq<FieldChange>, all: seq<Rule>, head: seq<Rule>, same: seq<Rule>,
                                     tail: seq<Rule>, k: nat, note: Note, i: nat)
    requires all == head + same + tail && i < |changes|
    requires HasClaim(tail, k, note, changes[i].path) && !Covered(head, changes[i].path) && !Covered(same, changes[i].path)
    ensures Tells(Summary(render, changes, all), note, changes[i].path)
  {
    CoveredConcat(head, same, changes[i].path);
    ClaimsRight(head + same, tail, k, note, changes[i].path);
    ClaimTells(render, changes, all, |head + same| + k, note, i);
  }

  /** The fields of the object at a path, none if there is no object. */
  function MapOf(v: Json, path: seq<string>): map<string, Json> {
    var m := Get(v, path);
    if m.Obj? then m.fields else map[]
  }

  /** Some key is on one side only, or has two values that differ, numbers by value. */
  ghost predicate MapsDiffer(x: map<string, Json>, y: map<string, Json>) {
    exists k :: (k in x && k !in y) || (k !in x && k in y) || (k in x && k in y && !Compare.LooseEqual(x[k], y[k]))
  }

  lemma {:induction false} MapClaims(a: Json, b: Json, what: string, prefix: string, path: string)
    requires HasPrefix(path, prefix) && MapsDiffer(MapOf(a, ["metadata", what]), MapOf(b, ["metadata", what]))
    ensures HasClaim(MapRules(a, b, what, prefix), 0, Note(what, "", ""), path)
  {
    FieldBelow(a, "metadata", what);
    FieldBelow(b, "metadata", what);
    var x, y := MapOf(a, ["metadata", what]), MapOf(b, ["metadata", what]);
    var k :| (k in x && k !in y) || (k !in x && k in y) || (k in x && k in y && !Compare.LooseEqual(x[k], y[k]));
    assert k in OnlyIn(x, y) + OnlyIn(y, x) + Unequal(x, y);
    var r := MapRules(a, b, what, prefix)[0];
    assert HasPrefix(path, r.prefixes[0]) && MapRules(a, b, what, prefix) == [r];
    ClaimsAlone(r, Note(what, "", ""), path);
  }

  /** Changes to labels are told as such if any label differs. */
  lemma {:induction false} LabelsAreTold(p: Printers, changes: seq<FieldChange>, a: Json, b: Json, i: nat)
    requires i < |changes| && HasPrefix(changes[i].path, "metadata.labels")
    requires MapsDiffer(MapOf(a, ["metadata", "labels"]), MapOf(b, ["metadata", "labels"]))
    ensures DocsTell(p, changes, a, b, Note("labels", "", ""), changes[i].path)
  {
    var labels, annotations := MapRules(a, b, "labels", "metadata.labels"), MapRules(a, b, "annotations", "metadata.annotations");
    MapClaims(a, b, "labels", "metadata.labels", changes[i].path);
    ClaimsLeft(labels, annotations, 0, Note("labels", "", ""), changes[i].path);
    ClaimsLeft(labels + annotations, [Bare("status", ["status"])], 0, Note("labels", "", ""), changes[i].path);
    TailTells(p, changes, a, b, "metadata.labels", 9, TailRules(a, b), 0, Note("labels", "", ""), i);
  }

  /** And changes to annotations. */
  lemma {:induction false} AnnotationsAreTold(p: Printers, changes: seq<FieldChange>, a: Json, b: Json, i: nat)
    requires i < |changes| && HasPrefix(changes[i].path, "metadata.annotations")
    requires MapsDiffer(MapOf(a, ["metadata", "annotations"]), MapOf(b, ["metadata", "annotations"]))
    ensures DocsTell(p, changes, a, b, Note("annotations", "", ""), changes[i].path)
  {
    var labels, annotations := MapRules(a, b, "labels", "metadata.labels"), MapRules(a, b, "annotations", "metadata.annotations");
    MapClaims(a, b, "annotations", "metadata.annotations", changes[i].path);
    PartedNotCovered(labels, "metadata.labels", "metadata.annotations", changes[i].path, 9);
    ClaimsBetween(labels, annotations, [Bare("status", ["status"])], 0, Note("annotations", "", ""), changes[i].path);
    TailTells(p, changes, a, b, "metadata.annotations", 9, TailRules(a, b), |labels|, Note("annotations", "", ""), i);
  }

  /** Changes to the status are told as such. */
  lemma {:induction false} StatusIsTold(p: Printers, changes: seq<FieldChange>, a: Json, b: Json, i: nat)
    requires i < |changes| && HasPrefix(changes[i].path, "status")
    ensures DocsTell(p, changes, a, b, Note("status", "", ""), changes[i].path)
  {
    var path := changes[i].path;
    var labels, annotations := MapRules(a, b, "labels", "metadata.labels"), MapRules(a, b, "annotations", "metadata.annotations");
    var status := TailRules(a, b)[|TailRules(a, b)| - 1];
    PartedNotCovered(labels, "metadata.labels", "status", path, 0);
    PartedNotCovered(annotations, "metadata.annotations", "status", path, 0);
    CoveredConcat(labels, annotations, path);
    assert HasPrefix(path, status.prefixes[0]) && TailRules(a, b) == labels + annotations + [status];
    ClaimsAlone(status, Note("status", "", ""), path);
    var k := After(labels + annotations, [status], 0, Note("status", "", ""), path);
    TailTells(p, changes, a, b, "status", 0, TailRules(a, b), k, Note("status", "", ""), i);
  }

  // ---- containers ----------------------------------------------------------

  /** Where the pods are, and under which path, by kind. */
  lemma PodsAreRead(a: Json, b: Json)
    requires KindOf(a) == KindOf(b)
    ensures KindOf(a) == "Pod" ==> IsPods(a, b, ["spec"])
    ensures KindOf(a) == "CronJob" ==> IsPods(a, b, ["spec", "jobTemplate", "spec", "template", "spec"])
    ensures KindOf(a) in {"Deployment", "StatefulSet", "DaemonSet", "ReplicaSet", "Job", "ReplicationController"} ==>
              IsPods(a, b, ["spec", "template", "spec"])
    ensures PodSpecPath(KindOf(a)) != [] ==>
              KindOf(a) in {"Pod", "CronJob", "Deployment", "StatefulSet", "DaemonSet", "ReplicaSet", "Job", "ReplicationController"}
  {
    var path := PodSpecPath(KindOf(a));
    if path != [] {
      MapIsGet(a, path);
      MapIsGet(b, path);
    }
  }

  ghost predicate IsPods(a: Json, b: Json, path: seq<string>) {
    var pods := PodsOf(a, b);
    && PodSpecPath(KindOf(a)) == path && pods.base == Join(path)
    && pods.a == (if Get(a, path).Obj? then Get(a, path) else Null)
    && pods.b == (if Get(b, path).Obj? then Get(b, path) else Null)
  }

  lemma {:induction false} MapIsGet(v: Json, path: seq<string>)
    requires path != []
    ensures MapAt(v, path) == if Get(v, path).Obj? then Get(v, path) else Null
    decreases |path|
  {
    var child := Field(v, path[0]);
    if |path| > 1 {
      if child.Obj? {
        MapIsGet(child, path[1..]);
      } else {
        GetOfNothing(child, path[1..]);
      }
    }
  }

  lemma {:induction false} GetOfNothing(v: Json, path: seq<string>)
    requires !v.Obj? && path != []
    ensures Get(v, path) == Null
  {
  }

  /** The text of an environment entry: its value, or where that comes from, or nothing. */
  function EntryText(render: Printer, e: Json): string {
    if e.Obj? && "value" in e.fields then Plainly(render, e.fields["value"])
    else if e.Obj? && "valueFrom" in e.fields then "from " + render(e.fields["valueFrom"])
    else ""
  }

  /** The entry is the last one of that name. */
  ghost predicate IsLastEntry(render: Printer, entries: seq<Json>, v: string, e: nat) {
    && e < |entries| && entries[e].Obj? && Plainly(render, Get(entries[e], ["name"])) == v
    && forall j :: e < j < |entries| && entries[j].Obj? ==> Plainly(render, Get(entries[j], ["name"])) != v
  }

  lemma {:induction false} EntryIsRead(render: Printer, entries: seq<Json>, v: string, e: nat)
    requires IsLastEntry(render, entries, v, e)
    ensures v in EnvOf(render, entries) && EnvOf(render, entries)[v] == EntryText(render, entries[e])
  {
    FieldIsGet(entries[e], "name");
    forall j | e < j < |entries| ensures !IsNamed(render, entries[j], v) {
      FieldIsGet(entries[j], "name");
    }
    assert IsLastNamed(render, entries, v, e);
    EnvOfIsLast(render, entries, v);
    var i: nat :| IsLastNamed(render, entries, v, i) && EnvOf(render, entries)[v] == EnvValue(render, entries[i]);
    assert i == e;
  }

  /** A change to the environment is told with the texts of a variable's last entries, if those differ. */
  lemma {:induction false} VariableIsTold(p: Printers, changes: seq<FieldChange>, a: Json, b: Json, slot: Slot, i: nat, v: string,
                                          xs: seq<Json>, ys: seq<Json>, e: nat, f: nat)
    requires i < |changes| && ChangesPlainSetting(p, a, b, slot, changes[i].path) && slot.what.Environment?
    requires Get(ContainerOf(p, PodsOf(a, b), PodsOf(a, b).a, slot), ["env"]) == List(xs)
    requires Get(ContainerOf(p, PodsOf(a, b), PodsOf(a, b).b, slot), ["env"]) == List(ys)
    requires IsLastEntry(p.render, xs, v, e) && IsLastEntry(p.render, ys, v, f)
    requires EntryText(p.render, xs[e]) != EntryText(p.render, ys[f])
    ensures DocsTell(p, changes, a, b, Note("env", EntryText(p.render, xs[e]), EntryText(p.render, ys[f])), changes[i].path)
  {
    var pods := PodsOf(a, b);
    FieldIsGet(ContainerOf(p, pods, pods.a, slot), "env");
    FieldIsGet(ContainerOf(p, pods, pods.b, slot), "env");
    EntryIsRead(p.render, xs, v, e);
    EntryIsRead(p.render, ys, v, f);
    EnvIsTold(p, changes, a, b, slot, i, v);
  }

  /** A container is the last object of its name in its list. */
  lemma {:induction false} ContainerIsLast(p: Printers, pods: Pods, pod: Json, slot: Slot, cs: seq<Json>, c: nat)
    requires Get(pod, [slot.list]) == List(cs) && IsLastEntry(p.render, cs, NameAt(p, pods, slot), c)
    ensures ContainerOf(p, pods, pod, slot) == cs[c]
  {
    FieldIsGet(pod, slot.list);
    FieldIsGet(cs[c], "name");
    forall j | c < j < |cs| ensures !IsNamed(p.render, cs[j], NameAt(p, pods, slot)) {
      FieldIsGet(cs[j], "name");
    }
    assert IsLastNamed(p.render, cs, NameAt(p, pods, slot), c);
    ByNameIsLast(p.render, cs, NameAt(p, pods, slot));
  }
}
