/** What a summary says about containers. */
module SummaryContent {
  import opened Options
  import opened Json
  import opened KeyOrder
  import opened ComparePaths
  import opened CompareLaws
  import opened CompareReport
  import opened ClaimRules
  import opened SummaryRules

  // ---- reading the documents -----------------------------------------------

  /** What a document has below some map keys; null stands for nothing. */
  function Get(v: Json, keys: seq<string>): Json
    decreases |keys|
  {
    if |keys| == 0 then v
    else if v.Obj? && keys[0] in v.fields then Get(v.fields[keys[0]], keys[1..]) else Null
  }

  /** Text as it is, nothing as nothing, and anything else as it is written. */
  function Plainly(render: Printer, v: Json): string {
    if v == Null then "" else if v.Str? then v.s else render(v)
  }

  function OrNotSet(s: string): string {
    if |s| == 0 then "not set" else s
  }

  lemma FieldIsGet(v: Json, k: string)
    ensures Field(v, k) == Get(v, [k])
  {
    assert [k][1..] == [];
  }

  lemma FieldBelow(v: Json, top: string, k: string)
    ensures Field(MapAt(v, [top]), k) == Get(v, [top, k])
  {
    assert [top][1..] == [] && [top, k][1..] == [k];
    FieldIsGet(Field(v, top), k);
    FieldIsGet(v, top);
  }

  lemma KindIsGet(v: Json)
    ensures KindOf(v) == if Get(v, ["kind"]).Str? then Get(v, ["kind"]).s else ""
  {
    FieldIsGet(v, "kind");
  }

  // ---- a rule's place among the others -------------------------------------

  /** A rule, and whether an earlier one covers the path. */
  datatype Spot = Spot(rule: Rule, taken: bool)

  ghost function SpotAt(rules: seq<Rule>, k: nat, path: string): Option<Spot> {
    if k < |rules| then Some(Spot(rules[k], Covered(rules[..k], path))) else None
  }

  /** Rule k is r, and `taken` says whether an earlier rule covers the path. */
  ghost predicate IsAt(rules: seq<Rule>, k: nat, r: Rule, path: string, taken: bool) {
    SpotAt(rules, k, path) == Some(Spot(r, taken))
  }

  lemma {:induction false} CoveredConcat(xs: seq<Rule>, ys: seq<Rule>, path: string)
    ensures Covered(xs + ys, path) <==> Covered(xs, path) || Covered(ys, path)
  {
    if ys == [] {
      assert xs + ys == xs;
    } else {
      assert (xs + ys)[..|xs + ys| - 1] == xs + ys[..|ys| - 1];
      CoveredConcat(xs, ys[..|ys| - 1], path);
    }
  }

  lemma {:induction false} AtLeft(xs: seq<Rule>, ys: seq<Rule>, k: nat, r: Rule, path: string, taken: bool)
    requires IsAt(xs, k, r, path, taken)
    ensures IsAt(xs + ys, k, r, path, taken)
  {
    assert (xs + ys)[..k] == xs[..k];
  }

  lemma {:induction false} AtRight(xs: seq<Rule>, ys: seq<Rule>, k: nat, r: Rule, path: string, taken: bool)
    requires IsAt(ys, k, r, path, taken)
    ensures IsAt(xs + ys, |xs| + k, r, path, Covered(xs, path) || taken)
  {
    assert (xs + ys)[..|xs| + k] == xs + ys[..k];
    CoveredConcat(xs, ys[..k], path);
  }

  /** Rules before that do not cover the path, and rules after, change nothing. */
  lemma {:induction false} AtBetween(before: seq<Rule>, rules: seq<Rule>, after: seq<Rule>, k: nat, r: Rule,
                                     path: string, taken: bool)
    requires IsAt(rules, k, r, path, taken) && !Covered(before, path)
    ensures IsAt(before + rules + after, |before| + k, r, path, taken)
  {
    AtRight(before, rules, k, r, path, taken);
    AtLeft(before + rules, after, |before| + k, r, path, taken);
  }

  /** The insight carries the note and lists the path. */
  predicate Says(insight: Insight, note: Note, path: string) {
    path in insight.paths && insight.category == note.category && insight.a == note.a && insight.b == note.b
  }

  ghost predicate Tells(out: seq<Insight>, note: Note, path: string) {
    exists j :: 0 <= j < |out| && Says(out[j], note, path)
  }

  lemma {:induction false} TellsMore(out: seq<Insight>, more: seq<Insight>, note: Note, path: string)
    requires Tells(out, note, path) || Tells(more, note, path)
    ensures Tells(out + more, note, path)
  {
    if Tells(out, note, path) {
      var j :| 0 <= j < |out| && Says(out[j], note, path);
      assert (out + more)[j] == out[j];
    } else {
      var j :| 0 <= j < |more| && Says(more[j], note, path);
      assert (out + more)[|out| + j] == more[j];
    }
  }

  lemma {:induction false} NotesAreTold(rule: Rule, paths: seq<string>, m: nat, path: string)
    requires m < |rule.notes| && path in paths
    ensures Tells(Insights(rule, paths), rule.notes[m], path)
  {
    assert Says(Insights(rule, paths)[m], rule.notes[m], path);
  }

  /** Every note of the first rule that covers a change's path appears with that path. */
  lemma {:induction false} FirstRuleTells(changes: seq<FieldChange>, rules: seq<Rule>, k: nat, r: Rule, i: nat, m: nat)
    requires i < |changes| && IsAt(rules, k, r, changes[i].path, false)
    requires IsUnder(changes[i].path, r.prefixes) && m < |r.notes|
    ensures Tells(Explained(changes, rules), r.notes[m], changes[i].path)
  {
    var init, last := rules[..|rules| - 1], rules[|rules| - 1];
    var claim := Taken(changes, init, last.prefixes, |changes|);
    if k < |init| {
      assert init[..k] == rules[..k];
      FirstRuleTells(changes, init, k, r, i, m);
    } else {
      TakenIff(changes, init, last.prefixes, |changes|, i);
      ListedInClaim(changes, claim, i);
      NotesAreTold(last, Paths(changes, claim), m, changes[i].path);
    }
    TellsMore(Explained(changes, init), Insights(last, Paths(changes, claim)), r.notes[m], changes[i].path);
  }

  lemma {:induction false} SummaryTells(render: Printer, changes: seq<FieldChange>, rules: seq<Rule>, k: nat,
                                        r: Rule, i: nat, m: nat)
    requires i < |changes| && IsAt(rules, k, r, changes[i].path, false)
    requires IsUnder(changes[i].path, r.prefixes) && m < |r.notes|
    ensures Tells(Summary(render, changes, rules), r.notes[m], changes[i].path)
  {
    FirstRuleTells(changes, rules, k, r, i, m);
    var sections, left := Sections(changes), Left(changes, rules, |changes|);
    TellsMore(Explained(changes, rules), GroupInsights(render, changes, sections, left, Order(sections, left)),
              r.notes[m], changes[i].path);
  }

  // ---- what a rule's prefixes have in common -------------------------------

  ghost predicate AllUnder(rules: seq<Rule>, top: string) {
    forall k, q :: 0 <= k < |rules| && 0 <= q < |rules[k].prefixes| ==> HasPrefix(rules[k].prefixes[q], top)
  }

  lemma {:induction false} UnderTransitive(path: string, mid: string, top: string)
    requires HasPrefix(path, mid) && HasPrefix(mid, top)
    ensures HasPrefix(path, top)
  {
    if |mid| < |path| && |top| < |mid| {
      assert path[..|mid|][..|top|] == path[..|top|];
      assert path[..|mid|][|top|] == path[|top|];
    }
  }

  /** Two prefixes of one path agree wherever both reach. */
  lemma {:induction false} PrefixesAgree(path: string, s: string, t: string, d: nat)
    requires HasPrefix(path, s) && HasPrefix(path, t) && d < |s| && d < |t|
    ensures s[d] == t[d]
  {
    assert path[..|s|] == s && path[..|t|] == t;
    assert path[..|s|][d] == path[d] == path[..|t|][d];
  }

  lemma {:induction false} CoveredIsUnder(rules: seq<Rule>, top: string, path: string)
    requires AllUnder(rules, top) && Covered(rules, path)
    ensures HasPrefix(path, top)
  {
    CoveredIff(rules, path);
    var k :| 0 <= k < |rules| && IsUnder(path, rules[k].prefixes);
    var q :| 0 <= q < |rules[k].prefixes| && HasPrefix(path, rules[k].prefixes[q]);
    UnderTransitive(path, rules[k].prefixes[q], top);
  }

  /** Rules under one prefix do not cover a path under another that parts from it. */
  lemma {:induction false} PartedNotCovered(rules: seq<Rule>, top: string, other: string, path: string, d: nat)
    requires AllUnder(rules, top) && HasPrefix(path, other)
    requires d < |top| && d < |other| && top[d] != other[d]
    ensures !Covered(rules, path)
  {
    if Covered(rules, path) {
      CoveredIsUnder(rules, top, path);
      PrefixesAgree(path, top, other, d);
    }
  }

  lemma {:induction false} Dotted(top: string, field: string)
    requires |field| > 0 && (field[0] == '.' || field[0] == '[')
    ensures HasPrefix(top + field, top)
  {
  }

  lemma {:induction false} UnderConcat(xs: seq<Rule>, ys: seq<Rule>, top: string)
    requires AllUnder(xs, top) && AllUnder(ys, top)
    ensures AllUnder(xs + ys, top)
  {
  }

  // ---- one container's rules -----------------------------------------------

  lemma {:induction false} SettingsUnder(p: Printers, at: string, x: Json, y: Json)
    ensures AllUnder(SettingRules(p, at, x, y), at)
  {
    Dotted(at, ".image");
    Dotted(at, ".env");
    Dotted(at, ".envFrom");
    Dotted(at, ".resources");
  }

  lemma {:induction false} ProbesUnder(at: string)
    ensures AllUnder(ProbeRules(at), at)
  {
    Dotted(at, ".ports");
    Dotted(at, ".livenessProbe");
    Dotted(at, ".readinessProbe");
    Dotted(at, ".startupProbe");
  }

  lemma {:induction false} OthersUnder(at: string)
    ensures AllUnder(OtherRules(at), at)
  {
    Dotted(at, ".command");
    Dotted(at, ".args");
    Dotted(at, ".volumeMounts");
  }

  lemma {:induction false} ContainerUnder(p: Printers, at: string, x: Json, y: Json)
    ensures AllUnder(ContainerRules(p, at, x, y), at)
  {
    SettingsUnder(p, at, x, y);
    ProbesUnder(at);
    OthersUnder(at);
    UnderConcat(SettingRules(p, at, x, y), ProbeRules(at), at);
    UnderConcat(SettingRules(p, at, x, y) + ProbeRules(at), OtherRules(at), at);
  }

  /** A container's rules take exactly what is under the container. */
  lemma {:induction false} ContainerCovers(p: Printers, at: string, x: Json, y: Json, path: string)
    ensures Covered(ContainerRules(p, at, x, y), path) <==> HasPrefix(path, at)
  {
    var rules := ContainerRules(p, at, x, y);
    var last := rules[|rules| - 1];
    assert last == Bare("spec", [at]);
    if HasPrefix(path, at) {
      assert HasPrefix(path, last.prefixes[0]);
    } else if Covered(rules, path) {
      ContainerUnder(p, at, x, y);
      CoveredIsUnder(rules, at, path);
    }
  }

  /** How a container's image is told. */
  function ImageTold(p: Printers, c: Json): string {
    OrNotSet(Plainly(p.render, Get(c, ["image"])))
  }

  function ImageRule(p: Printers, at: string, x: Json, y: Json): Rule {
    Rule([at + ".image"], [Note("image", ImageTold(p, x), ImageTold(p, y))], false)
  }

  ghost function EnvironmentRule(p: Printers, at: string, x: Json, y: Json): Rule {
    EnvRule(at, EnvOf(p.render, Items(Field(x, "env"))), EnvOf(p.render, Items(Field(y, "env"))))
  }

  /** The parts of a container that are told on their own. */
  datatype What = Image | Environment | Resources | Ports | Liveness | Readiness | Startup | Command | Mounts | Rest

  /** What is said of each. */
  ghost function Setting(p: Printers, at: string, x: Json, y: Json, what: What): Rule {
    match what
    case Image => ImageRule(p, at, x, y)
    case Environment => EnvironmentRule(p, at, x, y)
    case Resources => Rule([at + ".resources"], [Note("resources", p.resources(x), p.resources(y))], false)
    case Ports => Rule([at + ".ports"], [Note("ports", "", "")], false)
    case Liveness => Rule([at + ".livenessProbe"], [Note("probes", "", "")], false)
    case Readiness => Rule([at + ".readinessProbe"], [Note("probes", "", "")], false)
    case Startup => Rule([at + ".startupProbe"], [Note("probes", "", "")], false)
    case Command => Rule([at + ".command", at + ".args"], [Note("spec", "", "")], false)
    case Mounts => Rule([at + ".volumeMounts"], [Note("volumes", "", "")], false)
    case Rest => Rule([at], [Note("spec", "", "")], false)
  }

  /** The path is below the part; the rest is what is below no other, or all of a container that one side lacks. */
  ghost predicate IsPart(p: Printers, at: string, x: Json, y: Json, what: What, path: string) {
    && IsUnder(path, Setting(p, at, x, y, what).prefixes)
    && if x == Null || y == Null then what == Rest
       else what == Rest ==> forall w: What :: w != Rest ==> !IsUnder(path, Setting(p, at, x, y, w).prefixes)
  }

  lemma NotUnder(path: string, own: string, prefix: string, d: nat)
    requires HasPrefix(path, own) && d < |own| && d < |prefix| && own[d] != prefix[d]
    ensures !HasPrefix(path, prefix)
  {
    if HasPrefix(path, prefix) {
      PrefixesAgree(path, own, prefix, d);
    }
  }

  lemma {:induction false} SettingsLeave(p: Printers, at: string, x: Json, y: Json, field: string, path: string)
    requires HasPrefix(path, at + field) && |field| > 3 && field[1] != 'i' && field[1] != 'e' && (field[1] == 'r' ==> field[3] != 's')
    ensures !Covered(SettingRules(p, at, x, y), path)
  {
    var rules := SettingRules(p, at, x, y);
    NotUnder(path, at + field, at + ".image", |at| + 1);
    NotUnder(path, at + field, at + ".env", |at| + 1);
    NotUnder(path, at + field, at + ".envFrom", |at| + 1);
    NotUnder(path, at + field, at + ".resources", if field[1] == 'r' then |at| + 3 else |at| + 1);
    CoveredIff(rules, path);
  }

  lemma {:induction false} ProbesLeave(at: string, field: string, path: string)
    requires HasPrefix(path, at + field) && |field| > 3
    requires field[1] != 'p' && field[1] != 'l' && field[1] != 'r' && field[1] != 's'
    ensures !Covered(ProbeRules(at), path)
  {
    NotUnder(path, at + field, at + ".ports", |at| + 1);
    NotUnder(path, at + field, at + ".livenessProbe", |at| + 1);
    NotUnder(path, at + field, at + ".readinessProbe", |at| + 1);
    NotUnder(path, at + field, at + ".startupProbe", |at| + 1);
    CoveredIff(ProbeRules(at), path);
  }

  /** The settings' own rules, in their order. */
  lemma {:induction false} SettingAt(p: Printers, at: string, x: Json, y: Json, what: What, path: string) returns (k: nat)
    requires what.Image? || what.Environment? || what.Resources?
    requires IsUnder(path, Setting(p, at, x, y, what).prefixes)
    ensures IsAt(SettingRules(p, at, x, y), k, Setting(p, at, x, y, what), path, false)
  {
    SettingsAre(p, at, x, y);
    var image, env, resources := Setting(p, at, x, y, Image), Setting(p, at, x, y, Environment), Setting(p, at, x, y, Resources);
    if what.Image? {
      k := 0;
      assert [image, env, resources][..0] == [];
    } else if what.Environment? {
      k := 1;
      EnvironmentApart(p, at, x, y, path);
      AtSecond(image, env, resources, path);
    } else {
      k := 2;
      ResourcesApart(p, at, x, y, path);
      AtThird(image, env, resources, path);
    }
  }

  lemma {:induction false} SettingsAre(p: Printers, at: string, x: Json, y: Json)
    ensures SettingRules(p, at, x, y)
         == [Setting(p, at, x, y, Image), Setting(p, at, x, y, Environment), Setting(p, at, x, y, Resources)]
  {
    FieldIsGet(x, "image");
    FieldIsGet(y, "image");
  }

  lemma {:induction false} EnvironmentApart(p: Printers, at: string, x: Json, y: Json, path: string)
    requires IsUnder(path, Setting(p, at, x, y, Environment).prefixes)
    ensures !IsUnder(path, Setting(p, at, x, y, Image).prefixes)
  {
    var r := Setting(p, at, x, y, Environment);
    var q :| 0 <= q < |r.prefixes| && HasPrefix(path, r.prefixes[q]);
    NotUnder(path, r.prefixes[q], at + ".image", |at| + 1);
  }

  lemma {:induction false} ResourcesApart(p: Printers, at: string, x: Json, y: Json, path: string)
    requires IsUnder(path, Setting(p, at, x, y, Resources).prefixes)
    ensures !IsUnder(path, Setting(p, at, x, y, Image).prefixes) && !IsUnder(path, Setting(p, at, x, y, Environment).prefixes)
  {
    NotUnder(path, at + ".resources", at + ".image", |at| + 1);
    NotUnder(path, at + ".resources", at + ".env", |at| + 1);
    NotUnder(path, at + ".resources", at + ".envFrom", |at| + 1);
  }

  lemma {:induction false} AtSecond(first: Rule, r: Rule, third: Rule, path: string)
    requires !IsUnder(path, first.prefixes)
    ensures IsAt([first, r, third], 1, r, path, false)
  {
    var rules := [first, r, third];
    assert rules[..1] == [first] && !Covered([first][..0], path);
  }

  lemma {:induction false} AtThird(first: Rule, second: Rule, r: Rule, path: string)
    requires !IsUnder(path, first.prefixes) && !IsUnder(path, second.prefixes)
    ensures IsAt([first, second, r], 2, r, path, false)
  {
    CoveredIff([first, second], path);
    assert [first, second, r][..2] == [first, second];
  }

  lemma {:induction false} ProbeAt(p: Printers, at: string, x: Json, y: Json, what: What, path: string) returns (k: nat)
    requires what.Ports? || what.Liveness? || what.Readiness? || what.Startup?
    requires IsUnder(path, Setting(p, at, x, y, what).prefixes)
    ensures IsAt(ProbeRules(at), k, Setting(p, at, x, y, what), path, false) && !Covered(SettingRules(p, at, x, y), path)
  {
    var rules, own := ProbeRules(at), Setting(p, at, x, y, what).prefixes[0];
    k := if what.Ports? then 0 else if what.Liveness? then 1 else if what.Readiness? then 2 else 3;
    var field := if what.Ports? then ".ports" else if what.Liveness? then ".livenessProbe"
                 else if what.Readiness? then ".readinessProbe" else ".startupProbe";
    assert own == at + field;
    SettingsLeave(p, at, x, y, field, path);
    forall j | 0 <= j < k ensures !IsUnder(path, rules[j].prefixes) {
      NotUnder(path, own, rules[j].prefixes[0], |at| + 1);
    }
    CoveredIff(rules[..k], path);
  }

  lemma {:induction false} OtherAt(p: Printers, at: string, x: Json, y: Json, what: What, path: string) returns (k: nat)
    requires what.Command? || what.Mounts?
    requires IsUnder(path, Setting(p, at, x, y, what).prefixes)
    ensures IsAt(OtherRules(at), k, Setting(p, at, x, y, what), path, false)
    ensures !Covered(SettingRules(p, at, x, y), path) && !Covered(ProbeRules(at), path)
  {
    var r, rules := Setting(p, at, x, y, what), OtherRules(at);
    var q :| 0 <= q < |r.prefixes| && HasPrefix(path, r.prefixes[q]);
    var field := if what.Mounts? then ".volumeMounts" else if q == 0 then ".command" else ".args";
    assert r.prefixes[q] == at + field;
    SettingsLeave(p, at, x, y, field, path);
    ProbesLeave(at, field, path);
    if what.Command? {
      k := 0;
      assert rules[..0] == [];
    } else {
      k := 1;
      NotUnder(path, at + field, at + ".command", |at| + 1);
      NotUnder(path, at + field, at + ".args", |at| + 1);
      AtSecond(rules[0], r, rules[2], path);
      assert rules == [rules[0], r, rules[2]];
    }
  }

  /** The last rule of a container takes what no other does. */
  lemma {:induction false} RestAt(p: Printers, at: string, x: Json, y: Json, path: string) returns (k: nat)
    requires x != Null && y != Null && IsPart(p, at, x, y, Rest, path)
    ensures IsAt(ContainerRules(p, at, x, y), k, Setting(p, at, x, y, Rest), path, false)
  {
    var settings, probes, others := SettingRules(p, at, x, y), ProbeRules(at), OtherRules(at);
    RestOfSettings(p, at, x, y, path);
    RestOfProbes(p, at, x, y, path);
    RestOfOthers(p, at, x, y, path);
    CoveredConcat(settings, probes, path);
    AtThird(others[0], others[1], others[2], path);
    assert others == [others[0], others[1], others[2]];
    AtRight(settings + probes, others, 2, Setting(p, at, x, y, Rest), path, false);
    k := |settings + probes| + 2;
  }

  lemma {:induction false} RestOfSettings(p: Printers, at: string, x: Json, y: Json, path: string)
    requires x != Null && y != Null && IsPart(p, at, x, y, Rest, path)
    ensures !Covered(SettingRules(p, at, x, y), path)
  {
    var rules := SettingRules(p, at, x, y);
    CoveredIff(rules, path);
    forall q | 0 <= q < |rules[1].prefixes| ensures !HasPrefix(path, rules[1].prefixes[q]) {
      EnvPrefixes(p, at, x, y, path);
    }
    SingleNotUnder(path, at + ".image", Setting(p, at, x, y, Image));
    SingleNotUnder(path, at + ".resources", Setting(p, at, x, y, Resources));
  }

  lemma SingleNotUnder(path: string, prefix: string, r: Rule)
    requires r.prefixes == [prefix] && !IsUnder(path, r.prefixes)
    ensures !HasPrefix(path, prefix)
  {
    assert r.prefixes[0] == prefix;
  }

  lemma EnvPrefixes(p: Printers, at: string, x: Json, y: Json, path: string)
    requires !IsUnder(path, Setting(p, at, x, y, Environment).prefixes)
    ensures !HasPrefix(path, at + ".env") && !HasPrefix(path, at + ".envFrom")
  {
    var prefixes := Setting(p, at, x, y, Environment).prefixes;
    assert prefixes[0] in {at + ".env", at + ".envFrom"} && prefixes[1] in {at + ".env", at + ".envFrom"} && prefixes[0] != prefixes[1];
  }

  lemma {:induction false} RestOfProbes(p: Printers, at: string, x: Json, y: Json, path: string)
    requires x != Null && y != Null && IsPart(p, at, x, y, Rest, path)
    ensures !Covered(ProbeRules(at), path)
  {
    CoveredIff(ProbeRules(at), path);
    SingleNotUnder(path, at + ".ports", Setting(p, at, x, y, Ports));
    SingleNotUnder(path, at + ".livenessProbe", Setting(p, at, x, y, Liveness));
    SingleNotUnder(path, at + ".readinessProbe", Setting(p, at, x, y, Readiness));
    SingleNotUnder(path, at + ".startupProbe", Setting(p, at, x, y, Startup));
  }

  lemma {:induction false} RestOfOthers(p: Printers, at: string, x: Json, y: Json, path: string)
    requires x != Null && y != Null && IsPart(p, at, x, y, Rest, path)
    ensures !IsUnder(path, OtherRules(at)[0].prefixes) && !IsUnder(path, OtherRules(at)[1].prefixes)
  {
    assert OtherRules(at)[0].prefixes == Setting(p, at, x, y, Command).prefixes;
    assert OtherRules(at)[1].prefixes == Setting(p, at, x, y, Mounts).prefixes;
  }

  lemma {:induction false} SettingIsBelow(p: Printers, at: string, x: Json, y: Json, what: What, path: string)
    requires IsUnder(path, Setting(p, at, x, y, what).prefixes)
    ensures HasPrefix(path, at)
  {
    var r := Setting(p, at, x, y, what);
    var q :| 0 <= q < |r.prefixes| && HasPrefix(path, r.prefixes[q]);
    assert HasPrefix(r.prefixes[q], at);
    UnderTransitive(path, r.prefixes[q], at);
  }

  lemma {:induction false} ContainerAt(p: Printers, at: string, x: Json, y: Json, what: What,
                                       path: string) returns (k: nat)
    requires IsPart(p, at, x, y, what, path)
    ensures IsAt(ContainerRules(p, at, x, y), k, Setting(p, at, x, y, what), path, false) && HasPrefix(path, at)
  {
    var r, settings, probes, others := Setting(p, at, x, y, what), SettingRules(p, at, x, y), ProbeRules(at), OtherRules(at);
    SettingIsBelow(p, at, x, y, what, path);
    if x == Null || y == Null {
      k := 0;
      assert [r][..0] == [];
    } else if what.Rest? {
      k := RestAt(p, at, x, y, path);
    } else if what.Image? || what.Environment? || what.Resources? {
      k := SettingAt(p, at, x, y, what, path);
      AtLeft(settings, probes, k, r, path, false);
      AtLeft(settings + probes, others, k, r, path, false);
    } else if what.Command? || what.Mounts? {
      k := OtherAt(p, at, x, y, what, path);
      CoveredConcat(settings, probes, path);
      AtRight(settings + probes, others, k, r, path, false);
      k := |settings + probes| + k;
    } else {
      k := ProbeAt(p, at, x, y, what, path);
      AtBetween(settings, probes, others, k, r, path, false);
      k := |settings| + k;
    }
  }

  // ---- all containers of a list --------------------------------------------

  function Place(base: string, n: string): string {
    base + "[" + n + "]"
  }

  /** The path is under one of these containers. */
  ghost predicate InSome(base: string, names: seq<string>, path: string) {
    exists m :: 0 <= m < |names| && HasPrefix(path, Place(base, names[m]))
  }

  lemma {:induction false} InSomeAppend(base: string, names: seq<string>, n: string, path: string)
    ensures InSome(base, names + [n], path) <==> InSome(base, names, path) || HasPrefix(path, Place(base, n))
  {
    var all := names + [n];
    if m :| 0 <= m < |names| && HasPrefix(path, Place(base, names[m])) {
      assert all[m] == names[m];
    }
    if HasPrefix(path, Place(base, n)) {
      assert all[|names|] == n;
    }
    if m :| 0 <= m < |all| && HasPrefix(path, Place(base, all[m])) {
      assert m < |names| ==> all[m] == names[m];
    }
  }

  /** One more container takes what is under it. */
  lemma {:induction false} CoversNext(all: seq<Rule>, before: seq<Rule>, own: seq<Rule>, base: string,
                                      names: seq<string>, path: string)
    requires names != [] && all == before + own
    requires Covered(before, path) <==> InSome(base, names[..|names| - 1], path)
    requires Covered(own, path) <==> HasPrefix(path, Place(base, names[|names| - 1]))
    ensures Covered(all, path) <==> InSome(base, names, path)
  {
    CoveredConcat(before, own, path);
    InSomeAppend(base, names[..|names| - 1], names[|names| - 1], path);
    assert names == names[..|names| - 1] + [names[|names| - 1]];
  }

  lemma {:induction false} AtNext(all: seq<Rule>, before: seq<Rule>, own: seq<Rule>, k: nat, r: Rule, path: string,
                                  taken: bool)
    requires all == before + own
    requires IsAt(before, k, r, path, taken)
    ensures IsAt(all, k, r, path, taken)
  {
    AtLeft(before, own, k, r, path, taken);
  }

  ghost function OwnRules(p: Printers, base: string, xs: seq<Json>, ys: seq<Json>, n: string): seq<Rule> {
    ContainerRules(p, Place(base, n), ByName(p.render, xs, n), ByName(p.render, ys, n))
  }

  lemma {:induction false} ContainersLast(p: Printers, base: string, xs: seq<Json>, ys: seq<Json>, names: seq<string>)
    requires names != []
    ensures ContainersRules(p, base, xs, ys, names)
         == ContainersRules(p, base, xs, ys, names[..|names| - 1]) + OwnRules(p, base, xs, ys, names[|names| - 1])
  {
  }

  lemma {:induction false} ContainersCover(p: Printers, base: string, xs: seq<Json>, ys: seq<Json>,
                                           names: seq<string>, path: string)
    ensures Covered(ContainersRules(p, base, xs, ys, names), path) <==> InSome(base, names, path)
  {
    if names != [] {
      var init, n := names[..|names| - 1], names[|names| - 1];
      ContainersCover(p, base, xs, ys, init, path);
      ContainerCovers(p, Place(base, n), ByName(p.render, xs, n), ByName(p.render, ys, n), path);
      ContainersLast(p, base, xs, ys, names);
      CoversNext(ContainersRules(p, base, xs, ys, names), ContainersRules(p, base, xs, ys, init), OwnRules(p, base, xs, ys, n),
                 base, names, path);
    }
  }

  /** A container's settings are taken already exactly if the path is under an earlier container. */
  lemma {:induction false} ContainersAt(p: Printers, base: string, xs: seq<Json>, ys: seq<Json>, names: seq<string>, q: nat,
                                        what: What, r: Rule, path: string) returns (k: nat)
    requires q < |names| && r == SettingOf(p, base, xs, ys, names[q], what)
    requires IsPart(p, Place(base, names[q]), ByName(p.render, xs, names[q]), ByName(p.render, ys, names[q]), what, path)
    ensures IsAt(ContainersRules(p, base, xs, ys, names), k, r, path, InSome(base, names[..q], path))
  {
    var init := names[..|names| - 1];
    ContainersLast(p, base, xs, ys, names);
    if q < |init| {
      assert init[..q] == names[..q];
      k := ContainersAt(p, base, xs, ys, init, q, what, r, path);
      AtNext(ContainersRules(p, base, xs, ys, names), ContainersRules(p, base, xs, ys, init),
             OwnRules(p, base, xs, ys, names[|names| - 1]), k, r, path, InSome(base, names[..q], path));
    } else {
      ContainersCover(p, base, xs, ys, init, path);
      assert init == names[..q];
      k := OwnAfter(p, base, xs, ys, init, names[q], what, r, path, ContainersRules(p, base, xs, ys, init));
    }
  }

  lemma {:induction false} OwnAt(p: Printers, base: string, xs: seq<Json>, ys: seq<Json>, n: string, what: What,
                                 path: string)
    returns (k: nat)
    requires IsPart(p, Place(base, n), ByName(p.render, xs, n), ByName(p.render, ys, n), what, path)
    ensures IsAt(OwnRules(p, base, xs, ys, n), k, SettingOf(p, base, xs, ys, n, what), path, false)
  {
    k := ContainerAt(p, Place(base, n), ByName(p.render, xs, n), ByName(p.render, ys, n), what, path);
  }

  lemma {:induction false} OwnAfter(p: Printers, base: string, xs: seq<Json>, ys: seq<Json>, names: seq<string>, n: string,
                                    what: What, r: Rule, path: string, before: seq<Rule>) returns (k: nat)
    requires IsPart(p, Place(base, n), ByName(p.render, xs, n), ByName(p.render, ys, n), what, path)
    requires r == SettingOf(p, base, xs, ys, n, what)
    requires Covered(before, path) <==> InSome(base, names, path)
    ensures IsAt(before + OwnRules(p, base, xs, ys, n), k, r, path, InSome(base, names, path))
  {
    k := OwnAt(p, base, xs, ys, n, what, path);
    AtRight(before, OwnRules(p, base, xs, ys, n), k, r, path, false);
    k := |before| + k;
  }

  ghost function SettingOf(p: Printers, base: string, xs: seq<Json>, ys: seq<Json>, n: string, what: What): Rule {
    Setting(p, Place(base, n), ByName(p.render, xs, n), ByName(p.render, ys, n), what)
  }

  lemma {:induction false} ContainersUnder(p: Printers, base: string, xs: seq<Json>, ys: seq<Json>, names: seq<string>)
    ensures AllUnder(ContainersRules(p, base, xs, ys, names), base)
  {
    if names != [] {
      var init, n := names[..|names| - 1], names[|names| - 1];
      var own := OwnRules(p, base, xs, ys, n);
      ContainersLast(p, base, xs, ys, names);
      ContainersUnder(p, base, xs, ys, init);
      ContainerUnder(p, Place(base, n), ByName(p.render, xs, n), ByName(p.render, ys, n));
      UnderHigher(own, Place(base, n), base);
      UnderConcat(ContainersRules(p, base, xs, ys, init), own, base);
    }
  }

  lemma {:induction false} UnderHigher(rules: seq<Rule>, mid: string, top: string)
    requires AllUnder(rules, mid) && HasPrefix(mid, top)
    ensures AllUnder(rules, top)
  {
    forall k, q | 0 <= k < |rules| && 0 <= q < |rules[k].prefixes| ensures HasPrefix(rules[k].prefixes[q], top) {
      UnderTransitive(rules[k].prefixes[q], mid, top);
    }
  }

  // ---- a whole pod ---------------------------------------------------------

  /** The pod specifications of two documents, and the path at which both have them. */
  datatype Pods = Pods(base: string, a: Json, b: Json)

  /** A part of the container at a place in one of the lists. */
  datatype Slot = Slot(list: string, place: nat, what: What)

  /** The containers of both pods, in the order in which they are told. */
  function Listed(p: Printers, pods: Pods, list: string): seq<string> {
    FirstSeen(NamesIn(p.render, Items(Field(pods.a, list))) + NamesIn(p.render, Items(Field(pods.b, list))))
  }

  function NameAt(p: Printers, pods: Pods, slot: Slot): string {
    var names := Listed(p, pods, slot.list);
    if slot.place < |names| then names[slot.place] else ""
  }

  /** The container that one of the pods has there. */
  function ContainerOf(p: Printers, pods: Pods, pod: Json, slot: Slot): Json {
    ByName(p.render, Items(Field(pod, slot.list)), NameAt(p, pods, slot))
  }

  ghost function RuleOf(p: Printers, pods: Pods, slot: Slot): Rule {
    SettingOf(p, pods.base + "." + slot.list, Items(Field(pods.a, slot.list)), Items(Field(pods.b, slot.list)),
              NameAt(p, pods, slot), slot.what)
  }

  /** The path is below that part of the container. */
  ghost predicate IsSetting(p: Printers, pods: Pods, slot: Slot, path: string) {
    && (slot.list == "initContainers" || slot.list == "containers")
    && slot.place < |Listed(p, pods, slot.list)|
    && IsPart(p, Place(pods.base + "." + slot.list, NameAt(p, pods, slot)), ContainerOf(p, pods, pods.a, slot),
              ContainerOf(p, pods, pods.b, slot), slot.what, path)
  }

  /** An earlier container of the list has the path under it. */
  ghost predicate Shadowed(p: Printers, pods: Pods, slot: Slot, path: string) {
    var names := Listed(p, pods, slot.list);
    InSome(pods.base + "." + slot.list, names[..if slot.place < |names| then slot.place else |names|], path)
  }

  lemma {:induction false} SettingIsUnder(p: Printers, pods: Pods, slot: Slot, path: string)
    requires IsSetting(p, pods, slot, path)
    ensures HasPrefix(path, pods.base + "." + slot.list)
    ensures HasPrefix(path, Place(pods.base + "." + slot.list, NameAt(p, pods, slot)))
  {
    var top := pods.base + "." + slot.list;
    var at := Place(top, NameAt(p, pods, slot));
    var k := ContainerAt(p, at, ContainerOf(p, pods, pods.a, slot), ContainerOf(p, pods, pods.b, slot), slot.what, path);
    assert HasPrefix(at, top);
    UnderTransitive(path, at, top);
  }

  lemma {:induction false} ListAt(p: Printers, pods: Pods, slot: Slot, path: string) returns (k: nat)
    requires IsSetting(p, pods, slot, path)
    ensures IsAt(ListRules(p, pods.base, pods.a, pods.b, slot.list), k, RuleOf(p, pods, slot), path,
                 Shadowed(p, pods, slot, path))
  {
    k := ContainersAt(p, pods.base + "." + slot.list, Items(Field(pods.a, slot.list)), Items(Field(pods.b, slot.list)),
                      Listed(p, pods, slot.list), slot.place, slot.what, RuleOf(p, pods, slot), path);
  }

  lemma {:induction false} PodSpecAt(p: Printers, changes: seq<FieldChange>, pods: Pods, slot: Slot, path: string)
    returns (k: nat)
    requires IsSetting(p, pods, slot, path)
    ensures IsAt(PodSpecRules(p, changes, pods.base, pods.a, pods.b), k, RuleOf(p, pods, slot), path,
                 Shadowed(p, pods, slot, path))
  {
    var inits := ListRules(p, pods.base, pods.a, pods.b, "initContainers");
    var mains := ListRules(p, pods.base, pods.a, pods.b, "containers");
    var rest := PodRules(pods.base) + ScalarRules(p, changes, pods.base + ".serviceAccountName");
    var r, shadowed := RuleOf(p, pods, slot), Shadowed(p, pods, slot, path);
    k := ListAt(p, pods, slot, path);
    if slot.list == "initContainers" {
      AtLeft(inits, mains, k, r, path, shadowed);
      AtLeft(inits + mains, rest, k, r, path, shadowed);
    } else {
      InitsApart(p, pods, slot, path);
      AtBetween(inits, mains, rest, k, r, path, shadowed);
      k := |inits| + k;
    }
  }

  lemma {:induction false} InitsApart(p: Printers, pods: Pods, slot: Slot, path: string)
    requires IsSetting(p, pods, slot, path) && slot.list == "containers"
    ensures !Covered(ListRules(p, pods.base, pods.a, pods.b, "initContainers"), path)
  {
    var inits, mains := pods.base + "." + "initContainers", pods.base + "." + "containers";
    SettingIsUnder(p, pods, slot, path);
    ContainersUnder(p, inits, Items(Field(pods.a, "initContainers")), Items(Field(pods.b, "initContainers")),
                    Listed(p, pods, "initContainers"));
    PartedNotCovered(ListRules(p, pods.base, pods.a, pods.b, "initContainers"), inits, mains, path, |pods.base| + 1);
  }

  // ---- a whole document ----------------------------------------------------

  function PodsOf(a: Json, b: Json): Pods {
    var path := PodSpecPath(KindOf(a));
    Pods(Join(path), MapAt(a, path), MapAt(b, path))
  }

  /** The path "spec", or one whose second part is not "replicas". */
  predicate StartsAsSpec(base: string) {
    |base| >= 4 && base[0] == 's' && (|base| == 4 || (|base| > 5 && base[5] != 'r'))
  }

  lemma {:induction false} BaseText(kind: string)
    requires PodSpecPath(kind) != []
    ensures StartsAsSpec(Join(PodSpecPath(kind)))
  {
    var path := PodSpecPath(kind);
    if |path| == 1 {
      assert path == ["spec"] && Join(path) == path[0];
    } else if |path| == 3 {
      JoinThree("spec", "template", "spec");
    } else {
      JoinFive("spec", "jobTemplate", "spec", "template", "spec");
    }
  }

  lemma {:induction false} JoinThree(a: string, b: string, c: string)
    ensures Join([a, b, c]) == a + "." + b + "." + c
  {
    var path := [a, b, c];
    assert path[..2] == [a, b] && path[..2][..1] == [a];
    JoinLast(path);
    JoinLast(path[..2]);
  }

  lemma {:induction false} JoinFive(a: string, b: string, c: string, d: string, e: string)
    ensures Join([a, b, c, d, e]) == a + "." + b + "." + c + "." + d + "." + e
  {
    var path := [a, b, c, d, e];
    assert path[..4] == [a, b, c, d] && path[..4][..3] == [a, b, c];
    JoinThree(a, b, c);
    JoinLast(path);
    JoinLast(path[..4]);
  }

  lemma {:induction false} JoinLast(path: seq<string>)
    requires |path| > 1
    ensures Join(path) == Join(path[..|path| - 1]) + "." + path[|path| - 1]
  {
  }

  /** The rules before the pod's own do not touch a container. */
  lemma {:induction false} HeadApart(p: Printers, a: Json, b: Json, base: string, list: string, path: string)
    requires KindOf(a) == KindOf(b) && StartsAsSpec(base)
    requires list in ["initContainers", "containers"] && HasPrefix(path, base + "." + list)
    ensures !Covered(HeadRules(p, a, b), path)
  {
    var kinds, names, spaces := KindRules(p, a, b), NameRules(p, a, b), NamespaceRules(p, a, b);
    PartedNotCovered(kinds, "apiVersion", base + "." + list, path, 0);
    Dotted("metadata", ".name");
    Dotted("metadata", ".namespace");
    PartedNotCovered(names, "metadata", base + "." + list, path, 0);
    PartedNotCovered(spaces, "metadata", base + "." + list, path, 0);
    CoveredConcat(kinds, names, path);
    CoveredConcat(kinds + names, spaces, path);
  }

  lemma {:induction false} ReplicasApart(p: Printers, a: Json, b: Json, base: string, list: string, path: string)
    requires StartsAsSpec(base)
    requires list in ["initContainers", "containers"] && HasPrefix(path, base + "." + list)
    ensures !Covered(ReplicaRules(p, a, b), path)
  {
    PartedNotCovered(ReplicaRules(p, a, b), "spec.replicas", base + "." + list, path, 5);
  }

  /** Two workloads of one kind, and a path below a setting of a container that both have. */
  ghost predicate ChangesSetting(p: Printers, a: Json, b: Json, slot: Slot, path: string) {
    KindOf(a) == KindOf(b) && PodSpecPath(KindOf(a)) != [] && IsSetting(p, PodsOf(a, b), slot, path)
  }

  lemma {:induction false} SettingInDocument(p: Printers, changes: seq<FieldChange>, a: Json, b: Json, slot: Slot,
                                             path: string) returns (k: nat)
    requires ChangesSetting(p, a, b, slot, path)
    ensures IsAt(RulesFor(p, changes, a, b), k, RuleOf(p, PodsOf(a, b), slot), path, Shadowed(p, PodsOf(a, b), slot, path))
  {
    var pods := PodsOf(a, b);
    var head, replicas := HeadRules(p, a, b), ReplicaRules(p, a, b);
    SettingIsUnder(p, pods, slot, path);
    BaseText(KindOf(a));
    HeadApart(p, a, b, pods.base, slot.list, path);
    ReplicasApart(p, a, b, pods.base, slot.list, path);
    k := PodSpecAt(p, changes, pods, slot, path);
    RulesLayout(p, changes, a, b);
    k := AtDepth(RulesFor(p, changes, a, b), head, replicas, PodSpecRules(p, changes, pods.base, pods.a, pods.b),
                 KindSpecificRules(p, changes, a, b), TailRules(a, b), k, RuleOf(p, pods, slot), path,
                 Shadowed(p, pods, slot, path));
  }

  lemma {:induction false} AtDepth(all: seq<Rule>, head: seq<Rule>, replicas: seq<Rule>, pod: seq<Rule>, specific: seq<Rule>,
                                   tail: seq<Rule>, k: nat, r: Rule, path: string, taken: bool) returns (at: nat)
    requires all == head + (replicas + pod + specific) + tail
    requires IsAt(pod, k, r, path, taken) && !Covered(head, path) && !Covered(replicas, path)
    ensures IsAt(all, at, r, path, taken)
  {
    var same := replicas + pod + specific;
    AtBetween(replicas, pod, specific, k, r, path, taken);
    AtBetween(head, same, tail, |replicas| + k, r, path, taken);
    at := |head| + (|replicas| + k);
  }

  lemma {:induction false} RulesLayout(p: Printers, changes: seq<FieldChange>, a: Json, b: Json)
    requires KindOf(a) == KindOf(b) && PodSpecPath(KindOf(a)) != []
    ensures var pods := PodsOf(a, b);
            RulesFor(p, changes, a, b)
            == HeadRules(p, a, b)
               + (ReplicaRules(p, a, b) + PodSpecRules(p, changes, pods.base, pods.a, pods.b)
                  + KindSpecificRules(p, changes, a, b))
               + TailRules(a, b)
  {
  }

  // ---- what the summary says -----------------------------------------------

  /** A change below a setting is claimed by the setting's rule unless an earlier container's name shadows its path. */
  lemma {:induction false} SettingClaimIff(p: Printers, changes: seq<FieldChange>, a: Json, b: Json, slot: Slot, i: nat)
    returns (k: nat)
    requires i < |changes| && ChangesSetting(p, a, b, slot, changes[i].path)
    ensures var rules, pods := RulesFor(p, changes, a, b), PodsOf(a, b);
            && k < |rules| && rules[k] == RuleOf(p, pods, slot)
            && (i in Claims(changes, rules)[k] <==> !Shadowed(p, pods, slot, changes[i].path))
  {
    k := SettingInDocument(p, changes, a, b, slot, changes[i].path);
    FirstRuleTakes(changes, RulesFor(p, changes, a, b), k, i);
  }

  /** A name that continues another behind a bracket and a dot has its container shadowed. */
  lemma BracketsShadow(base: string, n: string, tail: string, field: string)
    ensures HasPrefix(Place(base, n + "]." + tail) + field, Place(base, n))
  {
    assert Place(base, n + "]." + tail) + field == Place(base, n) + "." + tail + "]" + field;
  }

  /** No name up to the slot's own has a bracket in it. */
  ghost predicate PlainNames(p: Printers, pods: Pods, slot: Slot) {
    forall m :: 0 <= m <= slot.place && m < |Listed(p, pods, slot.list)| ==> NoBrackets(Listed(p, pods, slot.list)[m])
  }

  lemma {:induction false} PlainNamesDoNotShadow(p: Printers, pods: Pods, slot: Slot, path: string)
    requires IsSetting(p, pods, slot, path) && PlainNames(p, pods, slot)
    ensures !Shadowed(p, pods, slot, path)
  {
    var names, top := Listed(p, pods, slot.list), pods.base + "." + slot.list;
    FirstSeenIsInOrder(NamesIn(p.render, Items(Field(pods.a, slot.list))) + NamesIn(p.render, Items(Field(pods.b, slot.list))));
    SettingIsUnder(p, pods, slot, path);
    forall m | 0 <= m < slot.place ensures !HasPrefix(path, Place(top, names[m])) {
      NotInBoth(path, top, names[slot.place], names[m]);
    }
  }

  lemma {:induction false} NotInBoth(path: string, base: string, n: string, m: string)
    requires NoBrackets(n) && NoBrackets(m) && n != m && HasPrefix(path, Place(base, n))
    ensures !HasPrefix(path, Place(base, m))
  {
    var at := BracketsPart(base, n, m);
    if HasPrefix(path, Place(base, m)) {
      PrefixesAgree(path, Place(base, n), Place(base, m), at);
    }
  }

  /** Two bracketed names without brackets inside part before the shorter one ends. */
  lemma {:induction false} BracketsPart(base: string, n: string, m: string) returns (at: nat)
    requires NoBrackets(n) && NoBrackets(m) && n != m
    ensures at < |Place(base, n)| && at < |Place(base, m)| && Place(base, n)[at] != Place(base, m)[at]
  {
    var d: nat;
    if |n| == |m| {
      d :| d < |n| && n[d] != m[d];
    } else {
      d := if |n| < |m| then |n| else |m|;
    }
    at := |base| + 1 + d;
  }

  /** The change to a container's setting that a summary is to tell. */
  ghost predicate ChangesPlainSetting(p: Printers, a: Json, b: Json, slot: Slot, path: string) {
    ChangesSetting(p, a, b, slot, path) && PlainNames(p, PodsOf(a, b), slot)
  }

  lemma {:induction false} SettingIsTold(p: Printers, changes: seq<FieldChange>, a: Json, b: Json, slot: Slot, i: nat, m: nat)
    requires i < |changes| && ChangesPlainSetting(p, a, b, slot, changes[i].path)
    requires m < |RuleOf(p, PodsOf(a, b), slot).notes|
    ensures Tells(Summary(p.render, changes, RulesFor(p, changes, a, b)), RuleOf(p, PodsOf(a, b), slot).notes[m],
                  changes[i].path)
  {
    var path, pods := changes[i].path, PodsOf(a, b);
    var k := SettingInDocument(p, changes, a, b, slot, path);
    PlainNamesDoNotShadow(p, pods, slot, path);
    SummaryTells(p.render, changes, RulesFor(p, changes, a, b), k, RuleOf(p, pods, slot), i, m);
  }

  /** A change to a container's image is told with both images. */
  lemma {:induction false} ImageIsTold(p: Printers, changes: seq<FieldChange>, a: Json, b: Json, slot: Slot, i: nat)
    requires i < |changes| && ChangesPlainSetting(p, a, b, slot, changes[i].path) && slot.what.Image?
    ensures var pods := PodsOf(a, b);
            var x, y := ContainerOf(p, pods, pods.a, slot), ContainerOf(p, pods, pods.b, slot);
            Tells(Summary(p.render, changes, RulesFor(p, changes, a, b)), Note("image", ImageTold(p, x), ImageTold(p, y)),
                  changes[i].path)
  {
    SettingIsTold(p, changes, a, b, slot, i, 0);
  }

  /** The values of one pod's container's environment. */
  function EnvIn(p: Printers, pods: Pods, pod: Json, slot: Slot): map<string, string> {
    EnvOf(p.render, Items(Field(ContainerOf(p, pods, pod, slot), "env")))
  }

  /** A change to a container's environment is told for each variable that differs, with both values. */
  lemma {:induction false} EnvIsTold(p: Printers, changes: seq<FieldChange>, a: Json, b: Json, slot: Slot, i: nat, v: string)
    requires i < |changes| && ChangesPlainSetting(p, a, b, slot, changes[i].path) && slot.what.Environment?
    ensures var pods := PodsOf(a, b);
            var ea, eb := EnvIn(p, pods, pods.a, slot), EnvIn(p, pods, pods.b, slot);
            v in ea && v in eb && ea[v] != eb[v]
            ==> Tells(Summary(p.render, changes, RulesFor(p, changes, a, b)), Note("env", ea[v], eb[v]), changes[i].path)
  {
    var pods := PodsOf(a, b);
    var ea, eb := EnvIn(p, pods, pods.a, slot), EnvIn(p, pods, pods.b, slot);
    if v in ea && v in eb && ea[v] != eb[v] {
      var m := NoteOfVariable(ea, eb, v);
      SettingIsTold(p, changes, a, b, slot, i, m);
    }
  }

  lemma {:induction false} NoteOfVariable(ea: map<string, string>, eb: map<string, string>, v: string) returns (m: nat)
    requires v in ea && v in eb && ea[v] != eb[v]
    ensures forall base :: m < |EnvRule(base, ea, eb).notes| && EnvRule(base, ea, eb).notes[m] == Note("env", ea[v], eb[v])
  {
    var keys := Enumerate(ByKey, Differing(ea, eb));
    EnumerateIsExact(ByKey, Differing(ea, eb));
    assert v in keys;
    var j :| 0 <= j < |keys| && keys[j] == v;
    m := |OnlyNotes("env", OnlyIn(ea, eb)) + OnlyNotes("env", OnlyIn(eb, ea))| + j;
  }

  /** With a variable missing on one side, or none that differs, the change is told without values. */
  lemma {:induction false} EnvIsMentioned(p: Printers, changes: seq<FieldChange>, a: Json, b: Json, slot: Slot, i: nat)
    requires i < |changes| && ChangesPlainSetting(p, a, b, slot, changes[i].path) && slot.what.Environment?
    ensures var pods := PodsOf(a, b);
            var ea, eb := EnvIn(p, pods, pods.a, slot), EnvIn(p, pods, pods.b, slot);
            ea.Keys != eb.Keys || ea == eb
            ==> Tells(Summary(p.render, changes, RulesFor(p, changes, a, b)), Note("env", "", ""), changes[i].path)
  {
    var pods := PodsOf(a, b);
    var ea, eb := EnvIn(p, pods, pods.a, slot), EnvIn(p, pods, pods.b, slot);
    if ea.Keys != eb.Keys || ea == eb {
      FirstNoteIsBare(ea, eb);
      SettingIsTold(p, changes, a, b, slot, i, 0);
    }
  }

  lemma {:induction false} FirstNoteIsBare(ea: map<string, string>, eb: map<string, string>)
    requires ea.Keys != eb.Keys || ea == eb
    ensures forall base :: |EnvRule(base, ea, eb).notes| > 0 && EnvRule(base, ea, eb).notes[0] == Note("env", "", "")
  {
    if ea.Keys != eb.Keys {
      assert OnlyIn(ea, eb) != {} || OnlyIn(eb, ea) != {};
    } else {
      assert OnlyIn(ea, eb) == {} && OnlyIn(eb, ea) == {} && Differing(ea, eb) == {};
    }
  }
}
