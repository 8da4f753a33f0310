/** Which rules `compare/summary.go` applies to two documents, in order. */
module SummaryRules {
  import opened Collections
  import opened Options
  import opened Json
  import opened KeyOrder
  import opened Compare
  import opened CompareLaws
  import opened CompareReport
  import opened ClaimRules

  // ---- reading documents ---------------------------------------------------

  function Field(v: Json, k: string): Json {
    if v.Obj? && k in v.fields then v.fields[k] else Null
  }

  /** The fields of an object; anything else counts as a nil map. */
  function Fields(v: Json): map<string, Json> {
    if v.Obj? then v.fields else map[]
  }

  /** The object at a path, or Null for the nil map. */
  function MapAt(v: Json, path: seq<string>): Json
    decreases |path|
  {
    if path == [] then v
    else if Field(v, path[0]).Obj? then MapAt(Field(v, path[0]), path[1..])
    else Null
  }

  function TextOf(render: Printer, v: Json): string {
    match v
    case Null => ""
    case Str(s) => s
    case _ => render(v)
  }

  function Shown(render: Printer, v: Json): string {
    if v == Null then "" else render(v)
  }

  function OrNone(s: string): string {
    if s == "" then "not set" else s
  }

  function KindOf(v: Json): string {
    match Field(v, "kind")
    case Str(s) => s
    case _ => ""
  }

  function PodSpecPath(kind: string): seq<string> {
    if kind == "Pod" then ["spec"]
    else if kind == "CronJob" then ["spec", "jobTemplate", "spec", "template", "spec"]
    else if kind in ["Deployment", "StatefulSet", "DaemonSet", "ReplicaSet", "Job", "ReplicationController"]
    then ["spec", "template", "spec"]
    else []
  }

  function Join(parts: seq<string>): string {
    if parts == [] then ""
    else if |parts| == 1 then parts[0]
    else Join(parts[..|parts| - 1]) + "." + parts[|parts| - 1]
  }

  /** The names of a list's objects, repeats included. */
  function NamesIn(render: Printer, items: seq<Json>): seq<string> {
    if items == [] then []
    else
      var before, c := NamesIn(render, items[..|items| - 1]), items[|items| - 1];
      if c.Obj? then before + [TextOf(render, Field(c, "name"))] else before
  }

  /** The last object of that name, or Null. */
  function ByName(render: Printer, items: seq<Json>, name: string): Json {
    if items == [] then Null
    else
      var c := items[|items| - 1];
      if c.Obj? && TextOf(render, Field(c, "name")) == name then c else ByName(render, items[..|items| - 1], name)
  }

  function Items(v: Json): seq<Json> {
    if v.List? then v.items else []
  }

  function FirstSeen(names: seq<string>): seq<string> {
    if names == [] then []
    else
      var before, n := FirstSeen(names[..|names| - 1]), names[|names| - 1];
      if n in before then before else before + [n]
  }

  /** A container's environment; a later entry of the same name wins. */
  function EnvOf(render: Printer, items: seq<Json>): map<string, string> {
    if items == [] then map[]
    else
      var before, e := EnvOf(render, items[..|items| - 1]), items[|items| - 1];
      if e.Obj? then before[TextOf(render, Field(e, "name")) := EnvValue(render, e)] else before
  }

  function EnvValue(render: Printer, e: Json): string {
    var f := Fields(e);
    if "value" in f then TextOf(render, f["value"])
    else if "valueFrom" in f then "from " + render(f["valueFrom"])
    else ""
  }

  // ---- what the reading functions find -------------------------------------

  predicate IsNamed(render: Printer, c: Json, n: string) {
    c.Obj? && TextOf(render, Field(c, "name")) == n
  }

  /** The last object of that name. */
  ghost predicate IsLastNamed(render: Printer, items: seq<Json>, n: string, i: nat) {
    i < |items| && IsNamed(render, items[i], n) && forall j :: i < j < |items| ==> !IsNamed(render, items[j], n)
  }

  lemma {:induction false} ByNameIsLast(render: Printer, items: seq<Json>, n: string)
    ensures ByName(render, items, n) == Null <==> forall i :: 0 <= i < |items| ==> !IsNamed(render, items[i], n)
    ensures forall i: nat :: IsLastNamed(render, items, n, i) ==> ByName(render, items, n) == items[i]
  {
    if items != [] {
      var init := items[..|items| - 1];
      ByNameIsLast(render, init, n);
      forall i: nat | IsLastNamed(render, items, n, i) ensures ByName(render, items, n) == items[i] {
        if i < |init| {
          assert IsLastNamed(render, init, n, i);
        }
      }
    }
  }

  /** A name has the value of its last entry, and no value if it has no entry. */
  ghost predicate IsEnvAt(render: Printer, items: seq<Json>, env: map<string, string>, n: string) {
    if n in env then exists i: nat :: IsLastNamed(render, items, n, i) && env[n] == EnvValue(render, items[i])
    else forall i :: 0 <= i < |items| ==> !IsNamed(render, items[i], n)
  }

  lemma {:induction false} EnvOfIsLast(render: Printer, items: seq<Json>, n: string)
    ensures IsEnvAt(render, items, EnvOf(render, items), n)
  {
    if items != [] {
      var init, last := items[..|items| - 1], |items| - 1;
      EnvOfIsLast(render, init, n);
      if IsNamed(render, items[last], n) {
        assert IsLastNamed(render, items, n, last);
      } else if n in EnvOf(render, init) {
        var i: nat :| IsLastNamed(render, init, n, i) && EnvOf(render, init)[n] == EnvValue(render, init[i]);
        assert IsLastNamed(render, items, n, i);
      }
    }
  }

  /** The position at which a name first appears. */
  predicate FirstAppears(names: seq<string>, n: string, i: nat) {
    i < |names| && names[i] == n && forall j :: 0 <= j < i ==> names[j] != n
  }

  ghost predicate InOrderSeen(names: seq<string>, out: seq<string>) {
    && Distinct(out)
    && (forall n :: n in out <==> n in names)
    && (forall i, j, p: nat, q: nat :: 0 <= i < j < |out| && FirstAppears(names, out[i], p) && FirstAppears(names, out[j], q)
                                       ==> p < q)
  }

  lemma {:induction false} FirstSeenIsInOrder(names: seq<string>)
    ensures InOrderSeen(names, FirstSeen(names))
  {
    if names != [] {
      var init, n := names[..|names| - 1], names[|names| - 1];
      FirstSeenIsInOrder(init);
      SeenNext(init, FirstSeen(init), n);
      assert names == init + [n];
    }
  }

  lemma SeenNext(names: seq<string>, out: seq<string>, n: string)
    requires InOrderSeen(names, out)
    ensures InOrderSeen(names + [n], if n in out then out else out + [n])
  {
    var all, seen := names + [n], if n in out then out else out + [n];
    forall i, j, p: nat, q: nat
      | 0 <= i < j < |seen| && FirstAppears(all, seen[i], p) && FirstAppears(all, seen[j], q) ensures p < q {
      StillFirst(names, n, out[i], p);
      if j < |out| {
        StillFirst(names, n, out[j], q);
      } else {
        NewIsLast(names, n, q);
      }
    }
    if n !in out {
      DistinctAppend(out, n);
    }
  }

  lemma StillFirst(names: seq<string>, n: string, m: string, p: nat)
    requires m in names && FirstAppears(names + [n], m, p)
    ensures FirstAppears(names, m, p)
  {
    var k :| 0 <= k < |names| && names[k] == m;
    assert (names + [n])[k] == m;
    assert forall j :: 0 <= j < |names| ==> (names + [n])[j] == names[j];
  }

  lemma NewIsLast(names: seq<string>, n: string, q: nat)
    requires n !in names && FirstAppears(names + [n], n, q)
    ensures q == |names|
  {
  }

  // ---- the rules -----------------------------------------------------------

  /** How values and resource lists are written. */
  datatype Printers = Printers(render: Printer, resources: Printer)

  function Bare(category: string, prefixes: seq<string>): Rule {
    Rule(prefixes, [Note(category, "", "")], false)
  }

  function KindRules(p: Printers, a: Json, b: Json): seq<Rule> {
    if KindOf(a) != KindOf(b)
    then [Rule(["kind", "apiVersion"], [Note("kind", KindOf(a), KindOf(b))], false)]
    else [Rule(["apiVersion"],
               [Note("kind", TextOf(p.render, Field(a, "apiVersion")), TextOf(p.render, Field(b, "apiVersion")))], false)]
  }

  function MetaText(p: Printers, v: Json, k: string): string {
    TextOf(p.render, Field(MapAt(v, ["metadata"]), k))
  }

  function NameRules(p: Printers, a: Json, b: Json): seq<Rule> {
    var na, nb := MetaText(p, a, "name"), MetaText(p, b, "name");
    if na != nb then [Rule(["metadata.name"], [Note("identity", na, nb)], false)] else []
  }

  function NamespaceRules(p: Printers, a: Json, b: Json): seq<Rule> {
    var na, nb := MetaText(p, a, "namespace"), MetaText(p, b, "namespace");
    if na != nb then [Rule(["metadata.namespace"], [Note("identity", OrNone(na), OrNone(nb))], false)] else []
  }

  function ReplicaRules(p: Printers, a: Json, b: Json): seq<Rule> {
    var ra, rb := Field(MapAt(a, ["spec"]), "replicas"), Field(MapAt(b, ["spec"]), "replicas");
    if ra == Null && rb == Null then []
    else [Rule(["spec.replicas"], [Note("replicas", OrNone(Shown(p.render, ra)), OrNone(Shown(p.render, rb)))], false)]
  }

  function FirstAt(changes: seq<FieldChange>, path: string): Option<FieldChange> {
    if changes == [] then None
    else if FirstAt(changes[..|changes| - 1], path).Some? then FirstAt(changes[..|changes| - 1], path)
    else if changes[|changes| - 1].path == path then Some(changes[|changes| - 1])
    else None
  }

  function ScalarRules(p: Printers, changes: seq<FieldChange>, path: string): seq<Rule> {
    match FirstAt(changes, path)
    case None => []
    case Some(c) =>
      [Rule([path], [Note("spec", OrNone(Text(p.render, c.a)), OrNone(Text(p.render, c.b)))], false)]
  }

  function OnlyIn<T>(m: map<string, T>, other: map<string, T>): set<string> {
    m.Keys - other.Keys
  }

  function Differing(m: map<string, string>, other: map<string, string>): set<string> {
    set k | k in m && k in other && m[k] != other[k]
  }

  function Unequal(m: map<string, Json>, other: map<string, Json>): set<string> {
    set k | k in m && k in other && !LooseEqual(m[k], other[k])
  }

  function ByKey(k: string): int { 0 }

  function OnlyNotes(category: string, keys: set<string>): seq<Note> {
    if keys == {} then [] else [Note(category, "", "")]
  }

  function DiffNotes(ea: map<string, string>, eb: map<string, string>, keys: seq<string>): seq<Note> {
    seq(|keys|, i requires 0 <= i < |keys| =>
          Note("env", if keys[i] in ea then ea[keys[i]] else "", if keys[i] in eb then eb[keys[i]] else ""))
  }

  /** One insight for the names only in A, one for those only in B, one for each that differs. */
  ghost function EnvRule(base: string, ea: map<string, string>, eb: map<string, string>): Rule {
    if OnlyIn(ea, eb) == {} && OnlyIn(eb, ea) == {} && Differing(ea, eb) == {}
    then Bare("env", [base + ".envFrom", base + ".env"])
    else Rule([base + ".env", base + ".envFrom"],
              OnlyNotes("env", OnlyIn(ea, eb)) + OnlyNotes("env", OnlyIn(eb, ea))
              + DiffNotes(ea, eb, Enumerate(ByKey, Differing(ea, eb))), true)
  }

  function DataRules(a: Json, b: Json, field: string): seq<Rule> {
    var da, db := Fields(Field(a, field)), Fields(Field(b, field));
    var notes := OnlyNotes("data", OnlyIn(da, db)) + OnlyNotes("data", OnlyIn(db, da))
                 + OnlyNotes("data", Unequal(da, db));
    if notes == [] then [] else [Rule([field], notes, true)]
  }

  function MapRules(a: Json, b: Json, what: string, prefix: string): seq<Rule> {
    var ma, mb := Fields(Field(MapAt(a, ["metadata"]), what)), Fields(Field(MapAt(b, ["metadata"]), what));
    if OnlyIn(ma, mb) + OnlyIn(mb, ma) + Unequal(ma, mb) == {} then [] else [Bare(what, [prefix])]
  }

  function ImageText(p: Printers, c: Json): string {
    OrNone(TextOf(p.render, Field(c, "image")))
  }

  ghost function SettingRules(p: Printers, at: string, x: Json, y: Json): seq<Rule> {
    [Rule([at + ".image"], [Note("image", ImageText(p, x), ImageText(p, y))], false),
     EnvRule(at, EnvOf(p.render, Items(Field(x, "env"))), EnvOf(p.render, Items(Field(y, "env")))),
     Rule([at + ".resources"], [Note("resources", p.resources(x), p.resources(y))], false)]
  }

  function ProbeRules(at: string): seq<Rule> {
    [Bare("ports", [at + ".ports"]),
     Bare("probes", [at + ".livenessProbe"]),
     Bare("probes", [at + ".readinessProbe"]),
     Bare("probes", [at + ".startupProbe"])]
  }

  function OtherRules(at: string): seq<Rule> {
    [Bare("spec", [at + ".command", at + ".args"]),
     Bare("volumes", [at + ".volumeMounts"]),
     Bare("spec", [at])]
  }

  ghost function ContainerRules(p: Printers, at: string, x: Json, y: Json): seq<Rule> {
    if x == Null || y == Null then [Bare("spec", [at])]
    else SettingRules(p, at, x, y) + ProbeRules(at) + OtherRules(at)
  }

  ghost function ContainersRules(p: Printers, base: string, xs: seq<Json>, ys: seq<Json>, names: seq<string>): seq<Rule> {
    if names == [] then []
    else
      var n := names[|names| - 1];
      ContainersRules(p, base, xs, ys, names[..|names| - 1])
      + ContainerRules(p, base + "[" + n + "]", ByName(p.render, xs, n), ByName(p.render, ys, n))
  }

  lemma ContainersStep(p: Printers, base: string, xs: seq<Json>, ys: seq<Json>, names: seq<string>, i: nat)
    requires i < |names|
    ensures ContainersRules(p, base, xs, ys, names[..i + 1])
         == ContainersRules(p, base, xs, ys, names[..i])
            + ContainerRules(p, base + "[" + names[i] + "]", ByName(p.render, xs, names[i]), ByName(p.render, ys, names[i]))
  {
    assert names[..i + 1][..i] == names[..i];
  }

  lemma ReassociateThree(before: seq<Rule>, xs: seq<Rule>, ys: seq<Rule>, zs: seq<Rule>)
    ensures ((before + xs) + ys) + zs == before + ((xs + ys) + zs)
  {
    Associate(before, xs, ys);
    Associate(before, xs + ys, zs);
  }

  lemma AddNone(before: seq<Rule>)
    ensures before + [] == before && [] + before == before
  {
  }

  ghost function ListRules(p: Printers, base: string, pa: Json, pb: Json, list: string): seq<Rule> {
    var xs, ys := Items(Field(pa, list)), Items(Field(pb, list));
    ContainersRules(p, base + "." + list, xs, ys, FirstSeen(NamesIn(p.render, xs) + NamesIn(p.render, ys)))
  }

  function PodRules(base: string): seq<Rule> {
    [Bare("volumes", [base + ".volumes"]),
     Bare("scheduling", [base + ".nodeSelector", base + ".affinity", base + ".tolerations",
                          base + ".topologySpreadConstraints", base + ".priorityClassName"])]
  }

  ghost function PodSpecRules(p: Printers, changes: seq<FieldChange>, base: string, pa: Json, pb: Json): seq<Rule> {
    ListRules(p, base, pa, pb, "initContainers") + ListRules(p, base, pa, pb, "containers")
    + (PodRules(base) + ScalarRules(p, changes, base + ".serviceAccountName"))
  }

  ghost function WorkloadRules(p: Printers, changes: seq<FieldChange>, a: Json, b: Json, path: seq<string>): seq<Rule> {
    ReplicaRules(p, a, b) + PodSpecRules(p, changes, Join(path), MapAt(a, path), MapAt(b, path))
  }

  function KindSpecificRules(p: Printers, changes: seq<FieldChange>, a: Json, b: Json): seq<Rule> {
    var kind := KindOf(a);
    if kind == "ConfigMap" || kind == "Secret" then DataRules(a, b, "data") + DataRules(a, b, "binaryData")
    else if kind == "Service" then ServiceRules(p, changes)
    else []
  }

  function ServiceRules(p: Printers, changes: seq<FieldChange>): seq<Rule> {
    [Bare("ports", ["spec.ports"]), Bare("scheduling", ["spec.selector"])] + ScalarRules(p, changes, "spec.type")
  }

  ghost function SameKindRules(p: Printers, changes: seq<FieldChange>, a: Json, b: Json, path: seq<string>): seq<Rule> {
    (if path == [] then [] else WorkloadRules(p, changes, a, b, path)) + KindSpecificRules(p, changes, a, b)
  }

  function HeadRules(p: Printers, a: Json, b: Json): seq<Rule> {
    KindRules(p, a, b) + NameRules(p, a, b) + NamespaceRules(p, a, b)
  }

  function TailRules(a: Json, b: Json): seq<Rule> {
    MapRules(a, b, "labels", "metadata.labels")
    + MapRules(a, b, "annotations", "metadata.annotations")
    + [Bare("status", ["status"])]
  }

  ghost function RulesFor(p: Printers, changes: seq<FieldChange>, a: Json, b: Json): seq<Rule> {
    HeadRules(p, a, b)
    + (if KindOf(a) == KindOf(b) then SameKindRules(p, changes, a, b, PodSpecPath(KindOf(a))) else [])
    + TailRules(a, b)
  }

  // ---- no rule claims in silence -------------------------------------------

  lemma {:induction false} SpeakConcat(xs: seq<Rule>, ys: seq<Rule>)
    requires AllSpeak(xs) && AllSpeak(ys)
    ensures AllSpeak(xs + ys)
  {
  }

  lemma {:induction false} EnvRuleSpeaks(base: string, ea: map<string, string>, eb: map<string, string>)
    ensures AllSpeak([EnvRule(base, ea, eb)])
  {
    var keys := Differing(ea, eb);
    EnumerateIsExact(ByKey, keys);
    if keys != {} {
      var k :| k in keys;
      assert k in Enumerate(ByKey, keys);
    }
  }

  lemma {:induction false} ContainersSpeak(p: Printers, base: string, xs: seq<Json>, ys: seq<Json>, names: seq<string>)
    ensures AllSpeak(ContainersRules(p, base, xs, ys, names))
  {
    if names != [] {
      var n := names[|names| - 1];
      ContainersSpeak(p, base, xs, ys, names[..|names| - 1]);
      ContainerSpeaks(p, base + "[" + n + "]", ByName(p.render, xs, n), ByName(p.render, ys, n));
    }
  }

  lemma {:induction false} ContainerSpeaks(p: Printers, at: string, x: Json, y: Json)
    ensures AllSpeak(ContainerRules(p, at, x, y))
  {
    if x != Null && y != Null {
      SettingsSpeak(p, at, x, y);
      SpeakConcat(SettingRules(p, at, x, y), ProbeRules(at));
      SpeakConcat(SettingRules(p, at, x, y) + ProbeRules(at), OtherRules(at));
    }
  }

  lemma {:induction false} SettingsSpeak(p: Printers, at: string, x: Json, y: Json)
    ensures AllSpeak(SettingRules(p, at, x, y))
  {
    var rules := SettingRules(p, at, x, y);
    EnvRuleSpeaks(at, EnvOf(p.render, Items(Field(x, "env"))), EnvOf(p.render, Items(Field(y, "env"))));
    assert rules == [rules[0]] + [rules[1]] + [rules[2]];
  }

  lemma {:induction false} ListSpeaks(p: Printers, base: string, pa: Json, pb: Json, list: string)
    ensures AllSpeak(ListRules(p, base, pa, pb, list))
  {
    var xs, ys := Items(Field(pa, list)), Items(Field(pb, list));
    ContainersSpeak(p, base + "." + list, xs, ys, FirstSeen(NamesIn(p.render, xs) + NamesIn(p.render, ys)));
  }

  lemma {:induction false} WorkloadSpeaks(p: Printers, changes: seq<FieldChange>, a: Json, b: Json, path: seq<string>)
    ensures AllSpeak(WorkloadRules(p, changes, a, b, path))
  {
    ReplicaSpeaks(p, a, b);
    PodSpecSpeaks(p, changes, Join(path), MapAt(a, path), MapAt(b, path));
    SpeakConcat(ReplicaRules(p, a, b), PodSpecRules(p, changes, Join(path), MapAt(a, path), MapAt(b, path)));
  }

  /** Whatever the documents, every rule that claims something says something about it. */
  lemma {:induction false} RulesSpeak(p: Printers, changes: seq<FieldChange>, a: Json, b: Json)
    ensures AllSpeak(RulesFor(p, changes, a, b))
  {
    var path := PodSpecPath(KindOf(a));
    var same := if KindOf(a) == KindOf(b) then SameKindRules(p, changes, a, b, path) else [];
    SameKindSpeaks(p, changes, a, b, path);
    HeadSpeaks(p, a, b);
    TailSpeaks(a, b);
    SpeakConcat(HeadRules(p, a, b), same);
    SpeakConcat(HeadRules(p, a, b) + same, TailRules(a, b));
  }

  lemma {:induction false} HeadSpeaks(p: Printers, a: Json, b: Json)
    ensures AllSpeak(HeadRules(p, a, b))
  {
  }

  lemma {:induction false} TailSpeaks(a: Json, b: Json)
    ensures AllSpeak(TailRules(a, b))
  {
    var labels, annotations := MapRules(a, b, "labels", "metadata.labels"),
                               MapRules(a, b, "annotations", "metadata.annotations");
    MapSpeaks(a, b, "labels", "metadata.labels");
    MapSpeaks(a, b, "annotations", "metadata.annotations");
    SpeakConcat(labels, annotations);
    SpeakConcat(labels + annotations, [Bare("status", ["status"])]);
  }

  lemma {:induction false} MapSpeaks(a: Json, b: Json, what: string, prefix: string)
    ensures AllSpeak(MapRules(a, b, what, prefix))
  {
  }

  lemma {:induction false} SameKindSpeaks(p: Printers, changes: seq<FieldChange>, a: Json, b: Json, path: seq<string>)
    ensures AllSpeak(SameKindRules(p, changes, a, b, path))
  {
    WorkloadSpeaks(p, changes, a, b, path);
    KindSpecificSpeaks(p, changes, a, b);
    SpeakConcat(if path == [] then [] else WorkloadRules(p, changes, a, b, path), KindSpecificRules(p, changes, a, b));
  }

  lemma {:induction false} KindSpecificSpeaks(p: Printers, changes: seq<FieldChange>, a: Json, b: Json)
    ensures AllSpeak(KindSpecificRules(p, changes, a, b))
  {
    DataSpeaks(a, b, "data");
    DataSpeaks(a, b, "binaryData");
    SpeakConcat(DataRules(a, b, "data"), DataRules(a, b, "binaryData"));
    ServiceSpeaks(p, changes);
  }

  lemma {:induction false} DataSpeaks(a: Json, b: Json, field: string)
    ensures AllSpeak(DataRules(a, b, field))
  {
  }

  lemma {:induction false} ScalarSpeaks(p: Printers, changes: seq<FieldChange>, path: string)
    ensures AllSpeak(ScalarRules(p, changes, path))
  {
  }

  lemma {:induction false} ReplicaSpeaks(p: Printers, a: Json, b: Json)
    ensures AllSpeak(ReplicaRules(p, a, b))
  {
  }

  lemma {:induction false} PodSpecSpeaks(p: Printers, changes: seq<FieldChange>, base: string, pa: Json, pb: Json)
    ensures AllSpeak(PodSpecRules(p, changes, base, pa, pb))
  {
    var inits, mains := ListRules(p, base, pa, pb, "initContainers"), ListRules(p, base, pa, pb, "containers");
    ListSpeaks(p, base, pa, pb, "initContainers");
    ListSpeaks(p, base, pa, pb, "containers");
    SpeakConcat(inits, mains);
    var account := ScalarRules(p, changes, base + ".serviceAccountName");
    ScalarSpeaks(p, changes, base + ".serviceAccountName");
    SpeakConcat(PodRules(base), account);
    SpeakConcat(inits + mains, PodRules(base) + account);
  }

  lemma {:induction false} ServiceSpeaks(p: Printers, changes: seq<FieldChange>)
    ensures AllSpeak(ServiceRules(p, changes))
  {
    ScalarSpeaks(p, changes, "spec.type");
    SpeakConcat([Bare("ports", ["spec.ports"]), Bare("scheduling", ["spec.selector"])],
                ScalarRules(p, changes, "spec.type"));
  }
}
