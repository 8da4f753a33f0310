/** What the lines of a comparison say, against the two documents themselves. */
module CompareValues {
  import opened Options
  import opened Json
  import opened Strings
  import opened KeyOrder
  import opened Compare
  import opened ComparePaths
  import opened CompareReport
  import opened CompareCanon
  import opened CompareDrift

  /** What a document has at a position; null stands for nothing. */
  function ValueAt(sp: Printer, v: Json, pos: seq<Seg>): Json
    decreases |pos|
  {
    if |pos| == 0 then v
    else match pos[0]
      case Key(k) => if v.Obj? && k in v.fields then ValueAt(sp, v.fields[k], pos[1..]) else Null
      case Name(n) => if v.List? && Find(sp, v.items, n) >= 0 then ValueAt(sp, v.items[Find(sp, v.items, n)], pos[1..]) else Null
      case Index(i) => if v.List? && i < |v.items| then ValueAt(sp, v.items[i], pos[1..]) else Null
  }

  /** Two values that are reported as changed: numbers of different value, or values that differ and are not both maps or both lists. */
  predicate Differ(x: Json, y: Json) {
    && x != Null && y != Null && !(x.Obj? && y.Obj?) && !(x.List? && y.List?)
    && if x.Num? && y.Num? then ValueOf(x.n) != ValueOf(y.n) else x != y
  }

  function ValueOf(n: Number): real {
    match n
    case Int(i) => i as real
    case Float(r) => r
  }

  /** The change has A's value as A and B's as B, and its kind says which are there. */
  predicate Tells(c: Change, x: Json, y: Json) {
    match c.kind
    case OnlyInA => x != Null && y == Null && c.a == Some(x) && c.b == None
    case OnlyInB => x == Null && y != Null && c.a == None && c.b == Some(y)
    case Changed => Differ(x, y) && c.a == Some(x) && c.b == Some(y)
  }

  lemma TellsUnder(sp: Printer, seg: Seg, e: Change, a: Json, b: Json, x: Json, y: Json)
    requires Tells(e, ValueAt(sp, x, e.pos), ValueAt(sp, y, e.pos))
    requires ValueAt(sp, a, [seg] + e.pos) == ValueAt(sp, x, e.pos)
    requires ValueAt(sp, b, [seg] + e.pos) == ValueAt(sp, y, e.pos)
    ensures var c := Under(seg, e); Tells(c, ValueAt(sp, a, c.pos), ValueAt(sp, b, c.pos))
  {
  }

  lemma {:induction false} NothingThere(sp: Printer, pos: seq<Seg>)
    ensures ValueAt(sp, Null, pos) == Null
  {
  }

  function Child(sp: Printer, v: Json, seg: Seg): Json {
    match seg
    case Key(k) => if v.Obj? && k in v.fields then v.fields[k] else Null
    case Name(n) => if v.List? && Find(sp, v.items, n) >= 0 then v.items[Find(sp, v.items, n)] else Null
    case Index(i) => if v.List? && i < |v.items| then v.items[i] else Null
  }

  lemma ValueAtStep(sp: Printer, v: Json, seg: Seg, pos: seq<Seg>)
    ensures ValueAt(sp, v, [seg] + pos) == ValueAt(sp, Child(sp, v, seg), pos)
  {
    assert ([seg] + pos)[1..] == pos;
    NothingThere(sp, pos);
  }

  /** Every change tells what the two documents have at its position. */
  lemma {:induction false} ChangesTell(sp: Printer, a: Json, b: Json, c: Change)
    requires c in Diff(sp, a, b)
    ensures Tells(c, ValueAt(sp, a, c.pos), ValueAt(sp, b, c.pos))
    decreases a, 1
  {
    if a != Null && b != Null && a.Obj? && b.Obj? {
      var k, e := KeyLine(sp, a, b, OrderedKeys(a.fields.Keys + b.fields.Keys), c);
      ChildTells(sp, a, b, Key(k), e);
    } else if a.List? && b.List? && Named(sp, a.items) && Named(sp, b.items) {
      var n, e := NameLine(sp, a, b, AllNames(sp, a.items, b.items), c);
      ChildTells(sp, a, b, Name(n), e);
    } else if a.List? && b.List? {
      var i, e := ItemLine(sp, a, b, 0, c);
      ChildTells(sp, a, b, Index(i), e);
    }
  }

  /** The changes below one segment. */
  ghost predicate IsBelow(sp: Printer, a: Json, b: Json, seg: Seg, e: Change) {
    match seg
    case Key(k) => a.Obj? && b.Obj? && e in DiffKey(sp, a, b, k)
    case Name(n) => a.List? && b.List? && e in DiffName(sp, a, b, n)
    case Index(i) => a.List? && b.List? && e in DiffItem(sp, a, b, i)
  }

  lemma {:induction false} ChildTells(sp: Printer, a: Json, b: Json, seg: Seg, e: Change)
    requires IsBelow(sp, a, b, seg, e)
    ensures var c := Under(seg, e); Tells(c, ValueAt(sp, a, c.pos), ValueAt(sp, b, c.pos))
    decreases a, 0
  {
    var x, y := Child(sp, a, seg), Child(sp, b, seg);
    ValueAtStep(sp, a, seg, e.pos);
    ValueAtStep(sp, b, seg, e.pos);
    if BothThere(sp, a, b, seg) {
      ChangesTell(sp, x, y, e);
    }
    TellsUnder(sp, seg, e, a, b, x, y);
  }

  ghost predicate BothThere(sp: Printer, a: Json, b: Json, seg: Seg) {
    match seg
    case Key(k) => a.Obj? && b.Obj? && k in a.fields && k in b.fields
    case Name(n) => a.List? && b.List? && Find(sp, a.items, n) >= 0 && Find(sp, b.items, n) >= 0
    case Index(i) => a.List? && b.List? && i < |a.items| && i < |b.items|
  }

  // ---- every difference is reported ----------------------------------------

  /** Both documents are compared there: maps by key, lists by name if both have names of their own, otherwise by place. */
  ghost predicate Compared(sp: Printer, a: Json, b: Json, pos: seq<Seg>)
    decreases |pos|
  {
    |pos| > 0 ==>
      && Compared(sp, Child(sp, a, pos[0]), Child(sp, b, pos[0]), pos[1..])
      && match pos[0]
         case Key(_) => a.Obj? && b.Obj?
         case Name(_) => a.List? && b.List? && Named(sp, a.items) && Named(sp, b.items)
         case Index(_) => a.List? && b.List? && !(Named(sp, a.items) && Named(sp, b.items))
  }

  /** Something on one side only, or two values that differ. */
  predicate IsDifference(x: Json, y: Json) {
    (x == Null) != (y == Null) || Differ(x, y)
  }

  ghost predicate IsReported(sp: Printer, a: Json, b: Json, pos: seq<Seg>) {
    exists c :: c in Diff(sp, a, b) && c.pos == pos
  }

  lemma {:induction false} InKeys(sp: Printer, a: Json, b: Json, keys: seq<string>, k: string, e: Change)
    requires a.Obj? && b.Obj? && k in keys && e in DiffKey(sp, a, b, k)
    ensures Under(Key(k), e) in DiffKeys(sp, a, b, keys)
    decreases |keys|
  {
    if k == keys[0] {
      InUnder(Key(k), DiffKey(sp, a, b, k), e);
    } else {
      InKeys(sp, a, b, keys[1..], k, e);
    }
  }

  lemma {:induction false} InNames(sp: Printer, a: Json, b: Json, names: seq<string>, n: string, e: Change)
    requires a.List? && b.List? && n in names && e in DiffName(sp, a, b, n)
    ensures Under(Name(n), e) in DiffNames(sp, a, b, names)
    decreases |names|
  {
    if n == names[0] {
      InUnder(Name(n), DiffName(sp, a, b, n), e);
    } else {
      InNames(sp, a, b, names[1..], n, e);
    }
  }

  lemma {:induction false} InItems(sp: Printer, a: Json, b: Json, from: nat, i: nat, e: Change)
    requires a.List? && b.List? && from <= i && e in DiffItem(sp, a, b, i)
    ensures Under(Index(i), e) in DiffItems(sp, a, b, from)
    decreases |a.items| + |b.items| - from
  {
    if i == from {
      InUnder(Index(i), DiffItem(sp, a, b, i), e);
    } else {
      InItems(sp, a, b, from + 1, i, e);
    }
  }

  lemma InUnder(seg: Seg, cs: seq<Change>, e: Change)
    requires e in cs
    ensures Under(seg, e) in AllUnder(seg, cs)
  {
    var i :| 0 <= i < |cs| && cs[i] == e;
    assert AllUnder(seg, cs)[i] == Under(seg, e);
  }

  /** A change below a segment both are compared by is a change of the whole. */
  lemma {:induction false} BelowIsInDiff(sp: Printer, a: Json, b: Json, seg: Seg, e: Change)
    requires Compared(sp, a, b, [seg]) && IsBelow(sp, a, b, seg, e)
    ensures Under(seg, e) in Diff(sp, a, b)
  {
    match seg
    case Key(k) =>
      EnumerateIsExact(KeyRank, a.fields.Keys + b.fields.Keys);
      InKeys(sp, a, b, OrderedKeys(a.fields.Keys + b.fields.Keys), k, e);
    case Name(n) =>
      AllNamesCover(sp, a.items, b.items, n);
      InNames(sp, a, b, AllNames(sp, a.items, b.items), n, e);
    case Index(i) => InItems(sp, a, b, 0, i, e);
  }

  lemma {:induction false} InDiffIsBelow(sp: Printer, a: Json, b: Json, seg: Seg, c: Change) returns (e: Change)
    requires c in Diff(sp, a, b) && c.pos != [] && c.pos[0] == seg
    ensures Compared(sp, a, b, [seg]) && IsBelow(sp, a, b, seg, e) && c == Under(seg, e) && e.pos == c.pos[1..]
  {
    if a.Obj? && b.Obj? {
      var k;
      k, e := KeyLine(sp, a, b, OrderedKeys(a.fields.Keys + b.fields.Keys), c);
    } else if Named(sp, a.items) && Named(sp, b.items) {
      var n;
      n, e := NameLine(sp, a, b, AllNames(sp, a.items, b.items), c);
    } else {
      var i;
      i, e := ItemLine(sp, a, b, 0, c);
    }
  }

  /** What is reported below a segment is what is reported of the two children. */
  lemma {:induction false} BelowIsOfChildren(sp: Printer, a: Json, b: Json, seg: Seg, e: Change)
    requires Compared(sp, a, b, [seg])
    ensures IsBelow(sp, a, b, seg, e) <==> e in Diff(sp, Child(sp, a, seg), Child(sp, b, seg))
  {
  }

  lemma ComparedFirst(sp: Printer, a: Json, b: Json, pos: seq<Seg>)
    requires |pos| > 0
    ensures Compared(sp, a, b, pos) <==>
              Compared(sp, a, b, [pos[0]]) && Compared(sp, Child(sp, a, pos[0]), Child(sp, b, pos[0]), pos[1..])
  {
    assert [pos[0]][1..] == [];
  }

  /** Where the documents are compared, the report has a line exactly if they differ there, and it has no other lines. */
  lemma {:induction false} ReportedIff(sp: Printer, a: Json, b: Json, pos: seq<Seg>)
    ensures IsReported(sp, a, b, pos) <==> Compared(sp, a, b, pos) && IsDifference(ValueAt(sp, a, pos), ValueAt(sp, b, pos))
    decreases |pos|
  {
    if |pos| == 0 {
      ReportedAtRoot(sp, a, b);
    } else {
      var seg, rest := pos[0], pos[1..];
      var x, y := Child(sp, a, seg), Child(sp, b, seg);
      ReportedIff(sp, x, y, rest);
      ComparedFirst(sp, a, b, pos);
      ValueAtStep(sp, a, seg, rest);
      ValueAtStep(sp, b, seg, rest);
      assert pos == [seg] + rest;
      if c :| c in Diff(sp, a, b) && c.pos == pos {
        var e := InDiffIsBelow(sp, a, b, seg, c);
        BelowIsOfChildren(sp, a, b, seg, e);
        assert IsReported(sp, x, y, rest);
      }
      if Compared(sp, a, b, [seg]) && IsReported(sp, x, y, rest) {
        var e :| e in Diff(sp, x, y) && e.pos == rest;
        BelowIsOfChildren(sp, a, b, seg, e);
        BelowIsInDiff(sp, a, b, seg, e);
        assert IsReported(sp, a, b, pos);
      }
    }
  }

  lemma {:induction false} ReportedAtRoot(sp: Printer, a: Json, b: Json)
    ensures IsReported(sp, a, b, []) <==> IsDifference(a, b)
  {
    if c :| c in Diff(sp, a, b) && c.pos == [] {
      ChangesTell(sp, a, b, c);
    }
    if IsDifference(a, b) {
      assert |Diff(sp, a, b)| == 1 && Diff(sp, a, b)[0].pos == [];
      assert Diff(sp, a, b)[0] in Diff(sp, a, b);
    }
  }

  /** Every line of a report has the path of a position, A's value there as A and B's as B. */
  lemma LinesTell(sp: Printer, a: Json, b: Json, i: nat) returns (pos: seq<Seg>)
    requires i < |Diff(sp, a, b)|
    ensures var line, x, y := Report("", Diff(sp, a, b))[i], ValueAt(sp, a, pos), ValueAt(sp, b, pos);
            && line.path == PathFrom("", pos)
            && match line.kind
               case OnlyInA => x != Null && y == Null && line.a == Some(x) && line.b == None
               case OnlyInB => x == Null && y != Null && line.a == None && line.b == Some(y)
               case Changed => Differ(x, y) && line.a == Some(x) && line.b == Some(y)
  {
    pos := Diff(sp, a, b)[i].pos;
    ChangesTell(sp, a, b, Diff(sp, a, b)[i]);
  }

  /** List items are called by their name, or else their key, mount path or container port, the first that has a value. */
  lemma CalledBy(sp: Printer, v: Json)
    requires v.Obj?
    ensures ItemName(sp, v)
         == if "name" in v.fields && v.fields["name"] != Null then sp(v.fields["name"])
            else if "key" in v.fields && v.fields["key"] != Null then sp(v.fields["key"])
            else if "mountPath" in v.fields && v.fields["mountPath"] != Null then sp(v.fields["mountPath"])
            else if "containerPort" in v.fields && v.fields["containerPort"] != Null then sp(v.fields["containerPort"])
            else ""
    ensures forall w: Json :: !w.Obj? ==> ItemName(sp, w) == ""
  {
  }

  // ---- keys and numbers ----------------------------------------------------

  /** The place of a key in a report: four keys lead, `status` comes last, the others are in between. */
  predicate LeadsBy(a: string, b: string) {
    var first := ["apiVersion", "kind", "metadata", "name"];
    || (exists i, j :: 0 <= i < j < 4 && a == first[i] && b == first[j])
    || (a in first && b !in first)
    || (a != "status" && a !in first && b == "status")
  }

  /** Keys are listed in that order, and otherwise as in a dictionary. */
  lemma KeysAreListed(a: string, b: string)
    ensures LeadsBy(a, b) ==> Precedes(KeyRank, a, b)
    ensures !LeadsBy(a, b) && !LeadsBy(b, a) ==> (Precedes(KeyRank, a, b) <==> ComesFirst(a, b))
  {
    LessIsLexicographic(a, b);
    var first := ["apiVersion", "kind", "metadata", "name"];
    assert first[0] == "apiVersion" && first[1] == "kind" && first[2] == "metadata" && first[3] == "name";
  }

  /** A key is written plainly if it is not empty and has no dot, slash, bracket, quote or space. */
  lemma PlainKeys(k: string)
    ensures IsIdentKey(k) <==> k != "" && '.' !in k && '/' !in k && '[' !in k && ']' !in k && '\"' !in k && ' ' !in k
  {
    if k != "" && !IsIdentKey(k) {
      var i :| 0 <= i < |k| && k[i] in "./[]\" ";
      assert k[i] in k;
    }
  }

  function Decimal(s: string): int {
    if s == "" then 0 else 10 * Decimal(s[..|s| - 1]) + (s[|s| - 1] as int - '0' as int)
  }

  lemma {:induction false} ItoaIsDecimal(n: nat)
    ensures Decimal(Itoa(n)) == n && forall i :: 0 <= i < |Itoa(n)| ==> '0' <= Itoa(n)[i] <= '9'
  {
    if n >= 10 {
      ItoaIsDecimal(n / 10);
      assert Itoa(n)[..|Itoa(n)| - 1] == Itoa(n / 10);
    } else {
      assert Itoa(n)[..0] == "";
    }
  }
}
