/**
 What `ParserUtils.deep_merge` of src/parser/parser.py makes of two values: the source laid over the destination,
 the source winning. What Python raises is None.
 */
module MergedValues {
  import opened Options

  datatype Json = Obj(fields: map<string, Json>) | Arr(items: seq<Json>) | Text(text: string) | Scalar(n: int)

  const EMPTY := Obj(map[])

  // What a value of the source makes of the value it meets in the destination.
  function Over(v: Json, d: Json): Option<Json> {
    match v
    case Obj(fs) =>
      if fs == map[] then Some(d)
      else if !d.Obj? || exists k :: k in fs && k in d.fields && Over(fs[k], d.fields[k]).None? then None
      else Some(Obj(map k | k in fs.Keys + d.fields.Keys ::
                 if k !in fs then d.fields[k]
                 else if k !in d.fields then fs[k]
                 else Over(fs[k], d.fields[k]).value))
    case Arr(vs) =>
      if exists v' :: v' in vs && !v'.Obj? then None
      else (match d
           case Arr(ds) =>
             if exists i :: 0 <= i < |vs| && i < |ds| && Over(vs[i], ds[i]).None? then None
             else Some(Arr(seq(|ds|, i requires 0 <= i < |ds| => if i < |vs| then Over(vs[i], ds[i]).value else ds[i])))
           case Obj(ds) => if ds == map[] then Some(d) else None
           case Text(t) => if exists i :: 0 <= i < |vs| && i < |t| && vs[i] != EMPTY then None else Some(d)
           case Scalar(_) => None)
    case _ => Some(v)
  }

  // -- what is found along a path --

  datatype Step = Key(key: string) | Index(index: nat)

  type Path = seq<Step>

  predicate IsLeaf(j: Json) {
    j.Text? || j.Scalar?
  }

  function Child(j: Json, step: Step): (child: Option<Json>)
    ensures child.Some? ==> child.value < j
  {
    if j.Obj? && step.Key? && step.key in j.fields then Some(j.fields[step.key])
    else if j.Arr? && step.Index? && step.index < |j.items| then Some(j.items[step.index])
    else None
  }

  function LeafAt(j: Json, path: Path): Option<Json> {
    if path == [] then (if IsLeaf(j) then Some(j) else None)
    else if Child(j, path[0]).None? then None
    else LeafAt(Child(j, path[0]).value, path[1..])
  }

  // The path runs on past a leaf.
  predicate LeafAbove(j: Json, path: Path) {
    path != [] && (IsLeaf(j) || (Child(j, path[0]).Some? && LeafAbove(Child(j, path[0]).value, path[1..])))
  }

  // The source's leaf if it has one, nothing where a leaf of the source is in the way, else the destination's.
  function Overlaid(v: Json, d: Json, path: Path): Option<Json> {
    if LeafAt(v, path).Some? then LeafAt(v, path)
    else if LeafAbove(v, path) then None
    else LeafAt(d, path)
  }

  predicate Leafless(j: Json) {
    match j
    case Obj(fs) => forall k :: k in fs ==> Leafless(fs[k])
    case Arr(items) => forall i :: 0 <= i < |items| ==> Leafless(items[i])
    case Text(_) => false
    case Scalar(_) => false
  }

  // The items of the source's lists have counterparts in the destination, but for items that hold no leaf.
  predicate Room(v: Json, d: Json) {
    match v
    case Obj(fs) => d.Obj? ==> forall k :: k in fs && k in d.fields ==> Room(fs[k], d.fields[k])
    case Arr(vs) =>
      forall i :: 0 <= i < |vs| ==>
        if d.Arr? && i < |d.items| then Room(vs[i], d.items[i]) else Leafless(vs[i])
    case Text(_) => true
    case Scalar(_) => true
  }

  lemma {:induction false} LeaflessHasNone(j: Json, path: Path)
    requires Leafless(j)
    ensures LeafAt(j, path) == None && !LeafAbove(j, path)
  {
    if path != [] && Child(j, path[0]).Some? {
      LeaflessHasNone(Child(j, path[0]).value, path[1..]);
    }
  }

  lemma {:induction false} SomeLeaf(j: Json) returns (path: Path)
    requires !Leafless(j)
    ensures LeafAt(j, path).Some?
  {
    match j
    case Obj(fs) =>
      var k :| k in fs && !Leafless(fs[k]);
      var rest := SomeLeaf(fs[k]);
      path := [Key(k)] + rest;
    case Arr(items) =>
      var i :| 0 <= i < |items| && !Leafless(items[i]);
      var rest := SomeLeaf(items[i]);
      path := [Index(i)] + rest;
    case _ =>
      path := [];
  }

  lemma {:induction false} RoomKeepsLeaves(v: Json, d: Json, path: Path)
    requires Over(v, d).Some? && Room(v, d)
    ensures LeafAt(Over(v, d).value, path) == Overlaid(v, d, path)
    decreases path
  {
    var r := Over(v, d).value;
    if path != [] && v.Obj? && v.fields != map[] {
      if path[0].Key? && path[0].key in v.fields && path[0].key in d.fields {
        RoomKeepsLeaves(v.fields[path[0].key], d.fields[path[0].key], path[1..]);
      }
    } else if path != [] && v.Arr? && path[0].Index? && path[0].index < |v.items| {
      var i := path[0].index;
      assert v.items[i] in v.items;
      if d.Arr? && i < |d.items| {
        RoomKeepsLeaves(v.items[i], d.items[i], path[1..]);
      } else {
        LeaflessHasNone(v.items[i], path[1..]);
      }
    }
  }

  lemma {:induction false} LostLeaf(v: Json, d: Json) returns (path: Path)
    requires Over(v, d).Some? && !Room(v, d)
    ensures LeafAt(v, path).Some? && LeafAt(Over(v, d).value, path).None?
  {
    match v
    case Obj(fs) =>
      var k :| k in fs && k in d.fields && !Room(fs[k], d.fields[k]);
      var rest := LostLeaf(fs[k], d.fields[k]);
      path := [Key(k)] + rest;
    case Arr(vs) =>
      var i :| 0 <= i < |vs| && !(if d.Arr? && i < |d.items| then Room(vs[i], d.items[i]) else Leafless(vs[i]));
      assert vs[i] in vs;
      if d.Arr? && i < |d.items| {
        var rest := LostLeaf(vs[i], d.items[i]);
        path := [Index(i)] + rest;
      } else {
        var rest := SomeLeaf(vs[i]);
        path := [Index(i)] + rest;
      }
    case _ =>
      assert false;
  }

  // Along every path the result has what the path law says, exactly when the destination's lists have room.
  lemma PathLawIff(v: Json, d: Json)
    requires Over(v, d).Some?
    ensures (forall path: Path :: LeafAt(Over(v, d).value, path) == Overlaid(v, d, path)) <==> Room(v, d)
  {
    if Room(v, d) {
      forall path: Path ensures LeafAt(Over(v, d).value, path) == Overlaid(v, d, path) {
        RoomKeepsLeaves(v, d, path);
      }
    } else {
      var path := LostLeaf(v, d);
      assert LeafAt(Over(v, d).value, path) != Overlaid(v, d, path);
    }
  }

  // -- when merging raises --

  function NodeAt(j: Json, path: Path): Option<Json> {
    if path == [] then Some(j)
    else if Child(j, path[0]).None? then None
    else NodeAt(Child(j, path[0]).value, path[1..])
  }

  predicate ClashHere(v: Json, d: Json) {
    match v
    case Obj(fs) => fs != map[] && !d.Obj?
    case Arr(vs) =>
      || (exists item :: item in vs && !item.Obj?)
      || d.Scalar?
      || (d.Obj? && d != EMPTY)
      || (d.Text? && exists i :: 0 <= i < |vs| && i < |d.text| && vs[i] != EMPTY)
    case _ => false
  }

  ghost predicate ClashAt(v: Json, d: Json, path: Path) {
    NodeAt(v, path).Some? && NodeAt(d, path).Some? && ClashHere(NodeAt(v, path).value, NodeAt(d, path).value)
  }

  lemma {:induction false} ClashRaises(v: Json, d: Json, path: Path)
    requires ClashAt(v, d, path)
    ensures Over(v, d) == None
    decreases path
  {
    if path != [] {
      ClashRaises(Child(v, path[0]).value, Child(d, path[0]).value, path[1..]);
    }
  }

  lemma {:induction false} SomeClash(v: Json, d: Json) returns (path: Path)
    requires Over(v, d) == None
    ensures ClashAt(v, d, path)
  {
    if ClashHere(v, d) {
      path := [];
    } else if v.Obj? {
      var k :| k in v.fields && k in d.fields && Over(v.fields[k], d.fields[k]).None?;
      var rest := SomeClash(v.fields[k], d.fields[k]);
      path := [Key(k)] + rest;
    } else {
      var i :| 0 <= i < |v.items| && i < |d.items| && Over(v.items[i], d.items[i]).None?;
      var rest := SomeClash(v.items[i], d.items[i]);
      path := [Index(i)] + rest;
    }
  }

  // Merging raises exactly when source and destination clash at some path both have.
  lemma RaisesIff(v: Json, d: Json)
    ensures Over(v, d) == None <==> exists path :: ClashAt(v, d, path)
  {
    if Over(v, d) == None {
      var path := SomeClash(v, d);
    }
    forall path | ClashAt(v, d, path) ensures Over(v, d) == None {
      ClashRaises(v, d, path);
    }
  }

  // -- laws --

  // {} changes nothing, and any dict laid over {} is itself.
  lemma EmptyIsIdentity(fields: map<string, Json>)
    ensures Over(EMPTY, Obj(fields)) == Some(Obj(fields))
    ensures Over(Obj(fields), EMPTY) == Some(Obj(fields))
  {
    if fields != map[] {
      assert Over(Obj(fields), EMPTY).value.fields == fields;
    }
  }

  predicate ListsOfDicts(j: Json) {
    match j
    case Obj(fs) => forall k :: k in fs ==> ListsOfDicts(fs[k])
    case Arr(items) => forall i :: 0 <= i < |items| ==> items[i].Obj? && ListsOfDicts(items[i])
    case Text(_) => true
    case Scalar(_) => true
  }

  // A value laid over itself is itself, if all its lists are lists of dicts; otherwise it raises.
  lemma {:induction false} SelfMergeIff(j: Json)
    ensures Over(j, j) == if ListsOfDicts(j) then Some(j) else None
  {
    match j
    case Obj(fs) =>
      forall k | k in fs ensures Over(fs[k], fs[k]) == if ListsOfDicts(fs[k]) then Some(fs[k]) else None {
        SelfMergeIff(fs[k]);
      }
      if fs != map[] && ListsOfDicts(j) {
        assert Over(j, j).value.fields == fs;
      }
    case Arr(items) =>
      forall i | 0 <= i < |items|
        ensures Over(items[i], items[i]) == if ListsOfDicts(items[i]) then Some(items[i]) else None
      {
        SelfMergeIff(items[i]);
      }
      if ListsOfDicts(j) {
        assert Over(j, j).value.items == items;
      }
    case _ =>
  }

  // Merging the same source a second time changes nothing, or raises.
  lemma {:induction false} SecondMergeChangesNothing(v: Json, d: Json)
    requires Over(v, d).Some? && Over(v, Over(v, d).value).Some?
    ensures Over(v, Over(v, d).value) == Over(v, d)
    decreases v
  {
    var r := Over(v, d).value;
    if v.Obj? && v.fields != map[] {
      forall k | k in v.fields ensures Over(v.fields[k], r.fields[k]) == Some(r.fields[k]) {
        if k in d.fields {
          SecondMergeChangesNothing(v.fields[k], d.fields[k]);
        } else {
          SelfMergeIff(v.fields[k]);
        }
      }
      assert Over(v, r).value.fields == r.fields;
    } else if v.Arr? && d.Arr? {
      forall i | 0 <= i < |v.items| && i < |d.items| ensures Over(v.items[i], r.items[i]) == Some(r.items[i]) {
        SecondMergeChangesNothing(v.items[i], d.items[i]);
      }
      assert Over(v, r).value.items == r.items;
    }
  }

  // No item the source brings is lost in a list that is too short for it, or in a list that stands against {},
  // unless the lost items are {} or the result cannot be laid over anything that has a place for them.
  predicate Harmless(v: Json, d: Json) {
    match v
    case Obj(fs) => d.Obj? ==> forall k :: k in fs && k in d.fields ==> Harmless(fs[k], d.fields[k])
    case Arr(vs) =>
      if d.Arr? then
        || (exists i :: 0 <= i < |d.items| && !d.items[i].Obj?)
        || (forall i :: 0 <= i < |vs| ==> if i < |d.items| then Harmless(vs[i], d.items[i]) else vs[i] == EMPTY)
      else
        d.Text? || forall i :: 0 <= i < |vs| ==> vs[i] == EMPTY
    case Text(_) => true
    case Scalar(_) => true
  }

  // Both orders of laying a over b over c are defined.
  predicate BothOrders(a: Json, b: Json, c: Json) {
    && Over(a, b).Some? && Over(Over(a, b).value, c).Some?
    && Over(b, c).Some? && Over(a, Over(b, c).value).Some?
  }

  predicate SameEitherWay(a: Json, b: Json, c: Json)
    requires BothOrders(a, b, c)
  {
    Over(Over(a, b).value, c) == Over(a, Over(b, c).value)
  }

  lemma {:induction false} HarmlessAssociates(a: Json, b: Json, c: Json)
    requires Harmless(a, b) && BothOrders(a, b, c)
    ensures SameEitherWay(a, b, c)
    decreases a, 1
  {
    if a.Obj? && a.fields != map[] {
      DictsAssociate(a, b, c);
    } else if a.Arr? && b.Arr? && c.Arr? {
      ListsAssociate(a, b, c);
    } else if a.Arr? && c.Arr? && b.Obj? {
      assert Over(a, c).value.items == c.items;
    }
  }

  lemma {:induction false} DictsAssociate(a: Json, b: Json, c: Json)
    requires Harmless(a, b) && BothOrders(a, b, c) && a.Obj? && a.fields != map[]
    ensures SameEitherWay(a, b, c)
    decreases a, 0
  {
    var ab, bc := Over(a, b).value, Over(b, c).value;
    var left, right := Over(ab, c).value, Over(a, bc).value;
    forall k | k in a.fields && k in b.fields && k in c.fields
      ensures Over(ab.fields[k], c.fields[k]) == Over(a.fields[k], bc.fields[k])
    {
      HarmlessAssociates(a.fields[k], b.fields[k], c.fields[k]);
    }
    assert left.fields == right.fields;
  }

  lemma {:induction false} ListsAssociate(a: Json, b: Json, c: Json)
    requires Harmless(a, b) && BothOrders(a, b, c) && a.Arr? && b.Arr? && c.Arr?
    ensures SameEitherWay(a, b, c)
    decreases a, 0
  {
    var ab, bc := Over(a, b).value, Over(b, c).value;
    forall i | 0 <= i < |a.items| && i < |b.items| && i < |c.items|
      ensures Over(ab.items[i], c.items[i]) == Over(a.items[i], bc.items[i])
    {
      assert b.items[i] in b.items;
      HarmlessAssociates(a.items[i], b.items[i], c.items[i]);
    }
    assert Over(ab, c).value.items == Over(a, bc).value.items;
  }

  // A list of {}, but for its last item.
  function RoomFor(i: nat, last: Json): Json {
    Arr(seq(i + 1, n => if n == i then last else EMPTY))
  }

  // A third layer that tells the two orders apart: it is {} wherever the order makes no difference.
  lemma {:induction false} TellsApart(a: Json, b: Json) returns (c: Json)
    requires Over(a, b).Some? && !Harmless(a, b)
    ensures BothOrders(a, b, c) && !SameEitherWay(a, b, c)
    decreases a
  {
    if a.Obj? {
      var k :| k in a.fields && k in b.fields && !Harmless(a.fields[k], b.fields[k]);
      var last := TellsApart(a.fields[k], b.fields[k]);
      c := Obj(map[k := last]);
      ApartInDict(a, b, k, last);
    } else if b.Arr? {
      var i :| 0 <= i < |a.items| && !(if i < |b.items| then Harmless(a.items[i], b.items[i]) else a.items[i] == EMPTY);
      if i < |b.items| {
        var last := TellsApart(a.items[i], b.items[i]);
        c := RoomFor(i, last);
        ApartInList(a, b, i, last);
      } else {
        c := RoomFor(i, EMPTY);
        ApartPastTheEnd(a, b, i);
      }
    } else {
      var i :| 0 <= i < |a.items| && a.items[i] != EMPTY;
      c := RoomFor(i, EMPTY);
      ApartPastTheEnd(a, b, i);
    }
  }

  lemma OverOneKey(fs: map<string, Json>, k: string, last: Json)
    requires k in fs && Over(fs[k], last).Some?
    ensures Over(Obj(fs), Obj(map[k := last])) == Some(Obj(fs[k := Over(fs[k], last).value]))
  {
    assert Over(Obj(fs), Obj(map[k := last])).value.fields == fs[k := Over(fs[k], last).value];
  }

  lemma OverOneChanged(fs: map<string, Json>, ds: map<string, Json>, k: string, d: Json)
    requires Over(Obj(fs), Obj(ds)).Some? && k in fs && k in ds && Over(fs[k], d).Some?
    ensures Over(Obj(fs), Obj(ds[k := d])).Some? && Over(Obj(fs), Obj(ds[k := d])).value.Obj?
    ensures k in Over(Obj(fs), Obj(ds[k := d])).value.fields
    ensures Over(Obj(fs), Obj(ds[k := d])).value.fields[k] == Over(fs[k], d).value
  {
    forall l | l in fs && l in ds[k := d] ensures Over(fs[l], ds[k := d][l]).Some? {
      if l != k {
        assert Over(fs[l], ds[l]).Some?;
      }
    }
  }

  lemma ApartInDict(a: Json, b: Json, k: string, last: Json)
    requires a.Obj? && b.Obj? && Over(a, b).Some? && k in a.fields && k in b.fields
    requires BothOrders(a.fields[k], b.fields[k], last) && !SameEitherWay(a.fields[k], b.fields[k], last)
    ensures BothOrders(a, b, Obj(map[k := last])) && !SameEitherWay(a, b, Obj(map[k := last]))
  {
    OverOneKey(Over(a, b).value.fields, k, last);
    OverOneKey(b.fields, k, last);
    OverOneChanged(a.fields, b.fields, k, Over(b.fields[k], last).value);
  }

  lemma ApartInList(a: Json, b: Json, i: nat, last: Json)
    requires a.Arr? && b.Arr? && Over(a, b).Some? && i < |a.items| && i < |b.items|
    requires forall n :: 0 <= n < |b.items| ==> b.items[n].Obj?
    requires BothOrders(a.items[i], b.items[i], last) && !SameEitherWay(a.items[i], b.items[i], last)
    ensures BothOrders(a, b, RoomFor(i, last)) && !SameEitherWay(a, b, RoomFor(i, last))
  {
    var ab := Over(a, b).value;
    assert forall n :: 0 <= n < |b.items| ==> ab.items[n].Obj?;
    LaidOverRoom(ab.items, i, last);
    LaidOverRoom(b.items, i, last);
    LaidOverShorter(a, b, Over(b, RoomFor(i, last)).value, i);
  }

  lemma ListsOver(vs: seq<Json>, ds: seq<Json>)
    requires forall n :: 0 <= n < |vs| ==> vs[n].Obj?
    requires forall n :: 0 <= n < |vs| && n < |ds| ==> Over(vs[n], ds[n]).Some?
    ensures Over(Arr(vs), Arr(ds)).Some? && Over(Arr(vs), Arr(ds)).value.Arr?
    ensures |Over(Arr(vs), Arr(ds)).value.items| == |ds|
    ensures forall n :: 0 <= n < |ds| ==>
              Over(Arr(vs), Arr(ds)).value.items[n] == if n < |vs| then Over(vs[n], ds[n]).value else ds[n]
  {
  }

  lemma LaidOverRoom(vs: seq<Json>, i: nat, last: Json)
    requires i < |vs| && (forall n :: 0 <= n < |vs| ==> vs[n].Obj?) && Over(vs[i], last).Some?
    ensures Over(Arr(vs), RoomFor(i, last)) == Some(Arr(vs[..i] + [Over(vs[i], last).value]))
  {
    forall n | 0 <= n < i ensures Over(vs[n], EMPTY) == Some(vs[n]) {
      EmptyIsIdentity(vs[n].fields);
    }
    ListsOver(vs, RoomFor(i, last).items);
    assert Over(Arr(vs), RoomFor(i, last)).value.items == vs[..i] + [Over(vs[i], last).value];
  }

  lemma LaidOverShorter(a: Json, b: Json, bc: Json, i: nat)
    requires a.Arr? && b.Arr? && Over(a, b).Some? && i < |a.items| && i < |b.items|
    requires bc.Arr? && |bc.items| == i + 1 && bc.items[..i] == b.items[..i] && Over(a.items[i], bc.items[i]).Some?
    ensures Over(a, bc).Some? && Over(a, bc).value.Arr? && |Over(a, bc).value.items| == i + 1
    ensures Over(a, bc).value.items[i] == Over(a.items[i], bc.items[i]).value
  {
    ItemsAreDicts(a, b);
    forall n | 0 <= n < |a.items| && n < |bc.items| ensures Over(a.items[n], bc.items[n]).Some? {
      if n < i {
        assert bc.items[..i][n] == b.items[..i][n];
      }
    }
    ListsOver(a.items, bc.items);
  }

  lemma ItemsAreDicts(a: Json, b: Json)
    requires a.Arr? && Over(a, b).Some?
    ensures forall n :: 0 <= n < |a.items| ==> a.items[n].Obj?
  {
    forall n | 0 <= n < |a.items| ensures a.items[n].Obj? {
      assert a.items[n] in a.items;
    }
  }

  lemma OverEmpties(vs: seq<Json>, ds: seq<Json>, i: nat)
    requires i < |vs| && |ds| == i + 1 && forall n :: 0 <= n < |vs| ==> vs[n].Obj?
    requires forall n :: 0 <= n <= i ==> Over(vs[n], ds[n]).Some? || ds[n] == EMPTY
    requires ds[i] == EMPTY
    ensures Over(Arr(vs), Arr(ds)).Some? && Over(Arr(vs), Arr(ds)).value.Arr?
    ensures |Over(Arr(vs), Arr(ds)).value.items| == i + 1 && Over(Arr(vs), Arr(ds)).value.items[i] == vs[i]
  {
    forall n | 0 <= n <= i && ds[n] == EMPTY ensures Over(vs[n], ds[n]) == Some(vs[n]) {
      EmptyIsIdentity(vs[n].fields);
    }
    ListsOver(vs, ds);
  }

  lemma PastTheEndOf(vs: seq<Json>, i: nat)
    requires |vs| <= i && forall n :: 0 <= n < |vs| ==> vs[n].Obj?
    ensures Over(Arr(vs), RoomFor(i, EMPTY)) == Some(Arr(vs + seq(i + 1 - |vs|, n => EMPTY)))
  {
    forall n | 0 <= n < |vs| ensures Over(vs[n], EMPTY) == Some(vs[n]) {
      EmptyIsIdentity(vs[n].fields);
    }
    ListsOver(vs, RoomFor(i, EMPTY).items);
    assert Over(Arr(vs), RoomFor(i, EMPTY)).value.items == vs + seq(i + 1 - |vs|, n => EMPTY);
  }

  lemma ApartPastTheEnd(a: Json, b: Json, i: nat)
    requires a.Arr? && Over(a, b).Some? && i < |a.items| && a.items[i] != EMPTY
    requires b == EMPTY || (b.Arr? && |b.items| <= i && forall n :: 0 <= n < |b.items| ==> b.items[n].Obj?)
    ensures BothOrders(a, b, RoomFor(i, EMPTY)) && !SameEitherWay(a, b, RoomFor(i, EMPTY))
  {
    ItemsAreDicts(a, b);
    if b == EMPTY {
      OverEmpties(a.items, RoomFor(i, EMPTY).items, i);
    } else {
      var ab := Over(a, b).value;
      assert forall n :: 0 <= n < |b.items| ==> ab.items[n].Obj?;
      PastTheEndOf(ab.items, i);
      PastTheEndOf(b.items, i);
      OverEmpties(a.items, Over(b, RoomFor(i, EMPTY)).value.items, i);
    }
  }

  // Whatever they are laid over, a and b can be merged in either order, where both orders are defined, exactly when
  // laying a over b is harmless.
  lemma AssociativeIff(a: Json, b: Json)
    requires Over(a, b).Some?
    ensures (forall c :: BothOrders(a, b, c) ==> SameEitherWay(a, b, c)) <==> Harmless(a, b)
  {
    if Harmless(a, b) {
      forall c | BothOrders(a, b, c) ensures SameEitherWay(a, b, c) {
        HarmlessAssociates(a, b, c);
      }
    } else {
      var c := TellsApart(a, b);
    }
  }

  // Wherever a list meets something, that is a list at least as long.
  predicate Snug(v: Json, d: Json) {
    match v
    case Obj(fs) => d.Obj? ==> forall k :: k in fs && k in d.fields ==> Snug(fs[k], d.fields[k])
    case Arr(vs) =>
      d.Arr? && |vs| <= |d.items| && forall i :: 0 <= i < |vs| ==> Snug(vs[i], d.items[i])
    case Text(_) => true
    case Scalar(_) => true
  }

  lemma {:induction false} SnugIsHarmless(v: Json, d: Json)
    requires Snug(v, d)
    ensures Harmless(v, d)
  {
    match v
    case Obj(fs) =>
      forall k | d.Obj? && k in fs && k in d.fields ensures Harmless(fs[k], d.fields[k]) {
        SnugIsHarmless(fs[k], d.fields[k]);
      }
    case Arr(vs) =>
      forall i | 0 <= i < |vs| ensures Harmless(vs[i], d.items[i]) {
        SnugIsHarmless(vs[i], d.items[i]);
      }
    case _ =>
  }

  // Three layers can be merged in either order, where both orders are defined and no item of the top layer is
  // lost in the middle one.
  lemma Associative(a: Json, b: Json, c: Json)
    requires Snug(a, b) && BothOrders(a, b, c)
    ensures SameEitherWay(a, b, c)
  {
    SnugIsHarmless(a, b);
    AssociativeIff(a, b);
  }

  // What becomes of one key of the destination.
  function Entry(fs: map<string, Json>, ds: map<string, Json>, k: string): Option<Json>
    requires k in fs || k in ds
  {
    if k !in fs then Some(ds[k]) else if k !in ds then Some(fs[k]) else Over(fs[k], ds[k])
  }

  // Without that condition the order can matter: an item laid over an empty list is lost, and is kept when the
  // empty list has first been laid over one with room.
  lemma OrderMatters()
    ensures var a, b, c := Arr([Obj(map["x" := Scalar(1)])]), Arr([]), Arr([EMPTY]);
            && Over(a, b).Some? && Over(b, c).Some?
            && Over(Over(a, b).value, c) == Some(c)
            && Over(a, Over(b, c).value) == Some(a)
  {
    var x := Obj(map["x" := Scalar(1)]);
    var a, b, c := Arr([x]), Arr([]), Arr([EMPTY]);
    EmptyIsIdentity(x.fields);
    assert Over(a, b).value.items == b.items;
    assert Over(b, c).value.items == c.items;
    assert Over(a, c).value.items == a.items;
  }
}
