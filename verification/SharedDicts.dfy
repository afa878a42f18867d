/**
 When `_merge` makes of a destination, on the store, what merging makes of values, whatever the source: exactly when
 no dict that merging can come to is found in the destination a second time.
 */
module SharedDicts {
  import opened DictStore
  import opened MergedValues
  import opened Options

  // The store after the new key `mark` has been written to one dict.
  ghost function Marked(store: Store, d: Dict, mark: string): Store
    requires d in store
  {
    store[d := store[d][mark := Plain(Scalar(0))]]
  }

  lemma {:induction false} LongerThanAll(keys: set<string>) returns (key: string)
    ensures forall k :: k in keys ==> |k| < |key|
    decreases |keys|
  {
    if keys == {} {
      return "";
    }
    var k :| k in keys;
    var rest := LongerThanAll(keys - {k});
    key := rest + k + "+";
    forall l | l in keys ensures |l| < |key| {
      if l != k {
        assert l in keys - {k};
      }
    }
  }

  lemma FreshKey(fields: map<string, Value>) returns (mark: string)
    ensures mark !in fields
  {
    mark := LongerThanAll(fields.Keys);
  }

  // -- sources that come to one dict --

  lemma OneKeyMerges(k: string, inner: Json, d: Dict, store: Store, order: Order, at: Path)
    requires IsOrder(order)
    ensures Merge(Obj(map[k := inner]), Ref(d), store, order, at) ==
            MergeEntry(inner, k, d, store, order, at + [Key(k)])
  {
    var value := Obj(map[k := inner]);
    var keys := order(at, value.fields);
    assert Enumerates(keys, value.fields);
    assert k in value.fields && k in keys;
    forall i | 0 <= i < |keys| ensures keys[i] == k {
      assert keys[i] in keys;
    }
    assert keys[0] == keys[|keys| - 1];
    assert keys == [k];
    var first := MergeEntry(inner, k, d, store, order, at + [Key(k)]);
    assert first.Merged? ==> MergeKeys(value, keys[1..], d, first.store, order, at) == first;
  }

  lemma OneKeyOver(k: string, inner: Json, fields: map<string, Json>)
    requires k in fields ==> Over(inner, fields[k]).Some?
    ensures Over(Obj(map[k := inner]), Obj(fields)) ==
            Some(Obj(fields[k := if k in fields then Over(inner, fields[k]).value else inner]))
  {
    var after := if k in fields then Over(inner, fields[k]).value else inner;
    assert k in map[k := inner];
    assert Over(Obj(map[k := inner]), Obj(fields)).value.fields == fields[k := after];
  }

  lemma {:induction false} OneItemMerges(i: nat, inner: Json, n: nat, items: seq<Value>, store: Store, order: Order,
    at: Path)
    requires IsOrder(order) && inner.Obj? && n <= i < |items|
    ensures MergeItems(RoomFor(i, inner), n, items, store, order, at) ==
            Merge(inner, items[i], store, order, at + [Index(i)])
    decreases i - n
  {
    if n < i {
      OneItemMerges(i, inner, n + 1, items, store, order, at);
    } else {
      var first := Merge(inner, items[i], store, order, at + [Index(i)]);
      assert first.Merged? ==> MergeItems(RoomFor(i, inner), i + 1, items, first.store, order, at) == first;
    }
  }

  lemma OneItemOver(i: nat, inner: Json, js: seq<Json>)
    requires i < |js| && inner.Obj? && Over(inner, js[i]).Some?
    ensures Over(RoomFor(i, inner), Arr(js)) == Some(Arr(js[i := Over(inner, js[i]).value]))
  {
    ListsOver(RoomFor(i, inner).items, js);
    assert Over(RoomFor(i, inner), Arr(js)).value.items == js[i := Over(inner, js[i]).value];
  }

  // A source all of which goes into one dict that merging can come to, under a new key.
  lemma {:induction false} Reaching(v: Value, j: Json, store: Store, d: Dict, mark: string, order: Order, at: Path)
    returns (value: Json)
    requires IsOrder(order) && StandsFor(v, j, store) && d in Live(v, j, store)
    requires d in store && mark !in store[d]
    ensures (value.Obj? || value.Arr?) && (v.Ref? ==> value.Obj?) && Over(value, j).Some?
    ensures MergeValue(value, v, store, order, at) == Merged(Marked(store, d, mark))
    decreases j
  {
    match v
    case Ref(e) =>
      if e == d {
        value := Obj(map[mark := Scalar(0)]);
        OneKeyMerges(mark, Scalar(0), d, store, order, at);
        OneKeyOver(mark, Scalar(0), j.fields);
      } else {
        var k :| k in j.fields && d in Live(store[e][k], j.fields[k], store);
        var inner := Reaching(store[e][k], j.fields[k], store, d, mark, order, at + [Key(k)]);
        value := Obj(map[k := inner]);
        OneKeyMerges(k, inner, e, store, order, at);
        OneKeyOver(k, inner, j.fields);
      }
    case List(items) =>
      var i :| 0 <= i < |items| && items[i].Ref? && d in Live(items[i], j.items[i], store);
      var inner := Reaching(items[i], j.items[i], store, d, mark, order, at + [Index(i)]);
      value := RoomFor(i, inner);
      OneItemMerges(i, inner, 0, items, store, order, at);
      OneItemOver(i, inner, j.items);
  }

  // -- where a dict is found twice, the new key shows in the other place --

  lemma {:induction false} MarkShows(v: Value, j: Json, store: Store, d: Dict, mark: string)
    requires StandsFor(v, j, store) && d in Foot(v, j, store) && d in store && mark !in store[d]
    ensures !StandsFor(v, j, Marked(store, d, mark))
    decreases j
  {
    match v
    case Ref(e) =>
      if e == d {
        assert mark in Marked(store, d, mark)[d] && mark !in j.fields;
      } else {
        var k :| k in j.fields && d in Foot(store[e][k], j.fields[k], store);
        MarkShows(store[e][k], j.fields[k], store, d, mark);
      }
    case List(items) =>
      var i :| 0 <= i < |items| && d in Foot(items[i], j.items[i], store);
      MarkShows(items[i], j.items[i], store, d, mark);
  }

  // A source that this destination is merged wrongly with.
  ghost predicate Breaks(value: Json, v: Value, j: Json, store: Store, order: Order, at: Path, d: Dict, mark: string)
    requires IsOrder(order)
  {
    && (value.Obj? || value.Arr?) && (v.Ref? ==> value.Obj?)
    && d in store && mark !in store[d]
    && MergeValue(value, v, store, order, at) == Merged(Marked(store, d, mark))
    && Over(value, j).Some? && !StandsFor(v, Over(value, j).value, Marked(store, d, mark))
  }

  lemma BreaksAtKey(e: Dict, j: Json, store: Store, order: Order, at: Path, k: string, inner: Json, d: Dict,
    mark: string)
    requires IsOrder(order) && StandsFor(Ref(e), j, store) && k in j.fields
    requires Breaks(inner, store[e][k], j.fields[k], store, order, at + [Key(k)], d, mark)
    ensures Breaks(Obj(map[k := inner]), Ref(e), j, store, order, at, d, mark)
  {
    OneKeyMerges(k, inner, e, store, order, at);
    OneKeyOver(k, inner, j.fields);
    assert Marked(store, d, mark)[e][k] == store[e][k];
  }

  lemma BreaksBesideKey(e: Dict, j: Json, store: Store, order: Order, at: Path, k: string, l: string, d: Dict)
    returns (value: Json, mark: string)
    requires IsOrder(order) && StandsFor(Ref(e), j, store) && k in j.fields && l in j.fields && k != l
    requires d in Live(store[e][k], j.fields[k], store) && d in Foot(store[e][l], j.fields[l], store)
    ensures Breaks(value, Ref(e), j, store, order, at, d, mark)
  {
    FootInStore(store[e][k], j.fields[k], store);
    mark := FreshKey(store[d]);
    var inner := Reaching(store[e][k], j.fields[k], store, d, mark, order, at + [Key(k)]);
    value := Obj(map[k := inner]);
    OneKeyMerges(k, inner, e, store, order, at);
    OneKeyOver(k, inner, j.fields);
    MarkShows(store[e][l], j.fields[l], store, d, mark);
    assert Marked(store, d, mark)[e][l] == store[e][l];
  }

  lemma BreaksAtItem(items: seq<Value>, j: Json, store: Store, order: Order, at: Path, i: nat, inner: Json, d: Dict,
    mark: string)
    requires IsOrder(order) && StandsFor(List(items), j, store) && i < |items| && items[i].Ref?
    requires Breaks(inner, items[i], j.items[i], store, order, at + [Index(i)], d, mark)
    ensures Breaks(RoomFor(i, inner), List(items), j, store, order, at, d, mark)
  {
    OneItemMerges(i, inner, 0, items, store, order, at);
    OneItemOver(i, inner, j.items);
  }

  lemma BreaksBesideItem(items: seq<Value>, j: Json, store: Store, order: Order, at: Path, i: nat, n: nat, d: Dict)
    returns (value: Json, mark: string)
    requires IsOrder(order) && StandsFor(List(items), j, store) && i < |items| && n < |items| && i != n && items[i].Ref?
    requires d in Live(items[i], j.items[i], store) && d in Foot(items[n], j.items[n], store)
    ensures Breaks(value, List(items), j, store, order, at, d, mark)
  {
    FootInStore(items[i], j.items[i], store);
    mark := FreshKey(store[d]);
    var inner := Reaching(items[i], j.items[i], store, d, mark, order, at + [Index(i)]);
    value := RoomFor(i, inner);
    OneItemMerges(i, inner, 0, items, store, order, at);
    OneItemOver(i, inner, j.items);
    MarkShows(items[n], j.items[n], store, d, mark);
  }

  lemma {:induction false} Breaking(v: Value, j: Json, store: Store, order: Order, at: Path)
    returns (value: Json, d: Dict, mark: string)
    requires IsOrder(order) && StandsFor(v, j, store) && !Apart(v, j, store)
    ensures Breaks(value, v, j, store, order, at, d, mark)
    decreases j
  {
    match v
    case Ref(e) =>
      if k :| k in j.fields && !Apart(store[e][k], j.fields[k], store) {
        var inner;
        inner, d, mark := Breaking(store[e][k], j.fields[k], store, order, at + [Key(k)]);
        value := Obj(map[k := inner]);
        BreaksAtKey(e, j, store, order, at, k, inner, d, mark);
      } else {
        var k, l :| k in j.fields && l in j.fields && k != l &&
          !(Live(store[e][k], j.fields[k], store) !! Foot(store[e][l], j.fields[l], store));
        d :| d in Live(store[e][k], j.fields[k], store) && d in Foot(store[e][l], j.fields[l], store);
        value, mark := BreaksBesideKey(e, j, store, order, at, k, l, d);
      }
    case List(items) =>
      if i :| 0 <= i < |items| && items[i].Ref? && !Apart(items[i], j.items[i], store) {
        var inner;
        inner, d, mark := Breaking(items[i], j.items[i], store, order, at + [Index(i)]);
        value := RoomFor(i, inner);
        BreaksAtItem(items, j, store, order, at, i, inner, d, mark);
      } else {
        var i, n :| 0 <= i < |items| && 0 <= n < |items| && i != n && items[i].Ref? &&
          !(Live(items[i], j.items[i], store) !! Foot(items[n], j.items[n], store));
        d :| d in Live(items[i], j.items[i], store) && d in Foot(items[n], j.items[n], store);
        value, mark := BreaksBesideItem(items, j, store, order, at, i, n, d);
      }
  }

  // -- the exact condition --

  // What merging leaves in the store stands for the merge of values.
  ghost predicate Right(source: map<string, Json>, d: Dict, fields: map<string, Json>, store: Store, order: Order)
    requires IsOrder(order) && Over(Obj(source), Obj(fields)).Some?
  {
    var outcome := Merge(Obj(source), Ref(d), store, order, []);
    outcome.Merged? && StandsFor(Ref(d), Over(Obj(source), Obj(fields)).value, outcome.store)
  }

  ghost predicate RightForAll(d: Dict, fields: map<string, Json>, store: Store, order: Order)
    requires IsOrder(order)
  {
    forall source :: Over(Obj(source), Obj(fields)).Some? ==> Right(source, d, fields, store, order)
  }

  // Merging is right for every source that can be merged, in whatever order its keys come, exactly when no dict that
  // merging can come to is found in the destination a second time.
  lemma RightIff(d: Dict, fields: map<string, Json>, store: Store, order: Order)
    requires IsOrder(order) && StandsFor(Ref(d), Obj(fields), store) && Owned(Ref(d), Obj(fields), store)
    ensures RightForAll(d, fields, store, order) <==> Apart(Ref(d), Obj(fields), store)
  {
    if Apart(Ref(d), Obj(fields), store) {
      forall source | Over(Obj(source), Obj(fields)).Some? ensures Right(source, d, fields, store, order) {
        MergeIsOver(Obj(source), Ref(d), Obj(fields), store, order, []);
      }
    } else {
      var value, e, mark := Breaking(Ref(d), Obj(fields), store, order, []);
      assert !Right(value.fields, d, fields, store, order);
    }
  }

  ghost predicate NoDictTwice(v: Value, j: Json, store: Store)
    requires StandsFor(v, j, store)
    decreases j
  {
    match v
    case Ref(d) =>
      && (forall k :: k in j.fields ==> NoDictTwice(store[d][k], j.fields[k], store))
      && (forall k, l :: k in j.fields && l in j.fields && k != l ==>
            Foot(store[d][k], j.fields[k], store) !! Foot(store[d][l], j.fields[l], store))
    case List(items) =>
      && (forall i :: 0 <= i < |items| ==> NoDictTwice(items[i], j.items[i], store))
      && (forall i, n :: 0 <= i < |items| && 0 <= n < |items| && i != n ==>
            Foot(items[i], j.items[i], store) !! Foot(items[n], j.items[n], store))
    case Plain(_) => true
  }

  // No list is an item of a list.
  predicate FlatLists(j: Json) {
    match j
    case Obj(fs) => forall k :: k in fs ==> FlatLists(fs[k])
    case Arr(items) => forall i :: 0 <= i < |items| ==> !items[i].Arr? && FlatLists(items[i])
    case Text(_) => true
    case Scalar(_) => true
  }

  lemma {:induction false} LiveIsFoot(v: Value, j: Json, store: Store)
    requires StandsFor(v, j, store) && FlatLists(j)
    ensures Live(v, j, store) == Foot(v, j, store)
    decreases j
  {
    match v
    case Ref(d) =>
      forall k | k in j.fields ensures Live(store[d][k], j.fields[k], store) == Foot(store[d][k], j.fields[k], store) {
        LiveIsFoot(store[d][k], j.fields[k], store);
      }
    case List(items) =>
      forall i | 0 <= i < |items| ensures Live(items[i], j.items[i], store) == Foot(items[i], j.items[i], store) {
        LiveIsFoot(items[i], j.items[i], store);
      }
    case _ =>
  }

  // Without lists in lists that is no dict at all twice; in general it is less: a dict may be found twice inside lists
  // in lists, where merging anything but {} raises.
  lemma {:induction false} ApartIffNoDictTwice(v: Value, j: Json, store: Store)
    requires StandsFor(v, j, store)
    ensures NoDictTwice(v, j, store) ==> Apart(v, j, store)
    ensures FlatLists(j) && Apart(v, j, store) ==> NoDictTwice(v, j, store)
    decreases j
  {
    match v
    case Ref(d) =>
      forall k | k in j.fields
        ensures NoDictTwice(store[d][k], j.fields[k], store) ==> Apart(store[d][k], j.fields[k], store)
        ensures FlatLists(j) ==> Live(store[d][k], j.fields[k], store) == Foot(store[d][k], j.fields[k], store)
        ensures FlatLists(j) && Apart(store[d][k], j.fields[k], store) ==> NoDictTwice(store[d][k], j.fields[k], store)
      {
        ApartIffNoDictTwice(store[d][k], j.fields[k], store);
        if FlatLists(j) {
          LiveIsFoot(store[d][k], j.fields[k], store);
        }
      }
    case List(items) =>
      forall i | 0 <= i < |items|
        ensures NoDictTwice(items[i], j.items[i], store) ==> Apart(items[i], j.items[i], store)
        ensures FlatLists(j) ==> Live(items[i], j.items[i], store) == Foot(items[i], j.items[i], store)
        ensures FlatLists(j) && Apart(items[i], j.items[i], store) ==> NoDictTwice(items[i], j.items[i], store)
      {
        ApartIffNoDictTwice(items[i], j.items[i], store);
        if FlatLists(j) {
          LiveIsFoot(items[i], j.items[i], store);
        }
      }
    case _ =>
  }

  // -- the source can be written to --

  lemma TwoKeysMerge(value: Json, k: string, l: string, dest: Dict, store: Store, next: Store, order: Order, at: Path)
    requires IsOrder(order) && value.Obj? && value.fields.Keys == {k, l} && order(at, value.fields) == [k, l]
    requires MergeEntry(value.fields[k], k, dest, store, order, at + [Key(k)]) == Merged(next)
    requires MergeEntry(value.fields[l], l, dest, next, order, at + [Key(l)]) == IntoSource
    ensures Merge(value, Ref(dest), store, order, at) == IntoSource
  {
    assert k in value.fields && [k, l][1..] == [l];
    assert MergeKeys(value, [l], dest, next, order, at) == IntoSource;
    assert MergeKeys(value, [k, l], dest, store, order, at) == IntoSource;
  }

  // {"x": inner} laid over an entry that is this dict is `inner` laid over, or put in as, the entry "x" of the dict.
  lemma GoesIn(k: string, inner: Json, d: Dict, dest: Dict, store: Store, order: Order, at: Path)
    requires IsOrder(order) && dest in store && k in store[dest] && store[dest][k] == Ref(d)
    ensures MergeEntry(Obj(map["x" := inner]), k, dest, store, order, at) ==
            MergeEntry(inner, "x", d, store, order, at + [Key("x")])
  {
    OneKeyMerges("x", inner, d, store, order, at);
  }

  // Once {"x": first} has gone into a dict, {"x": second} goes on into `first`, which the source still holds.
  lemma SecondGoesOn(k: string, l: string, first: Json, second: Json, d: Dict, dest: Dict, store: Store, order: Order,
    at: Path)
    requires IsOrder(order) && d != dest && d in store && dest in store && k in store[dest] && l in store[dest]
    requires store[d] == map[] && store[dest][k] == store[dest][l] == Ref(d)
    requires first.Obj? && second.Obj? && second != EMPTY
    ensures MergeEntry(Obj(map["x" := first]), k, dest, store, order, at + [Key(k)]) ==
            Merged(store[d := map["x" := Plain(first)]])
    ensures MergeEntry(Obj(map["x" := second]), l, dest, store[d := map["x" := Plain(first)]], order, at + [Key(l)]) ==
            IntoSource
  {
    var next := store[d := map["x" := Plain(first)]];
    GoesIn(k, first, d, dest, store, order, at + [Key(k)]);
    GoesIn(l, second, d, dest, next, order, at + [Key(l)]);
    assert Merge(second, Plain(first), next, order, at + [Key(l)] + [Key("x")]) == IntoSource;
  }

  // Where one dict is found twice, what the source puts in at the first place is merged into at the second: whichever
  // of its keys comes first, one of the source's own dicts is written to.
  lemma SourceIsWrittenTo(y: Json, z: Json, d: Dict, dest: Dict, store: Store, order: Order)
    requires IsOrder(order) && d != dest && d in store && dest in store
    requires store[d] == map[] && store[dest] == map["p" := Ref(d), "q" := Ref(d)]
    requires y.Obj? && y != EMPTY && z.Obj? && z != EMPTY
    ensures Merge(Obj(map["p" := Obj(map["x" := y]), "q" := Obj(map["x" := z])]), Ref(dest), store, order, []) ==
            IntoSource
  {
    var source := Obj(map["p" := Obj(map["x" := y]), "q" := Obj(map["x" := z])]);
    var keys := order([], source.fields);
    assert Enumerates(keys, source.fields);
    TwoKeys(keys);
    if keys == ["p", "q"] {
      SecondGoesOn("p", "q", y, z, d, dest, store, order, []);
      TwoKeysMerge(source, "p", "q", dest, store, store[d := map["x" := Plain(y)]], order, []);
    } else {
      SecondGoesOn("q", "p", z, y, d, dest, store, order, []);
      TwoKeysMerge(source, "q", "p", dest, store, store[d := map["x" := Plain(z)]], order, []);
    }
  }

  lemma {:induction false} DistinctCount(keys: seq<string>)
    requires forall i, j :: 0 <= i < j < |keys| ==> keys[i] != keys[j]
    ensures |Among(keys)| == |keys|
  {
    if keys != [] {
      AmongRest(keys);
      DistinctCount(keys[1..]);
    }
  }

  lemma TwoKeys(keys: seq<string>)
    requires forall k :: k in keys <==> k in {"p", "q"}
    requires forall i, j :: 0 <= i < j < |keys| ==> keys[i] != keys[j]
    ensures keys == ["p", "q"] || keys == ["q", "p"]
  {
    DistinctCount(keys);
    assert Among(keys) == {"p", "q"};
    assert keys[0] in keys && keys[1] in keys;
  }
}
