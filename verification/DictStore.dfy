/**
 `ParserUtils._merge` of src/parser/parser.py on a store of dicts, in which one dict may be found in several places:
 what it writes, and that this is the merge of values where no dict it can come to is found twice.
 */
module DictStore {
  import opened MergedValues
  import opened Options

  class Dict {
    var fields: map<string, Value>

    constructor ()
      ensures fields == map[]
    {
      fields := map[];
    }
  }

  // Lists are never written to, so they are values; what is Plain belongs to the source, or is a leaf.
  datatype Value = Ref(dict: Dict) | List(items: seq<Value>) | Plain(json: Json)

  type Store = map<Dict, map<string, Value>>

  function FieldsOf(store: Store, d: Dict): map<string, Value> {
    if d in store then store[d] else map[]
  }

  // -- merging --

  // The order in which each dict of the source, by its path, gives its keys.
  type Order = (Path, map<string, Json>) -> seq<string>

  ghost predicate Enumerates(keys: seq<string>, fields: map<string, Json>) {
    && (forall k :: k in keys <==> k in fields)
    && (forall i, j :: 0 <= i < j < |keys| ==> keys[i] != keys[j])
  }

  ghost predicate IsOrder(order: Order) {
    forall at, fields :: Enumerates(order(at, fields), fields)
  }

  ghost function Listed(fields: map<string, Json>): (keys: seq<string>)
    ensures Enumerates(keys, fields)
    decreases |fields|
  {
    if fields == map[] then []
    else
      var k :| k in fields;
      var rest := map l | l in fields && l != k :: fields[l];
      assert rest.Keys == fields.Keys - {k};
      [k] + Listed(rest)
  }

  // There is such an order.
  lemma SomeOrder() returns (order: Order)
    ensures IsOrder(order)
  {
    order := (at, fields) => Listed(fields);
  }

  // Merging may come to a dict that was taken over from the source; it would then write to the source.
  datatype Outcome = Merged(store: Store) | Raises | IntoSource

  ghost function Merge(ob1: Json, ob2: Value, store: Store, order: Order, at: Path): Outcome
    requires IsOrder(order)
    decreases ob1, 2, 0
  {
    if !ob1.Obj? then Raises
    else if ob1.fields == map[] then Merged(store)
    else
      match ob2
      case Ref(d) => MergeKeys(ob1, order(at, ob1.fields), d, store, order, at)
      case List(_) => Raises
      case Plain(json) => if json.Obj? then IntoSource else Raises
  }

  ghost function MergeKeys(ob1: Json, keys: seq<string>, d: Dict, store: Store, order: Order, at: Path): Outcome
    requires IsOrder(order) && ob1.Obj? && forall k :: k in keys ==> k in ob1.fields
    decreases ob1, 1, |keys|
  {
    if keys == [] then Merged(store)
    else
      var first := MergeEntry(ob1.fields[keys[0]], keys[0], d, store, order, at + [Key(keys[0])]);
      if first.Merged? then MergeKeys(ob1, keys[1..], d, first.store, order, at) else first
  }

  ghost function MergeEntry(value: Json, key: string, d: Dict, store: Store, order: Order, at: Path): Outcome
    requires IsOrder(order)
    decreases value, 4, 0
  {
    if (value.Obj? || value.Arr?) && key in FieldsOf(store, d) then
      MergeValue(value, FieldsOf(store, d)[key], store, order, at)
    else Merged(store[d := FieldsOf(store, d)[key := Plain(value)]])
  }

  ghost function MergeValue(value: Json, next: Value, store: Store, order: Order, at: Path): Outcome
    requires IsOrder(order) && (value.Obj? || value.Arr?)
    decreases value, 3, 0
  {
    if value.Obj? then Merge(value, next, store, order, at) else MergeList(value, next, store, order, at)
  }

  predicate AllDicts(items: seq<Json>) {
    forall i :: 0 <= i < |items| ==> items[i].Obj?
  }

  predicate EmptyUpTo(items: seq<Json>, n: nat) {
    forall i :: 0 <= i < |items| && i < n ==> items[i] == EMPTY
  }

  ghost function MergeList(value: Json, next: Value, store: Store, order: Order, at: Path): Outcome
    requires IsOrder(order) && value.Arr?
    decreases value, 1, 0
  {
    match next
    case List(items) => MergeItems(value, 0, items, store, order, at)
    case Ref(d) => if AllDicts(value.items) && FieldsOf(store, d) == map[] then Merged(store) else Raises
    case Plain(json) =>
      match json
      case Arr(js) => MergeItems(value, 0, Plains(js), store, order, at)
      case Obj(fields) => if AllDicts(value.items) && fields == map[] then Merged(store) else Raises
      case Text(t) => if AllDicts(value.items) && EmptyUpTo(value.items, |t|) then Merged(store) else Raises
      case Scalar(_) => Raises
  }

  function Plains(js: seq<Json>): seq<Value> {
    seq(|js|, i requires 0 <= i < |js| => Plain(js[i]))
  }

  // What lies beyond the end of the destination's list goes into a new dict that nobody keeps.
  ghost function MergeItems(value: Json, i: nat, items: seq<Value>, store: Store, order: Order, at: Path): Outcome
    requires IsOrder(order) && value.Arr? && i <= |value.items|
    decreases value, 0, |value.items| - i
  {
    if i == |value.items| then Merged(store)
    else if !value.items[i].Obj? then Raises
    else if i >= |items| then MergeItems(value, i + 1, items, store, order, at)
    else
      var first := Merge(value.items[i], items[i], store, order, at + [Index(i)]);
      if first.Merged? then MergeItems(value, i + 1, items, first.store, order, at) else first
  }

  // -- what a value in the store stands for --

  ghost predicate StandsFor(v: Value, j: Json, store: Store)
    decreases j
  {
    match v
    case Ref(d) =>
      && d in store && j.Obj? && store[d].Keys == j.fields.Keys
      && forall k :: k in j.fields ==> StandsFor(store[d][k], j.fields[k], store)
    case List(items) =>
      && j.Arr? && |items| == |j.items|
      && forall i :: 0 <= i < |items| ==> StandsFor(items[i], j.items[i], store)
    case Plain(json) => json == j
  }

  // No part of it belongs to a source.
  ghost predicate Owned(v: Value, j: Json, store: Store)
    requires StandsFor(v, j, store)
    decreases j
  {
    match v
    case Ref(d) => forall k :: k in j.fields ==> Owned(store[d][k], j.fields[k], store)
    case List(items) => forall i :: 0 <= i < |items| ==> Owned(items[i], j.items[i], store)
    case Plain(_) => IsLeaf(j)
  }

  // The dicts it is made of.
  ghost function Foot(v: Value, j: Json, store: Store): set<Dict>
    requires StandsFor(v, j, store)
    decreases j
  {
    match v
    case Ref(d) => {d} + set k, e | k in j.fields && e in Foot(store[d][k], j.fields[k], store) :: e
    case List(items) => set i, e | 0 <= i < |items| && e in Foot(items[i], j.items[i], store) :: e
    case Plain(_) => {}
  }

  // Those of them that merging can come to: never those in a list inside a list.
  ghost function Live(v: Value, j: Json, store: Store): (live: set<Dict>)
    requires StandsFor(v, j, store)
    ensures live <= Foot(v, j, store)
    decreases j
  {
    match v
    case Ref(d) => {d} + set k, e | k in j.fields && e in Live(store[d][k], j.fields[k], store) :: e
    case List(items) => set i, e | 0 <= i < |items| && items[i].Ref? && e in Live(items[i], j.items[i], store) :: e
    case Plain(_) => {}
  }

  // No dict that merging can come to is found in a second place.
  ghost predicate Apart(v: Value, j: Json, store: Store)
    requires StandsFor(v, j, store)
    decreases j
  {
    match v
    case Ref(d) =>
      && (forall k :: k in j.fields ==> Apart(store[d][k], j.fields[k], store))
      && (forall k, l :: k in j.fields && l in j.fields && k != l ==>
            Live(store[d][k], j.fields[k], store) !! Foot(store[d][l], j.fields[l], store))
    case List(items) =>
      && (forall i :: 0 <= i < |items| && items[i].Ref? ==> Apart(items[i], j.items[i], store))
      && (forall i, n :: 0 <= i < |items| && 0 <= n < |items| && i != n && items[i].Ref? ==>
            Live(items[i], j.items[i], store) !! Foot(items[n], j.items[n], store))
    case Plain(_) => true
  }

  // -- frames --

  lemma FootOfKey(d: Dict, j: Json, store: Store, k: string)
    requires StandsFor(Ref(d), j, store) && k in j.fields
    ensures Foot(store[d][k], j.fields[k], store) <= Foot(Ref(d), j, store)
    ensures Live(store[d][k], j.fields[k], store) <= Live(Ref(d), j, store)
  {
  }

  lemma FootOfItem(items: seq<Value>, j: Json, store: Store, i: nat)
    requires StandsFor(List(items), j, store) && i < |items|
    ensures Foot(items[i], j.items[i], store) <= Foot(List(items), j, store)
    ensures items[i].Ref? ==> Live(items[i], j.items[i], store) <= Live(List(items), j, store)
  {
  }

  ghost predicate Agree(dicts: set<Dict>, s: Store, t: Store) {
    forall d :: d in dicts ==> d in s && d in t && s[d] == t[d]
  }

  lemma {:induction false} FootInStore(v: Value, j: Json, store: Store)
    requires StandsFor(v, j, store)
    ensures Foot(v, j, store) <= store.Keys
    decreases j
  {
    match v
    case Ref(d) =>
      forall k | k in j.fields ensures Foot(store[d][k], j.fields[k], store) <= store.Keys {
        FootInStore(store[d][k], j.fields[k], store);
      }
    case List(items) =>
      forall i | 0 <= i < |items| ensures Foot(items[i], j.items[i], store) <= store.Keys {
        FootInStore(items[i], j.items[i], store);
      }
    case _ =>
  }

  lemma {:induction false} SameFoot(v: Value, j: Json, s: Store, t: Store)
    requires StandsFor(v, j, s) && Agree(Foot(v, j, s), s, t)
    ensures StandsFor(v, j, t) && Foot(v, j, t) == Foot(v, j, s)
    decreases j
  {
    match v
    case Ref(d) =>
      forall k | k in j.fields
        ensures StandsFor(s[d][k], j.fields[k], t) && Foot(s[d][k], j.fields[k], t) == Foot(s[d][k], j.fields[k], s)
      {
        FootOfKey(d, j, s, k);
        SameFoot(s[d][k], j.fields[k], s, t);
      }
    case List(items) =>
      forall i | 0 <= i < |items|
        ensures StandsFor(items[i], j.items[i], t) && Foot(items[i], j.items[i], t) == Foot(items[i], j.items[i], s)
      {
        FootOfItem(items, j, s, i);
        SameFoot(items[i], j.items[i], s, t);
      }
    case _ =>
  }

  lemma {:induction false} SameLive(v: Value, j: Json, s: Store, t: Store)
    requires StandsFor(v, j, s) && Agree(Foot(v, j, s), s, t) && StandsFor(v, j, t)
    ensures Live(v, j, t) == Live(v, j, s)
    decreases j
  {
    match v
    case Ref(d) =>
      forall k | k in j.fields ensures Live(s[d][k], j.fields[k], t) == Live(s[d][k], j.fields[k], s) {
        FootOfKey(d, j, s, k);
        SameLive(s[d][k], j.fields[k], s, t);
      }
    case List(items) =>
      forall i | 0 <= i < |items| ensures Live(items[i], j.items[i], t) == Live(items[i], j.items[i], s) {
        FootOfItem(items, j, s, i);
        SameLive(items[i], j.items[i], s, t);
      }
    case _ =>
  }

  lemma {:induction false} SameOwned(v: Value, j: Json, s: Store, t: Store)
    requires StandsFor(v, j, s) && Agree(Foot(v, j, s), s, t) && StandsFor(v, j, t)
    ensures Owned(v, j, t) == Owned(v, j, s)
    decreases j
  {
    match v
    case Ref(d) =>
      forall k | k in j.fields ensures Owned(s[d][k], j.fields[k], t) == Owned(s[d][k], j.fields[k], s) {
        FootOfKey(d, j, s, k);
        SameOwned(s[d][k], j.fields[k], s, t);
      }
    case List(items) =>
      forall i | 0 <= i < |items| ensures Owned(items[i], j.items[i], t) == Owned(items[i], j.items[i], s) {
        FootOfItem(items, j, s, i);
        SameOwned(items[i], j.items[i], s, t);
      }
    case _ =>
  }

  lemma {:induction false} SameApart(v: Value, j: Json, s: Store, t: Store)
    requires StandsFor(v, j, s) && Agree(Foot(v, j, s), s, t) && StandsFor(v, j, t)
    ensures Apart(v, j, t) == Apart(v, j, s)
    decreases j
  {
    match v
    case Ref(d) =>
      forall k | k in j.fields
        ensures Apart(s[d][k], j.fields[k], t) == Apart(s[d][k], j.fields[k], s)
        ensures Foot(s[d][k], j.fields[k], t) == Foot(s[d][k], j.fields[k], s)
        ensures Live(s[d][k], j.fields[k], t) == Live(s[d][k], j.fields[k], s)
      {
        FootOfKey(d, j, s, k);
        SameFoot(s[d][k], j.fields[k], s, t);
        SameLive(s[d][k], j.fields[k], s, t);
        SameApart(s[d][k], j.fields[k], s, t);
      }
    case List(items) =>
      forall i | 0 <= i < |items|
        ensures Apart(items[i], j.items[i], t) == Apart(items[i], j.items[i], s)
        ensures Foot(items[i], j.items[i], t) == Foot(items[i], j.items[i], s)
        ensures Live(items[i], j.items[i], t) == Live(items[i], j.items[i], s)
      {
        FootOfItem(items, j, s, i);
        SameFoot(items[i], j.items[i], s, t);
        SameLive(items[i], j.items[i], s, t);
        SameApart(items[i], j.items[i], s, t);
      }
    case _ =>
  }

  // Where two stores agree on the dicts of a value, it is the same in both.
  lemma SameInBoth(v: Value, j: Json, s: Store, t: Store)
    requires StandsFor(v, j, s) && Agree(Foot(v, j, s), s, t)
    ensures StandsFor(v, j, t) && Foot(v, j, t) == Foot(v, j, s) && Live(v, j, t) == Live(v, j, s)
    ensures Owned(v, j, t) == Owned(v, j, s) && Apart(v, j, t) == Apart(v, j, s)
  {
    SameFoot(v, j, s, t);
    SameLive(v, j, s, t);
    SameOwned(v, j, s, t);
    SameApart(v, j, s, t);
  }

  lemma {:induction false} StandsForOne(v: Value, j: Json, j': Json, store: Store)
    requires StandsFor(v, j, store) && StandsFor(v, j', store)
    ensures j == j'
    decreases j
  {
    match v
    case Ref(d) =>
      forall k | k in j.fields ensures j.fields[k] == j'.fields[k] {
        StandsForOne(store[d][k], j.fields[k], j'.fields[k], store);
      }
      assert j.fields == j'.fields;
    case List(items) =>
      forall i | 0 <= i < |items| ensures j.items[i] == j'.items[i] {
        StandsForOne(items[i], j.items[i], j'.items[i], store);
      }
      assert j.items == j'.items;
    case _ =>
  }

  lemma {:induction false} StandsInside(v: Value, j: Json, store: Store, d: Dict) returns (inner: Json)
    requires StandsFor(v, j, store) && d in Foot(v, j, store)
    ensures StandsFor(Ref(d), inner, store) && (inner == j || inner < j)
    decreases j
  {
    if v == Ref(d) {
      return j;
    }
    match v
    case Ref(e) =>
      var k :| k in j.fields && d in Foot(store[e][k], j.fields[k], store);
      inner := StandsInside(store[e][k], j.fields[k], store, d);
    case List(items) =>
      var i :| 0 <= i < |items| && d in Foot(items[i], j.items[i], store);
      inner := StandsInside(items[i], j.items[i], store, d);
  }

  // What stands for a value has no dict inside itself.
  lemma NotInItself(d: Dict, j: Json, store: Store, k: string)
    requires StandsFor(Ref(d), j, store) && k in j.fields
    ensures d !in Foot(store[d][k], j.fields[k], store)
  {
    if d in Foot(store[d][k], j.fields[k], store) {
      var inner := StandsInside(store[d][k], j.fields[k], store, d);
      StandsForOne(Ref(d), j, inner, store);
      assert false;
    }
  }

  // -- without a second place, merging is Over --

  ghost predicate OnlyIn(dicts: set<Dict>, s: Store, t: Store) {
    t.Keys == s.Keys && forall d :: d in s && d !in dicts ==> t[d] == s[d]
  }

  // What merging has made of it in t: it stands for `after`, is made of dicts it was made of, and no dict that merging
  // cannot come to has changed.
  ghost predicate Became(v: Value, j: Json, s: Store, after: Json, t: Store)
    requires StandsFor(v, j, s)
  {
    && OnlyIn(Live(v, j, s), s, t)
    && StandsFor(v, after, t) && Foot(v, after, t) <= Foot(v, j, s)
  }

  ghost predicate AsOver(outcome: Outcome, value: Json, v: Value, j: Json, s: Store)
    requires StandsFor(v, j, s)
  {
    match outcome
    case Merged(t) => Over(value, j).Some? && Became(v, j, s, Over(value, j).value, t)
    case Raises => Over(value, j).None?
    case IntoSource => false
  }

  // Laying the entries fs of a source over a dict that stands for ds in s0; what each entry of the dict is made of, and
  // what merging can come to.
  datatype Laying = Laying(fs: map<string, Json>, d: Dict, ds: map<string, Json>, s0: Store,
    feet: map<string, set<Dict>>, live: set<Dict>)

  ghost predicate Sound(w: Laying) {
    && w.fs != map[] && StandsFor(Ref(w.d), Obj(w.ds), w.s0)
    && Owned(Ref(w.d), Obj(w.ds), w.s0) && Apart(Ref(w.d), Obj(w.ds), w.s0)
    && w.feet == Feet(w.d, w.ds, w.s0) && w.live == Live(Ref(w.d), Obj(w.ds), w.s0)
  }

  ghost function Feet(d: Dict, ds: map<string, Json>, s: Store): map<string, set<Dict>>
    requires StandsFor(Ref(d), Obj(ds), s)
  {
    map k | k in ds :: Foot(s[d][k], ds[k], s)
  }

  ghost function FootAt(w: Laying, k: string): set<Dict> {
    if k in w.feet then w.feet[k] else {}
  }

  // In s, one entry of the dict stands for a value, and is made of dicts it was made of.
  ghost predicate Kept(w: Laying, j: Json, s: Store, k: string) {
    && w.d in s && k in s[w.d]
    && StandsFor(s[w.d][k], j, s) && Foot(s[w.d][k], j, s) <= FootAt(w, k)
  }

  ghost predicate Untouched(w: Laying, s: Store, k: string) {
    && w.d in w.s0 && k in w.s0[w.d] && w.d in s && k in s[w.d]
    && s[w.d][k] == w.s0[w.d][k] && Agree(FootAt(w, k), w.s0, s)
  }

  // One entry while the keys `todo` of the source are still to be merged.
  ghost predicate EntryNow(w: Laying, todo: set<string>, now: map<string, Json>, s: Store, k: string) {
    && k in now && Kept(w, now[k], s, k)
    && (if k in w.fs && k !in todo then Entry(w.fs, w.ds, k) == Some(now[k]) else k in w.ds && now[k] == w.ds[k])
    && (k in todo ==> Untouched(w, s, k))
  }

  ghost function InOrder(w: Laying, todo: set<string>, now: map<string, Json>, s: Store): set<string> {
    set k | k in now && EntryNow(w, todo, now, s, k)
  }

  ghost predicate Midway(w: Laying, todo: set<string>, now: map<string, Json>, s: Store) {
    && todo <= w.fs.Keys && now.Keys == w.ds.Keys + (w.fs.Keys - todo)
    && OnlyIn(w.live, w.s0, s) && w.d in s && s[w.d].Keys == now.Keys
    && InOrder(w, todo, now, s) == now.Keys
  }

  lemma MidwayStart(w: Laying)
    requires Sound(w)
    ensures Midway(w, w.fs.Keys, w.ds, w.s0)
  {
    forall k | k in w.ds ensures EntryNow(w, w.fs.Keys, w.ds, w.s0, k) {
      FootInStore(w.s0[w.d][k], w.ds[k], w.s0);
    }
  }

  lemma MidwayDone(w: Laying, now: map<string, Json>, s: Store)
    ensures Sound(w) && Midway(w, {}, now, s) ==> AsOver(Merged(s), Obj(w.fs), Ref(w.d), Obj(w.ds), w.s0)
  {
    if Sound(w) && Midway(w, {}, now, s) {
      EntriesDone(w, now, s);
      EntriesTogether(w.fs, w.ds, now);
      DictTogether(w.d, now, s, Foot(Ref(w.d), Obj(w.ds), w.s0));
    }
  }

  lemma EntriesDone(w: Laying, now: map<string, Json>, s: Store)
    requires StandsFor(Ref(w.d), Obj(w.ds), w.s0) && w.feet == Feet(w.d, w.ds, w.s0)
    requires InOrder(w, {}, now, s) == now.Keys
    ensures w.d in Foot(Ref(w.d), Obj(w.ds), w.s0)
    ensures forall k :: k in now ==>
              if k in w.fs then Entry(w.fs, w.ds, k) == Some(now[k]) else k in w.ds && now[k] == w.ds[k]
    ensures forall k :: k in now ==> AmongThose(w.d, now, s, Foot(Ref(w.d), Obj(w.ds), w.s0), k)
  {
    forall k | k in now ensures EntryNow(w, {}, now, s, k) && FootAt(w, k) <= Foot(Ref(w.d), Obj(w.ds), w.s0) {
      assert k in InOrder(w, {}, now, s);
      if k in w.ds {
        FootOfKey(w.d, Obj(w.ds), w.s0, k);
      }
    }
  }

  ghost predicate AmongThose(d: Dict, now: map<string, Json>, s: Store, foot: set<Dict>, k: string) {
    && d in s && k in s[d] && k in now
    && StandsFor(s[d][k], now[k], s) && Foot(s[d][k], now[k], s) <= foot
  }

  lemma DictTogether(d: Dict, now: map<string, Json>, s: Store, foot: set<Dict>)
    requires d in s && s[d].Keys == now.Keys && d in foot && forall k :: k in now ==> AmongThose(d, now, s, foot, k)
    ensures StandsFor(Ref(d), Obj(now), s) && Foot(Ref(d), Obj(now), s) <= foot
  {
    forall k | k in now ensures StandsFor(s[d][k], now[k], s) && Foot(s[d][k], now[k], s) <= foot {
      assert AmongThose(d, now, s, foot, k);
    }
  }

  lemma EntriesTogether(fs: map<string, Json>, ds: map<string, Json>, now: map<string, Json>)
    requires fs != map[] && now.Keys == ds.Keys + (fs.Keys - {})
    requires forall k :: k in now ==> if k in fs then Entry(fs, ds, k) == Some(now[k]) else k in ds && now[k] == ds[k]
    ensures Over(Obj(fs), Obj(ds)) == Some(Obj(now))
  {
    assert Over(Obj(fs), Obj(ds)).value.fields == now;
  }

  lemma EntryRaises(fs: map<string, Json>, ds: map<string, Json>, k: string)
    requires k in fs && Entry(fs, ds, k).None?
    ensures Over(Obj(fs), Obj(ds)).None?
  {
    assert k in ds && Over(fs[k], ds[k]).None?;
  }

  // From s to t one entry has been merged; the dicts of the others are as they were.
  ghost predicate OneEntry(w: Laying, s: Store, key: string, t: Store) {
    && OnlyIn(w.live, s, t) && w.d in s && w.d in t && t[w.d].Keys == s[w.d].Keys + {key}
    && (forall k :: k in s[w.d] && k != key ==> t[w.d][k] == s[w.d][k] && Agree(FootAt(w, k), s, t))
  }

  lemma EntryOn(w: Laying, todo: set<string>, now: map<string, Json>, s: Store, key: string, next: map<string, Json>,
    t: Store, k: string)
    requires EntryNow(w, todo, now, s, k) && k != key && k in next && next[k] == now[k]
    requires w.d in t && k in t[w.d] && t[w.d][k] == s[w.d][k] && Agree(FootAt(w, k), s, t)
    ensures EntryNow(w, todo - {key}, next, t, k)
  {
    SameFoot(s[w.d][k], now[k], s, t);
  }

  lemma EntriesOn(w: Laying, todo: set<string>, now: map<string, Json>, s: Store, key: string,
    next: map<string, Json>, t: Store)
    requires key in next && next == now[key := next[key]] && key in w.fs && Entry(w.fs, w.ds, key) == Some(next[key])
    requires w.d in s && s[w.d].Keys == now.Keys && InOrder(w, todo, now, s) == now.Keys
    requires OneEntry(w, s, key, t) && Kept(w, next[key], t, key)
    ensures InOrder(w, todo - {key}, next, t) == next.Keys
  {
    forall k | k in next ensures EntryNow(w, todo - {key}, next, t, k) {
      if k != key {
        assert k in InOrder(w, todo, now, s);
        EntryOn(w, todo, now, s, key, next, t, k);
      }
    }
  }

  lemma MidwayOn(w: Laying, todo: set<string>, now: map<string, Json>, s: Store, key: string, after: Json, t: Store)
    ensures Midway(w, todo, now, s) && key in todo && OneEntry(w, s, key, t) &&
            key in w.fs && Entry(w.fs, w.ds, key) == Some(after) && Kept(w, after, t, key)
            ==> Midway(w, todo - {key}, now[key := after], t)
  {
    if Midway(w, todo, now, s) && key in todo && OneEntry(w, s, key, t) &&
       key in w.fs && Entry(w.fs, w.ds, key) == Some(after) && Kept(w, after, t, key)
    {
      EntriesOn(w, todo, now, s, key, now[key := after], t);
      MoreKeys(w.fs.Keys, w.ds.Keys, todo, now, key, after);
      OnlyInBoth(w.live, w.s0, s, t);
    }
  }

  lemma MoreKeys(fs: set<string>, ds: set<string>, todo: set<string>, now: map<string, Json>, key: string, after: Json)
    requires todo <= fs && now.Keys == ds + (fs - todo) && key in todo
    ensures todo - {key} <= fs && now[key := after].Keys == now.Keys + {key} == ds + (fs - (todo - {key}))
  {
  }

  lemma OnlyInBoth(dicts: set<Dict>, s0: Store, s: Store, t: Store)
    requires OnlyIn(dicts, s0, s) && OnlyIn(dicts, s, t)
    ensures OnlyIn(dicts, s0, t)
  {
  }

  lemma FootOfEntry(w: Laying, k: string)
    requires Sound(w)
    ensures FootAt(w, k) <= w.s0.Keys - {w.d}
  {
    if k in w.ds {
      NotInItself(w.d, Obj(w.ds), w.s0, k);
      FootInStore(w.s0[w.d][k], w.ds[k], w.s0);
    }
  }

  lemma WritesOneEntry(w: Laying, s: Store, key: string, value: Value)
    requires Sound(w) && s.Keys == w.s0.Keys
    ensures OneEntry(w, s, key, s[w.d := s[w.d][key := value]])
  {
    forall k ensures FootAt(w, k) <= w.s0.Keys - {w.d} {
      FootOfEntry(w, k);
    }
  }

  lemma MergesOneEntry(w: Laying, s: Store, key: string, t: Store)
    requires Sound(w) && s.Keys == w.s0.Keys && key in w.ds && key in s[w.d]
    requires OnlyIn(Live(w.s0[w.d][key], w.ds[key], w.s0), s, t)
    ensures t[w.d] == s[w.d] && OneEntry(w, s, key, t)
  {
    FootOfEntry(w, key);
    FootOfKey(w.d, Obj(w.ds), w.s0, key);
    forall k | k != key ensures Agree(FootAt(w, k), s, t) {
      FootOfEntry(w, k);
    }
  }

  ghost function Among(keys: seq<string>): set<string> {
    set k | k in keys
  }

  lemma {:induction false} MergeIsOver(value: Json, v: Value, j: Json, s: Store, order: Order, at: Path)
    requires IsOrder(order) && (value.Obj? || value.Arr?)
    requires StandsFor(v, j, s) && Owned(v, j, s) && Apart(v, j, s)
    ensures AsOver(MergeValue(value, v, s, order, at), value, v, j, s)
    decreases value, 3, 0
  {
    if value == EMPTY {
      assert Became(v, j, s, j, s);
    } else if value.Obj? && v.Ref? {
      DictIsOver(value, v.dict, j, s, order, at);
    } else if value.Arr? && v.List? {
      MidwayItemsStart(value.items, v.items, j, s);
      ItemsAreOver(value, 0, v.items, j, s, j, s, order, at);
      assert MergeValue(value, v, s, order, at) == MergeItems(value, 0, v.items, s, order, at);
    } else if value.Arr? {
      ListMeetsNone(value, v, j, s, order, at);
      assert MergeValue(value, v, s, order, at) == MergeList(value, v, s, order, at);
    } else {
      MeetsNoDict(value, v, j, s, s, order, at);
    }
  }

  lemma ListMeetsNone(value: Json, v: Value, j: Json, s: Store, order: Order, at: Path)
    requires IsOrder(order) && value.Arr? && !v.List?
    requires StandsFor(v, j, s) && Owned(v, j, s)
    ensures AsOver(MergeList(value, v, s, order, at), value, v, j, s)
  {
    assert Became(v, j, s, j, s);
    assert AllDicts(value.items) <==> forall item :: item in value.items ==> item.Obj?;
    if v.Ref? {
      assert s[v.dict] == map[] <==> j.fields == map[];
    }
  }

  lemma {:induction false} DictIsOver(value: Json, d: Dict, j: Json, s: Store, order: Order, at: Path)
    requires IsOrder(order) && value.Obj? && value != EMPTY
    requires StandsFor(Ref(d), j, s) && Owned(Ref(d), j, s) && Apart(Ref(d), j, s)
    ensures AsOver(Merge(value, Ref(d), s, order, at), value, Ref(d), j, s)
    decreases value, 2, |order(at, value.fields)| + 1
  {
    var keys := order(at, value.fields);
    assert Enumerates(keys, value.fields);
    assert Among(keys) == value.fields.Keys;
    var w := Laying(value.fields, d, j.fields, s, Feet(d, j.fields, s), Live(Ref(d), j, s));
    MidwayStart(w);
    KeysAreOver(value, keys, w, j.fields, s, order, at);
  }

  ghost predicate EntryAsOver(w: Laying, outcome: Outcome, key: string, s: Store)
    requires key in w.fs
  {
    match outcome
    case Merged(t) =>
      && Entry(w.fs, w.ds, key).Some?
      && OneEntry(w, s, key, t) && Kept(w, Entry(w.fs, w.ds, key).value, t, key)
    case Raises => Entry(w.fs, w.ds, key).None?
    case IntoSource => false
  }

  // The keys that are still to come.
  ghost predicate ToCome(w: Laying, keys: seq<string>, now: map<string, Json>, s: Store) {
    && Sound(w) && Midway(w, Among(keys), now, s)
    && forall i, n :: 0 <= i < n < |keys| ==> keys[i] != keys[n]
  }

  lemma {:induction false} KeysAreOver(value: Json, keys: seq<string>, w: Laying, now: map<string, Json>, s: Store,
    order: Order, at: Path)
    requires IsOrder(order) && value == Obj(w.fs) && forall k :: k in keys ==> k in w.fs
    ensures ToCome(w, keys, now, s) ==>
              AsOver(MergeKeys(value, keys, w.d, s, order, at), value, Ref(w.d), Obj(w.ds), w.s0)
    decreases value, 2, |keys|
  {
    if ToCome(w, keys, now, s) {
      if keys == [] {
        assert Among(keys) == {};
        MidwayDone(w, now, s);
      } else {
        var key := keys[0];
        var first := MergeEntry(value.fields[key], key, w.d, s, order, at + [Key(key)]);
        NextToCome(w, keys, now, s);
        EntryIsOver(value, key, w, s, order, at + [Key(key)]);
        if first.Merged? {
          var after := Entry(w.fs, w.ds, key).value;
          MidwayOn(w, Among(keys), now, s, key, after, first.store);
          KeysAreOver(value, keys[1..], w, now[key := after], first.store, order, at);
        } else {
          EntryRaises(w.fs, w.ds, key);
        }
      }
    }
  }

  lemma NextToCome(w: Laying, keys: seq<string>, now: map<string, Json>, s: Store)
    requires keys != []
    ensures ToCome(w, keys, now, s) ==>
              EntryReady(w, s, keys[0]) && keys[0] in Among(keys) && Among(keys[1..]) == Among(keys) - {keys[0]}
  {
    if ToCome(w, keys, now, s) {
      AmongRest(keys);
      if keys[0] in now {
        assert keys[0] in InOrder(w, Among(keys), now, s);
      }
    }
  }

  lemma AmongRest(keys: seq<string>)
    requires keys != [] && forall i, n :: 0 <= i < n < |keys| ==> keys[i] != keys[n]
    ensures keys[0] in Among(keys) && Among(keys[1..]) == Among(keys) - {keys[0]}
  {
  }

  ghost predicate EntryReady(w: Laying, s: Store, key: string) {
    && s.Keys == w.s0.Keys && w.d in s && (key in s[w.d] <==> key in w.ds) && (key in w.ds ==> Untouched(w, s, key))
  }

  lemma {:induction false} EntryIsOver(value: Json, key: string, w: Laying, s: Store, order: Order, at: Path)
    requires IsOrder(order) && value == Obj(w.fs) && key in w.fs
    ensures Sound(w) && EntryReady(w, s, key) ==>
              EntryAsOver(w, MergeEntry(w.fs[key], key, w.d, s, order, at), key, s)
    decreases value, 1, 0
  {
    if Sound(w) && EntryReady(w, s, key) {
      var v, d := w.fs[key], w.d;
      if (v.Obj? || v.Arr?) && key in w.ds {
        SameInBoth(w.s0[d][key], w.ds[key], w.s0, s);
        MergeIsOver(v, s[d][key], w.ds[key], s, order, at);
        var outcome := MergeValue(v, s[d][key], s, order, at);
        if outcome.Merged? {
          MergesOneEntry(w, s, key, outcome.store);
        }
      } else {
        WritesOneEntry(w, s, key, Plain(v));
      }
    }
  }

  // -- the same for lists --

  // What the items are after the first i of the source.
  ghost predicate PartlyItems(vs: seq<Json>, ds: seq<Json>, i: int, now: seq<Json>) {
    && 0 <= i <= |vs| && |now| == |ds|
    && (forall n :: 0 <= n < i ==> vs[n].Obj?)
    && (forall n :: 0 <= n < i && n < |ds| ==> Over(vs[n], ds[n]) == Some(now[n]))
    && (forall n :: i <= n < |ds| ==> now[n] == ds[n])
  }

  lemma PartlyItemsOn(vs: seq<Json>, ds: seq<Json>, i: int, now: seq<Json>)
    requires PartlyItems(vs, ds, i, now) && i < |vs|
    ensures !vs[i].Obj? || (i < |ds| && Over(vs[i], ds[i]).None?) ==> Over(Arr(vs), Arr(ds)).None?
    ensures vs[i].Obj? && i < |ds| && Over(vs[i], ds[i]).Some? ==>
            PartlyItems(vs, ds, i + 1, now[i := Over(vs[i], ds[i]).value])
    ensures vs[i].Obj? && i >= |ds| ==> PartlyItems(vs, ds, i + 1, now)
  {
    assert vs[i] in vs;
  }

  lemma PartlyItemsDone(vs: seq<Json>, ds: seq<Json>, i: int, now: seq<Json>)
    requires PartlyItems(vs, ds, i, now) && i == |vs|
    ensures Over(Arr(vs), Arr(ds)) == Some(Arr(now))
  {
    assert now == Over(Arr(vs), Arr(ds)).value.items;
  }

  ghost predicate KeptItem(items: seq<Value>, j: Json, s0: Store, now: seq<Json>, s: Store, n: nat) {
    && StandsFor(List(items), j, s0) && n < |items| && |now| == |items|
    && StandsFor(items[n], now[n], s) && Foot(items[n], now[n], s) <= Foot(items[n], j.items[n], s0)
  }

  // What the list is when the source's items from the i-th on are still to be merged into it.
  ghost predicate MidwayItems(vs: seq<Json>, items: seq<Value>, j: Json, s0: Store, i: nat, now: seq<Json>, s: Store) {
    && StandsFor(List(items), j, s0) && PartlyItems(vs, j.items, i, now) && OnlyIn(Live(List(items), j, s0), s0, s)
    && (forall n :: 0 <= n < |items| ==> KeptItem(items, j, s0, now, s, n))
    && (forall n :: i <= n < |items| ==> Agree(Foot(items[n], j.items[n], s0), s0, s))
  }

  lemma MidwayItemsDone(vs: seq<Json>, items: seq<Value>, j: Json, s0: Store, now: seq<Json>, s: Store)
    requires StandsFor(List(items), j, s0) && MidwayItems(vs, items, j, s0, |vs|, now, s)
    ensures AsOver(Merged(s), Arr(vs), List(items), j, s0)
  {
    PartlyItemsDone(vs, j.items, |vs|, now);
    forall n | 0 <= n < |items| ensures StandsFor(items[n], now[n], s) {
      assert KeptItem(items, j, s0, now, s, n);
    }
    forall n, e | 0 <= n < |items| && e in Foot(items[n], now[n], s) ensures e in Foot(List(items), j, s0) {
      assert KeptItem(items, j, s0, now, s, n);
    }
  }

  lemma MidwayItemsStart(vs: seq<Json>, items: seq<Value>, j: Json, s: Store)
    requires StandsFor(List(items), j, s)
    ensures MidwayItems(vs, items, j, s, 0, j.items, s)
  {
    forall n | 0 <= n < |items| ensures Agree(Foot(items[n], j.items[n], s), s, s) {
      FootInStore(items[n], j.items[n], s);
    }
  }

  lemma KeptItemOn(items: seq<Value>, j: Json, s0: Store, now: seq<Json>, s: Store, next: seq<Json>, t: Store, n: nat)
    requires StandsFor(List(items), j, s0) && n < |items| && |now| == |items| == |next|
    requires KeptItem(items, j, s0, now, s, n) && next[n] == now[n]
    requires Agree(Foot(items[n], j.items[n], s0), s, t)
    ensures KeptItem(items, j, s0, next, t, n)
  {
    SameFoot(items[n], now[n], s, t);
  }

  // From s to t one item has been merged; the dicts of the others are as they were.
  ghost predicate OneItem(items: seq<Value>, j: Json, s0: Store, s: Store, i: nat, t: Store) {
    && StandsFor(List(items), j, s0) && OnlyIn(Live(List(items), j, s0), s, t)
    && (forall n :: 0 <= n < |items| && n != i ==> Agree(Foot(items[n], j.items[n], s0), s, t))
  }

  lemma MergesOneItem(items: seq<Value>, j: Json, s0: Store, s: Store, i: nat, t: Store)
    requires StandsFor(List(items), j, s0) && Apart(List(items), j, s0) && i < |items| && items[i].Ref?
    requires s.Keys == s0.Keys == t.Keys
    requires forall e :: e in s && e !in Live(items[i], j.items[i], s0) ==> t[e] == s[e]
    ensures OneItem(items, j, s0, s, i, t)
  {
    FootOfItem(items, j, s0, i);
    forall n | 0 <= n < |items| && n != i ensures Agree(Foot(items[n], j.items[n], s0), s, t) {
      FootInStore(items[n], j.items[n], s0);
    }
  }

  lemma MidwayItemsOn(vs: seq<Json>, items: seq<Value>, j: Json, s0: Store, i: nat, now: seq<Json>, s: Store,
    after: Json, t: Store)
    requires StandsFor(List(items), j, s0) && MidwayItems(vs, items, j, s0, i, now, s)
    requires i < |items| && i < |vs| && vs[i].Obj? && Over(vs[i], j.items[i]) == Some(after)
    requires OneItem(items, j, s0, s, i, t) && KeptItem(items, j, s0, now[i := after], t, i)
    ensures MidwayItems(vs, items, j, s0, i + 1, now[i := after], t)
  {
    PartlyItemsOn(vs, j.items, i, now);
    var next := now[i := after];
    forall n | 0 <= n < |items| ensures KeptItem(items, j, s0, next, t, n) {
      if n != i {
        KeptItemOn(items, j, s0, now, s, next, t, n);
      }
    }
  }

  ghost predicate ItemsToCome(vs: seq<Json>, items: seq<Value>, j: Json, s0: Store, i: nat, now: seq<Json>, s: Store) {
    && StandsFor(List(items), j, s0) && Owned(List(items), j, s0) && Apart(List(items), j, s0)
    && MidwayItems(vs, items, j, s0, i, now, s)
  }

  lemma {:induction false} ItemsAreOver(value: Json, i: nat, items: seq<Value>, j: Json, s0: Store,
    now: Json, s: Store, order: Order, at: Path)
    requires IsOrder(order) && value.Arr? && i <= |value.items| && now.Arr?
    ensures ItemsToCome(value.items, items, j, s0, i, now.items, s) ==>
              AsOver(MergeItems(value, i, items, s, order, at), value, List(items), j, s0)
    decreases value, 2, |value.items| - i
  {
    if ItemsToCome(value.items, items, j, s0, i, now.items, s) {
      if i == |value.items| {
        MidwayItemsDone(value.items, items, j, s0, now.items, s);
      } else {
        PartlyItemsOn(value.items, j.items, i, now.items);
        if value.items[i].Obj? && i >= |items| {
          ItemsAreOver(value, i + 1, items, j, s0, now, s, order, at);
        } else if value.items[i].Obj? {
          ItemIsOver(value, i, items, j, s0, now.items, s, order, at + [Index(i)]);
          var first := Merge(value.items[i], items[i], s, order, at + [Index(i)]);
          if first.Merged? {
            var after := Over(value.items[i], j.items[i]).value;
            ItemsAreOver(value, i + 1, items, j, s0, Arr(now.items[i := after]), first.store, order, at);
          }
        }
      }
    }
  }

  ghost predicate ItemAsOver(outcome: Outcome, value: Json, items: seq<Value>, j: Json, s0: Store, i: nat,
    now: seq<Json>)
    requires value.Arr? && i < |value.items| && j.Arr? && i < |j.items| && |now| == |j.items|
  {
    match outcome
    case Merged(t) =>
      && Over(value.items[i], j.items[i]).Some?
      && MidwayItems(value.items, items, j, s0, i + 1, now[i := Over(value.items[i], j.items[i]).value], t)
    case Raises => Over(value.items[i], j.items[i]).None?
    case IntoSource => false
  }

  lemma {:induction false} ItemIsOver(value: Json, i: nat, items: seq<Value>, j: Json, s0: Store,
    now: seq<Json>, s: Store, order: Order, at: Path)
    requires IsOrder(order) && value.Arr? && i < |value.items| && i < |items| && value.items[i].Obj?
    requires j.Arr? && i < |j.items| && |now| == |j.items|
    ensures ItemsToCome(value.items, items, j, s0, i, now, s) ==>
              ItemAsOver(Merge(value.items[i], items[i], s, order, at), value, items, j, s0, i, now)
    decreases value, 1, 0
  {
    if ItemsToCome(value.items, items, j, s0, i, now, s) {
      var v := value.items[i];
      if items[i].Ref? {
        SameInBoth(items[i], j.items[i], s0, s);
        MergeIsOver(v, items[i], j.items[i], s, order, at);
        var outcome := Merge(v, items[i], s, order, at);
        if outcome.Merged? {
          MergesOneItem(items, j, s0, s, i, outcome.store);
          MidwayItemsOn(value.items, items, j, s0, i, now, s, Over(v, j.items[i]).value, outcome.store);
        }
      } else if v == EMPTY {
        PartlyItemsOn(value.items, j.items, i, now);
        assert now[i := j.items[i]] == now;
      } else {
        MeetsNoDict(v, items[i], j.items[i], s0, s, order, at);
      }
    }
  }

  lemma MeetsNoDict(value: Json, v: Value, j: Json, s: Store, t: Store, order: Order, at: Path)
    requires IsOrder(order) && value.Obj? && value != EMPTY && !v.Ref? && StandsFor(v, j, s) && Owned(v, j, s)
    ensures Merge(value, v, t, order, at) == Raises && Over(value, j) == None
  {
  }
}
