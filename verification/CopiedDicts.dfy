/**
 What `copy.deepcopy` makes of dicts: one new dict for each, and the same new dict wherever the old one was.
 */
module CopiedDicts {
  import opened DictStore
  import opened MergedValues
  import opened Options
  import opened SharedDicts

  // Every dict of it is among these.
  ghost predicate Within(v: Value, dicts: set<Dict>) {
    match v
    case Ref(d) => d in dicts
    case List(items) => forall i :: 0 <= i < |items| ==> Within(items[i], dicts)
    case Plain(_) => true
  }

  ghost function Renamed(v: Value, memo: map<Dict, Dict>): Value {
    match v
    case Ref(d) => if d in memo then Ref(memo[d]) else v
    case List(items) => List(seq(|items|, i requires 0 <= i < |items| => Renamed(items[i], memo)))
    case Plain(_) => v
  }

  ghost predicate CopiesFields(fields: map<string, Value>, copy: map<string, Value>, memo: map<Dict, Dict>) {
    && copy.Keys == fields.Keys
    && forall k :: k in fields ==> Within(fields[k], memo.Keys) && copy[k] == Renamed(fields[k], memo)
  }

  ghost predicate OneEach(memo: map<Dict, Dict>) {
    forall d, e :: d in memo && e in memo && d != e ==> memo[d] != memo[e]
  }

  ghost predicate IsCopy(memo: map<Dict, Dict>, store: Store, copied: Store) {
    && OneEach(memo) && memo.Keys <= store.Keys && copied.Keys == memo.Values
    && forall d :: d in memo ==> CopiesFields(store[d], copied[memo[d]], memo)
  }

  ghost predicate IsImage(memo: map<Dict, Dict>, a: set<Dict>, b: set<Dict>) {
    && a <= memo.Keys && (forall d :: d in a ==> memo[d] in b)
    && (forall e :: e in b ==> exists d :: d in a && memo[d] == e)
  }

  lemma ImagesMeet(memo: map<Dict, Dict>, a: set<Dict>, b: set<Dict>, a': set<Dict>, b': set<Dict>)
    requires OneEach(memo) && IsImage(memo, a, a') && IsImage(memo, b, b')
    ensures a' !! b' <==> a !! b
  {
    if d :| d in a && d in b {
      assert memo[d] in a' && memo[d] in b';
    }
  }

  lemma {:induction false} CopyStands(v: Value, j: Json, store: Store, memo: map<Dict, Dict>, copied: Store)
    requires IsCopy(memo, store, copied) && StandsFor(v, j, store) && Within(v, memo.Keys)
    ensures StandsFor(Renamed(v, memo), j, copied)
    decreases j
  {
    match v
    case Ref(d) =>
      forall k | k in j.fields ensures StandsFor(Renamed(store[d][k], memo), j.fields[k], copied) {
        CopyStands(store[d][k], j.fields[k], store, memo, copied);
      }
    case List(items) =>
      forall i | 0 <= i < |items| ensures StandsFor(Renamed(items[i], memo), j.items[i], copied) {
        CopyStands(items[i], j.items[i], store, memo, copied);
      }
    case _ =>
  }

  lemma {:induction false} CopyOwned(v: Value, j: Json, store: Store, memo: map<Dict, Dict>, copied: Store)
    requires IsCopy(memo, store, copied) && StandsFor(v, j, store) && Within(v, memo.Keys)
    requires StandsFor(Renamed(v, memo), j, copied)
    ensures Owned(Renamed(v, memo), j, copied) == Owned(v, j, store)
    decreases j
  {
    match v
    case Ref(d) =>
      forall k | k in j.fields
        ensures Owned(Renamed(store[d][k], memo), j.fields[k], copied) == Owned(store[d][k], j.fields[k], store)
      {
        CopyOwned(store[d][k], j.fields[k], store, memo, copied);
      }
    case List(items) =>
      forall i | 0 <= i < |items|
        ensures Owned(Renamed(items[i], memo), j.items[i], copied) == Owned(items[i], j.items[i], store)
      {
        CopyOwned(items[i], j.items[i], store, memo, copied);
      }
    case _ =>
  }

  lemma {:induction false} CopyFoot(v: Value, j: Json, store: Store, memo: map<Dict, Dict>, copied: Store)
    requires IsCopy(memo, store, copied) && StandsFor(v, j, store) && Within(v, memo.Keys)
    requires StandsFor(Renamed(v, memo), j, copied)
    ensures IsImage(memo, Foot(v, j, store), Foot(Renamed(v, memo), j, copied))
    decreases j
  {
    match v
    case Ref(d) =>
      forall k | k in j.fields
        ensures IsImage(memo, Foot(store[d][k], j.fields[k], store),
            Foot(Renamed(store[d][k], memo), j.fields[k], copied))
      {
        CopyFoot(store[d][k], j.fields[k], store, memo, copied);
      }
    case List(items) =>
      forall i | 0 <= i < |items|
        ensures IsImage(memo, Foot(items[i], j.items[i], store), Foot(Renamed(items[i], memo), j.items[i], copied))
      {
        CopyFoot(items[i], j.items[i], store, memo, copied);
      }
    case _ =>
  }

  lemma {:induction false} CopyLive(v: Value, j: Json, store: Store, memo: map<Dict, Dict>, copied: Store)
    requires IsCopy(memo, store, copied) && StandsFor(v, j, store) && Within(v, memo.Keys)
    requires StandsFor(Renamed(v, memo), j, copied)
    ensures IsImage(memo, Live(v, j, store), Live(Renamed(v, memo), j, copied))
    decreases j, 1
  {
    match v
    case Ref(d) =>
      forall k | k in j.fields
        ensures IsImage(memo, Live(store[d][k], j.fields[k], store),
            Live(Renamed(store[d][k], memo), j.fields[k], copied))
      {
        CopyLive(store[d][k], j.fields[k], store, memo, copied);
      }
    case List(items) => CopyLiveList(items, j, store, memo, copied);
    case _ =>
  }

  lemma {:induction false} CopyLiveList(items: seq<Value>, j: Json, store: Store, memo: map<Dict, Dict>, copied: Store)
    requires IsCopy(memo, store, copied) && StandsFor(List(items), j, store) && Within(List(items), memo.Keys)
    requires StandsFor(Renamed(List(items), memo), j, copied)
    ensures IsImage(memo, Live(List(items), j, store), Live(Renamed(List(items), memo), j, copied))
    decreases j, 0
  {
    forall i | 0 <= i < |items|
      ensures IsImage(memo, Live(items[i], j.items[i], store), Live(Renamed(items[i], memo), j.items[i], copied))
    {
      CopyLive(items[i], j.items[i], store, memo, copied);
    }
  }

  // A copy finds a dict twice where the original does.
  lemma {:induction false} CopyApart(v: Value, j: Json, store: Store, memo: map<Dict, Dict>, copied: Store)
    requires IsCopy(memo, store, copied) && StandsFor(v, j, store) && Within(v, memo.Keys)
    requires StandsFor(Renamed(v, memo), j, copied)
    ensures Apart(Renamed(v, memo), j, copied) == Apart(v, j, store)
    decreases j, 1
  {
    match v
    case Ref(d) => CopyApartDict(d, j, store, memo, copied);
    case List(items) => CopyApartList(items, j, store, memo, copied);
    case _ =>
  }

  lemma {:induction false} CopyApartDict(d: Dict, j: Json, store: Store, memo: map<Dict, Dict>, copied: Store)
    requires IsCopy(memo, store, copied) && StandsFor(Ref(d), j, store) && d in memo
    requires StandsFor(Ref(memo[d]), j, copied)
    ensures Apart(Ref(memo[d]), j, copied) == Apart(Ref(d), j, store)
    decreases j, 0
  {
    forall k | k in j.fields
      ensures Apart(Renamed(store[d][k], memo), j.fields[k], copied) == Apart(store[d][k], j.fields[k], store)
    {
      CopyApart(store[d][k], j.fields[k], store, memo, copied);
    }
    forall k, l | k in j.fields && l in j.fields && k != l
      ensures Live(Renamed(store[d][k], memo), j.fields[k], copied) !!
              Foot(Renamed(store[d][l], memo), j.fields[l], copied) <==>
              Live(store[d][k], j.fields[k], store) !! Foot(store[d][l], j.fields[l], store)
    {
      PartsMeet(store[d][k], j.fields[k], store[d][l], j.fields[l], store, memo, copied);
    }
  }

  lemma {:induction false} CopyApartList(items: seq<Value>, j: Json, store: Store, memo: map<Dict, Dict>, copied: Store)
    requires IsCopy(memo, store, copied) && StandsFor(List(items), j, store) && Within(List(items), memo.Keys)
    requires StandsFor(Renamed(List(items), memo), j, copied)
    ensures Apart(Renamed(List(items), memo), j, copied) == Apart(List(items), j, store)
    decreases j, 0
  {
    forall i | 0 <= i < |items|
      ensures Apart(Renamed(items[i], memo), j.items[i], copied) == Apart(items[i], j.items[i], store)
    {
      CopyApart(items[i], j.items[i], store, memo, copied);
    }
    forall i, n | 0 <= i < |items| && 0 <= n < |items| && i != n
      ensures Live(Renamed(items[i], memo), j.items[i], copied) !!
              Foot(Renamed(items[n], memo), j.items[n], copied) <==>
              Live(items[i], j.items[i], store) !! Foot(items[n], j.items[n], store)
    {
      PartsMeet(items[i], j.items[i], items[n], j.items[n], store, memo, copied);
    }
  }

  lemma PartsMeet(v: Value, j: Json, u: Value, i: Json, store: Store, memo: map<Dict, Dict>, copied: Store)
    requires IsCopy(memo, store, copied)
    requires StandsFor(v, j, store) && Within(v, memo.Keys) && StandsFor(Renamed(v, memo), j, copied)
    requires StandsFor(u, i, store) && Within(u, memo.Keys) && StandsFor(Renamed(u, memo), i, copied)
    ensures Live(Renamed(v, memo), j, copied) !! Foot(Renamed(u, memo), i, copied) <==>
            Live(v, j, store) !! Foot(u, i, store)
  {
    CopyLive(v, j, store, memo, copied);
    CopyFoot(u, i, store, memo, copied);
    ImagesMeet(memo, Live(v, j, store), Foot(u, i, store),
        Live(Renamed(v, memo), j, copied), Foot(Renamed(u, memo), i, copied));
  }

  // Merging into the copy is right for every source that can be merged exactly when no dict that merging can come to
  // is found in the destination a second time.
  lemma DeepMergeIff(dest: Dict, fields: map<string, Json>, store: Store, memo: map<Dict, Dict>, copied: Store,
    order: Order)
    requires IsOrder(order) && StandsFor(Ref(dest), Obj(fields), store) && Owned(Ref(dest), Obj(fields), store)
    requires IsCopy(memo, store, copied) && dest in memo
    ensures RightForAll(memo[dest], fields, copied, order) <==> Apart(Ref(dest), Obj(fields), store)
  {
    CopyStands(Ref(dest), Obj(fields), store, memo, copied);
    CopyOwned(Ref(dest), Obj(fields), store, memo, copied);
    CopyApart(Ref(dest), Obj(fields), store, memo, copied);
    RightIff(memo[dest], fields, copied, order);
  }
}
