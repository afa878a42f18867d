/**
 `ParserUtils.deep_merge` of src/parser/parser.py on the heap: the destination is copied, one new dict for each of its
 dicts, and `_merge` writes into the copy. The source is a value; what the copy takes over from it is shared with it.
 */
module DeepMerge {
  import opened CopiedDicts
  import opened DictStore
  import opened MergedValues
  import opened Options
  import opened SharedDicts

  // These dicts as a store.
  ghost function Snap(world: set<Dict>): Store
    reads world
  {
    map d | d in world :: d.fields
  }

  // Nothing in these dicts leads out of them.
  ghost predicate Closed(world: set<Dict>)
    reads world
  {
    forall d, k :: d in world && k in d.fields ==> Within(d.fields[k], world)
  }

  // -- merging in place --

  // Merging ends, raises, or comes to a dict of the source.
  datatype Ending = Done | Raised | AtSource

  ghost predicate EndsAs(outcome: Outcome, ending: Ending, store: Store) {
    match outcome
    case Merged(t) => ending.Done? && store == t
    case Raises => ending.Raised?
    case IntoSource => ending.AtSource?
  }

  method MergeInto(ob1: Json, ob2: Value, order: Order, at: Path, ghost world: set<Dict>) returns (ending: Ending)
    requires IsOrder(order) && Within(ob2, world) && Closed(world)
    modifies world
    ensures Closed(world) && EndsAs(Merge(ob1, ob2, old(Snap(world)), order, at), ending, Snap(world))
    decreases ob1, 2, 0
  {
    if !ob1.Obj? {
      return Raised;
    }
    if ob1.fields == map[] {
      return Done;
    }
    match ob2
    case Ref(dict) =>
      ending := MergeIntoDict(ob1, dict, order, at, world);
    case List(_) =>
      ending := Raised;
    case Plain(json) =>
      ending := if json.Obj? then AtSource else Raised;
  }

  method MergeIntoDict(ob1: Json, ob2: Dict, order: Order, at: Path, ghost world: set<Dict>) returns (ending: Ending)
    requires IsOrder(order) && ob1.Obj? && ob1.fields != map[] && ob2 in world && Closed(world)
    modifies world
    ensures Closed(world) && EndsAs(Merge(ob1, Ref(ob2), old(Snap(world)), order, at), ending, Snap(world))
    decreases ob1, 1, 0
  {
    var keys := order(at, ob1.fields);
    assert Enumerates(keys, ob1.fields);
    var n := 0;
    while n < |keys|
      invariant n <= |keys| && Closed(world)
      invariant Merge(ob1, Ref(ob2), old(Snap(world)), order, at) ==
        MergeKeys(ob1, keys[n..], ob2, Snap(world), order, at)
    {
      ending := MergeEntryInto(ob1.fields[keys[n]], ob2, keys[n], order, at + [Key(keys[n])], world);
      if !ending.Done? {
        return;
      }
      n := n + 1;
    }
    ending := Done;
  }

  method MergeEntryInto(value: Json, ob2: Dict, key: string, order: Order, at: Path, ghost world: set<Dict>)
    returns (ending: Ending)
    requires IsOrder(order) && ob2 in world && Closed(world)
    modifies world
    ensures Closed(world) && EndsAs(MergeEntry(value, key, ob2, old(Snap(world)), order, at), ending, Snap(world))
    decreases value, 4, 0
  {
    if (value.Obj? || value.Arr?) && key in ob2.fields {
      ending := MergeValueInto(value, ob2.fields[key], order, at, world);
    } else {
      ob2.fields := ob2.fields[key := Plain(value)];
      ending := Done;
      assert Snap(world) == old(Snap(world))[ob2 := old(ob2.fields)[key := Plain(value)]];
    }
  }

  method MergeValueInto(value: Json, next: Value, order: Order, at: Path, ghost world: set<Dict>)
    returns (ending: Ending)
    requires IsOrder(order) && (value.Obj? || value.Arr?) && Within(next, world) && Closed(world)
    modifies world
    ensures Closed(world) && EndsAs(MergeValue(value, next, old(Snap(world)), order, at), ending, Snap(world))
    decreases value, 3, 0
  {
    if value.Obj? {
      ending := MergeInto(value, next, order, at, world);
    } else {
      ending := MergeListInto(value, next, order, at, world);
    }
  }

  method MergeListInto(value: Json, next: Value, order: Order, at: Path, ghost world: set<Dict>)
    returns (ending: Ending)
    requires IsOrder(order) && value.Arr? && Within(next, world) && Closed(world)
    modifies world
    ensures Closed(world) && EndsAs(MergeList(value, next, old(Snap(world)), order, at), ending, Snap(world))
    decreases value, 1, 0
  {
    match next
    case List(items) =>
      ending := MergeItemsInto(value, items, order, at, world);
    case Ref(dict) =>
      ending := if AllDicts(value.items) && dict.fields == map[] then Done else Raised;
    case Plain(json) =>
      match json
      case Arr(js) =>
        ending := MergeItemsInto(value, Plains(js), order, at, world);
      case Obj(fields) =>
        ending := if AllDicts(value.items) && fields == map[] then Done else Raised;
      case Text(t) =>
        ending := if AllDicts(value.items) && EmptyUpTo(value.items, |t|) then Done else Raised;
      case Scalar(_) =>
        ending := Raised;
  }

  method MergeItemsInto(value: Json, items: seq<Value>, order: Order, at: Path, ghost world: set<Dict>)
    returns (ending: Ending)
    requires IsOrder(order) && value.Arr? && Within(List(items), world) && Closed(world)
    modifies world
    ensures Closed(world) && EndsAs(MergeItems(value, 0, items, old(Snap(world)), order, at), ending, Snap(world))
    decreases value, 0, 0
  {
    var i := 0;
    while i < |value.items|
      invariant i <= |value.items| && Closed(world)
      invariant MergeItems(value, 0, items, old(Snap(world)), order, at) ==
        MergeItems(value, i, items, Snap(world), order, at)
    {
      if !value.items[i].Obj? {
        return Raised;
      }
      if i < |items| {
        ending := MergeInto(value.items[i], items[i], order, at + [Index(i)], world);
        if !ending.Done? {
          return;
        }
      }
      i := i + 1;
    }
    ending := Done;
  }

  // -- copying --

  ghost function Complete(memo: map<Dict, Dict>): set<Dict>
    reads memo.Keys, memo.Values
  {
    set d | d in memo && CopiesFields(d.fields, memo[d].fields, memo)
  }

  // The dicts that have a copy; those of the pending ones are still being filled.
  ghost predicate Memo(memo: map<Dict, Dict>, pending: set<Dict>, world: set<Dict>)
    reads world, memo.Keys, memo.Values
  {
    && OneEach(memo) && memo.Keys <= world && memo.Values !! world && memo.Keys - pending <= Complete(memo)
  }

  ghost predicate Extends(memo: map<Dict, Dict>, more: map<Dict, Dict>) {
    forall d :: d in memo ==> d in more && more[d] == memo[d]
  }

  lemma {:induction false} WithinMore(v: Value, memo: map<Dict, Dict>, more: map<Dict, Dict>)
    requires Within(v, memo.Keys) && Extends(memo, more)
    ensures Within(v, more.Keys) && Renamed(v, more) == Renamed(v, memo)
  {
    match v
    case List(items) =>
      forall i | 0 <= i < |items|
        ensures Within(items[i], more.Keys) && Renamed(items[i], more) == Renamed(items[i], memo)
      {
        WithinMore(items[i], memo, more);
      }
    case _ =>
  }

  lemma MemoWith(memo: map<Dict, Dict>, pending: set<Dict>, world: set<Dict>, dict: Dict, copy: Dict)
    requires Memo(memo, pending, world) && dict in world && dict !in memo && copy !in world && copy !in memo.Values
    ensures Extends(memo, memo[dict := copy]) && Memo(memo[dict := copy], pending + {dict}, world)
  {
    var more := memo[dict := copy];
    forall e | e in more.Values ensures e == copy || e in memo.Values {
      var d :| d in more && more[d] == e;
    }
    forall d | d in more && d !in pending + {dict} ensures d in Complete(more) {
      assert d in Complete(memo);
      forall k | k in d.fields
        ensures Within(d.fields[k], more.Keys) && more[d].fields[k] == Renamed(d.fields[k], more)
      {
        WithinMore(d.fields[k], memo, more);
      }
    }
  }

  lemma {:induction false} RenamedWithin(v: Value, memo: map<Dict, Dict>)
    requires Within(v, memo.Keys)
    ensures Within(Renamed(v, memo), memo.Values)
  {
    match v
    case List(items) =>
      forall i | 0 <= i < |items| ensures Within(Renamed(items[i], memo), memo.Values) {
        RenamedWithin(items[i], memo);
      }
    case _ =>
  }

  lemma CopyClosed(memo: map<Dict, Dict>, world: set<Dict>)
    requires Memo(memo, {}, world)
    ensures Closed(memo.Values) && IsCopy(memo, Snap(world), Snap(memo.Values))
  {
    forall d, k | d in memo && k in memo[d].fields ensures Within(memo[d].fields[k], memo.Values) {
      assert d in Complete(memo);
      RenamedWithin(d.fields[k], memo);
    }
    forall d | d in memo ensures CopiesFields(d.fields, memo[d].fields, memo) {
      assert d in Complete(memo);
    }
  }

  method Copy(v: Value, memo: map<Dict, Dict>, ghost j: Json, ghost pending: set<Dict>, ghost world: set<Dict>)
    returns (copy: Value, more: map<Dict, Dict>)
    requires Within(v, world) && Closed(world) && Memo(memo, pending, world)
    requires StandsFor(v, j, Snap(world)) && Foot(v, j, Snap(world)) !! pending
    ensures Extends(memo, more) && Memo(more, pending, world) && fresh(more.Values - memo.Values)
    ensures Within(v, more.Keys) && copy == Renamed(v, more)
    decreases j, 2, 0
  {
    match v
    case Ref(dict) =>
      copy, more := CopyDict(dict, memo, j, pending, world);
    case List(items) =>
      copy, more := CopyList(items, memo, j, pending, world);
    case Plain(_) =>
      copy, more := v, memo;
  }

  // A dict that has been copied is not copied again.
  method CopyDict(dict: Dict, memo: map<Dict, Dict>, ghost j: Json, ghost pending: set<Dict>, ghost world: set<Dict>)
    returns (copy: Value, more: map<Dict, Dict>)
    requires dict in world && Closed(world) && Memo(memo, pending, world)
    requires StandsFor(Ref(dict), j, Snap(world)) && Foot(Ref(dict), j, Snap(world)) !! pending
    ensures Extends(memo, more) && Memo(more, pending, world) && fresh(more.Values - memo.Values)
    ensures dict in more && copy == Ref(more[dict])
    decreases j, 1, 0
  {
    if dict in memo {
      return Ref(memo[dict]), memo;
    }
    var made := new Dict();
    more := memo[dict := made];
    MemoWith(memo, pending, world, dict, made);
    more := CopyEntries(dict, made, more, j, pending, world);
    copy := Ref(made);
  }

  // The entries copied so far.
  ghost predicate Filled(fields: map<string, Value>, todo: set<string>, copy: map<string, Value>,
    memo: map<Dict, Dict>)
  {
    && todo <= fields.Keys && copy.Keys == fields.Keys - todo
    && forall k :: k in copy ==> Within(fields[k], memo.Keys) && copy[k] == Renamed(fields[k], memo)
  }

  lemma FilledMore(fields: map<string, Value>, todo: set<string>, copy: map<string, Value>,
    memo: map<Dict, Dict>, more: map<Dict, Dict>)
    requires Filled(fields, todo, copy, memo) && Extends(memo, more)
    ensures Filled(fields, todo, copy, more)
  {
    forall k | k in copy ensures Within(fields[k], more.Keys) && copy[k] == Renamed(fields[k], more) {
      WithinMore(fields[k], memo, more);
    }
  }

  method CopyEntries(dict: Dict, copy: Dict, memo: map<Dict, Dict>, ghost j: Json, ghost pending: set<Dict>,
    ghost world: set<Dict>)
    returns (more: map<Dict, Dict>)
    requires dict in world && Closed(world) && dict in memo && memo[dict] == copy && copy.fields == map[]
    requires Memo(memo, pending + {dict}, world)
    requires StandsFor(Ref(dict), j, Snap(world)) && Foot(Ref(dict), j, Snap(world)) !! pending
    modifies copy
    ensures Extends(memo, more) && Memo(more, pending, world) && fresh(more.Values - memo.Values)
    decreases j, 0, 1
  {
    more := memo;
    ghost var store := Snap(world);
    var todo := dict.fields.Keys;
    while todo != {}
      invariant Snap(world) == store && Closed(world)
      invariant Extends(memo, more) && Memo(more, pending + {dict}, world) && fresh(more.Values - memo.Values)
      invariant Filled(dict.fields, todo, copy.fields, more)
    {
      var key :| key in todo;
      var next := CopyEntry(dict, key, copy, more, j, todo, pending, world);
      assert next.Values - memo.Values <= (next.Values - more.Values) + (more.Values - memo.Values);
      more := next;
      todo := todo - {key};
    }
    MemoFilled(more, pending, world, dict);
  }

  lemma MemoFilled(memo: map<Dict, Dict>, pending: set<Dict>, world: set<Dict>, dict: Dict)
    requires Memo(memo, pending + {dict}, world) && dict in memo
    requires Filled(dict.fields, {}, memo[dict].fields, memo)
    ensures Memo(memo, pending, world)
  {
    assert dict in Complete(memo);
  }

  method CopyEntry(dict: Dict, key: string, copy: Dict, memo: map<Dict, Dict>, ghost j: Json, ghost todo: set<string>,
    ghost pending: set<Dict>, ghost world: set<Dict>)
    returns (more: map<Dict, Dict>)
    requires dict in world && Closed(world) && dict in memo && memo[dict] == copy
    requires Memo(memo, pending + {dict}, world) && key in todo && Filled(dict.fields, todo, copy.fields, memo)
    requires StandsFor(Ref(dict), j, Snap(world)) && Foot(Ref(dict), j, Snap(world)) !! pending
    modifies copy
    ensures Snap(world) == old(Snap(world)) && Closed(world)
    ensures Extends(memo, more) && Memo(more, pending + {dict}, world) && fresh(more.Values - memo.Values)
    ensures Filled(dict.fields, todo - {key}, copy.fields, more)
    decreases j, 0, 0
  {
    FootOfKey(dict, j, Snap(world), key);
    NotInItself(dict, j, Snap(world), key);
    var value;
    value, more := Copy(dict.fields[key], memo, j.fields[key], pending + {dict}, world);
    FilledMore(dict.fields, todo, copy.fields, memo, more);
    FillEntry(dict, key, value, copy, more, todo, pending, world);
  }

  method FillEntry(dict: Dict, key: string, value: Value, copy: Dict, ghost memo: map<Dict, Dict>,
    ghost todo: set<string>, ghost pending: set<Dict>, ghost world: set<Dict>)
    requires dict in memo && memo[dict] == copy && Memo(memo, pending + {dict}, world)
    requires key in todo && Filled(dict.fields, todo, copy.fields, memo)
    requires Within(dict.fields[key], memo.Keys) && value == Renamed(dict.fields[key], memo)
    modifies copy
    ensures Snap(world) == old(Snap(world))
    ensures Memo(memo, pending + {dict}, world) && Filled(dict.fields, todo - {key}, copy.fields, memo)
  {
    copy.fields := copy.fields[key := value];
    forall d | d in memo && d !in pending + {dict} ensures d in Complete(memo) {
      assert d in old(Complete(memo));
    }
  }

  method CopyList(items: seq<Value>, memo: map<Dict, Dict>, ghost j: Json, ghost pending: set<Dict>,
    ghost world: set<Dict>)
    returns (copy: Value, more: map<Dict, Dict>)
    requires Within(List(items), world) && Closed(world) && Memo(memo, pending, world)
    requires StandsFor(List(items), j, Snap(world)) && Foot(List(items), j, Snap(world)) !! pending
    ensures Extends(memo, more) && Memo(more, pending, world) && fresh(more.Values - memo.Values)
    ensures Within(List(items), more.Keys) && copy == Renamed(List(items), more)
    decreases j, 1, 0
  {
    var copies: seq<Value> := [];
    more := memo;
    ghost var store := Snap(world);
    for i := 0 to |items|
      invariant Snap(world) == store && Closed(world)
      invariant Extends(memo, more) && Memo(more, pending, world) && fresh(more.Values - memo.Values)
      invariant |copies| == i
      invariant forall n :: 0 <= n < i ==> Within(items[n], more.Keys) && copies[n] == Renamed(items[n], more)
    {
      FootOfItem(items, j, Snap(world), i);
      var value, next := Copy(items[i], more, j.items[i], pending, world);
      forall n | 0 <= n < i ensures Within(items[n], next.Keys) && copies[n] == Renamed(items[n], next) {
        WithinMore(items[n], more, next);
      }
      copies, more := copies + [value], next;
    }
    copy := List(copies);
  }

  // -- deep_merge --

  // It raises where the merge of values does, and else what it leaves stands for that.
  ghost predicate AsValues(ending: Ending, source: map<string, Json>, fields: map<string, Json>, out: Dict,
    store: Store)
  {
    match Over(Obj(source), Obj(fields))
    case Some(merged) => ending.Done? && StandsFor(Ref(out), merged, store)
    case None => ending.Raised?
  }

  // The destination is left as it was. What is returned is the copy, after merging into it; if merging can come to no
  // dict that is found in the destination a second time, it stands for the merge of values or raises as that does.
  method DeepMerge(source: map<string, Json>, dest: Dict, order: Order, ghost fields: map<string, Json>,
    ghost world: set<Dict>)
    returns (ending: Ending, out: Dict, ghost memo: map<Dict, Dict>, ghost copied: Store)
    requires IsOrder(order) && dest in world && Closed(world)
    requires StandsFor(Ref(dest), Obj(fields), Snap(world)) && Owned(Ref(dest), Obj(fields), Snap(world))
    ensures Snap(world) == old(Snap(world))
    ensures IsCopy(memo, Snap(world), copied) && dest in memo && out == memo[dest] && fresh(memo.Values)
    ensures EndsAs(Merge(Obj(source), Ref(out), copied, order, []), ending, Snap(memo.Values))
    ensures Apart(Ref(dest), Obj(fields), Snap(world)) ==> AsValues(ending, source, fields, out, Snap(memo.Values))
  {
    ghost var store := Snap(world);
    var copy, made := CopyDict(dest, map[], Obj(fields), {}, world);
    CopyClosed(made, world);
    memo, copied, out := made, Snap(made.Values), copy.dict;
    ending := MergeInto(Obj(source), copy, order, [], made.Values);
    assert Snap(world) == store;
    ApartCopy(source, dest, fields, store, memo, copied, order, ending, Snap(made.Values));
  }

  lemma ApartCopy(source: map<string, Json>, dest: Dict, fields: map<string, Json>, store: Store,
    memo: map<Dict, Dict>, copied: Store, order: Order, ending: Ending, after: Store)
    requires IsOrder(order)
    ensures StandsFor(Ref(dest), Obj(fields), store) && Owned(Ref(dest), Obj(fields), store) &&
            Apart(Ref(dest), Obj(fields), store) && IsCopy(memo, store, copied) && dest in memo &&
            EndsAs(Merge(Obj(source), Ref(memo[dest]), copied, order, []), ending, after)
            ==> AsValues(ending, source, fields, memo[dest], after)
  {
    if StandsFor(Ref(dest), Obj(fields), store) && Owned(Ref(dest), Obj(fields), store) &&
       Apart(Ref(dest), Obj(fields), store) && IsCopy(memo, store, copied) && dest in memo
    {
      CopyStands(Ref(dest), Obj(fields), store, memo, copied);
      CopyOwned(Ref(dest), Obj(fields), store, memo, copied);
      CopyApart(Ref(dest), Obj(fields), store, memo, copied);
      MergeIsOver(Obj(source), Ref(memo[dest]), Obj(fields), copied, order, []);
    }
  }

  // -- what goes wrong otherwise --

  // deep_merge({"p": {"x": 1}}, {"p": d, "q": d}), with d an empty dict, writes to "q" as well, which the merge of
  // values leaves empty.
  method SharedDictShowsThrough(d: Dict, dest: Dict, order: Order) returns (out: Dict)
    requires IsOrder(order) && d != dest && d.fields == map[] && dest.fields == map["p" := Ref(d), "q" := Ref(d)]
    ensures out.fields.Keys == {"p", "q"} && out.fields["p"] == out.fields["q"]
    ensures out.fields["q"].Ref? && out.fields["q"].dict.fields == map["x" := Plain(Scalar(1))]
    ensures Over(Obj(map["p" := Obj(map["x" := Scalar(1)])]), Obj(map["p" := EMPTY, "q" := EMPTY])) ==
            Some(Obj(map["p" := Obj(map["x" := Scalar(1)]), "q" := EMPTY]))
  {
    ghost var store, fields := Snap({d, dest}), map["p" := EMPTY, "q" := EMPTY];
    EmptyTwice(d, dest, fields, store);
    var ending;
    ghost var memo, copied;
    ending, out, memo, copied := DeepMerge(map["p" := Obj(map["x" := Scalar(1)])], dest, order, fields, {d, dest});
    BothEntries(d, dest, store, memo, copied, Obj(map["x" := Scalar(1)]), order, ending, Snap(memo.Values));
    ValuesApart();
  }

  lemma EmptyTwice(d: Dict, dest: Dict, fields: map<string, Json>, store: Store)
    requires fields == map["p" := EMPTY, "q" := EMPTY]
    requires d in store && store[d] == map[] && dest in store && store[dest] == map["p" := Ref(d), "q" := Ref(d)]
    ensures StandsFor(Ref(dest), Obj(fields), store) && Owned(Ref(dest), Obj(fields), store)
  {
    assert StandsFor(Ref(d), EMPTY, store) && Owned(Ref(d), EMPTY, store);
  }

  lemma ValuesApart()
    ensures Over(Obj(map["p" := Obj(map["x" := Scalar(1)])]), Obj(map["p" := EMPTY, "q" := EMPTY])) ==
            Some(Obj(map["p" := Obj(map["x" := Scalar(1)]), "q" := EMPTY]))
  {
    var x, fields := Obj(map["x" := Scalar(1)]), map["p" := EMPTY, "q" := EMPTY];
    EmptyIsIdentity(x.fields);
    OneKeyOver("p", x, fields);
    assert fields["p" := x] == map["p" := x, "q" := EMPTY];
  }

  lemma CopiedTwice(d: Dict, dest: Dict, store: Store, memo: map<Dict, Dict>, copied: Store)
    requires d != dest && d in store && dest in store && dest in memo
    requires store[d] == map[] && store[dest] == map["p" := Ref(d), "q" := Ref(d)]
    requires IsCopy(memo, store, copied)
    ensures d in memo && memo[d] != memo[dest] && copied[memo[d]] == map[]
    ensures copied[memo[dest]] == map["p" := Ref(memo[d]), "q" := Ref(memo[d])]
  {
    assert "p" in store[dest] && "q" in store[dest];
  }

  lemma BothEntries(d: Dict, dest: Dict, store: Store, memo: map<Dict, Dict>, copied: Store, x: Json, order: Order,
    ending: Ending, after: Store)
    requires IsOrder(order) && x == Obj(map["x" := Scalar(1)])
    requires d != dest && d in store && dest in store && dest in memo
    requires store[d] == map[] && store[dest] == map["p" := Ref(d), "q" := Ref(d)]
    requires IsCopy(memo, store, copied)
    requires EndsAs(Merge(Obj(map["p" := x]), Ref(memo[dest]), copied, order, []), ending, after)
    ensures d in memo && memo[d] in after && after[memo[d]] == map["x" := Plain(Scalar(1))]
    ensures memo[dest] in after && after[memo[dest]] == map["p" := Ref(memo[d]), "q" := Ref(memo[d])]
  {
    CopiedTwice(d, dest, store, memo, copied);
    OneKeyMerges("p", x, memo[dest], copied, order, []);
    OneKeyMerges("x", Scalar(1), memo[d], copied, order, [Key("p")]);
    assert after == copied[memo[d] := map["x" := Plain(Scalar(1))]];
  }
}
