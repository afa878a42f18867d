/**
 The error-storm guard of src/common/event_management/error_storm_guard.py: a time window, a count
 per key and an LRU cap kept on one ordered map. The class at the end of the file is the guard; the
 functions before it say what one call does, and the lemmas speak of whole runs of calls.
 */
module StormGuard {

  type Key = string

  datatype Limits = Limits(window: real, maxPerKey: int, maxEntries: nat) {
    // A new window always lets its first write through, so a cap below one acts as one.
    function Cap(): nat {
      if maxPerKey < 1 then 1 else maxPerKey
    }
  }

  datatype Cell = Cell(start: real, count: nat)

  // The ordered map: its keys from least to most recently used, and its cells.
  datatype Store = Store(order: seq<Key>, cells: map<Key, Cell>) {
    ghost predicate Valid() {
      && Distinct(order)
      && SameKeys(order, cells.Keys)
    }
  }

  ghost predicate Distinct(order: seq<Key>) {
    order == [] || (order[0] !in order[1..] && Distinct(order[1..]))
  }

  ghost predicate SameKeys(order: seq<Key>, keys: set<Key>) {
    forall k :: k in order <==> k in keys
  }

  const EMPTY := Store([], map[])

  datatype Event = Call(key: Key, now: real) | Clear

  function Without(order: seq<Key>, key: Key): (rest: seq<Key>)
    ensures forall k :: k in rest <==> k in order && k != key
    ensures key !in order ==> rest == order
    ensures |rest| <= |order|
  {
    if order == [] then []
    else if order[0] == key then Without(order[1..], key)
    else [order[0]] + Without(order[1..], key)
  }

  function MovedToEnd(order: seq<Key>, key: Key): seq<Key> {
    Without(order, key) + [key]
  }

  function Newest(order: seq<Key>, n: nat): (kept: seq<Key>)
    ensures |kept| == if |order| <= n then |order| else n
  {
    if |order| <= n then order else order[|order| - n..]
  }

  // The newest n entries.
  function Trimmed(s: Store, n: nat): Store {
    var kept := Newest(s.order, n);
    Store(kept, map k | k in s.cells && k in kept :: s.cells[k])
  }

  function Evicted(limits: Limits, s: Store): Store {
    Trimmed(s, limits.maxEntries)
  }

  // -- one call --

  predicate Lapsed(limits: Limits, s: Store, key: Key, now: real) {
    key !in s.cells || now - s.cells[key].start >= limits.window
  }

  predicate Allows(limits: Limits, s: Store, key: Key, now: real) {
    Lapsed(limits, s, key, now) || s.cells[key].count < limits.maxPerKey
  }

  function AfterCall(limits: Limits, s: Store, key: Key, now: real): Store {
    var order := MovedToEnd(s.order, key);
    if Lapsed(limits, s, key, now) then
      Evicted(limits, Store(order, s.cells[key := Cell(now, 1)]))
    else if s.cells[key].count < limits.maxPerKey then
      Store(order, s.cells[key := s.cells[key].(count := s.cells[key].count + 1)])
    else
      Store(order, s.cells)
  }

  // -- runs --

  function Apply(limits: Limits, s: Store, e: Event): Store {
    match e
    case Call(key, now) => AfterCall(limits, s, key, now)
    case Clear => EMPTY
  }

  function After(limits: Limits, s: Store, run: seq<Event>): Store {
    if run == [] then s
    else Apply(limits, After(limits, s, run[..|run| - 1]), run[|run| - 1])
  }

  // How many calls for the key were answered True at a time that satisfies the predicate.
  ghost function Trues(limits: Limits, s: Store, run: seq<Event>, key: Key, when: real -> bool): nat {
    if run == [] then 0
    else
      var before, e := run[..|run| - 1], run[|run| - 1];
      var now := if e.Call? && e.key == key && when(e.now) && Allows(limits, After(limits, s, before), key, e.now)
                 then 1 else 0;
      Trues(limits, s, before, key, when) + now
  }

  ghost predicate Monotone(run: seq<Event>) {
    forall i, j :: 0 <= i < j < |run| && run[i].Call? && run[j].Call? ==> run[i].now <= run[j].now
  }

  // Once it is in the map the key stays there while the run is on: no eviction or clear drops it.
  ghost predicate Keeps(limits: Limits, s: Store, run: seq<Event>, key: Key) {
    forall i :: 0 <= i < |run| ==> KeptBy(limits, After(limits, s, run[..i]), run[i], key)
  }

  ghost predicate KeptBy(limits: Limits, s: Store, e: Event, key: Key) {
    key in s.cells || (e.Call? && e.key == key) ==> key in Apply(limits, s, e).cells
  }

  // -- the recency list, and what it means --

  // Distinct keys since the last clear, from least to most recently called.
  ghost function Recency(run: seq<Event>): seq<Key> {
    if run == [] then []
    else
      match run[|run| - 1]
      case Clear => []
      case Call(key, _) => MovedToEnd(Recency(run[..|run| - 1]), key)
  }

  // Position of the key's last call since the last clear, or -1.
  ghost function LastUse(run: seq<Event>, key: Key): int {
    if run == [] then -1
    else
      match run[|run| - 1]
      case Clear => -1
      case Call(k, _) => if k == key then |run| - 1 else LastUse(run[..|run| - 1], key)
  }

  ghost predicate SortedByUse(run: seq<Event>, order: seq<Key>) {
    order == []
    || ((forall k :: k in order[1..] ==> LastUse(run, order[0]) < LastUse(run, k)) && SortedByUse(run, order[1..]))
  }

  lemma {:induction false} WithoutKeepsOrder(run: seq<Event>, order: seq<Key>, key: Key)
    requires SortedByUse(run, order)
    ensures SortedByUse(run, Without(order, key))
  {
    if order != [] {
      WithoutKeepsOrder(run, order[1..], key);
      assert order[0] != key ==> Without(order, key)[1..] == Without(order[1..], key);
    }
  }

  // The key just called goes last; the others keep their places.
  lemma {:induction false} SortedAfterCall(before: seq<Event>, run: seq<Event>, order: seq<Key>, key: Key)
    requires SortedByUse(before, order) && key !in order
    requires forall k :: k in order ==> LastUse(run, k) == LastUse(before, k) < LastUse(run, key)
    ensures SortedByUse(run, order + [key])
  {
    if order != [] {
      SortedAfterCall(before, run, order[1..], key);
      assert (order + [key])[1..] == order[1..] + [key];
    }
  }

  lemma {:induction false} LastUseBounded(run: seq<Event>, key: Key)
    ensures -1 <= LastUse(run, key) < |run|
  {
    if run != [] && run[|run| - 1].Call? {
      LastUseBounded(run[..|run| - 1], key);
    }
  }

  // The recency list holds exactly the keys called since the last clear, sorted by their last call.
  lemma {:induction false} RecencyIsByLastUse(run: seq<Event>)
    ensures forall k :: k in Recency(run) <==> LastUse(run, k) >= 0
    ensures SortedByUse(run, Recency(run))
  {
    if run != [] && run[|run| - 1].Call? {
      var before, key := run[..|run| - 1], run[|run| - 1].key;
      RecencyIsByLastUse(before);
      WithoutKeepsOrder(before, Recency(before), key);
      forall k ensures LastUse(before, k) < |run| - 1 { LastUseBounded(before, k); }
      SortedAfterCall(before, run, Without(Recency(before), key), key);
    }
  }

  // -- LRU exactness --

  lemma {:induction false} WithoutDistinct(order: seq<Key>, key: Key)
    requires Distinct(order)
    ensures Distinct(Without(order, key))
    ensures |Without(order, key)| == if key in order then |order| - 1 else |order|
  {
    if order != [] {
      WithoutDistinct(order[1..], key);
      assert order[0] != key ==> Without(order, key)[1..] == Without(order[1..], key);
    }
  }

  lemma {:induction false} DistinctParts(a: seq<Key>, b: seq<Key>)
    ensures Distinct(a + b) <==> Distinct(a) && Distinct(b) && (forall k :: k in a ==> k !in b)
  {
    if a == [] {
      assert a + b == b;
    } else {
      assert (a + b)[1..] == a[1..] + b;
      DistinctParts(a[1..], b);
    }
  }

  lemma {:induction false} WithoutAppend(a: seq<Key>, b: seq<Key>, key: Key)
    ensures Without(a + b, key) == Without(a, key) + Without(b, key)
  {
    if a == [] {
      assert a + b == b;
    } else {
      assert (a + b)[1..] == a[1..] + b;
      WithoutAppend(a[1..], b, key);
    }
  }

  lemma NewestOfSuffix(a: seq<Key>, b: seq<Key>, n: nat)
    requires n <= |b|
    ensures Newest(a + b, n) == Newest(b, n)
  {
    var from := |b| - n;
    if a == [] {
      assert a + b == b;
    } else {
      assert b[0..] == b;
      forall i | 0 <= i < n ensures (a + b)[|a| + from..][i] == b[from..][i] {
      }
      assert (a + b)[|a| + from..] == b[from..];
    }
  }

  // Moving a key to the end commutes with forgetting all but the newest keys.
  lemma MoveThenForget(order: seq<Key>, key: Key, n: nat)
    requires Distinct(order)
    ensures Newest(MovedToEnd(Newest(order, n), key), n) == Newest(MovedToEnd(order, key), n)
  {
    if |order| > n {
      var lost, kept := order[..|order| - n], order[|order| - n..];
      assert order == lost + kept;
      MoveInTwoParts(lost, kept, key);
      NewestOfSuffix(Without(lost, key), MovedToEnd(kept, key), n);
    }
  }

  lemma MoveInTwoParts(lost: seq<Key>, kept: seq<Key>, key: Key)
    requires Distinct(lost + kept)
    ensures |MovedToEnd(kept, key)| >= |kept|
    ensures MovedToEnd(lost + kept, key) == Without(lost, key) + MovedToEnd(kept, key)
  {
    DistinctParts(lost, kept);
    WithoutDistinct(kept, key);
    WithoutAppend(lost, kept, key);
  }

  lemma MovedToEndKeys(order: seq<Key>, keys: set<Key>, key: Key)
    requires Distinct(order) && SameKeys(order, keys)
    ensures Distinct(MovedToEnd(order, key)) && SameKeys(MovedToEnd(order, key), keys + {key})
  {
    WithoutDistinct(order, key);
    DistinctParts(Without(order, key), [key]);
  }

  lemma TrimmedValid(s: Store, n: nat)
    requires s.Valid()
    ensures Trimmed(s, n).Valid()
  {
    var kept := Newest(s.order, n);
    var lost := s.order[..|s.order| - |kept|];
    assert s.order == lost + kept;
    DistinctParts(lost, kept);
    forall k ensures k in kept <==> k in Trimmed(s, n).cells.Keys {
      if k in kept {
        assert k in s.order;
      }
    }
  }

  // Popping the oldest entry of the newest n + 1 leaves the newest n.
  lemma PopOldest(s: Store, n: nat)
    requires s.Valid() && n < |s.order|
    ensures var t := Trimmed(s, n + 1);
            t.order != [] && Store(t.order[1..], t.cells - {t.order[0]}) == Trimmed(s, n)
  {
    var t, u := Trimmed(s, n + 1), Trimmed(s, n);
    TrimmedValid(s, n + 1);
    assert t.order[1..] == u.order;
    forall k ensures k in t.cells - {t.order[0]} <==> k in u.cells {
      assert k in t.order <==> k == t.order[0] || k in u.order;
      assert t.order[0] !in t.order[1..];
    }
  }

  lemma AfterCallValid(limits: Limits, s: Store, key: Key, now: real)
    requires s.Valid()
    ensures AfterCall(limits, s, key, now).Valid()
  {
    var order := MovedToEnd(s.order, key);
    MovedToEndKeys(s.order, s.cells.Keys, key);
    if Lapsed(limits, s, key, now) {
      var t := Store(order, s.cells[key := Cell(now, 1)]);
      assert t.cells.Keys == s.cells.Keys + {key};
      TrimmedValid(t, limits.maxEntries);
    } else {
      assert AfterCall(limits, s, key, now).cells.Keys == s.cells.Keys + {key};
    }
  }

  lemma {:induction false} AfterValid(limits: Limits, s: Store, run: seq<Event>)
    requires s.Valid()
    ensures After(limits, s, run).Valid()
  {
    if run != [] {
      var before, e := run[..|run| - 1], run[|run| - 1];
      AfterValid(limits, s, before);
      if e.Call? {
        AfterCallValid(limits, After(limits, s, before), e.key, e.now);
      }
    }
  }

  lemma {:induction false} RecencyDistinct(run: seq<Event>)
    ensures Distinct(Recency(run))
  {
    if run != [] && run[|run| - 1].Call? {
      var r := Recency(run[..|run| - 1]);
      RecencyDistinct(run[..|run| - 1]);
      MovedToEndKeys(r, (set k | k in r), run[|run| - 1].key);
    }
  }

  // After any run the map holds, in order, exactly the newest entries of the recency list.
  lemma {:induction false} LruExact(limits: Limits, run: seq<Event>)
    ensures After(limits, EMPTY, run).order == Newest(Recency(run), limits.maxEntries)
    ensures |After(limits, EMPTY, run).cells| <= limits.maxEntries
    ensures SameKeys(Newest(Recency(run), limits.maxEntries), After(limits, EMPTY, run).cells.Keys)
  {
    var s := After(limits, EMPTY, run);
    AfterValid(limits, EMPTY, run);
    if run != [] && run[|run| - 1].Call? {
      var before, e := run[..|run| - 1], run[|run| - 1];
      LruExact(limits, before);
      AfterValid(limits, EMPTY, before);
      RecencyDistinct(before);
      LruExactStep(limits, After(limits, EMPTY, before), Recency(before), e.key, e.now);
    }
    SizeOfOrder(s.order, s.cells.Keys);
    assert |s.cells| == |s.cells.Keys|;
  }

  lemma LruExactStep(limits: Limits, t: Store, recency: seq<Key>, key: Key, now: real)
    requires t.Valid() && Distinct(recency)
    requires t.order == Newest(recency, limits.maxEntries)
    ensures AfterCall(limits, t, key, now).order == Newest(MovedToEnd(recency, key), limits.maxEntries)
  {
    MoveThenForget(recency, key, limits.maxEntries);
    if !Lapsed(limits, t, key, now) {
      assert key in t.order;
      WithoutDistinct(t.order, key);
    }
  }

  lemma {:induction false} SizeOfOrder(order: seq<Key>, keys: set<Key>)
    requires Distinct(order) && SameKeys(order, keys)
    ensures |keys| == |order|
  {
    if order == [] {
      assert keys == {};
    } else {
      var tail := order[1..];
      forall k ensures k in tail <==> k in keys - {order[0]} {
        assert k in order <==> k == order[0] || k in tail;
      }
      SizeOfOrder(tail, keys - {order[0]});
    }
  }

  // Until more distinct keys are live than the map may hold, the cap cannot be noticed: the guard
  // is in the same state, and so gives the same answers, as one with any larger cap.
  lemma {:induction false} LargeCapUnnoticed(limits: Limits, larger: nat, run: seq<Event>)
    requires limits.maxEntries <= larger
    requires forall i :: 0 <= i <= |run| ==> |Recency(run[..i])| <= limits.maxEntries
    ensures After(limits, EMPTY, run) == After(limits.(maxEntries := larger), EMPTY, run)
  {
    if run != [] {
      var before, e := run[..|run| - 1], run[|run| - 1];
      forall i | 0 <= i <= |before| ensures |Recency(before[..i])| <= limits.maxEntries {
        assert before[..i] == run[..i];
      }
      LargeCapUnnoticed(limits, larger, before);
      assert run[..|run|] == run;
      if e.Call? {
        var t := After(limits, EMPTY, before);
        LruExact(limits, before);
        assert run[..|run| - 1] == before;
        assert t.order == Recency(before);
        assert |MovedToEnd(t.order, e.key)| <= limits.maxEntries;
      }
    }
  }

  lemma SameAnswersWithLargerCap(limits: Limits, larger: nat, run: seq<Event>, key: Key, now: real)
    requires limits.maxEntries <= larger
    requires forall i :: 0 <= i <= |run| ==> |Recency(run[..i])| <= limits.maxEntries
    ensures Allows(limits, After(limits, EMPTY, run), key, now)
         == Allows(limits, After(limits.(maxEntries := larger), EMPTY, run), key, now)
  {
    LargeCapUnnoticed(limits, larger, run);
  }

  // -- no false suppression --

  lemma {:induction false} TruesMonotone(limits: Limits, s: Store, run: seq<Event>, key: Key,
                                         p: real -> bool, q: real -> bool)
    requires forall t :: p(t) ==> q(t)
    ensures Trues(limits, s, run, key, p) <= Trues(limits, s, run, key, q)
  {
    if run != [] {
      TruesMonotone(limits, s, run[..|run| - 1], key, p, q);
    }
  }

  lemma MonotonePrefix(run: seq<Event>)
    requires run != [] && Monotone(run)
    ensures Monotone(run[..|run| - 1])
  {
    var before := run[..|run| - 1];
    forall i, j | 0 <= i < j < |before| && before[i].Call? && before[j].Call?
      ensures before[i].now <= before[j].now
    {
      assert run[i].now <= run[j].now;
    }
  }

  // Every live cell was earned: its window opened at a call already made, and it counts no more
  // writes than were allowed since then.
  lemma {:induction false} CellsAreEarned(limits: Limits, run: seq<Event>, key: Key)
    requires Monotone(run)
    requires key in After(limits, EMPTY, run).cells
    ensures var c := After(limits, EMPTY, run).cells[key];
            && 1 <= c.count <= limits.Cap()
            && c.count <= Trues(limits, EMPTY, run, key, t => c.start <= t)
            && (exists i :: 0 <= i < |run| && run[i].Call? && run[i].now == c.start)
  {
    var before, e := run[..|run| - 1], run[|run| - 1];
    MonotonePrefix(run);
    var s := After(limits, EMPTY, before);
    AfterValid(limits, EMPTY, before);
    var c := After(limits, EMPTY, run).cells[key];
    if e.key == key && Lapsed(limits, s, key, e.now) {
      assert run[|run| - 1].now == c.start;
    } else {
      CellsAreEarned(limits, before, key);
      var i :| 0 <= i < |before| && before[i].Call? && before[i].now == c.start;
      assert run[i].now == c.start;
    }
  }

  // Whenever a write is suppressed, a full cap of writes for that key was let through less than one
  // window earlier, whatever was evicted or cleared in between.
  lemma NeverFalselySuppresses(limits: Limits, run: seq<Event>, key: Key, now: real)
    requires Monotone(run + [Call(key, now)])
    requires !Allows(limits, After(limits, EMPTY, run), key, now)
    ensures Trues(limits, EMPTY, run, key, t => now - limits.window < t) >= limits.Cap()
  {
    assert (run + [Call(key, now)])[..|run|] == run;
    MonotonePrefix(run + [Call(key, now)]);
    var c := After(limits, EMPTY, run).cells[key];
    CellsAreEarned(limits, run, key);
    TruesMonotone(limits, EMPTY, run, key, t => c.start <= t, t => now - limits.window < t);
  }

  // -- rate bounds --

  // The cell of the key, if it has one, counts within the cap and opened its window no later than a time.
  ghost predicate Earlier(limits: Limits, s: Store, key: Key, now: real) {
    key in s.cells ==> s.cells[key].start <= now
  }

  ghost predicate WithinCap(limits: Limits, s: Store, key: Key) {
    key in s.cells ==> 1 <= s.cells[key].count <= limits.Cap()
  }

  lemma CellKept(limits: Limits, s: Store, run: seq<Event>, key: Key, now: real)
    requires Earlier(limits, s, key, now) && WithinCap(limits, s, key)
    requires forall i :: 0 <= i < |run| && run[i].Call? ==> run[i].now <= now
    ensures Earlier(limits, After(limits, s, run), key, now)
    ensures WithinCap(limits, After(limits, s, run), key)
  {
    WithinCapKept(limits, s, run, key);
    EarlierKept(limits, s, run, key, now);
  }

  lemma {:induction false} EarlierKept(limits: Limits, s: Store, run: seq<Event>, key: Key, now: real)
    requires Earlier(limits, s, key, now)
    requires forall i :: 0 <= i < |run| && run[i].Call? ==> run[i].now <= now
    ensures Earlier(limits, After(limits, s, run), key, now)
  {
    if run != [] {
      EarlierKept(limits, s, run[..|run| - 1], key, now);
    }
  }

  lemma {:induction false} WithinCapKept(limits: Limits, s: Store, run: seq<Event>, key: Key)
    requires WithinCap(limits, s, key)
    ensures WithinCap(limits, After(limits, s, run), key)
  {
    if run != [] {
      WithinCapKept(limits, s, run[..|run| - 1], key);
    }
  }

  lemma KeepsPrefix(limits: Limits, s: Store, run: seq<Event>, key: Key)
    requires run != [] && Keeps(limits, s, run, key)
    ensures Keeps(limits, s, run[..|run| - 1], key)
    ensures KeptBy(limits, After(limits, s, run[..|run| - 1]), run[|run| - 1], key)
  {
    var before := run[..|run| - 1];
    forall i | 0 <= i < |before| ensures KeptBy(limits, After(limits, s, before[..i]), before[i], key) {
      assert before[..i] == run[..i];
    }
  }

  // What one event does to the cell of a key that the event keeps.
  lemma CellStep(limits: Limits, s: Store, e: Event, key: Key)
    requires KeptBy(limits, s, e, key)
    ensures var t := Apply(limits, s, e);
            if e.Call? && e.key == key then
              && key in t.cells
              && t.cells[key] == if Lapsed(limits, s, key, e.now) then Cell(e.now, 1)
                                 else if s.cells[key].count < limits.maxPerKey
                                      then Cell(s.cells[key].start, s.cells[key].count + 1)
                                 else s.cells[key]
            else
              && (key in s.cells <==> key in t.cells)
              && (key in s.cells ==> t.cells[key] == s.cells[key])
  {
  }

  ghost function InSpan(a: real, length: real): real -> bool {
    t => a <= t < a + length
  }

  // Bounds on the n writes let through inside [a, a + window), by where the live window opened.
  ghost predicate SpanBounded(limits: Limits, n: nat, t: Store, key: Key, a: real) {
    && n <= 2 * limits.Cap() - 1
    && (key !in t.cells ==> n == 0)
    && (key in t.cells && t.cells[key].start < a ==> n < t.cells[key].count)
    && (key in t.cells && t.cells[key].start < a + limits.window ==> n < limits.Cap() + t.cells[key].count)
  }

  lemma SpanStep(limits: Limits, n: nat, s: Store, e: Event, key: Key, a: real)
    requires limits.window > 0.0
    requires SpanBounded(limits, n, s, key, a) && WithinCap(limits, s, key) && KeptBy(limits, s, e, key)
    requires e.Call? && e.key == key && Earlier(limits, s, key, e.now)
    requires e.now < a ==> n == 0
    ensures var m := if a <= e.now < a + limits.window && Allows(limits, s, key, e.now) then n + 1 else n;
            SpanBounded(limits, m, Apply(limits, s, e), key, a)
  {
    CellStep(limits, s, e, key);
  }

  lemma {:induction false} NothingBefore(limits: Limits, s: Store, run: seq<Event>, key: Key, a: real)
    requires forall i :: 0 <= i < |run| && run[i].Call? ==> run[i].now < a
    ensures Trues(limits, s, run, key, InSpan(a, limits.window)) == 0
  {
    if run != [] {
      NothingBefore(limits, s, run[..|run| - 1], key, a);
    }
  }

  lemma {:induction false} SpanInvariant(limits: Limits, s: Store, run: seq<Event>, key: Key, a: real)
    requires limits.window > 0.0
    requires Monotone(run) && Keeps(limits, s, run, key)
    requires WithinCap(limits, s, key)
    requires forall i :: 0 <= i < |run| && run[i].Call? ==> Earlier(limits, s, key, run[i].now)
    ensures SpanBounded(limits, Trues(limits, s, run, key, InSpan(a, limits.window)), After(limits, s, run), key, a)
  {
    if run != [] {
      var before, e := run[..|run| - 1], run[|run| - 1];
      MonotonePrefix(run);
      KeepsPrefix(limits, s, run, key);
      forall i | 0 <= i < |before| && before[i].Call? ensures Earlier(limits, s, key, before[i].now) {
        assert before[i] == run[i];
      }
      SpanInvariant(limits, s, before, key, a);
      WithinCapKept(limits, s, before, key);
      var n, t := Trues(limits, s, before, key, InSpan(a, limits.window)), After(limits, s, before);
      if e.Call? && e.key == key {
        forall i | 0 <= i < |before| && before[i].Call? ensures before[i].now <= e.now {
          assert run[i].now <= run[|run| - 1].now;
        }
        CellKept(limits, s, before, key, e.now);
        if e.now < a {
          NothingBefore(limits, s, before, key, a);
        }
        SpanStep(limits, n, t, e, key, a);
      } else {
        CellStep(limits, t, e, key);
      }
    }
  }

  // Cells left by a history suit every run that follows it.
  lemma HistoryThenRun(limits: Limits, history: seq<Event>, run: seq<Event>, key: Key)
    requires Monotone(history + run)
    ensures Monotone(run)
    ensures WithinCap(limits, After(limits, EMPTY, history), key)
    ensures forall i :: 0 <= i < |run| && run[i].Call? ==>
                        Earlier(limits, After(limits, EMPTY, history), key, run[i].now)
  {
    var all := history + run;
    assert forall i :: 0 <= i < |history| ==> history[i] == all[i];
    assert forall i :: 0 <= i < |run| ==> run[i] == all[|history| + i];
    WithinCapKept(limits, EMPTY, history, key);
    forall i | 0 <= i < |run| && run[i].Call?
      ensures Earlier(limits, After(limits, EMPTY, history), key, run[i].now)
    {
      CellKept(limits, EMPTY, history, key, run[i].now);
    }
  }

  // A key that is neither evicted nor cleared meanwhile gets at most 2 * cap - 1 writes through in any
  // half-open span of one window, whatever happened before.
  lemma SlidingRate(limits: Limits, history: seq<Event>, run: seq<Event>, key: Key, a: real)
    requires limits.window > 0.0
    requires Monotone(history + run)
    requires Keeps(limits, After(limits, EMPTY, history), run, key)
    ensures Trues(limits, After(limits, EMPTY, history), run, key, InSpan(a, limits.window)) <= 2 * limits.Cap() - 1
  {
    HistoryThenRun(limits, history, run, key);
    SpanInvariant(limits, After(limits, EMPTY, history), run, key, a);
  }

  // -- the bound from the start of a window --

  ghost function AnyTime(): real -> bool {
    t => true
  }

  // How far past its first window a key has come: j windows opened since, all of them full at most.
  ghost predicate Reached(limits: Limits, start: real, writes: nat, j: nat, live: Cell) {
    && writes <= limits.Cap() * j + live.count
    && live.start >= start + j as real * limits.window
  }

  lemma OpenNext(limits: Limits, start: real, writes: nat, j: nat, live: Cell, now: real)
    requires Reached(limits, start, writes, j, live)
    requires live.count <= limits.Cap() && now - live.start >= limits.window
    ensures Reached(limits, start, writes + 1, j + 1, Cell(now, 1))
  {
    assert limits.Cap() * (j + 1) == limits.Cap() * j + limits.Cap();
    assert (j + 1) as real * limits.window == j as real * limits.window + limits.window;
  }

  lemma {:induction false} WindowIndex(limits: Limits, s: Store, run: seq<Event>, key: Key) returns (j: nat)
    requires Keeps(limits, s, run, key)
    requires WithinCap(limits, s, key) && key in s.cells
    ensures key in After(limits, s, run).cells
    ensures Reached(limits, s.cells[key].start, s.cells[key].count + Trues(limits, s, run, key, AnyTime()), j,
                    After(limits, s, run).cells[key])
  {
    j := 0;
    if run == [] {
      assert limits.Cap() * 0 == 0;
    } else {
      var before, e := run[..|run| - 1], run[|run| - 1];
      KeepsPrefix(limits, s, run, key);
      WithinCapKept(limits, s, before, key);
      j := WindowIndex(limits, s, before, key);
      j := ReachedStep(limits, s.cells[key].start, s.cells[key].count + Trues(limits, s, before, key, AnyTime()), j,
                       After(limits, s, before), e, key);
    }
  }

  lemma ReachedStep(limits: Limits, start: real, writes: nat, j: nat, t: Store, e: Event, key: Key) returns (k: nat)
    requires key in t.cells && WithinCap(limits, t, key) && KeptBy(limits, t, e, key)
    requires Reached(limits, start, writes, j, t.cells[key])
    ensures key in Apply(limits, t, e).cells
    ensures var m := if e.Call? && e.key == key && Allows(limits, t, key, e.now) then writes + 1 else writes;
            Reached(limits, start, m, k, Apply(limits, t, e).cells[key])
  {
    CellStep(limits, t, e, key);
    k := j;
    if e.Call? && e.key == key && Lapsed(limits, t, key, e.now) {
      OpenNext(limits, start, writes, j, t.cells[key], e.now);
      k := j + 1;
    }
  }

  // From the start of a window, and counting the writes already made in it, a key kept in the map gets
  // at most cap * (floor(length / window) + 1) writes through within any length of time.
  lemma RateFromWindowStart(limits: Limits, history: seq<Event>, run: seq<Event>, key: Key, length: real)
    requires limits.window > 0.0 && length >= 0.0
    requires Monotone(history + run)
    requires Keeps(limits, After(limits, EMPTY, history), run, key)
    requires key in After(limits, EMPTY, history).cells
    requires var start := After(limits, EMPTY, history).cells[key].start;
             forall i :: 0 <= i < |run| && run[i].Call? ==> run[i].now <= start + length
    ensures var s := After(limits, EMPTY, history);
            s.cells[key].count + Trues(limits, s, run, key, AnyTime())
              <= limits.Cap() * ((length / limits.window).Floor + 1)
  {
    var s := After(limits, EMPTY, history);
    HistoryThenRun(limits, history, run, key);
    WithinCapKept(limits, s, run, key);
    CellKept(limits, s, run, key, s.cells[key].start + length);
    var j := WindowIndex(limits, s, run, key);
    WindowsIn(limits, s.cells[key].start, s.cells[key].count + Trues(limits, s, run, key, AnyTime()), j,
              After(limits, s, run).cells[key], length);
  }

  lemma WindowsIn(limits: Limits, start: real, writes: nat, j: nat, live: Cell, length: real)
    requires limits.window > 0.0 && length >= 0.0
    requires Reached(limits, start, writes, j, live)
    requires live.count <= limits.Cap() && live.start <= start + length
    ensures writes <= limits.Cap() * ((length / limits.window).Floor + 1)
  {
    var q := (length / limits.window).Floor;
    FloorAtLeast(j, length, limits.window);
    CapMonotone(limits.Cap(), j, q);
  }

  lemma CapMonotone(cap: nat, j: int, q: int)
    requires j <= q
    ensures cap * j + cap <= cap * (q + 1)
  {
    assert cap * (q + 1) == cap * j + cap * (q - j) + cap;
    assert cap * (q - j) >= 0;
  }

  lemma FloorAtLeast(j: nat, length: real, window: real)
    requires window > 0.0 && j as real * window <= length
    ensures j <= (length / window).Floor
  {
    var x := length / window;
    assert x * window == length;
    if x < j as real {
      PositiveProduct(j as real - x, window);
      assert false;
    }
  }

  lemma PositiveProduct(x: real, y: real)
    requires x > 0.0 && y > 0.0
    ensures x * y > 0.0
  {
  }

  // -- the sliding bound is attained, and when the documented one holds --

  // One call at 0, the rest of that window's writes half a window later, then a full window of them.
  ghost function StormTime(limits: Limits, i: int): real {
    if i == 0 then 0.0 else if i < limits.Cap() then limits.window / 2.0 else limits.window
  }

  ghost function Storm(limits: Limits, key: Key, n: nat): seq<Event> {
    seq(n, i => Call(key, StormTime(limits, i)))
  }

  ghost function AfterStorm(limits: Limits, key: Key, n: nat): Store {
    if n == 0 then EMPTY
    else if n <= limits.Cap() then Store([key], map[key := Cell(0.0, n)])
    else Store([key], map[key := Cell(limits.window, n - limits.Cap())])
  }

  lemma StormStep(limits: Limits, key: Key, n: nat)
    requires limits.window > 0.0 && limits.maxEntries >= 1 && n < 2 * limits.Cap()
    ensures Allows(limits, AfterStorm(limits, key, n), key, StormTime(limits, n))
    ensures Apply(limits, AfterStorm(limits, key, n), Call(key, StormTime(limits, n))) == AfterStorm(limits, key, n + 1)
  {
    assert Without([key], key) == [] == Without([], key);
  }

  lemma StormPrefix(limits: Limits, key: Key, n: nat, m: nat)
    requires 0 < n <= m
    ensures var run := Storm(limits, key, m)[..n];
            run[..|run| - 1] == Storm(limits, key, m)[..n - 1] && run[|run| - 1] == Call(key, StormTime(limits, n - 1))
  {
  }

  lemma {:induction false} StormState(limits: Limits, key: Key, n: nat, m: nat)
    requires limits.window > 0.0 && limits.maxEntries >= 1 && n <= m <= 2 * limits.Cap()
    ensures After(limits, EMPTY, Storm(limits, key, m)[..n]) == AfterStorm(limits, key, n)
  {
    if n > 0 {
      StormState(limits, key, n - 1, m);
      StormStep(limits, key, n - 1);
      StormPrefix(limits, key, n, m);
      AfterLast(limits, EMPTY, Storm(limits, key, m)[..n]);
    }
  }

  lemma AfterLast(limits: Limits, s: Store, run: seq<Event>)
    requires run != []
    ensures After(limits, s, run) == Apply(limits, After(limits, s, run[..|run| - 1]), run[|run| - 1])
  {
  }

  lemma {:induction false} StormCount(limits: Limits, key: Key, n: nat, m: nat)
    requires limits.window > 0.0 && limits.maxEntries >= 1 && n <= m <= 2 * limits.Cap()
    ensures Trues(limits, EMPTY, Storm(limits, key, m)[..n], key, InSpan(limits.window / 2.0, limits.window))
         == if n == 0 then 0 else n - 1
  {
    if n > 0 {
      StormCount(limits, key, n - 1, m);
      StormState(limits, key, n - 1, m);
      StormStep(limits, key, n - 1);
      StormPrefix(limits, key, n, m);
    }
  }

  lemma StormKeeps(limits: Limits, key: Key, m: nat)
    requires limits.window > 0.0 && limits.maxEntries >= 1 && m <= 2 * limits.Cap()
    ensures Keeps(limits, EMPTY, Storm(limits, key, m), key)
  {
    var run := Storm(limits, key, m);
    forall i | 0 <= i < |run| ensures KeptBy(limits, After(limits, EMPTY, run[..i]), run[i], key) {
      StormState(limits, key, i, m);
      StormStep(limits, key, i);
    }
  }

  lemma StormMonotone(limits: Limits, key: Key, m: nat)
    requires limits.window > 0.0
    ensures Monotone(Storm(limits, key, m))
  {
  }

  lemma StormTrues(limits: Limits, key: Key, m: nat)
    requires limits.window > 0.0 && limits.maxEntries >= 1 && 0 < m <= 2 * limits.Cap()
    ensures Trues(limits, EMPTY, Storm(limits, key, m), key, InSpan(limits.window / 2.0, limits.window)) == m - 1
  {
    StormCount(limits, key, m, m);
    assert Storm(limits, key, m)[..m] == Storm(limits, key, m);
  }

  // The sliding bound is the best possible, whatever the cap.
  lemma SlidingRateIsTight(limits: Limits, key: Key)
    requires limits.window > 0.0 && limits.maxEntries >= 1
    ensures var run := Storm(limits, key, 2 * limits.Cap());
            && Monotone(run)
            && Keeps(limits, EMPTY, run, key)
            && Trues(limits, EMPTY, run, key, InSpan(limits.window / 2.0, limits.window)) == 2 * limits.Cap() - 1
  {
    StormMonotone(limits, key, 2 * limits.Cap());
    StormKeeps(limits, key, 2 * limits.Cap());
    StormTrues(limits, key, 2 * limits.Cap());
  }

  // "At most the cap in any window" is what the guard delivers exactly when the cap is one.
  lemma DocumentedRateIff(limits: Limits)
    requires limits.window > 0.0 && limits.maxEntries >= 1
    ensures (forall run, key, a :: Monotone(run) && Keeps(limits, EMPTY, run, key) ==>
               Trues(limits, EMPTY, run, key, InSpan(a, limits.window)) <= limits.maxPerKey)
       <==> limits.maxPerKey == 1
  {
    if limits.maxPerKey == 1 {
      forall run, key, a | Monotone(run) && Keeps(limits, EMPTY, run, key)
        ensures Trues(limits, EMPTY, run, key, InSpan(a, limits.window)) <= 1
      {
        assert [] + run == run;
        SlidingRate(limits, [], run, key, a);
      }
    } else {
      SlidingRateIsTight(limits, "key");
      assert Trues(limits, EMPTY, Storm(limits, "key", 2 * limits.Cap()), "key",
          InSpan(limits.window / 2.0, limits.window))
          > limits.maxPerKey;
    }
  }

  // -- the guard itself --

  class ErrorStormGuard {
    const limits: Limits
    var order: seq<Key>
    var cells: map<Key, Cell>

    ghost predicate Valid()
      reads this
    {
      Contents().Valid()
    }

    ghost function Contents(): Store
      reads this
    {
      Store(order, cells)
    }

    constructor (limits: Limits)
      ensures Valid() && Contents() == EMPTY && this.limits == limits
    {
      this.limits := limits;
      order, cells := [], map[];
    }

    method ShouldRecord(key: Key, now: real) returns (ok: bool)
      requires Valid()
      modifies this
      ensures Valid()
      ensures ok == Allows(limits, old(Contents()), key, now)
      ensures Contents() == AfterCall(limits, old(Contents()), key, now)
    {
      AfterCallValid(limits, Contents(), key, now);
      if key !in cells || now - cells[key].start >= limits.window {
        MovedToEndKeys(order, cells.Keys, key);
        cells := cells[key := Cell(now, 1)];
        MoveToEnd(key);
        assert SameKeys(order, cells.Keys);
        EvictIfNeeded();
        return true;
      }
      if cells[key].count < limits.maxPerKey {
        cells := cells[key := Cell(cells[key].start, cells[key].count + 1)];
        MoveToEnd(key);
        return true;
      }
      MoveToEnd(key);
      return false;
    }

    method MoveToEnd(key: Key)
      modifies this`order
      ensures order == MovedToEnd(old(order), key)
    {
      order := Without(order, key) + [key];
    }

    // Drops least recently used entries until the map fits.
    method EvictIfNeeded()
      requires Valid()
      modifies this
      ensures Valid()
      ensures Contents() == Evicted(limits, old(Contents()))
    {
      ghost var was := Contents();
      assert Contents() == Trimmed(was, |order|);
      while |order| > limits.maxEntries
        invariant |order| <= |was.order|
        invariant Contents() == Trimmed(was, |order|)
        invariant |order| < |was.order| ==> |order| >= limits.maxEntries
      {
        PopOldest(was, |order| - 1);
        var oldest := order[0];
        order, cells := order[1..], cells - {oldest};
      }
      TrimmedValid(was, |order|);
    }

    method Clear()
      modifies this
      ensures Valid() && Contents() == EMPTY
    {
      order, cells := [], map[];
    }
  }
}
