/**
 The event-workflow protocol of src/workflowmanager/workflowscheduler.py, as atomic steps of producers, callers
 that start a workflow by hand, the one thread that drains the queue, and the workers. Every interleaving of
 these steps is a run. SHA-256 is a parameter, and random identifiers of executions never repeat: they are
 handed out in increasing order.
 */
module Scheduler {
  import opened Options

  // -- the number of an execution --

  // MAX_SIZE_SIGNED_INT + 1
  const NUMBERS := 0x8000_0000

  // `random` is the hash of a fresh random identifier.
  function ExecutionNumber(hash: string -> nat, fingerprint: string, workflow: string, random: nat): (number: nat)
    ensures number < NUMBERS
  {
    (if fingerprint != "" && workflow != "" then hash(fingerprint + ":" + workflow)
     else if fingerprint != "" then hash(fingerprint)
     else random) % NUMBERS
  }

  // -- the state --

  datatype Strategy = Parallel | Nonparallel | NonparallelWithRetry | OtherStrategy

  datatype Status = Success | Error | ProvidersNotConfigured

  datatype Event = Event(workflow: string, fingerprint: string, incident: bool, key: nat)

  // An entry of the queue. A producer puts the loaded workflow into it, a retry does not.
  datatype Item = Item(event: Event, execution: Option<nat>, retry: bool, carried: Option<Strategy>)

  // A running row of the table of executions; `exclusive` when the drain made it for a strategy other than PARALLEL.
  datatype Row = Row(workflow: string, number: nat, fingerprint: string, exclusive: bool)

  datatype Finish = Finish(id: Option<nat>, status: Status)

  datatype Rows = Rows(running: map<nat, Row>, next: nat, finished: seq<Finish>, counter: nat)

  // What the drain is doing with the item it has taken.
  datatype Current =
    | Free
    | Loaded(item: Item, strategy: Strategy)
    | Clashed(item: Item)
    | Ready(item: Item, id: nat, refreshed: bool)
    | Failing(event: Event, failed: Option<nat>, status: Status)

  // `ran` has left the gauge and is not finished yet; `leaving` is finished and has not left the gauge yet.
  datatype Crew = Crew(queued: set<nat>, inside: set<nat>, raised: set<nat>, ran: map<nat, Status>, leaving: set<nat>,
      gauge: int)

  datatype Log = Log(enqueued: multiset<Event>, submitted: multiset<Event>, rejected: multiset<Event>,
      dropped: multiset<Event>)

  datatype State = State(
    pending: seq<Item>,
    batch: seq<Item>,
    current: Current,
    handing: map<nat, Item>,     // started by hand: the row is there, the queue has not seen it
    rows: Rows,
    crew: Crew,
    log: Log)

  const START := State([], [], Free, map[], Rows(map[], 0, [], 0), Crew({}, {}, {}, map[], {}, 0),
                       Log(multiset{}, multiset{}, multiset{}, multiset{}))

  // -- the table of executions --

  predicate Clashes(rows: Rows, workflow: string, number: nat) {
    exists id :: id in rows.running && rows.running[id].workflow == workflow && rows.running[id].number == number
  }

  function Inserted(rows: Rows, row: Row): Rows {
    rows.(running := rows.running[rows.next := row], next := rows.next + 1)
  }

  // `_finish_workflow_execution`: the counter, then the row.
  function Finished(rows: Rows, id: Option<nat>, status: Status): Rows {
    rows.(counter := rows.counter + 1,
          running := if id.Some? then rows.running - {id.value} else rows.running,
          finished := rows.finished + [Finish(id, status)])
  }

  // -- the steps --

  datatype Load = Found(strategy: Strategy) | NotConfigured | Broken

  datatype Action =
    | Produce(event: Event, strategy: Strategy)
    | ManualCreate(event: Event, random: nat, carried: Option<Strategy>)
    | ManualEnqueue(id: nat)
    | SwapOut
    | Take(load: Load)
    | Create(random: nat, breaks: bool)
    | Requeue
    | Enrich(works: bool)
    | Submit
    | FinishItem
    | Begin(id: nat)
    | Raise(id: nat)
    | Return(id: nat, errors: bool)
    | FinishRun(id: nat)
    | Leave(id: nat)

  predicate Enabled(s: State, a: Action) {
    match a
    case Produce(_, _) => true
    case ManualCreate(event, random, _) => !Clashes(s.rows, event.workflow, random % NUMBERS)
    case ManualEnqueue(id) => id in s.handing
    case SwapOut => s.current.Free? && s.batch == []
    case Take(_) => s.current.Free? && s.batch != []
    case Create(_, _) => s.current.Loaded?
    case Requeue => s.current.Clashed?
    case Enrich(_) => s.current.Ready? && s.current.item.retry && !s.current.refreshed
    case Submit => s.current.Ready? && (s.current.item.retry ==> s.current.refreshed)
    case FinishItem => s.current.Failing?
    case Begin(id) => id in s.crew.queued
    case Raise(id) => id in s.crew.inside
    case Return(id, _) => id in s.crew.inside
    case FinishRun(id) => id in s.crew.raised || id in s.crew.ran
    case Leave(id) => id in s.crew.leaving
  }

  function Taken(item: Item, load: Load): Current {
    match (if item.carried.Some? then Found(item.carried.value) else load)
    case Found(strategy) =>
      if item.execution.Some? then Ready(item, item.execution.value, false) else Loaded(item, strategy)
    case NotConfigured => Failing(item.event, item.execution, ProvidersNotConfigured)
    case Broken => Failing(item.event, item.execution, Error)
  }

  function NumberFor(hash: string -> nat, event: Event, strategy: Strategy, random: nat): nat {
    if strategy.Parallel? then random % NUMBERS else ExecutionNumber(hash, event.fingerprint, event.workflow, random)
  }

  function Dropped(s: State): State
    requires s.current.Loaded?
  {
    s.(current := Free, log := s.log.(dropped := s.log.dropped + multiset{s.current.item.event}))
  }

  function AfterCreate(hash: string -> nat, s: State, random: nat, breaks: bool): State
    requires s.current.Loaded?
  {
    var item, strategy := s.current.item, s.current.strategy;
    var number := NumberFor(hash, item.event, strategy, random);
    if Clashes(s.rows, item.event.workflow, number) then
      match strategy
      case NonparallelWithRetry => s.(current := Clashed(item))
      case Nonparallel => s.(current := Failing(item.event, item.execution, Error))
      case _ => Dropped(s)
    else if breaks then Dropped(s)
    else
      s.(current := Ready(item, s.rows.next, false),
         rows := Inserted(s.rows, Row(item.event.workflow, number, item.event.fingerprint, !strategy.Parallel?)))
  }

  function ManualFingerprint(event: Event): string {
    if event.incident then "incident:" + event.fingerprint else event.fingerprint
  }

  function AfterFinishRun(s: State, id: nat): State {
    if id in s.crew.raised then
      s.(rows := Finished(s.rows, Some(id), Error),
         crew := s.crew.(raised := s.crew.raised - {id}, leaving := s.crew.leaving + {id}))
    else if id in s.crew.ran then
      s.(rows := Finished(s.rows, Some(id), s.crew.ran[id]), crew := s.crew.(ran := s.crew.ran - {id}))
    else s
  }

  function Step(hash: string -> nat, s: State, a: Action): State
    requires Enabled(s, a)
  {
    match a
    case Produce(event, strategy) =>
      s.(pending := s.pending + [Item(event, None, false, Some(strategy))],
         log := s.log.(enqueued := s.log.enqueued + multiset{event}))
    case ManualCreate(event, random, carried) =>
      s.(handing := s.handing[s.rows.next := Item(event, Some(s.rows.next), true, carried)],
         rows := Inserted(s.rows, Row(event.workflow, random % NUMBERS, ManualFingerprint(event), false)))
    case ManualEnqueue(id) =>
      s.(pending := s.pending + [s.handing[id].(execution := Some(id))],
         handing := s.handing - {id},
         log := s.log.(enqueued := s.log.enqueued + multiset{s.handing[id].event}))
    case SwapOut => s.(pending := [], batch := s.pending)
    case Take(load) => s.(current := Taken(s.batch[0], load), batch := s.batch[1..])
    case Create(random, breaks) => AfterCreate(hash, s, random, breaks)
    case Requeue =>
      s.(current := Free, pending := s.pending + [Item(s.current.item.event, s.current.item.execution, true, None)])
    case Enrich(works) =>
      s.(current := if works then s.current.(refreshed := true)
          else Failing(s.current.item.event, Some(s.current.id), Error))
    case Submit =>
      s.(current := Free, crew := s.crew.(queued := s.crew.queued + {s.current.id}),
         log := s.log.(submitted := s.log.submitted + multiset{s.current.item.event}))
    case FinishItem =>
      s.(current := Free, rows := Finished(s.rows, s.current.failed, s.current.status),
         log := s.log.(rejected := s.log.rejected + multiset{s.current.event}))
    case Begin(id) =>
      s.(crew := s.crew.(queued := s.crew.queued - {id}, inside := s.crew.inside + {id}, gauge := s.crew.gauge + 1))
    case Raise(id) => s.(crew := s.crew.(inside := s.crew.inside - {id}, raised := s.crew.raised + {id}))
    case Return(id, errors) =>
      s.(crew := s.crew.(inside := s.crew.inside - {id}, ran := s.crew.ran[id := if errors then Error else Success],
                         gauge := s.crew.gauge - 1))
    case FinishRun(id) => AfterFinishRun(s, id)
    case Leave(id) => s.(crew := s.crew.(leaving := s.crew.leaving - {id}, gauge := s.crew.gauge - 1))
  }

  // A step that is not possible where it stands in the run does nothing.
  function Next(hash: string -> nat, s: State, a: Action): State {
    if Enabled(s, a) then Step(hash, s, a) else s
  }

  function After(hash: string -> nat, run: seq<Action>): State {
    if run == [] then START else Next(hash, After(hash, run[..|run| - 1]), run[|run| - 1])
  }

  lemma AfterMore(hash: string -> nat, run: seq<Action>, a: Action)
    ensures After(hash, run + [a]) == Next(hash, After(hash, run), a)
  {
    assert (run + [a])[..|run|] == run;
  }

  // -- one running row per workflow and fingerprint --

  ghost predicate Numbered(hash: string -> nat, rows: Rows) {
    && (forall id :: id in rows.running ==> id < rows.next)
    && (forall i, j :: i in rows.running && j in rows.running && i != j ==>
          rows.running[i].workflow != rows.running[j].workflow || rows.running[i].number != rows.running[j].number)
    && (forall id :: id in rows.running && rows.running[id].exclusive && rows.running[id].fingerprint != "" ==>
          rows.running[id].number == ExecutionNumber(hash, rows.running[id].fingerprint, rows.running[id].workflow, 0))
  }

  lemma NumberedAfterInsert(hash: string -> nat, rows: Rows, row: Row)
    requires Numbered(hash, rows) && !Clashes(rows, row.workflow, row.number)
    requires row.exclusive && row.fingerprint != "" ==>
             row.number == ExecutionNumber(hash, row.fingerprint, row.workflow, 0)
    ensures Numbered(hash, Inserted(rows, row))
  {
  }

  lemma NumberedAfterCreate(hash: string -> nat, s: State, random: nat, breaks: bool)
    requires Numbered(hash, s.rows) && s.current.Loaded?
    ensures Numbered(hash, AfterCreate(hash, s, random, breaks).rows)
  {
    var event, strategy := s.current.item.event, s.current.strategy;
    var number := NumberFor(hash, event, strategy, random);
    if !Clashes(s.rows, event.workflow, number) && !breaks {
      NumberedAfterInsert(hash, s.rows, Row(event.workflow, number, event.fingerprint, !strategy.Parallel?));
    }
  }

  lemma NumberedAfterFinish(hash: string -> nat, rows: Rows, id: Option<nat>, status: Status)
    requires Numbered(hash, rows)
    ensures Numbered(hash, Finished(rows, id, status))
  {
  }

  lemma {:induction false} NumberedAlways(hash: string -> nat, run: seq<Action>)
    ensures Numbered(hash, After(hash, run).rows)
  {
    if run != [] {
      var s, a := After(hash, run[..|run| - 1]), run[|run| - 1];
      NumberedAlways(hash, run[..|run| - 1]);
      if Enabled(s, a) {
        NumberedAfterStep(hash, s, a);
      }
    }
  }

  lemma NumberedAfterStep(hash: string -> nat, s: State, a: Action)
    requires Numbered(hash, s.rows) && Enabled(s, a)
    ensures Numbered(hash, Step(hash, s, a).rows)
  {
    match a
    case ManualCreate(event, random, _) =>
      NumberedAfterInsert(hash, s.rows, Row(event.workflow, random % NUMBERS, ManualFingerprint(event), false));
    case Create(random, breaks) => NumberedAfterCreate(hash, s, random, breaks);
    case FinishItem => NumberedAfterFinish(hash, s.rows, s.current.failed, s.current.status);
    case FinishRun(id) =>
      NumberedAfterFinish(hash, s.rows, Some(id), if id in s.crew.raised then Error else s.crew.ran[id]);
    case _ => assert Step(hash, s, a).rows == s.rows;
  }

  // The running rows that the drain made for a workflow and a fingerprint under a non-parallel strategy.
  ghost function Holders(rows: Rows, workflow: string, fingerprint: string): set<nat> {
    set id | id in rows.running && rows.running[id].exclusive && rows.running[id].workflow == workflow
             && rows.running[id].fingerprint == fingerprint
  }

  ghost predicate Exclusive(hash: string -> nat, workflow: string, fingerprint: string) {
    forall run: seq<Action>, i, j ::
      i in Holders(After(hash, run).rows, workflow, fingerprint)
          && j in Holders(After(hash, run).rows, workflow, fingerprint)
      ==> i == j
  }

  // In every run at most one such row is running, and that holds for a fingerprint exactly when it is not empty:
  // without one the execution number is random.
  lemma ExclusiveIff(hash: string -> nat, workflow: string, fingerprint: string)
    ensures Exclusive(hash, workflow, fingerprint) <==> fingerprint != ""
  {
    if fingerprint != "" {
      forall run: seq<Action>, i, j |
        i in Holders(After(hash, run).rows, workflow, fingerprint)
            && j in Holders(After(hash, run).rows, workflow, fingerprint)
        ensures i == j
      {
        NumberedAlways(hash, run);
      }
    } else {
      var run := TwoAtOnce(hash, workflow);
      assert 0 in Holders(After(hash, run).rows, workflow, fingerprint)
          && 1 in Holders(After(hash, run).rows, workflow, fingerprint);
    }
  }

  // While such a row is running no other is made: the item is requeued, finished with an error or dropped, as its
  // strategy has it.
  lemma HeldUp(hash: string -> nat, run: seq<Action>, random: nat, breaks: bool)
    requires var s := After(hash, run);
             && s.current.Loaded? && !s.current.strategy.Parallel? && s.current.item.event.fingerprint != ""
             && Holders(s.rows, s.current.item.event.workflow, s.current.item.event.fingerprint) != {}
    ensures var s := After(hash, run);
            var t := AfterCreate(hash, s, random, breaks);
            && t.rows == s.rows
            && t.current == match s.current.strategy
                            case NonparallelWithRetry => Clashed(s.current.item)
                            case Nonparallel => Failing(s.current.item.event, s.current.item.execution, Error)
                            case _ => Free
  {
    NumberedAlways(hash, run);
    var s := After(hash, run);
    var id :| id in Holders(s.rows, s.current.item.event.workflow, s.current.item.event.fingerprint);
    assert s.rows.running[id].number == NumberFor(hash, s.current.item.event, s.current.strategy, random);
  }

  ghost predicate OnlyRow(rows: Rows, workflow: string, id: nat) {
    forall other :: other in rows.running && rows.running[other].workflow == workflow ==> other == id
  }

  // When the only running row of a workflow is one made for a fingerprint, another fingerprint is refused if and
  // only if the two have the same hash; whatever else runs, equal hashes are enough.
  lemma HeldUpByHash(hash: string -> nat, run: seq<Action>, random: nat, id: nat)
    requires var s := After(hash, run);
             && s.current.Loaded? && !s.current.strategy.Parallel?
             && s.current.item.event.fingerprint != "" && s.current.item.event.workflow != ""
             && id in s.rows.running && s.rows.running[id].exclusive && s.rows.running[id].fingerprint != ""
             && s.rows.running[id].workflow == s.current.item.event.workflow
    ensures var s := After(hash, run);
            var event, row, t := s.current.item.event, s.rows.running[id], AfterCreate(hash, s, random, false);
            var same := hash(row.fingerprint + ":" + event.workflow) % NUMBERS
                     == hash(event.fingerprint + ":" + event.workflow) % NUMBERS;
            && (same ==> t.rows == s.rows && !t.current.Ready?)
            && (!same && OnlyRow(s.rows, event.workflow, id) ==> t.current == Ready(s.current.item, s.rows.next, false))
  {
    NumberedAlways(hash, run);
    var s := After(hash, run);
    assert s.rows.running[id].number == ExecutionNumber(hash, s.rows.running[id].fingerprint,
        s.current.item.event.workflow, 0);
  }

  lemma TwoAtOnce(hash: string -> nat, workflow: string) returns (run: seq<Action>)
    ensures {0, 1} <= Holders(After(hash, run).rows, workflow, "")
  {
    run := TwoRun(hash, Event(workflow, "", false, 0), Nonparallel);
  }

  // Under PARALLEL the number is random: the row is made, with it, unless a running row of the workflow happens to
  // have the same one.
  lemma ParallelIff(hash: string -> nat, s: State, random: nat)
    requires s.current.Loaded? && s.current.strategy.Parallel?
    ensures var event, t := s.current.item.event, AfterCreate(hash, s, random, false);
            && (t.current == Ready(s.current.item, s.rows.next, false) <==>
                forall id :: id in s.rows.running && s.rows.running[id].workflow == event.workflow ==>
                  s.rows.running[id].number != random % 0x8000_0000)
            && (t.current.Ready? ==>
                t.rows.running == s.rows.running[s.rows.next :=
                  Row(event.workflow, random % 0x8000_0000, event.fingerprint, false)])
  {
  }

  // What the number is in general, and that it decides.
  lemma CreatedIff(hash: string -> nat, s: State, random: nat)
    requires s.current.Loaded?
    ensures var event, strategy, t := s.current.item.event, s.current.strategy, AfterCreate(hash, s, random, false);
            var number := (if strategy.Parallel? || event.fingerprint == "" then random
                           else if event.workflow == "" then hash(event.fingerprint)
                           else hash(event.fingerprint + ":" + event.workflow)) % 0x8000_0000;
            if exists id :: id in s.rows.running && s.rows.running[id].workflow == event.workflow
                            && s.rows.running[id].number == number
            then t.rows == s.rows && !t.current.Ready?
            else t.current == Ready(s.current.item, s.rows.next, false)
                 && t.rows.running == s.rows.running[s.rows.next :=
                     Row(event.workflow, number, event.fingerprint, !strategy.Parallel?)]
  {
  }

  // So two executions of one workflow for one fingerprint can run at a time.
  lemma TwoInParallel(hash: string -> nat, workflow: string, fingerprint: string) returns (run: seq<Action>)
    ensures After(hash, run).rows.running == map[0 := Row(workflow, 0, fingerprint, false),
                                                 1 := Row(workflow, 1, fingerprint, false)]
  {
    run := TwoRun(hash, Event(workflow, fingerprint, false, 0), Parallel);
  }

  // Of an event whose execution number is random, two executions can run.
  lemma TwoRun(hash: string -> nat, event: Event, strategy: Strategy) returns (run: seq<Action>)
    requires strategy.Parallel? || event.fingerprint == ""
    ensures After(hash, run).rows.running ==
            map[0 := Row(event.workflow, 0, event.fingerprint, !strategy.Parallel?),
                1 := Row(event.workflow, 1, event.fingerprint, !strategy.Parallel?)]
  {
    var item := Item(event, None, false, Some(strategy));
    var first := OneRuns(hash, item);
    var s, row := After(hash, first), Row(event.workflow, 0, event.fingerprint, !strategy.Parallel?);
    run := first + [Create(1, false)];
    AfterMore(hash, first, Create(1, false));
    assert !Clashes(s.rows, event.workflow, 1);
    assert After(hash, run).rows.running == map[0 := row, 1 := row.(number := 1)];
  }

  lemma OneRuns(hash: string -> nat, item: Item) returns (run: seq<Action>)
    requires item.carried.Some? && item == Item(item.event, None, false, item.carried)
    requires item.carried.value.Parallel? || item.event.fingerprint == ""
    ensures var s := After(hash, run);
            && s.rows == Rows(
                 map[0 := Row(item.event.workflow, 0, item.event.fingerprint, item.carried != Some(Parallel))],
                 1, [], 0)
            && s.current == Loaded(item, item.carried.value)
  {
    var queued := TwoTaken(hash, item);
    var s := After(hash, queued);
    AfterMore(hash, queued, Create(0, false));
    var s1 := AfterCreate(hash, s, 0, false);
    assert s1.rows.running ==
      map[0 := Row(item.event.workflow, 0, item.event.fingerprint, item.carried != Some(Parallel))];
    assert s1.current == Ready(item, 0, false) && s1.batch == [item];
    AfterMore(hash, queued + [Create(0, false)], Submit);
    var s2 := Step(hash, s1, Submit);
    assert s2.rows == s1.rows && s2.current == Free && s2.batch == [item];
    AfterMore(hash, queued + [Create(0, false)] + [Submit], Take(Broken));
    run := queued + [Create(0, false)] + [Submit] + [Take(Broken)];
  }

  lemma TwoTaken(hash: string -> nat, item: Item) returns (run: seq<Action>)
    requires item.carried.Some? && item == Item(item.event, None, false, item.carried)
    ensures var s := After(hash, run);
            s.rows == START.rows && s.batch == [item] && s.current == Loaded(item, item.carried.value)
  {
    var a := Produce(item.event, item.carried.value);
    AfterMore(hash, [], a);
    AfterMore(hash, [] + [a], a);
    var s2 := Step(hash, Step(hash, START, a), a);
    assert s2.pending == [item, item] && s2.rows == START.rows && s2.current == Free && s2.batch == [];
    AfterMore(hash, [] + [a] + [a], SwapOut);
    AfterMore(hash, [] + [a] + [a] + [SwapOut], Take(Broken));
    run := [] + [a] + [a] + [SwapOut] + [Take(Broken)];
  }

  // -- every execution is in one place, and finished once --

  function One(b: bool): nat {
    if b then 1 else 0
  }

  function Queued(items: seq<Item>, id: nat): nat {
    if items == [] then 0 else Queued(items[..|items| - 1], id) + One(items[|items| - 1].execution == Some(id))
  }

  // How often an execution was finished.
  function Finishes(finished: seq<Finish>, id: nat): nat {
    if finished == [] then 0
    else Finishes(finished[..|finished| - 1], id) + One(finished[|finished| - 1].id == Some(id))
  }

  function Held(current: Current, id: nat): nat {
    match current
    case Free => 0
    case Loaded(item, _) => One(item.execution == Some(id))
    case Clashed(item) => One(item.execution == Some(id))
    case Ready(_, held, _) => One(held == id)
    case Failing(_, held, _) => One(held == Some(id))
  }

  function Crewed(crew: Crew, id: nat): nat {
    One(id in crew.queued) + One(id in crew.inside) + One(id in crew.raised) + One(id in crew.ran)
  }

  // In how many places an execution is that can still lead to its being finished.
  function Places(s: State, id: nat): nat {
    One(id in s.handing) + Queued(s.pending, id) + Queued(s.batch, id) + Held(s.current, id) + Crewed(s.crew, id)
  }

  // `places` and `finishes` count one execution; it is made or not, running or not, and on its way out or not.
  predicate Counted(places: nat, finishes: nat, made: bool, running: bool, leaving: bool) {
    && places + finishes == One(made)
    && (running <==> made && finishes == 0)
    && (leaving ==> finishes == 1)
  }

  ghost predicate PlacedAt(s: State, id: nat) {
    Counted(Places(s, id), Finishes(s.rows.finished, id), id < s.rows.next, id in s.rows.running, id in s.crew.leaving)
  }

  ghost predicate Placed(s: State) {
    && (forall id: nat :: PlacedAt(s, id))
    && (s.current.Loaded? || s.current.Clashed? ==> s.current.item.execution == None)
  }

  lemma QueuedMore(items: seq<Item>, item: Item, id: nat)
    ensures Queued(items + [item], id) == Queued(items, id) + One(item.execution == Some(id))
  {
    assert (items + [item])[..|items|] == items;
  }

  lemma {:induction false} QueuedFirst(items: seq<Item>, id: nat)
    requires items != []
    ensures Queued(items, id) == One(items[0].execution == Some(id)) + Queued(items[1..], id)
  {
    if |items| > 1 {
      QueuedFirst(items[..|items| - 1], id);
      assert items[1..][..|items| - 2] == items[..|items| - 1][1..];
    }
  }

  lemma FinishesMore(finished: seq<Finish>, last: Finish, id: nat)
    ensures Finishes(finished + [last], id) == Finishes(finished, id) + One(last.id == Some(id))
  {
    assert (finished + [last])[..|finished|] == finished;
  }

  lemma {:induction false} FinishesAt(finished: seq<Finish>, k: nat, id: nat)
    requires k < |finished| && finished[k].id == Some(id)
    ensures Finishes(finished, id) >= 1
  {
    if k < |finished| - 1 {
      FinishesAt(finished[..|finished| - 1], k, id);
    }
  }

  lemma EnqueuingKeepsPlaces(hash: string -> nat, s: State, a: Action, id: nat)
    requires PlacedAt(s, id) && Enabled(s, a) && (a.Produce? || a.ManualEnqueue?)
    ensures PlacedAt(Step(hash, s, a), id)
  {
    match a {
      case Produce(event, strategy) => QueuedMore(s.pending, Item(event, None, false, Some(strategy)), id);
      case ManualEnqueue(handed) => QueuedMore(s.pending, s.handing[handed].(execution := Some(handed)), id);
    }
    assert Places(Step(hash, s, a), id) == Places(s, id);
  }

  lemma CallingKeepsPlaces(hash: string -> nat, s: State, a: Action, id: nat)
    requires PlacedAt(s, id) && Enabled(s, a) && a.ManualCreate?
    ensures PlacedAt(Step(hash, s, a), id)
  {
    assert Places(Step(hash, s, a), id) == Places(s, id) + One(id == s.rows.next);
  }

  lemma DrainKeepsPlaces(hash: string -> nat, s: State, a: Action, id: nat)
    requires PlacedAt(s, id) && Enabled(s, a) && (a.SwapOut? || a.Take? || a.Requeue? || a.Enrich? || a.Submit?)
    ensures PlacedAt(Step(hash, s, a), id)
  {
    match a {
      case Take(load) => QueuedFirst(s.batch, id);
      case Requeue => QueuedMore(s.pending, Item(s.current.item.event, s.current.item.execution, true, None), id);
      case _ =>
    }
    assert Places(Step(hash, s, a), id) == Places(s, id);
  }

  lemma CreatingKeepsPlaces(hash: string -> nat, s: State, random: nat, breaks: bool, id: nat)
    requires PlacedAt(s, id) && s.current.Loaded? && s.current.item.execution == None
    ensures PlacedAt(AfterCreate(hash, s, random, breaks), id)
  {
    var t := AfterCreate(hash, s, random, breaks);
    if t.rows == s.rows {
      assert Places(t, id) == Places(s, id);
    } else {
      assert Places(t, id) == Places(s, id) + One(id == s.rows.next);
    }
  }

  lemma FinishingKeepsPlaces(s: State, t: State, failed: Option<nat>, status: Status, id: nat)
    requires PlacedAt(s, id) && t.rows == Finished(s.rows, failed, status) && t.crew.leaving == s.crew.leaving
    requires Places(s, id) == Places(t, id) + One(failed == Some(id))
    ensures PlacedAt(t, id)
  {
    FinishesMore(s.rows.finished, Finish(failed, status), id);
    CountedAfterFinish(Places(t, id), Finishes(s.rows.finished, id), One(failed == Some(id)),
                       id < s.rows.next, id in s.rows.running, id in s.crew.leaving, id in t.crew.leaving);
  }

  lemma WorkersKeepPlaces(hash: string -> nat, s: State, a: Action, id: nat)
    requires PlacedAt(s, id) && Enabled(s, a) && (a.Begin? || a.Raise? || a.Return? || a.Leave?)
    ensures PlacedAt(Step(hash, s, a), id)
  {
    var t := Step(hash, s, a);
    assert Crewed(s.crew, id) <= 1;
    assert Crewed(t.crew, id) == Crewed(s.crew, id);
    assert Places(t, id) == Places(s, id);
  }

  lemma FinishingARunKeepsPlaces(s: State, done: nat, id: nat)
    requires PlacedAt(s, id) && (done in s.crew.raised || done in s.crew.ran)
    ensures PlacedAt(AfterFinishRun(s, done), id)
  {
    var t := AfterFinishRun(s, done);
    var status := if done in s.crew.raised then Error else s.crew.ran[done];
    var places, finishes, now := Places(t, id), Finishes(s.rows.finished, id), One(id == done);
    assert Crewed(s.crew, id) <= 1;
    assert Crewed(s.crew, id) == Crewed(t.crew, id) + now;
    assert Places(s, id) == places + now;
    assert t.rows == Finished(s.rows, Some(done), status);
    FinishesMore(s.rows.finished, Finish(Some(done), status), id);
    CountedAfterFinish(places, finishes, now, id < s.rows.next, id in s.rows.running, id in s.crew.leaving,
        id in t.crew.leaving);
  }

  lemma CountedAfterFinish(places: nat, finishes: nat, now: nat, made: bool, running: bool, leaving: bool, leaves: bool)
    requires Counted(places + now, finishes, made, running, leaving)
    requires now <= 1 && (leaves ==> leaving || now == 1)
    ensures Counted(places, finishes + now, made, running && now == 0, leaves)
  {
  }

  lemma {:induction false} PlacedAlways(hash: string -> nat, run: seq<Action>)
    ensures Placed(After(hash, run))
  {
    if run != [] {
      var s, a := After(hash, run[..|run| - 1]), run[|run| - 1];
      PlacedAlways(hash, run[..|run| - 1]);
      if Enabled(s, a) {
        forall id: nat ensures PlacedAt(Step(hash, s, a), id) {
          assert PlacedAt(s, id);
          if a.Produce? || a.ManualEnqueue? {
            EnqueuingKeepsPlaces(hash, s, a, id);
          } else if a.ManualCreate? {
            CallingKeepsPlaces(hash, s, a, id);
          } else if a.SwapOut? || a.Take? || a.Requeue? || a.Enrich? || a.Submit? {
            DrainKeepsPlaces(hash, s, a, id);
          } else if a.Create? {
            CreatingKeepsPlaces(hash, s, a.random, a.breaks, id);
          } else if a.FinishItem? {
            FinishingKeepsPlaces(s, Step(hash, s, a), s.current.failed, s.current.status, id);
          } else if a.FinishRun? {
            FinishingARunKeepsPlaces(s, a.id, id);
          } else {
            WorkersKeepPlaces(hash, s, a, id);
          }
        }
      }
    }
  }

  // In every run an execution is finished at most once, and it is finished exactly when nothing can lead to that
  // any more; its row runs until then.
  lemma FinishedOnce(hash: string -> nat, run: seq<Action>, id: nat)
    ensures var s := After(hash, run);
            && Finishes(s.rows.finished, id) <= 1
            && (Finishes(s.rows.finished, id) == 1 <==> id < s.rows.next && Places(s, id) == 0)
            && (id in s.rows.running <==> id < s.rows.next && Finishes(s.rows.finished, id) == 0)
  {
    PlacedAlways(hash, run);
    assert PlacedAt(After(hash, run), id);
  }

  // -- the counters --

  ghost predicate Metered(s: State) {
    && s.rows.counter == |s.rows.finished|
    && s.crew.gauge == |s.crew.inside| + |s.crew.raised| + |s.crew.leaving|
  }

  lemma MeteredAfterStep(hash: string -> nat, s: State, a: Action)
    requires Metered(s) && Enabled(s, a)
    requires (a.Begin? || a.Raise? || a.FinishRun?) ==> PlacedAt(s, a.id)
    ensures Metered(Step(hash, s, a))
  {
    var t := Step(hash, s, a);
    match a
    case Begin(id) =>
      assert Crewed(s.crew, id) <= 1;
      assert |t.crew.inside| == |s.crew.inside| + 1;
    case Raise(id) =>
      assert Crewed(s.crew, id) <= 1;
      assert |t.crew.inside| == |s.crew.inside| - 1 && |t.crew.raised| == |s.crew.raised| + 1;
    case Return(_, _) => assert |t.crew.inside| == |s.crew.inside| - 1;
    case FinishRun(id) =>
      assert Crewed(s.crew, id) == 1 && id !in s.crew.leaving;
      if id in s.crew.raised {
        assert |t.crew.raised| == |s.crew.raised| - 1 && |t.crew.leaving| == |s.crew.leaving| + 1;
      }
    case Leave(_) => assert |t.crew.leaving| == |s.crew.leaving| - 1;
    case _ => assert t.crew.gauge == s.crew.gauge;
  }

  // In every run the status counter is the number of finishes, and the gauge the number of workers between the
  // entry of a run and its exit.
  lemma {:induction false} MeteredAlways(hash: string -> nat, run: seq<Action>)
    ensures Metered(After(hash, run))
  {
    if run != [] {
      var s, a := After(hash, run[..|run| - 1]), run[|run| - 1];
      MeteredAlways(hash, run[..|run| - 1]);
      PlacedAlways(hash, run[..|run| - 1]);
      if Enabled(s, a) {
        if a.Begin? || a.Raise? || a.FinishRun? {
          assert PlacedAt(s, a.id);
        }
        MeteredAfterStep(hash, s, a);
      }
    }
  }

  // -- nothing enqueued is lost --

  // How often an event is among the items of a queue.
  function Amount(items: seq<Item>, event: Event): nat {
    if items == [] then 0 else Amount(items[..|items| - 1], event) + One(items[|items| - 1].event == event)
  }

  function InHand(current: Current, event: Event): nat {
    match current
    case Free => 0
    case Loaded(item, _) => One(item.event == event)
    case Clashed(item) => One(item.event == event)
    case Ready(item, _, _) => One(item.event == event)
    case Failing(failing, _, _) => One(failing == event)
  }

  // Still in the queue, in the batch being drained or in the hands of the drain.
  function Waiting(s: State, event: Event): nat {
    Amount(s.pending, event) + Amount(s.batch, event) + InHand(s.current, event)
  }

  function Settled(log: Log, event: Event): nat {
    log.submitted[event] + log.rejected[event] + log.dropped[event]
  }

  lemma AmountMore(items: seq<Item>, item: Item, event: Event)
    ensures Amount(items + [item], event) == Amount(items, event) + One(item.event == event)
  {
    assert (items + [item])[..|items|] == items;
  }

  lemma {:induction false} AmountFirst(items: seq<Item>, event: Event)
    requires items != []
    ensures Amount(items, event) == One(items[0].event == event) + Amount(items[1..], event)
  {
    if |items| > 1 {
      AmountFirst(items[..|items| - 1], event);
      assert items[1..][..|items| - 2] == items[..|items| - 1][1..];
    }
  }

  lemma QueueConserves(hash: string -> nat, s: State, a: Action, event: Event)
    requires Enabled(s, a) && (a.SwapOut? || a.Take? || a.Requeue?)
    ensures Step(hash, s, a).log == s.log && Waiting(Step(hash, s, a), event) == Waiting(s, event)
  {
    match a
    case SwapOut => assert Amount([], event) == 0;
    case Take(load) => AmountFirst(s.batch, event);
    case Requeue => AmountMore(s.pending, Item(s.current.item.event, s.current.item.execution, true, None), event);
  }

  lemma CreateConserves(hash: string -> nat, s: State, random: nat, breaks: bool, event: Event)
    requires s.current.Loaded?
    ensures var t := AfterCreate(hash, s, random, breaks);
            && t.pending == s.pending && t.batch == s.batch && t.log.enqueued == s.log.enqueued
            && InHand(t.current, event) + Settled(t.log, event) == InHand(s.current, event) + Settled(s.log, event)
  {
  }

  lemma ItemConserves(hash: string -> nat, s: State, a: Action, event: Event)
    requires Enabled(s, a) && (a.Enrich? || a.Submit? || a.FinishItem?)
    ensures var t := Step(hash, s, a);
            && t.pending == s.pending && t.batch == s.batch && t.log.enqueued == s.log.enqueued
            && InHand(t.current, event) + Settled(t.log, event) == InHand(s.current, event) + Settled(s.log, event)
  {
  }

  // In every run whatever was enqueued is waiting, or was handed to a worker once, or was finished without
  // running, or was dropped; each entry exactly one of these.
  lemma {:induction false} NothingIsLost(hash: string -> nat, run: seq<Action>, event: Event)
    ensures var s := After(hash, run); s.log.enqueued[event] == Waiting(s, event) + Settled(s.log, event)
  {
    if run != [] {
      var s, a := After(hash, run[..|run| - 1]), run[|run| - 1];
      NothingIsLost(hash, run[..|run| - 1], event);
      if Enabled(s, a) {
        if a.SwapOut? || a.Take? || a.Requeue? {
          QueueConserves(hash, s, a, event);
        } else if a.Create? {
          CreateConserves(hash, s, a.random, a.breaks, event);
        } else if a.Enrich? || a.Submit? || a.FinishItem? {
          ItemConserves(hash, s, a, event);
        } else if a.Produce? {
          AmountMore(s.pending, Item(a.event, None, false, Some(a.strategy)), event);
        } else if a.ManualEnqueue? {
          AmountMore(s.pending, s.handing[a.id].(execution := Some(a.id)), event);
        }
      }
    }
  }

  // Collisions are the only failures, and every workflow retries.
  predicate Gentle(a: Action) {
    match a
    case Produce(_, strategy) => strategy == NonparallelWithRetry
    case ManualCreate(_, _, carried) => carried == None || carried == Some(NonparallelWithRetry)
    case Take(load) => load == Found(NonparallelWithRetry)
    case Create(_, breaks) => !breaks
    case Enrich(works) => works
    case _ => true
  }

  ghost predicate Retrying(s: State) {
    && (forall item :: item in s.pending || item in s.batch || item in s.handing.Values ==>
          item.carried == None || item.carried == Some(NonparallelWithRetry))
    && (s.current.Loaded? ==> s.current.strategy == NonparallelWithRetry)
    && !s.current.Failing?
    && s.log.rejected == multiset{} && s.log.dropped == multiset{}
  }

  lemma {:induction false} RetryingAlways(hash: string -> nat, run: seq<Action>)
    requires forall a :: a in run ==> Gentle(a)
    ensures Retrying(After(hash, run))
  {
    if run != [] {
      var s, a := After(hash, run[..|run| - 1]), run[|run| - 1];
      RetryingAlways(hash, run[..|run| - 1]);
      if Enabled(s, a) {
        RetryingAfterStep(hash, s, a);
      }
    }
  }

  lemma RetryingAfterStep(hash: string -> nat, s: State, a: Action)
    requires Retrying(s) && Enabled(s, a) && Gentle(a)
    ensures Retrying(Step(hash, s, a))
  {
    var t := Step(hash, s, a);
    match a
    case ManualEnqueue(id) => assert s.handing[id] in s.handing.Values;
    case Take(_) => assert s.batch[0] in s.batch;
    case _ =>
  }

  // With nothing but collisions, and producers appending at any point, every event is still waiting or was
  // handed to a worker, as often as it was enqueued.
  lemma OnlyCollisions(hash: string -> nat, run: seq<Action>, event: Event)
    requires forall a :: a in run ==> Gentle(a)
    ensures var s := After(hash, run); s.log.enqueued[event] == Waiting(s, event) + s.log.submitted[event]
  {
    NothingIsLost(hash, run, event);
    RetryingAlways(hash, run);
  }

  // -- one thread among the others --

  datatype Actor = Drain | Worker(run: nat) | Caller(call: nat)

  predicate Acts(who: Actor, a: Action) {
    match who
    case Drain => a.SwapOut? || a.Take? || a.Create? || a.Requeue? || a.Enrich? || a.Submit? || a.FinishItem?
    case Worker(id) => (a.Begin? || a.Raise? || a.Return? || a.FinishRun? || a.Leave?) && a.id == id
    case Caller(id) => a.ManualEnqueue? && a.id == id
  }

  // What the others leave alone.
  ghost predicate Kept(who: Actor, s: State, t: State) {
    && s.rows.finished <= t.rows.finished && s.rows.next <= t.rows.next
    && match who
       case Drain => t.batch == s.batch && t.current == s.current
       case Worker(id) =>
         && (id in s.crew.queued ==> id in t.crew.queued)
         && (id in s.crew.inside ==> id in t.crew.inside)
         && (id in s.crew.raised ==> id in t.crew.raised)
         && (id in s.crew.ran ==> id in t.crew.ran && t.crew.ran[id] == s.crew.ran[id])
         && (id in s.crew.leaving ==> id in t.crew.leaving)
       case Caller(id) =>
         && (id in s.handing ==> id in t.handing && t.handing[id] == s.handing[id])
         && (id in s.handing && id in s.rows.running ==>
               id in t.rows.running && t.rows.running[id] == s.rows.running[id])
  }

  lemma OthersKeep(hash: string -> nat, s: State, a: Action, who: Actor)
    requires Placed(s) && !Acts(who, a)
    ensures Kept(who, s, Next(hash, s, a))
  {
    FinishedGrows(hash, s, a);
    match who
    case Drain =>
    case Worker(id) => WorkersKeep(hash, s, a, id);
    case Caller(id) => CallersKeep(hash, s, a, id);
  }

  lemma FinishedGrows(hash: string -> nat, s: State, a: Action)
    ensures s.rows.finished <= Next(hash, s, a).rows.finished && s.rows.next <= Next(hash, s, a).rows.next
  {
  }

  lemma WorkersKeep(hash: string -> nat, s: State, a: Action, id: nat)
    requires !Acts(Worker(id), a)
    ensures var t := Next(hash, s, a);
            && (id in s.crew.queued ==> id in t.crew.queued)
            && (id in s.crew.inside ==> id in t.crew.inside)
            && (id in s.crew.raised ==> id in t.crew.raised)
            && (id in s.crew.ran ==> id in t.crew.ran && t.crew.ran[id] == s.crew.ran[id])
            && (id in s.crew.leaving ==> id in t.crew.leaving)
  {
  }

  lemma CallersKeep(hash: string -> nat, s: State, a: Action, id: nat)
    requires Placed(s) && !Acts(Caller(id), a)
    ensures Kept(Caller(id), s, Next(hash, s, a))
  {
    FinishedGrows(hash, s, a);
    assert PlacedAt(s, s.rows.next) && PlacedAt(s, id);
  }

  // The items taken from the batch in a run.
  ghost function Attempts(hash: string -> nat, run: seq<Action>): seq<Item> {
    if run == [] then []
    else
      var before, a := run[..|run| - 1], run[|run| - 1];
      Attempts(hash, before) +
      if a.Take? && Enabled(After(hash, before), a) then [After(hash, before).batch[0]] else []
  }

  lemma AttemptsMore(hash: string -> nat, run: seq<Action>, a: Action)
    ensures Attempts(hash, run + [a]) ==
            Attempts(hash, run) + if a.Take? && Enabled(After(hash, run), a) then [After(hash, run).batch[0]] else []
  {
    assert (run + [a])[..|run|] == run;
  }

  // What a step appends to the queue.
  function AppendedBy(s: State, a: Action): seq<Item> {
    match a
    case Produce(event, strategy) => [Item(event, None, false, Some(strategy))]
    case ManualEnqueue(id) => if id in s.handing then [s.handing[id].(execution := Some(id))] else []
    case Requeue => if s.current.Clashed? then [Item(s.current.item.event, None, true, None)] else []
    case _ => []
  }

  ghost function Appended(hash: string -> nat, run: seq<Action>): seq<Item> {
    if run == [] then []
    else
      Appended(hash, run[..|run| - 1]) + AppendedBy(After(hash, run[..|run| - 1]), run[|run| - 1])
  }

  lemma QueueInOrder(hash: string -> nat, s: State, a: Action)
    requires s.current.Clashed? ==> s.current.item.execution == None
    ensures var t := Next(hash, s, a);
            (if a.Take? && Enabled(s, a) then [s.batch[0]] else []) + t.batch + t.pending ==
            s.batch + s.pending + AppendedBy(s, a)
  {
    match a
    case Take(_) => assert s.batch != [] ==> s.batch == [s.batch[0]] + s.batch[1..];
    case _ =>
  }

  // In every run the items are taken in the order in which they were appended: those taken, then those of the batch,
  // then those in the queue are all that were appended.
  lemma {:induction false} FirstInFirstOut(hash: string -> nat, run: seq<Action>)
    ensures var s := After(hash, run); Attempts(hash, run) + s.batch + s.pending == Appended(hash, run)
  {
    if run != [] {
      var before, a := run[..|run| - 1], run[|run| - 1];
      var s, t := After(hash, before), After(hash, run);
      FirstInFirstOut(hash, before);
      PlacedAlways(hash, before);
      QueueInOrder(hash, s, a);
      assert run == before + [a];
      AttemptsMore(hash, before, a);
      var taken := if a.Take? && Enabled(s, a) then [s.batch[0]] else [];
      Regrouped(Attempts(hash, before), taken, t.batch, t.pending);
      Regrouped(Attempts(hash, before), s.batch, s.pending, AppendedBy(s, a));
    }
  }

  lemma Regrouped(a: seq<Item>, b: seq<Item>, c: seq<Item>, d: seq<Item>)
    ensures a + b + c + d == a + (b + c + d)
  {
  }

  // What the world answers while the drain works on one item; `others` is what happens before its steps.
  datatype Turn = Turn(others: nat -> seq<Action>, load: Load, random: nat, breaks: bool, enriches: bool)

  // How the run of a workflow ended.
  datatype Answer = Ran(errors: bool) | Threw

  datatype Creation = Created(id: nat) | IntegrityError | OtherError

  predicate FinishesLast(rows: Rows, id: Option<nat>, status: Status) {
    rows.finished != [] && rows.finished[|rows.finished| - 1] == Finish(id, status)
  }

  class WorkflowScheduler {
    const hash: string -> nat
    var workflowsToRun: seq<Item>
    var rows: Rows                 // in the database
    var crew: Crew                 // the executor and the gauge
    var handing: map<nat, Item>    // calls between creating the row and appending to the queue
    var batch: seq<Item>           // what the draining thread has still to take
    var current: Current           // and where it is with the item it took
    var log: Log
    ghost var run: seq<Action>
    ghost var attempts: seq<Item>  // the items taken so far

    function Contents(): State
      reads this
    {
      State(workflowsToRun, batch, current, handing, rows, crew, log)
    }

    ghost predicate Valid()
      reads this
    {
      Contents() == After(hash, run) && attempts == Attempts(hash, run)
    }

    constructor (hash: string -> nat)
      ensures Valid() && this.hash == hash && run == []
    {
      this.hash := hash;
      workflowsToRun, rows, crew, handing, batch, current, log :=
        START.pending, START.rows, START.crew, START.handing, START.batch, START.current, START.log;
      run, attempts := [], [];
    }

    // Some other thread takes a step, if it can.
    method OneOther(a: Action, who: Actor)
      requires Valid() && !Acts(who, a)
      modifies this
      ensures Valid() && run == old(run) + [a] && Kept(who, old(Contents()), Contents())
      ensures who.Drain? ==> attempts == old(attempts)
    {
      PlacedAlways(hash, run);
      OthersKeep(hash, Contents(), a, who);
      AfterMore(hash, run, a);
      AttemptsMore(hash, run, a);
      var t := Next(hash, Contents(), a);
      workflowsToRun, batch, current, handing, rows, crew, log :=
        t.pending, t.batch, t.current, t.handing, t.rows, t.crew, t.log;
      run := run + [a];
      attempts := Attempts(hash, run);
    }

    method Others(actions: seq<Action>, who: Actor)
      requires Valid()
      modifies this
      ensures Valid() && old(run) <= run && Kept(who, old(Contents()), Contents())
      ensures who.Drain? ==> attempts == old(attempts)
    {
      for i := 0 to |actions|
        invariant Valid() && old(run) <= run && Kept(who, old(Contents()), Contents())
        invariant who.Drain? ==> attempts == old(attempts)
      {
        if !Acts(who, actions[i]) {
          OneOther(actions[i], who);
        }
      }
    }

    // -- the steps of the draining thread --

    ghost method Did(a: Action, before: seq<Action>, s: State)
      requires run == before && s == After(hash, before) && Enabled(s, a) && Contents() == Step(hash, s, a)
      requires attempts == Attempts(hash, before)
      modifies this`run, this`attempts
      ensures Valid() && run == before + [a]
      ensures attempts == old(attempts) + if a.Take? then [s.batch[0]] else []
    {
      AfterMore(hash, before, a);
      AttemptsMore(hash, before, a);
      run := before + [a];
      attempts := Attempts(hash, run);
    }

    method SwapOut() returns (drained: seq<Item>)
      requires Valid() && current.Free? && batch == []
      modifies this
      ensures Valid() && run == old(run) + [Action.SwapOut] && attempts == old(attempts)
      ensures current.Free? && workflowsToRun == []
      ensures drained == old(workflowsToRun) == batch
    {
      drained, workflowsToRun := workflowsToRun, [];
      batch := drained;
      Did(Action.SwapOut, run, old(Contents()));
    }

    method TakeNext(load: Load) returns (item: Item, loaded: Load)
      requires Valid() && current.Free? && batch != []
      modifies this
      ensures Valid() && run == old(run) + [Take(load)] && attempts == old(attempts) + [item]
      ensures current == Taken(item, load)
      ensures item == old(batch)[0] && batch == old(batch)[1..]
      ensures loaded == (if item.carried.Some? then Found(item.carried.value) else load)
    {
      item, batch := batch[0], batch[1..];
      loaded := load;
      if item.carried.Some? {
        loaded := Found(item.carried.value);
      }
      current := Taken(item, load);
      Did(Take(load), run, old(Contents()));
    }

    // `create_workflow_execution`, which rejects a second running row of a workflow with the same number.
    method CreateWorkflowExecution(item: Item, strategy: Strategy, random: nat, breaks: bool) returns (result: Creation)
      requires Valid() && current == Loaded(item, strategy)
      modifies this
      ensures Valid() && run == old(run) + [Create(random, breaks)] && attempts == old(attempts)
      ensures result == IntegrityError <==>
              Clashes(old(rows), item.event.workflow,
                if strategy == Parallel then random % NUMBERS
                else ExecutionNumber(hash, item.event.fingerprint, item.event.workflow, random))
      ensures result.OtherError? ==> breaks
      ensures result.Created? ==> result.id == old(rows).next && current == Ready(item, result.id, false)
      ensures result.OtherError? ==> current.Free?
      ensures result.IntegrityError? ==>
              current == match strategy
                         case NonparallelWithRetry => Clashed(item)
                         case Nonparallel => Failing(item.event, item.execution, Error)
                         case _ => Free
      ensures batch == old(batch)
    {
      var number: nat;
      if strategy == Parallel {
        number := random % NUMBERS;
      } else {
        number := ExecutionNumber(hash, item.event.fingerprint, item.event.workflow, random);
      }
      if Clashes(rows, item.event.workflow, number) {
        result := IntegrityError;
        if strategy == NonparallelWithRetry {
          current := Clashed(item);
        } else if strategy == Nonparallel {
          current := Failing(item.event, item.execution, Error);
        } else {
          current, log := Free, log.(dropped := log.dropped + multiset{item.event});
        }
      } else if breaks {
        result := OtherError;
        current, log := Free, log.(dropped := log.dropped + multiset{item.event});
      } else {
        result := Created(rows.next);
        current := Ready(item, rows.next, false);
        rows := Inserted(rows, Row(item.event.workflow, number, item.event.fingerprint, strategy != Parallel));
      }
      Did(Create(random, breaks), run, old(Contents()));
    }

    method AddBack(item: Item)
      requires Valid() && current == Clashed(item) && item.execution == None
      modifies this
      ensures Valid() && run == old(run) + [Requeue] && attempts == old(attempts)
      ensures current.Free? && batch == old(batch)
      ensures workflowsToRun == old(workflowsToRun) + [Item(item.event, None, true, None)]
    {
      workflowsToRun := workflowsToRun + [Item(item.event, item.execution, true, None)];
      current := Free;
      Did(Requeue, run, old(Contents()));
    }

    method Refresh(works: bool)
      requires Valid() && current.Ready? && current.item.retry && !current.refreshed
      modifies this
      ensures Valid() && run == old(run) + [Enrich(works)] && attempts == old(attempts)
      ensures batch == old(batch)
      ensures current == if works then old(current).(refreshed := true)
                         else Failing(old(current).item.event, Some(old(current).id), Error)
    {
      if works {
        current := current.(refreshed := true);
      } else {
        current := Failing(current.item.event, Some(current.id), Error);
      }
      Did(Enrich(works), run, old(Contents()));
    }

    // `executor.submit`
    method SubmitRun(item: Item, id: nat)
      requires Valid() && current.Ready? && current.item == item && current.id == id
          && (item.retry ==> current.refreshed)
      modifies this
      ensures Valid() && run == old(run) + [Submit] && attempts == old(attempts)
      ensures current.Free? && batch == old(batch) && id in crew.queued
    {
      crew := crew.(queued := crew.queued + {id});
      log := log.(submitted := log.submitted + multiset{item.event});
      current := Free;
      Did(Submit, run, old(Contents()));
    }

    method FinishItem(id: Option<nat>, status: Status)
      requires Valid() && current.Failing? && current.failed == id && current.status == status
      modifies this
      ensures Valid() && run == old(run) + [Action.FinishItem] && attempts == old(attempts)
      ensures current.Free? && batch == old(batch) && rows == Finished(old(rows), id, status)
    {
      log := log.(rejected := log.rejected + multiset{current.event});
      rows := Finished(rows, id, status);
      current := Free;
      Did(Action.FinishItem, run, old(Contents()));
    }

    // One round of the drain: each item of the batch is taken once, in order, whatever is appended or requeued
    // meanwhile. `from` is where in the run the queue was swapped out.
    method HandleEventWorkflows(world: nat -> Turn, before: seq<Action>) returns (drained: seq<Item>, ghost from: nat)
      requires Valid() && current.Free? && batch == []
      modifies this
      ensures Valid() && current.Free? && batch == [] && old(run) <= run
      ensures |old(run)| <= from < |run| && run[from] == Action.SwapOut
      ensures drained == After(hash, run[..from]).pending
      ensures attempts == old(attempts) + drained
    {
      Others(before, Drain);
      from := |run|;
      ghost var began := run;
      drained := SwapOut();
      HandleItems(drained, world);
      assert run[..from] == began;
    }

    method HandleItems(drained: seq<Item>, world: nat -> Turn)
      requires Valid() && current.Free? && batch == drained
      modifies this
      ensures Valid() && current.Free? && batch == [] && old(run) <= run
      ensures attempts == old(attempts) + drained
    {
      for i := 0 to |drained|
        invariant Valid() && current.Free? && batch == drained[i..]
        invariant old(run) <= run && attempts == old(attempts) + drained[..i]
      {
        assert drained[i..][0] == drained[i] && drained[i..][1..] == drained[i + 1..];
        HandleItem(world(i));
        assert drained[..i + 1] == drained[..i] + [drained[i]];
      }
      assert drained[..|drained|] == drained;
    }

    // The body of the loop: one item, from being taken to being settled or requeued.
    method HandleItem(turn: Turn)
      requires Valid() && current.Free? && batch != []
      modifies this
      ensures Valid() && current.Free? && batch == old(batch)[1..] && old(run) <= run
      ensures attempts == old(attempts) + [old(batch)[0]]
      ensures var item := old(batch)[0];
              var loads := item.carried.Some? || turn.load.Found?;
              && (!loads && turn.load.NotConfigured? ==> FinishesLast(rows, item.execution, ProvidersNotConfigured))
              && (!loads && turn.load.Broken? ==> FinishesLast(rows, item.execution, Error))
              && (loads && item.execution.Some? ==>
                    if item.retry && !turn.enriches then FinishesLast(rows, item.execution, Error)
                    else item.execution.value in crew.queued)
    {
      Others(turn.others(0), Drain);
      var item, load := TakeNext(turn.load);
      if !load.Found? {
        FinishItem(item.execution, if load.NotConfigured? then ProvidersNotConfigured else Error);
        return;
      }
      var id: nat;
      if item.execution.Some? {
        id := item.execution.value;
      } else {
        var made := CreateOrSettle(item, load.strategy, turn);
        if made.None? {
          return;
        }
        id := made.value;
      }
      RefreshAndSubmit(item, id, turn);
    }

    method CreateOrSettle(item: Item, strategy: Strategy, turn: Turn) returns (id: Option<nat>)
      requires Valid() && current == Loaded(item, strategy)
      modifies this
      ensures Valid() && batch == old(batch) && attempts == old(attempts) && old(run) <= run
      ensures current == if id.Some? then Ready(item, id.value, false) else Free
      ensures id.None? && !turn.breaks ==>
              match strategy
              case NonparallelWithRetry =>
                workflowsToRun != [] && workflowsToRun[|workflowsToRun| - 1] == Item(item.event, None, true, None)
              case Nonparallel => FinishesLast(rows, item.execution, Error)
              case _ => true
    {
      Others(turn.others(1), Drain);
      var result := CreateWorkflowExecution(item, strategy, turn.random, turn.breaks);
      match result
      case IntegrityError =>
        Others(turn.others(2), Drain);
        if strategy == NonparallelWithRetry {
          PlacedAlways(hash, run);
          AddBack(item);
        } else if strategy == Nonparallel {
          FinishItem(item.execution, Error);
        }
        id := None;
      case OtherError =>
        id := None;
      case Created(created) =>
        id := Some(created);
    }

    method RefreshAndSubmit(item: Item, id: nat, turn: Turn)
      requires Valid() && current == Ready(item, id, false)
      modifies this
      ensures Valid() && current.Free? && batch == old(batch) && attempts == old(attempts) && old(run) <= run
      ensures if item.retry && !turn.enriches then FinishesLast(rows, Some(id), Error) else id in crew.queued
    {
      if item.retry {
        Others(turn.others(3), Drain);
        Refresh(turn.enriches);
        if !turn.enriches {
          Others(turn.others(4), Drain);
          FinishItem(Some(id), Error);
          return;
        }
      }
      Others(turn.others(5), Drain);
      SubmitRun(item, id);
    }

    // -- the steps of a worker --

    method Enter(id: nat)
      requires Valid() && id in crew.queued
      modifies this
      ensures Valid() && run == old(run) + [Begin(id)] && id in crew.inside && rows == old(rows)
    {
      crew := crew.(queued := crew.queued - {id}, inside := crew.inside + {id}, gauge := crew.gauge + 1);
      Did(Begin(id), run, old(Contents()));
    }

    method Fail(id: nat)
      requires Valid() && id in crew.inside
      modifies this
      ensures Valid() && run == old(run) + [Raise(id)] && id in crew.raised && rows == old(rows)
    {
      crew := crew.(inside := crew.inside - {id}, raised := crew.raised + {id});
      Did(Raise(id), run, old(Contents()));
    }

    method Exit(id: nat, errors: bool)
      requires Valid() && id in crew.inside
      modifies this
      ensures Valid() && run == old(run) + [Return(id, errors)] && rows == old(rows)
      ensures id in crew.ran && crew.ran[id] == if errors then Error else Success
    {
      crew := crew.(inside := crew.inside - {id}, ran := crew.ran[id := if errors then Error else Success],
                    gauge := crew.gauge - 1);
      Did(Return(id, errors), run, old(Contents()));
    }

    method FinishRaised(id: nat)
      requires Valid() && id in crew.raised
      modifies this
      ensures Valid() && run == old(run) + [FinishRun(id)] && id in crew.leaving
          && rows == Finished(old(rows), Some(id), Error)
    {
      rows := Finished(rows, Some(id), Error);
      crew := crew.(raised := crew.raised - {id}, leaving := crew.leaving + {id});
      Did(FinishRun(id), run, old(Contents()));
    }

    method FinishRan(id: nat, status: Status)
      requires Valid() && id in crew.ran && crew.ran[id] == status
      modifies this
      ensures Valid() && run == old(run) + [FinishRun(id)] && rows == Finished(old(rows), Some(id), status)
    {
      PlacedAlways(hash, run);
      assert PlacedAt(Contents(), id);
      assert Crewed(crew, id) <= 1;
      rows := Finished(rows, Some(id), status);
      crew := crew.(ran := crew.ran - {id});
      Did(FinishRun(id), run, old(Contents()));
    }

    method GoAway(id: nat)
      requires Valid() && id in crew.leaving
      modifies this
      ensures Valid() && run == old(run) + [Leave(id)] && rows == old(rows)
    {
      crew := crew.(leaving := crew.leaving - {id}, gauge := crew.gauge - 1);
      Did(Leave(id), run, old(Contents()));
    }

    // `_run_workflow`: whatever the others do meanwhile, the execution is finished by this worker, with the status
    // of its run, and by nobody else.
    method RunWorkflow(id: nat, answer: Answer, others: nat -> seq<Action>)
      requires Valid() && id in crew.queued
      modifies this
      ensures Valid() && old(run) <= run && old(rows).finished <= rows.finished
      ensures exists k :: |old(rows).finished| <= k < |rows.finished| &&
                rows.finished[k] == Finish(Some(id), if answer == Ran(false) then Success else Error)
      ensures Finishes(rows.finished, id) == 1 && id !in rows.running
    {
      Others(others(0), Worker(id));
      Enter(id);
      Others(others(1), Worker(id));
      ghost var k;
      match answer {
        case Threw =>
          k := RunRaised(id, others);
        case Ran(errors) =>
          Exit(id, errors);
          Others(others(2), Worker(id));
          k := |rows.finished|;
          FinishRan(id, if errors then Error else Success);
      }
      FinishesAt(rows.finished, k, id);
      FinishedOnce(hash, run, id);
    }

    // The handler of an exception, and what `finally` does after it.
    method RunRaised(id: nat, others: nat -> seq<Action>) returns (ghost k: nat)
      requires Valid() && id in crew.inside
      modifies this
      ensures Valid() && old(run) <= run && old(rows).finished <= rows.finished
      ensures |old(rows).finished| <= k < |rows.finished| && rows.finished[k] == Finish(Some(id), Error)
    {
      Fail(id);
      Others(others(2), Worker(id));
      k := |rows.finished|;
      FinishRaised(id);
      Others(others(3), Worker(id));
      GoAway(id);
    }

    // `handle_manual_event_workflow`: the row first, then the queue; it raises when the row is not made.
    method HandleManualEventWorkflow(event: Event, random: nat, breaks: bool, carried: Option<Strategy>,
        others: seq<Action>)
      returns (id: Option<nat>)
      requires Valid()
      modifies this
      ensures Valid() && old(run) <= run
      ensures id.None? <==> breaks || Clashes(old(rows), event.workflow, random % NUMBERS)
      ensures id.None? ==> Contents() == old(Contents())
      ensures id.Some? ==>
              workflowsToRun != [] && workflowsToRun[|workflowsToRun| - 1] == Item(event, id, true, carried)
      ensures id.Some? ==>
              && id.value in rows.running
              && rows.running[id.value] ==
                 Row(event.workflow, random % NUMBERS,
                     (if event.incident then "incident:" else "") + event.fingerprint, false)
    {
      if Clashes(rows, event.workflow, random % NUMBERS) || breaks {
        return None;
      }
      id := Some(rows.next);
      var item := Item(event, id, true, carried);
      handing := handing[rows.next := item];
      rows := Inserted(rows, Row(event.workflow, random % NUMBERS, ManualFingerprint(event), false));
      Did(ManualCreate(event, random, carried), run, old(Contents()));
      Others(others, Caller(id.value));
      Append(id.value, item);
    }

    method Append(id: nat, item: Item)
      requires Valid() && id in handing && handing[id] == item && item.execution == Some(id)
      modifies this
      ensures Valid() && run == old(run) + [ManualEnqueue(id)] && workflowsToRun == old(workflowsToRun) + [item]
      ensures rows == old(rows)
    {
      workflowsToRun, handing := workflowsToRun + [item], handing - {id};
      log := log.(enqueued := log.enqueued + multiset{item.event});
      Did(ManualEnqueue(id), run, old(Contents()));
    }
  }
}
