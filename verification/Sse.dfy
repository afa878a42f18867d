/**
 The server-sent events broadcaster of src/common/core/sse.py. A subscriber is a queue registered under
 its tenant; the lemmas speak of every interleaving of subscribers, notifiers and disconnects.
 */
module Sse {

  type Tenant = string
  type QueueId = nat
  type Message = string

  // What a subscriber's generator has yielded.
  datatype Output = Greeting | Keepalive | Event(message: Message)

  datatype Queue = Queue(tenant: Tenant, items: seq<Message>, greeted: bool, output: seq<Output>)

  // The registered queues of each tenant, and every queue ever made.
  datatype State = State(connections: map<Tenant, seq<QueueId>>, queues: map<QueueId, Queue>) {
    ghost predicate Live(q: QueueId) {
      q in queues && queues[q].tenant in connections && q in connections[queues[q].tenant]
    }
  }

  const START := State(map[], map[])

  datatype Action =
    | Subscribe(q: QueueId, tenant: Tenant)
    | Greet(q: QueueId)
    | Receive(q: QueueId)
    | TimeOut(q: QueueId)
    | Disconnect(q: QueueId)
    | Notify(tenant: Tenant, message: Message)

  // `queues.remove(q)`: the first occurrence goes, if there is one.
  function Without(qs: seq<QueueId>, q: QueueId): (rest: seq<QueueId>)
    ensures forall x :: x in rest ==> x in qs
    ensures forall x :: x in qs && x != q ==> x in rest
    ensures q !in qs ==> rest == qs
  {
    if qs == [] then []
    else if qs[0] == q then qs[1..]
    else [qs[0]] + Without(qs[1..], q)
  }

  function Registered(connections: map<Tenant, seq<QueueId>>, tenant: Tenant): seq<QueueId> {
    if tenant in connections then connections[tenant] else []
  }

  function Unregister(connections: map<Tenant, seq<QueueId>>, tenant: Tenant, q: QueueId): map<Tenant, seq<QueueId>> {
    if tenant !in connections || q !in connections[tenant] then connections
    else
      var left := Without(connections[tenant], q);
      if left == [] then connections - {tenant} else connections[tenant := left]
  }

  function Put(queues: map<QueueId, Queue>, to: seq<QueueId>, message: Message): map<QueueId, Queue> {
    map q | q in queues :: if q in to then queues[q].(items := queues[q].items + [message]) else queues[q]
  }

  ghost predicate Enabled(s: State, a: Action) {
    match a
    case Subscribe(q, _) => q !in s.queues
    case Greet(q) => s.Live(q) && !s.queues[q].greeted
    case Receive(q) => s.Live(q) && s.queues[q].greeted && s.queues[q].items != []
    case TimeOut(q) => s.Live(q) && s.queues[q].greeted
    case Disconnect(q) => s.Live(q)
    case Notify(_, _) => true
  }

  ghost function Step(s: State, a: Action): State
    requires Enabled(s, a)
  {
    match a
    case Subscribe(q, tenant) =>
      State(s.connections[tenant := Registered(s.connections, tenant) + [q]],
          s.queues[q := Queue(tenant, [], false, [])])
    case Greet(q) =>
      var queue := s.queues[q];
      s.(queues := s.queues[q := queue.(greeted := true, output := queue.output + [Greeting])])
    case Receive(q) =>
      var queue := s.queues[q];
      s.(queues := s.queues[q := queue.(items := queue.items[1..], output := queue.output + [Event(queue.items[0])])])
    case TimeOut(q) =>
      var queue := s.queues[q];
      s.(queues := s.queues[q := queue.(output := queue.output + [Keepalive])])
    case Disconnect(q) =>
      s.(connections := Unregister(s.connections, s.queues[q].tenant, q))
    case Notify(tenant, message) =>
      s.(queues := Put(s.queues, Registered(s.connections, tenant), message))
  }

  // -- runs --

  ghost function After(run: seq<Action>): State {
    if run == [] then START
    else
      var s, a := After(run[..|run| - 1]), run[|run| - 1];
      if Enabled(s, a) then Step(s, a) else s
  }

  // Every action was possible when it was taken.
  ghost predicate IsRun(run: seq<Action>) {
    run == [] || (IsRun(run[..|run| - 1]) && Enabled(After(run[..|run| - 1]), run[|run| - 1]))
  }

  // The tenant a queue is registered for after a run, read off the run alone.
  ghost function TenantOf(run: seq<Action>, q: QueueId): seq<Tenant> {
    if run == [] then []
    else
      match run[|run| - 1]
      case Subscribe(q', tenant) => if q' == q then [tenant] else TenantOf(run[..|run| - 1], q)
      case Disconnect(q') => if q' == q then [] else TenantOf(run[..|run| - 1], q)
      case _ => TenantOf(run[..|run| - 1], q)
  }

  // The messages notified to its tenant while the queue was registered, in order.
  ghost function Owed(run: seq<Action>, q: QueueId): seq<Message> {
    if run == [] then []
    else
      var before := run[..|run| - 1];
      match run[|run| - 1]
      case Notify(tenant, message) =>
        if TenantOf(before, q) == [tenant] then Owed(before, q) + [message] else Owed(before, q)
      case _ => Owed(before, q)
  }

  function Events(messages: seq<Message>): (outputs: seq<Output>)
    ensures |outputs| == |messages|
  {
    if messages == [] then [] else Events(messages[..|messages| - 1]) + [Event(messages[|messages| - 1])]
  }

  // What was yielded apart from keep-alive comments.
  function Said(outputs: seq<Output>): seq<Output> {
    if outputs == [] then []
    else Said(outputs[..|outputs| - 1]) + if outputs[|outputs| - 1].Keepalive? then [] else [outputs[|outputs| - 1]]
  }

  ghost predicate Distinct(qs: seq<QueueId>) {
    qs == [] || (qs[0] !in qs[1..] && Distinct(qs[1..]))
  }

  // -- the registry --

  // Each tenant's list holds distinct queues of that tenant and is never empty.
  ghost predicate Tidy(s: State) {
    forall tenant :: tenant in s.connections ==> TidyList(s, tenant, s.connections[tenant])
  }

  ghost predicate TidyList(s: State, tenant: Tenant, qs: seq<QueueId>) {
    qs != [] && Distinct(qs) && forall q :: q in qs ==> q in s.queues && s.queues[q].tenant == tenant
  }

  lemma {:induction false} DistinctAppend(qs: seq<QueueId>, q: QueueId)
    requires Distinct(qs) && q !in qs
    ensures Distinct(qs + [q])
  {
    if qs != [] {
      assert (qs + [q])[1..] == qs[1..] + [q];
      DistinctAppend(qs[1..], q);
    }
  }

  lemma {:induction false} DistinctWithout(qs: seq<QueueId>, q: QueueId)
    requires Distinct(qs)
    ensures Distinct(Without(qs, q)) && q !in Without(qs, q)
  {
    if qs != [] && qs[0] != q {
      DistinctWithout(qs[1..], q);
      assert Without(qs, q)[1..] == Without(qs[1..], q);
    }
  }

  lemma TidyStep(s: State, a: Action)
    requires Tidy(s) && Enabled(s, a)
    ensures Tidy(Step(s, a))
  {
    var t := Step(s, a);
    forall tenant | tenant in t.connections ensures TidyList(t, tenant, t.connections[tenant]) {
      match a
      case Subscribe(q, tenant') =>
        if tenant == tenant' {
          DistinctAppend(Registered(s.connections, tenant), q);
        }
      case Disconnect(q) =>
        if tenant == s.queues[q].tenant {
          DistinctWithout(s.connections[tenant], q);
        }
      case _ =>
    }
  }

  lemma {:induction false} RunTidy(run: seq<Action>)
    requires IsRun(run)
    ensures Tidy(After(run))
  {
    if run != [] {
      RunTidy(run[..|run| - 1]);
      TidyStep(After(run[..|run| - 1]), run[|run| - 1]);
    }
  }

  // In every interleaving, a tenant has a key exactly when it has a live queue.
  lemma KeyIffLiveQueue(run: seq<Action>, tenant: Tenant)
    requires IsRun(run)
    ensures var s := After(run);
            tenant in s.connections <==> exists q :: s.Live(q) && s.queues[q].tenant == tenant
  {
    RunTidy(run);
    var s := After(run);
    if tenant in s.connections {
      assert TidyList(s, tenant, s.connections[tenant]);
      var q := s.connections[tenant][0];
      assert s.Live(q) && s.queues[q].tenant == tenant;
    }
  }

  // -- delivery --

  // A queue is live exactly while the run has it registered, and under the tenant it subscribed for.
  lemma {:induction false} LiveIsRegistered(run: seq<Action>, q: QueueId)
    requires IsRun(run)
    ensures var s := After(run);
            && (q !in s.queues ==> TenantOf(run, q) == [] && Owed(run, q) == [])
            && (q in s.queues ==> TenantOf(run, q) == if s.Live(q) then [s.queues[q].tenant] else [])
  {
    if run != [] {
      var before, a := run[..|run| - 1], run[|run| - 1];
      var s := After(before);
      LiveIsRegistered(before, q);
      RunTidy(before);
      match a
      case Subscribe(q', tenant) =>
        assert tenant in s.connections ==> TidyList(s, tenant, s.connections[tenant]);
      case Disconnect(q') =>
        var tenant := s.queues[q'].tenant;
        assert TidyList(s, tenant, s.connections[tenant]);
        DistinctWithout(s.connections[tenant], q');
      case _ =>
    }
  }

  // What a subscriber has been told, and what its generator will still say, if it goes on.
  ghost function Told(queue: Queue): seq<Output> {
    Said(queue.output) + (if queue.greeted then [] else [Greeting]) + Events(queue.items)
  }

  lemma SaidMore(outputs: seq<Output>, output: Output)
    ensures Said(outputs + [output]) == Said(outputs) + if output.Keepalive? then [] else [output]
  {
    assert (outputs + [output])[..|outputs|] == outputs;
  }

  lemma {:induction false} EventsMore(messages: seq<Message>, message: Message)
    ensures Events(messages + [message]) == Events(messages) + [Event(message)]
    ensures Events([message] + messages) == [Event(message)] + Events(messages)
  {
    assert (messages + [message])[..|messages|] == messages;
    var all := [message] + messages;
    if messages == [] {
      assert all[..0] == [];
    } else {
      EventsMore(messages[..|messages| - 1], message);
      assert all[..|all| - 1] == [message] + messages[..|messages| - 1];
    }
  }

  // A message is put into a queue exactly when the run has the queue registered for the tenant.
  lemma PutIsOwed(run: seq<Action>, q: QueueId, tenant: Tenant)
    requires IsRun(run)
    ensures q in Registered(After(run).connections, tenant) <==> TenantOf(run, q) == [tenant]
  {
    var s := After(run);
    RunTidy(run);
    LiveIsRegistered(run, q);
    assert tenant in s.connections ==> TidyList(s, tenant, s.connections[tenant]);
  }

  lemma OwedStep(before: seq<Action>, a: Action, q: QueueId)
    requires IsRun(before + [a])
    ensures IsRun(before) && Enabled(After(before), a) && After(before + [a]) == Step(After(before), a)
    ensures Owed(before + [a], q) ==
            if a.Notify? && q in Registered(After(before).connections, a.tenant) then Owed(before, q) + [a.message]
            else Owed(before, q)
  {
    assert (before + [a])[..|before|] == before;
    if a.Notify? {
      PutIsOwed(before, q, a.tenant);
    }
  }

  // In every interleaving, what a subscriber has received, followed by what is queued for it, is the
  // greeting and then exactly the messages notified to its tenant while it was registered.
  lemma {:induction false} DeliversInOrder(run: seq<Action>, q: QueueId)
    requires IsRun(run) && q in After(run).queues
    ensures Told(After(run).queues[q]) == [Greeting] + Events(Owed(run, q))
  {
    var before, a := run[..|run| - 1], run[|run| - 1];
    assert run == before + [a];
    OwedStep(before, a, q);
    LiveIsRegistered(before, q);
    if q in After(before).queues {
      DeliversInOrder(before, q);
      DeliveryStep(After(before), a, q);
      OneMoreOwed(Told(After(before).queues[q]), Owed(before, q), a);
    } else {
      NothingQueued(a.tenant);
    }
  }

  lemma OneMoreOwed(told: seq<Output>, owed: seq<Message>, a: Action)
    requires told == [Greeting] + Events(owed)
    ensures a.Notify? ==> told + [Event(a.message)] == [Greeting] + Events(owed + [a.message])
  {
    if a.Notify? {
      EventsMore(owed, a.message);
    }
  }

  lemma NothingQueued(tenant: Tenant)
    ensures Told(Queue(tenant, [], false, [])) == [Greeting] + Events([])
  {
  }

  // Only a notification adds to what a queue was and will be told; a receive moves it along.
  lemma DeliveryStep(s: State, a: Action, q: QueueId)
    requires Enabled(s, a) && q in s.queues
    ensures var t := Step(s, a);
            && q in t.queues
            && Told(t.queues[q]) == if a.Notify? && q in Registered(s.connections, a.tenant)
                                    then Told(s.queues[q]) + [Event(a.message)] else Told(s.queues[q])
  {
    var queue := s.queues[q];
    match a
    case Greet(q') =>
      if q == q' {
        GreetTells(queue);
      }
    case TimeOut(q') =>
      SaidMore(queue.output, Keepalive);
    case Receive(q') =>
      if q == q' {
        ReceiveMoves(queue);
      }
    case Notify(tenant, message) =>
      PutTells(queue, message);
    case _ =>
  }

  lemma GreetTells(queue: Queue)
    requires !queue.greeted
    ensures Told(queue.(greeted := true, output := queue.output + [Greeting])) == Told(queue)
  {
    SaidMore(queue.output, Greeting);
    assert Said(queue.output) + [Greeting] + [] == Said(queue.output) + [Greeting];
  }

  lemma ReceiveMoves(queue: Queue)
    requires queue.items != [] && queue.greeted
    ensures Told(queue.(items := queue.items[1..], output := queue.output + [Event(queue.items[0])])) == Told(queue)
  {
    var first, rest := queue.items[0], queue.items[1..];
    assert queue.items == [first] + rest;
    SaidMore(queue.output, Event(first));
    EventsMore(rest, first);
    assert Said(queue.output) + [Event(first)] + [] + Events(rest) ==
        Said(queue.output) + [] + ([Event(first)] + Events(rest));
  }

  lemma PutTells(queue: Queue, message: Message)
    ensures Told(queue.(items := queue.items + [message])) == Told(queue) + [Event(message)]
  {
    EventsMore(queue.items, message);
  }

  // -- the broadcaster --

  class SSEBroadcaster {
    var connections: map<Tenant, seq<QueueId>>
    var queues: map<QueueId, Queue>
    var made: nat

    ghost function Contents(): State
      reads this
    {
      State(connections, queues)
    }

    ghost predicate Valid()
      reads this
    {
      Tidy(Contents()) && forall q: QueueId :: q in queues <==> q < made
    }

    constructor ()
      ensures Valid() && Contents() == START
    {
      connections, queues, made := map[], map[], 0;
    }

    method Subscribe(tenant: Tenant) returns (q: QueueId)
      requires Valid()
      modifies this
      ensures Valid() && q !in old(queues)
      ensures Contents() == Step(old(Contents()), Action.Subscribe(q, tenant))
    {
      q := made;
      TidyStep(Contents(), Action.Subscribe(q, tenant));
      made := made + 1;
      queues := queues[q := Queue(tenant, [], false, [])];
      if tenant !in connections {
        connections := connections[tenant := []];
      }
      connections := connections[tenant := connections[tenant] + [q]];
      assert connections == old(connections)[tenant := Registered(old(connections), tenant) + [q]];
    }

    // One turn of the subscriber's generator; the wait for a message may time out.
    method Advance(q: QueueId, timedOut: bool) returns (output: Output)
      requires Valid() && Contents().Live(q)
      requires queues[q].greeted && !timedOut ==> queues[q].items != []
      modifies this`queues
      ensures Valid() && queues[q].output == old(queues[q].output) + [output]
      ensures var a := if !old(queues[q].greeted) then Greet(q) else if timedOut then TimeOut(q) else Receive(q);
              Enabled(old(Contents()), a) && Contents() == Step(old(Contents()), a)
    {
      var queue := queues[q];
      if !queue.greeted {
        output := Greeting;
        queue := queue.(greeted := true);
      } else if timedOut {
        output := Keepalive;
      } else {
        output := Event(queue.items[0]);
        queue := queue.(items := queue.items[1..]);
      }
      queues := queues[q := queue.(output := queue.output + [output])];
      assert forall tenant :: tenant in connections ==> TidyList(Contents(), tenant, connections[tenant]);
    }

    // The generator's finally block.
    method Close(q: QueueId)
      requires Valid() && Contents().Live(q)
      modifies this`connections
      ensures Valid() && Contents() == Step(old(Contents()), Disconnect(q))
    {
      TidyStep(Contents(), Disconnect(q));
      var tenant := queues[q].tenant;
      connections := connections[tenant := Without(connections[tenant], q)];
      if connections[tenant] == [] {
        connections := connections - {tenant};
      }
    }

    method Notify(tenant: Tenant, message: Message)
      requires Valid()
      modifies this`queues
      ensures Valid() && Contents() == Step(old(Contents()), Action.Notify(tenant, message))
    {
      TidyStep(Contents(), Action.Notify(tenant, message));
      if tenant !in connections || connections[tenant] == [] {
        assert queues == Put(queues, [], message);
        return;
      }
      var to := connections[tenant];
      ghost var was := queues;
      assert TidyList(Contents(), tenant, to);
      for k := 0 to |to|
        invariant forall q :: q in to ==> q in queues
        invariant queues == Put(was, to[..k], message)
      {
        NotAgain(to, k);
        queues := queues[to[k] := queues[to[k]].(items := queues[to[k]].items + [message])];
        assert to[..k + 1] == to[..k] + [to[k]];
      }
      assert to[..|to|] == to;
    }
  }

  lemma {:induction false} NotAgain(qs: seq<QueueId>, k: nat)
    requires Distinct(qs) && k < |qs|
    ensures qs[k] !in qs[..k]
  {
    if k > 0 {
      NotAgain(qs[1..], k - 1);
      assert qs[..k] == [qs[0]] + qs[1..][..k - 1];
      assert qs[k] in qs[1..];
    }
  }
}

/**
 The text of the stream, and how a client reads it: section 9.2.6 ("Interpreting an event stream") of the
 WHATWG HTML Standard, for text without carriage returns.
 */
module SseText {

  datatype Sent = Message(event: string, data: string) | KeepAlive

  // The text of one yield; data is JSON, which has no raw line ends.
  function Written(s: Sent): string {
    match s
    case Message(event, data) => "event: " + event + "\n" + "data: " + data + "\n\n"
    case KeepAlive => ": keepalive\n\n"
  }

  function Stream(sent: seq<Sent>): string {
    if sent == [] then "" else Written(sent[0]) + Stream(sent[1..])
  }

  predicate IsLine(s: string) {
    '\n' !in s && '\r' !in s
  }

  function LineLength(s: string): (n: nat)
    ensures n <= |s| && (n < |s| ==> s[n] == '\n')
  {
    if s == "" || s[0] == '\n' then 0 else 1 + LineLength(s[1..])
  }

  function NameLength(line: string): (n: nat)
    ensures n <= |line| && (n < |line| ==> line[n] == ':')
  {
    if line == "" || line[0] == ':' then 0 else 1 + NameLength(line[1..])
  }

  // A field's value, without one leading space.
  function Value(line: string): string {
    var n := NameLength(line);
    if n == |line| then ""
    else if n + 1 < |line| && line[n + 1] == ' ' then line[n + 2..]
    else line[n + 1..]
  }

  // The events a client dispatches, from its event-type and data buffers on.
  function Dispatched(s: string, event: string, data: string): seq<(string, string)>
    decreases |s|
  {
    var n := LineLength(s);
    if n == |s| then []
    else
      var line, rest := s[..n], s[n + 1..];
      if line == "" then
        if data == "" then Dispatched(rest, "", "")
        else [(if event == "" then "message" else event, data[..|data| - 1])] + Dispatched(rest, "", "")
      else if line[0] == ':' then Dispatched(rest, event, data)
      else if line[..NameLength(line)] == "event" then Dispatched(rest, Value(line), data)
      else if line[..NameLength(line)] == "data" then Dispatched(rest, event, data + Value(line) + "\n")
      else Dispatched(rest, event, data)
  }

  function Meant(sent: seq<Sent>): seq<(string, string)> {
    if sent == [] then []
    else (if sent[0].Message? then [(sent[0].event, sent[0].data)] else []) + Meant(sent[1..])
  }

  lemma {:induction false} OneLine(line: string, rest: string)
    requires IsLine(line)
    ensures LineLength(line + "\n" + rest) == |line|
    ensures (line + "\n" + rest)[..|line|] == line && (line + "\n" + rest)[|line| + 1..] == rest
  {
    if line != "" {
      assert (line + "\n" + rest)[1..] == line[1..] + "\n" + rest;
      OneLine(line[1..], rest);
    }
  }

  lemma {:induction false} OneField(name: string, value: string)
    requires ':' !in name
    ensures NameLength(name + ": " + value) == |name|
    ensures (name + ": " + value)[..|name|] == name && Value(name + ": " + value) == value
  {
    if name != "" {
      assert (name + ": " + value)[1..] == name[1..] + ": " + value;
      OneField(name[1..], value);
    }
  }

  lemma EventLine(event: string, rest: string, data: string)
    requires IsLine(event)
    ensures Dispatched("event: " + event + "\n" + rest, "", data) == Dispatched(rest, event, data)
  {
    var line := "event" + ": " + event;
    assert "event: " + event + "\n" + rest == line + "\n" + rest;
    OneLine(line, rest);
    OneField("event", event);
  }

  lemma DataLine(data: string, rest: string, event: string)
    requires IsLine(data)
    ensures Dispatched("data: " + data + "\n" + rest, event, "") == Dispatched(rest, event, data + "\n")
  {
    var line := "data" + ": " + data;
    assert "data: " + data + "\n" + rest == line + "\n" + rest;
    OneLine(line, rest);
    OneField("data", data);
    assert "" + data + "\n" == data + "\n";
  }

  lemma BlankLine(rest: string, event: string, data: string)
    ensures Dispatched("\n" + rest, event, data) ==
            if data == "" then Dispatched(rest, "", "")
            else [(if event == "" then "message" else event, data[..|data| - 1])] + Dispatched(rest, "", "")
  {
    OneLine("", rest);
    assert "" + "\n" + rest == "\n" + rest;
  }

  lemma OneMessage(event: string, data: string, rest: string)
    requires IsLine(event) && IsLine(data) && event != ""
    ensures Dispatched(Written(Message(event, data)) + rest, "", "") == [(event, data)] + Dispatched(rest, "", "")
  {
    MessageText(event, data, rest);
    EventLine(event, DataText(data, rest), "");
    DataLine(data, "\n" + rest, event);
    BlankLine(rest, event, data + "\n");
  }

  function DataText(data: string, rest: string): string {
    "data: " + data + "\n" + ("\n" + rest)
  }

  lemma MessageText(event: string, data: string, rest: string)
    ensures Written(Message(event, data)) + rest == "event: " + event + "\n" + DataText(data, rest)
  {
    var front := "event: " + event + "\n";
    assert Written(Message(event, data)) == front + ("data: " + data + "\n\n");
    assert "data: " + data + "\n\n" + rest == DataText(data, rest);
  }

  lemma OneKeepAlive(rest: string)
    ensures Dispatched(Written(KeepAlive) + rest, "", "") == Dispatched(rest, "", "")
  {
    assert Written(KeepAlive) + rest == ": keepalive" + "\n" + ("\n" + rest);
    OneLine(": keepalive", "\n" + rest);
    BlankLine(rest, "", "");
  }

  // A client dispatches exactly the messages that were sent, in order; keep-alives are not events.
  lemma {:induction false} ClientSeesWhatWasSent(sent: seq<Sent>)
    requires forall s :: s in sent && s.Message? ==> IsLine(s.event) && IsLine(s.data) && s.event != ""
    ensures Dispatched(Stream(sent), "", "") == Meant(sent)
  {
    if sent != [] {
      assert sent[0] in sent && forall s :: s in sent[1..] ==> s in sent;
      ClientSeesWhatWasSent(sent[1..]);
      match sent[0]
      case Message(event, data) => OneMessage(event, data, Stream(sent[1..]));
      case KeepAlive => OneKeepAlive(Stream(sent[1..]));
    }
  }
}

/**
 The broadcaster and the text format together: what a client makes of the text its subscription has yielded.
 */
module SseDelivery {
  import opened Sse
  import T = SseText

  type ClientEvent = (string, string)

  const CONNECTED: ClientEvent := ("connected", "{\"status\": \"connected\"}")

  // What `_format_sse` makes of an event name and JSON data.
  ghost predicate Formatted(m: Message) {
    exists event, data :: T.IsLine(event) && T.IsLine(data) && event != "" && m == T.Written(T.Message(event, data))
  }

  function TextOf(output: Output): string {
    match output
    case Greeting => T.Written(T.Message(CONNECTED.0, CONNECTED.1))
    case Keepalive => T.Written(T.KeepAlive)
    case Event(m) => m
  }

  function Text(outputs: seq<Output>): string {
    if outputs == [] then "" else TextOf(outputs[0]) + Text(outputs[1..])
  }

  function Read(output: Output): seq<ClientEvent> {
    match output
    case Greeting => [CONNECTED]
    case Keepalive => []
    case Event(m) => T.Dispatched(m, "", "")
  }

  // The events of each output by itself.
  function Heard(outputs: seq<Output>): seq<ClientEvent> {
    if outputs == [] then [] else Read(outputs[0]) + Heard(outputs[1..])
  }

  lemma OneOutput(output: Output, rest: string)
    requires output.Event? ==> Formatted(output.message)
    ensures T.Dispatched(TextOf(output) + rest, "", "") == Read(output) + T.Dispatched(rest, "", "")
  {
    match output
    case Greeting => T.OneMessage(CONNECTED.0, CONNECTED.1, rest);
    case Keepalive => T.OneKeepAlive(rest);
    case Event(m) =>
      var event, data :| T.IsLine(event) && T.IsLine(data) && event != "" && m == T.Written(T.Message(event, data));
      T.OneMessage(event, data, rest);
      T.OneMessage(event, data, "");
      assert m + "" == m && T.Dispatched("", "", "") == [];
  }

  lemma {:induction false} StreamIsRead(outputs: seq<Output>)
    requires forall output :: output in outputs && output.Event? ==> Formatted(output.message)
    ensures T.Dispatched(Text(outputs), "", "") == Heard(outputs)
  {
    if outputs != [] {
      OneOutput(outputs[0], Text(outputs[1..]));
      StreamIsRead(outputs[1..]);
    }
  }

  lemma {:induction false} HeardOn(a: seq<Output>, b: seq<Output>)
    ensures Heard(a + b) == Heard(a) + Heard(b)
  {
    if a == [] {
      assert a + b == b;
    } else {
      assert (a + b)[1..] == a[1..] + b;
      HeardOn(a[1..], b);
    }
  }

  lemma {:induction false} HeardSaid(outputs: seq<Output>)
    ensures Heard(Said(outputs)) == Heard(outputs)
    ensures forall output :: output in outputs && output.Event? ==> output in Said(outputs)
  {
    if outputs != [] {
      var init, last := outputs[..|outputs| - 1], outputs[|outputs| - 1];
      HeardSaid(init);
      assert outputs == init + [last];
      HeardOn(init, [last]);
      HeardOn(Said(init), if last.Keepalive? then [] else [last]);
    }
  }

  lemma {:induction false} EventsAre(messages: seq<Message>)
    ensures forall output :: output in Events(messages) ==> output.Event? && output.message in messages
  {
    if messages != [] {
      EventsAre(messages[..|messages| - 1]);
    }
  }

  lemma {:induction false} OwedAreNotified(run: seq<Action>, q: QueueId)
    ensures forall m :: m in Owed(run, q) ==> exists a :: a in run && a.Notify? && a.message == m
  {
    if run != [] {
      OwedAreNotified(run[..|run| - 1], q);
      assert run == run[..|run| - 1] + [run[|run| - 1]];
    }
  }

  // What the generator will still yield, if it goes on.
  ghost function Due(queue: Queue): seq<ClientEvent> {
    (if queue.greeted then [] else [CONNECTED]) + Heard(Events(queue.items))
  }

  lemma HeardInParts(a: seq<Output>, b: seq<Output>, c: seq<Output>)
    ensures Heard(a + b + c) == Heard(a) + Heard(b) + Heard(c)
  {
    HeardOn(a + b, c);
    HeardOn(a, b);
  }

  lemma HeardGreeting()
    ensures Heard([Greeting]) == [CONNECTED]
  {
    assert Heard([Greeting]) == Read(Greeting) + Heard([]);
  }

  lemma HeardTold(queue: Queue)
    ensures Heard(Told(queue)) == Heard(queue.output) + Due(queue)
  {
    HeardSaid(queue.output);
    if queue.greeted {
      HeardInParts(Said(queue.output), [], Events(queue.items));
    } else {
      HeardInParts(Said(queue.output), [Greeting], Events(queue.items));
      HeardGreeting();
    }
  }

  lemma OutputsFormatted(run: seq<Action>, q: QueueId)
    requires IsRun(run) && q in After(run).queues
    requires forall a :: a in run && a.Notify? ==> Formatted(a.message)
    ensures forall output :: output in After(run).queues[q].output && output.Event? ==> Formatted(output.message)
  {
    var queue, owed := After(run).queues[q], Owed(run, q);
    DeliversInOrder(run, q);
    HeardSaid(queue.output);
    OwedAreNotified(run, q);
    EventsAre(owed);
    forall output | output in queue.output && output.Event? ensures Formatted(output.message) {
      assert output in Told(queue);
      assert output in Events(owed);
    }
  }

  // In every interleaving, the events a client dispatches from the text its subscription has yielded, followed by
  // those still queued for it, are "connected" and then what was notified to its tenant while it was registered.
  lemma ClientHearsWhatIsOwed(run: seq<Action>, q: QueueId)
    requires IsRun(run) && q in After(run).queues
    requires forall a :: a in run && a.Notify? ==> Formatted(a.message)
    ensures T.Dispatched(Text(After(run).queues[q].output), "", "") + Due(After(run).queues[q])
            == [CONNECTED] + Heard(Events(Owed(run, q)))
  {
    DeliversInOrder(run, q);
    OutputsFormatted(run, q);
    StreamIsRead(After(run).queues[q].output);
    HeardTold(After(run).queues[q]);
    HeardOn([Greeting], Events(Owed(run, q)));
  }

  // Every message owed is one client event.
  lemma {:induction false} OneEventEach(messages: seq<Message>)
    requires forall m :: m in messages ==> Formatted(m)
    ensures |Heard(Events(messages))| == |messages|
  {
    if messages != [] {
      var init, last := messages[..|messages| - 1], messages[|messages| - 1];
      OneEventEach(init);
      HeardOn(Events(init), [Event(last)]);
      OneOutput(Event(last), "");
      var event, data :| T.IsLine(event) && T.IsLine(data) && event != "" && last == T.Written(T.Message(event, data));
      T.OneMessage(event, data, "");
      assert last + "" == last;
    }
  }
}
