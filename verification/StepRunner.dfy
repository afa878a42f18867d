/**
 Running one workflow step over the items of a foreach, with retries: src/step/step.py and the parts of
 src/contextmanager/contextmanager.py that it writes to. What conditions, throttles and providers answer
 comes with each item.
 */
module StepRunner {
  import opened Options

  type StepId = string
  type Value = string
  type Output = string

  // -- the context --

  datatype Results = List(outputs: seq<Output>) | Single(output: Output)

  datatype Record = Record(results: Results, vars: string, aliases: string, parameters: string)

  datatype Context = Context(
    steps: map<StepId, Record>,
    current: Option<StepId>,      // the step that "this" stands for
    foreachValue: Option<Value>,
    foreachItems: Option<seq<Value>>)

  class ContextManager {
    var steps: map<StepId, Record>
    var current: Option<StepId>
    var foreachValue: Option<Value>
    var foreachItems: Option<seq<Value>>

    ghost function Contents(): Context
      reads this
    {
      Context(steps, current, foreachValue, foreachItems)
    }

    constructor ()
      ensures Contents() == Context(map[], None, None, None)
    {
      steps, current, foreachValue, foreachItems := map[], None, None, None;
    }

    method SetForeachItems(items: seq<Value>)
      modifies this`foreachItems
      ensures foreachItems == Some(items)
    {
      foreachItems := Some(items);
    }

    method SetForeachValue(value: Value)
      modifies this`foreachValue
      ensures foreachValue == Some(value)
    {
      foreachValue := Some(value);
    }

    method ResetForeachContext()
      modifies this`foreachValue, this`foreachItems
      ensures foreachValue == None && foreachItems == None
    {
      foreachValue, foreachItems := None, None;
    }

    method SetStepVars(id: StepId, vars: string, aliases: string)
      modifies this`steps
      ensures steps == WithVars(old(steps), id, vars, aliases)
      ensures steps == old(steps)[id := if id in old(steps)
                                        then Record(old(steps)[id].results, vars, aliases, old(steps)[id].parameters)
                                        else Record(List([]), vars, aliases, "")]
    {
      if id !in steps {
        steps := steps[id := Record(List([]), "", "", "")];
      }
      steps := steps[id := steps[id].(vars := vars, aliases := aliases)];
    }

    // Appending to something that is not a list raises.
    method SetStepContext(id: StepId, output: Output, foreach_: bool) returns (raised: bool)
      modifies this`steps, this`current
      ensures raised == (foreach_ && !Appendable(old(steps), id))
      ensures !raised ==> current == Some(id) && steps == WithOutput(old(steps), id, output, foreach_)
      ensures !raised ==> id in steps && SameElsewhere(steps, old(steps), id) &&
                          steps[id].results == (
                            if !foreach_ then Single(output)
                            else if id in old(steps) then List(old(steps)[id].results.outputs + [output])
                            else List([output]))
      ensures raised ==> current == old(current) && steps == old(steps)
    {
      if id in steps && foreach_ && steps[id].results.Single? {
        return true;
      }
      if id !in steps {
        steps := steps[id := Record(List([]), "", "", "")];
      }
      if foreach_ {
        steps := steps[id := steps[id].(results := List(steps[id].results.outputs + [output]))];
      } else {
        steps := steps[id := steps[id].(results := Single(output))];
      }
      current := Some(id);
      raised := false;
    }

    method SetStepProviderParameters(id: StepId, parameters: string)
      modifies this`steps
      ensures steps == WithParameters(old(steps), id, parameters)
      ensures steps == old(steps)[id := if id in old(steps)
                                        then Record(old(steps)[id].results, old(steps)[id].vars,
                                                    old(steps)[id].aliases, parameters)
                                        else Record(List([]), "", "", parameters)]
    {
      if id !in steps {
        steps := steps[id := Record(List([]), "", "", "")];
      }
      steps := steps[id := steps[id].(parameters := parameters)];
    }
  }

  function RecordOf(steps: map<StepId, Record>, id: StepId): Record {
    if id in steps then steps[id] else Record(List([]), "", "", "")
  }

  function WithVars(steps: map<StepId, Record>, id: StepId, vars: string, aliases: string): map<StepId, Record> {
    steps[id := RecordOf(steps, id).(vars := vars, aliases := aliases)]
  }

  function WithParameters(steps: map<StepId, Record>, id: StepId, parameters: string): map<StepId, Record> {
    steps[id := RecordOf(steps, id).(parameters := parameters)]
  }

  predicate SameElsewhere(a: map<StepId, Record>, b: map<StepId, Record>, id: StepId) {
    a - {id} == b - {id}
  }

  predicate Appendable(steps: map<StepId, Record>, id: StepId) {
    RecordOf(steps, id).results.List?
  }

  // A step without a foreach replaces whatever was there.
  predicate Stores(steps: map<StepId, Record>, id: StepId, foreach_: bool) {
    foreach_ ==> Appendable(steps, id)
  }

  function WithOutput(steps: map<StepId, Record>, id: StepId, output: Output, foreach_: bool): map<StepId, Record>
    requires Stores(steps, id, foreach_)
  {
    var was := RecordOf(steps, id);
    steps[id := was.(results := if foreach_ then List(was.results.outputs + [output]) else Single(output))]
  }

  // -- what the world answers for one item --

  datatype Verdict = Yes | No | Raises
  datatype Answer = Returned(output: Output) | Raised

  datatype Item = Item(
    value: Value,
    condition: Verdict,
    throttled: Verdict,
    renders: bool,
    rendered: string,             // the provider's parameters, with `foreach.value` filled in
    provider: nat -> Answer,      // the answer to each attempt
    exposes: bool)

  // The provider is reached at all.
  predicate Eligible(item: Item) {
    item.condition == Yes && item.throttled == No && item.renders
  }

  // The first attempt that succeeds, from one of them up to the last.
  function FirstSuccess(provider: nat -> Answer, from: nat, last: nat): (k: Option<nat>)
    ensures k.Some? ==> from <= k.value <= last && provider(k.value).Returned?
    decreases last - from
  {
    if from > last then None
    else if provider(from).Returned? then Some(from)
    else if from == last then None
    else FirstSuccess(provider, from + 1, last)
  }

  function OutputOf(item: Item, retries: nat): Option<Output> {
    if !Eligible(item) || FirstSuccess(item.provider, 0, retries).None? then None
    else Some(item.provider(FirstSuccess(item.provider, 0, retries).value).output)
  }

  // How often the provider is called for the item, when its answers can be stored or when they cannot.
  function CallsFor(item: Item, retries: nat, stores: bool): nat {
    if !Eligible(item) then 0
    else if stores && FirstSuccess(item.provider, 0, retries).Some? then
      FirstSuccess(item.provider, 0, retries).value + 1
    else retries + 1
  }

  function Outputs(items: seq<Item>, retries: nat): seq<Output> {
    if items == [] then []
    else
      Outputs(items[..|items| - 1], retries) +
      match OutputOf(items[|items| - 1], retries) { case Some(output) => [output] case None => [] }
  }

  function Times(value: Option<Value>, n: nat): seq<Option<Value>> {
    seq(n, _ => value)
  }

  // The value of `foreach.value` at every provider call.
  function Seen(items: seq<Item>, retries: nat, stores: bool): seq<Option<Value>> {
    if items == [] then []
    else
      var last := items[|items| - 1];
      Seen(items[..|items| - 1], retries, stores) + Times(Some(last.value), CallsFor(last, retries, stores))
  }

  predicate Ran(item: Item, retries: nat) {
    OutputOf(item, retries).Some? && item.exposes
  }

  // Its condition raises; or that holds and the throttle raises; or it is not throttled and its parameters do not
  // render, every attempt fails, its output cannot be stored, or `expose` fails.
  ghost predicate RaisesOn(item: Item, retries: nat, stores: bool) {
    || item.condition == Raises
    || (item.condition == Yes && item.throttled == Raises)
    || (item.condition == Yes && item.throttled == No &&
        (!item.renders || (forall k :: 0 <= k <= retries ==> item.provider(k).Raised?) || !stores || !item.exposes))
  }

  // What running the step on one item leaves in the table of steps.
  function AfterItem(steps: map<StepId, Record>, id: StepId, vars: string, item: Item, retries: nat, foreach_: bool)
    : map<StepId, Record>
  {
    var started := WithVars(steps, id, vars, "");
    if OutputOf(item, retries).None? || !Stores(started, id, foreach_) then started
    else
      var stored := WithOutput(started, id, OutputOf(item, retries).value, foreach_);
      if item.exposes then WithParameters(stored, id, item.rendered) else stored
  }

  function AfterItems(steps: map<StepId, Record>, id: StepId, vars: string, items: seq<Item>, retries: nat)
    : map<StepId, Record>
  {
    if items == [] then steps
    else
      AfterItem(AfterItems(steps, id, vars, items[..|items| - 1], retries), id, vars, items[|items| - 1], retries, true)
  }

  // What a list step has stored.
  function Stored(steps: map<StepId, Record>, id: StepId): seq<Output> {
    var results := RecordOf(steps, id).results;
    if results.List? then results.outputs else []
  }

  // -- what that amounts to --

  lemma StoredAfterOne(steps: map<StepId, Record>, id: StepId, vars: string, item: Item, retries: nat)
    ensures var after := AfterItem(steps, id, vars, item, retries, true);
            && SameElsewhere(steps, after, id)
            && Appendable(after, id) == Appendable(steps, id)
            && (if !Appendable(steps, id) then RecordOf(after, id).results == RecordOf(steps, id).results
                else Stored(after, id) ==
                     Stored(steps, id) + if OutputOf(item, retries).Some? then [OutputOf(item, retries).value] else [])
  {
    var after := AfterItem(steps, id, vars, item, retries, true);
    assert after - {id} == steps - {id};
  }

  // The stored results are the old list and then the new outputs; a step whose result is no list keeps it,
  // and no other step is touched.
  lemma {:induction false} StoredAfter(steps: map<StepId, Record>, id: StepId, vars: string, items: seq<Item>,
      retries: nat)
    ensures var after := AfterItems(steps, id, vars, items, retries);
            && SameElsewhere(steps, after, id)
            && Appendable(after, id) == Appendable(steps, id)
            && (if Appendable(steps, id) then Stored(after, id) == Stored(steps, id) + Outputs(items, retries)
                else RecordOf(after, id).results == RecordOf(steps, id).results)
  {
    if items != [] {
      var init, last := items[..|items| - 1], items[|items| - 1];
      StoredAfter(steps, id, vars, init, retries);
      StoredAfterOne(AfterItems(steps, id, vars, init, retries), id, vars, last, retries);
    }
  }

  lemma {:induction false} FirstSuccessIsFirst(provider: nat -> Answer, from: nat, last: nat)
    requires from <= last
    ensures var k := FirstSuccess(provider, from, last);
            && (k.None? <==> forall j :: from <= j <= last ==> provider(j).Raised?)
            && (k.Some? ==> forall j :: from <= j < k.value ==> provider(j).Raised?)
    decreases last - from
  {
    if provider(from).Raised? && from < last {
      FirstSuccessIsFirst(provider, from + 1, last);
    }
  }

  // An item has an output exactly when its condition held, it was not throttled, its parameters rendered
  // and some attempt succeeded; the output is that of the first such attempt.
  lemma OutputIff(item: Item, retries: nat)
    ensures OutputOf(item, retries).Some? <==>
            && item.condition == Yes && item.throttled == No && item.renders
            && exists k :: 0 <= k <= retries && item.provider(k).Returned?
    ensures OutputOf(item, retries).Some? ==>
            exists k :: 0 <= k <= retries && item.provider(k) == Returned(OutputOf(item, retries).value)
                        && (forall j :: 0 <= j < k ==> item.provider(j).Raised?)
                        && CallsFor(item, retries, true) == k + 1
  {
    FirstSuccessIsFirst(item.provider, 0, retries);
  }

  lemma {:induction false} CallsBounded(items: seq<Item>, retries: nat, stores: bool)
    ensures |Seen(items, retries, stores)| <= |items| * (retries + 1)
  {
    if items != [] {
      CallsBounded(items[..|items| - 1], retries, stores);
      assert |items| * (retries + 1) == (|items| - 1) * (retries + 1) + (retries + 1);
    }
  }

  lemma {:induction false} SeenPrefix(items: seq<Item>, retries: nat, stores: bool, k: nat)
    requires k <= |items|
    ensures Seen(items[..k], retries, stores) <= Seen(items, retries, stores)
  {
    if k < |items| {
      var init := items[..|items| - 1];
      SeenPrefix(init, retries, stores, k);
      assert init[..k] == items[..k];
    } else {
      assert items[..k] == items;
    }
  }

  // Every provider call for an item finds that item's own value: the calls for the k-th item come after those for the
  // items before it, as many as the item has.
  lemma SeenIsOwnValue(items: seq<Item>, retries: nat, stores: bool, k: nat, j: nat)
    requires k < |items| && j < CallsFor(items[k], retries, stores)
    ensures var before := |Seen(items[..k], retries, stores)|;
            && before + j < |Seen(items, retries, stores)|
            && Seen(items, retries, stores)[before + j] == Some(items[k].value)
  {
    var upTo := items[..k + 1];
    assert upTo[..k] == items[..k] && upTo[k] == items[k];
    SeenPrefix(items, retries, stores, k + 1);
    assert Seen(upTo, retries, stores) ==
      Seen(items[..k], retries, stores) + Times(Some(items[k].value), CallsFor(items[k], retries, stores));
  }

  lemma SeenLength(items: seq<Item>, retries: nat, stores: bool, k: nat)
    requires k < |items|
    ensures |Seen(items[..k + 1], retries, stores)| ==
            |Seen(items[..k], retries, stores)| + CallsFor(items[k], retries, stores)
  {
    assert items[..k + 1][..k] == items[..k];
  }

  // An item's provider is called until it succeeds and its answer is stored, and otherwise as often as is allowed.
  lemma CallsAre(item: Item, retries: nat, stores: bool)
    ensures !(item.condition == Yes && item.throttled == No && item.renders) ==> CallsFor(item, retries, stores) == 0
    ensures item.condition == Yes && item.throttled == No && item.renders ==>
            var n := CallsFor(item, retries, stores);
            && 1 <= n <= retries + 1
            && (forall j :: 0 <= j < n - 1 ==> item.provider(j).Raised? || !stores)
            && (n <= retries ==> stores && item.provider(n - 1).Returned?)
  {
    FirstSuccessIsFirst(item.provider, 0, retries);
  }

  lemma RecordAfterOne(steps: map<StepId, Record>, id: StepId, vars: string, item: Item, retries: nat)
    requires Appendable(steps, id)
    ensures var after := RecordOf(AfterItem(steps, id, vars, item, retries, true), id);
            && after.vars == vars && after.aliases == ""
            && after.parameters == if Ran(item, retries) then item.rendered else RecordOf(steps, id).parameters
  {
  }

  // The record's variables are those of the step, and its provider's parameters are those rendered for the last item
  // that ran.
  lemma {:induction false} RecordAfter(steps: map<StepId, Record>, id: StepId, vars: string, items: seq<Item>,
      retries: nat, k: nat)
    requires Appendable(steps, id) && k < |items| && Ran(items[k], retries)
    requires forall l :: k < l < |items| ==> !Ran(items[l], retries)
    ensures var after := RecordOf(AfterItems(steps, id, vars, items, retries), id);
            after.vars == vars && after.aliases == "" && after.parameters == items[k].rendered
  {
    var init, last := items[..|items| - 1], items[|items| - 1];
    StoredAfter(steps, id, vars, init, retries);
    RecordAfterOne(AfterItems(steps, id, vars, init, retries), id, vars, last, retries);
    if k < |init| {
      RecordAfter(steps, id, vars, init, retries, k);
    }
  }

  function Successful(items: seq<Item>, retries: nat): (kept: seq<Item>)
    ensures forall item :: item in kept ==> item in items && OutputOf(item, retries).Some?
  {
    if items == [] then []
    else
      Successful(items[..|items| - 1], retries) +
      if OutputOf(items[|items| - 1], retries).Some? then [items[|items| - 1]] else []
  }

  // The outputs are those of the successful items, one each and in the order of the items.
  lemma {:induction false} OutputsInItemOrder(items: seq<Item>, retries: nat)
    ensures var kept := Successful(items, retries);
            && |Outputs(items, retries)| == |kept|
            && forall i :: 0 <= i < |kept| ==> OutputOf(kept[i], retries) == Some(Outputs(items, retries)[i])
  {
    if items != [] {
      OutputsInItemOrder(items[..|items| - 1], retries);
    }
  }

  function Values(items: seq<Item>): (values: seq<Value>)
    ensures |values| == |items|
  {
    seq(|items|, i requires 0 <= i < |items| => items[i].value)
  }

  // -- the step --

  class Step {
    const id: StepId
    const retryCount: nat
    const foreach_: bool
    const vars: string
    const context: ContextManager
    var seen: seq<Option<Value>>  // `foreach.value` as each provider call found it

    constructor (id: StepId, retryCount: nat, foreach_: bool, vars: string, context: ContextManager)
      ensures this.id == id && this.retryCount == retryCount && this.foreach_ == foreach_ && this.context == context
      ensures seen == []
    {
      this.id, this.retryCount, this.foreach_, this.vars, this.context := id, retryCount, foreach_, vars, context;
      seen := [];
    }

    method RunSingle(item: Item) returns (did: bool, raised: bool)
      modifies context`steps, context`current, this`seen
      ensures context.steps == AfterItem(old(context.steps), id, vars, item, retryCount, foreach_)
      ensures var stores := old(Stores(context.steps, id, foreach_));
              && seen == old(seen) + Times(context.foreachValue, CallsFor(item, retryCount, stores))
              && did == (stores && Ran(item, retryCount))
      ensures raised <==> RaisesOn(item, retryCount, old(Stores(context.steps, id, foreach_)))
    {
      did, raised := false, false;
      context.SetStepVars(id, vars, "");
      if item.condition == Raises {
        return false, true;
      }
      if item.condition == No {
        return;
      }
      if item.throttled == Raises {
        return false, true;
      }
      if item.throttled == Yes {
        return;
      }
      if !item.renders {
        return false, true;
      }
      FirstSuccessIsFirst(item.provider, 0, retryCount);
      var stored := Attempts(item);
      if !stored || !item.exposes {
        return false, true;
      }
      context.SetStepProviderParameters(id, item.rendered);
      did := true;
    }

    // The retry loop.
    method Attempts(item: Item) returns (stored: bool)
      requires Eligible(item)
      modifies context`steps, context`current, this`seen
      ensures stored == (old(Stores(context.steps, id, foreach_)) && FirstSuccess(item.provider, 0, retryCount).Some?)
      ensures seen ==
              old(seen) +
              Times(context.foreachValue, CallsFor(item, retryCount, old(Stores(context.steps, id, foreach_))))
      ensures stored ==> context.steps == WithOutput(old(context.steps), id, OutputOf(item, retryCount).value, foreach_)
      ensures !stored ==> context.steps == old(context.steps)
    {
      var attempt := 0;
      while attempt <= retryCount
        invariant attempt <= retryCount + 1
        invariant seen == old(seen) + Times(context.foreachValue, attempt)
        invariant context.steps == old(context.steps)
        invariant Stores(context.steps, id, foreach_) ==>
          FirstSuccess(item.provider, 0, retryCount) ==
          if attempt <= retryCount then FirstSuccess(item.provider, attempt, retryCount) else None
      {
        seen := seen + [context.foreachValue];
        assert Times(context.foreachValue, attempt) + [context.foreachValue] ==
            Times(context.foreachValue, attempt + 1);
        var answer := item.provider(attempt);
        if answer.Returned? {
          var raised := context.SetStepContext(id, answer.output, foreach_);
          if !raised {
            return true;
          }
        }
        attempt := attempt + 1;
      }
      stored := false;
    }

    method RunForeach(items: seq<Item>) returns (any: bool)
      requires foreach_
      modifies context, this`seen
      ensures context.foreachValue == None && context.foreachItems == None
      ensures context.steps == AfterItems(old(context.steps), id, vars, items, retryCount)
      ensures var stores := old(Appendable(context.steps, id));
              && Stored(context.steps, id) == old(Stored(context.steps, id)) +
                  (if stores then Outputs(items, retryCount) else [])
              && seen == old(seen) + Seen(items, retryCount, stores)
              && any == (stores && exists item :: item in items && Ran(item, retryCount))
      ensures SameElsewhere(old(context.steps), context.steps, id)
    {
      any := false;
      context.SetForeachItems(Values(items));
      ghost var before, called := context.steps, seen;
      ghost var stores := Appendable(before, id);
      for k := 0 to |items|
        invariant context.steps == AfterItems(before, id, vars, items[..k], retryCount)
        invariant seen == called + Seen(items[..k], retryCount, stores)
        invariant any == (stores && exists i :: 0 <= i < k && Ran(items[i], retryCount))
      {
        assert items[..k + 1][..k] == items[..k];
        StoredAfter(before, id, vars, items[..k], retryCount);
        context.SetForeachValue(items[k].value);
        var did, raised := RunSingle(items[k]);
        if raised {
          continue;
        }
        if did {
          any := true;
        }
      }
      assert items[..|items|] == items;
      StoredAfter(before, id, vars, items, retryCount);
      context.ResetForeachContext();
    }
  }
}
