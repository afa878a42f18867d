/**
 Passes of the correlation rules over incoming alerts: src/rulesengine/rulesengine.py. What CEL and the database
 answer is part of the input; every commit succeeds.
 */
module RulesEngine {
  import opened Options
  import opened Strings
  import SubRules

  // -- which sub-rules an alert matches --

  datatype Failure = InvalidName | OtherValueError | OtherException

  // What evaluating one sub-rule gives; a type mismatch is settled by coercion or raised again.
  datatype Evaluation = Value(holds: bool) | NoSuchMember | NoSuchOverload(coerced: bool) | Fails(failure: Failure)

  type Cel = string -> Evaluation

  datatype Check = Matches(rules: seq<string>) | Raises(failure: Failure)

  function Rewritten(rule: string): string {
    if Occurs(rule, "null") then Replace(rule, "null", "\"\"") else rule
  }

  predicate Holds(evaluate: Cel, rule: string) {
    evaluate(Rewritten(rule)) == Value(true) || evaluate(Rewritten(rule)) == NoSuchOverload(true)
  }

  function FailureOf(e: Evaluation): Option<Failure> {
    match e
    case NoSuchOverload(coerced) => if coerced then None else Some(OtherException)
    case Fails(failure) => Some(failure)
    case _ => None
  }

  function Matched(rules: seq<string>, evaluate: Cel): Check {
    if rules == [] then Matches([])
    else
      var before, rule := Matched(rules[..|rules| - 1], evaluate), rules[|rules| - 1];
      if before.Raises? then before
      else if FailureOf(evaluate(Rewritten(rule))).Some? then Raises(FailureOf(evaluate(Rewritten(rule))).value)
      else if Holds(evaluate, rule) then Matches(before.rules + [Rewritten(rule)])
      else before
  }

  // The rules an alert matches, as the evaluator was given them.
  method CheckIfRuleApply(definition: string, evaluate: Cel) returns (check: Check)
    ensures check == Matched(SubRules.Extract(definition), evaluate)
  {
    var rules := SubRules.Extract(definition);
    var matched := [];
    for i := 0 to |rules|
      invariant Matched(rules[..i], evaluate) == Matches(matched)
    {
      assert rules[..i + 1][..i] == rules[..i];
      var rule := rules[i];
      if Occurs(rule, "null") {
        rule := Replace(rule, "null", "\"\"");
      }
      match evaluate(rule)
      case Value(holds) =>
        if holds {
          matched := matched + [rule];
        }
      case NoSuchMember =>
      case NoSuchOverload(coerced) =>
        if !coerced {
          RaisedOnce(rules, evaluate, i + 1);
          return Raises(OtherException);
        }
        matched := matched + [rule];
      case Fails(failure) =>
        RaisedOnce(rules, evaluate, i + 1);
        return Raises(failure);
    }
    assert rules[..|rules|] == rules;
    check := Matches(matched);
  }

  lemma {:induction false} RaisedOnce(rules: seq<string>, evaluate: Cel, n: nat)
    requires n <= |rules| && Matched(rules[..n], evaluate).Raises?
    ensures Matched(rules, evaluate) == Matched(rules[..n], evaluate)
    decreases |rules|
  {
    if n < |rules| {
      assert rules[..|rules| - 1][..n] == rules[..n];
      RaisedOnce(rules[..|rules| - 1], evaluate, n);
    } else {
      assert rules[..n] == rules;
    }
  }

  lemma {:induction false} MatchedMeans(rules: seq<string>, evaluate: Cel)
    requires Matched(rules, evaluate).Matches?
    ensures var matched := Matched(rules, evaluate).rules;
            && |matched| <= |rules|
            && (forall text :: text in matched <==>
                  exists rule :: rule in rules && Holds(evaluate, rule) && Rewritten(rule) == text)
            && (|matched| == |rules| <==> forall rule :: rule in rules ==> Holds(evaluate, rule))
  {
    if rules != [] {
      var init, last := rules[..|rules| - 1], rules[|rules| - 1];
      MatchedMeans(init, evaluate);
      assert rules == init + [last];
    }
  }

  // What one sub-rule comes to: "null" is replaced before it is evaluated, a missing member is no match, and a type
  // mismatch is a match when coercion settles it.
  lemma OneRuleMatches(rule: string, evaluate: Cel)
    ensures var text := if Occurs(rule, "null") then Replace(rule, "null", "\"\"") else rule;
            Matched([rule], evaluate) ==
            match evaluate(text)
            case Value(holds) => Matches(if holds then [text] else [])
            case NoSuchMember => Matches([])
            case NoSuchOverload(coerced) => if coerced then Matches([text]) else Raises(OtherException)
            case Fails(failure) => Raises(failure)
  {
    assert [rule][..0] == [];
  }

  // Sub-rules are checked in order: the first that raises decides, and otherwise their matches come one after another.
  lemma MatchedInOrder(rules: seq<string>, last: string, evaluate: Cel)
    ensures var before, one := Matched(rules, evaluate), Matched([last], evaluate);
            Matched(rules + [last], evaluate) ==
            if before.Raises? then before
            else if one.Raises? then one
            else Matches(before.rules + one.rules)
  {
    OneRuleMatches(last, evaluate);
    assert (rules + [last])[..|rules|] == rules;
  }

  // -- the history of an incident --

  datatype Alert = Alert(evaluate: Cel, unresolved: Option<nat>)

  datatype History = History(matched: set<string>, met: bool, raised: bool)

  function Items(rules: seq<string>): (items: set<string>)
    ensures forall rule :: rule in items <==> rule in rules
  {
    set rule | rule in rules
  }

  function Reviewed(rules: seq<string>, alerts: seq<Alert>): History {
    if alerts == [] then History({}, false, false)
    else
      var before := Reviewed(rules, alerts[..|alerts| - 1]);
      var check := Matched(rules, alerts[|alerts| - 1].evaluate);
      if before.met || before.raised then before
      else if check.Raises? then before.(raised := true)
      else
        var matched := before.matched + Items(check.rules);
        History(matched, Items(rules) == matched, false)
  }

  // The union over the alerts, up to the first of them with which it is complete.
  method ReviewHistory(definition: string, alerts: seq<Alert>) returns (met: bool, raised: bool)
    ensures var history := Reviewed(SubRules.Extract(definition), alerts);
            met == history.met && raised == history.raised
  {
    ghost var rules := SubRules.Extract(definition);
    var extracted := SubRules.Extract(definition);
    var all, matched := Items(extracted), {};
    met, raised := false, false;
    for i := 0 to |alerts|
      invariant Reviewed(rules, alerts[..i]) == History(matched, false, false)
    {
      assert alerts[..i + 1][..i] == alerts[..i];
      var check := CheckIfRuleApply(definition, alerts[i].evaluate);
      if check.Raises? {
        ReviewEnds(rules, alerts, i + 1);
        return false, true;
      }
      matched := matched + Items(check.rules);
      if all == matched {
        ReviewEnds(rules, alerts, i + 1);
        return true, false;
      }
    }
    assert alerts[..|alerts|] == alerts;
  }

  lemma {:induction false} ReviewEnds(rules: seq<string>, alerts: seq<Alert>, n: nat)
    requires n <= |alerts| && var history := Reviewed(rules, alerts[..n]); history.met || history.raised
    ensures Reviewed(rules, alerts) == Reviewed(rules, alerts[..n])
    decreases |alerts|
  {
    if n < |alerts| {
      assert alerts[..|alerts| - 1][..n] == alerts[..n];
      ReviewEnds(rules, alerts[..|alerts| - 1], n);
    } else {
      assert alerts[..n] == alerts;
    }
  }

  // What was put in for "null" starts with a quote, so text without a quote was there before.
  lemma {:induction false} PrefixWasThere(s: string, prefix: string)
    requires '"' !in prefix && StartsWith(Replace(s, "null", "\"\""), prefix)
    ensures StartsWith(s, prefix)
  {
    if prefix != "" {
      var t := Replace(s, "null", "\"\"");
      assert prefix[0] == t[0] && prefix[0] in prefix;
      assert t == [s[0]] + Replace(s[1..], "null", "\"\"");
      assert t[1..] == Replace(s[1..], "null", "\"\"") && t[1..][..|prefix| - 1] == prefix[1..];
      PrefixWasThere(s[1..], prefix[1..]);
      assert s[..|prefix|] == [s[0]] + s[1..][..|prefix| - 1];
    }
  }

  lemma {:induction false} NoNullLeft(s: string)
    ensures !Occurs(Replace(s, "null", "\"\""), "null")
  {
    var t := Replace(s, "null", "\"\"");
    if s == "" {
    } else if StartsWith(s, "null") {
      NoNullLeft(s[4..]);
      var rest := Replace(s[4..], "null", "\"\"");
      assert t == "\"\"" + rest && t[1..] == "\"" + rest && t[1..][1..] == rest;
      assert t[0] == '"' && t[1..][0] == '"';
      assert !StartsWith(t, "null") && !StartsWith(t[1..], "null");
    } else {
      NoNullLeft(s[1..]);
      assert t[1..] == Replace(s[1..], "null", "\"\"");
      if StartsWith(t, "null") {
        PrefixWasThere(s, "null");
        assert false;
      }
    }
  }

  ghost predicate SeenBy(alerts: seq<Alert>, rule: string) {
    exists alert :: alert in alerts && Holds(alert.evaluate, rule)
  }

  // Exactly the rules some alert satisfies, as rewritten.
  ghost predicate Covers(rules: seq<string>, alerts: seq<Alert>, matched: set<string>) {
    && (forall rule :: rule in rules && SeenBy(alerts, rule) ==> Rewritten(rule) in matched)
    && (forall text :: text in matched ==>
          exists rule :: rule in rules && SeenBy(alerts, rule) && Rewritten(rule) == text)
  }

  lemma CoversMore(rules: seq<string>, alerts: seq<Alert>, last: Alert, before: set<string>)
    requires Covers(rules, alerts, before) && Matched(rules, last.evaluate).Matches?
    ensures Covers(rules, alerts + [last], before + Items(Matched(rules, last.evaluate).rules))
  {
    var more := Matched(rules, last.evaluate).rules;
    var after := before + Items(more);
    MatchedMeans(rules, last.evaluate);
    forall rule ensures SeenBy(alerts + [last], rule) <==> SeenBy(alerts, rule) || Holds(last.evaluate, rule) {
      assert last in alerts + [last];
    }
    forall text | text in after
      ensures exists rule :: rule in rules && SeenBy(alerts + [last], rule) && Rewritten(rule) == text
    {
      if text in before {
        var rule :| rule in rules && SeenBy(alerts, rule) && Rewritten(rule) == text;
        assert SeenBy(alerts + [last], rule);
      } else {
        var rule :| rule in rules && Holds(last.evaluate, rule) && Rewritten(rule) == text;
        assert SeenBy(alerts + [last], rule);
      }
    }
  }

  // As long as no evaluation raises, that is what the union holds when the review looks at it.
  lemma {:induction false} ReviewedMeans(rules: seq<string>, alerts: seq<Alert>)
    requires Quiet(rules, alerts)
    requires alerts != [] ==> !Reviewed(rules, alerts[..|alerts| - 1]).met
    ensures !Reviewed(rules, alerts).raised && Covers(rules, alerts, Reviewed(rules, alerts).matched)
  {
    if alerts != [] {
      var init, last := alerts[..|alerts| - 1], alerts[|alerts| - 1];
      assert init != [] && Reviewed(rules, init[..|init| - 1]).met ==> Reviewed(rules, init).met;
      ReviewedMeans(rules, init);
      assert alerts == init + [last];
      ReviewedOn(rules, init, last);
      CoversMore(rules, init, last, Reviewed(rules, init).matched);
    }
  }

  lemma ReviewedOn(rules: seq<string>, init: seq<Alert>, last: Alert)
    requires !Reviewed(rules, init).met && !Reviewed(rules, init).raised && Matched(rules, last.evaluate).Matches?
    ensures !Reviewed(rules, init + [last]).raised
    ensures Reviewed(rules, init + [last]).matched ==
            Reviewed(rules, init).matched + Items(Matched(rules, last.evaluate).rules)
  {
    assert (init + [last])[..|init|] == init;
  }

  lemma RewrittenHasNoNull(rule: string)
    ensures !Occurs(Rewritten(rule), "null")
    ensures Rewritten(rule) == rule <==> !Occurs(rule, "null")
  {
    NoNullLeft(rule);
  }

  // No alert's evaluation raises.
  ghost predicate Quiet(rules: seq<string>, alerts: seq<Alert>) {
    forall alert :: alert in alerts ==> Matched(rules, alert.evaluate).Matches?
  }

  // No sub-rule mentions null, and each is satisfied by some alert.
  ghost predicate Complete(rules: seq<string>, alerts: seq<Alert>) {
    forall rule :: rule in rules ==> !Occurs(rule, "null") && SeenBy(alerts, rule)
  }

  lemma CompleteGrows(rules: seq<string>, alerts: seq<Alert>, m: nat, n: nat)
    requires m <= n <= |alerts| && Complete(rules, alerts[..m])
    ensures Complete(rules, alerts[..n])
  {
    forall rule | rule in rules ensures SeenBy(alerts[..n], rule) {
      var alert :| alert in alerts[..m] && Holds(alert.evaluate, rule);
      assert alert in alerts[..n];
    }
  }

  // A sub-rule that mentions null is matched under another text than its own, so it is never in the union.
  lemma {:induction false} QuietHistoryIff(rules: seq<string>, alerts: seq<Alert>)
    requires rules != [] && Quiet(rules, alerts)
    ensures Reviewed(rules, alerts).met <==> Complete(rules, alerts)
  {
    if alerts != [] {
      var init := alerts[..|alerts| - 1];
      assert alerts == init + [alerts[|alerts| - 1]];
      QuietHistoryIff(rules, init);
      if Reviewed(rules, init).met {
        CompleteGrows(rules, alerts, |init|, |alerts|);
        assert alerts[..|alerts|] == alerts;
      } else {
        ReviewedMeans(rules, alerts);
        MetAtLastIff(rules, alerts);
      }
    } else {
      assert rules[0] in rules && !SeenBy(alerts, rules[0]);
    }
  }

  // The review comes to the n-th alert: none before it raised, and those do not suffice.
  ghost predicate Awaits(rules: seq<string>, alerts: seq<Alert>, n: nat)
    requires n <= |alerts|
  {
    Quiet(rules, alerts[..n]) && !Complete(rules, alerts[..n])
  }

  lemma {:induction false} UndecidedIsQuiet(rules: seq<string>, alerts: seq<Alert>)
    requires !Reviewed(rules, alerts).met && !Reviewed(rules, alerts).raised
    ensures Quiet(rules, alerts)
  {
    if alerts != [] {
      UndecidedIsQuiet(rules, alerts[..|alerts| - 1]);
      assert alerts == alerts[..|alerts| - 1] + [alerts[|alerts| - 1]];
    }
  }

  // The conditions are met exactly when some first alerts, none of which raises, satisfy every sub-rule and none
  // of these mentions null; the review raises exactly when it comes to an alert that does, first.
  lemma {:induction false} ConditionsMetIff(rules: seq<string>, alerts: seq<Alert>)
    requires rules != []
    ensures Reviewed(rules, alerts).met <==>
            exists n: nat :: n <= |alerts| && Quiet(rules, alerts[..n]) && Complete(rules, alerts[..n])
    ensures Reviewed(rules, alerts).raised <==>
            exists n: nat :: n < |alerts| && Awaits(rules, alerts, n) && Matched(rules, alerts[n].evaluate).Raises?
  {
    if alerts == [] {
      assert rules[0] in rules && !SeenBy([], rules[0]);
    } else {
      var init := alerts[..|alerts| - 1];
      ConditionsMetIff(rules, init);
      forall n: nat | n <= |init| ensures init[..n] == alerts[..n] {
      }
      if Reviewed(rules, init).met {
        var m: nat :| m <= |init| && Quiet(rules, init[..m]) && Complete(rules, init[..m]);
        MetExcludesRaising(rules, alerts, m);
      } else if Reviewed(rules, init).raised {
        var m: nat :| m < |init| && Awaits(rules, init, m) && Matched(rules, init[m].evaluate).Raises?;
        RaisingExcludesMet(rules, alerts, m);
      } else {
        UndecidedIsQuiet(rules, init);
        DecidedLast(rules, alerts);
      }
    }
  }

  lemma NeverMet(definition: string, alerts: seq<Alert>, k: nat)
    requires ')' !in definition && Strings.At(definition, "null", k) && Quiet([definition], alerts)
    ensures SubRules.Extract(definition) == [definition]
    ensures !Reviewed([definition], alerts).met && !Reviewed([definition], alerts).raised
  {
    OnlyWithItsFirst(definition, SubRules.SEPARATOR);
    OccursAt(definition, "null", k);
    assert definition in [definition];
    ConditionsMetIff([definition], alerts);
    forall n: nat | n < |alerts| ensures Matched([definition], alerts[n].evaluate).Matches? {
      assert alerts[n] in alerts;
    }
  }

  // A rule that asks for null is never met by the history, even by an alert that satisfies it.
  lemma NullIsNeverMet(definition: string, alerts: seq<Alert>)
    requires definition == "x == null" && alerts == [Alert(_ => Value(true), None)]
    ensures var rules := SubRules.Extract(definition);
            && (forall rule :: rule in rules ==> SeenBy(alerts, rule))
            && !Reviewed(rules, alerts).met && !Reviewed(rules, alerts).raised
  {
    assert definition[5..9] == "null";
    NeverMet(definition, alerts, 5);
    assert alerts[0] in alerts && Holds(alerts[0].evaluate, definition);
  }

  lemma QuietAt(rules: seq<string>, alerts: seq<Alert>, n: nat, i: nat)
    requires i < n <= |alerts| && Quiet(rules, alerts[..n])
    ensures Matched(rules, alerts[i].evaluate).Matches?
  {
    assert alerts[..n][i] in alerts[..n];
  }

  lemma MetExcludesRaising(rules: seq<string>, alerts: seq<Alert>, m: nat)
    requires m <= |alerts| && Quiet(rules, alerts[..m]) && Complete(rules, alerts[..m])
    ensures forall n: nat :: n < |alerts| && Awaits(rules, alerts, n) ==> Matched(rules, alerts[n].evaluate).Matches?
  {
    forall n: nat | n < |alerts| && Awaits(rules, alerts, n) ensures Matched(rules, alerts[n].evaluate).Matches? {
      if m <= n {
        CompleteGrows(rules, alerts, m, n);
        assert false;
      } else {
        QuietAt(rules, alerts, m, n);
      }
    }
  }

  lemma RaisingExcludesMet(rules: seq<string>, alerts: seq<Alert>, m: nat)
    requires m < |alerts| && Awaits(rules, alerts, m) && Matched(rules, alerts[m].evaluate).Raises?
    ensures forall n: nat :: n <= |alerts| && Quiet(rules, alerts[..n]) ==> !Complete(rules, alerts[..n])
  {
    forall n: nat | n <= |alerts| && Quiet(rules, alerts[..n]) ensures !Complete(rules, alerts[..n]) {
      if n <= m {
        if Complete(rules, alerts[..n]) {
          CompleteGrows(rules, alerts, n, m);
        }
      } else {
        QuietAt(rules, alerts, n, m);
      }
    }
  }

  lemma DecidedLast(rules: seq<string>, alerts: seq<Alert>)
    requires rules != [] && alerts != []
    requires var init := alerts[..|alerts| - 1];
             Quiet(rules, init) && !Reviewed(rules, init).met && !Reviewed(rules, init).raised
    requires forall n: nat :: n < |alerts| && Quiet(rules, alerts[..n]) ==> !Complete(rules, alerts[..n])
    ensures Reviewed(rules, alerts).met <==>
            exists n: nat :: n <= |alerts| && Quiet(rules, alerts[..n]) && Complete(rules, alerts[..n])
    ensures Reviewed(rules, alerts).raised <==>
            exists n: nat :: n < |alerts| && Awaits(rules, alerts, n) && Matched(rules, alerts[n].evaluate).Raises?
  {
    var k := |alerts| - 1;
    assert alerts[..|alerts|] == alerts == alerts[..k] + [alerts[k]];
    forall n: nat | n < k ensures Matched(rules, alerts[n].evaluate).Matches? {
      assert alerts[n] == alerts[..k][n];
    }
    if Matched(rules, alerts[k].evaluate).Matches? {
      assert Quiet(rules, alerts);
      QuietHistoryIff(rules, alerts);
    } else {
      assert Awaits(rules, alerts, k);
    }
  }

  lemma MetAtLastIff(rules: seq<string>, alerts: seq<Alert>)
    requires alerts != [] && !Reviewed(rules, alerts[..|alerts| - 1]).met && !Reviewed(rules, alerts).raised
    requires Covers(rules, alerts, Reviewed(rules, alerts).matched)
    ensures Reviewed(rules, alerts).met <==> Complete(rules, alerts)
  {
    var history := Reviewed(rules, alerts);
    forall rule ensures !Occurs(Rewritten(rule), "null") && (Rewritten(rule) == rule <==> !Occurs(rule, "null")) {
      RewrittenHasNoNull(rule);
    }
    assert history.met <==> Items(rules) == history.matched;
    if history.met {
      forall rule | rule in rules ensures !Occurs(rule, "null") {
        assert rule in history.matched;
      }
      forall rule | rule in rules ensures SeenBy(alerts, rule) {
        assert rule in history.matched;
      }
    }
    if forall rule :: rule in rules ==> !Occurs(rule, "null") && SeenBy(alerts, rule) {
      assert forall rule :: rule in rules ==> Rewritten(rule) == rule && rule in history.matched;
      assert Items(rules) == history.matched;
    }
  }

  // -- one incident, one alert --

  datatype CreateOn = Any | All | OtherCondition

  datatype Rule = Rule(definition: string, threshold: int, requireApprove: bool, createOn: CreateOn)

  datatype Event = Event(evaluate: Cel, firing: bool, afterMaintenance: bool, received: Option<int>, solved: seq<int>)

  // What the database answers: the incident of the rule and the fingerprint, whether a new one would be visible at
  // once, and the alerts of the incident after this one was assigned to it.
  datatype Answers = Answers(
    found: Option<nat>, expired: bool, bornVisible: bool, alertsCount: int, alerts: seq<Alert>, allFiring: bool)

  datatype Visit = Visit(rule: Rule, event: Event, matched: seq<string>, answers: Answers)

  datatype Kind = Created | Updated

  datatype Sent = Sent(incident: nat, kind: Kind)

  // Whether each incident is visible, the workflow events sent, the counter of opened incidents, and the visits made.
  datatype State = State(visible: map<nat, bool>, next: nat, sent: seq<Sent>, openings: nat, visits: seq<Visit>)

  const START := State(map[], 0, [], 0, [])

  datatype Outcome = Outcome(state: State, raised: bool)

  // An alert that comes back from maintenance opens nothing when a later alert already resolved it.
  predicate CreationAllowed(event: Event) {
    !(event.afterMaintenance && event.received.Some? && exists t :: t in event.solved && event.received.value < t)
  }

  function FiringCount(alerts: seq<Alert>): nat {
    if alerts == [] then 0
    else
      var last := alerts[|alerts| - 1].unresolved;
      FiringCount(alerts[..|alerts| - 1]) + if last.Some? then last.value else 1
  }

  function Max(a: int, b: int): int {
    if a >= b then a else b
  }

  // Reaching the threshold and needing no approval.
  predicate Due(v: Visit) {
    Max(v.answers.alertsCount, FiringCount(v.answers.alerts)) >= v.rule.threshold && !v.rule.requireApprove
  }

  predicate Immediate(v: Visit) {
    v.rule.createOn.Any? || (v.rule.createOn.All? && |SubRules.Extract(v.rule.definition)| == |v.matched|)
  }

  predicate ByHistory(v: Visit) {
    Due(v) && !Immediate(v) && v.rule.createOn.All?
  }

  function HistoryOf(v: Visit): History {
    Reviewed(SubRules.Extract(v.rule.definition), v.answers.alerts)
  }

  // An invisible incident becomes visible.
  predicate Opens(v: Visit) {
    (Due(v) && Immediate(v)) || (ByHistory(v) && HistoryOf(v).met && v.answers.allFiring)
  }

  predicate Existing(s: State, v: Visit) {
    v.answers.found.Some? && v.answers.found.value in s.visible && !v.answers.expired
  }

  predicate Creates(s: State, v: Visit) {
    !Existing(s, v) && CreationAllowed(v.event) && v.event.firing
  }

  function Send(s: State, incident: nat, created: bool, visible: bool): State {
    if created then s.(sent := s.sent + [Sent(incident, Created)], openings := s.openings + 1)
    else if visible then s.(sent := s.sent + [Sent(incident, Updated)])
    else s
  }

  // The incident a visit is about, and the table it is then in.
  function Subject(s: State, v: Visit): nat {
    if Existing(s, v) then v.answers.found.value else s.next
  }

  function Stored(s: State, v: Visit): State {
    if Existing(s, v) then s
    else s.(visible := s.visible[s.next := v.answers.bornVisible], next := s.next + 1)
  }

  // What the conditions of an invisible incident's opening give: yes, no or an exception.
  datatype Verdict = Yes | No | Exception

  function VerdictOf(v: Visit): Verdict {
    if ByHistory(v) && HistoryOf(v).raised then Exception else if Opens(v) then Yes else No
  }

  function Noted(s: State, v: Visit): State {
    s.(visits := s.visits + [v])
  }

  function Visited(s: State, v: Visit): Outcome {
    Settled(Noted(s, v), v, VerdictOf(v))
  }

  function Settled(s: State, v: Visit, verdict: Verdict): Outcome {
    if !Existing(s, v) && !Creates(s, v) then Outcome(s, false)
    else
      var incident, t := Subject(s, v), Stored(s, v);
      if t.visible[incident] then Outcome(Send(t, incident, Creates(s, v), true), false)
      else if verdict.Exception? then Outcome(t, true)
      else Outcome(Send(t.(visible := t.visible[incident := verdict.Yes?]), incident, verdict.Yes?, verdict.Yes?),
          false)
  }

  // -- runs --

  // Besides the passes of the rules, somebody may approve an incident.
  datatype Move = See(visit: Visit) | Approve(incident: nat)

  function Moved(s: State, m: Move): State {
    match m
    case See(v) => Visited(s, v).state
    case Approve(incident) => if incident in s.visible then s.(visible := s.visible[incident := true]) else s
  }

  function Play(s: State, run: seq<Move>): State {
    if run == [] then s else Moved(Play(s, run[..|run| - 1]), run[|run| - 1])
  }

  function After(run: seq<Move>): State {
    Play(START, run)
  }

  // The workflow events of one incident.
  function Story(sent: seq<Sent>, incident: nat): seq<Kind> {
    if sent == [] then []
    else Story(sent[..|sent| - 1], incident) + if sent[|sent| - 1].incident == incident then [sent[|sent| - 1].kind]
        else []
  }

  // It was made visible by somebody's approval.
  predicate Approved(run: seq<Move>, incident: nat) {
    run != [] &&
    var before := After(run[..|run| - 1]);
    || Approved(run[..|run| - 1], incident)
    || (run[|run| - 1] == Approve(incident) && incident in before.visible && !before.visible[incident])
  }

  // Nothing while invisible; then "created", unless somebody approved it; then only "updated".
  ghost predicate Told(story: seq<Kind>, visible: bool, approved: bool) {
    && (!visible ==> story == [] && !approved)
    && (visible && !approved ==> story != [] && story[0] == Created)
    && (forall i :: (if approved then 0 else 1) <= i < |story| ==> story[i] == Updated)
  }

  ghost predicate Proper(s: State, incident: nat, approved: bool) {
    && (incident in s.visible <==> incident < s.next)
    && Told(Story(s.sent, incident), Visible(s, incident), approved)
  }

  predicate Visible(s: State, incident: nat) {
    incident in s.visible && s.visible[incident]
  }

  lemma ToldOn(story: seq<Kind>, visible: bool, approved: bool)
    requires Told(story, visible, approved)
    ensures visible ==> Told(story + [Updated], true, approved)
    ensures !visible ==> Told(story + [Created], true, approved)
  {
  }

  lemma StoryMore(sent: seq<Sent>, last: Sent, incident: nat)
    ensures Story(sent + [last], incident) ==
            Story(sent, incident) + if last.incident == incident then [last.kind] else []
  {
    assert (sent + [last])[..|sent|] == sent;
  }

  lemma StoryAfterSend(s: State, to: nat, created: bool, visible: bool, incident: nat)
    ensures Story(Send(s, to, created, visible).sent, incident) ==
            Story(s.sent, incident) +
            if to != incident then [] else if created then [Created] else if visible then [Updated] else []
  {
    StoryMore(s.sent, Sent(to, if created then Created else Updated), incident);
  }

  lemma OthersInTable(s: State, v: Visit, verdict: Verdict, incident: nat)
    requires Existing(s, v) || Creates(s, v)
    requires incident != Subject(s, v)
    ensures var u := Settled(s, v, verdict).state;
            && Visible(u, incident) == Visible(s, incident)
            && (incident in u.visible <==> incident in s.visible)
            && u.next == Stored(s, v).next
  {
  }

  lemma OthersAfterVisit(s: State, v: Visit, verdict: Verdict, incident: nat)
    requires Existing(s, v) || Creates(s, v)
    requires incident != Subject(s, v)
    ensures Story(Settled(s, v, verdict).state.sent, incident) == Story(s.sent, incident)
  {
    var id, t := Subject(s, v), Stored(s, v);
    if t.visible[id] {
      StoryAfterSend(t, id, Creates(s, v), true, incident);
    } else if !verdict.Exception? {
      StoryAfterSend(t.(visible := t.visible[id := verdict.Yes?]), id, verdict.Yes?, verdict.Yes?, incident);
    }
  }

  lemma SubjectAfterVisit(s: State, v: Visit, verdict: Verdict, approved: bool)
    requires Existing(s, v) || Creates(s, v)
    requires Proper(s, Subject(s, v), approved)
    ensures Proper(Settled(s, v, verdict).state, Subject(s, v), approved)
  {
    var id, t := Subject(s, v), Stored(s, v);
    ToldOn(Story(s.sent, id), Visible(s, id), approved);
    if t.visible[id] {
      StoryAfterSend(t, id, Creates(s, v), true, id);
    } else if !verdict.Exception? {
      StoryAfterSend(t.(visible := t.visible[id := verdict.Yes?]), id, verdict.Yes?, verdict.Yes?, id);
    }
  }

  lemma ProperAfterVisit(s: State, v: Visit, verdict: Verdict, incident: nat, approved: bool)
    requires Proper(s, incident, approved)
    ensures Proper(Settled(s, v, verdict).state, incident, approved)
  {
    if Existing(s, v) || Creates(s, v) {
      if incident == Subject(s, v) {
        SubjectAfterVisit(s, v, verdict, approved);
      } else {
        OthersAfterVisit(s, v, verdict, incident);
        OthersInTable(s, v, verdict, incident);
      }
    }
  }

  // In every run every incident's events are in order.
  lemma {:induction false} EveryStoryIsProper(run: seq<Move>, incident: nat)
    ensures Proper(After(run), incident, Approved(run, incident))
  {
    if run != [] {
      var before, m := run[..|run| - 1], run[|run| - 1];
      EveryStoryIsProper(before, incident);
      if m.See? {
        ProperAfterVisit(Noted(After(before), m.visit), m.visit, VerdictOf(m.visit), incident,
            Approved(before, incident));
      }
    }
  }

  // -- what follows about visibility and the counter --

  function Count(sent: seq<Sent>, kind: Kind): nat {
    if sent == [] then 0 else Count(sent[..|sent| - 1], kind) + if sent[|sent| - 1].kind == kind then 1 else 0
  }

  lemma CountAfterSend(s: State, to: nat, created: bool, visible: bool)
    requires s.openings == Count(s.sent, Created)
    ensures var t := Send(s, to, created, visible); t.openings == Count(t.sent, Created)
  {
    var last := Sent(to, if created then Created else Updated);
    assert (s.sent + [last])[..|s.sent|] == s.sent;
  }

  lemma CountAfterVisit(s: State, v: Visit, verdict: Verdict)
    requires s.openings == Count(s.sent, Created)
    ensures var t := Settled(s, v, verdict).state; t.openings == Count(t.sent, Created)
  {
    if Existing(s, v) || Creates(s, v) {
      var id, t := Subject(s, v), Stored(s, v);
      if t.visible[id] {
        CountAfterSend(t, id, Creates(s, v), true);
      } else {
        CountAfterSend(t.(visible := t.visible[id := verdict.Yes?]), id, verdict.Yes?, verdict.Yes?);
      }
    }
  }

  // In every run the counter of opened incidents is the number of "created" events.
  lemma {:induction false} OpeningsAreCreated(run: seq<Move>)
    ensures After(run).openings == Count(After(run).sent, Created)
  {
    if run != [] {
      var s, m := After(run[..|run| - 1]), run[|run| - 1];
      OpeningsAreCreated(run[..|run| - 1]);
      if m.See? {
        CountAfterVisit(Noted(s, m.visit), m.visit, VerdictOf(m.visit));
      }
    }
  }

  lemma {:induction false} VisibilityNeverReverts(run: seq<Move>, more: seq<Move>, incident: nat)
    requires Visible(After(run), incident)
    ensures Visible(After(run + more), incident)
  {
    if more == [] {
      assert run + more == run;
    } else {
      var init := more[..|more| - 1];
      assert (run + more)[..|run + more| - 1] == run + init;
      VisibilityNeverReverts(run, init, incident);
      EveryStoryIsProper(run + init, incident);
    }
  }

  // The history conditions, as ConditionsMetIff has them.
  ghost predicate HistoryMet(v: Visit) {
    var rules, alerts := SubRules.Extract(v.rule.definition), v.answers.alerts;
    exists n: nat :: n <= |alerts| && Quiet(rules, alerts[..n]) && Complete(rules, alerts[..n])
  }

  ghost predicate HistoryRaises(v: Visit) {
    var rules, alerts := SubRules.Extract(v.rule.definition), v.answers.alerts;
    exists n: nat :: n < |alerts| && Awaits(rules, alerts, n) && Matched(rules, alerts[n].evaluate).Raises?
  }

  // What the conditions of an incident's opening come to.
  ghost predicate Deserves(v: Visit) {
    && Due(v)
    && (v.rule.createOn.Any? ||
        (v.rule.createOn.All? &&
         (|v.matched| == |SubRules.Extract(v.rule.definition)| || (HistoryMet(v) && v.answers.allFiring))))
  }

  ghost predicate Excepts(v: Visit) {
    && Due(v)
    && v.rule.createOn.All? && |v.matched| != |SubRules.Extract(v.rule.definition)| && HistoryRaises(v)
  }

  lemma VerdictIff(v: Visit)
    ensures VerdictOf(v) == if Excepts(v) then Exception else if Deserves(v) then Yes else No
  {
    ConditionsMetIff(SubRules.Extract(v.rule.definition), v.answers.alerts);
    NotBoth(SubRules.Extract(v.rule.definition), v.answers.alerts);
  }

  lemma {:induction false} NotBoth(rules: seq<string>, alerts: seq<Alert>)
    ensures !(Reviewed(rules, alerts).met && Reviewed(rules, alerts).raised)
  {
    if alerts != [] {
      NotBoth(rules, alerts[..|alerts| - 1]);
    }
  }

  // A visit, whatever matches it carries, makes an incident visible exactly when it found it, or made it, invisible
  // and the incident deserves it; the only other way is that a new incident is visible from the start.
  lemma OpensIff(s: State, v: Visit, incident: nat)
    requires forall i :: i in s.visible ==> i < s.next
    requires !Visible(s, incident)
    ensures Visible(Visited(s, v).state, incident) <==>
            || (Existing(s, v) && incident == v.answers.found.value && Deserves(v))
            || (Creates(s, v) && incident == s.next && (v.answers.bornVisible || Deserves(v)))
  {
    VerdictIff(v);
    NotBoth(SubRules.Extract(v.rule.definition), v.answers.alerts);
    VisibleAfterSettling(Noted(s, v), v, VerdictOf(v), incident);
  }

  // The matches are the event's own.
  ghost predicate Own(v: Visit) {
    Matched(SubRules.Extract(v.rule.definition), v.event.evaluate) == Matches(v.matched)
  }

  // For a visit with its event's own matches, as many of them as sub-rules means that the event satisfies all.
  lemma OwnMatchesAll(v: Visit)
    requires Own(v)
    ensures |v.matched| == |SubRules.Extract(v.rule.definition)| <==>
            forall rule :: rule in SubRules.Extract(v.rule.definition) ==> Holds(v.event.evaluate, rule)
  {
    MatchedMeans(SubRules.Extract(v.rule.definition), v.event.evaluate);
  }

  // -- what single visits do --

  ghost predicate StoredUnexpired(s: State, v: Visit) {
    v.answers.found.Some? && v.answers.found.value in s.visible && !v.answers.expired
  }

  // A visit that has no stored, unexpired incident makes a new one exactly when the alert fires, and is not back from
  // maintenance with a resolved alert later than it; otherwise it does nothing.
  lemma NewIncidentIff(s: State, v: Visit)
    requires !StoredUnexpired(s, v)
    ensures var t := Visited(s, v).state;
            && (t.next > s.next <==>
                  v.event.firing
                  && !(v.event.afterMaintenance && v.event.received.Some?
                       && exists t :: t in v.event.solved && v.event.received.value < t))
            && (t.next > s.next ==> t.next == s.next + 1 && t.visible.Keys == s.visible.Keys + {s.next})
            && (t.next <= s.next ==> t == s.(visits := s.visits + [v]))
  {
  }

  // A firing alert back from maintenance at 10 makes none when one was resolved at 20, and makes one when at 5.
  lemma AfterMaintenance(s: State, rule: Rule, evaluate: Cel, matched: seq<string>, answers: Answers)
    requires answers.found == None
    ensures var back := (solved: seq<int>) =>
              Visited(s, Visit(rule, Event(evaluate, true, true, Some(10), solved), matched, answers)).state;
            back([20]).next == s.next && back([5]).next == s.next + 1
  {
    assert 20 in [20];
    NewIncidentIff(s, Visit(rule, Event(evaluate, true, true, Some(10), [20]), matched, answers));
    NewIncidentIff(s, Visit(rule, Event(evaluate, true, true, Some(10), [5]), matched, answers));
  }

  function Unresolved(alerts: seq<Alert>): seq<nat> {
    seq(|alerts|, i requires 0 <= i < |alerts| => if alerts[i].unresolved.Some? then alerts[i].unresolved.value else 1)
  }

  function Sum(ns: seq<nat>): nat {
    if ns == [] then 0 else ns[0] + Sum(ns[1..])
  }

  lemma {:induction false} SumMore(ns: seq<nat>, n: nat)
    ensures Sum(ns + [n]) == Sum(ns) + n
  {
    if ns == [] {
      assert Sum([n]) == n + Sum([n][1..]);
    } else {
      assert (ns + [n])[1..] == ns[1..] + [n];
      SumMore(ns[1..], n);
    }
  }

  // The alerts of an incident count as often as each is unresolved, and once where that is not known.
  lemma {:induction false} FiringCountIsSum(alerts: seq<Alert>)
    ensures FiringCount(alerts) == Sum(Unresolved(alerts))
  {
    if alerts != [] {
      var init, last := alerts[..|alerts| - 1], alerts[|alerts| - 1];
      FiringCountIsSum(init);
      SumMore(Unresolved(init), if last.unresolved.Some? then last.unresolved.value else 1);
      assert Unresolved(alerts) == Unresolved(init) + [if last.unresolved.Some? then last.unresolved.value else 1];
    }
  }

  // Where any match is enough, a visit to a stored invisible incident makes it visible exactly when no approval is
  // needed and the number of its alerts, or how often they are unresolved, reaches the threshold.
  lemma AnyOpensIff(s: State, v: Visit)
    requires StoredUnexpired(s, v) && !s.visible[v.answers.found.value] && v.rule.createOn.Any?
    ensures Visible(Visited(s, v).state, v.answers.found.value) <==>
            && !v.rule.requireApprove
            && (v.answers.alertsCount >= v.rule.threshold || Sum(Unresolved(v.answers.alerts)) >= v.rule.threshold)
  {
    FiringCountIsSum(v.answers.alerts);
  }

  // The workflow events a visit sends: "created" about the incident it makes visible or makes as visible, "updated"
  // about a stored one that was visible before, and nothing else; the counter grows with each "created".
  lemma VisitSends(s: State, v: Visit)
    requires s.next !in s.visible
    ensures var o := Visited(s, v);
            var t, id := o.state, if StoredUnexpired(s, v) then v.answers.found.value else s.next;
            var now := id in t.visible && t.visible[id];
            var before := id in s.visible && s.visible[id];
            && t.sent == s.sent + (if now && !before then [Sent(id, Created)]
                                   else if now then [Sent(id, Updated)] else [])
            && t.openings == s.openings + (if now && !before then 1 else 0)
            && t.visits == s.visits + [v]
  {
  }

  // The incident of the visit, stored or made by it, is invisible when its conditions come up.
  ghost predicate IsHidden(s: State, v: Visit) {
    if StoredUnexpired(s, v) then !s.visible[v.answers.found.value]
    else Visited(s, v).state.next > s.next && !v.answers.bornVisible
  }

  // A visit raises exactly when they come up and the review of the history raises.
  lemma VisitRaisesIff(s: State, v: Visit)
    ensures Visited(s, v).raised <==> IsHidden(s, v) && Excepts(v)
  {
    VerdictIff(v);
  }

  // In every run a visit that makes an incident visible has reached the threshold and needs no approval, unless
  // the incident is new and visible from the start.
  lemma NeverOpenedEarly(run: seq<Move>, v: Visit, incident: nat)
    requires !Visible(After(run), incident) && Visible(After(run + [See(v)]), incident)
    ensures Due(v) || (incident !in After(run).visible && v.answers.bornVisible)
  {
    assert (run + [See(v)])[..|run|] == run;
    forall i | i in After(run).visible ensures i < After(run).next {
      EveryStoryIsProper(run, i);
    }
    OpensIff(After(run), v, incident);
    EveryStoryIsProper(run, incident);
  }

  lemma VisibleAfterSettling(s: State, v: Visit, verdict: Verdict, incident: nat)
    requires (forall i :: i in s.visible ==> i < s.next) && !Visible(s, incident)
    ensures Visible(Settled(s, v, verdict).state, incident) <==>
            || (Existing(s, v) && incident == v.answers.found.value && verdict.Yes?)
            || (Creates(s, v) && incident == s.next && (v.answers.bornVisible || verdict.Yes?))
  {
  }

  // -- a pass --

  // The variable that holds the last matches lives on from one event to the next: an unexpected ValueError leaves
  // it as it was, and the very first such error raises.
  datatype Progress = Progress(last: Option<seq<string>>, state: State, raised: bool)

  // The fingerprints of an event from the k-th on.
  function VisitAll(o: Outcome, rule: Rule, event: Event, matched: seq<string>,
    answers: nat -> Answers, k: nat, n: nat): Outcome
    decreases n - k
  {
    if o.raised || k >= n then o
    else VisitAll(Visited(o.state, Visit(rule, event, matched, answers(k))), rule, event, matched, answers, k + 1, n)
  }

  function Evaluated(p: Progress, rule: Rule, event: Event, answers: nat -> Answers, fingerprints: nat): Progress {
    var check := Matched(SubRules.Extract(rule.definition), event.evaluate);
    if check.Raises? && !check.failure.OtherValueError? then p
    else if check.Raises? && p.last.None? then p.(raised := true)
    else
      var matched := if check.Matches? then check.rules else p.last.value;
      var outcome := if matched == [] then Outcome(p.state, false)
                     else VisitAll(Outcome(p.state, false), rule, event, matched, answers, 0, fingerprints);
      Progress(Some(matched), outcome.state, outcome.raised)
  }

  // What a pass asks: its rules, its events, how many fingerprints a rule gives an event, and the answers.
  datatype Input = Input(
    rules: seq<Rule>, events: seq<Event>, fingerprints: (nat, nat) -> nat, answers: (nat, nat) -> nat -> Answers)

  // The j-th event under rule i.
  function Judged(p: Progress, input: Input, i: nat, j: nat): Progress
    requires i < |input.rules| && j < |input.events|
  {
    Evaluated(p, input.rules[i], input.events[j], input.answers(i, j), input.fingerprints(i, j))
  }

  // The events from the j-th on under rule i.
  function Round(p: Progress, input: Input, i: nat, j: nat): Progress
    requires i < |input.rules|
    decreases |input.events| - j
  {
    if p.raised || j >= |input.events| then p
    else Round(Judged(p, input, i, j), input, i, j + 1)
  }

  // The rules from the i-th on.
  function Pass(p: Progress, input: Input, i: nat): Progress
    decreases |input.rules| - i
  {
    if p.raised || i >= |input.rules| then p
    else Pass(Round(p, input, i, 0), input, i + 1)
  }

  // One state leads to another through visits alone.
  ghost predicate Leads(s: State, t: State) {
    exists run: seq<Move> :: (forall m :: m in run ==> m.See?) && Play(s, run) == t
  }

  lemma {:induction false} PlayOn(s: State, run: seq<Move>, more: seq<Move>)
    ensures Play(s, run + more) == Play(Play(s, run), more)
  {
    if more == [] {
      assert run + more == run;
    } else {
      assert (run + more)[..|run + more| - 1] == run + more[..|more| - 1];
      PlayOn(s, run, more[..|more| - 1]);
    }
  }

  lemma LeadsOn(s: State, t: State, u: State)
    requires Leads(s, t) && Leads(t, u)
    ensures Leads(s, u)
  {
    var run: seq<Move> :| (forall m :: m in run ==> m.See?) && Play(s, run) == t;
    var more: seq<Move> :| (forall m :: m in more ==> m.See?) && Play(t, more) == u;
    PlayOn(s, run, more);
    assert forall m :: m in run + more ==> m.See?;
  }

  lemma LeadsNowhere(s: State)
    ensures Leads(s, s)
  {
    var run: seq<Move> := [];
    assert (forall m :: m in run ==> m.See?) && Play(s, run) == s;
  }

  lemma VisitLeads(s: State, v: Visit)
    ensures Leads(s, Visited(s, v).state)
  {
    var run := [See(v)];
    assert run[..0] == [];
    assert (forall m :: m in run ==> m.See?) && Play(s, run) == Visited(s, v).state;
  }

  lemma {:induction false} VisitsLead(o: Outcome, rule: Rule, event: Event, matched: seq<string>,
    answers: nat -> Answers, k: nat, n: nat)
    ensures Leads(o.state, VisitAll(o, rule, event, matched, answers, k, n).state)
    decreases n - k
  {
    LeadsNowhere(o.state);
    if !o.raised && k < n {
      var v := Visit(rule, event, matched, answers(k));
      VisitLeads(o.state, v);
      VisitsLead(Visited(o.state, v), rule, event, matched, answers, k + 1, n);
      LeadsOn(o.state, Visited(o.state, v).state, VisitAll(o, rule, event, matched, answers, k, n).state);
    }
  }

  lemma EventLeads(p: Progress, rule: Rule, event: Event, answers: nat -> Answers, n: nat)
    ensures Leads(p.state, Evaluated(p, rule, event, answers, n).state)
  {
    LeadsNowhere(p.state);
    var check := Matched(SubRules.Extract(rule.definition), event.evaluate);
    if check.Matches? {
      VisitsLead(Outcome(p.state, false), rule, event, check.rules, answers, 0, n);
    } else if p.last.Some? {
      VisitsLead(Outcome(p.state, false), rule, event, p.last.value, answers, 0, n);
    }
  }

  lemma {:induction false} RoundLeads(p: Progress, input: Input, i: nat, j: nat)
    requires i < |input.rules|
    ensures Leads(p.state, Round(p, input, i, j).state)
    decreases |input.events| - j
  {
    LeadsNowhere(p.state);
    if !p.raised && j < |input.events| {
      EventLeads(p, input.rules[i], input.events[j], input.answers(i, j), input.fingerprints(i, j));
      var q := Judged(p, input, i, j);
      RoundLeads(q, input, i, j + 1);
      LeadsOn(p.state, q.state, Round(q, input, i, j + 1).state);
    }
  }

  // A pass is a run of visits, so what holds of every run holds through every sequence of passes.
  lemma {:induction false} PassLeads(p: Progress, input: Input, i: nat)
    ensures Leads(p.state, Pass(p, input, i).state)
    decreases |input.rules| - i
  {
    LeadsNowhere(p.state);
    if !p.raised && i < |input.rules| {
      RoundLeads(p, input, i, 0);
      PassLeads(Round(p, input, i, 0), input, i + 1);
      LeadsOn(p.state, Round(p, input, i, 0).state, Pass(p, input, i).state);
    }
  }

  // -- whose matches a visit carries --

  // From the n-th on, every visit carries its own event's matches.
  ghost predicate OwnFrom(s: State, n: nat) {
    forall k :: n <= k < |s.visits| ==> Own(s.visits[k])
  }

  // The check of the event ends in an unexpected ValueError, and what is left over from the one before is taken for
  // its matches.
  predicate Stale(p: Progress, input: Input, i: nat, j: nat)
    requires i < |input.rules| && j < |input.events|
  {
    && !p.raised
    && Matched(SubRules.Extract(input.rules[i].definition), input.events[j].evaluate) == Raises(OtherValueError)
    && p.last.Some? && p.last.value != []
    && input.fingerprints(i, j) > 0
  }

  // How far a pass that starts at p has come when it reaches the j-th event under rule i.
  function At(p: Progress, input: Input, i: nat, j: nat): Progress
    requires i < |input.rules| && j <= |input.events|
    decreases i, j
  {
    if j > 0 then
      var q := At(p, input, i, j - 1);
      if q.raised then q else Judged(q, input, i, j - 1)
    else if i > 0 then At(p, input, i - 1, |input.events|)
    else p
  }

  lemma VisitNotes(s: State, v: Visit)
    ensures Visited(s, v).state.visits == s.visits + [v]
  {
  }

  lemma {:induction false} VisitAllNotes(o: Outcome, rule: Rule, event: Event, matched: seq<string>,
    answers: nat -> Answers, k: nat, n: nat)
    ensures var visits := VisitAll(o, rule, event, matched, answers, k, n).state.visits;
            && o.state.visits <= visits
            && (visits == o.state.visits <==> o.raised || k >= n)
            && forall m :: |o.state.visits| <= m < |visits| ==>
                 visits[m].rule == rule && visits[m].event == event && visits[m].matched == matched
    decreases n - k
  {
    if !o.raised && k < n {
      var v := Visit(rule, event, matched, answers(k));
      VisitNotes(o.state, v);
      VisitAllNotes(Visited(o.state, v), rule, event, matched, answers, k + 1, n);
    }
  }

  lemma JudgedOwnIff(p: Progress, input: Input, i: nat, j: nat)
    requires i < |input.rules| && j < |input.events| && !p.raised
    ensures p.state.visits <= Judged(p, input, i, j).state.visits
    ensures OwnFrom(Judged(p, input, i, j).state, |p.state.visits|) <==> !Stale(p, input, i, j)
  {
    var rule, event := input.rules[i], input.events[j];
    var check := Matched(SubRules.Extract(rule.definition), event.evaluate);
    var o, n := Outcome(p.state, false), input.fingerprints(i, j);
    if check.Matches? {
      VisitAllNotes(o, rule, event, check.rules, input.answers(i, j), 0, n);
    } else if p.last.Some? {
      VisitAllNotes(o, rule, event, p.last.value, input.answers(i, j), 0, n);
      if Stale(p, input, i, j) {
        assert !Own(Judged(p, input, i, j).state.visits[|p.state.visits|]);
      }
    }
  }

  lemma OwnOn(s: State, t: State, u: State)
    requires s.visits <= t.visits <= u.visits
    ensures OwnFrom(u, |s.visits|) <==> OwnFrom(t, |s.visits|) && OwnFrom(u, |t.visits|)
  {
    forall k | 0 <= k < |t.visits| ensures t.visits[k] == u.visits[k] {
    }
  }

  lemma {:induction false} RoundIsAt(p: Progress, input: Input, i: nat, j: nat)
    requires i < |input.rules| && j <= |input.events|
    ensures Round(At(p, input, i, j), input, i, j) == At(p, input, i, |input.events|)
    decreases |input.events| - j
  {
    if j < |input.events| {
      RoundIsAt(p, input, i, j + 1);
    }
  }

  // None of the events from the j-th on, as the pass comes to them under rule i.
  ghost predicate NoneStale(p: Progress, input: Input, i: nat, j: nat)
    requires i < |input.rules|
  {
    forall l: nat :: j <= l < |input.events| ==> !Stale(At(p, input, i, l), input, i, l)
  }

  lemma NoneStaleOn(p: Progress, input: Input, i: nat, j: nat)
    requires i < |input.rules| && j < |input.events|
    ensures NoneStale(p, input, i, j) <==> !Stale(At(p, input, i, j), input, i, j) && NoneStale(p, input, i, j + 1)
  {
  }

  lemma AtOwnIff(p: Progress, input: Input, i: nat, j: nat)
    requires i < |input.rules| && j < |input.events|
    ensures var q, r := At(p, input, i, j), At(p, input, i, j + 1);
            && q.state.visits <= r.state.visits
            && (OwnFrom(r.state, |q.state.visits|) <==> !Stale(q, input, i, j))
  {
    var q := At(p, input, i, j);
    if !q.raised {
      JudgedOwnIff(q, input, i, j);
    }
  }

  lemma {:induction false} RoundOwnIff(p: Progress, input: Input, i: nat, j: nat)
    requires i < |input.rules| && j <= |input.events|
    ensures var q, r := At(p, input, i, j), At(p, input, i, |input.events|);
            && q.state.visits <= r.state.visits
            && (OwnFrom(r.state, |q.state.visits|) <==> NoneStale(p, input, i, j))
    decreases |input.events| - j
  {
    if j < |input.events| {
      RoundOwnIff(p, input, i, j + 1);
      AtOwnIff(p, input, i, j);
      NoneStaleOn(p, input, i, j);
      OwnOn(At(p, input, i, j).state, At(p, input, i, j + 1).state, At(p, input, i, |input.events|).state);
    }
  }

  // Where a pass that starts at p ends.
  function End(p: Progress, input: Input): Progress {
    if input.rules == [] then p else At(p, input, |input.rules| - 1, |input.events|)
  }

  lemma {:induction false} PassIsAt(p: Progress, input: Input, i: nat)
    requires i < |input.rules|
    ensures Pass(At(p, input, i, 0), input, i) == End(p, input)
    decreases |input.rules| - i
  {
    RoundIsAt(p, input, i, 0);
    var q := At(p, input, i, |input.events|);
    assert Pass(At(p, input, i, 0), input, i) == Pass(q, input, i + 1);
    if i + 1 < |input.rules| {
      assert At(p, input, i + 1, 0) == q;
      PassIsAt(p, input, i + 1);
    }
  }

  // None of the events under the rules from the i-th on.
  ghost predicate NeverStale(p: Progress, input: Input, i: nat) {
    forall k: nat :: i <= k < |input.rules| ==> NoneStale(p, input, k, 0)
  }

  lemma NeverStaleOn(p: Progress, input: Input, i: nat)
    requires i < |input.rules|
    ensures NeverStale(p, input, i) <==> NoneStale(p, input, i, 0) && NeverStale(p, input, i + 1)
  {
  }

  lemma {:induction false} RulesOwnIff(p: Progress, input: Input, i: nat)
    requires i < |input.rules|
    ensures var q, r := At(p, input, i, 0), End(p, input);
            && q.state.visits <= r.state.visits
            && (OwnFrom(r.state, |q.state.visits|) <==> NeverStale(p, input, i))
    decreases |input.rules| - i
  {
    RoundOwnIff(p, input, i, 0);
    NeverStaleOn(p, input, i);
    if i + 1 < |input.rules| {
      RulesOwnIff(p, input, i + 1);
      var q := At(p, input, i + 1, 0);
      assert q == At(p, input, i, |input.events|);
      OwnOn(At(p, input, i, 0).state, q.state, End(p, input).state);
    }
  }

  // In a pass every visit carries its own event's matches exactly when no check that the pass comes to ends in an
  // unexpected ValueError while the matches left over from before are not empty.
  lemma OwnMatchesIff(s: State, input: Input)
    ensures var p := Progress(None, s, false);
            OwnFrom(Pass(p, input, 0).state, |s.visits|) <==> NeverStale(p, input, 0)
  {
    var p := Progress(None, s, false);
    if input.rules != [] {
      PassIsAt(p, input, 0);
      RulesOwnIff(p, input, 0);
    }
  }

  // The visits that are due for one event under one rule: one for each fingerprint, if it matches.
  function Owed(input: Input, i: nat, j: nat): seq<Visit>
    requires i < |input.rules| && j < |input.events|
  {
    match Matched(SubRules.Extract(input.rules[i].definition), input.events[j].evaluate)
    case Raises(_) => []
    case Matches(matched) =>
      if matched == [] then []
      else
        seq(input.fingerprints(i, j), k requires 0 <= k < input.fingerprints(i, j) =>
          Visit(input.rules[i], input.events[j], matched, input.answers(i, j)(k)))
  }

  function OwedEvents(input: Input, i: nat, j: nat): seq<Visit>
    requires i < |input.rules|
    decreases |input.events| - j
  {
    if j >= |input.events| then [] else Owed(input, i, j) + OwedEvents(input, i, j + 1)
  }

  function OwedRules(input: Input, i: nat): seq<Visit>
    decreases |input.rules| - i
  {
    if i >= |input.rules| then [] else OwedEvents(input, i, 0) + OwedRules(input, i + 1)
  }

  lemma {:induction false} VisitsAre(o: Outcome, rule: Rule, event: Event, matched: seq<string>,
    answers: nat -> Answers, k: nat, n: nat)
    requires !o.raised && k <= n
    ensures var r := VisitAll(o, rule, event, matched, answers, k, n);
            !r.raised ==>
              r.state.visits == o.state.visits +
                seq(n - k, l requires 0 <= l < n - k => Visit(rule, event, matched, answers(k + l)))
    decreases n - k
  {
    if k < n {
      var v := Visit(rule, event, matched, answers(k));
      VisitNotes(o.state, v);
      var next := Visited(o.state, v);
      if !next.raised {
        VisitsAre(next, rule, event, matched, answers, k + 1, n);
        assert seq(n - k, l requires 0 <= l < n - k => Visit(rule, event, matched, answers(k + l))) ==
          [v] + seq(n - (k + 1), l requires 0 <= l < n - (k + 1) => Visit(rule, event, matched, answers(k + 1 + l)));
      } else {
        assert VisitAll(next, rule, event, matched, answers, k + 1, n) == next;
      }
    }
  }

  lemma JudgedOwed(p: Progress, input: Input, i: nat, j: nat)
    requires i < |input.rules| && j < |input.events| && !p.raised && !Stale(p, input, i, j)
    ensures var r := Judged(p, input, i, j);
            !r.raised ==> r.state.visits == p.state.visits + Owed(input, i, j)
  {
    var rule, event := input.rules[i], input.events[j];
    var check, n := Matched(SubRules.Extract(rule.definition), event.evaluate), input.fingerprints(i, j);
    if check.Matches? {
      VisitsAre(Outcome(p.state, false), rule, event, check.rules, input.answers(i, j), 0, n);
      var o := VisitAll(Outcome(p.state, false), rule, event, check.rules, input.answers(i, j), 0, n);
      if check.rules != [] && !o.raised {
        assert o.state.visits == p.state.visits + Owed(input, i, j);
      }
    }
  }

  lemma {:induction false} EventsOwed(p: Progress, input: Input, i: nat, j: nat)
    requires i < |input.rules| && j <= |input.events| && NoneStale(p, input, i, j)
    ensures var q, r := At(p, input, i, j), At(p, input, i, |input.events|);
            && (q.raised ==> r.raised)
            && (!r.raised ==> r.state.visits == q.state.visits + OwedEvents(input, i, j))
    decreases |input.events| - j
  {
    if j < |input.events| {
      NoneStaleOn(p, input, i, j);
      EventsOwed(p, input, i, j + 1);
      var q := At(p, input, i, j);
      if !q.raised {
        JudgedOwed(q, input, i, j);
        Regrouped(q.state.visits, Owed(input, i, j), OwedEvents(input, i, j + 1));
      }
    }
  }

  lemma {:induction false} RulesOwed(p: Progress, input: Input, i: nat)
    requires i < |input.rules| && NeverStale(p, input, i)
    ensures var q, r := At(p, input, i, 0), End(p, input);
            && (q.raised ==> r.raised)
            && (!r.raised ==> r.state.visits == q.state.visits + OwedRules(input, i))
    decreases |input.rules| - i
  {
    NeverStaleOn(p, input, i);
    EventsOwed(p, input, i, 0);
    if i + 1 < |input.rules| {
      RulesOwed(p, input, i + 1);
      assert At(p, input, i + 1, 0) == At(p, input, i, |input.events|);
      Regrouped(At(p, input, i, 0).state.visits, OwedEvents(input, i, 0), OwedRules(input, i + 1));
    }
  }

  lemma Regrouped(a: seq<Visit>, b: seq<Visit>, c: seq<Visit>)
    ensures a + b + c == a + (b + c)
  {
  }

  // A pass that is not cut short, and in which no left-over matches are used, makes exactly the visits that are due:
  // rule by rule, event by event and fingerprint by fingerprint.
  lemma PassVisits(s: State, input: Input)
    ensures var p := Progress(None, s, false);
            var end := Pass(p, input, 0);
            !end.raised && NeverStale(p, input, 0) ==> end.state.visits == s.visits + OwedRules(input, 0)
  {
    var p := Progress(None, s, false);
    if input.rules != [] {
      PassIsAt(p, input, 0);
      if NeverStale(p, input, 0) {
        RulesOwed(p, input, 0);
      }
    }
  }

  // -- what cuts a pass short --

  // The m-th fingerprint of the event is come to, and its visit raises.
  ghost predicate RaisesAt(p: Progress, input: Input, i: nat, j: nat, matched: seq<string>, m: nat)
    requires i < |input.rules| && j < |input.events|
  {
    var rule, event, answers := input.rules[i], input.events[j], input.answers(i, j);
    var o, v := VisitAll(Outcome(p.state, false), rule, event, matched, answers, 0, m),
                Visit(rule, event, matched, answers(m));
    !o.raised && IsHidden(o.state, v) && Excepts(v)
  }

  // That of one of the first n does.
  ghost predicate RaisesBefore(p: Progress, input: Input, i: nat, j: nat, matched: seq<string>, n: nat)
    requires i < |input.rules| && j < |input.events|
  {
    n > 0 && (RaisesBefore(p, input, i, j, matched, n - 1) || RaisesAt(p, input, i, j, matched, n - 1))
  }

  ghost predicate SomeVisitRaises(p: Progress, input: Input, i: nat, j: nat, matched: seq<string>)
    requires i < |input.rules| && j < |input.events|
  {
    matched != [] && RaisesBefore(p, input, i, j, matched, input.fingerprints(i, j))
  }

  // An unexpected ValueError comes before any matches; or a visit raises, with the event's own matches or the left-over
  // ones.
  ghost predicate Breaks(p: Progress, input: Input, i: nat, j: nat)
    requires i < |input.rules| && j < |input.events|
  {
    var check := Matched(SubRules.Extract(input.rules[i].definition), input.events[j].evaluate);
    if check.Matches? then SomeVisitRaises(p, input, i, j, check.rules)
    else check.failure.OtherValueError? && (p.last.None? || SomeVisitRaises(p, input, i, j, p.last.value))
  }

  lemma {:induction false} VisitAllStep(o: Outcome, rule: Rule, event: Event, matched: seq<string>,
    answers: nat -> Answers, k: nat, n: nat)
    requires k <= n
    ensures var q := VisitAll(o, rule, event, matched, answers, k, n);
            VisitAll(o, rule, event, matched, answers, k, n + 1) ==
            if q.raised then q else Visited(q.state, Visit(rule, event, matched, answers(n)))
    decreases n - k
  {
    if !o.raised && k < n {
      VisitAllStep(Visited(o.state, Visit(rule, event, matched, answers(k))), rule, event, matched, answers, k + 1, n);
    }
  }

  lemma OneMoreRaises(p: Progress, input: Input, i: nat, j: nat, matched: seq<string>, n: nat)
    requires i < |input.rules| && j < |input.events|
    ensures var rule, event, answers := input.rules[i], input.events[j], input.answers(i, j);
            var o := Outcome(p.state, false);
            VisitAll(o, rule, event, matched, answers, 0, n + 1).raised <==>
            VisitAll(o, rule, event, matched, answers, 0, n).raised || RaisesAt(p, input, i, j, matched, n)
  {
    var rule, event, answers := input.rules[i], input.events[j], input.answers(i, j);
    var q := VisitAll(Outcome(p.state, false), rule, event, matched, answers, 0, n);
    VisitAllStep(Outcome(p.state, false), rule, event, matched, answers, 0, n);
    VisitRaisesIff(q.state, Visit(rule, event, matched, answers(n)));
  }

  lemma {:induction false} VisitAllRaisesIff(p: Progress, input: Input, i: nat, j: nat, matched: seq<string>, n: nat)
    requires i < |input.rules| && j < |input.events|
    ensures var rule, event, answers := input.rules[i], input.events[j], input.answers(i, j);
            VisitAll(Outcome(p.state, false), rule, event, matched, answers, 0, n).raised <==>
            RaisesBefore(p, input, i, j, matched, n)
  {
    if n > 0 {
      VisitAllRaisesIff(p, input, i, j, matched, n - 1);
      OneMoreRaises(p, input, i, j, matched, n - 1);
    }
  }

  lemma BreaksIff(p: Progress, input: Input, i: nat, j: nat)
    requires i < |input.rules| && j < |input.events| && !p.raised
    ensures Judged(p, input, i, j).raised <==> Breaks(p, input, i, j)
  {
    var check := Matched(SubRules.Extract(input.rules[i].definition), input.events[j].evaluate);
    if check.Matches? && check.rules != [] {
      VisitAllRaisesIff(p, input, i, j, check.rules, input.fingerprints(i, j));
    } else if p.last.Some? && p.last.value != [] {
      VisitAllRaisesIff(p, input, i, j, p.last.value, input.fingerprints(i, j));
    }
  }

  // Somewhere before the j-th of n events under rule i.
  predicate Before(holds: (nat, nat) -> bool, n: nat, i: nat, j: nat)
    requires j <= n
    decreases i, j
  {
    if j > 0 then holds(i, j - 1) || Before(holds, n, i, j - 1) else i > 0 && Before(holds, n, i - 1, n)
  }

  lemma {:induction false} BeforeIff(holds: (nat, nat) -> bool, n: nat, i: nat, j: nat)
    requires j <= n
    ensures Before(holds, n, i, j) <==> exists k: nat, l: nat :: l < n && (k < i || (k == i && l < j)) && holds(k, l)
    decreases i, j
  {
    if j > 0 {
      BeforeIff(holds, n, i, j - 1);
    } else if i > 0 {
      BeforeIff(holds, n, i - 1, n);
    }
  }

  ghost predicate CutAt(p: Progress, input: Input, k: nat, l: nat)
    requires k < |input.rules| && l < |input.events|
  {
    !At(p, input, k, l).raised && Breaks(At(p, input, k, l), input, k, l)
  }

  ghost function Cuts(p: Progress, input: Input): (nat, nat) -> bool {
    (k: nat, l: nat) => k < |input.rules| && l < |input.events| && CutAt(p, input, k, l)
  }

  ghost predicate CutBefore(p: Progress, input: Input, i: nat, j: nat)
    requires j <= |input.events|
  {
    Before(Cuts(p, input), |input.events|, i, j)
  }

  // What holds at the start of a pass, and is kept by each of n events and from rule to rule, holds all along.
  lemma {:induction false} AllAlong(holds: (nat, nat) -> bool, n: nat, i: nat, j: nat)
    requires holds(0, 0) && j <= n
    requires forall k: nat, l: nat :: l < n && holds(k, l) ==> holds(k, l + 1)
    requires forall k: nat :: holds(k, n) ==> holds(k + 1, 0)
    ensures holds(i, j)
    decreases i, j
  {
    if j > 0 {
      AllAlong(holds, n, i, j - 1);
    } else if i > 0 {
      AllAlong(holds, n, i - 1, n);
    }
  }

  ghost predicate CutSoFar(p: Progress, input: Input, i: nat, j: nat) {
    i < |input.rules| && j <= |input.events| ==> (At(p, input, i, j).raised <==> CutBefore(p, input, i, j))
  }

  lemma CutNext(p: Progress, input: Input, i: nat, j: nat)
    requires j < |input.events| && CutSoFar(p, input, i, j)
    ensures CutSoFar(p, input, i, j + 1)
  {
    if i < |input.rules| && !At(p, input, i, j).raised {
      BreaksIff(At(p, input, i, j), input, i, j);
    }
  }

  lemma CutBeforeIff(p: Progress, input: Input, i: nat, j: nat)
    requires i < |input.rules| && j <= |input.events| && !p.raised
    ensures At(p, input, i, j).raised <==> CutBefore(p, input, i, j)
  {
    var holds := (k: nat, l: nat) => CutSoFar(p, input, k, l);
    forall k: nat, l: nat | l < |input.events| && holds(k, l) ensures holds(k, l + 1) {
      CutNext(p, input, k, l);
    }
    AllAlong(holds, |input.events|, i, j);
    assert holds(i, j);
  }

  lemma BeforeEnd(holds: (nat, nat) -> bool, m: nat, n: nat)
    requires m > 0 && forall k: nat, l: nat :: holds(k, l) ==> k < m && l < n
    ensures Before(holds, n, m - 1, n) <==> exists k: nat, l: nat :: holds(k, l)
  {
    BeforeIff(holds, n, m - 1, n);
  }

  lemma CutsInside(p: Progress, input: Input)
    ensures forall k: nat, l: nat :: Cuts(p, input)(k, l) ==> k < |input.rules| && l < |input.events|
  {
  }

  // A pass is cut short exactly when it comes to an event that breaks it.
  lemma PassRaisesIff(s: State, input: Input)
    ensures var p := Progress(None, s, false);
            Pass(p, input, 0).raised <==> exists k: nat, l: nat :: Cuts(p, input)(k, l)
  {
    var p := Progress(None, s, false);
    CutsInside(p, input);
    if input.rules != [] {
      PassIsAt(p, input, 0);
      CutBeforeIff(p, input, |input.rules| - 1, |input.events|);
      BeforeEnd(Cuts(p, input), |input.rules|, |input.events|);
    }
  }

  // The matches of the latest check, before the j-th event under rule i, that returned any, if only an empty list.
  function Latest(input: Input, i: nat, j: nat): Option<seq<string>>
    requires i < |input.rules| && j <= |input.events|
    decreases i, j
  {
    if j > 0 then
      var check := Matched(SubRules.Extract(input.rules[i].definition), input.events[j - 1].evaluate);
      if check.Matches? then Some(check.rules) else Latest(input, i, j - 1)
    else if i > 0 then Latest(input, i - 1, |input.events|)
    else None
  }

  lemma JudgedLeaves(p: Progress, input: Input, i: nat, j: nat)
    requires i < |input.rules| && j < |input.events| && !Judged(p, input, i, j).raised
    ensures var check := Matched(SubRules.Extract(input.rules[i].definition), input.events[j].evaluate);
            Judged(p, input, i, j).last == if check.Matches? then Some(check.rules) else p.last
  {
  }

  // They are what is left over when the pass comes to that event, and nothing when there are none.
  predicate LeavesLatest(p: Progress, input: Input, i: nat, j: nat) {
    i < |input.rules| && j <= |input.events| && !At(p, input, i, j).raised ==>
      At(p, input, i, j).last == Latest(input, i, j)
  }

  lemma LatestNext(p: Progress, input: Input, i: nat, j: nat)
    requires j < |input.events| && LeavesLatest(p, input, i, j)
    ensures LeavesLatest(p, input, i, j + 1)
  {
    if i < |input.rules| && !At(p, input, i, j).raised && !Judged(At(p, input, i, j), input, i, j).raised {
      JudgedLeaves(At(p, input, i, j), input, i, j);
    }
  }

  lemma {:induction false} LeftOverIs(s: State, input: Input, i: nat, j: nat)
    requires i < |input.rules| && j <= |input.events|
    ensures var q := At(Progress(None, s, false), input, i, j); !q.raised ==> q.last == Latest(input, i, j)
  {
    var p := Progress(None, s, false);
    var holds := (k: nat, l: nat) => LeavesLatest(p, input, k, l);
    forall k: nat, l: nat | l < |input.events| && holds(k, l) ensures holds(k, l + 1) {
      LatestNext(p, input, k, l);
    }
    AllAlong(holds, |input.events|, i, j);
    assert holds(i, j);
  }

  // An event whose own check raises opens an incident on matches that are not its own.
  lemma StaleMatchesOpen(p: Progress, input: Input, i: nat, j: nat)
    requires i < |input.rules| && j < |input.events| && Stale(p, input, i, j)
    requires input.fingerprints(i, j) == 1 && p.state.next !in p.state.visible
    requires var v := Visit(input.rules[i], input.events[j], p.last.value, input.answers(i, j)(0));
             v.rule.createOn.Any? && Due(v) && v.answers.found == None && v.event.firing && CreationAllowed(v.event)
    ensures Matched(SubRules.Extract(input.rules[i].definition), input.events[j].evaluate).Raises?
    ensures var q := Judged(p, input, i, j);
            && q.state.visible == p.state.visible[p.state.next := true]
            && q.state.sent == p.state.sent + [Sent(p.state.next, Created)]
  {
    var v := Visit(input.rules[i], input.events[j], p.last.value, input.answers(i, j)(0));
    assert VerdictOf(v) == Yes;
    var o := Visited(p.state, v);
    assert VisitAll(o, v.rule, v.event, v.matched, input.answers(i, j), 1, 1) == o;
  }

  // One rule, an alert that matches it, and a second one whose check ends in an unexpected ValueError.
  function Leftover(): Input {
    var rule := Rule("a", 1, false, Any);
    var matching := Event(_ => Value(true), true, false, None, []);
    var failing := Event(_ => Fails(OtherValueError), true, false, None, []);
    Input([rule], [matching, failing], (i, j) => 1, (i, j) => k => Answers(None, false, false, 1, [], false))
  }

  // The pass opens an incident for each of the two.
  lemma LeftoverOpensTwo()
    ensures var end := Pass(Progress(None, START, false), Leftover(), 0);
            && end.state.visible == map[0 := true, 1 := true] && end.state.sent == [Sent(0, Created), Sent(1, Created)]
            && Matched(SubRules.Extract(Leftover().rules[0].definition), Leftover().events[1].evaluate) ==
                Raises(OtherValueError)
  {
    var input, p := Leftover(), Progress(None, START, false);
    OneRule();
    var first := Judged(p, input, 0, 0);
    LeftoverFirst();
    StaleMatchesOpen(first, input, 0, 1);
    var second := Judged(first, input, 0, 1);
    assert Round(second, input, 0, 2) == second && Round(first, input, 0, 1) == second;
    assert Pass(p, input, 0) == Pass(Round(p, input, 0, 0), input, 1);
  }

  lemma OneRule()
    ensures SubRules.Extract("a") == ["a"] && Rewritten("a") == "a"
    ensures Matched(["a"], Leftover().events[0].evaluate) == Matches(["a"])
    ensures Matched(["a"], Leftover().events[1].evaluate) == Raises(OtherValueError)
  {
    assert !Occurs("a", SubRules.SEPARATOR) && !Occurs("a", "null") by {
      assert "a"[1..] == "";
    }
    assert ["a"][..0] == [];
    assert Matched(["a"][..0], Leftover().events[0].evaluate) == Matches([]);
    assert Matched(["a"][..0], Leftover().events[1].evaluate) == Matches([]);
  }

  lemma LeftoverFirst()
    ensures var q := Judged(Progress(None, START, false), Leftover(), 0, 0);
            && q.last == Some(["a"]) && !q.raised && q.state.next == 1
            && q.state.visible == map[0 := true] && q.state.sent == [Sent(0, Created)]
  {
    OneRule();
    var input := Leftover();
    var v := Visit(input.rules[0], input.events[0], ["a"], input.answers(0, 0)(0));
    assert VerdictOf(v) == Yes;
    var o := Visited(START, v);
    assert VisitAll(o, v.rule, v.event, v.matched, input.answers(0, 0), 1, 1) == o;
  }

  class RulesEngine {
    var visible: map<nat, bool>
    var next: nat
    var sent: seq<Sent>
    var openings: nat
    ghost var visits: seq<Visit>
    ghost var run: seq<Move>

    ghost function Contents(): State
      reads this
    {
      State(visible, next, sent, openings, visits)
    }

    ghost predicate Valid()
      reads this
    {
      Contents() == After(run)
    }

    constructor ()
      ensures Valid() && run == []
    {
      visible, next, sent, openings, visits, run := map[], 0, [], 0, [], [];
    }

    // The incident of the rule and the fingerprint, and whether it is new.
    method GetOrCreateIncident(answers: Answers, creationAllowed: bool, firing: bool)
      returns (incident: Option<nat>, created: bool)
      modifies this`visible, this`next
      ensures var existing := answers.found.Some? && answers.found.value in old(visible) && !answers.expired;
              && (existing ==> incident == answers.found && !created && visible == old(visible) && next == old(next))
              && (!existing && creationAllowed && firing ==>
                    incident == Some(old(next)) && created && next == old(next) + 1
                    && visible == old(visible)[old(next) := answers.bornVisible])
              && (!existing && !(creationAllowed && firing) ==>
                    incident == None && !created && visible == old(visible) && next == old(next))
    {
      if answers.found.Some? && answers.found.value in visible && !answers.expired {
        return answers.found, false;
      }
      if creationAllowed && firing {
        visible := visible[next := answers.bornVisible];
        incident, created := Some(next), true;
        next := next + 1;
      } else {
        incident, created := None, false;
      }
    }

    method SendWorkflowEvent(incident: nat, kind: Kind)
      modifies this`sent
      ensures sent == old(sent) + [Sent(incident, kind)]
    {
      sent := sent + [Sent(incident, kind)];
    }

    method OpenIfDue(id: nat, rule: Rule, ghost event: Event, matched: seq<string>, answers: Answers)
      returns (raised: bool)
      requires id in visible && !visible[id]
      modifies this`visible
      ensures var v := Visit(rule, event, matched, answers);
              && raised == (ByHistory(v) && HistoryOf(v).raised)
              && visible == if raised then old(visible) else old(visible)[id := Opens(v)]
    {
      raised := false;
      var alertsCount := Max(answers.alertsCount, FiringCount(answers.alerts));
      if alertsCount >= rule.threshold && !rule.requireApprove {
        if rule.createOn == Any || (rule.createOn == All && |SubRules.Extract(rule.definition)| == |matched|) {
          visible := visible[id := true];
        } else if rule.createOn == All {
          var met, failed := ReviewHistory(rule.definition, answers.alerts);
          if failed {
            return true;
          }
          if met && answers.allFiring {
            visible := visible[id := true];
          }
        }
      }
    }

    // One fingerprint of one event that matched.
    method SeeFingerprint(rule: Rule, event: Event, matched: seq<string>, answers: Answers) returns (raised: bool)
      modifies this`visible, this`next, this`sent, this`openings, this`visits
      ensures Outcome(Contents(), raised) == Visited(old(Contents()), Visit(rule, event, matched, answers))
    {
      ghost var v := Visit(rule, event, matched, answers);
      visits := visits + [v];
      raised := false;
      var creationAllowed := true;
      if event.afterMaintenance && event.received.Some? && exists t :: t in event.solved && event.received.value < t {
        creationAllowed := false;
      }
      var incident, send := GetOrCreateIncident(answers, creationAllowed, event.firing);
      if incident.None? {
        return;
      }
      var id := incident.value;
      if !visible[id] {
        raised := OpenIfDue(id, rule, event, matched, answers);
        if raised {
          return;
        }
        send := visible[id];
      }
      if send {
        SendWorkflowEvent(id, Created);
      } else if visible[id] {
        SendWorkflowEvent(id, Updated);
      }
      if send {
        openings := openings + 1;
      }
    }

    method RunCelRules(input: Input) returns (raised: bool)
      requires Valid()
      modifies this
      ensures Valid() && old(run) <= run && forall m :: m in run[|old(run)|..] ==> m.See?
      ensures var p := Pass(Progress(None, old(Contents()), false), input, 0);
              Contents() == p.state && raised == p.raised
    {
      ghost var start := Progress(None, Contents(), false);
      PassLeads(start, input, 0);
      var matched: Option<seq<string>> := None;
      raised := false;
      var i := 0;
      while i < |input.rules| && !raised
        invariant Pass(Progress(matched, Contents(), raised), input, i) == Pass(start, input, 0)
        invariant run == old(run)
        decreases |input.rules| - i
      {
        matched, raised := RunRule(input, i, matched);
        i := i + 1;
      }
      ghost var more: seq<Move> :| (forall m :: m in more ==> m.See?) && Play(start.state, more) == Contents();
      PlayOn(START, run, more);
      run := run + more;
    }

    method RunRule(input: Input, i: nat, last: Option<seq<string>>) returns (matched: Option<seq<string>>, raised: bool)
      requires i < |input.rules|
      modifies this`visible, this`next, this`sent, this`openings, this`visits
      ensures Progress(matched, Contents(), raised) == Round(Progress(last, old(Contents()), false), input, i, 0)
    {
      ghost var start := Progress(last, Contents(), false);
      matched, raised := last, false;
      for j := 0 to |input.events|
        invariant Round(Progress(matched, Contents(), false), input, i, j) == Round(start, input, i, 0)
      {
        matched, raised :=
          RunRuleOnEvent(input.rules[i], input.events[j], input.answers(i, j), input.fingerprints(i, j), matched);
        if raised {
          return;
        }
      }
    }

    method RunRuleOnEvent(rule: Rule, event: Event, answers: nat -> Answers, fingerprints: nat,
        last: Option<seq<string>>)
      returns (matched: Option<seq<string>>, raised: bool)
      modifies this`visible, this`next, this`sent, this`openings, this`visits
      ensures Progress(matched, Contents(), raised) ==
              Evaluated(Progress(last, old(Contents()), false), rule, event, answers, fingerprints)
    {
      matched, raised := last, false;
      var check := CheckIfRuleApply(rule.definition, event.evaluate);
      if check.Raises? && !check.failure.OtherValueError? {
        return;
      }
      if check.Matches? {
        matched := Some(check.rules);
      }
      if matched.None? {
        raised := true;
      } else if matched.value != [] {
        raised := SeeFingerprints(rule, event, matched.value, answers, fingerprints);
      }
    }

    method SeeFingerprints(rule: Rule, event: Event, matched: seq<string>, answers: nat -> Answers, fingerprints: nat)
      returns (raised: bool)
      modifies this`visible, this`next, this`sent, this`openings, this`visits
      ensures Outcome(Contents(), raised) ==
              VisitAll(Outcome(old(Contents()), false), rule, event, matched, answers, 0, fingerprints)
    {
      ghost var start := Outcome(Contents(), false);
      raised := false;
      for k := 0 to fingerprints
        invariant VisitAll(Outcome(Contents(), false), rule, event, matched, answers, k, fingerprints) ==
                  VisitAll(start, rule, event, matched, answers, 0, fingerprints)
      {
        raised := SeeFingerprint(rule, event, matched, answers(k));
        if raised {
          return;
        }
      }
    }
  }
}
