/**
 The sub-rule splitter of src/rulesengine/rulesengine.py. A rule's definition is written
 "(first) || (second)"; the splitter takes it apart at the separators between the parentheses.
 */
module SubRules {
  import opened Strings

  const SEPARATOR := ") || ("

  function Extract(definition: string): seq<string> {
    var parts := Split(definition, SEPARATOR);
    if |parts| == 1 then parts
    else
      [TrimFirst(parts[0])] + parts[1..|parts| - 1] + [TrimLast(parts[|parts| - 1])]
  }

  function TrimFirst(s: string): string {
    if s == "" then "" else s[1..]
  }

  function TrimLast(s: string): string {
    if s == "" then "" else s[..|s| - 1]
  }

  function Definition(rules: seq<string>): string {
    "(" + Join(SEPARATOR, rules) + ")"
  }

  // The parts between separators: the first keeps its "(" and the last its ")".
  ghost function Parenthesised(rules: seq<string>): seq<string>
    requires |rules| >= 2
  {
    ["(" + rules[0]] + rules[1..|rules| - 1] + [rules[|rules| - 1] + ")"]
  }

  lemma {:induction false} JoinAppend(parts: seq<string>, last: string, tail: string)
    ensures Join(SEPARATOR, parts + [last]) + tail == Join(SEPARATOR, parts + [last + tail])
  {
    if parts != [] {
      assert (parts + [last])[1..] == parts[1..] + [last];
      assert (parts + [last + tail])[1..] == parts[1..] + [last + tail];
      JoinAppend(parts[1..], last, tail);
    }
  }

  lemma DefinitionIsJoined(rules: seq<string>)
    requires |rules| >= 2
    ensures Definition(rules) == Join(SEPARATOR, Parenthesised(rules))
  {
    var middle, last := rules[1..|rules| - 1], rules[|rules| - 1];
    assert rules[1..] == middle + [last];
    assert Parenthesised(rules)[1..] == middle + [last + ")"];
    JoinAppend(middle, last, ")");
    assert Definition(rules) == "(" + rules[0] + SEPARATOR + (Join(SEPARATOR, middle + [last]) + ")");
  }

  lemma ParenthesesAddNoSeparator(rule: string)
    ensures Occurs("(" + rule, SEPARATOR) <==> Occurs(rule, SEPARATOR)
    ensures Occurs(rule + ")", SEPARATOR) <==> Occurs(rule, SEPARATOR)
  {
    assert ("(" + rule)[1..] == rule;
    assert !StartsWith("(" + rule, SEPARATOR) by {
      assert ("(" + rule)[0] == '(' != SEPARATOR[0];
    }
    var s := rule + ")";
    OccursIffAt(s, SEPARATOR);
    OccursIffAt(rule, SEPARATOR);
    forall i: nat ensures At(s, SEPARATOR, i) <==> At(rule, SEPARATOR, i) {
      if i + |SEPARATOR| <= |rule| {
        assert rule[i..i + |SEPARATOR|] == s[i..i + |SEPARATOR|];
      } else if i + |SEPARATOR| <= |s| {
        assert s[i..i + |SEPARATOR|][|SEPARATOR| - 1] == ')';
      }
    }
  }

  lemma TrimmingAddsNoSeparator(s: string)
    requires !Occurs(s, SEPARATOR)
    ensures !Occurs(TrimFirst(s), SEPARATOR) && !Occurs(TrimLast(s), SEPARATOR)
  {
    if s != "" {
      var first, last := s[0], s[|s| - 1];
      assert s == [first] + TrimFirst(s) + "" == "" + TrimLast(s) + [last];
      if Occurs(TrimFirst(s), SEPARATOR) {
        OccursInLarger([first], TrimFirst(s), "", SEPARATOR);
        assert false;
      }
      if Occurs(TrimLast(s), SEPARATOR) {
        OccursInLarger("", TrimLast(s), [last], SEPARATOR);
        assert false;
      }
    }
  }

  lemma NoExtractedSeparator(definition: string)
    ensures forall rule :: rule in Extract(definition) ==> !Occurs(rule, SEPARATOR)
  {
    var parts := Split(definition, SEPARATOR);
    SplitParts(definition, SEPARATOR);
    TrimmingAddsNoSeparator(parts[0]);
    TrimmingAddsNoSeparator(parts[|parts| - 1]);
  }

  lemma CleanRulesComeBack(rules: seq<string>)
    requires |rules| >= 2 && forall rule :: rule in rules ==> !Occurs(rule, SEPARATOR)
    ensures Extract(Definition(rules)) == rules
  {
    DefinitionIsJoined(rules);
    PartsAreClean(rules);
    SplitJoined(Parenthesised(rules), SEPARATOR);
    TrimmedParts(rules);
  }

  lemma PartsAreClean(rules: seq<string>)
    requires |rules| >= 2 && forall rule :: rule in rules ==> !Occurs(rule, SEPARATOR)
    ensures forall part :: part in Parenthesised(rules) ==> !Occurs(part, SEPARATOR)
  {
    ParenthesesAddNoSeparator(rules[0]);
    ParenthesesAddNoSeparator(rules[|rules| - 1]);
    assert forall rule :: rule in rules[1..|rules| - 1] ==> rule in rules;
  }

  lemma TrimmedParts(rules: seq<string>)
    requires |rules| >= 2
    ensures var parts := Parenthesised(rules);
            [TrimFirst(parts[0])] + parts[1..|parts| - 1] + [TrimLast(parts[|parts| - 1])] == rules
  {
  }

  lemma FewRulesDoNot(rules: seq<string>)
    requires |rules| < 2
    ensures Extract(Definition(rules)) != rules
  {
    if |rules| == 1 {
      assert Definition(rules) == "(" + rules[0] + ")";
      assert |Definition(rules)| == |rules[0]| + 2;
    }
  }

  // Splitting a definition gives back the rules it was written from exactly when there are at least
  // two of them and none holds the separator. A single rule keeps its parentheses.
  lemma RoundTripIff(rules: seq<string>)
    ensures Extract(Definition(rules)) == rules
       <==> |rules| >= 2 && forall rule :: rule in rules ==> !Occurs(rule, SEPARATOR)
  {
    if |rules| < 2 {
      FewRulesDoNot(rules);
    } else if forall rule :: rule in rules ==> !Occurs(rule, SEPARATOR) {
      CleanRulesComeBack(rules);
    } else {
      NoExtractedSeparator(Definition(rules));
    }
  }
}
