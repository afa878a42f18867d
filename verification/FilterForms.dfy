/**
 What each form of a trigger filter means, in terms of the texts and words it is written with: the text it is
 translated to, parsed and evaluated as CEL.
 */
module FilterForms {
  import opened Cel
  import opened Options
  import opened Strings
  import opened TriggerFilters

  lemma TextIsNoRegex(value: string)
    requires IsText(value)
    ensures !IsRegex(value)
  {
    if |value| >= 2 {
      assert value[..2][1] == value[1] && IsTextChar(value[1]);
    }
  }

  // A plain value is compared with the key's field, but searched for in the list of sources.
  lemma PlainMeans(key: string, value: string, exclude: bool, event: Event)
    requires IsPath(key) && IsText(value) && value != ""
    ensures var cel := Translation([Filter(key, value, exclude)]);
            var truth := if key == "source" then event(Contains("source", value)) else event(Equals(key, value));
            cel.Some? && EvalText(cel.value, event) == if exclude then Negation(truth) else truth
  {
    PathNotEmpty(key);
    TextIsNoRegex(value);
    OneFilter(Filter(key, value, exclude), event);
  }

  // -- regular expressions --

  function Regex(body: string): string {
    "r\"" + body + "\""
  }

  lemma RegexBody(body: string)
    ensures IsRegex(Regex(body)) && Body(Regex(body)) == body && Regex(body) != ""
  {
    assert Regex(body)[..2] == "r\"";
  }

  predicate Plain(body: string) {
    !Occurs(body, "]^") && !Occurs(body, "]+") && !Occurs(body, "|")
  }

  lemma RegexMeans(key: string, body: string, exclude: bool, event: Event)
    requires IsPath(key) && IsText(body) && !FormOfBody(body).Unsupported?
    requires FormOfBody(body).Anything? ==> '.' in key
    ensures var f := Filter(key, Regex(body), exclude);
            && FormOf(f.value) == FormOfBody(body)
            && Translation([f]).Some? && EvalText(Translation([f]).value, event) == Meaning(f, event)
  {
    PathNotEmpty(key);
    RegexBody(body);
    OneFilter(Filter(key, Regex(body), exclude), event);
  }

  // `r".*word.*"` asks whether the field contains the word.
  lemma ContainedMeans(key: string, word: string, exclude: bool, event: Event)
    requires IsPath(key) && IsText(word) && Plain(".*" + word + ".*")
    ensures var cel := Translation([Filter(key, Regex(".*" + word + ".*"), exclude)]);
            var truth := event(Contains(key, word));
            cel.Some? && EvalText(cel.value, event) == if exclude then Negation(truth) else truth
  {
    ContainedForm(word);
    RegexMeans(key, ".*" + word + ".*", exclude, event);
  }

  lemma ContainedForm(word: string)
    requires Plain(".*" + word + ".*")
    ensures FormOfBody(".*" + word + ".*") == Containing(word)
  {
    var body := ".*" + word + ".*";
    assert body[..2] == ".*" && body[|body| - 2..] == ".*" && body[2..|body| - 2] == word;
  }

  // So does `r"word.*"`.
  lemma PrefixMeans(key: string, word: string, exclude: bool, event: Event)
    requires IsPath(key) && IsText(word) && word != "" && Plain(word + ".*") && !StartsWith(word + ".*", ".*")
    ensures var cel, truth := Translation([Filter(key, Regex(word + ".*"), exclude)]), event(Contains(key, word));
            cel.Some? && EvalText(cel.value, event) == if exclude then Negation(truth) else truth
  {
    PrefixForm(word);
    RegexMeans(key, word + ".*", exclude, event);
  }

  lemma PrefixForm(word: string)
    requires word != "" && Plain(word + ".*") && !StartsWith(word + ".*", ".*")
    ensures FormOfBody(word + ".*") == Containing(word)
  {
    var body := word + ".*";
    assert body[|body| - 2..] == ".*" && body[..|body| - 2] == word;
    assert body[|body| - 1] == '*' && "^$"[1] == '$';
  }

  // `r".*"` asks whether there is such a field, whatever `exclude` says; `r"^$"` compares with the empty text.
  lemma AnythingMeans(key: string, exclude: bool, event: Event)
    requires IsPath(key) && '.' in key
    ensures var cel := Translation([Filter(key, Regex(".*"), exclude)]);
            cel.Some? && EvalText(cel.value, event) == event(Has(key))
  {
    NotIn(".*");
    assert FormOfBody(".*") == Anything;
    RegexMeans(key, ".*", exclude, event);
  }

  lemma BlankMeans(key: string, exclude: bool, event: Event)
    requires IsPath(key)
    ensures var cel, truth := Translation([Filter(key, Regex("^$"), exclude)]), event(Equals(key, ""));
            cel.Some? && EvalText(cel.value, event) == if exclude then Negation(truth) else truth
  {
    NotIn("^$");
    assert FormOfBody("^$") == Blank;
    RegexMeans(key, "^$", exclude, event);
  }

  lemma NotIn(body: string)
    requires ']' !in body && '|' !in body
    ensures Plain(body)
  {
    OnlyWithItsFirst(body, "]^");
    OnlyWithItsFirst(body, "]+");
    OnlyWithItsFirst(body, "|");
  }

  // A regular expression is refused exactly when it has a negated or repeated class, or has no alternatives and neither
  // is "^$" nor ends in ".*".
  lemma RefusedIff(key: string, body: string, exclude: bool)
    requires key != ""
    ensures Translation([Filter(key, Regex(body), exclude)]).None? <==>
            || Occurs(body, "]^") || Occurs(body, "]+")
            || (!Occurs(body, "|") && body != "^$" && !EndsWith(body, ".*"))
  {
    var f := Filter(key, Regex(body), exclude);
    RegexBody(body);
    OneClause(f);
    assert EndsWith(".*", ".*");
  }

  // -- alternatives --

  predicate Only(s: string, p: char -> bool) {
    forall i :: 0 <= i < |s| ==> p(s[i])
  }

  lemma {:induction false} StripLeftPast(left: string, rest: string, p: char -> bool)
    requires Only(left, p) && (rest == "" || !p(rest[0]))
    ensures StripLeft(left + rest, p) == rest
  {
    if left == "" {
      assert left + rest == rest;
    } else {
      assert (left + rest)[1..] == left[1..] + rest;
      StripLeftPast(left[1..], rest, p);
    }
  }

  lemma {:induction false} StripRightPast(rest: string, right: string, p: char -> bool)
    requires Only(right, p) && (rest == "" || !p(rest[|rest| - 1]))
    ensures StripRight(rest + right, p) == rest
  {
    if right == "" {
      assert rest + right == rest;
    } else {
      var init := right[..|right| - 1];
      assert (rest + right)[..|rest + right| - 1] == rest + init;
      StripRightPast(rest, init, p);
    }
  }

  // The part of an alternative that counts, with the space and the parentheses around it.
  datatype Wrapped = Wrapped(left: string, before: string, word: string, after: string, right: string) {
    function Written(): string {
      left + (before + word + after + right)
    }

    predicate Valid() {
      && Only(left, c => c == '(') && Only(right, c => c == ')')
      && Only(before, IsStripped) && Only(after, IsStripped)
      && (word != "" ==>
            && !IsStripped(word[0]) && !IsStripped(word[|word| - 1])
            && (before == "" ==> word[0] != '(') && (after == "" ==> word[|word| - 1] != ')'))
    }
  }

  lemma WordOf(w: Wrapped)
    requires w.Valid()
    ensures Alternative(w.Written()) == w.word
  {
    var inner := w.before + w.word + w.after;
    Unparenthesised(w, inner);
    Unspaced(w, inner);
  }

  lemma Unparenthesised(w: Wrapped, inner: string)
    requires w.Valid() && inner == w.before + w.word + w.after
    ensures inner == "" || (inner[0] != '(' && inner[|inner| - 1] != ')')
    ensures StripRight(StripLeft(w.Written(), c => c == '('), c => c == ')') == inner
  {
    assert w.Written() == w.left + (inner + w.right);
    assert StripLeft(w.Written(), c => c == '(') == inner + w.right by {
      StripLeftPast(w.left, inner + w.right, c => c == '(');
    }
    StripRightPast(inner, w.right, c => c == ')');
  }

  lemma Unspaced(w: Wrapped, inner: string)
    requires w.Valid() && inner == w.before + w.word + w.after
    ensures StripRight(StripLeft(inner, IsStripped), IsStripped) == w.word
  {
    if w.word == "" {
      StripLeftPast(inner, "", IsStripped);
      assert inner + "" == inner;
    } else {
      assert inner == w.before + (w.word + w.after);
      StripLeftPast(w.before, w.word + w.after, IsStripped);
      StripRightPast(w.word, w.after, IsStripped);
    }
  }

  function Parts(ws: seq<Wrapped>): (parts: seq<string>)
    ensures |parts| == |ws| && forall i :: 0 <= i < |ws| ==> parts[i] == ws[i].Written()
  {
    seq(|ws|, i requires 0 <= i < |ws| => ws[i].Written())
  }

  function Words(ws: seq<Wrapped>): (words: seq<string>)
    ensures |words| == |ws| && forall i :: 0 <= i < |ws| ==> words[i] == ws[i].word
  {
    seq(|ws|, i requires 0 <= i < |ws| => ws[i].word)
  }

  lemma {:induction false} WordsOf(ws: seq<Wrapped>)
    requires forall i :: 0 <= i < |ws| ==> ws[i].Valid()
    ensures Alternatives(Parts(ws)) == Words(ws)
  {
    if ws != [] {
      WordOf(ws[0]);
      WordsOf(ws[1..]);
      assert Parts(ws)[1..] == Parts(ws[1..]);
      assert Words(ws) == [ws[0].word] + Words(ws[1..]);
    }
  }

  lemma AlternativesForm(ws: seq<Wrapped>)
    requires |ws| >= 2 && forall i :: 0 <= i < |ws| ==> ws[i].Valid() && '|' !in ws[i].Written()
    requires var body := Join("|", Parts(ws)); !Occurs(body, "]^") && !Occurs(body, "]+")
    ensures FormOfBody(Join("|", Parts(ws))) == OneOf(Words(ws))
  {
    var parts := Parts(ws);
    forall part | part in parts ensures !Occurs(part, "|") {
      OnlyWithItsFirst(part, "|");
    }
    SplitJoined(parts, "|");
    WordsOf(ws);
    assert Occurs(Join("|", parts), "|");
  }

  // The answer for each of the words.
  function Answered(key: string, words: seq<string>, event: Event): seq<Truth> {
    seq(|words|, i requires 0 <= i < |words| =>
      if key == "source" then event(Contains("source", words[i])) else event(Equals(key, words[i])))
  }

  // Alternatives separated by bars: one of the words, each without the parentheses and the space around it, is the
  // value of the field, or is among the sources.
  lemma AlternativesMean(key: string, ws: seq<Wrapped>, exclude: bool, event: Event)
    requires IsPath(key) && |ws| >= 2 && forall i :: 0 <= i < |ws| ==> ws[i].Valid() && '|' !in ws[i].Written()
    requires var body := Join("|", Parts(ws)); IsText(body) && !Occurs(body, "]^") && !Occurs(body, "]+")
    ensures var cel := Translation([Filter(key, Regex(Join("|", Parts(ws))), exclude)]);
            var truth := AnyOf(Answered(key, Words(ws), event));
            cel.Some? && EvalText(cel.value, event) == if exclude then Negation(truth) else truth
  {
    AlternativesForm(ws);
    RegexMeans(key, Join("|", Parts(ws)), exclude, event);
    OneOfMeans(Filter(key, Regex(Join("|", Parts(ws))), exclude), Words(ws), event);
  }

  lemma OneOfMeans(f: Filter, words: seq<string>, event: Event)
    requires FormOf(f.value) == OneOf(words)
    ensures var truth := AnyOf(Answered(f.key, words, event));
            Meaning(f, event) == if f.exclude then Negation(truth) else truth
  {
    var truths, answers := Matches(f.key, words, event), Answered(f.key, words, event);
    forall i | 0 <= i < |words| ensures truths[i] == answers[i] {
      assert truths[i] == event(Match(f.key, words[i]));
    }
    assert truths == answers;
  }

  // A word that needs no more than parentheses around the alternatives.
  predicate IsWord(word: string) {
    && IsText(word) && '|' !in word && ']' !in word
    && (word != "" ==>
          && !IsStripped(word[0]) && word[0] != '(' && !IsStripped(word[|word| - 1]) && word[|word| - 1] != ')')
  }

  // `r"(a|b)"`: a or b.
  lemma EitherMeans(key: string, a: string, b: string, exclude: bool, event: Event)
    requires IsPath(key) && IsWord(a) && IsWord(b)
    ensures var cel := Translation([Filter(key, Regex("(" + a + "|" + b + ")"), exclude)]);
            var truth := if key == "source" then Disjunction(event(Contains("source", a)), event(Contains("source", b)))
                         else Disjunction(event(Equals(key, a)), event(Equals(key, b)));
            cel.Some? && EvalText(cel.value, event) == if exclude then Negation(truth) else truth
  {
    var ws := [Wrapped("(", "", a, "", ""), Wrapped("", "", b, "", ")")];
    var body := "(" + a + "|" + b + ")";
    EitherIsJoined(a, b, ws);
    EitherIsText(a, b);
    AlternativesMean(key, ws, exclude, event);
    AnyOfTwo(Answered(key, Words(ws), event));
  }

  lemma EitherIsText(a: string, b: string)
    requires IsWord(a) && IsWord(b)
    ensures var body := "(" + a + "|" + b + ")"; IsText(body) && !Occurs(body, "]^") && !Occurs(body, "]+")
  {
    var body := "(" + a + "|" + b + ")";
    assert ']' !in body;
    OnlyWithItsFirst(body, "]^");
    OnlyWithItsFirst(body, "]+");
  }

  lemma EitherIsJoined(a: string, b: string, ws: seq<Wrapped>)
    requires IsWord(a) && IsWord(b)
    requires ws == [Wrapped("(", "", a, "", ""), Wrapped("", "", b, "", ")")]
    ensures Join("|", Parts(ws)) == "(" + a + "|" + b + ")"
    ensures forall i :: 0 <= i < |ws| ==> ws[i].Valid() && '|' !in ws[i].Written()
  {
    assert ws[0].Valid() && ws[0].Written() == "(" + a;
    assert ws[1].Valid() && ws[1].Written() == b + ")";
    JoinTwo("(" + a, b + ")");
    assert Parts(ws) == ["(" + a, b + ")"];
  }

  lemma JoinTwo(a: string, b: string)
    ensures Join("|", [a, b]) == a + "|" + b
  {
    assert [a, b][1..] == [b];
  }

  lemma AnyOfTwo(truths: seq<Truth>)
    requires |truths| == 2
    ensures AnyOf(truths) == Disjunction(truths[0], truths[1])
  {
    var rest := truths[1..];
    assert rest == [truths[1]] && rest[1..] == [];
    assert AnyOf(rest) == Disjunction(truths[1], AnyOf([])) == truths[1];
  }

  // -- several filters --

  // What the translation of the one filter answers.
  function Alone(f: Filter, event: Event): Truth {
    match Translation([f])
    case None => Error
    case Some(cel) => EvalText(cel, event)
  }

  // All well-formed filters have to hold: the translation is true where each on its own is, and false where one is.
  lemma EachHolds(filters: seq<Filter>, event: Event)
    requires Translation(filters).Some? && exists f :: f in filters && WellFormed(f)
    requires forall f :: f in filters && WellFormed(f) ==> Printable(f) && Selects(f)
    ensures var truth := EvalText(Translation(filters).value, event);
            && (truth == True <==> forall f :: f in filters && WellFormed(f) ==> Alone(f, event) == True)
            && (truth == False <==> exists f :: f in filters && WellFormed(f) && Alone(f, event) == False)
  {
    TranslationMeans(filters, event);
    OnlySupported(filters);
    AllOfMeanings(filters, event);
    forall f | f in filters && WellFormed(f) ensures Alone(f, event) == Meaning(f, event) {
      OneFilter(f, event);
    }
  }

  lemma {:induction false} AllOfMeanings(filters: seq<Filter>, event: Event)
    ensures var truth := AllOf(Meanings(filters, event));
            && (truth == True <==> forall f :: f in filters && WellFormed(f) ==> Meaning(f, event) == True)
            && (truth == False <==> exists f :: f in filters && WellFormed(f) && Meaning(f, event) == False)
  {
    if filters != [] {
      var f, rest := filters[0], filters[1..];
      AllOfMeanings(rest, event);
      assert forall g :: g in filters <==> g == f || g in rest;
      if WellFormed(f) {
        var first := Meaning(f, event);
        assert ([first] + Meanings(rest, event))[1..] == Meanings(rest, event);
        assert AllOf(Meanings(filters, event)) == Conjunction(first, AllOf(Meanings(rest, event)));
      }
    }
  }

  lemma {:induction false} ClausesSkip(before: seq<Filter>, f: Filter, after: seq<Filter>)
    requires f.key == "" || f.value == ""
    ensures Clauses(before + [f] + after) == Clauses(before + after)
  {
    var long, short := before + [f] + after, before + after;
    if before == [] {
      assert short == after && long[1..] == after && long[0] == f;
      assert Clauses(long) == Clauses(after);
    } else {
      assert long[1..] == before[1..] + [f] + after && short[1..] == before[1..] + after;
      assert Clauses(long[1..]) == Clauses(short[1..]) by {
        ClausesSkip(before[1..], f, after);
      }
      assert long[0] == short[0];
      assert Clauses(long) == Clauses(short);
    }
  }

  // A filter without a key or a value changes nothing.
  lemma MalformedIsSkipped(before: seq<Filter>, f: Filter, after: seq<Filter>)
    requires f.key == "" || f.value == ""
    ensures Translation(before + [f] + after) == Translation(before + after)
  {
    ClausesSkip(before, f, after);
  }
}
