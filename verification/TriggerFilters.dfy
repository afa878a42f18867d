/**
 Translation of old-style trigger filters into CEL text, from src/workflowmanager/workflowmanager.py, and
 the proof that the text, parsed back, means what the filters say.
 */
module TriggerFilters {
  import opened Cel
  import opened Options
  import opened Strings

  // A missing or empty key or value is "".
  datatype Filter = Filter(key: string, value: string, exclude: bool)

  predicate WellFormed(f: Filter) {
    f.key != "" && f.value != ""
  }

  predicate IsRegex(value: string) {
    StartsWith(value, "r\"")
  }

  // `value[2:-1]`
  function Body(value: string): string {
    if |value| >= 3 then value[2..|value| - 1] else ""
  }

  function StripLeft(s: string, p: char -> bool): (t: string)
    ensures |t| <= |s| && forall c :: c in t ==> c in s
  {
    if s != "" && p(s[0]) then StripLeft(s[1..], p) else s
  }

  function StripRight(s: string, p: char -> bool): (t: string)
    ensures |t| <= |s| && forall c :: c in t ==> c in s
  {
    if s != "" && p(s[|s| - 1]) then StripRight(s[..|s| - 1], p) else s
  }

  // What Python's str.strip takes away.
  predicate IsStripped(c: char) {
    || '\U{0009}' <= c <= '\U{000D}' || '\U{001C}' <= c <= '\U{0020}'
    || c in "\U{0085}\U{00A0}\U{1680}\U{2028}\U{2029}\U{202F}\U{205F}\U{3000}"
    || '\U{2000}' <= c <= '\U{200A}'
  }

  // One alternative of "(a|b)", without parentheses and surrounding space.
  function Alternative(part: string): string {
    var inner := StripRight(StripLeft(part, c => c == '('), c => c == ')');
    StripRight(StripLeft(inner, IsStripped), IsStripped)
  }

  function Alternatives(parts: seq<string>): (alternatives: seq<string>)
    ensures |alternatives| == |parts|
  {
    if parts == [] then [] else [Alternative(parts[0])] + Alternatives(parts[1..])
  }

  datatype Form =
    | Exactly(value: string)
    | OneOf(values: seq<string>)
    | Anything
    | Blank
    | Containing(value: string)
    | Unsupported

  function FormOf(value: string): (form: Form)
    ensures form.OneOf? ==> form.values != []
  {
    if IsRegex(value) then FormOfBody(Body(value)) else Exactly(value)
  }

  // `value[2:-2]`
  function Middle(value: string): (middle: string)
    ensures forall c :: c in middle ==> c in value
  {
    if |value| >= 4 then value[2..|value| - 2] else ""
  }

  function FormOfBody(body: string): (form: Form)
    ensures form.OneOf? ==> form.values != []
    ensures !form.Exactly?
  {
    if Occurs(body, "]^") || Occurs(body, "]+") then Unsupported
    else if Occurs(body, "|") then OneOf(Alternatives(Split(body, "|")))
    else if body == ".*" then Anything
    else if body == "^$" then Blank
    else if StartsWith(body, ".*") && EndsWith(body, ".*") then Containing(Middle(body))
    else if EndsWith(body, ".*") then Containing(body[..|body| - 2])
    else Unsupported
  }

  // The source is a list, so it is searched where other fields are compared.
  function Match(key: string, value: string): Question {
    if key == "source" then Contains(key, value) else Equals(key, value)
  }

  // -- the meaning of filters --

  function Signed(exclude: bool, t: Truth): Truth {
    if exclude then Negation(t) else t
  }

  function Matches(key: string, values: seq<string>, event: Event): (truths: seq<Truth>) {
    seq(|values|, i requires 0 <= i < |values| => event(Match(key, values[i])))
  }

  function Meaning(f: Filter, event: Event): Truth {
    match FormOf(f.value)
    case Exactly(v) => Signed(f.exclude, event(Match(f.key, v)))
    case OneOf(vs) => Signed(f.exclude, AnyOf(Matches(f.key, vs, event)))
    case Anything => event(Has(f.key))
    case Blank => Signed(f.exclude, event(Equals(f.key, "")))
    case Containing(v) => Signed(f.exclude, event(Contains(f.key, v)))
    case Unsupported => Error
  }

  function Meanings(filters: seq<Filter>, event: Event): seq<Truth> {
    if filters == [] then []
    else if WellFormed(filters[0]) then [Meaning(filters[0], event)] + Meanings(filters[1..], event)
    else Meanings(filters[1..], event)
  }

  // -- the translation --

  function Quoted(value: string): string {
    "\"" + value + "\""
  }

  function Written(q: Question, negated: bool): string {
    match q
    case Contains(key, value) => (if negated then "!" else "") + key + CONTAINS + "(" + Quoted(value) + ")"
    case Equals(key, value) => key + (if negated then " != " else " == ") + Quoted(value)
    case Has(key) => "has(" + key + ")"
    case IsTrue(key) => key
  }

  function Connective(exclude: bool): string {
    if exclude then " && " else " || "
  }

  function WrittenAll(key: string, values: seq<string>, exclude: bool): (texts: seq<string>)
    ensures |texts| == |values|
  {
    if values == [] then []
    else [Written(Match(key, values[0]), exclude)] + WrittenAll(key, values[1..], exclude)
  }

  function Clause(f: Filter): Option<string> {
    match FormOf(f.value)
    case Exactly(v) => Some(Written(Match(f.key, v), f.exclude))
    case OneOf(vs) => Some("(" + Join(Connective(f.exclude), WrittenAll(f.key, vs, f.exclude)) + ")")
    case Anything => Some("(" + Written(Has(f.key), f.exclude) + ")")
    case Blank => Some("(" + Written(Equals(f.key, ""), f.exclude) + ")")
    case Containing(v) => Some("(" + Written(Contains(f.key, v), f.exclude) + ")")
    case Unsupported => None
  }

  function Clauses(filters: seq<Filter>): Option<seq<string>> {
    if filters == [] then Some([])
    else if !WellFormed(filters[0]) then Clauses(filters[1..])
    else
      match (Clause(filters[0]), Clauses(filters[1..]))
      case (Some(first), Some(rest)) => Some([first] + rest)
      case _ => None
  }

  // None stands for the exception raised on an unsupported regular expression.
  function Translation(filters: seq<Filter>): Option<string> {
    match Clauses(filters)
    case None => None
    case Some(clauses) => Some(Join(" && ", clauses))
  }

  // The texts that one regular expression turns into, before they are joined.
  function RegexTexts(key: string, body: string, exclude: bool): Option<seq<string>> {
    match FormOfBody(body)
    case OneOf(vs) => Some(WrittenAll(key, vs, exclude))
    case Anything => Some([Written(Has(key), exclude)])
    case Blank => Some([Written(Equals(key, ""), exclude)])
    case Containing(v) => Some([Written(Contains(key, v), exclude)])
    case _ => None
  }

  method ConvertFilters(filters: seq<Filter>) returns (cel: Option<string>)
    ensures cel == Translation(filters)
  {
    var celFilters: seq<string> := [];
    assert filters[0..] == filters;
    PrependNothing(Clauses(filters));
    for k := 0 to |filters|
      invariant Clauses(filters) == Prepend(celFilters, Clauses(filters[k..]))
    {
      var f := filters[k];
      NextClause(filters, k);
      if f.key == "" || f.value == "" {
        continue;
      }
      var clause := ConvertFilter(f);
      if clause.None? {
        return None;
      }
      PrependTwice(celFilters, [clause.value], Clauses(filters[k + 1..]));
      celFilters := celFilters + [clause.value];
    }
    assert celFilters + [] == celFilters;
    cel := Some(Join(" && ", celFilters));
  }

  method ConvertFilter(f: Filter) returns (clause: Option<string>)
    ensures clause == Clause(f)
  {
    if !IsRegex(f.value) {
      var text := ConvertAlternative(f.key, f.value, f.exclude);
      return Some(text);
    }
    var celRegex := ConvertRegex(f.key, Body(f.value), f.exclude);
    RegexClause(f, celRegex);
    if celRegex.None? {
      return None;
    }
    clause := Some("(" + Join(if f.exclude then " && " else " || ", celRegex.value) + ")");
  }

  lemma RegexClause(f: Filter, texts: Option<seq<string>>)
    requires IsRegex(f.value) && texts == RegexTexts(f.key, Body(f.value), f.exclude)
    ensures Clause(f) == if texts.None? then None else Some("(" + Join(Connective(f.exclude), texts.value) + ")")
  {
    var form := FormOfBody(Body(f.value));
    assert FormOf(f.value) == form;
    if texts.Some? && !form.OneOf? {
      assert Join(Connective(f.exclude), texts.value) == texts.value[0];
    }
  }

  method ConvertRegex(key: string, body: string, exclude: bool) returns (texts: Option<seq<string>>)
    ensures texts == RegexTexts(key, body, exclude)
  {
    if Occurs(body, "]^") || Occurs(body, "]+") {
      return None;
    } else if Occurs(body, "|") {
      var all := ConvertAlternatives(key, Split(body, "|"), exclude);
      return Some(all);
    } else if body == ".*" {
      return Some([Written(Has(key), exclude)]);
    } else if body == "^$" {
      return Some([Written(Equals(key, ""), exclude)]);
    } else if StartsWith(body, ".*") && EndsWith(body, ".*") {
      return Some([Written(Contains(key, body[2..|body| - 2]), exclude)]);
    } else if EndsWith(body, ".*") {
      return Some([Written(Contains(key, body[..|body| - 2]), exclude)]);
    }
    return None;
  }

  ghost function Prepend(done: seq<string>, rest: Option<seq<string>>): Option<seq<string>> {
    match rest
    case None => None
    case Some(clauses) => Some(done + clauses)
  }

  lemma PrependNothing(rest: Option<seq<string>>)
    ensures Prepend([], rest) == rest
  {
    assert rest.Some? ==> [] + rest.value == rest.value;
  }

  lemma PrependTwice(a: seq<string>, b: seq<string>, rest: Option<seq<string>>)
    ensures Prepend(a, Prepend(b, rest)) == Prepend(a + b, rest)
  {
    assert rest.Some? ==> a + (b + rest.value) == a + b + rest.value;
  }

  lemma NextClause(filters: seq<Filter>, k: nat)
    requires k < |filters|
    ensures Clauses(filters[k..]) ==
            if !WellFormed(filters[k]) then Clauses(filters[k + 1..])
            else if Clause(filters[k]).None? then None
            else Prepend([Clause(filters[k]).value], Clauses(filters[k + 1..]))
  {
    assert filters[k..][0] == filters[k] && filters[k..][1..] == filters[k + 1..];
  }

  method ConvertAlternatives(key: string, parts: seq<string>, exclude: bool) returns (texts: seq<string>)
    ensures texts == WrittenAll(key, Alternatives(parts), exclude)
  {
    texts := [];
    assert parts[0..] == parts;
    for i := 0 to |parts|
      invariant WrittenAll(key, Alternatives(parts), exclude) ==
          texts + WrittenAll(key, Alternatives(parts[i..]), exclude)
    {
      var text := ConvertAlternative(key, Alternative(parts[i]), exclude);
      ghost var rest := WrittenAll(key, Alternatives(parts[i + 1..]), exclude);
      NextAlternative(key, parts, exclude, i);
      assert texts + ([text] + rest) == (texts + [text]) + rest;
      texts := texts + [text];
    }
  }

  method ConvertAlternative(key: string, value: string, exclude: bool) returns (text: string)
    ensures text == Written(Match(key, value), exclude)
  {
    if key == "source" {
      return Written(Contains(key, value), exclude);
    }
    return Written(Equals(key, value), exclude);
  }

  lemma NextAlternative(key: string, parts: seq<string>, exclude: bool, i: nat)
    requires i < |parts|
    ensures WrittenAll(key, Alternatives(parts[i..]), exclude)
         == [Written(Match(key, Alternative(parts[i])), exclude)] +
             WrittenAll(key, Alternatives(parts[i + 1..]), exclude)
  {
    assert parts[i..][0] == parts[i] && parts[i..][1..] == parts[i + 1..];
    var rest := Alternatives(parts[i + 1..]);
    assert Alternatives(parts[i..])[1..] == rest;
  }

  // -- reading the text back --

  // What may follow a written clause.
  ghost predicate Stops(rest: string) {
    rest == "" || rest[0] == ')' || StartsWith(rest, " && ") || StartsWith(rest, " || ")
  }

  lemma StopsSkip(rest: string)
    requires Stops(rest)
    ensures var t := Skip(rest);
            && !StartsWith(t, "==") && !StartsWith(t, "!=")
            && (StartsWith(t, "&&") <==> StartsWith(rest, " && "))
            && (StartsWith(t, "||") <==> StartsWith(rest, " || "))
            && (StartsWith(rest, " && ") || StartsWith(rest, " || ") ==> t == rest[1..])
  {
    if StartsWith(rest, " && ") || StartsWith(rest, " || ") {
      assert rest[..4][0] == rest[0] && rest[..4][1] == rest[1] && rest[..4][2] == rest[2];
      assert Skip(rest) == Skip(rest[1..]) == rest[1..];
      assert rest[1..][..2] == rest[..4][1..3];
    }
  }

  // The text is read as the tree, up to whatever stops it.
  ghost predicate Reads(text: string, tree: Expr) {
    forall rest :: Stops(rest) ==> ParseRelation(text + rest) == Some((tree, rest))
  }

  lemma {:induction false} RunExact(word: string, rest: string, p: char -> bool)
    requires forall i :: 0 <= i < |word| ==> p(word[i])
    requires rest == "" || !p(rest[0])
    ensures Run(word + rest, p) == |word|
  {
    if word != "" {
      assert (word + rest)[1..] == word[1..] + rest;
      RunExact(word[1..], rest, p);
    } else {
      assert word + rest == rest;
    }
  }

  lemma ReadText(value: string, rest: string)
    requires IsText(value)
    ensures ParseText(Quoted(value) + rest) == Some((value, rest))
  {
    var s := Quoted(value) + rest;
    assert s[1..] == value + ("\"" + rest);
    RunExact(value, "\"" + rest, IsTextChar);
    assert s[1..][..|value|] == value && s[1..][|value| + 1..] == rest;
  }

  ghost predicate Readable(q: Question) {
    match q
    case Contains(key, value) => IsPath(key) && IsText(value)
    case Equals(key, value) => IsPath(key) && IsText(value)
    case Has(key) => IsSelection(key)
    case IsTrue(_) => false
  }

  function Tree(q: Question, negated: bool): Expr {
    match q
    case Contains(key, value) => if negated then Not(FieldContains(key, value)) else FieldContains(key, value)
    case Equals(key, value) => if negated then Unequal(Field(key), value) else Equal(Field(key), value)
    case Has(key) => HasField(key)
    case IsTrue(key) => Field(key)
  }

  lemma PathNotEmpty(key: string)
    requires IsPath(key)
    ensures key != ""
  {
    assert Split("", ".") == [""];
    assert "" in Split("", ".");
  }

  lemma Cut(a: string, b: string)
    ensures (a + b)[..|a|] == a && (a + b)[|a|..] == b
  {
  }

  lemma ContainsCall(key: string, value: string, rest: string)
    requires IsPath(key) && IsText(value)
    ensures ParseContains(key, Quoted(value) + (")" + rest)) == Some((FieldContains(key, value), rest))
  {
    ReadText(value, ")" + rest);
    Cut(")", rest);
  }

  // What `has` finds after its parenthesis.
  lemma HasArgument(key: string, rest: string)
    requires IsPath(key)
    ensures var s := key + (")" + rest);
            Skip(s) == s && Run(s, IsPathChar) == |key| && s[..|key|] == key && Character(s[|key|..], ')') == Some(rest)
  {
    PathNotEmpty(key);
    RunExact(key, ")" + rest, IsPathChar);
    Cut(key, ")" + rest);
    Cut(")", rest);
  }

  lemma HasCall(key: string, rest: string)
    requires IsPath(key)
    ensures ParseHas(key + (")" + rest)) == if '.' in key then Some((HasField(key), rest)) else None
  {
    HasArgument(key, rest);
  }

  // A word of path characters before an open parenthesis.
  lemma CallOf(word: string, args: string)
    requires forall i :: 0 <= i < |word| ==> IsPathChar(word[i])
    ensures ParseMember(word + ("(" + args)) == ParseCall(word, args)
  {
    CallParts(word, args);
  }

  lemma CallParts(word: string, args: string)
    requires forall i :: 0 <= i < |word| ==> IsPathChar(word[i])
    ensures var s := word + ("(" + args);
            && Run(s, IsPathChar) == |word| < |s| && s[..|word|] == word
            && s[|word|] == '(' && s[|word|..][1..] == args
  {
    RunExact(word, "(" + args, IsPathChar);
    Cut(word, "(" + args);
    Cut("(", args);
  }

  // A call of contains, and what follows it.
  ghost function ContainsText(key: string, value: string, rest: string): string {
    key + CONTAINS + ("(" + (Quoted(value) + (")" + rest)))
  }

  lemma MemberContains(key: string, value: string, rest: string)
    requires IsPath(key) && IsText(value)
    ensures ParseMember(ContainsText(key, value, rest)) == Some((FieldContains(key, value), rest))
  {
    ContainsWord(key);
    CallOf(key + CONTAINS, Quoted(value) + (")" + rest));
    ContainsCall(key, value, rest);
  }

  lemma ContainsWord(key: string)
    requires IsPath(key)
    ensures var word := key + CONTAINS;
            && (forall i :: 0 <= i < |word| ==> IsPathChar(word[i]))
            && word != "has" && EndsWith(word, CONTAINS) && word[..|word| - |CONTAINS|] == key
  {
    Cut(key, CONTAINS);
    assert forall i :: 0 <= i < |CONTAINS| ==> IsPathChar(CONTAINS[i]);
  }

  lemma Regroup(a: string, b: string, c: string)
    ensures (a + b) + c == a + (b + c)
  {
  }

  lemma WrittenContains(key: string, value: string, negated: bool, rest: string)
    ensures Written(Contains(key, value), negated) + rest ==
            if negated then "!" + ContainsText(key, value, rest) else ContainsText(key, value, rest)
  {
    var sign, close := if negated then "!" else "", ")" + rest;
    var word := sign + key + CONTAINS;
    Regroup(word + "(" + Quoted(value), ")", rest);
    Regroup(word + "(", Quoted(value), close);
    Regroup(word, "(", Quoted(value) + close);
    Regroup(sign, key, CONTAINS);
    Regroup(sign, key + CONTAINS, "(" + (Quoted(value) + close));
    assert "" + ContainsText(key, value, rest) == ContainsText(key, value, rest);
  }

  // A call of has, and what follows it.
  ghost function HasText(key: string, rest: string): string {
    "has" + ("(" + (key + (")" + rest)))
  }

  lemma HasTextIs(key: string, rest: string)
    ensures "has(" + key + ")" + rest == HasText(key, rest)
  {
    Regroup("has(" + key, ")", rest);
    Regroup("has(", key, ")" + rest);
    Regroup("has", "(", key + (")" + rest));
    assert "has" + "(" == "has(";
  }

  lemma HasWord()
    ensures forall i :: 0 <= i < |"has"| ==> IsPathChar("has"[i])
  {
  }

  lemma UnaryHas(key: string, rest: string)
    ensures ParseUnary(HasText(key, rest)) == ParseHas(key + (")" + rest))
  {
    HasWord();
    CallOf("has", key + (")" + rest));
    assert HasText(key, rest)[0] == 'h';
    UnaryIsMember(HasText(key, rest));
  }

  lemma MemberField(key: string, rest: string)
    requires IsPath(key) && rest != "" && rest[0] == ' '
    ensures ParseMember(key + rest) == Some((Field(key), rest))
  {
    PathNotEmpty(key);
    RunExact(key, rest, IsPathChar);
    assert (key + rest)[..|key|] == key && (key + rest)[|key|..] == rest;
  }

  lemma UnaryIsMember(s: string)
    requires s != "" && IsPathChar(s[0])
    ensures ParseUnary(s) == ParseMember(s)
  {
  }

  lemma UnaryIsRelation(s: string, tree: Expr, rest: string)
    requires ParseUnary(s) == Some((tree, rest)) && Stops(rest)
    ensures ParseRelation(s) == Some((tree, rest))
  {
    StopsSkip(rest);
  }

  lemma NegatedUnary(s: string, tree: Expr, rest: string)
    requires ParseUnary(s) == Some((tree, rest))
    ensures ParseUnary("!" + s) == Some((Not(tree), rest))
  {
    Cut("!", s);
  }

  // A relation sign between single spaces, then a text.
  lemma SignedTail(e: Expr, s: string, sign: char)
    requires |s| >= 4 && s[0] == ' ' && s[1] == sign && s[2] == '=' && s[3] == ' ' && sign in "=!"
    ensures RelationTail(e, s) ==
            match ParseText(s[4..])
            case None => None
            case Some((value, rest)) => Some((if sign == '=' then Equal(e, value) else Unequal(e, value), rest))
  {
    var t := s[1..];
    assert Skip(s) == Skip(t) == t;
    assert t[..2] == [sign, '='];
    assert t[2..] == s[3..] && s[3..][1..] == s[4..];
    assert ParseText(s[3..]) == ParseText(s[4..]);
  }

  lemma MemberReads(s: string, key: string, tail: string)
    requires IsPath(key) && s == key + tail
    ensures ParseUnary(s) == ParseMember(s)
  {
    PathNotEmpty(key);
    assert s[0] == key[0];
    UnaryIsMember(s);
  }

  lemma ContainsUnary(key: string, value: string, rest: string)
    requires IsPath(key) && IsText(value)
    ensures ParseUnary(ContainsText(key, value, rest)) == Some((FieldContains(key, value), rest))
  {
    var call := "(" + (Quoted(value) + (")" + rest));
    assert key + CONTAINS + call == key + (CONTAINS + call);
    MemberReads(ContainsText(key, value, rest), key, CONTAINS + call);
    MemberContains(key, value, rest);
  }

  lemma ContainsReads(key: string, value: string, negated: bool, rest: string)
    requires IsPath(key) && IsText(value) && Stops(rest)
    ensures ParseRelation(Written(Contains(key, value), negated) + rest) ==
            Some((Tree(Contains(key, value), negated), rest))
  {
    WrittenContains(key, value, negated, rest);
    ContainsUnary(key, value, rest);
    if negated {
      NegatedUnary(ContainsText(key, value, rest), FieldContains(key, value), rest);
      UnaryIsRelation("!" + ContainsText(key, value, rest), Not(FieldContains(key, value)), rest);
    } else {
      UnaryIsRelation(ContainsText(key, value, rest), FieldContains(key, value), rest);
    }
  }

  lemma EqualsReads(key: string, value: string, negated: bool, rest: string)
    requires IsPath(key) && IsText(value)
    ensures ParseRelation(Written(Equals(key, value), negated) + rest) ==
            Some((Tree(Equals(key, value), negated), rest))
  {
    var sign := if negated then " != " else " == ";
    var tail := sign + (Quoted(value) + rest);
    Regroup(key + sign, Quoted(value), rest);
    Regroup(key, sign, Quoted(value) + rest);
    FieldUnary(key, tail);
    Cut(sign, Quoted(value) + rest);
    SignedTail(Field(key), tail, if negated then '!' else '=');
    ReadText(value, rest);
  }

  lemma FieldUnary(key: string, tail: string)
    requires IsPath(key) && tail != "" && tail[0] == ' '
    ensures ParseUnary(key + tail) == Some((Field(key), tail))
  {
    MemberReads(key + tail, key, tail);
    MemberField(key, tail);
  }

  lemma HasReads(key: string, negated: bool, rest: string)
    requires IsSelection(key) && Stops(rest)
    ensures ParseRelation(Written(Has(key), negated) + rest) == Some((HasField(key), rest))
  {
    HasTextIs(key, rest);
    UnaryHas(key, rest);
    HasCall(key, rest);
    UnaryIsRelation(HasText(key, rest), HasField(key), rest);
  }

  lemma WrittenReads(q: Question, negated: bool)
    requires Readable(q)
    ensures Reads(Written(q, negated), Tree(q, negated))
  {
    forall rest | Stops(rest) ensures ParseRelation(Written(q, negated) + rest) == Some((Tree(q, negated), rest)) {
      match q
      case Contains(key, value) => ContainsReads(key, value, negated, rest);
      case Equals(key, value) => EqualsReads(key, value, negated, rest);
      case Has(key) => HasReads(key, negated, rest);
    }
  }

  // -- chains of clauses --

  // What follows the first of several joined texts.
  ghost function Chain(sep: string, texts: seq<string>): string {
    if texts == [] then "" else sep + (texts[0] + Chain(sep, texts[1..]))
  }

  lemma {:induction false} JoinIsChain(sep: string, first: string, texts: seq<string>)
    ensures Join(sep, [first] + texts) == first + Chain(sep, texts)
    decreases |texts|
  {
    if texts != [] {
      JoinIsChain(sep, texts[0], texts[1..]);
      assert ([first] + texts)[1..] == texts == [texts[0]] + texts[1..];
    }
  }

  ghost predicate ReadsAll(texts: seq<string>, trees: seq<Expr>) {
    |texts| == |trees| && (texts == [] || (Reads(texts[0], trees[0]) && ReadsAll(texts[1..], trees[1..])))
  }

  ghost function AndAll(first: Expr, trees: seq<Expr>): Expr
    decreases |trees|
  {
    if trees == [] then first else AndAll(And(first, trees[0]), trees[1..])
  }

  ghost function OrAll(first: Expr, trees: seq<Expr>): Expr
    decreases |trees|
  {
    if trees == [] then first else OrAll(Or(first, trees[0]), trees[1..])
  }

  // The end of a group, or of the text.
  ghost predicate Closes(rest: string) {
    rest == "" || rest[0] == ')'
  }

  lemma AfterSpace(s: string)
    requires s != "" && s[0] == ' '
    ensures ParseRelation(s) == ParseRelation(s[1..]) && ParseAnd(s) == ParseAnd(s[1..])
  {
  }

  lemma TailEnds(left: Expr, rest: string)
    requires Closes(rest)
    ensures AndTail(left, rest) == OrTail(left, rest) == Some((left, rest))
  {
  }

  lemma AndStep(left: Expr, s: string, tree: Expr, tail: string)
    requires |s| >= 4 && s[..4] == " && " && ParseRelation(s[4..]) == Some((tree, tail))
    ensures AndTail(left, s) == AndTail(And(left, tree), tail)
  {
    StopsSkip(s);
    assert s[1..][2..] == s[3..] && s[3..][1..] == s[4..] && s[3] == s[..4][3];
    AfterSpace(s[3..]);
  }

  lemma OrStep(left: Expr, s: string, tree: Expr, tail: string)
    requires |s| >= 4 && s[..4] == " || " && ParseAnd(s[4..]) == Some((tree, tail))
    ensures OrTail(left, s) == OrTail(Or(left, tree), tail)
  {
    StopsSkip(s);
    assert s[1..][2..] == s[3..] && s[3..][1..] == s[4..] && s[3] == s[..4][3];
    AfterSpace(s[3..]);
  }

  // "&&" does not go on at " || ".
  lemma AndTailStops(left: Expr, s: string)
    requires |s| >= 4 && s[..4] == " || "
    ensures AndTail(left, s) == Some((left, s))
  {
    StopsSkip(s);
    assert s[1] == s[..4][1];
    assert s[1..][..2] == s[..4][1..3];
  }

  lemma ChainCut(sep: string, texts: seq<string>, rest: string)
    requires texts != [] && |sep| == 4
    ensures var s, tail := Chain(sep, texts) + rest, Chain(sep, texts[1..]) + rest;
            |s| >= 4 && s[..4] == sep && s[4..] == texts[0] + tail
  {
    var s, tail := Chain(sep, texts) + rest, Chain(sep, texts[1..]) + rest;
    assert s == sep + (texts[0] + tail);
    Cut(sep, texts[0] + tail);
  }

  lemma ChainStops(sep: string, texts: seq<string>, rest: string)
    requires sep in [" && ", " || "] && Closes(rest)
    ensures Stops(Chain(sep, texts) + rest)
  {
    if texts == [] {
      assert Chain(sep, texts) + rest == rest;
    } else {
      ChainCut(sep, texts, rest);
    }
  }

  lemma {:induction false} ReadAndChain(left: Expr, texts: seq<string>, trees: seq<Expr>, rest: string)
    requires ReadsAll(texts, trees) && Closes(rest)
    ensures AndTail(left, Chain(" && ", texts) + rest) == Some((AndAll(left, trees), rest))
    decreases |texts|
  {
    if texts == [] {
      assert Chain(" && ", texts) + rest == rest;
      TailEnds(left, rest);
    } else {
      var s, tail := Chain(" && ", texts) + rest, Chain(" && ", texts[1..]) + rest;
      ChainCut(" && ", texts, rest);
      ChainStops(" && ", texts[1..], rest);
      AndStep(left, s, trees[0], tail);
      ReadAndChain(And(left, trees[0]), texts[1..], trees[1..], rest);
    }
  }

  lemma ReadOperand(text: string, tree: Expr, texts: seq<string>, rest: string)
    requires Reads(text, tree) && Closes(rest)
    ensures ParseAnd(text + (Chain(" || ", texts) + rest)) == Some((tree, Chain(" || ", texts) + rest))
  {
    ChainStops(" || ", texts, rest);
    if texts == [] {
      assert Chain(" || ", texts) + rest == rest;
      TailEnds(tree, rest);
    } else {
      ChainCut(" || ", texts, rest);
      AndTailStops(tree, Chain(" || ", texts) + rest);
    }
  }

  lemma {:induction false} ReadOrChain(left: Expr, texts: seq<string>, trees: seq<Expr>, rest: string)
    requires ReadsAll(texts, trees) && Closes(rest)
    ensures OrTail(left, Chain(" || ", texts) + rest) == Some((OrAll(left, trees), rest))
    decreases |texts|
  {
    if texts == [] {
      assert Chain(" || ", texts) + rest == rest;
      TailEnds(left, rest);
    } else {
      var s, tail := Chain(" || ", texts) + rest, Chain(" || ", texts[1..]) + rest;
      ChainCut(" || ", texts, rest);
      ReadOperand(texts[0], trees[0], texts[1..], rest);
      OrStep(left, s, trees[0], tail);
      ReadOrChain(Or(left, trees[0]), texts[1..], trees[1..], rest);
    }
  }

  lemma JoinCut(sep: string, texts: seq<string>, rest: string)
    requires texts != []
    ensures Join(sep, texts) + rest == texts[0] + (Chain(sep, texts[1..]) + rest)
  {
    assert texts == [texts[0]] + texts[1..];
    JoinIsChain(sep, texts[0], texts[1..]);
  }

  lemma ReadConjunction(texts: seq<string>, trees: seq<Expr>, rest: string)
    requires texts != [] && ReadsAll(texts, trees) && Closes(rest)
    ensures ParseOr(Join(" && ", texts) + rest) == Some((AndAll(trees[0], trees[1..]), rest))
  {
    JoinCut(" && ", texts, rest);
    ChainStops(" && ", texts[1..], rest);
    ReadAndChain(trees[0], texts[1..], trees[1..], rest);
    TailEnds(AndAll(trees[0], trees[1..]), rest);
  }

  lemma ReadDisjunction(texts: seq<string>, trees: seq<Expr>, rest: string)
    requires texts != [] && ReadsAll(texts, trees) && Closes(rest)
    ensures ParseOr(Join(" || ", texts) + rest) == Some((OrAll(trees[0], trees[1..]), rest))
  {
    JoinCut(" || ", texts, rest);
    ReadOperand(texts[0], trees[0], texts[1..], rest);
    ReadOrChain(trees[0], texts[1..], trees[1..], rest);
  }

  ghost function Joined(exclude: bool, trees: seq<Expr>): Expr
    requires trees != []
  {
    if exclude then AndAll(trees[0], trees[1..]) else OrAll(trees[0], trees[1..])
  }

  lemma GroupReads(texts: seq<string>, trees: seq<Expr>, exclude: bool)
    requires texts != [] && ReadsAll(texts, trees)
    ensures Reads("(" + Join(Connective(exclude), texts) + ")", Joined(exclude, trees))
  {
    var inner := Join(Connective(exclude), texts);
    forall rest | Stops(rest) ensures ParseRelation("(" + inner + ")" + rest) == Some((Joined(exclude, trees), rest)) {
      if exclude {
        ReadConjunction(texts, trees, ")" + rest);
      } else {
        ReadDisjunction(texts, trees, ")" + rest);
      }
      Parenthesised(inner, Joined(exclude, trees), rest);
    }
  }

  lemma Parenthesised(inner: string, tree: Expr, rest: string)
    requires ParseOr(inner + (")" + rest)) == Some((tree, ")" + rest)) && Stops(rest)
    ensures ParseRelation("(" + inner + ")" + rest) == Some((tree, rest))
  {
    var s := "(" + (inner + (")" + rest));
    assert "(" + inner + ")" + rest == s;
    Cut("(", inner + (")" + rest));
    Cut(")", rest);
    UnaryIsRelation(s, tree, rest);
  }

  // -- meaning --

  ghost function Evals(trees: seq<Expr>, event: Event): (truths: seq<Truth>)
    ensures |truths| == |trees| && forall i :: 0 <= i < |trees| ==> truths[i] == Eval(trees[i], event)
  {
    seq(|trees|, i requires 0 <= i < |trees| => Eval(trees[i], event))
  }

  lemma {:induction false} EvalAndAll(first: Expr, trees: seq<Expr>, event: Event)
    ensures Eval(AndAll(first, trees), event) == Conjunction(Eval(first, event), AllOf(Evals(trees, event)))
    decreases |trees|
  {
    if trees != [] {
      EvalAndAll(And(first, trees[0]), trees[1..], event);
      assert Evals(trees, event)[1..] == Evals(trees[1..], event);
    }
  }

  lemma {:induction false} EvalOrAll(first: Expr, trees: seq<Expr>, event: Event)
    ensures Eval(OrAll(first, trees), event) == Disjunction(Eval(first, event), AnyOf(Evals(trees, event)))
    decreases |trees|
  {
    if trees != [] {
      EvalOrAll(Or(first, trees[0]), trees[1..], event);
      assert Evals(trees, event)[1..] == Evals(trees[1..], event);
    }
  }

  // De Morgan, over any number of alternatives and with errors.
  lemma {:induction false} AllNegated(negated: seq<Truth>, plain: seq<Truth>)
    requires |negated| == |plain| && forall i :: 0 <= i < |plain| ==> negated[i] == Negation(plain[i])
    ensures AllOf(negated) == Negation(AnyOf(plain))
  {
    if plain != [] {
      AllNegated(negated[1..], plain[1..]);
    }
  }

  ghost function Trees(questions: seq<Question>, exclude: bool): (trees: seq<Expr>)
    ensures |trees| == |questions| && forall i :: 0 <= i < |trees| ==> trees[i] == Tree(questions[i], exclude)
  {
    seq(|questions|, i requires 0 <= i < |questions| => Tree(questions[i], exclude))
  }

  ghost function Answers(questions: seq<Question>, event: Event): (truths: seq<Truth>)
    ensures |truths| == |questions| && forall i :: 0 <= i < |truths| ==> truths[i] == event(questions[i])
  {
    seq(|questions|, i requires 0 <= i < |questions| => event(questions[i]))
  }

  lemma EvalTree(q: Question, negated: bool, event: Event)
    requires !q.IsTrue?
    ensures Eval(Tree(q, negated), event) == if q.Has? then event(q) else Signed(negated, event(q))
  {
    if q.Contains? && negated {
      assert Eval(FieldContains(q.key, q.value), event) == event(q);
    }
  }

  // A group of comparisons means "one of them", or "none of them" when excluded.
  lemma EvalGroup(questions: seq<Question>, exclude: bool, event: Event)
    requires questions != [] && forall q :: q in questions ==> q.Contains? || q.Equals?
    ensures Eval(Joined(exclude, Trees(questions, exclude)), event) == Signed(exclude, AnyOf(Answers(questions, event)))
  {
    var trees, answers := Trees(questions, exclude), Answers(questions, event);
    var truths := Evals(trees, event);
    EvalAndAll(trees[0], trees[1..], event);
    EvalOrAll(trees[0], trees[1..], event);
    assert Evals(trees[1..], event) == truths[1..];
    forall i | 0 <= i < |questions| ensures truths[i] == Signed(exclude, answers[i]) {
      assert questions[i] in questions;
      EvalTree(questions[i], exclude, event);
    }
    if exclude {
      AllNegated(truths, answers);
    } else {
      assert truths == answers;
    }
  }

  // What the texts need in order to be readable: field paths for keys, and values without quotes,
  // backslashes or line ends.
  predicate Printable(f: Filter) {
    IsPath(f.key) && IsText(if IsRegex(f.value) then Body(f.value) else f.value)
  }

  // `has` asks for a field of something, so the key of a ".*" has to have a dot.
  predicate Selects(f: Filter) {
    FormOf(f.value).Anything? ==> '.' in f.key
  }

  ghost function Questions(key: string, values: seq<string>): (questions: seq<Question>)
    ensures |questions| == |values| && forall i :: 0 <= i < |values| ==> questions[i] == Match(key, values[i])
  {
    seq(|values|, i requires 0 <= i < |values| => Match(key, values[i]))
  }

  // The tree a clause is read as.
  ghost function ClauseTree(f: Filter): Expr
    requires !FormOf(f.value).Unsupported?
  {
    match FormOf(f.value)
    case Exactly(v) => Tree(Match(f.key, v), f.exclude)
    case OneOf(vs) => Joined(f.exclude, Trees(Questions(f.key, vs), f.exclude))
    case Anything => HasField(f.key)
    case Blank => Tree(Equals(f.key, ""), f.exclude)
    case Containing(v) => Tree(Contains(f.key, v), f.exclude)
  }

  lemma {:induction false} TextOfParts(s: string, sep: string)
    requires sep != "" && IsText(s)
    ensures forall part :: part in Split(s, sep) ==> IsText(part)
  {
    if Occurs(s, sep) {
      TextOfParts(s[Find(s, sep) + |sep|..], sep);
    }
  }

  lemma AlternativeIsText(part: string)
    requires IsText(part)
    ensures IsText(Alternative(part))
  {
    var t := Alternative(part);
    forall i | 0 <= i < |t| ensures IsTextChar(t[i]) {
      assert t[i] in t && t[i] in part;
    }
  }

  lemma {:induction false} AlternativesAreText(parts: seq<string>)
    requires forall part :: part in parts ==> IsText(part)
    ensures forall v :: v in Alternatives(parts) ==> IsText(v)
  {
    if parts != [] {
      assert parts[0] in parts && forall part :: part in parts[1..] ==> part in parts;
      AlternativeIsText(parts[0]);
      AlternativesAreText(parts[1..]);
    }
  }

  lemma {:induction false} WrittenAllReads(key: string, values: seq<string>, exclude: bool)
    requires IsPath(key) && forall v :: v in values ==> IsText(v)
    ensures ReadsAll(WrittenAll(key, values, exclude), Trees(Questions(key, values), exclude))
  {
    if values != [] {
      assert values[0] in values && forall v :: v in values[1..] ==> v in values;
      var first := Match(key, values[0]);
      var texts, trees := WrittenAll(key, values[1..], exclude), Trees(Questions(key, values[1..]), exclude);
      WrittenReads(first, exclude);
      WrittenAllReads(key, values[1..], exclude);
      ReadsOneMore(Written(first, exclude), Tree(first, exclude), texts, trees);
      FirstOfAll(key, values, exclude);
    }
  }

  lemma FirstOfAll(key: string, values: seq<string>, exclude: bool)
    requires values != []
    ensures WrittenAll(key, values, exclude) ==
            [Written(Match(key, values[0]), exclude)] + WrittenAll(key, values[1..], exclude)
    ensures Trees(Questions(key, values), exclude) ==
            [Tree(Match(key, values[0]), exclude)] + Trees(Questions(key, values[1..]), exclude)
  {
  }

  lemma OneReads(q: Question, exclude: bool)
    requires Readable(q)
    ensures Reads("(" + Written(q, exclude) + ")", Tree(q, exclude))
  {
    WrittenReads(q, exclude);
    GroupReads([Written(q, exclude)], [Tree(q, exclude)], exclude);
  }

  lemma ContainedIsText(body: string)
    requires IsText(body) && FormOfBody(body).Containing?
    ensures IsText(FormOfBody(body).value)
  {
    var v := FormOfBody(body).value;
    forall i | 0 <= i < |v| ensures IsTextChar(v[i]) {
      assert v[i] in v && v[i] in body;
    }
  }

  lemma ClauseReads(f: Filter)
    requires Printable(f) && Selects(f) && Clause(f).Some?
    ensures Reads(Clause(f).value, ClauseTree(f))
  {
    match FormOf(f.value)
    case Exactly(v) => WrittenReads(Match(f.key, v), f.exclude);
    case OneOf(vs) =>
      TextOfParts(Body(f.value), "|");
      AlternativesAreText(Split(Body(f.value), "|"));
      WrittenAllReads(f.key, vs, f.exclude);
      GroupReads(WrittenAll(f.key, vs, f.exclude), Trees(Questions(f.key, vs), f.exclude), f.exclude);
    case Anything => OneReads(Has(f.key), f.exclude);
    case Blank => OneReads(Equals(f.key, ""), f.exclude);
    case Containing(v) =>
      ContainedIsText(Body(f.value));
      OneReads(Contains(f.key, v), f.exclude);
  }

  lemma ClauseMeans(f: Filter, event: Event)
    requires Clause(f).Some?
    ensures Eval(ClauseTree(f), event) == Meaning(f, event)
  {
    match FormOf(f.value)
    case OneOf(vs) =>
      var questions := Questions(f.key, vs);
      EvalGroup(questions, f.exclude, event);
      assert Answers(questions, event) == Matches(f.key, vs, event);
    case _ =>
  }

  ghost function ClauseTrees(filters: seq<Filter>): seq<Expr>
    requires Clauses(filters).Some?
  {
    if filters == [] then []
    else if !WellFormed(filters[0]) then ClauseTrees(filters[1..])
    else [ClauseTree(filters[0])] + ClauseTrees(filters[1..])
  }

  lemma {:induction false} ClausesRead(filters: seq<Filter>)
    requires Clauses(filters).Some? && forall f :: f in filters && WellFormed(f) ==> Printable(f) && Selects(f)
    ensures ReadsAll(Clauses(filters).value, ClauseTrees(filters))
  {
    if filters != [] {
      assert filters[0] in filters && forall f :: f in filters[1..] ==> f in filters;
      ClausesRead(filters[1..]);
      if WellFormed(filters[0]) {
        ClauseReads(filters[0]);
        ReadsOneMore(Clause(filters[0]).value, ClauseTree(filters[0]),
                     Clauses(filters[1..]).value, ClauseTrees(filters[1..]));
      }
    }
  }

  lemma ReadsOneMore(text: string, tree: Expr, texts: seq<string>, trees: seq<Expr>)
    requires Reads(text, tree) && ReadsAll(texts, trees)
    ensures ReadsAll([text] + texts, [tree] + trees)
  {
  }

  lemma {:induction false} ClausesMean(filters: seq<Filter>, event: Event)
    requires Clauses(filters).Some?
    ensures Evals(ClauseTrees(filters), event) == Meanings(filters, event)
  {
    if filters != [] {
      ClausesMean(filters[1..], event);
      if WellFormed(filters[0]) {
        ClauseMeans(filters[0], event);
      }
    }
  }

  // The translation of the filters, parsed as CEL, holds of an event exactly as all the well-formed
  // filters together do.
  lemma TranslationMeans(filters: seq<Filter>, event: Event)
    requires Translation(filters).Some? && exists f :: f in filters && WellFormed(f)
    requires forall f :: f in filters && WellFormed(f) ==> Printable(f) && Selects(f)
    ensures Parse(Translation(filters).value).Some?
    ensures EvalText(Translation(filters).value, event) == AllOf(Meanings(filters, event))
  {
    var texts, trees := Clauses(filters).value, ClauseTrees(filters);
    ClausesRead(filters);
    ClausesMean(filters, event);
    SomeClause(filters);
    ReadConjunction(texts, trees, "");
    assert Join(" && ", texts) + "" == Join(" && ", texts);
    EvalAndAll(trees[0], trees[1..], event);
    assert Evals(trees, event)[1..] == Evals(trees[1..], event);
  }

  // -- a text that is no CEL --

  // Nothing can be read at the start of the text, whatever follows it.
  ghost predicate Fails(text: string) {
    forall rest :: Stops(rest) ==> ParseRelation(text + rest) == None
  }

  lemma NoneUp(s: string)
    requires ParseUnary(s) == None
    ensures ParseRelation(s) == None && ParseAnd(s) == None && ParseOr(s) == None
  {
  }

  lemma ParenthesesFail(inner: string)
    requires ParseOr(inner) == None
    ensures ParseUnary("(" + inner) == None
  {
    Cut("(", inner);
  }

  lemma GroupedHasIs(key: string, rest: string)
    ensures "(" + ("has(" + key + ")") + ")" + rest == "(" + HasText(key, ")" + rest)
  {
    var call := "has(" + key + ")";
    Regroup("(" + call, ")", rest);
    Regroup("(", call, ")" + rest);
    HasTextIs(key, ")" + rest);
  }

  lemma BareHasFails(key: string)
    requires IsPath(key) && '.' !in key
    ensures Fails("(" + ("has(" + key + ")") + ")")
  {
    forall rest | Stops(rest) ensures ParseRelation("(" + ("has(" + key + ")") + ")" + rest) == None {
      var inner := HasText(key, ")" + rest);
      GroupedHasIs(key, rest);
      UnaryHas(key, ")" + rest);
      HasCall(key, ")" + rest);
      NoneUp(inner);
      ParenthesesFail(inner);
      NoneUp("(" + inner);
    }
  }

  lemma ClauseFails(f: Filter)
    requires Printable(f) && !Selects(f)
    ensures Clause(f).Some? && Fails(Clause(f).value)
  {
    BareHasFails(f.key);
  }

  lemma AndStepFails(left: Expr, s: string)
    requires |s| >= 4 && s[..4] == " && " && ParseRelation(s[4..]) == None
    ensures AndTail(left, s) == None
  {
    StopsSkip(s);
    assert s[1..][2..] == s[3..] && s[3..][1..] == s[4..] && s[3] == s[..4][3];
    AfterSpace(s[3..]);
  }

  ghost predicate AllSelect(filters: seq<Filter>) {
    forall f :: f in filters && WellFormed(f) ==> Selects(f)
  }

  lemma ChainReadsOn(left: Expr, texts: seq<string>, tree: Expr)
    requires texts != [] && Reads(texts[0], tree)
    ensures AndTail(left, Chain(" && ", texts)) == AndTail(And(left, tree), Chain(" && ", texts[1..]))
  {
    var s, tail := Chain(" && ", texts), Chain(" && ", texts[1..]);
    assert s + "" == s && tail + "" == tail;
    ChainCut(" && ", texts, "");
    ChainStops(" && ", texts[1..], "");
    AndStep(left, s, tree, tail);
  }

  lemma ChainFailsHere(left: Expr, texts: seq<string>)
    requires texts != [] && Fails(texts[0])
    ensures AndTail(left, Chain(" && ", texts)) == None
  {
    var s, tail := Chain(" && ", texts), Chain(" && ", texts[1..]);
    assert s + "" == s && tail + "" == tail;
    ChainCut(" && ", texts, "");
    ChainStops(" && ", texts[1..], "");
    AndStepFails(left, s);
  }

  // The first clause of a list, which reads as some tree or fails, and the others.
  lemma FirstClause(filters: seq<Filter>) returns (text: string, tree: Expr, others: seq<string>)
    requires filters != [] && WellFormed(filters[0]) && Printable(filters[0]) && Clauses(filters).Some?
    ensures Clauses(filters) == Some([text] + others) && Clauses(filters[1..]) == Some(others)
    ensures if Selects(filters[0]) then Reads(text, tree) else Fails(text)
  {
    text, tree, others := Clause(filters[0]).value, Field(""), Clauses(filters[1..]).value;
    if Selects(filters[0]) {
      tree := ClauseTree(filters[0]);
      ClauseReads(filters[0]);
    } else {
      ClauseFails(filters[0]);
    }
  }

  ghost predicate AllPrintable(filters: seq<Filter>) {
    forall f :: f in filters && WellFormed(f) ==> Printable(f)
  }

  lemma TheRest(filters: seq<Filter>)
    requires AllPrintable(filters) && !AllSelect(filters)
    ensures filters != [] && AllPrintable(filters[1..])
    ensures WellFormed(filters[0]) ==> Printable(filters[0])
    ensures !WellFormed(filters[0]) || Selects(filters[0]) ==> !AllSelect(filters[1..])
  {
    assert filters == [filters[0]] + filters[1..];
  }

  lemma {:induction false} ChainFails(left: Expr, filters: seq<Filter>)
    requires Clauses(filters).Some? && AllPrintable(filters) && !AllSelect(filters)
    ensures AndTail(left, Chain(" && ", Clauses(filters).value)) == None
    decreases |filters|
  {
    TheRest(filters);
    if !WellFormed(filters[0]) {
      ChainFails(left, filters[1..]);
    } else {
      var text, tree, others := FirstClause(filters);
      assert ([text] + others)[1..] == others;
      if Selects(filters[0]) {
        ChainReadsOn(left, [text] + others, tree);
        ChainFails(And(left, tree), filters[1..]);
      } else {
        ChainFailsHere(left, [text] + others);
      }
    }
  }

  lemma NotParsed(s: string)
    requires ParseAnd(s) == None
    ensures Parse(s) == None
  {
  }

  lemma AndTailFails(s: string, tree: Expr, tail: string)
    requires ParseRelation(s) == Some((tree, tail)) && AndTail(tree, tail) == None
    ensures Parse(s) == None
  {
    NotParsed(s);
  }

  lemma JoinReadsOn(texts: seq<string>, tree: Expr)
    requires texts != [] && Reads(texts[0], tree) && AndTail(tree, Chain(" && ", texts[1..])) == None
    ensures Parse(Join(" && ", texts)) == None
  {
    var tail := Chain(" && ", texts[1..]);
    JoinSplit(texts);
    AndTailFails(texts[0] + tail, tree, tail);
  }

  lemma JoinSplit(texts: seq<string>)
    requires texts != []
    ensures Join(" && ", texts) == texts[0] + Chain(" && ", texts[1..]) && Stops(Chain(" && ", texts[1..]))
  {
    var tail := Chain(" && ", texts[1..]);
    JoinCut(" && ", texts, "");
    ChainStops(" && ", texts[1..], "");
    assert Join(" && ", texts) + "" == Join(" && ", texts) && tail + "" == tail;
  }

  lemma JoinFailsHere(texts: seq<string>)
    requires texts != [] && Fails(texts[0])
    ensures Parse(Join(" && ", texts)) == None
  {
    JoinSplit(texts);
    RelationFails(texts[0] + Chain(" && ", texts[1..]));
  }

  lemma RelationFails(s: string)
    requires ParseRelation(s) == None
    ensures Parse(s) == None
  {
    NotParsed(s);
  }

  lemma {:induction false} JoinFails(filters: seq<Filter>)
    requires Clauses(filters).Some? && AllPrintable(filters) && !AllSelect(filters)
    ensures Parse(Join(" && ", Clauses(filters).value)) == None
  {
    TheRest(filters);
    if !WellFormed(filters[0]) {
      JoinFails(filters[1..]);
    } else {
      var text, tree, others := FirstClause(filters);
      assert ([text] + others)[1..] == others;
      if Selects(filters[0]) {
        ChainFails(tree, filters[1..]);
        JoinReadsOn([text] + others, tree);
      } else {
        JoinFailsHere([text] + others);
      }
    }
  }

  // The text is CEL, and then holds of every event as the filters together do, exactly when every ".*" is on a key
  // with a dot: the translator writes `has(key)` for it, and `has` takes a field of something.
  lemma TranslationMeansIff(filters: seq<Filter>)
    requires Translation(filters).Some? && exists f :: f in filters && WellFormed(f)
    requires AllPrintable(filters)
    ensures Parse(Translation(filters).value).Some? <==> AllSelect(filters)
    ensures (forall event :: EvalText(Translation(filters).value, event) == AllOf(Meanings(filters, event)))
       <==> AllSelect(filters)
  {
    var event: Event := q => False;
    if AllSelect(filters) {
      TranslationMeans(filters, event);
      forall event ensures EvalText(Translation(filters).value, event) == AllOf(Meanings(filters, event)) {
        TranslationMeans(filters, event);
      }
    } else {
      JoinFails(filters);
      AbsentFieldIsFalse(filters, event);
      assert EvalText(Translation(filters).value, event) != AllOf(Meanings(filters, event));
    }
  }

  lemma {:induction false} AbsentFieldIsFalse(filters: seq<Filter>, event: Event)
    requires !AllSelect(filters) && forall q: Question :: event(q) == False
    ensures AllOf(Meanings(filters, event)) == False
  {
    var f, rest := filters[0], filters[1..];
    assert filters == [f] + rest;
    if !WellFormed(f) {
      AbsentFieldIsFalse(rest, event);
    } else {
      var first, others := Meaning(f, event), Meanings(rest, event);
      assert Meanings(filters, event) == [first] + others && ([first] + others)[1..] == others;
      if Selects(f) {
        AbsentFieldIsFalse(rest, event);
      }
    }
  }

  lemma {:induction false} SomeClause(filters: seq<Filter>)
    requires Clauses(filters).Some?
    ensures Clauses(filters).value == [] <==> forall f :: f in filters ==> !WellFormed(f)
  {
    if filters != [] {
      SomeClause(filters[1..]);
    }
  }

  // No text at all is what filters without a key or value turn into.
  lemma NothingToTranslate(filters: seq<Filter>)
    requires forall f :: f in filters ==> !WellFormed(f)
    ensures Translation(filters) == Some("")
  {
    OnlySupported(filters);
    SomeClause(filters);
  }

  // The translation is refused exactly when some well-formed filter has an unsupported expression.
  lemma {:induction false} OnlySupported(filters: seq<Filter>)
    ensures Clauses(filters).Some? <==> forall f :: f in filters && WellFormed(f) ==> !FormOf(f.value).Unsupported?
  {
    if filters != [] {
      OnlySupported(filters[1..]);
    }
  }

  function Flipped(f: Filter): Filter {
    f.(exclude := !f.exclude)
  }

  // Flipping the exclude flag negates the translated filter on every event, for every form but ".*"; where that
  // is no CEL at all, both fail.
  lemma FlippingNegatesIff(f: Filter)
    requires WellFormed(f) && Printable(f) && Translation([f]).Some?
    ensures Translation([Flipped(f)]).Some?
    ensures (forall event :: EvalText(Translation([Flipped(f)]).value, event)
                          == Negation(EvalText(Translation([f]).value, event)))
       <==> !FormOf(f.value).Anything? || !Selects(f)
  {
    var g := Flipped(f);
    OneClause(f);
    OneClause(g);
    if Selects(f) {
      forall event ensures EvalText(Translation([f]).value, event) == Meaning(f, event)
                   ensures EvalText(Translation([g]).value, event) == Meaning(g, event)
      {
        OneFilter(f, event);
        OneFilter(g, event);
      }
      FlippedMeaning(f);
    } else {
      assert f in [f] && g in [g];
      JoinFails([f]);
      JoinFails([g]);
    }
  }

  lemma FlippedMeaning(f: Filter)
    requires !FormOf(f.value).Unsupported?
    ensures (forall event :: Meaning(Flipped(f), event) == Negation(Meaning(f, event))) <==> !FormOf(f.value).Anything?
  {
    if FormOf(f.value).Anything? {
      var event: Event := q => True;
      assert Meaning(f, event) == Meaning(Flipped(f), event) == True;
    } else {
      forall event ensures Meaning(Flipped(f), event) == Negation(Meaning(f, event)) {}
    }
  }

  lemma OneClause(f: Filter)
    requires WellFormed(f)
    ensures Translation([f]) == Clause(f)
    ensures Clauses([f]) == if Clause(f).None? then None else Some([Clause(f).value])
  {
    var rest: seq<Filter> := [f][1..];
    assert rest == [] && Clauses(rest) == Some([]);
    assert Clause(f).Some? ==> [Clause(f).value] + [] == [Clause(f).value];
  }

  lemma OneFilter(f: Filter, event: Event)
    requires WellFormed(f) && Printable(f) && Selects(f) && Clause(f).Some?
    ensures Translation([f]).Some? && EvalText(Translation([f]).value, event) == Meaning(f, event)
  {
    assert f in [f] && [f][1..] == [];
    OneClause(f);
    TranslationMeans([f], event);
    assert Meanings([f], event) == [Meaning(f, event)];
    assert AllOf([Meaning(f, event)]) == Conjunction(Meaning(f, event), AllOf([]));
  }
}
