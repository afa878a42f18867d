/**
 The fragment of the Common Expression Language in which trigger filters are written: its syntax, with
 the precedence and the identifiers of the CEL specification (section "Syntax"), the argument `has` takes
 (section "Macros"), and its three-valued logic (section "Logical Operators"), in which an error is absorbed
 by a deciding operand.
 */
module Cel {
  import opened Options
  import opened Strings

  // -- values --

  datatype Truth = True | False | Error

  function Negation(a: Truth): Truth {
    match a
    case True => False
    case False => True
    case Error => Error
  }

  function Conjunction(a: Truth, b: Truth): Truth {
    if a == False || b == False then False
    else if a == Error || b == Error then Error
    else True
  }

  function Disjunction(a: Truth, b: Truth): Truth {
    if a == True || b == True then True
    else if a == Error || b == Error then Error
    else False
  }

  function AllOf(values: seq<Truth>): Truth {
    if values == [] then True else Conjunction(values[0], AllOf(values[1..]))
  }

  function AnyOf(values: seq<Truth>): Truth {
    if values == [] then False else Disjunction(values[0], AnyOf(values[1..]))
  }

  // What an expression can ask of an event; the answer may be an error, as for a missing field.
  datatype Question =
    | Contains(key: string, value: string)
    | Equals(key: string, value: string)
    | Has(key: string)
    | IsTrue(key: string)

  type Event = Question -> Truth

  datatype Expr =
    | Field(path: string)
    | HasField(path: string)
    | FieldContains(path: string, text: string)
    | Equal(left: Expr, text: string)
    | Unequal(left: Expr, text: string)
    | Not(arg: Expr)
    | And(l: Expr, r: Expr)
    | Or(l: Expr, r: Expr)

  function Eval(e: Expr, event: Event): Truth {
    match e
    case Field(path) => event(IsTrue(path))
    case HasField(path) => event(Has(path))
    case FieldContains(path, text) => event(Contains(path, text))
    case Equal(Field(path), text) => event(Equals(path, text))
    case Equal(_, _) => Error
    case Unequal(Field(path), text) => Negation(event(Equals(path, text)))
    case Unequal(_, _) => Error
    case Not(arg) => Negation(Eval(arg, event))
    case And(l, r) => Conjunction(Eval(l, event), Eval(r, event))
    case Or(l, r) => Disjunction(Eval(l, event), Eval(r, event))
  }

  // -- lexing --

  predicate IsSpace(c: char) {
    c in " \t\n\r\U{000C}"
  }

  function Skip(s: string): (rest: string)
    ensures |rest| <= |s|
    ensures s != "" && !IsSpace(s[0]) ==> rest == s
  {
    if s != "" && IsSpace(s[0]) then Skip(s[1..]) else s
  }

  predicate IsPathChar(c: char) {
    'a' <= c <= 'z' || 'A' <= c <= 'Z' || '0' <= c <= '9' || c == '_' || c == '.'
  }

  const KEYWORDS := ["true", "false", "null", "in"]

  // No identifier, though a field may be called so.
  const RESERVED := [
    "as", "break", "const", "continue", "else", "for", "function", "if", "import", "let", "loop", "package",
    "namespace", "return", "var", "void", "while"]

  // An identifier and the fields selected from it, joined by dots.
  predicate IsPath(s: string) {
    && (forall i :: 0 <= i < |s| ==> IsPathChar(s[i]))
    && (forall part :: part in Split(s, ".") ==> part != "" && !('0' <= part[0] <= '9') && part !in KEYWORDS)
    && Split(s, ".")[0] !in RESERVED
  }

  // The argument that `has` takes: a field of something.
  predicate IsSelection(s: string) {
    IsPath(s) && '.' in s
  }

  predicate IsTextChar(c: char) {
    c !in "\"\\\n\r"
  }

  predicate IsText(s: string) {
    forall i :: 0 <= i < |s| ==> IsTextChar(s[i])
  }

  function Run(s: string, p: char -> bool): (n: nat)
    ensures n <= |s| && (forall i :: 0 <= i < n ==> p(s[i])) && (n < |s| ==> !p(s[n]))
  {
    if s != "" && p(s[0]) then 1 + Run(s[1..], p) else 0
  }

  // -- parsing --

  type Parsed<T> = Option<(T, string)>

  function Character(s: string, c: char): (r: Option<string>)
    ensures r.Some? ==> |r.value| < |s|
  {
    var t := Skip(s);
    if t != "" && t[0] == c then Some(t[1..]) else None
  }

  function ParseText(s: string): (r: Parsed<string>)
    ensures r.Some? ==> |r.value.1| < |s|
  {
    match Character(s, '"')
    case None => None
    case Some(t) =>
      var n := Run(t, IsTextChar);
      if n < |t| && t[n] == '"' then Some((t[..n], t[n + 1..])) else None
  }

  // A field, `has(selection)` or `field.contains("text")`.
  function ParseMember(s: string): (r: Parsed<Expr>)
    ensures r.Some? ==> |r.value.1| < |s|
  {
    var n := Run(s, IsPathChar);
    var word, rest := s[..n], s[n..];
    if rest == "" || rest[0] != '(' then
      if n > 0 && IsPath(word) then Some((Field(word), rest)) else None
    else ParseCall(word, rest[1..])
  }

  function ParseCall(word: string, args: string): (r: Parsed<Expr>)
    ensures r.Some? ==> |r.value.1| < |args|
  {
    if word == "has" then ParseHas(args)
    else if EndsWith(word, CONTAINS) then ParseContains(word[..|word| - |CONTAINS|], args)
    else None
  }

  const CONTAINS := ".contains"

  function ParseHas(s: string): (r: Parsed<Expr>)
    ensures r.Some? ==> |r.value.1| < |s|
  {
    var t := Skip(s);
    var n := Run(t, IsPathChar);
    match Character(t[n..], ')')
    case None => None
    case Some(u) => if IsSelection(t[..n]) then Some((HasField(t[..n]), u)) else None
  }

  function ParseContains(path: string, s: string): (r: Parsed<Expr>)
    ensures r.Some? ==> |r.value.1| < |s|
  {
    match ParseText(s)
    case None => None
    case Some((text, t)) =>
      match Character(t, ')')
      case None => None
      case Some(u) => if IsPath(path) then Some((FieldContains(path, text), u)) else None
  }

  function ParseUnary(s: string): (r: Parsed<Expr>)
    ensures r.Some? ==> |r.value.1| < |s|
    decreases |s|, 0
  {
    var t := Skip(s);
    if t == "" then None
    else if t[0] == '!' then
      match ParseUnary(t[1..])
      case None => None
      case Some((e, rest)) => Some((Not(e), rest))
    else if t[0] == '(' then
      match ParseOr(t[1..])
      case None => None
      case Some((e, rest)) =>
        match Character(rest, ')')
        case None => None
        case Some(u) => Some((e, u))
    else ParseMember(t)
  }

  // A comparison with a text, if there is one.
  function RelationTail(left: Expr, s: string): (r: Parsed<Expr>)
    ensures r.Some? ==> |r.value.1| <= |s|
  {
    var t := Skip(s);
    if StartsWith(t, "==") then
      match ParseText(t[2..])
      case None => None
      case Some((text, rest)) => Some((Equal(left, text), rest))
    else if StartsWith(t, "!=") then
      match ParseText(t[2..])
      case None => None
      case Some((text, rest)) => Some((Unequal(left, text), rest))
    else Some((left, s))
  }

  function ParseRelation(s: string): (r: Parsed<Expr>)
    ensures r.Some? ==> |r.value.1| < |s|
    decreases |s|, 1
  {
    match ParseUnary(s)
    case None => None
    case Some((e, rest)) => RelationTail(e, rest)
  }

  function AndTail(left: Expr, s: string): (r: Parsed<Expr>)
    ensures r.Some? ==> |r.value.1| <= |s|
    decreases |s|, 2
  {
    var t := Skip(s);
    if StartsWith(t, "&&") then
      match ParseRelation(t[2..])
      case None => None
      case Some((right, rest)) => AndTail(And(left, right), rest)
    else Some((left, s))
  }

  function ParseAnd(s: string): (r: Parsed<Expr>)
    ensures r.Some? ==> |r.value.1| < |s|
    decreases |s|, 3
  {
    match ParseRelation(s)
    case None => None
    case Some((e, rest)) => AndTail(e, rest)
  }

  function OrTail(left: Expr, s: string): (r: Parsed<Expr>)
    ensures r.Some? ==> |r.value.1| <= |s|
    decreases |s|, 4
  {
    var t := Skip(s);
    if StartsWith(t, "||") then
      match ParseAnd(t[2..])
      case None => None
      case Some((right, rest)) => OrTail(Or(left, right), rest)
    else Some((left, s))
  }

  function ParseOr(s: string): (r: Parsed<Expr>)
    ensures r.Some? ==> |r.value.1| < |s|
    decreases |s|, 5
  {
    match ParseAnd(s)
    case None => None
    case Some((e, rest)) => OrTail(e, rest)
  }

  function Parse(s: string): Option<Expr> {
    match ParseOr(s)
    case None => None
    case Some((e, rest)) => if Skip(rest) == "" then Some(e) else None
  }

  // An expression that does not parse can only fail to evaluate.
  function EvalText(s: string, event: Event): Truth {
    match Parse(s)
    case None => Error
    case Some(e) => Eval(e, event)
  }
}
