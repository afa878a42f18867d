/**
 Placeholder substitution of src/searchengine/searchengine.py: the values of a parameter dictionary are
 put into a template one key at a time, the last key first.
 */
module SqlTemplate {
  import opened Options
  import opened Strings

  datatype Value = Text(text: string) | Other(printed: string) {
    // Strings are quoted, anything else is printed as it is.
    function Shown(): string {
      match this
      case Text(t) => "'" + t + "'"
      case Other(p) => p
    }
  }

  datatype Param = Param(key: string, value: Value)

  function Placeholder(key: string): string {
    ":" + key
  }

  // One replacement per parameter, from the last to the first.
  function Sequential(template: string, params: seq<Param>): string
    decreases |params|
  {
    if params == [] then template
    else
      var p := params[|params| - 1];
      Sequential(Replace(template, Placeholder(p.key), p.value.Shown()), params[..|params| - 1])
  }

  method CreateRawSql(template: string, params: seq<Param>) returns (sql: string)
    ensures sql == Sequential(template, params)
  {
    sql := template;
    var reversed := [];
    for i := 0 to |params|
      invariant |reversed| == i && forall j :: 0 <= j < i ==> reversed[j] == params[i - 1 - j]
    {
      reversed := [params[i]] + reversed;
    }
    assert params[..|params|] == params;
    for i := 0 to |reversed|
      invariant Sequential(sql, params[..|params| - i]) == Sequential(template, params)
    {
      var left := params[..|params| - i];
      assert reversed[i] == left[|left| - 1];
      assert left[..|left| - 1] == params[..|params| - (i + 1)];
      sql := Replace(sql, Placeholder(reversed[i].key), reversed[i].value.Shown());
    }
  }

  // -- the simultaneous reading of a template --

  predicate IsNameChar(c: char) {
    'a' <= c <= 'z' || 'A' <= c <= 'Z' || '0' <= c <= '9' || c == '_'
  }

  predicate IsName(s: string) {
    s != "" && forall i :: 0 <= i < |s| ==> IsNameChar(s[i])
  }

  datatype Piece = Plain(c: char) | Hole(name: string) | Filled(text: string)

  function Render(pieces: seq<Piece>): string {
    if pieces == [] then ""
    else
      (match pieces[0]
       case Plain(c) => [c]
       case Hole(name) => Placeholder(name)
       case Filled(text) => text) + Render(pieces[1..])
  }

  function NameLength(s: string): (n: nat)
    ensures n <= |s| && (forall i :: 0 <= i < n ==> IsNameChar(s[i])) && (n < |s| ==> !IsNameChar(s[n]))
  {
    if s != "" && IsNameChar(s[0]) then 1 + NameLength(s[1..]) else 0
  }

  // A ':' and the longest name after it make a hole.
  function Parse(template: string): seq<Piece> {
    if template == "" then []
    else if template[0] == ':' && NameLength(template[1..]) > 0 then
      var n := NameLength(template[1..]);
      [Hole(template[1..n + 1])] + Parse(template[n + 1..])
    else [Plain(template[0])] + Parse(template[1..])
  }

  function Lookup(params: seq<Param>, key: string): Option<Value> {
    if params == [] then None
    else if params[|params| - 1].key == key then Some(params[|params| - 1].value)
    else Lookup(params[..|params| - 1], key)
  }

  function FillAll(pieces: seq<Piece>, params: seq<Param>): seq<Piece> {
    if pieces == [] then []
    else
      var first := if pieces[0].Hole? && Lookup(params, pieces[0].name).Some?
                   then Filled(Lookup(params, pieces[0].name).value.Shown()) else pieces[0];
      [first] + FillAll(pieces[1..], params)
  }

  function Simultaneous(template: string, params: seq<Param>): string {
    Render(FillAll(Parse(template), params))
  }

  // -- what the two need in order to agree --

  predicate ColonFree(s: string) {
    ':' !in s
  }

  // A hole, and a lone ':', end at a character that can extend neither.
  predicate Clean(pieces: seq<Piece>) {
    pieces == [] || (
      && Clean(pieces[1..])
      && (pieces[0].Filled? ==> ColonFree(pieces[0].text))
      && (pieces[0].Hole? ==> IsName(pieces[0].name))
      && (pieces[0].Hole? || pieces[0] == Plain(':') ==>
            |pieces| == 1 || (pieces[1].Plain? && !IsNameChar(pieces[1].c)
                && (pieces[0].Hole? ==> pieces[1].c != ':'))))
  }

  predicate HolesIn(pieces: seq<Piece>, params: seq<Param>) {
    forall piece :: piece in pieces && piece.Hole? ==> Lookup(params, piece.name).Some?
  }

  predicate Fits(template: string, params: seq<Param>) {
    Clean(Parse(template)) && HolesIn(Parse(template), params)
  }

  predicate ProperPrefix(a: string, b: string) {
    |a| < |b| && b[..|a|] == a
  }

  // No later key is a proper prefix of an earlier one.
  predicate Ordered(keys: seq<string>) {
    forall i, j :: 0 <= i < j < |keys| ==> !ProperPrefix(keys[j], keys[i])
  }

  function Keys(params: seq<Param>): (keys: seq<string>)
    ensures |keys| == |params| && forall i :: 0 <= i < |keys| ==> keys[i] == params[i].key
  {
    seq(|params|, i requires 0 <= i < |params| => params[i].key)
  }

  predicate Usable(params: seq<Param>) {
    forall p :: p in params ==> IsName(p.key) && ColonFree(p.value.Shown())
  }

  // -- proofs --

  lemma RenderFirst(piece: Piece, rest: seq<Piece>)
    ensures Render([piece] + rest) == Render([piece]) + Render(rest)
  {
    var pieces := [piece] + rest;
    assert pieces[1..] == rest && [piece][1..] == [];
  }

  lemma ParseHole(template: string)
    requires template != "" && template[0] == ':' && NameLength(template[1..]) > 0
    ensures var n := NameLength(template[1..]);
            Parse(template) == [Hole(template[1..n + 1])] + Parse(template[n + 1..])
  {
    var n := NameLength(template[1..]);
    assert template[1..][..n] == template[1..n + 1] && template[1..][n..] == template[n + 1..];
  }

  lemma CutHole(template: string, n: nat)
    requires n < |template| && template[0] == ':'
    ensures template == Placeholder(template[1..n + 1]) + template[n + 1..]
  {
  }

  lemma ParsePlain(template: string)
    requires template != "" && !(template[0] == ':' && NameLength(template[1..]) > 0)
    ensures Parse(template) == [Plain(template[0])] + Parse(template[1..])
  {
  }

  lemma CutPlain(template: string)
    requires template != ""
    ensures template == [template[0]] + template[1..]
  {
  }

  lemma RenderOne(piece: Piece)
    ensures Render([piece]) ==
            match piece { case Hole(name) => Placeholder(name) case Plain(c) => [c] case Filled(t) => t }
  {
    assert [piece][1..] == [];
  }

  lemma {:induction false} RenderParse(template: string)
    ensures Render(Parse(template)) == template
  {
    if template == "" {
    } else if template[0] == ':' && NameLength(template[1..]) > 0 {
      var n := NameLength(template[1..]);
      ParseHole(template);
      RenderParse(template[n + 1..]);
      RenderFirst(Hole(template[1..n + 1]), Parse(template[n + 1..]));
      RenderOne(Hole(template[1..n + 1]));
      CutHole(template, n);
    } else {
      ParsePlain(template);
      RenderParse(template[1..]);
      RenderFirst(Plain(template[0]), Parse(template[1..]));
      RenderOne(Plain(template[0]));
      CutPlain(template);
    }
  }

  lemma {:induction false} SkipPlain(t: string, rest: string, key: string, with: string)
    requires ColonFree(t)
    ensures Replace(t + rest, Placeholder(key), with) == t + Replace(rest, Placeholder(key), with)
  {
    if t == "" {
      assert t + rest == rest;
    } else {
      assert (t + rest)[0] == t[0] != ':';
      assert (t + rest)[1..] == t[1..] + rest;
      SkipPlain(t[1..], rest, key, with);
    }
  }

  function Fill(pieces: seq<Piece>, key: string, text: string): seq<Piece> {
    if pieces == [] then []
    else [if pieces[0] == Hole(key) then Filled(text) else pieces[0]] + Fill(pieces[1..], key, text)
  }

  lemma AtHole(name: string, rest: string, key: string, text: string)
    requires IsName(name) && IsName(key) && !ProperPrefix(key, name)
    requires rest == "" || !IsNameChar(rest[0])
    ensures Replace(Placeholder(name) + rest, Placeholder(key), text)
         == (if name == key then text else Placeholder(name)) + Replace(rest, Placeholder(key), text)
  {
    var s := Placeholder(name) + rest;
    if name == key {
      assert s[..|Placeholder(key)|] == Placeholder(key) && s[|Placeholder(key)|..] == rest;
    } else {
      NoMatch(Placeholder(name), rest, key);
      assert s[1..] == name + rest;
      SkipPlain(name, rest, key, text);
    }
  }

  lemma AtPlain(c: char, rest: string, key: string, text: string)
    requires IsName(key) && (c == ':' ==> rest == "" || !IsNameChar(rest[0]))
    ensures Replace([c] + rest, Placeholder(key), text) == [c] + Replace(rest, Placeholder(key), text)
  {
    NoMatch([c], rest, key);
  }

  lemma CleanEnd(pieces: seq<Piece>)
    requires pieces != [] && Clean(pieces) && (pieces[0].Hole? || pieces[0] == Plain(':'))
    ensures Render(pieces[1..]) == "" || !IsNameChar(Render(pieces[1..])[0])
  {
  }

  // Replacing one key's placeholder fills exactly the holes of that key.
  lemma {:induction false} ReplaceFills(pieces: seq<Piece>, key: string, text: string)
    requires Clean(pieces) && IsName(key)
    requires forall piece :: piece in pieces && piece.Hole? ==> !ProperPrefix(key, piece.name)
    ensures Replace(Render(pieces), Placeholder(key), text) == Render(Fill(pieces, key, text))
  {
    if pieces != [] {
      var rest := Render(pieces[1..]);
      ReplaceFills(pieces[1..], key, text);
      match pieces[0]
      case Plain(c) =>
        if c == ':' {
          CleanEnd(pieces);
        }
        AtPlain(c, rest, key, text);
      case Filled(t) =>
        SkipPlain(t, rest, key, text);
      case Hole(name) =>
        CleanEnd(pieces);
        AtHole(name, rest, key, text);
    }
  }

  // A placeholder does not match where it stands for neither the key nor an extension of it.
  lemma NoMatch(head: string, rest: string, key: string)
    requires head != "" && IsName(key)
    requires head[0] == ':' ==>
             (rest == "" || !IsNameChar(rest[0])) && head[1..] != key && !ProperPrefix(key, head[1..])
    ensures !StartsWith(head + rest, Placeholder(key))
  {
    var s := head + rest;
    assert s[0] == head[0];
    if head[0] == ':' && |key| + 1 <= |s| {
      if |key| + 1 <= |head| {
        assert s[..|key| + 1][1..] == head[1..][..|key|];
      } else {
        assert s[..|key| + 1][|head|] == rest[0] && Placeholder(key)[|head|] == key[|head| - 1];
      }
    }
  }

  lemma {:induction false} FillKeepsClean(pieces: seq<Piece>, key: string, text: string)
    requires Clean(pieces) && ColonFree(text)
    ensures Clean(Fill(pieces, key, text))
  {
    if pieces != [] {
      FillKeepsClean(pieces[1..], key, text);
    }
  }

  lemma {:induction false} FillLeavesOthers(pieces: seq<Piece>, key: string, text: string)
    ensures forall piece :: piece in Fill(pieces, key, text) && piece.Hole? ==> piece in pieces && piece.name != key
  {
    if pieces != [] {
      FillLeavesOthers(pieces[1..], key, text);
    }
  }

  lemma {:induction false} FillLastFirst(pieces: seq<Piece>, params: seq<Param>)
    requires params != []
    ensures var p := params[|params| - 1];
            FillAll(Fill(pieces, p.key, p.value.Shown()), params[..|params| - 1]) == FillAll(pieces, params)
  {
    if pieces != [] {
      FillLastFirst(pieces[1..], params);
    }
  }

  lemma {:induction false} FillNothing(pieces: seq<Piece>)
    ensures FillAll(pieces, []) == pieces
  {
    if pieces != [] {
      FillNothing(pieces[1..]);
    }
  }

  lemma {:induction false} LookupIsKey(params: seq<Param>, key: string)
    ensures Lookup(params, key).Some? <==> key in Keys(params)
  {
    if params != [] {
      var before := params[..|params| - 1];
      LookupIsKey(before, key);
      assert Keys(params) == Keys(before) + [params[|params| - 1].key];
    }
  }

  lemma {:induction false} SequentialOnPieces(pieces: seq<Piece>, params: seq<Param>)
    requires Clean(pieces) && HolesIn(pieces, params)
    requires Usable(params) && Ordered(Keys(params))
    ensures Sequential(Render(pieces), params) == Render(FillAll(pieces, params))
    decreases |params|
  {
    if params == [] {
      FillNothing(pieces);
    } else {
      var before, p := params[..|params| - 1], params[|params| - 1];
      OrderedPrefix(params);
      HolesOutlastPrefixes(pieces, params);
      ReplaceFills(pieces, p.key, p.value.Shown());
      FillKeepsClean(pieces, p.key, p.value.Shown());
      HolesLeft(pieces, params);
      FillLastFirst(pieces, params);
      SequentialOnPieces(Fill(pieces, p.key, p.value.Shown()), before);
    }
  }

  lemma HolesOutlastPrefixes(pieces: seq<Piece>, params: seq<Param>)
    requires params != [] && HolesIn(pieces, params) && Ordered(Keys(params))
    ensures forall piece :: piece in pieces && piece.Hole? ==> !ProperPrefix(params[|params| - 1].key, piece.name)
  {
    forall piece | piece in pieces && piece.Hole? ensures !ProperPrefix(params[|params| - 1].key, piece.name) {
      LookupIsKey(params, piece.name);
      var i :| 0 <= i < |params| && Keys(params)[i] == piece.name;
      assert !ProperPrefix(Keys(params)[|params| - 1], Keys(params)[i]);
    }
  }

  lemma HolesLeft(pieces: seq<Piece>, params: seq<Param>)
    requires params != [] && HolesIn(pieces, params)
    ensures var p := params[|params| - 1];
            HolesIn(Fill(pieces, p.key, p.value.Shown()), params[..|params| - 1])
  {
    var p := params[|params| - 1];
    FillLeavesOthers(pieces, p.key, p.value.Shown());
  }

  lemma OrderedPrefix(params: seq<Param>)
    requires params != [] && Ordered(Keys(params)) && Usable(params)
    ensures var before := params[..|params| - 1]; Ordered(Keys(before)) && Usable(before)
    ensures IsName(params[|params| - 1].key) && ColonFree(params[|params| - 1].value.Shown())
  {
    var before := params[..|params| - 1];
    assert Keys(params) == Keys(before) + [params[|params| - 1].key];
    assert params[|params| - 1] in params && forall q :: q in before ==> q in params;
  }

  // Replacing one key at a time, the last first, is the simultaneous substitution.
  lemma SequentialIsSimultaneous(template: string, params: seq<Param>)
    requires Usable(params) && Fits(template, params)
    requires Ordered(Keys(params))
    ensures Sequential(template, params) == Simultaneous(template, params)
  {
    RenderParse(template);
    SequentialOnPieces(Parse(template), params);
  }

  // A lone placeholder becomes the quoted string, or any other value as it is printed.
  lemma OneValue(before: string, key: string, value: Value, after: string)
    requires ColonFree(before) && ColonFree(after)
    ensures Sequential(before + (":" + key) + after, [Param(key, value)]) ==
            if value.Text? then before + "'" + value.text + "'" + after else before + value.printed + after
  {
    var params := [Param(key, value)];
    FillsOne(before, key, value.Shown(), after);
    assert params[..0] == [];
    assert Sequential(before + (":" + key) + after, params) == before + value.Shown() + after;
  }

  lemma FillsOne(before: string, key: string, text: string, after: string)
    requires ColonFree(before) && ColonFree(after)
    ensures Replace(before + (":" + key) + after, Placeholder(key), text) == before + text + after
  {
    var rest := Placeholder(key) + after;
    assert before + (":" + key) + after == before + rest;
    SkipPlain(before, rest, key, text);
    Cut(Placeholder(key), after);
    SkipPlain(after, "", key, text);
    assert after + "" == after;
  }

  lemma Cut(a: string, b: string)
    ensures (a + b)[..|a|] == a && (a + b)[|a|..] == b
  {
  }

  // -- the order of the keys is what decides --

  function Blank(keys: seq<string>): (params: seq<Param>)
    ensures |params| == |keys| && forall i :: 0 <= i < |keys| ==> params[i] == Param(keys[i], Other(""))
  {
    seq(|keys|, i requires 0 <= i < |keys| => Param(keys[i], Other("")))
  }

  lemma {:induction false} NothingToReplace(t: string, params: seq<Param>)
    requires ColonFree(t)
    ensures Sequential(t, params) == t
  {
    if params != [] {
      var p := params[|params| - 1];
      SkipPlain(t, "", p.key, p.value.Shown());
      assert t + "" == t;
      NothingToReplace(t, params[..|params| - 1]);
    }
  }

  // With blank values, a key that is replaced too early leaves the tail of the longer name behind.
  lemma {:induction false} TailLeftBehind(keys: seq<string>, name: string, j: nat)
    requires IsName(name) && j < |keys| && ProperPrefix(keys[j], name)
    requires forall m :: 0 <= m < |keys| ==> IsName(keys[m])
    requires forall m :: j <= m < |keys| ==> keys[m] != name
    ensures Sequential(Placeholder(name), Blank(keys)) != ""
  {
    var before, key := keys[..|keys| - 1], keys[|keys| - 1];
    assert Blank(keys)[..|keys| - 1] == Blank(before);
    assert Sequential(Placeholder(name), Blank(keys))
        == Sequential(Replace(Placeholder(name), Placeholder(key), ""), Blank(before));
    if ProperPrefix(key, name) {
      var tail := name[|key|..];
      assert Placeholder(name) == Placeholder(key) + tail;
      RemovePrefix(key, tail);
      NothingToReplace(tail, Blank(before));
    } else {
      assert Placeholder(name) + "" == Placeholder(name);
      NoMatch(Placeholder(name), "", key);
      SkipPlain(name, "", key, "");
      assert name + "" == name && Placeholder(name)[1..] == name;
      TailLeftBehind(before, name, j);
    }
  }

  lemma RemovePrefix(key: string, tail: string)
    requires ColonFree(tail)
    ensures Replace(Placeholder(key) + tail, Placeholder(key), "") == tail
  {
    var s := Placeholder(key) + tail;
    assert s[..|Placeholder(key)|] == Placeholder(key) && s[|Placeholder(key)|..] == tail;
    SkipPlain(tail, "", key, "");
    assert tail + "" == tail;
  }

  lemma OneHole(name: string)
    requires IsName(name)
    ensures Parse(Placeholder(name)) == [Hole(name)]
  {
    var t := Placeholder(name);
    assert t[1..] == name && NameLength(name) == |name|;
    assert t[1..|name| + 1] == name && t[|name| + 1..] == "";
  }

  // For distinct keys, the agreement holds on all templates and values exactly when no later key is a
  // proper prefix of an earlier one.
  lemma AgreementIffOrdered(keys: seq<string>)
    requires forall i :: 0 <= i < |keys| ==> IsName(keys[i])
    requires forall i, j :: 0 <= i < j < |keys| ==> keys[i] != keys[j]
    ensures (forall template, params :: Keys(params) == keys && Usable(params) && Fits(template, params) ==>
               Sequential(template, params) == Simultaneous(template, params))
       <==> Ordered(keys)
  {
    if Ordered(keys) {
      forall template, params | Keys(params) == keys && Usable(params) && Fits(template, params)
        ensures Sequential(template, params) == Simultaneous(template, params)
      {
        SequentialIsSimultaneous(template, params);
      }
    } else {
      var i, j :| 0 <= i < j < |keys| && ProperPrefix(keys[j], keys[i]);
      WrongOrderShows(keys, i, j);
    }
  }

  lemma WrongOrderShows(keys: seq<string>, i: nat, j: nat)
    requires forall m :: 0 <= m < |keys| ==> IsName(keys[m])
    requires forall m, n :: 0 <= m < n < |keys| ==> keys[m] != keys[n]
    requires i < j < |keys| && ProperPrefix(keys[j], keys[i])
    ensures var template, params := Placeholder(keys[i]), Blank(keys);
            && Keys(params) == keys && Usable(params) && Fits(template, params)
            && Sequential(template, params) != Simultaneous(template, params)
  {
    var params := Blank(keys);
    OneHole(keys[i]);
    BlankLookup(keys, keys[i]);
    assert FillAll([Hole(keys[i])], params) == [Filled("")];
    assert Render([Filled("")]) == "";
    TailLeftBehind(keys, keys[i], j);
  }

  lemma {:induction false} BlankLookup(keys: seq<string>, key: string)
    requires key in keys
    ensures Lookup(Blank(keys), key) == Some(Other(""))
  {
    var before := keys[..|keys| - 1];
    assert Blank(keys)[..|keys| - 1] == Blank(before);
    if keys[|keys| - 1] != key {
      BlankLookup(before, key);
    }
  }

  // -- the keys that the query builder generates --

  function Decimal(n: nat): (s: string)
    ensures IsName(s)
  {
    if n < 10 then ["0123456789"[n]] else Decimal(n / 10) + ["0123456789"[n % 10]]
  }

  lemma {:induction false} LongerIsLarger(a: nat, b: nat)
    requires a <= b
    ensures |Decimal(a)| <= |Decimal(b)|
  {
    if a >= 10 {
      LongerIsLarger(a / 10, b / 10);
    }
  }

  function NumberedKeys(n: nat): seq<string> {
    seq(n, i requires 0 <= i < n => "param_" + Decimal(i + 1))
  }

  // param_1, param_2, ... in order, past param_10 and beyond, are safe to replace from the last.
  lemma NumberedKeysOrdered(n: nat)
    ensures Ordered(NumberedKeys(n))
    ensures forall i :: 0 <= i < n ==> IsName(NumberedKeys(n)[i])
  {
    forall i, j | 0 <= i < j < n ensures !ProperPrefix(NumberedKeys(n)[j], NumberedKeys(n)[i]) {
      LongerIsLarger(i + 1, j + 1);
    }
  }
}
