/**
 The scanner of src/iohandler/iohandler.py that finds the `keep.` calls in a rendered template. The source
 walks the text with an index and flags; the lexer here reads a string literal, or a call, at a time.
 */
module CallScanner {
  import opened Options
  import opened Strings

  // A call found in the text, with the quote characters in it that have to be escaped.
  datatype Token = Token(start: nat, end: nat, escapes: seq<nat>)

  // Reading past the end of the text raises IndexError.
  datatype Scan = Done(end: nat, escapes: seq<nat>) | Unfinished | IndexError

  function IsQuote(c: char): bool {
    c == '"' || c == '\''
  }

  // Strictly increasing positions within [from, to).
  ghost predicate Ascending(escapes: seq<nat>, from: nat, to: nat) {
    escapes == [] || (from <= escapes[0] < to && Ascending(escapes[1..], escapes[0] + 1, to))
  }

  lemma {:induction false} AscendingJoined(a: seq<nat>, b: seq<nat>, from: nat, mid: nat, to: nat)
    requires Ascending(a, from, mid) && Ascending(b, mid, to) && from <= mid <= to
    ensures Ascending(a + b, from, to)
    decreases |a|
  {
    if a == [] {
      assert a + b == b;
      AscendingFrom(b, from, mid, to);
    } else {
      assert (a + b)[1..] == a[1..] + b;
      AscendingJoined(a[1..], b, a[0] + 1, mid, to);
    }
  }

  lemma AscendingFrom(a: seq<nat>, from: nat, mid: nat, to: nat)
    requires Ascending(a, mid, to) && from <= mid
    ensures Ascending(a, from, to)
  {
  }

  // `alnum` says which characters Python's str.isalnum accepts.
  datatype Scanner = Scanner(alnum: char -> bool) {

    // A quote ends a literal unless a letter, a digit or a space comes next.
    predicate Closing(next: char) {
      !alnum(next) && next != ' '
    }

    // The end of a literal that was opened by the quote before i.
    function Literal(text: string, i: nat, quote: char): (r: Scan)
      requires i <= |text|
      ensures r.Done? ==> i < r.end <= |text|
      decreases |text| - i
    {
      if i == |text| then Unfinished
      else if text[i] == '\\' then
        if i + 1 == |text| then Unfinished else Literal(text, i + 2, quote)
      else if text[i] != quote then Literal(text, i + 1, quote)
      else if i + 1 == |text| then IndexError
      else if Closing(text[i + 1]) then Done(i + 1, [])
      else Noting([i], Literal(text, i + 1, quote))
    }

    static function Noting(escapes: seq<nat>, r: Scan): Scan {
      if r.Done? then Done(r.end, escapes + r.escapes) else r
    }

    // The end of a call, from a place outside literals with this many parentheses open.
    function Call(text: string, i: nat, depth: nat): (r: Scan)
      requires i <= |text|
      ensures r.Done? ==> i <= r.end <= |text| && (depth > 0 ==> i < r.end)
      decreases |text| - i
    {
      if depth == 0 then Done(i, [])
      else if i == |text| then Unfinished
      else if IsQuote(text[i]) then
        match Literal(text, i + 1, text[i])
        case Done(end, escapes) => Noting(escapes, Call(text, end, depth))
        case other => other
      else if text[i] == '(' then Call(text, i + 1, depth + 1)
      else if text[i] == ')' then Call(text, i + 1, depth - 1)
      else Call(text, i + 1, depth)
    }

    // `text.find("(", i)`
    static function OpenAfter(text: string, i: nat): (p: nat)
      requires i <= |text|
      ensures i <= p <= |text| && (p < |text| ==> text[p] == '(') && forall j :: i <= j < p ==> text[j] != '('
      decreases |text| - i
    {
      if i == |text| || text[i] == '(' then i else OpenAfter(text, i + 1)
    }

    static predicate IsKeep(text: string, i: nat) {
      i + 5 <= |text| && text[i..i + 5] == "keep."
    }

    // All the calls from i on, or None for IndexError.
    function Calls(text: string, i: nat): Option<seq<Token>>
      requires i <= |text|
      decreases |text| - i
    {
      if i == |text| then Some([])
      else if !IsKeep(text, i) then Calls(text, i + 1)
      else
        var p := OpenAfter(text, i);
        if p == |text| then Calls(text, i + 5)
        else
          match Call(text, p + 1, 1)
          case IndexError => None
          case Unfinished => Some([])
          case Done(end, escapes) =>
            match Calls(text, end)
            case None => None
            case Some(rest) => Some([Token(i, end, escapes)] + rest)
    }

    // -- what the lexer finds --

    // The end of the lexeme at i: a whole literal, or one character.
    ghost function Next(text: string, i: nat): (e: Option<nat>)
      requires i < |text|
      ensures e.Some? ==> i < e.value <= |text|
    {
      if !IsQuote(text[i]) then Some(i + 1)
      else
        match Literal(text, i + 1, text[i])
        case Done(end, _) => Some(end)
        case _ => None
    }

    static function Parenthesis(c: char): int {
      if c == '(' then 1 else if c == ')' then -1 else 0
    }

    // The net number of parentheses opened outside literals between two lexeme boundaries.
    ghost function Net(text: string, i: nat, e: nat): Option<int>
      requires i <= |text|
      decreases |text| - i
    {
      if i == e then Some(0)
      else if i > e || i == |text| || Next(text, i).None? then None
      else
        match Net(text, Next(text, i).value, e)
        case None => None
        case Some(n) => Some(n + Parenthesis(text[i]))
    }

    // With depth parentheses open at i, e is the first boundary at which none is open.
    ghost predicate FirstReturn(text: string, i: nat, depth: nat, e: nat)
      requires i <= |text|
    {
      && Net(text, i, e) == Some(0 - depth)
      && forall m :: i <= m < e && Net(text, i, m).Some? ==> Net(text, i, m).value > 0 - depth
    }

    lemma {:induction false} FirstReturnStep(text: string, i: nat, depth: nat, e: nat)
      requires i < |text| && depth > 0
      ensures FirstReturn(text, i, depth, e) <==>
              e > i && Next(text, i).Some? && depth + Parenthesis(text[i]) >= 0
              && FirstReturn(text, Next(text, i).value, depth + Parenthesis(text[i]), e)
    {
      if e > i && Next(text, i).Some? && depth + Parenthesis(text[i]) >= 0 {
        var j, d := Next(text, i).value, depth + Parenthesis(text[i]);
        if FirstReturn(text, i, depth, e) {
          forall m | j <= m < e && Net(text, j, m).Some? ensures Net(text, j, m).value > 0 - d {
            assert Net(text, i, m).value > 0 - depth;
          }
        }
        if FirstReturn(text, j, d, e) {
          forall m | i <= m < e && Net(text, i, m).Some? ensures Net(text, i, m).value > 0 - depth {
            if m > i {
              NetForward(text, j, m);
            }
          }
        }
      }
    }

    lemma NetForward(text: string, i: nat, e: nat)
      requires i <= |text| && Net(text, i, e).Some?
      ensures i <= e <= |text|
      decreases |text| - i
    {
      if i < e {
        NetForward(text, Next(text, i).value, e);
      }
    }

    // The lexer closes a call exactly where the parentheses outside literals first balance.
    lemma {:induction false} ClosesAtFirstReturn(text: string, i: nat, depth: nat, e: nat)
      requires i <= |text|
      ensures FirstReturn(text, i, depth, e) <==> Call(text, i, depth).Done? && Call(text, i, depth).end == e
      decreases |text| - i
    {
      if depth > 0 && i < |text| {
        FirstReturnStep(text, i, depth, e);
        if Next(text, i).Some? {
          ClosesAtFirstReturn(text, Next(text, i).value, depth + Parenthesis(text[i]), e);
        }
      } else if depth == 0 && FirstReturn(text, i, depth, e) {
        NetForward(text, i, e);
        assert Net(text, i, i) == Some(0);
      } else if depth > 0 && FirstReturn(text, i, depth, e) {
        NetForward(text, i, e);
      }
    }

    // How many backslashes, from the place i on, stand directly before k.
    static function Backslashes(text: string, i: nat, k: nat): nat
      requires k <= |text|
    {
      if k > i && text[k - 1] == '\\' then 1 + Backslashes(text, i, k - 1) else 0
    }

    // A quote that no backslash of the literal escapes: an even number of them is directly before it.
    static predicate Unescaped(text: string, i: nat, k: nat, quote: char) {
      k < |text| && text[k] == quote && Backslashes(text, i, k) % 2 == 0
    }

    static lemma {:induction false} PlainFirst(text: string, i: nat, k: nat)
      requires i < k <= |text| && text[i] != '\\'
      ensures Backslashes(text, i, k) == Backslashes(text, i + 1, k)
      decreases k
    {
      if k > i + 1 {
        PlainFirst(text, i, k - 1);
      }
    }

    static lemma {:induction false} PairFirst(text: string, i: nat, k: nat)
      requires i + 2 <= k <= |text| && text[i] == '\\'
      ensures Backslashes(text, i, k) % 2 == Backslashes(text, i + 2, k) % 2
      decreases k
    {
      if k > i + 2 {
        PairFirst(text, i, k - 1);
      } else {
        assert Backslashes(text, i, i + 1) == 1 + Backslashes(text, i, i);
      }
    }

    // A letter, a digit or a space follows, so that the quote is part of the literal.
    predicate GoesOn(text: string, k: nat) {
      k + 1 < |text| && (alnum(text[k + 1]) || text[k + 1] == ' ')
    }

    // e comes right after the first unescaped quote from i on that something else follows.
    ghost predicate EndsAfter(text: string, i: nat, quote: char, e: nat) {
      && i < e < |text| && Unescaped(text, i, e - 1, quote) && !GoesOn(text, e - 1)
      && forall k :: i <= k < e - 1 && Unescaped(text, i, k, quote) ==> GoesOn(text, k)
    }

    lemma UnescapedOn(text: string, i: nat, m: nat, quote: char)
      requires i < |text| && IsQuote(quote) && m <= |text|
      requires if text[i] == '\\' then m == i + 2 else m == i + 1
      ensures forall k :: k >= m ==> (Unescaped(text, i, k, quote) <==> Unescaped(text, m, k, quote))
      ensures text[i] == '\\' ==> !Unescaped(text, i, i, quote) && !Unescaped(text, i, i + 1, quote)
    {
      forall k | m <= k < |text| ensures Unescaped(text, i, k, quote) <==> Unescaped(text, m, k, quote) {
        if text[i] == '\\' {
          PairFirst(text, i, k);
        } else {
          PlainFirst(text, i, k);
        }
      }
      if text[i] == '\\' && i + 1 < |text| {
        assert Backslashes(text, i, i + 1) == 1 + Backslashes(text, i, i);
      }
    }

    // A literal ends after its first unescaped quote that neither a letter nor a digit nor a space follows, and the
    // unescaped quotes before that are exactly those that are noted.
    lemma {:induction false} LiteralEndsIff(text: string, i: nat, quote: char, e: nat)
      requires i <= |text| && IsQuote(quote)
      ensures EndsAfter(text, i, quote, e) <==> Literal(text, i, quote).Done? && Literal(text, i, quote).end == e
      ensures Literal(text, i, quote).Done? ==>
              forall k :: k in Literal(text, i, quote).escapes <==>
                          i <= k < Literal(text, i, quote).end - 1 && Unescaped(text, i, k, quote)
      decreases |text| - i
    {
      if i < |text| && !(text[i] == '\\' && i + 1 == |text|) {
        var m := if text[i] == '\\' then i + 2 else i + 1;
        UnescapedOn(text, i, m, quote);
        LiteralEndsIff(text, m, quote, e);
        assert Unescaped(text, i, i, quote) <==> text[i] == quote;
        assert e > 0 ==> e - 1 + 1 == e;
        assert EndsAfter(text, m, quote, e) ==> (text[i] == quote && !GoesOn(text, i)) || EndsAfter(text, i, quote, e);
        assert EndsAfter(text, i, quote, e) ==> e == i + 1 || EndsAfter(text, m, quote, e);
      }
    }

    // A lexeme is a literal, opened by a quote of either kind, or a single other character.
    lemma LexemeIs(text: string, i: nat, e: nat)
      requires i < |text|
      ensures Next(text, i) == Some(e) <==>
              if text[i] == '"' || text[i] == '\'' then EndsAfter(text, i + 1, text[i], e) else e == i + 1
    {
      if text[i] == '"' || text[i] == '\'' {
        LiteralEndsIff(text, i + 1, text[i], e);
      }
    }

    // Only quote characters inside the literal are noted, in order.
    lemma {:induction false} LiteralEscapes(text: string, i: nat, quote: char)
      requires i <= |text| && Literal(text, i, quote).Done?
      ensures Ascending(Literal(text, i, quote).escapes, i, Literal(text, i, quote).end)
      ensures forall e :: e in Literal(text, i, quote).escapes ==> e < |text| && text[e] == quote
      decreases |text| - i
    {
      if text[i] == '\\' {
        LiteralEscapes(text, i + 2, quote);
        AscendingFrom(Literal(text, i, quote).escapes, i, i + 2, Literal(text, i, quote).end);
      } else if text[i] != quote {
        LiteralEscapes(text, i + 1, quote);
        AscendingFrom(Literal(text, i, quote).escapes, i, i + 1, Literal(text, i, quote).end);
      } else if !Closing(text[i + 1]) {
        LiteralEscapes(text, i + 1, quote);
        AscendingJoined([i], Literal(text, i + 1, quote).escapes, i, i + 1, Literal(text, i, quote).end);
      }
    }

    lemma {:induction false} CallEscapes(text: string, i: nat, depth: nat)
      requires i <= |text| && Call(text, i, depth).Done?
      ensures Ascending(Call(text, i, depth).escapes, i, Call(text, i, depth).end)
      ensures forall e :: e in Call(text, i, depth).escapes ==> e < |text| && IsQuote(text[e])
      decreases |text| - i
    {
      if depth > 0 {
        var r, d := Call(text, i, depth), depth + Parenthesis(text[i]);
        if IsQuote(text[i]) {
          var literal := Literal(text, i + 1, text[i]);
          LiteralEscapes(text, i + 1, text[i]);
          CallEscapes(text, literal.end, depth);
          AscendingJoined(literal.escapes, Call(text, literal.end, depth).escapes, i + 1, literal.end, r.end);
        } else {
          CallEscapes(text, i + 1, d);
        }
        AscendingFrom(r.escapes, i, i + 1, r.end);
      }
    }

    // A token is a balanced call: from "keep." to the first balance after its first parenthesis.
    ghost predicate IsCall(text: string, t: Token) {
      && t.start + 5 <= t.end <= |text| && text[t.start..t.start + 5] == "keep."
      && var p := OpenAfter(text, t.start);
         && p < |text|
         && FirstReturn(text, p + 1, 1, t.end)
         && Ascending(t.escapes, p + 1, t.end)
         && forall e :: e in t.escapes ==> e < |text| && IsQuote(text[e])
    }

    ghost predicate InOrder(tokens: seq<Token>, from: nat) {
      tokens == [] || (from <= tokens[0].start && tokens[0].start < tokens[0].end
          && InOrder(tokens[1..], tokens[0].end))
    }

    lemma InOrderFrom(tokens: seq<Token>, from: nat, mid: nat)
      requires InOrder(tokens, mid) && from <= mid
      ensures InOrder(tokens, from)
    {
    }

    // The tokens are balanced calls, disjoint and in order.
    lemma {:induction false} CallsAreCalls(text: string, i: nat)
      requires i <= |text| && Calls(text, i).Some?
      ensures InOrder(Calls(text, i).value, i)
      ensures forall t :: t in Calls(text, i).value ==> IsCall(text, t)
      decreases |text| - i
    {
      if i < |text| {
        if !IsKeep(text, i) {
          CallsAreCalls(text, i + 1);
          InOrderFrom(Calls(text, i).value, i, i + 1);
        } else {
          var p := OpenAfter(text, i);
          if p == |text| {
            CallsAreCalls(text, i + 5);
            InOrderFrom(Calls(text, i).value, i, i + 5);
          } else if Call(text, p + 1, 1).Done? {
            var end := Call(text, p + 1, 1).end;
            CallsAreCalls(text, end);
            CallEscapes(text, p + 1, 1);
            ClosesAtFirstReturn(text, p + 1, 1, end);
          }
        }
      }
    }

    // The scan that stands at i comes to a call at u.
    ghost predicate ComesTo(text: string, i: nat, u: nat)
      requires i <= |text|
      decreases |text| - i
    {
      if i == |text| then false
      else if !IsKeep(text, i) then ComesTo(text, i + 1, u)
      else
        var p := OpenAfter(text, i);
        if p == |text| then ComesTo(text, i + 5, u)
        else
          i == u ||
          (Call(text, p + 1, 1).Done? && ComesTo(text, Call(text, p + 1, 1).end, u))
    }

    ghost predicate Unclosed(text: string, u: nat) {
      IsKeep(text, u) && var p := OpenAfter(text, u); p < |text| && Call(text, p + 1, 1).Unfinished?
    }

    // No call is missed: a "keep." outside every token has no parenthesis after it, or comes at or after
    // a call that the scan comes to and that is never closed.
    lemma {:induction false} CallsFindAll(text: string, i: nat, m: nat)
      requires i <= m && m + 5 <= |text| && text[m..m + 5] == "keep." && Calls(text, i).Some?
      ensures OpenAfter(text, m) == |text|
           || (exists t :: t in Calls(text, i).value && t.start <= m < t.end)
           || (exists u: nat :: i <= u <= m && ComesTo(text, i, u) && Unclosed(text, u))
      decreases |text| - i
    {
      if !IsKeep(text, i) {
        CallsFindAll(text, i + 1, m);
      } else {
        var p := OpenAfter(text, i);
        if p == |text| {
          NoneLater(text, i, m);
        } else if Call(text, p + 1, 1).Unfinished? {
          assert ComesTo(text, i, i) && Unclosed(text, i);
        } else {
          var end := Call(text, p + 1, 1).end;
          if m < end {
            assert Token(i, end, Call(text, p + 1, 1).escapes) in Calls(text, i).value;
          } else {
            CallsFindAll(text, end, m);
          }
        }
      }
    }

    lemma NoneLater(text: string, i: nat, m: nat)
      requires i <= m <= |text| && OpenAfter(text, i) == |text|
      ensures OpenAfter(text, m) == |text|
    {
    }

    // -- when the scan reads past the end --

    // e is a place in the literal read from i that no backslash escapes, and no quote before it ends the literal.
    ghost predicate InLiteral(text: string, i: nat, quote: char, e: nat)
      requires i <= |text|
      decreases |text| - i
    {
      i == e ||
      (i < e && i < |text| &&
       if text[i] == '\\' then i + 2 <= |text| && InLiteral(text, i + 2, quote, e)
       else (text[i] == quote ==> i + 1 < |text| && !Closing(text[i + 1])) && InLiteral(text, i + 1, quote, e))
    }

    // b begins a lexeme of the call read from i with this many parentheses open, and the call is open there.
    ghost predicate InCall(text: string, i: nat, depth: nat, b: nat)
      requires i <= |text|
      decreases |text| - i
    {
      depth > 0 &&
      (i == b ||
       (i < b && i < |text| && Next(text, i).Some? &&
        InCall(text, Next(text, i).value, depth + Parenthesis(text[i]), b)))
    }

    // A literal that is opened at b, inside the call at u, is still open at the last character of the text, which
    // is a quote of its kind and not escaped.
    ghost predicate EndsInQuote(text: string, u: nat, b: nat) {
      && u <= |text| && b + 1 < |text| && OpenAfter(text, u) < |text|
      && InCall(text, OpenAfter(text, u) + 1, 1, b) && QuoteLeftOpen(text, b)
    }

    ghost predicate QuoteLeftOpen(text: string, b: nat) {
      && b + 1 < |text| && IsQuote(text[b])
      && text[|text| - 1] == text[b] && InLiteral(text, b + 1, text[b], |text| - 1)
    }

    lemma {:induction false} LiteralErrorIff(text: string, i: nat, quote: char)
      requires i <= |text| && IsQuote(quote)
      ensures Literal(text, i, quote).IndexError? <==>
              i < |text| && text[|text| - 1] == quote && InLiteral(text, i, quote, |text| - 1)
      decreases |text| - i
    {
      if i + 1 < |text| {
        if text[i] == '\\' {
          LiteralErrorIff(text, i + 2, quote);
        } else {
          LiteralErrorIff(text, i + 1, quote);
        }
      }
    }

    lemma {:induction false} CallErrorIff(text: string, i: nat, depth: nat)
      requires i <= |text|
      ensures Call(text, i, depth).IndexError? <==> exists b: nat :: InCall(text, i, depth, b) && QuoteLeftOpen(text, b)
      decreases |text| - i
    {
      if depth > 0 && i < |text| {
        if IsQuote(text[i]) {
          LiteralErrorIff(text, i + 1, text[i]);
          assert QuoteLeftOpen(text, i) <==> Literal(text, i + 1, text[i]).IndexError?;
        }
        assert InCall(text, i, depth, i);
        if Next(text, i).Some? {
          var j, d := Next(text, i).value, depth + Parenthesis(text[i]);
          CallErrorIff(text, j, d);
          forall b: nat ensures InCall(text, i, depth, b) <==> b == i || InCall(text, j, d, b) {
            if InCall(text, j, d, b) {
              InCallAfter(text, j, d, b);
            }
          }
        }
      }
    }

    lemma {:induction false} InCallAfter(text: string, i: nat, depth: nat, b: nat)
      requires i <= |text| && InCall(text, i, depth, b)
      ensures i <= b
    {
    }

    // Reading past the end of the text happens exactly when the text ends in an unescaped quote that would close a
    // literal inside a call.
    lemma {:induction false} ErrorIffFinalQuote(text: string, i: nat)
      requires i <= |text|
      ensures Calls(text, i).None? <==> exists u: nat, b: nat :: ComesTo(text, i, u) && EndsInQuote(text, u, b)
      decreases |text| - i
    {
      if i < |text| {
        if !IsKeep(text, i) {
          ErrorIffFinalQuote(text, i + 1);
        } else {
          var p := OpenAfter(text, i);
          if p == |text| {
            ErrorIffFinalQuote(text, i + 5);
          } else {
            CallErrorIff(text, p + 1, 1);
            ErrorAtThisCall(text, i);
            if Call(text, p + 1, 1).Done? {
              ErrorIffFinalQuote(text, Call(text, p + 1, 1).end);
            }
          }
        }
      }
    }

    lemma ErrorAtThisCall(text: string, i: nat)
      requires IsKeep(text, i) && OpenAfter(text, i) < |text|
      ensures Call(text, OpenAfter(text, i) + 1, 1).IndexError? <==> exists b: nat :: EndsInQuote(text, i, b)
    {
      CallErrorIff(text, OpenAfter(text, i) + 1, 1);
      forall b: nat
        ensures EndsInQuote(text, i, b) <==> InCall(text, OpenAfter(text, i) + 1, 1, b) && QuoteLeftOpen(text, b)
      {
      }
    }

    // -- the index-driven loops --

    method ExtractKeepFunctions(text: string) returns (matches: Option<seq<Token>>)
      ensures matches == Calls(text, 0)
    {
      var found: seq<Token> := [];
      var i := 0;
      BeforeNothing(Calls(text, 0));
      while i < |text|
        invariant 0 <= i <= |text|
        invariant Calls(text, 0) == Before(found, Calls(text, i))
        decreases |text| - i
      {
        if i + 5 <= |text| && text[i..i + 5] == "keep." {
          var start := i;
          var funcStart := OpenAfter(text, start);
          if funcStart < |text| {
            var error, closed, escapes;
            i, error, closed, escapes := ScanCall(text, funcStart + 1);
            if error {
              return None;
            }
            if closed {
              BeforeTwice(found, [Token(start, i, escapes)], Calls(text, i));
              found := found + [Token(start, i, escapes)];
            }
          } else {
            i := i + 5;
          }
        } else {
          i := i + 1;
        }
      }
      assert found + [] == found;
      matches := Some(found);
    }

    // What is left of the scan when the loop stands at i with these flags.
    ghost function Resume(text: string, i: nat, depth: nat, inString: bool, quote: char, escapeNext: bool): Scan
      requires i <= |text|
    {
      if !inString then Call(text, i, depth)
      else if escapeNext && i == |text| then Unfinished
      else
        match Literal(text, if escapeNext then i + 1 else i, quote)
        case Done(end, escapes) => Noting(escapes, Call(text, end, depth))
        case other => other
    }

    lemma NotingNothing(r: Scan)
      ensures Noting([], r) == r
    {
      assert r.Done? ==> [] + r.escapes == r.escapes;
    }

    lemma NotingTwice(a: seq<nat>, b: seq<nat>, r: Scan)
      ensures Noting(a, Noting(b, r)) == Noting(a + b, r)
    {
      assert r.Done? ==> a + (b + r.escapes) == a + b + r.escapes;
    }

    lemma NoteOneMore(text: string, i: nat, depth: nat, quote: char, escapes: seq<nat>)
      requires i + 1 < |text| && text[i] == quote && quote != '\\' && !Closing(text[i + 1])
      ensures Noting(escapes, Resume(text, i, depth, true, quote, false))
           == Noting(escapes + [i], Resume(text, i + 1, depth, true, quote, false))
    {
      match Literal(text, i + 1, quote)
      case Done(end, es) => NotingTwice([i], es, Call(text, end, depth));
      case _ =>
      NotingTwice(escapes, [i], Resume(text, i + 1, depth, true, quote, false));
    }

    lemma OutsideStep(text: string, i: nat, depth: nat)
      requires i < |text| && depth > 0
      ensures Call(text, i, depth) ==
              if IsQuote(text[i]) then Resume(text, i + 1, depth, true, text[i], false)
              else Resume(text, i + 1, depth + Parenthesis(text[i]), false, ' ', false)
    {
    }

    lemma InsideStep(text: string, i: nat, depth: nat, quote: char, escapeNext: bool)
      requires i < |text| && IsQuote(quote)
      ensures var now := Resume(text, i, depth, true, quote, escapeNext);
              if escapeNext || text[i] !in {'\\', quote} then now == Resume(text, i + 1, depth, true, quote, false)
              else if text[i] == '\\' then now == Resume(text, i + 1, depth, true, quote, true)
              else if i + 1 == |text| then now == IndexError
              else Closing(text[i + 1]) ==> now == Call(text, i + 1, depth)
    {
      NotingNothing(Call(text, i + 1, depth));
    }

    method ScanCall(text: string, from: nat) returns (i: nat, error: bool, closed: bool, escapes: seq<nat>)
      requires from <= |text|
      ensures match Call(text, from, 1)
              case IndexError => error
              case Unfinished => !error && !closed && i == |text|
              case Done(end, es) => !error && closed && i == end && escapes == es
    {
      error, escapes, i := false, [], from;
      var parentCount := 1;
      var inString, escapeNext, quoteChar := false, false, ' ';
      NotingNothing(Call(text, from, 1));
      while i < |text| && (parentCount > 0 || inString)
        invariant from <= i <= |text| && parentCount >= 0 && !error
        invariant inString ==> parentCount > 0
        invariant escapeNext ==> inString
        invariant inString ==> IsQuote(quoteChar)
        invariant Call(text, from, 1) == Noting(escapes, Resume(text, i, parentCount, inString, quoteChar, escapeNext))
        decreases |text| - i
      {
        if inString {
          InsideStep(text, i, parentCount, quoteChar, escapeNext);
        } else {
          OutsideStep(text, i, parentCount);
        }
        if text[i] == '\\' && inString && !escapeNext {
          escapeNext := true;
          i := i + 1;
          continue;
        } else if text[i] == '"' || text[i] == '\'' {
          if !inString {
            inString := true;
            quoteChar := text[i];
          } else if text[i] == quoteChar && !escapeNext {
            if i + 1 == |text| {
              return i, true, false, escapes;
            }
            if !alnum(text[i + 1]) && text[i + 1] != ' ' {
              inString := false;
            } else {
              NoteOneMore(text, i, parentCount, quoteChar, escapes);
              escapes := escapes + [i];
            }
          }
        } else if text[i] == '(' && !inString {
          parentCount := parentCount + 1;
        } else if text[i] == ')' && !inString {
          parentCount := parentCount - 1;
        }
        escapeNext := false;
        i := i + 1;
      }
      closed := parentCount == 0;
    }
  }

  ghost function Before(found: seq<Token>, rest: Option<seq<Token>>): Option<seq<Token>> {
    match rest
    case None => None
    case Some(tokens) => Some(found + tokens)
  }

  lemma BeforeNothing(rest: Option<seq<Token>>)
    ensures Before([], rest) == rest
  {
    assert rest.Some? ==> [] + rest.value == rest.value;
  }

  lemma BeforeTwice(a: seq<Token>, b: seq<Token>, rest: Option<seq<Token>>)
    ensures Before(a, Before(b, rest)) == Before(a + b, rest)
  {
    assert rest.Some? ==> a + (b + rest.value) == a + b + rest.value;
  }
}
