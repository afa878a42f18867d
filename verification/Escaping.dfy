/**
 The two escapers of src/iohandler/iohandler.py: the one-by-one insertion of backslashes at the positions
 the call scanner noted, and the encoder of single quotes inside double quotes.
 */
module Escaping {
  import opened CallScanner
  import opened Options
  import opened Strings

  // A backslash in front of every marked character, all at once.
  function Escaped(s: string, marks: seq<bool>): (t: string)
    requires |marks| == |s|
  {
    if s == "" then "" else (if marks[0] then "\\" else "") + [s[0]] + Escaped(s[1..], marks[1..])
  }

  // Takes the inserted backslashes out again.
  function Unescaped(t: string, marks: seq<bool>): string {
    if marks == [] then t
    else
      var rest := if marks[0] && t != "" then t[1..] else t;
      if rest == "" then "" else [rest[0]] + Unescaped(rest[1..], marks[1..])
  }

  lemma {:induction false} UnescapedEscaped(s: string, marks: seq<bool>)
    requires |marks| == |s|
    ensures Unescaped(Escaped(s, marks), marks) == s
  {
    if s != "" {
      var rest := Escaped(s[1..], marks[1..]);
      UnescapedEscaped(s[1..], marks[1..]);
      assert marks[0] ==> Escaped(s, marks)[1..] == [s[0]] + rest;
      assert ([s[0]] + rest)[1..] == rest;
    }
  }

  lemma {:induction false} EscapedSkip(s: string, marks: seq<bool>, k: nat)
    requires |marks| == |s| && k <= |s| && forall j :: 0 <= j < k ==> !marks[j]
    ensures Escaped(s, marks) == s[..k] + Escaped(s[k..], marks[k..])
  {
    if k == 0 {
      assert s[0..] == s && marks[0..] == marks;
    } else {
      EscapedSkip(s[1..], marks[1..], k - 1);
      assert s[1..][k - 1..] == s[k..] && marks[1..][k - 1..] == marks[k..];
      assert [s[0]] + s[1..][..k - 1] == s[..k];
    }
  }

  lemma {:induction false} EscapedLast(s: string, marks: seq<bool>, c: char, mark: bool)
    requires |marks| == |s|
    ensures Escaped(s + [c], marks + [mark]) == Escaped(s, marks) + (if mark then "\\" else "") + [c]
  {
    if s != "" {
      assert (s + [c])[1..] == s[1..] + [c] && (marks + [mark])[1..] == marks[1..] + [mark];
      EscapedLast(s[1..], marks[1..], c, mark);
    }
  }

  // -- sequential insertion, with a running offset --

  // `s[:k] + "\\" + s[k:]`, where a slice past the end is the whole string.
  function InsertAt(s: string, k: nat): string {
    var cut := if k <= |s| then k else |s|;
    s[..cut] + "\\" + s[cut..]
  }

  function Inserted(token: string, escapes: seq<nat>, counter: nat): string
    decreases |escapes|
  {
    if escapes == [] then token
    else Inserted(InsertAt(token, escapes[0] + counter), escapes[1..], counter + 1)
  }

  method InsertEscapes(token: string, escapes: seq<nat>) returns (t: string)
    ensures t == Inserted(token, escapes, 0)
  {
    t := token;
    var escapesCounter := 0;
    assert escapes[0..] == escapes;
    for k := 0 to |escapes|
      invariant escapesCounter == k
      invariant Inserted(t, escapes[k..], escapesCounter) == Inserted(token, escapes, 0)
    {
      assert escapes[k..][1..] == escapes[k + 1..];
      t := InsertAt(t, escapes[k] + escapesCounter);
      escapesCounter := escapesCounter + 1;
    }
  }

  // The characters at the noted positions, counted from `from`.
  ghost function MarksAt(s: string, escapes: seq<nat>, from: nat): (marks: seq<bool>)
    ensures |marks| == |s| && forall i :: 0 <= i < |s| ==> marks[i] == (from + i in escapes)
  {
    seq(|s|, i requires 0 <= i < |s| => from + i in escapes)
  }

  lemma {:induction false} InsertedIsEscaped(front: string, rest: string, escapes: seq<nat>, from: nat, counter: nat)
    requires |front| == from + counter
    requires Ascending(escapes, from, from + |rest|)
    ensures Inserted(front + rest, escapes, counter) == front + Escaped(rest, MarksAt(rest, escapes, from))
    decreases |escapes|
  {
    var marks := MarksAt(rest, escapes, from);
    if escapes == [] {
      EscapedSkip(rest, marks, |rest|);
      assert rest[..|rest|] == rest && rest[|rest|..] == "";
    } else {
      var k := escapes[0] - from;
      FirstEscape(front, rest, escapes, from, counter);
      InsertedIsEscaped(front + rest[..k] + "\\" + [rest[k]], rest[k + 1..], escapes[1..], escapes[0] + 1, counter + 1);
    }
  }

  // One position less to insert at, on both sides.
  lemma FirstEscape(front: string, rest: string, escapes: seq<nat>, from: nat, counter: nat)
    requires |front| == from + counter && escapes != []
    requires Ascending(escapes, from, from + |rest|)
    ensures var k := escapes[0] - from;
            var longer, tail := front + rest[..k] + "\\" + [rest[k]], rest[k + 1..];
            && InsertAt(front + rest, escapes[0] + counter) == longer + tail
            && front + Escaped(rest, MarksAt(rest, escapes, from))
               == longer + Escaped(tail, MarksAt(tail, escapes[1..], escapes[0] + 1))
  {
    var k := escapes[0] - from;
    MarksAfterFirst(rest, escapes, from);
    EscapedFirst(rest, MarksAt(rest, escapes, from), k);
    InsertInside(front, rest, k);
  }

  lemma InsertInside(front: string, rest: string, k: nat)
    requires k < |rest|
    ensures InsertAt(front + rest, |front| + k) == front + rest[..k] + "\\" + [rest[k]] + rest[k + 1..]
  {
    assert (front + rest)[..|front| + k] == front + rest[..k];
    assert (front + rest)[|front| + k..] == [rest[k]] + rest[k + 1..];
  }

  lemma MarksAfterFirst(s: string, escapes: seq<nat>, from: nat)
    requires escapes != [] && Ascending(escapes, from, from + |s|)
    ensures var marks, k := MarksAt(s, escapes, from), escapes[0] - from;
            && marks[k] && (forall j :: 0 <= j < k ==> !marks[j])
            && MarksAt(s[k + 1..], escapes[1..], escapes[0] + 1) == marks[k + 1..]
  {
    AscendingMembers(escapes, from, from + |s|);
  }

  // Up to and including the first mark.
  lemma EscapedFirst(s: string, marks: seq<bool>, k: nat)
    requires |marks| == |s| && k < |s| && marks[k] && forall j :: 0 <= j < k ==> !marks[j]
    ensures Escaped(s, marks) == s[..k] + "\\" + [s[k]] + Escaped(s[k + 1..], marks[k + 1..])
  {
    EscapedSkip(s, marks, k);
    assert s[k..][1..] == s[k + 1..] && marks[k..][1..] == marks[k + 1..];
  }

  lemma {:induction false} AscendingMembers(escapes: seq<nat>, from: nat, to: nat)
    requires Ascending(escapes, from, to)
    ensures forall e :: e in escapes ==> from <= e < to
    ensures escapes != [] ==> forall e :: e in escapes ==> e == escapes[0] || (e > escapes[0] && e in escapes[1..])
  {
    if escapes != [] {
      AscendingMembers(escapes[1..], escapes[0] + 1, to);
      assert forall e :: e in escapes <==> e == escapes[0] || e in escapes[1..];
    }
  }

  // Inserting one by one with the running offset is inserting at all positions at once.
  lemma SequentialIsSimultaneous(token: string, escapes: seq<nat>)
    requires Ascending(escapes, 0, |token|)
    ensures Inserted(token, escapes, 0) == Escaped(token, MarksAt(token, escapes, 0))
  {
    InsertedIsEscaped("", token, escapes, 0, 0);
    assert "" + token == token;
  }

  lemma {:induction false} InsertedKeepsFront(token: string, escapes: seq<nat>, counter: nat, r: nat, to: nat)
    requires Ascending(escapes, r + 1, to) && r < |token|
    ensures r < |Inserted(token, escapes, counter)| && Inserted(token, escapes, counter)[r] == token[r]
    decreases |escapes|
  {
    if escapes != [] {
      AscendingFrom(escapes[1..], r + 1, escapes[0] + 1, to);
      InsertedKeepsFront(InsertAt(token, escapes[0] + counter), escapes[1..], counter + 1, r, to);
    }
  }

  // The positions noted for a token count from the start of the text, but are used as if they counted
  // from the start of the token: the right quotes are escaped exactly when there are none to escape or
  // the token starts the text.
  lemma RightQuotesIff(scanner: Scanner, text: string, t: Token)
    requires scanner.IsCall(text, t)
    ensures Inserted(text[t.start..t.end], t.escapes, 0)
         == Escaped(text[t.start..t.end], MarksAt(text[t.start..t.end], t.escapes, t.start))
       <==> t.escapes == [] || t.start == 0
  {
    var token := text[t.start..t.end];
    var p := Scanner.OpenAfter(text, t.start);
    if t.escapes == [] {
      var marks := MarksAt(token, t.escapes, t.start);
      EscapedSkip(token, marks, |token|);
      assert token[..|token|] == token && token[|token|..] == "";
    } else if t.start == 0 {
      AscendingFrom(t.escapes, 0, p + 1, t.end);
      SequentialIsSimultaneous(token, t.escapes);
    } else {
      var r := t.escapes[0] - t.start;
      var marks := MarksAt(token, t.escapes, t.start);
      AscendingMembers(t.escapes, p + 1, t.end);
      EscapedFirst(token, marks, r);
      assert Escaped(token, marks)[r] == '\\';
      assert t.escapes[0] in t.escapes && token[r] == text[t.escapes[0]];
      AscendingFrom(t.escapes, r + 1, t.escapes[0], t.end);
      InsertedKeepsFront(token, t.escapes, 0, r, t.end);
    }
  }

  // A template whose only call does not start it: the scanner notes the quote at 10, which is at 9 in the token,
  // and the backslash goes elsewhere.
  lemma WrongQuoteShows(scanner: Scanner)
    requires scanner.alnum('b') && !scanner.alnum(')')
    ensures var text, t := " keep.f('a'b')", Token(1, 14, [10]);
            && scanner.Calls(text, 0) == Some([t])
            && Inserted(text[t.start..t.end], t.escapes, 0)
               != Escaped(text[t.start..t.end], MarksAt(text[t.start..t.end], t.escapes, t.start))
  {
    var text, t := " keep.f('a'b')", Token(1, 14, [10]);
    assert text[0..5] == " keep" && text[1..6] == "keep.";
    assert Scanner.OpenAfter(text, 3) == 7;
    assert Scanner.OpenAfter(text, 1) == 7;
    QuotedCall(scanner, text);
    assert scanner.Calls(text, 14) == Some([]);
    assert [t] + [] == [t];
    assert scanner.Calls(text, 1) == Some([t]);
    scanner.CallsAreCalls(text, 0);
    RightQuotesIff(scanner, text, t);
  }

  lemma QuotedCall(scanner: Scanner, text: string)
    requires text == " keep.f('a'b')" && scanner.alnum('b') && !scanner.alnum(')')
    ensures scanner.Call(text, 8, 1) == Done(14, [10])
  {
    assert scanner.Literal(text, 11, '\'') == Done(13, []);
    assert [10] + [] == [10];
    assert scanner.Literal(text, 10, '\'') == Done(13, [10]);
    assert scanner.Literal(text, 9, '\'') == Done(13, [10]);
    assert scanner.Call(text, 13, 1) == Done(14, []);
  }

  // -- single quotes inside double quotes --

  function DoubleQuotes(s: string): nat {
    if s == "" then 0
    else DoubleQuotes(s[..|s| - 1]) + if s[|s| - 1] == '"' then 1 else 0
  }

  predicate InDouble(s: string, i: nat)
    requires i <= |s|
  {
    DoubleQuotes(s[..i]) % 2 == 1
  }

  predicate NeedsBackslash(s: string, i: nat)
    requires i < |s|
  {
    s[i] == '\'' && InDouble(s, i) && !(i > 0 && s[i - 1] == '\\')
  }

  function QuoteMarks(s: string): (marks: seq<bool>)
    ensures |marks| == |s| && forall i :: 0 <= i < |s| ==> marks[i] == NeedsBackslash(s, i)
  {
    seq(|s|, i requires 0 <= i < |s| => NeedsBackslash(s, i))
  }

  function Encoded(s: string): string {
    Escaped(s, QuoteMarks(s))
  }

  lemma EncodedLast(s: string, c: char)
    ensures Encoded(s + [c]) == if NeedsBackslash(s + [c], |s|) then Encoded(s) + "\\" + [c] else Encoded(s) + [c]
  {
    var t := s + [c];
    assert t[..|s|] == s;
    forall i | 0 <= i < |s| ensures NeedsBackslash(t, i) == NeedsBackslash(s, i) {
      assert t[..i] == s[..i];
    }
    assert QuoteMarks(t) == QuoteMarks(s) + [NeedsBackslash(t, |s|)];
    EscapedLast(s, QuoteMarks(s), c, NeedsBackslash(t, |s|));
    assert Encoded(s) + "" == Encoded(s);
  }

  lemma EncodedStep(s: string, i: nat)
    requires i < |s|
    ensures Encoded(s[..i + 1]) == if NeedsBackslash(s, i) then Encoded(s[..i]) + "\\" + [s[i]]
        else Encoded(s[..i]) + [s[i]]
    ensures InDouble(s, i + 1) == (InDouble(s, i) != (s[i] == '"'))
  {
    var t := s[..i + 1];
    assert t == s[..i] + [s[i]] && t[..i] == s[..i];
    assert NeedsBackslash(t, i) == NeedsBackslash(s, i);
    EncodedLast(s[..i], s[i]);
  }

  method EncodeSingleQuotesInDoubleQuotes(s: string) returns (result: string)
    ensures result == Encoded(s)
  {
    result := "";
    var inDoubleQuotes, i := false, 0;
    while i < |s|
      invariant 0 <= i <= |s|
      invariant inDoubleQuotes == InDouble(s, i)
      invariant result == Encoded(s[..i])
    {
      EncodedStep(s, i);
      if s[i] == '"' {
        inDoubleQuotes := !inDoubleQuotes;
      } else if s[i] == '\'' && inDoubleQuotes {
        if i > 0 && s[i - 1] == '\\' {
          result := result + [s[i]];
        } else {
          result := result + ("\\" + [s[i]]);
        }
        i := i + 1;
        continue;
      }
      result := result + [s[i]];
      i := i + 1;
    }
    assert s[..|s|] == s;
  }

  lemma DoubleQuotesLast(s: string, c: char)
    ensures DoubleQuotes(s + [c]) == DoubleQuotes(s) + if c == '"' then 1 else 0
  {
    assert (s + [c])[..|s|] == s;
  }

  lemma OneMoreAtTheEnd(e: string, c: char)
    ensures DoubleQuotes(e + [c]) == DoubleQuotes(e) + if c == '"' then 1 else 0
    ensures DoubleQuotes(e + "\\" + [c]) == DoubleQuotes(e) + if c == '"' then 1 else 0
  {
    DoubleQuotesLast(e, c);
    DoubleQuotesLast(e, '\\');
    DoubleQuotesLast(e + "\\", c);
  }

  // The encoded text has the same double quotes, and still ends in the last character.
  lemma {:induction false} EncodedShape(s: string)
    ensures DoubleQuotes(Encoded(s)) == DoubleQuotes(s)
    ensures s != "" ==> Encoded(s) != "" && Encoded(s)[|Encoded(s)| - 1] == s[|s| - 1]
  {
    if s == "" {
    } else {
      var front, c := s[..|s| - 1], s[|s| - 1];
      assert s == front + [c];
      EncodedShape(front);
      var e := Encoded(front);
      EncodedLast(front, c);
      assert Encoded(s) == e + [c] || Encoded(s) == e + "\\" + [c];
      OneMoreAtTheEnd(e, c);
      DoubleQuotesLast(front, c);
    }
  }

  // -- part by part --

  // The character is added, after a backslash where it is a bare single quote.
  function Added(s: string, bare: bool, c: char): string {
    if bare then s + "\\" + [c] else s + [c]
  }

  // A single quote with no backslash before it.
  predicate IsBare(before: string, c: char) {
    c == '\'' && (before == "" || before[|before| - 1] != '\\')
  }

  // A text between double quotes: a backslash before each single quote that has none.
  function Protected(s: string): string {
    if s == "" then ""
    else
      var front, c := s[..|s| - 1], s[|s| - 1];
      Added(Protected(front), IsBare(front, c), c)
  }

  lemma AddedToBoth(a: string, b: string, bare: bool, c: char)
    ensures Added(a + b, bare, c) == a + Added(b, bare, c)
  {
  }

  lemma {:induction false} DoubleQuotesOfBoth(a: string, b: string)
    ensures DoubleQuotes(a + b) == DoubleQuotes(a) + DoubleQuotes(b)
  {
    if b == "" {
      assert a + b == a;
    } else {
      var front, c := b[..|b| - 1], b[|b| - 1];
      DoubleQuotesOfBoth(a, front);
      DoubleQuotesLast(a + front, c);
      assert a + b == a + front + [c];
    }
  }

  lemma {:induction false} NoDoubleQuotes(s: string)
    requires '"' !in s
    ensures DoubleQuotes(s) == 0
  {
    if s != "" {
      NoDoubleQuotes(s[..|s| - 1]);
    }
  }

  lemma QuoteBalances(a: string, m: string)
    requires '"' !in a && '"' !in m
    ensures DoubleQuotes(a + "\"" + m) == 1 && DoubleQuotes(a + "\"" + m + "\"") == 2
  {
    NoDoubleQuotes(a);
    NoDoubleQuotes(m);
    DoubleQuotesLast(a, '"');
    DoubleQuotesOfBoth(a + "\"", m);
    DoubleQuotesLast(a + "\"" + m, '"');
  }

  lemma NextCharacter(t: string, c: char)
    ensures Encoded(t + [c]) == Added(Encoded(t), IsBare(t, c) && DoubleQuotes(t) % 2 == 1, c)
  {
    EncodedLast(t, c);
    assert (t + [c])[..|t|] == t;
  }

  // What is outside double quotes stays as it is.
  lemma {:induction false} OutsideStays(a: string)
    requires '"' !in a
    ensures Encoded(a) == a
  {
    if a != "" {
      var front, c := a[..|a| - 1], a[|a| - 1];
      OutsideStays(front);
      NoDoubleQuotes(front);
      NextCharacter(front, c);
      assert a == front + [c];
    }
  }

  lemma {:induction false} ProtectedOn(t: string, m: string)
    requires DoubleQuotes(t) % 2 == 1 && t[|t| - 1] == '"' && '"' !in m
    ensures Encoded(t + m) == Encoded(t) + Protected(m)
  {
    if m == "" {
      assert t + m == t;
    } else {
      var front, c := m[..|m| - 1], m[|m| - 1];
      ProtectedOn(t, front);
      DoubleQuotesOfBoth(t, front);
      NoDoubleQuotes(front);
      NextCharacter(t + front, c);
      AddedToBoth(Encoded(t), Protected(front), IsBare(front, c), c);
      assert t + m == t + front + [c];
      assert IsBare(t + front, c) == IsBare(front, c) by {
        assert (t + front)[|t + front| - 1] == if front == "" then '"' else front[|front| - 1];
      }
    }
  }

  // What follows an only double quote is protected.
  lemma InsideIsProtected(a: string, m: string)
    requires '"' !in a && '"' !in m
    ensures Encoded(a + "\"" + m) == a + "\"" + Protected(m)
  {
    OutsideStays(a);
    NextCharacter(a, '"');
    QuoteBalances(a, "");
    assert a + "\"" + "" == a + "\"";
    ProtectedOn(a + "\"", m);
  }

  // A text with closed double quotes is followed by one that is encoded on its own.
  lemma {:induction false} EncodedOn(t: string, rest: string)
    requires DoubleQuotes(t) % 2 == 0
    ensures Encoded(t + rest) == Encoded(t) + Encoded(rest)
  {
    if rest == "" {
      assert t + rest == t;
    } else {
      var front, c := rest[..|rest| - 1], rest[|rest| - 1];
      var bare := IsBare(front, c) && DoubleQuotes(front) % 2 == 1;
      EncodedOn(t, front);
      SameForBoth(t, front, c);
      NextCharacter(t + front, c);
      NextCharacter(front, c);
      AddedToBoth(Encoded(t), Encoded(front), bare, c);
      assert t + rest == t + front + [c] && rest == front + [c];
    }
  }

  lemma SameForBoth(t: string, front: string, c: char)
    requires DoubleQuotes(t) % 2 == 0
    ensures IsBare(t + front, c) && DoubleQuotes(t + front) % 2 == 1 <==>
            IsBare(front, c) && DoubleQuotes(front) % 2 == 1
  {
    DoubleQuotesOfBoth(t, front);
    if front == "" {
      assert t + front == t;
    } else {
      assert (t + front)[|t + front| - 1] == front[|front| - 1];
    }
  }

  // So the first text in double quotes is protected, what comes before it stays, and what comes after it is encoded on
  // its own.
  lemma EncodedParts(a: string, m: string, rest: string)
    requires '"' !in a && '"' !in m
    ensures Encoded(a + "\"" + m + "\"" + rest) == a + "\"" + Protected(m) + "\"" + Encoded(rest)
  {
    var t := a + "\"" + m;
    InsideIsProtected(a, m);
    QuoteBalances(a, m);
    NextCharacter(t, '"');
    EncodedOn(t + "\"", rest);
  }

  // What comes before a place in the text is encoded on its own: each character stays inside or outside
  // double quotes.
  lemma {:induction false} EncodedPrefix(s: string, i: nat)
    requires i <= |s|
    ensures Encoded(s[..i]) <= Encoded(s)
    ensures DoubleQuotes(Encoded(s[..i])) == DoubleQuotes(s[..i])
    decreases |s|
  {
    EncodedShape(s[..i]);
    if i < |s| {
      var front := s[..|s| - 1];
      assert s == front + [s[|s| - 1]] && front[..i] == s[..i];
      EncodedPrefix(front, i);
      EncodedLast(front, s[|s| - 1]);
    } else {
      assert s[..i] == s;
    }
  }

  // A backslash, or a character that needed none before the same context, is left alone.
  lemma AppendedAsIs(t: string, c: char)
    requires !NeedsBackslash(t + [c], |t|)
    ensures Encoded(t + [c]) == Encoded(t) + [c]
  {
    EncodedLast(t, c);
  }

  lemma SameContext(front: string, t: string, c: char)
    requires DoubleQuotes(front) == DoubleQuotes(t) && (front == "") == (t == "")
    requires t != "" ==> t[|t| - 1] == front[|front| - 1]
    ensures NeedsBackslash(front + [c], |front|) == NeedsBackslash(t + [c], |t|)
  {
    assert (front + [c])[..|front|] == front && (t + [c])[..|t|] == t;
  }

  // Encoding twice is encoding once.
  lemma {:induction false} EncodingIdempotent(s: string)
    ensures Encoded(Encoded(s)) == Encoded(s)
  {
    if s == "" {
    } else {
      var front, c := s[..|s| - 1], s[|s| - 1];
      var t := Encoded(front);
      assert s == front + [c];
      EncodingIdempotent(front);
      EncodedShape(front);
      EncodedLast(front, c);
      if NeedsBackslash(s, |front|) {
        var u := t + "\\";
        AppendedAsIs(t, '\\');
        assert (u + [c])[|u| - 1] == '\\';
        AppendedAsIs(u, c);
        assert Encoded(s) == u + [c];
      } else {
        assert front == "" <==> t == "";
        SameContext(front, t, c);
        AppendedAsIs(t, c);
        assert Encoded(s) == t + [c];
      }
    }
  }

  // In the encoded text every single quote inside double quotes has its backslash.
  lemma AllQuotesEncoded(s: string, i: nat)
    requires i < |Encoded(s)|
    ensures !NeedsBackslash(Encoded(s), i)
  {
    EncodingIdempotent(s);
    NothingInserted(Encoded(s), QuoteMarks(Encoded(s)));
  }

  lemma {:induction false} NothingInserted(s: string, marks: seq<bool>)
    requires |marks| == |s|
    ensures |Escaped(s, marks)| >= |s|
    ensures |Escaped(s, marks)| == |s| ==> forall i :: 0 <= i < |s| ==> !marks[i]
  {
    if s != "" {
      NothingInserted(s[1..], marks[1..]);
      forall i | 0 < i < |s| ensures marks[i] == marks[1..][i - 1] {}
    }
  }

  // Deleting the inserted backslashes gives the text back.
  lemma DecodedIsOriginal(s: string)
    ensures Unescaped(Encoded(s), QuoteMarks(s)) == s
  {
    UnescapedEscaped(s, QuoteMarks(s));
  }
}
