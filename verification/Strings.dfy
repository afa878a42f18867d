/**
 The Python string operations the modelled code calls: startswith, in, find, replace, split and join.
 */
module Strings {

  predicate StartsWith(s: string, sub: string) {
    |sub| <= |s| && s[..|sub|] == sub
  }

  predicate EndsWith(s: string, sub: string) {
    |sub| <= |s| && s[|s| - |sub|..] == sub
  }

  // `sub in s`
  predicate Occurs(s: string, sub: string) {
    StartsWith(s, sub) || (s != "" && Occurs(s[1..], sub))
  }

  predicate At(s: string, sub: string, i: nat) {
    i + |sub| <= |s| && s[i..i + |sub|] == sub
  }

  // `s.find(sub)`, for a sub that occurs: the leftmost occurrence.
  function Find(s: string, sub: string): (i: nat)
    requires Occurs(s, sub)
    ensures At(s, sub, i)
  {
    if StartsWith(s, sub) then 0 else 1 + Find(s[1..], sub)
  }

  // `s.replace(sub, by)`: left to right, never looking again at what was put in.
  function Replace(s: string, sub: string, with: string): string
    requires sub != ""
  {
    if s == "" then ""
    else if StartsWith(s, sub) then with + Replace(s[|sub|..], sub, with)
    else [s[0]] + Replace(s[1..], sub, with)
  }

  // `s.split(sep)`
  function Split(s: string, sep: string): (parts: seq<string>)
    requires sep != ""
    ensures parts != []
  {
    if Occurs(s, sep) then
      var i := Find(s, sep);
      [s[..i]] + Split(s[i + |sep|..], sep)
    else [s]
  }

  // `sep.join(parts)`
  function Join(sep: string, parts: seq<string>): string {
    if parts == [] then ""
    else if |parts| == 1 then parts[0]
    else parts[0] + sep + Join(sep, parts[1..])
  }

  lemma {:induction false} OccursAt(s: string, sub: string, i: nat)
    requires At(s, sub, i)
    ensures Occurs(s, sub) && Find(s, sub) <= i
  {
    if i > 0 && !StartsWith(s, sub) {
      assert s[1..][i - 1..i - 1 + |sub|] == s[i..i + |sub|];
      OccursAt(s[1..], sub, i - 1);
    } else if i == 0 {
      assert s[..|sub|] == s[0..0 + |sub|];
    }
  }

  lemma OccursIffAt(s: string, sub: string)
    ensures Occurs(s, sub) <==> exists i: nat :: At(s, sub, i)
  {
    if Occurs(s, sub) {
      assert At(s, sub, Find(s, sub));
    }
    forall i: nat | At(s, sub, i) ensures Occurs(s, sub) {
      OccursAt(s, sub, i);
    }
  }

  lemma {:induction false} OnlyWithItsFirst(s: string, sub: string)
    requires sub != "" && sub[0] !in s
    ensures !Occurs(s, sub)
  {
    if s != "" {
      OnlyWithItsFirst(s[1..], sub);
    }
  }

  // Nothing before the first occurrence holds another one.
  lemma {:induction false} FindIsFirst(s: string, sub: string)
    requires sub != "" && Occurs(s, sub)
    ensures !Occurs(s[..Find(s, sub)], sub)
  {
    var i := Find(s, sub);
    if Occurs(s[..i], sub) {
      var j := Find(s[..i], sub);
      assert s[j..j + |sub|] == s[..i][j..j + |sub|];
      OccursAt(s, sub, j);
      assert false;
    }
  }

  lemma OccursInLarger(a: string, s: string, b: string, sub: string)
    requires Occurs(s, sub)
    ensures Occurs(a + s + b, sub)
  {
    var i := Find(s, sub);
    assert (a + s + b)[|a| + i..|a| + i + |sub|] == s[i..i + |sub|];
    OccursAt(a + s + b, sub, |a| + i);
  }

  // No part of a split holds the separator.
  lemma {:induction false} SplitParts(s: string, sep: string)
    requires sep != ""
    ensures forall part :: part in Split(s, sep) ==> !Occurs(part, sep)
  {
    if Occurs(s, sep) {
      FindIsFirst(s, sep);
      SplitParts(s[Find(s, sep) + |sep|..], sep);
    }
  }

  // A separator whose first character comes nowhere else in it cannot straddle its own occurrences.
  ghost predicate Borderless(sep: string) {
    sep != "" && forall k :: 0 < k < |sep| ==> sep[k] != sep[0]
  }

  lemma {:induction false} FindPastClean(x: string, sep: string, y: string)
    requires Borderless(sep) && !Occurs(x, sep)
    ensures Occurs(x + sep + y, sep) && Find(x + sep + y, sep) == |x|
  {
    var s := x + sep + y;
    assert At(s, sep, |x|);
    OccursAt(s, sep, |x|);
    OccursIffAt(x, sep);
    forall i: nat | i < |x| ensures !At(s, sep, i) {
      if i + |sep| <= |x| {
        assert s[i..i + |sep|] == x[i..i + |sep|];
        assert !At(x, sep, i);
      } else {
        assert s[i..i + |sep|][|x| - i] == s[|x|] == sep[0];
      }
    }
  }

  lemma SplitFirst(x: string, sep: string, y: string)
    requires Borderless(sep) && !Occurs(x, sep)
    ensures Split(x + sep + y, sep) == [x] + Split(y, sep)
  {
    var s := x + sep + y;
    FindPastClean(x, sep, y);
    assert s[..|x|] == x && s[|x| + |sep|..] == y;
  }

  // Splitting what was joined gives the parts back.
  lemma {:induction false} SplitJoined(parts: seq<string>, sep: string)
    requires Borderless(sep) && parts != []
    requires forall part :: part in parts ==> !Occurs(part, sep)
    ensures Split(Join(sep, parts), sep) == parts
  {
    if |parts| > 1 {
      assert parts[0] in parts && forall part :: part in parts[1..] ==> part in parts;
      SplitJoined(parts[1..], sep);
      SplitFirst(parts[0], sep, Join(sep, parts[1..]));
    }
  }
}
