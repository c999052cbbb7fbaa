/**
  The two pieces of the Rust string library the client builds its URIs with:
  `str::replace` (every leftmost, non-overlapping match of a pattern is
  replaced) and the decimal `to_string` of an unsigned integer.
*/
module Strings {

  // ****** Pattern replacement **********

  /** `p` occurs in `s` starting at index `i`. */
  predicate OccursAt(s: string, i: int, p: string)
  {
    0 <= i && i + |p| <= |s| && s[i..i + |p|] == p
  }

  /**
    `s.replace(from, to)`: scans left to right, replacing each match and
    resuming after it. An empty pattern matches before every character and
    at the end, as in Rust.
  */
  function Replace(s: string, from: string, to: string): (r: string)
    ensures from == to ==> r == s
    ensures from != [] && |to| == |from| ==> |r| == |s|
    decreases |s|
  {
    if from == [] then
      if s == [] then to else to + [s[0]] + Replace(s[1..], from, to)
    else if |s| < |from| then s
    else if s[..|from|] == from then to + Replace(s[|from|..], from, to)
    else [s[0]] + Replace(s[1..], from, to)
  }

  /** `p` occurs nowhere in `s`. */
  predicate Lacks(s: string, p: string)
  {
    forall i :: 0 <= i < |s| ==> !OccursAt(s, i, p)
  }

  /** A match at the front is replaced and the scan resumes after it. */
  lemma ReplaceHead(p: string, rest: string, to: string)
    requires p != []
    ensures Replace(p + rest, p, to) == to + Replace(rest, p, to)
  {
    assert (p + rest)[..|p|] == p;
    assert (p + rest)[|p|..] == rest;
  }

  /** Where no match starts, one character is copied and the scan moves on. */
  lemma ReplaceStep(s: string, p: string, to: string)
    requires p != [] && s != []
    requires !OccursAt(s, 0, p)
    ensures Replace(s, p, to) == [s[0]] + Replace(s[1..], p, to)
  {
    if |s| < |p| {
      assert [s[0]] + s[1..] == s;
    }
  }

  /** Where no match starts at index `k`, the scan from `k` copies `s[k]` and moves on. */
  lemma ReplaceStepAt(s: string, k: nat, p: string, to: string)
    requires p != [] && k < |s| && !OccursAt(s, k, p)
    ensures Replace(s[k..], p, to) == [s[k]] + Replace(s[k + 1..], p, to)
  {
    var t := s[k..];
    if k + |p| <= |s| {
      assert t[0..|p|] == s[k..k + |p|];
    }
    assert !OccursAt(t, 0, p);
    ReplaceStep(t, p, to);
    assert t[1..] == s[k + 1..];
  }

  lemma ConsSlice(s: string, k: nat, j: nat, r: string)
    requires k < j <= |s|
    ensures [s[k]] + (s[k + 1..j] + r) == s[k..j] + r
  {
    assert s[k..j] == [s[k]] + s[k + 1..j];
  }

  /** From index `k` of `s`, a stretch up to `j` in which no match starts is copied unchanged. */
  lemma {:induction false} ReplaceFrom(s: string, k: nat, j: nat, p: string, to: string)
    requires p != [] && k <= j <= |s|
    requires forall i :: k <= i < j ==> !OccursAt(s, i, p)
    ensures Replace(s[k..], p, to) == s[k..j] + Replace(s[j..], p, to)
    decreases j - k
  {
    if k < j {
      ReplaceStepAt(s, k, p, to);
      ReplaceFrom(s, k + 1, j, p, to);
      ConsSlice(s, k, j, Replace(s[j..], p, to));
    }
  }

  /** A prefix in which no match starts is copied unchanged. */
  lemma ReplaceSkip(a: string, b: string, p: string, to: string)
    requires p != []
    requires forall i :: 0 <= i < |a| ==> !OccursAt(a + b, i, p)
    ensures Replace(a + b, p, to) == a + Replace(b, p, to)
  {
    var s := a + b;
    ReplaceFrom(s, 0, |a|, p, to);
    assert s[0..] == s && s[0..|a|] == a && s[|a|..] == b;
  }

  /** Text in which the pattern never occurs is left as it is. */
  lemma ReplaceAbsent(s: string, p: string, to: string)
    requires p != []
    requires forall i :: 0 <= i < |s| ==> !OccursAt(s, i, p)
    ensures Replace(s, p, to) == s
  {
    assert s + [] == s;
    ReplaceSkip(s, [], p, to);
  }

  /** `ReplaceAbsent` as an implication, for use inside function bodies. */
  lemma ReplaceIfAbsent(s: string, p: string, to: string)
    requires p != []
    ensures Lacks(s, p) ==> Replace(s, p, to) == s
  {
    if Lacks(s, p) {
      ReplaceAbsent(s, p, to);
    }
  }

  // ****** URI placeholders **********

  predicate IsLower(c: char) { 'a' <= c <= 'z' }

  /** A path placeholder such as `:sector_id`: a colon, then a lower-case letter. */
  predicate IsPlaceholder(p: string)
  {
    |p| >= 2 && p[0] == ':' && IsLower(p[1])
  }

  /** No colon in `s` is followed by a lower-case letter, so no placeholder can start inside it. */
  predicate PlaceholderFree(s: string)
  {
    forall i :: 0 <= i < |s| - 1 && s[i] == ':' ==> !IsLower(s[i + 1])
  }

  /** Appending text with no colon, which does not start with a lower-case letter, keeps text placeholder-free. */
  lemma PlaceholderFreeAppend(a: string, b: string)
    requires PlaceholderFree(a)
    requires ':' !in b
    requires b != [] ==> !IsLower(b[0])
    ensures PlaceholderFree(a + b)
  {
    var s := a + b;
    forall i | 0 <= i < |s| - 1 && s[i] == ':'
      ensures !IsLower(s[i + 1])
    {
      if i + 1 < |a| {
        assert s[i] == a[i] && s[i + 1] == a[i + 1];
      } else if i < |a| {
        assert s[i + 1] == b[0];
      }
    }
  }

  /**
    No placeholder starts inside placeholder-free text `a`, even one running
    on into what follows, provided what follows does not start with a
    lower-case letter.
  */
  lemma NoPlaceholderIn(a: string, b: string, p: string)
    requires IsPlaceholder(p)
    requires PlaceholderFree(a)
    requires b != [] ==> !IsLower(b[0])
    ensures forall i :: 0 <= i < |a| ==> !OccursAt(a + b, i, p)
  {
    var s := a + b;
    forall i | 0 <= i < |a|
      ensures !OccursAt(s, i, p)
    {
      if i + |p| <= |s| {
        assert s[i..i + |p|][0] == s[i] && s[i..i + |p|][1] == s[i + 1];
        if i + 1 < |a| {
          assert s[i] == a[i] && s[i + 1] == a[i + 1];
        } else {
          assert s[i + 1] == b[0];
        }
      }
    }
  }

  /**
    Replacing a placeholder that occurs once, after placeholder-free text and
    nowhere in what follows, puts the replacement in its place.
  */
  lemma ReplaceOnce(a: string, p: string, rest: string, to: string)
    requires IsPlaceholder(p) && PlaceholderFree(a)
    requires forall i :: 0 <= i < |rest| ==> !OccursAt(rest, i, p)
    ensures Replace(a + p + rest, p, to) == a + to + rest
  {
    assert Replace(a + p + rest, p, to) == a + Replace(p + rest, p, to) by {
      NoPlaceholderIn(a, p + rest, p);
      assert a + p + rest == a + (p + rest);
      ReplaceSkip(a, p + rest, p, to);
    }
    assert Replace(p + rest, p, to) == to + rest by {
      ReplaceHead(p, rest, to);
      ReplaceAbsent(rest, p, to);
    }
    assert a + (to + rest) == a + to + rest;
  }

  /** A segment that may follow a placeholder-free prefix and a slash in a URI path. */
  predicate PathSafe(t: string)
  {
    ':' !in t && '/' !in t && (t != [] ==> !IsLower(t[0]))
  }

  /**
    Filling `a + p1 + "/" + p2 + "/" + p3` one placeholder at a time, where
    no placeholder occurs again after its own position, puts each value in
    its place.
  */
  lemma ReplaceThree(a: string, p1: string, p2: string, p3: string, t1: string, t2: string, t3: string)
    requires IsPlaceholder(p1) && IsPlaceholder(p2) && IsPlaceholder(p3)
    requires PlaceholderFree(a)
    requires PathSafe(t1) && PathSafe(t2)
    requires forall i :: 0 <= i < |"/" + p2 + "/" + p3| ==> !OccursAt("/" + p2 + "/" + p3, i, p1)
    requires forall i :: 0 <= i < |"/" + p3| ==> !OccursAt("/" + p3, i, p2)
    ensures Replace(Replace(Replace(a + p1 + "/" + p2 + "/" + p3, p1, t1), p2, t2), p3, t3)
         == a + t1 + "/" + t2 + "/" + t3
  {
    var r1 := "/" + p2 + "/" + p3;
    assert a + p1 + "/" + p2 + "/" + p3 == a + p1 + r1;
    ReplaceOnce(a, p1, r1, t1);
    var a2 := a + t1 + "/";
    PlaceholderFreeAppend(a, t1);
    PlaceholderFreeAppend(a + t1, "/");
    assert a + t1 + r1 == a2 + p2 + "/" + p3;
    ReplaceTwo(a2, p2, p3, t2, t3);
  }

  /** Filling `a + p1 + "/" + p2`, where `p1` does not occur after its own position, puts both values in place. */
  lemma ReplaceTwo(a: string, p1: string, p2: string, t1: string, t2: string)
    requires IsPlaceholder(p1) && IsPlaceholder(p2)
    requires PlaceholderFree(a)
    requires PathSafe(t1)
    requires forall i :: 0 <= i < |"/" + p2| ==> !OccursAt("/" + p2, i, p1)
    ensures Replace(Replace(a + p1 + "/" + p2, p1, t1), p2, t2) == a + t1 + "/" + t2
  {
    FillFirst(a, p1, p2, t1);
    ReplaceLast(a + t1 + "/", p2, t2);
  }

  /** The first of two placeholders filled: what is left is placeholder-free text and the second placeholder. */
  lemma FillFirst(a: string, p1: string, p2: string, t1: string)
    requires IsPlaceholder(p1) && PlaceholderFree(a) && PathSafe(t1)
    requires forall i :: 0 <= i < |"/" + p2| ==> !OccursAt("/" + p2, i, p1)
    ensures Replace(a + p1 + "/" + p2, p1, t1) == a + t1 + "/" + p2
    ensures PlaceholderFree(a + t1 + "/")
  {
    var r1 := "/" + p2;
    assert a + p1 + "/" + p2 == a + p1 + r1;
    ReplaceOnce(a, p1, r1, t1);
    assert a + t1 + r1 == a + t1 + "/" + p2;
    PlaceholderFreeAppend(a, t1);
    PlaceholderFreeAppend(a + t1, "/");
  }

  /** A placeholder at the very end, after placeholder-free text, is replaced. */
  lemma ReplaceLast(a: string, p: string, to: string)
    requires IsPlaceholder(p) && PlaceholderFree(a)
    ensures Replace(a + p, p, to) == a + to
  {
    var empty: string := [];
    assert a + p + empty == a + p;
    ReplaceOnce(a, p, empty, to);
    assert a + to + empty == a + to;
  }

  // ****** Splitting at a separator **********

  /** The index of the first `c` in `s`, or `|s|` when there is none. */
  function IndexOf(s: string, c: char): (k: nat)
    ensures k <= |s|
  {
    if s == [] || s[0] == c then 0 else 1 + IndexOf(s[1..], c)
  }

  lemma {:induction false} IndexOfConcat(a: string, c: char, b: string)
    requires c !in a
    ensures IndexOf(a + [c] + b, c) == |a|
  {
    if a != [] {
      assert (a + [c] + b)[1..] == a[1..] + [c] + b;
      IndexOfConcat(a[1..], c, b);
    }
  }

  /** Text joined by a separator that the first part lacks splits back into its parts. */
  lemma SplitAt(a: string, c: char, b: string, a': string, b': string)
    requires c !in a && c !in a'
    requires a + [c] + b == a' + [c] + b'
    ensures a == a' && b == b'
  {
    var s := a + [c] + b;
    IndexOfConcat(a, c, b);
    IndexOfConcat(a', c, b');
    assert a == s[..|a|] && a' == s[..|a'|];
    assert b == s[|a| + 1..] && b' == s[|a'| + 1..];
  }

  /** Text made of a common prefix and three slash-separated fields, the first two slash-free, determines the fields. */
  lemma SplitFields(prefix: string, x1: string, x2: string, x3: string, y1: string, y2: string, y3: string)
    requires '/' !in x1 && '/' !in x2 && '/' !in y1 && '/' !in y2
    requires prefix + x1 + "/" + x2 + "/" + x3 == prefix + y1 + "/" + y2 + "/" + y3
    ensures x1 == y1 && x2 == y2 && x3 == y3
  {
    var u := prefix + x1 + "/" + x2 + "/" + x3;
    var u' := prefix + y1 + "/" + y2 + "/" + y3;
    assert x1 + ['/'] + (x2 + ['/'] + x3) == u[|prefix|..];
    assert y1 + ['/'] + (y2 + ['/'] + y3) == u'[|prefix|..];
    SplitAt(x1, '/', x2 + ['/'] + x3, y1, y2 + ['/'] + y3);
    SplitAt(x2, '/', x3, y2, y3);
  }

  /** The two-field case of `SplitFields`. */
  lemma SplitTwoFields(prefix: string, x1: string, x2: string, y1: string, y2: string)
    requires '/' !in x1 && '/' !in y1
    requires prefix + x1 + "/" + x2 == prefix + y1 + "/" + y2
    ensures x1 == y1 && x2 == y2
  {
    var u := prefix + x1 + "/" + x2;
    var u' := prefix + y1 + "/" + y2;
    assert x1 + ['/'] + x2 == u[|prefix|..];
    assert y1 + ['/'] + y2 == u'[|prefix|..];
    SplitAt(x1, '/', x2, y1, y2);
  }

  // ****** Decimal rendering **********

  predicate IsDigit(c: char) { '0' <= c <= '9' }

  predicate AllDigits(s: string)
  {
    forall i :: 0 <= i < |s| ==> IsDigit(s[i])
  }

  /** `n.to_string()`: the shortest decimal numeral, most significant digit first. */
  function DecimalString(n: nat): (r: string)
    ensures 1 <= |r| && AllDigits(r)
    ensures r[0] == '0' ==> n == 0
    ensures |r| > 1 ==> r[0] != '0'
  {
    if n < 10 then ['0' + n as char]
    else DecimalString(n / 10) + ['0' + (n % 10) as char]
  }

  /** The number a numeral of decimal digits denotes. */
  function DecimalValue(s: string): nat
    requires AllDigits(s)
  {
    if s == [] then 0
    else DecimalValue(s[..|s| - 1]) * 10 + (s[|s| - 1] - '0') as nat
  }

  /** Reading a rendered number back gives the number: rendering is injective. */
  lemma {:induction false} DecimalRoundTrip(n: nat)
    ensures DecimalValue(DecimalString(n)) == n
  {
    var r := DecimalString(n);
    if n >= 10 {
      DecimalRoundTrip(n / 10);
      assert r[..|r| - 1] == DecimalString(n / 10);
    }
  }

  /** A rendered number is colon-free and does not start with a letter, so it is safe inside a URI path. */
  lemma DecimalStringIsPathSafe(n: nat)
    ensures PathSafe(DecimalString(n))
  {
    var r := DecimalString(n);
    assert forall c :: c in r ==> IsDigit(c) by {
      forall c | c in r ensures IsDigit(c) {
        var i :| 0 <= i < |r| && r[i] == c;
      }
    }
  }
}
