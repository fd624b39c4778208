/** The parts of Go's `strings` package that the modelled code calls. */
module Strings {

  // ----- Split and Join on a one-character separator -----

  /** strings.Split(s, sep): always at least one piece, and no piece holds the separator. */
  function Split(s: string, sep: char): (pieces: seq<string>)
    ensures |pieces| >= 1
    ensures forall i :: 0 <= i < |pieces| ==> sep !in pieces[i]
  {
    if s == [] then
      [[]]
    else
      var rest := Split(s[1..], sep);
      if s[0] == sep then [[]] + rest else [[s[0]] + rest[0]] + rest[1..]
  }

  /** strings.Join(pieces, sep). */
  function Join(pieces: seq<string>, sep: char): string {
    if pieces == [] then []
    else if |pieces| == 1 then pieces[0]
    else pieces[0] + [sep] + Join(pieces[1..], sep)
  }

  lemma {:induction false} SplitWithoutSeparator(s: string, sep: char)
    requires sep !in s
    ensures Split(s, sep) == [s]
  {
    if s != [] {
      SplitWithoutSeparator(s[1..], sep);
      assert [s[0]] + s[1..] == s;
    }
  }

  /** Splitting after a separator-free head peels that head off. */
  lemma {:induction false} SplitHead(head: string, tail: string, sep: char)
    requires sep !in head
    ensures Split(head + [sep] + tail, sep) == [head] + Split(tail, sep)
  {
    var s := head + [sep] + tail;
    if head == [] {
      assert s[1..] == tail;
    } else {
      SplitHead(head[1..], tail, sep);
      assert s[1..] == head[1..] + [sep] + tail;
      assert [head[0]] + head[1..] == head;
    }
  }

  lemma {:induction false} SplitOfJoin(pieces: seq<string>, sep: char)
    requires |pieces| >= 1
    requires forall i :: 0 <= i < |pieces| ==> sep !in pieces[i]
    ensures Split(Join(pieces, sep), sep) == pieces
  {
    if |pieces| == 1 {
      SplitWithoutSeparator(pieces[0], sep);
    } else {
      SplitOfJoin(pieces[1..], sep);
      SplitHead(pieces[0], Join(pieces[1..], sep), sep);
      assert [pieces[0]] + pieces[1..] == pieces;
    }
  }

  /** A character put before the first piece comes out before the joined text. */
  lemma JoinCons(c: char, pieces: seq<string>, sep: char)
    requires |pieces| >= 1
    ensures Join([[c] + pieces[0]] + pieces[1..], sep) == [c] + Join(pieces, sep)
  {
    var longer := [[c] + pieces[0]] + pieces[1..];
    assert longer[1..] == pieces[1..];
    if |pieces| > 1 {
      assert [c] + pieces[0] + [sep] + Join(pieces[1..], sep) == [c] + (pieces[0] + [sep] + Join(pieces[1..], sep));
    }
  }

  lemma {:induction false} JoinOfSplit(s: string, sep: char)
    ensures Join(Split(s, sep), sep) == s
  {
    if s != [] {
      JoinOfSplit(s[1..], sep);
      var rest := Split(s[1..], sep);
      assert [s[0]] + s[1..] == s;
      if s[0] == sep {
        assert ([[]] + rest)[1..] == rest;
        assert [] + [sep] + s[1..] == [sep] + s[1..];
      } else {
        JoinCons(s[0], rest, sep);
      }
    }
  }

  // ----- TrimSpace -----

  /** unicode.IsSpace. */
  predicate IsSpace(c: char) {
    || '\t' <= c <= '\r' || c == ' ' || c == '\U{0085}' || c == '\U{00A0}' || c == '\U{1680}'
    || '\U{2000}' <= c <= '\U{200A}' || c == '\U{2028}' || c == '\U{2029}' || c == '\U{202F}'
    || c == '\U{205F}' || c == '\U{3000}'
  }

  function TrimLeft(s: string): (r: string)
    ensures r == [] || !IsSpace(r[0])
    ensures forall c :: c in r ==> c in s
    ensures s == [] || !IsSpace(s[0]) ==> r == s
    ensures r != [] ==> s != [] && r[|r| - 1] == s[|s| - 1]
  {
    if s != [] && IsSpace(s[0]) then TrimLeft(s[1..]) else s
  }

  function TrimRight(s: string): (r: string)
    ensures r == [] || !IsSpace(r[|r| - 1])
    ensures r <= s
    ensures s == [] || !IsSpace(s[|s| - 1]) ==> r == s
  {
    if s != [] && IsSpace(s[|s| - 1]) then TrimRight(s[..|s| - 1]) else s
  }

  /** True of texts that TrimSpace leaves alone. */
  predicate Trimmed(s: string) {
    s == [] || (!IsSpace(s[0]) && !IsSpace(s[|s| - 1]))
  }

  /** strings.TrimSpace: the result has no blank at either end, and such a text is left alone. */
  function TrimSpace(s: string): (r: string)
    ensures Trimmed(r)
    ensures forall c :: c in r ==> c in s
    ensures Trimmed(s) ==> r == s
  {
    TrimRight(TrimLeft(s))
  }

  /** TrimSpace takes exactly the blanks at both ends. */
  lemma TrimBlanks(a: string, s: string, b: string)
    requires (forall c :: c in a ==> IsSpace(c)) && (forall c :: c in b ==> IsSpace(c)) && Trimmed(s)
    ensures TrimSpace(a + s + b) == s
  {
    if s == [] {
      assert a + s + b == a + b;
      TrimLeftBlanks(a + b, []);
      assert a + b + [] == a + b;
    } else {
      assert a + s + b == a + (s + b);
      TrimLeftBlanks(a, s + b);
      TrimRightBlanks(s, b);
    }
  }

  lemma {:induction false} TrimLeftBlanks(a: string, s: string)
    requires (forall c :: c in a ==> IsSpace(c)) && (s == [] || !IsSpace(s[0]))
    ensures TrimLeft(a + s) == s
  {
    if a == [] {
      assert a + s == s;
    } else {
      assert (a + s)[1..] == a[1..] + s;
      TrimLeftBlanks(a[1..], s);
    }
  }

  lemma {:induction false} TrimRightBlanks(s: string, b: string)
    requires (forall c :: c in b ==> IsSpace(c)) && (s == [] || !IsSpace(s[|s| - 1]))
    ensures TrimRight(s + b) == s
    decreases |b|
  {
    if b == [] {
      assert s + b == s;
    } else {
      var n := |b| - 1;
      assert (s + b)[..|s| + n] == s + b[..n] && (s + b)[|s| + n] == b[n];
      TrimRightBlanks(s, b[..n]);
    }
  }

  // ----- Substrings -----

  predicate HasPrefix(s: string, prefix: string) {
    prefix <= s
  }

  /** strings.TrimPrefix. */
  function TrimPrefix(s: string, prefix: string): string {
    if HasPrefix(s, prefix) then s[|prefix|..] else s
  }

  /** strings.Contains. */
  predicate Contains(s: string, sub: string) {
    exists i :: 0 <= i <= |s| && HasPrefix(s[i..], sub)
  }

  lemma ContainsPrefix(prefix: string, rest: string)
    ensures Contains(prefix + rest, prefix)
  {
    assert (prefix + rest)[0..] == prefix + rest;
  }

  /** strings.Replace(s, pat, "", -1): drops every non-overlapping occurrence, left to right. */
  function RemoveAll(s: string, pat: string): (r: string)
    requires pat != []
    decreases |s|
    ensures |r| <= |s|
  {
    if s == [] then []
    else if HasPrefix(s, pat) then RemoveAll(s[|pat|..], pat)
    else [s[0]] + RemoveAll(s[1..], pat)
  }

  lemma ContainsStep(s: string, pat: string)
    requires s != []
    ensures Contains(s, pat) <==> HasPrefix(s, pat) || Contains(s[1..], pat)
  {
    assert s[0..] == s;
    if Contains(s[1..], pat) {
      var i :| 0 <= i <= |s[1..]| && HasPrefix(s[1..][i..], pat);
      assert s[i + 1..] == s[1..][i..];
    }
    if Contains(s, pat) && !HasPrefix(s, pat) {
      var i :| 0 <= i <= |s| && HasPrefix(s[i..], pat);
      assert s[1..][i - 1..] == s[i..];
    }
  }

  lemma {:induction false} RemoveAllShrinks(s: string, pat: string)
    requires pat != []
    ensures Contains(s, pat) ==> |RemoveAll(s, pat)| < |s|
    decreases |s|
  {
    if s != [] && !HasPrefix(s, pat) {
      ContainsStep(s, pat);
      RemoveAllShrinks(s[1..], pat);
    }
  }

  lemma {:induction false} RemoveAllKeeps(s: string, pat: string)
    requires pat != [] && !Contains(s, pat)
    ensures RemoveAll(s, pat) == s
    decreases |s|
  {
    if s != [] {
      ContainsStep(s, pat);
      RemoveAllKeeps(s[1..], pat);
      assert [s[0]] + s[1..] == s;
    }
  }

  /** Removing the pattern changes a text exactly when the text holds the pattern. */
  lemma RemoveAllIdentity(s: string, pat: string)
    requires pat != []
    ensures RemoveAll(s, pat) == s <==> !Contains(s, pat)
  {
    if Contains(s, pat) {
      RemoveAllShrinks(s, pat);
    } else {
      RemoveAllKeeps(s, pat);
    }
  }

  // ----- Reversal -----

  function Reverse<T>(s: seq<T>): seq<T> {
    seq(|s|, i requires 0 <= i < |s| => s[|s| - 1 - i])
  }

  // ----- Decimal numbers -----

  /** strconv.Itoa on a natural number. */
  function Itoa(n: nat): (r: string)
    ensures |r| >= 1
    ensures |r| == 1 <==> n < 10
  {
    if n < 10 then [Digit(n)] else Itoa(n / 10) + [Digit(n % 10)]
  }

  function Digit(n: nat): (c: char)
    requires n < 10
  {
    "0123456789"[n]
  }

  lemma DigitInjective(m: nat, n: nat)
    requires m < 10 && n < 10
    requires Digit(m) == Digit(n)
    ensures m == n
  {
  }

  lemma {:induction false} ItoaInjective(m: nat, n: nat)
    requires Itoa(m) == Itoa(n)
    ensures m == n
  {
    var s, t := Itoa(m), Itoa(n);
    if m < 10 {
      assert s[0] == t[0];
    } else {
      assert s[..|s| - 1] == Itoa(m / 10) && t[..|t| - 1] == Itoa(n / 10);
      ItoaInjective(m / 10, n / 10);
      assert s[|s| - 1] == t[|t| - 1];
      DigitInjective(m % 10, n % 10);
    }
  }
}
