/**
  The parts of Go's strings and sort packages that request signing uses:
  splitting and joining on one character, and sorting under the lexicographic
  order of characters.
 */
module Strings {

  // ------------------------------------------------------- split and join

  function Split(s: string, sep: char): (parts: seq<string>)
    ensures parts != []
  {
    if s == [] then [[]]
    else
      var rest := Split(s[1..], sep);
      if s[0] == sep then [[]] + rest else [[s[0]] + rest[0]] + rest[1..]
  }

  function Join(parts: seq<string>, sep: char): string {
    if parts == [] then []
    else if |parts| == 1 then parts[0]
    else parts[0] + [sep] + Join(parts[1..], sep)
  }

  ghost predicate Free(s: string, c: char) {
    c !in s
  }

  ghost predicate AllFree(parts: seq<string>, c: char) {
    forall i | 0 <= i < |parts| :: Free(parts[i], c)
  }

  lemma {:induction false} SplitIsFree(s: string, sep: char)
    ensures AllFree(Split(s, sep), sep)
  {
    if s != [] {
      SplitIsFree(s[1..], sep);
    }
  }

  lemma {:induction false} JoinUndoesSplit(s: string, sep: char)
    ensures Join(Split(s, sep), sep) == s
  {
    if s != [] {
      var rest := Split(s[1..], sep);
      JoinUndoesSplit(s[1..], sep);
      if s[0] != sep && |rest| > 1 {
        assert ([[s[0]] + rest[0]] + rest[1..])[1..] == rest[1..];
      }
    }
  }

  lemma {:induction false} SplitFirst(p: string, tail: string, sep: char)
    requires Free(p, sep)
    ensures Split(p, sep) == [p]
    ensures Split(p + [sep] + tail, sep) == [p] + Split(tail, sep)
  {
    if p == [] {
      assert p + [sep] + tail == [sep] + tail;
    } else {
      assert forall c | c in p[1..] :: c in p;
      SplitFirst(p[1..], tail, sep);
      assert (p + [sep] + tail)[1..] == p[1..] + [sep] + tail;
      assert [p[0]] + p[1..] == p;
    }
  }

  lemma {:induction false} SplitUndoesJoin(parts: seq<string>, sep: char)
    requires parts != [] && AllFree(parts, sep)
    ensures Split(Join(parts, sep), sep) == parts
  {
    SplitFirst(parts[0], Join(parts[1..], sep), sep);
    if |parts| > 1 {
      SplitUndoesJoin(parts[1..], sep);
    }
  }

  lemma {:induction false} JoinConcat(a: seq<string>, b: seq<string>, sep: char)
    requires a != [] && b != []
    ensures Join(a + b, sep) == Join(a, sep) + [sep] + Join(b, sep)
  {
    assert (a + b)[1..] == a[1..] + b;
    if |a| > 1 {
      JoinConcat(a[1..], b, sep);
    } else {
      assert a[1..] + b == b;
    }
  }

  lemma {:induction false} JoinIsFree(parts: seq<string>, sep: char, c: char)
    requires AllFree(parts, c) && sep != c
    ensures Free(Join(parts, sep), c)
  {
    if |parts| > 1 {
      JoinIsFree(parts[1..], sep, c);
    }
  }

  // ------------------------------------------------------------- sorting

  predicate Leq(a: string, b: string) {
    a == [] || (b != [] && (a[0] < b[0] || (a[0] == b[0] && Leq(a[1..], b[1..]))))
  }

  lemma {:induction false} LeqTotal(a: string, b: string)
    ensures Leq(a, b) || Leq(b, a)
    ensures Leq(a, b) && Leq(b, a) ==> a == b
  {
    if a != [] && b != [] && a[0] == b[0] {
      LeqTotal(a[1..], b[1..]);
      assert a == [a[0]] + a[1..] && b == [b[0]] + b[1..];
    }
  }

  lemma {:induction false} LeqTransitive(a: string, b: string, c: string)
    requires Leq(a, b) && Leq(b, c)
    ensures Leq(a, c)
  {
    if a != [] && a[0] == b[0] == c[0] {
      LeqTransitive(a[1..], b[1..], c[1..]);
    }
  }

  ghost predicate Sorted(xs: seq<string>) {
    forall i, j | 0 <= i <= j < |xs| :: Leq(xs[i], xs[j])
  }

  function Insert(x: string, xs: seq<string>): (ys: seq<string>)
    ensures |ys| == |xs| + 1
  {
    if xs == [] || Leq(x, xs[0]) then [x] + xs else [xs[0]] + Insert(x, xs[1..])
  }

  /** sort.Strings. */
  function Sort(xs: seq<string>): (ys: seq<string>)
    ensures |ys| == |xs|
  {
    if xs == [] then [] else Insert(xs[0], Sort(xs[1..]))
  }

  lemma {:induction false} InsertSorts(x: string, xs: seq<string>)
    requires Sorted(xs)
    ensures Sorted(Insert(x, xs)) && multiset(Insert(x, xs)) == multiset(xs) + multiset{x}
  {
    LeqTotal(x, x);
    if xs != [] && !Leq(x, xs[0]) {
      InsertSorts(x, xs[1..]);
      LeqTotal(x, xs[0]);
      assert xs == [xs[0]] + xs[1..];
      forall y | y in Insert(x, xs[1..]) ensures Leq(xs[0], y) {
        assert y in multiset(Insert(x, xs[1..]));
      }
    } else {
      forall j | 0 <= j < |xs| ensures Leq(x, xs[j]) {
        LeqTransitive(x, xs[0], xs[j]);
      }
    }
  }

  lemma {:induction false} SortSorts(xs: seq<string>)
    ensures Sorted(Sort(xs)) && multiset(Sort(xs)) == multiset(xs)
  {
    if xs != [] {
      SortSorts(xs[1..]);
      InsertSorts(xs[0], Sort(xs[1..]));
      assert xs == [xs[0]] + xs[1..];
    }
  }

  lemma LeastIsFirst(xs: seq<string>, y: string)
    requires Sorted(xs) && y in multiset(xs)
    ensures xs != [] && Leq(xs[0], y)
  {
    assert y in xs;
  }

  lemma TailMultiset(xs: seq<string>)
    requires xs != []
    ensures multiset(xs[1..]) == multiset(xs) - multiset{xs[0]} && xs[0] in multiset(xs)
  {
    assert xs == [xs[0]] + xs[1..];
  }

  /** A multiset has one sorted enumeration. */
  lemma {:induction false} SortedIsUnique(xs: seq<string>, ys: seq<string>)
    requires Sorted(xs) && Sorted(ys) && multiset(xs) == multiset(ys)
    ensures xs == ys
  {
    hide Leq;
    if xs == [] {
      if ys != [] {
        TailMultiset(ys);
      }
    } else {
      TailMultiset(xs);
      LeastIsFirst(ys, xs[0]);
      TailMultiset(ys);
      LeastIsFirst(xs, ys[0]);
      LeqTotal(xs[0], ys[0]);
      SortedIsUnique(xs[1..], ys[1..]);
      assert xs == [xs[0]] + xs[1..] && ys == [ys[0]] + ys[1..];
    }
  }

  /** Sorting forgets exactly the order. */
  lemma SortIsCanonical(xs: seq<string>, ys: seq<string>)
    ensures Sort(xs) == Sort(ys) <==> multiset(xs) == multiset(ys)
  {
    SortSorts(xs);
    SortSorts(ys);
    if multiset(xs) == multiset(ys) {
      SortedIsUnique(Sort(xs), Sort(ys));
    }
  }

  // ------------------------------------------------------------ characters

  function LowerChar(c: char): char {
    if 'A' <= c <= 'Z' then c - 'A' + 'a' else c
  }

  /** strings.ToLower on ASCII. */
  function Lower(s: string): string {
    seq(|s|, i requires 0 <= i < |s| => LowerChar(s[i]))
  }

  /** unicode.IsSpace. */
  predicate IsSpace(c: char) {
    || '\t' <= c <= '\r' || c == ' ' || c == '\U{85}' || c == '\U{A0}'
    || c == '\U{1680}' || '\U{2000}' <= c <= '\U{200A}' || c == '\U{2028}' || c == '\U{2029}'
    || c == '\U{202F}' || c == '\U{205F}' || c == '\U{3000}'
  }

  /** strings.TrimSpace. */
  function TrimSpace(s: string): (t: string)
    ensures t == [] || (!IsSpace(t[0]) && !IsSpace(t[|t| - 1]))
    ensures forall c | c in t :: c in s
  {
    if s == [] then []
    else if IsSpace(s[0]) then TrimSpace(s[1..])
    else if IsSpace(s[|s| - 1]) then TrimSpace(s[..|s| - 1])
    else s
  }

  // --------------------------------------- what these functions come to

  /** Up to i the two are the same, and there a has the smaller character. */
  ghost predicate BelowAt(a: string, b: string, i: int) {
    0 <= i < |a| && i < |b| && a[..i] == b[..i] && a[i] < b[i]
  }

  lemma BelowInTail(a: string, b: string, i: int)
    requires a != [] && b != [] && a[0] == b[0] && 0 <= i
    ensures BelowAt(a[1..], b[1..], i) <==> BelowAt(a, b, i + 1)
  {
    if i < |a| - 1 && i < |b| - 1 {
      assert a[..i + 1] == [a[0]] + a[1..][..i] && b[..i + 1] == [b[0]] + b[1..][..i];
      assert a[..i + 1][1..] == a[1..][..i] && b[..i + 1][1..] == b[1..][..i];
    }
  }

  lemma BelowAtFront(a: string, b: string, i: int)
    requires BelowAt(a, b, i)
    ensures 0 <= i && a != [] && b != [] && (i == 0 ==> a[0] < b[0]) && (i > 0 ==> a[0] == b[0])
  {
    if i > 0 {
      assert a[..i][0] == b[..i][0];
    }
  }

  lemma BelowAtOnce(a: string, b: string)
    requires a != [] && b != [] && a[0] < b[0]
    ensures BelowAt(a, b, 0)
  {}

  ghost predicate Below(a: string, b: string) {
    exists i :: BelowAt(a, b, i)
  }

  lemma BelowByFront(a: string, b: string)
    ensures Below(a, b) ==> a != [] && b != []
    ensures a != [] && b != [] ==> (Below(a, b) <==> a[0] < b[0] || (a[0] == b[0] && Below(a[1..], b[1..])))
  {
    hide BelowAt;
    if i :| BelowAt(a, b, i) {
      BelowAtFront(a, b, i);
      if i > 0 {
        BelowInTail(a, b, i - 1);
      }
    }
    if a != [] && b != [] {
      if a[0] < b[0] {
        BelowAtOnce(a, b);
      } else if a[0] == b[0] && Below(a[1..], b[1..]) {
        var i :| BelowAt(a[1..], b[1..], i);
        BelowAtFront(a[1..], b[1..], i);
        BelowInTail(a, b, i);
      }
    }
  }

  /** The order of sort.Strings: a prefix first, else by the first character that differs. */
  lemma {:induction false} LeqIsLexicographic(a: string, b: string)
    ensures Leq(a, b) <==> a <= b || Below(a, b)
  {
    hide Below;
    BelowByFront(a, b);
    if a != [] && b != [] && a[0] == b[0] {
      LeqIsLexicographic(a[1..], b[1..]);
      assert a == [a[0]] + a[1..] && b == [b[0]] + b[1..];
    }
  }

  const UPPER := "ABCDEFGHIJKLMNOPQRSTUVWXYZ"
  const LOWER := "abcdefghijklmnopqrstuvwxyz"

  lemma UpperLetters()
    ensures |UPPER| == 26 && forall j | 0 <= j < 26 :: UPPER[j] as int == 65 + j
  {}

  lemma LowerLetters()
    ensures |LOWER| == 26 && forall j | 0 <= j < 26 :: LOWER[j] as int == 97 + j
  {}

  /** Each capital becomes the small letter in the same place of the alphabet; nothing else changes. */
  lemma LowerIsByLetter(s: string, i: nat)
    requires i < |s|
    ensures |Lower(s)| == |s| && |LOWER| == |UPPER|
    ensures (forall j | 0 <= j < |UPPER| && s[i] == UPPER[j] :: Lower(s)[i] == LOWER[j])
    ensures s[i] !in UPPER ==> Lower(s)[i] == s[i]
  {
    hide UPPER, LOWER;
    UpperLetters();
    LowerLetters();
    if 'A' <= s[i] <= 'Z' {
      assert UPPER[s[i] as int - 65] == s[i];
    }
  }

  ghost predicate AllSpace(s: string) {
    forall i | 0 <= i < |s| :: IsSpace(s[i])
  }

  lemma AllSpaceMore(c: char, s: string)
    requires IsSpace(c) && AllSpace(s)
    ensures AllSpace([c] + s) && AllSpace(s + [c])
  {}

  lemma TrimStep(s: string)
    requires s != []
    ensures IsSpace(s[0]) ==> TrimSpace(s) == TrimSpace(s[1..])
    ensures !IsSpace(s[0]) && IsSpace(s[|s| - 1]) ==> TrimSpace(s) == TrimSpace(s[..|s| - 1])
    ensures !IsSpace(s[0]) && !IsSpace(s[|s| - 1]) ==> TrimSpace(s) == s
  {
    hide IsSpace;
  }

  lemma AddFront(c: char, front: string, t: string, back: string)
    ensures [c] + (front + t + back) == ([c] + front) + t + back
  {}

  lemma AddBack(c: char, front: string, t: string, back: string)
    ensures (front + t + back) + [c] == front + t + (back + [c])
  {}

  /** TrimSpace takes white space off both ends, all of it, and nothing else. */
  lemma {:induction false} TrimSpaceTrims(s: string) returns (front: string, back: string)
    ensures s == front + TrimSpace(s) + back && AllSpace(front) && AllSpace(back)
    ensures var t := TrimSpace(s); t != [] ==> !IsSpace(t[0]) && !IsSpace(t[|t| - 1])
  {
    hide IsSpace, AllSpace, TrimSpace;
    front, back := [], [];
    NoSpace();
    if s != [] {
      var first, last := s[0], s[|s| - 1];
      TrimStep(s);
      if IsSpace(first) {
        front, back := TrimSpaceTrims(s[1..]);
        AllSpaceMore(first, front);
        AddFront(first, front, TrimSpace(s), back);
        assert s == [first] + s[1..];
        front := [first] + front;
      } else if IsSpace(last) {
        front, back := TrimSpaceTrims(s[..|s| - 1]);
        AllSpaceMore(last, back);
        AddBack(last, front, TrimSpace(s), back);
        assert s == s[..|s| - 1] + [last];
        back := back + [last];
      }
    }
  }

  lemma NoSpace()
    ensures AllSpace([]) && TrimSpace([]) == []
  {}

  /** White space in ASCII. */
  lemma AsciiSpace(c: char)
    requires c < '\U{80}'
    ensures IsSpace(c) <==> c in {'\t', '\n', '\U{0B}', '\U{0C}', '\r', ' '}
  {}
}
