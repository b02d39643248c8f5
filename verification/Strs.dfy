/**
 * The parts of Go's string library that the modelled code leans on: splitting
 * and joining on one character, substring tests, trimming, and the byte order
 * behind sort.Strings.
 */
module Strs {

  // ---------- splitting and joining ----------

  /** strings.Split(s, sep) for a one-character separator. */
  function Split(s: string, sep: char): (parts: seq<string>)
    ensures |parts| >= 1
  {
    if s == "" then [""]
    else
      var rest := Split(s[1..], sep);
      if s[0] == sep then [""] + rest
      else [[s[0]] + rest[0]] + rest[1..]
  }

  /** strings.Join(parts, sep) for a one-character separator. */
  function Join(parts: seq<string>, sep: char): string
  {
    if |parts| == 0 then ""
    else if |parts| == 1 then parts[0]
    else parts[0] + [sep] + Join(parts[1..], sep)
  }

  predicate AllFree(parts: seq<string>, sep: char)
  {
    forall i :: 0 <= i < |parts| ==> sep !in parts[i]
  }

  lemma {:induction false} SplitOne(p: string, sep: char)
    requires sep !in p
    ensures Split(p, sep) == [p]
  {
    if p != "" {
      SplitOne(p[1..], sep);
      assert [p[0]] + p[1..] == p;
    }
  }

  lemma {:induction false} SplitAtSeparator(p: string, rest: string, sep: char)
    requires sep !in p
    ensures Split(p + [sep] + rest, sep) == [p] + Split(rest, sep)
  {
    var s := p + [sep] + rest;
    if p == "" {
      assert s[1..] == rest;
    } else {
      assert s[1..] == p[1..] + [sep] + rest;
      SplitAtSeparator(p[1..], rest, sep);
      assert [p[0]] + p[1..] == p;
    }
  }

  /** Splitting undoes joining for separator-free parts. */
  lemma {:induction false} SplitJoin(parts: seq<string>, sep: char)
    requires |parts| >= 1 && AllFree(parts, sep)
    ensures Split(Join(parts, sep), sep) == parts
  {
    if |parts| == 1 {
      SplitOne(parts[0], sep);
    } else {
      SplitAtSeparator(parts[0], Join(parts[1..], sep), sep);
      SplitJoin(parts[1..], sep);
    }
  }

  /** Joining undoes splitting for every string, and the parts never hold the separator. */
  lemma {:induction false} JoinSplit(s: string, sep: char)
    ensures Join(Split(s, sep), sep) == s
    ensures AllFree(Split(s, sep), sep)
  {
    if s != "" {
      JoinSplit(s[1..], sep);
      var rest := Split(s[1..], sep);
      if s[0] == sep {
        assert ([""] + rest)[1..] == rest;
        assert Join([""] + rest, sep) == "" + [sep] + s[1..];
      } else {
        var parts := Split(s, sep);
        assert parts[1..] == rest[1..];
        assert Join(parts, sep) == [s[0]] + Join(rest, sep);
      }
      assert [s[0]] + s[1..] == s;
    }
  }

  /** Splitting makes up no characters. */
  lemma {:induction false} SplitKeepsChars(s: string, sep: char, i: nat, c: char)
    requires i < |Split(s, sep)| && c in Split(s, sep)[i]
    ensures c in s
  {
    if s != "" {
      var rest := Split(s[1..], sep);
      if s[0] == sep {
        SplitKeepsChars(s[1..], sep, i - 1, c);
      } else if i > 0 {
        SplitKeepsChars(s[1..], sep, i, c);
      } else if c != s[0] {
        assert c in rest[0];
        SplitKeepsChars(s[1..], sep, 0, c);
      }
    }
  }

  /** strings.SplitN(s, sep, n): at most n parts, the last one unsplit. */
  function SplitN(s: string, sep: char, n: nat): seq<string>
    requires n >= 1
  {
    Gather(Split(s, sep), sep, n)
  }

  function Gather(parts: seq<string>, sep: char, n: nat): seq<string>
    requires n >= 1
  {
    if |parts| <= n then parts else parts[..n - 1] + [Join(parts[n - 1..], sep)]
  }

  lemma GatherCons(p: string, tail: seq<string>, sep: char, n: nat)
    requires n >= 2
    ensures Gather([p] + tail, sep, n) == [p] + Gather(tail, sep, n - 1)
  {
    if |tail| > n - 1 {
      assert ([p] + tail)[n - 1..] == tail[n - 2..];
      assert ([p] + tail)[..n - 1] == [p] + tail[..n - 2];
    }
  }

  lemma SplitNOnce(s: string, sep: char)
    ensures SplitN(s, sep, 1) == [s]
  {
    JoinSplit(s, sep);
    assert Split(s, sep)[0..] == Split(s, sep);
  }

  lemma SplitNAtSeparator(p: string, rest: string, sep: char, n: nat)
    requires sep !in p && n >= 2
    ensures SplitN(p + [sep] + rest, sep, n) == [p] + SplitN(rest, sep, n - 1)
  {
    SplitAtSeparator(p, rest, sep);
    GatherCons(p, Split(rest, sep), sep, n);
  }

  /** Every part but the last of a full split is free of the separator. */
  lemma SplitNFree(s: string, sep: char, n: nat, i: nat)
    requires n >= 1 && i < |SplitN(s, sep, n)| && (i < n - 1 || |SplitN(s, sep, n)| < n)
    ensures sep !in SplitN(s, sep, n)[i]
  {
    JoinSplit(s, sep);
  }

  // ---------- substrings ----------

  predicate OccursAt(s: string, sub: string, i: nat)
  {
    i + |sub| <= |s| && s[i..i + |sub|] == sub
  }

  /** strings.Contains(s, sub). */
  predicate Contains(s: string, sub: string)
  {
    exists i :: 0 <= i <= |s| && OccursAt(s, sub, i)
  }

  lemma PrefixContained(s: string, sub: string)
    requires sub <= s
    ensures Contains(s, sub)
  {
    assert OccursAt(s, sub, 0);
  }

  // ---------- trimming ----------

  /** unicode.IsSpace. */
  predicate IsSpace(c: char)
  {
    || c == ' ' || '\t' <= c <= '\r' || c == 0x85 as char || c == 0xA0 as char || c == 0x1680 as char
    || 0x2000 as char <= c <= 0x200A as char || c == 0x2028 as char || c == 0x2029 as char
    || c == 0x202F as char || c == 0x205F as char || c == 0x3000 as char
  }

  function TrimLeft(s: string): string
  {
    if s != "" && IsSpace(s[0]) then TrimLeft(s[1..]) else s
  }

  function TrimRight(s: string): string
  {
    if s != "" && IsSpace(s[|s| - 1]) then TrimRight(s[..|s| - 1]) else s
  }

  /** strings.TrimSpace. */
  function TrimSpace(s: string): string
  {
    TrimRight(TrimLeft(s))
  }

  predicate NoOuterSpace(s: string)
  {
    s == "" || (!IsSpace(s[0]) && !IsSpace(s[|s| - 1]))
  }

  lemma {:induction false} TrimLeftSuffix(s: string)
    ensures TrimLeft(s) == "" || !IsSpace(TrimLeft(s)[0])
    ensures forall c :: c in TrimLeft(s) ==> c in s
  {
    if s != "" && IsSpace(s[0]) {
      TrimLeftSuffix(s[1..]);
    }
  }

  lemma {:induction false} TrimRightPrefix(s: string)
    ensures TrimRight(s) <= s
    ensures TrimRight(s) == "" || !IsSpace(TrimRight(s)[|TrimRight(s)| - 1])
  {
    if s != "" && IsSpace(s[|s| - 1]) {
      TrimRightPrefix(s[..|s| - 1]);
    }
  }

  /** What TrimSpace returns has no outer space, and only characters of its argument. */
  lemma TrimSpaceTrims(s: string)
    ensures NoOuterSpace(TrimSpace(s))
    ensures forall c :: c in TrimSpace(s) ==> c in s
  {
    TrimLeftSuffix(s);
    TrimRightPrefix(TrimLeft(s));
  }

  // ---------- byte order and sorting ----------

  /** The order Go's < and sort.Strings use, made reflexive. */
  predicate Le(a: string, b: string)
  {
    a == "" || (b != "" && (a[0] < b[0] || (a[0] == b[0] && Le(a[1..], b[1..]))))
  }

  lemma {:induction false} LeTotal(a: string, b: string)
    ensures Le(a, b) || Le(b, a)
  {
    if a != "" && b != "" && a[0] == b[0] {
      LeTotal(a[1..], b[1..]);
    }
  }

  lemma {:induction false} LeAntisymmetric(a: string, b: string)
    requires Le(a, b) && Le(b, a)
    ensures a == b
  {
    if a != "" && b != "" {
      LeAntisymmetric(a[1..], b[1..]);
      assert a == [a[0]] + a[1..] && b == [b[0]] + b[1..];
    }
  }

  lemma {:induction false} LeTransitive(a: string, b: string, c: string)
    requires Le(a, b) && Le(b, c)
    ensures Le(a, c)
  {
    if a != "" && a[0] == b[0] && b[0] == c[0] {
      LeTransitive(a[1..], b[1..], c[1..]);
    }
  }

  predicate Sorted(xs: seq<string>)
  {
    forall i, j :: 0 <= i < j < |xs| ==> Le(xs[i], xs[j])
  }

  function Insert(x: string, xs: seq<string>): (r: seq<string>)
    ensures multiset(r) == multiset(xs) + multiset{x}
  {
    if xs == [] then [x]
    else if Le(x, xs[0]) then
      [x] + xs
    else
      assert xs == [xs[0]] + xs[1..];
      [xs[0]] + Insert(x, xs[1..])
  }

  /** sort.Strings, up to the choice of algorithm (SortedUnique: there is no other answer). */
  function Sort(xs: seq<string>): (r: seq<string>)
    ensures multiset(r) == multiset(xs)
  {
    if xs == [] then []
    else
      assert xs == [xs[0]] + xs[1..];
      Insert(xs[0], Sort(xs[1..]))
  }

  lemma {:induction false} InsertSorted(x: string, xs: seq<string>)
    requires Sorted(xs)
    ensures Sorted(Insert(x, xs))
  {
    if xs != [] {
      if Le(x, xs[0]) {
        forall i | 0 <= i < |xs| ensures Le(x, xs[i]) {
          if i > 0 { LeTransitive(x, xs[0], xs[i]); }
        }
      } else {
        LeTotal(x, xs[0]);
        InsertSorted(x, xs[1..]);
        var r := Insert(x, xs[1..]);
        forall i | 0 <= i < |r| ensures Le(xs[0], r[i]) {
          assert r[i] in multiset(r);
          if r[i] != x {
            assert r[i] in multiset(xs[1..]);
            assert r[i] in xs[1..];
          }
        }
      }
    }
  }

  lemma {:induction false} SortSorted(xs: seq<string>)
    ensures Sorted(Sort(xs))
  {
    if xs != [] {
      SortSorted(xs[1..]);
      InsertSorted(xs[0], Sort(xs[1..]));
    }
  }

  /** The head of a sorted sequence is below every element of any rearrangement. */
  lemma HeadIsLeast(xs: seq<string>, ys: seq<string>)
    requires xs != [] && ys != [] && Sorted(xs) && multiset(xs) == multiset(ys)
    ensures Le(xs[0], ys[0])
  {
    assert ys[0] in multiset(xs);
    var j :| 0 <= j < |xs| && xs[j] == ys[0];
    LeReflexive(xs[0]);
  }

  lemma MultisetOfTail(xs: seq<string>)
    requires xs != []
    ensures multiset(xs[1..]) == multiset(xs) - multiset{xs[0]}
  {
    assert xs == [xs[0]] + xs[1..];
  }

  lemma HeadsAgree(xs: seq<string>, ys: seq<string>)
    requires xs != [] && ys != [] && Sorted(xs) && Sorted(ys) && multiset(xs) == multiset(ys)
    ensures xs[0] == ys[0]
  {
    HeadIsLeast(xs, ys);
    HeadIsLeast(ys, xs);
    LeAntisymmetric(xs[0], ys[0]);
  }

  lemma TailSorted(xs: seq<string>)
    requires Sorted(xs) && xs != []
    ensures Sorted(xs[1..])
  {
  }

  lemma SameLength(xs: seq<string>, ys: seq<string>)
    requires multiset(xs) == multiset(ys)
    ensures |xs| == |ys|
  {
    assert |xs| == |multiset(xs)| == |multiset(ys)| == |ys|;
  }

  /** Two sorted sequences with the same elements are the same sequence. */
  lemma {:induction false} SortedUnique(xs: seq<string>, ys: seq<string>)
    requires Sorted(xs) && Sorted(ys) && multiset(xs) == multiset(ys)
    ensures xs == ys
  {
    SameLength(xs, ys);
    if xs != [] {
      HeadsAgree(xs, ys);
      MultisetOfTail(xs);
      MultisetOfTail(ys);
      TailSorted(xs);
      TailSorted(ys);
      SortedUnique(xs[1..], ys[1..]);
      assert xs == [xs[0]] + xs[1..] && ys == [ys[0]] + ys[1..];
    }
  }

  lemma {:induction false} LeReflexive(a: string)
    ensures Le(a, a)
  {
    if a != "" { LeReflexive(a[1..]); }
  }

  /** Comparing sorted copies decides equality of multisets. */
  lemma SortDecidesMultisetEquality(xs: seq<string>, ys: seq<string>)
    ensures Sort(xs) == Sort(ys) <==> multiset(xs) == multiset(ys)
  {
    SortSorted(xs);
    SortSorted(ys);
    if multiset(xs) == multiset(ys) {
      SortedUnique(Sort(xs), Sort(ys));
    }
  }
}
