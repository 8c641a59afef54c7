/** `Files.order_files` (tei_conversion/src/order_files.py:16-20): each
    page path is paired with the number `re.search(r"(\d+).xml$", path)`
    captures, and the pairs are sorted as tuples, by number first and path
    second.  A path the pattern does not match makes the whole call fail. */
module OrderFiles {
  import opened Strings

  datatype File = File(num: nat, filepath: string)

  /** `$`: the end of the text, or just before a final line feed. */
  predicate DollarAt(f: string, p: nat) {
    p == |f| || (p + 1 == |f| && f[p] == '\n')
  }

  /** `(\d+).xml$` matches at `s` with `k` digits captured. */
  predicate MatchAt(f: string, s: nat, k: nat) {
    && 1 <= k && s + k + 4 <= |f|
    && AllDigits(f[s..s + k])
    && f[s + k] != '\n'
    && f[s + k + 1..s + k + 4] == "xml"
    && DollarAt(f, s + k + 4)
  }

  /** The match at `s`, if any: `\d+` is greedy, so the longest capture
      wins; `$` leaves only two candidate lengths. */
  function TryAt(f: string, s: nat): (k: Option<nat>)
    ensures k.Some? ==> MatchAt(f, s, k.value)
    ensures k.Some? ==> forall k' :: k.value < k' ==> !MatchAt(f, s, k')
    ensures k.None? ==> forall k' :: !MatchAt(f, s, k')
  {
    if s + 5 <= |f| && MatchAt(f, s, |f| - 4 - s) then Some(|f| - 4 - s)
    else if s + 6 <= |f| && MatchAt(f, s, |f| - 5 - s) then Some(|f| - 5 - s)
    else None
  }

  /** `re.search` from offset `s` on: the leftmost start that matches. */
  function SearchFrom(f: string, s: nat): (m: Option<(nat, nat)>)
    requires s <= |f|
    ensures m.Some? ==> s <= m.value.0 && MatchAt(f, m.value.0, m.value.1)
    ensures m.Some? ==> forall k' :: m.value.1 < k' ==> !MatchAt(f, m.value.0, k')
    ensures m.Some? ==> forall s', k' :: s <= s' < m.value.0 ==> !MatchAt(f, s', k')
    ensures m.None? ==> forall s', k' :: s <= s' ==> !MatchAt(f, s', k')
    decreases |f| - s
  {
    match TryAt(f, s)
    case Some(k) => Some((s, k))
    case None =>
      if s == |f| then None else SearchFrom(f, s + 1)
  }

  /** `int(re.search(r"(\d+).xml$", f).group(1))`, or `None` where the
      search finds nothing and `.group` would fail. */
  function FileNumber(f: string): (r: Option<nat>)
    ensures r.Some? <==> exists s, k :: MatchAt(f, s, k)
  {
    match SearchFrom(f, 0)
    case Some(m) => Some(DigitsValue(f[m.0..m.0 + m.1]))
    case None => None
  }

  /** The list comprehension: every path with its number. */
  function Numbered(paths: seq<string>): (r: Option<seq<File>>)
    ensures r.Some? ==> |r.value| == |paths|
    ensures r.Some? ==> forall i :: 0 <= i < |paths| ==>
      r.value[i].filepath == paths[i] && FileNumber(paths[i]) == Some(r.value[i].num)
    ensures r.None? <==> exists i :: 0 <= i < |paths| && FileNumber(paths[i]).None?
    decreases |paths|
  {
    if |paths| == 0 then Some([])
    else
      match (FileNumber(paths[0]), Numbered(paths[1..]))
      case (Some(n), Some(rest)) => Some([File(n, paths[0])] + rest)
      case (_, _) => None
  }

  /** Python's `<` on two strings: code point by code point, a proper
      prefix first. */
  predicate StrLess(a: string, b: string)
    decreases |a|
  {
    |b| > 0 && (|a| == 0 || a[0] < b[0] || (a[0] == b[0] && StrLess(a[1..], b[1..])))
  }

  /** Tuple order on `(num, filepath)`. */
  predicate FileLess(x: File, y: File) {
    x.num < y.num || (x.num == y.num && StrLess(x.filepath, y.filepath))
  }

  predicate FileLeq(x: File, y: File) {
    x == y || FileLess(x, y)
  }

  predicate Sorted(xs: seq<File>) {
    forall i, j :: 0 <= i < j < |xs| ==> FileLeq(xs[i], xs[j])
  }

  lemma {:induction false} StrLessIrreflexive(a: string)
    ensures !StrLess(a, a)
    decreases |a|
  {
    if |a| > 0 {
      StrLessIrreflexive(a[1..]);
    }
  }

  lemma {:induction false} StrLessAsymmetric(a: string, b: string)
    requires StrLess(a, b)
    ensures !StrLess(b, a)
    decreases |a|
  {
    if |a| > 0 && a[0] == b[0] {
      StrLessAsymmetric(a[1..], b[1..]);
    }
  }

  lemma {:induction false} StrLessTransitive(a: string, b: string, c: string)
    requires StrLess(a, b) && StrLess(b, c)
    ensures StrLess(a, c)
    decreases |a|
  {
    if |a| > 0 && a[0] == b[0] && b[0] == c[0] {
      StrLessTransitive(a[1..], b[1..], c[1..]);
    }
  }

  lemma {:induction false} StrLessTotal(a: string, b: string)
    requires a != b
    ensures StrLess(a, b) || StrLess(b, a)
    decreases |a|
  {
    if |a| > 0 && |b| > 0 && a[0] == b[0] {
      assert a == [a[0]] + a[1..] && b == [b[0]] + b[1..];
      StrLessTotal(a[1..], b[1..]);
    }
  }

  /** The tuple order is a total order on files. */
  lemma FileLeqTotal(x: File, y: File)
    ensures FileLeq(x, y) || FileLeq(y, x)
  {
    if x.num == y.num && x.filepath != y.filepath {
      StrLessTotal(x.filepath, y.filepath);
    }
  }

  lemma FileLeqTransitive(x: File, y: File, z: File)
    requires FileLeq(x, y) && FileLeq(y, z)
    ensures FileLeq(x, z)
  {
    if x != y && y != z && x.num == y.num == z.num {
      StrLessTransitive(x.filepath, y.filepath, z.filepath);
    }
  }

  lemma FileLeqAntisymmetric(x: File, y: File)
    requires FileLeq(x, y) && FileLeq(y, x)
    ensures x == y
  {
    if x != y && x.num == y.num {
      StrLessAsymmetric(x.filepath, y.filepath);
    }
  }

  /** One step of insertion sort. */
  function Insert(x: File, xs: seq<File>): (r: seq<File>)
    ensures multiset(r) == multiset(xs) + multiset{x}
    decreases |xs|
  {
    if |xs| == 0 then [x]
    else if FileLeq(x, xs[0]) then [x] + xs
    else
      var r := [xs[0]] + Insert(x, xs[1..]);
      assert xs == [xs[0]] + xs[1..];
      r
  }

  /** `sorted` on the numbered files. */
  function Sort(xs: seq<File>): (r: seq<File>)
    ensures multiset(r) == multiset(xs)
    decreases |xs|
  {
    if |xs| == 0 then []
    else
      assert xs == [xs[0]] + xs[1..];
      Insert(xs[0], Sort(xs[1..]))
  }

  /** `order_files`: `None` where some path carries no number. */
  function OrderFiles(paths: seq<string>): (r: Option<seq<File>>)
    ensures r.Some? <==> Numbered(paths).Some?
    ensures r.Some? ==> multiset(r.value) == multiset(Numbered(paths).value)
  {
    match Numbered(paths)
    case Some(fs) => Some(Sort(fs))
    case None => None
  }

  /** A sorted sequence stays sorted under a new least head. */
  lemma ConsSorted(y: File, rest: seq<File>)
    requires Sorted(rest)
    requires forall j :: 0 <= j < |rest| ==> FileLeq(y, rest[j])
    ensures Sorted([y] + rest)
  {
    forall i, j | 0 <= i < j < |rest| + 1 ensures FileLeq(([y] + rest)[i], ([y] + rest)[j]) {
      if i > 0 {
        assert ([y] + rest)[i] == rest[i - 1];
      }
    }
  }

  /** A lower bound of `x` and of `xs` bounds `Insert(x, xs)`. */
  lemma InsertBounded(y: File, x: File, xs: seq<File>)
    requires FileLeq(y, x)
    requires forall i :: 0 <= i < |xs| ==> FileLeq(y, xs[i])
    ensures forall j :: 0 <= j < |Insert(x, xs)| ==> FileLeq(y, Insert(x, xs)[j])
  {
    var r := Insert(x, xs);
    forall j | 0 <= j < |r| ensures FileLeq(y, r[j]) {
      assert r[j] in multiset(r);
      if r[j] != x {
        assert r[j] in multiset(xs);
        var i :| 0 <= i < |xs| && xs[i] == r[j];
      }
    }
  }

  /** `Insert` keeps a sorted sequence sorted. */
  lemma {:induction false} InsertSorted(x: File, xs: seq<File>)
    requires Sorted(xs)
    ensures Sorted(Insert(x, xs))
    decreases |xs|
  {
    if |xs| > 0 {
      if FileLeq(x, xs[0]) {
        forall j | 0 <= j < |xs| ensures FileLeq(x, xs[j]) {
          if j > 0 {
            FileLeqTransitive(x, xs[0], xs[j]);
          }
        }
        ConsSorted(x, xs);
      } else {
        InsertSorted(x, xs[1..]);
        FileLeqTotal(x, xs[0]);
        InsertBounded(xs[0], x, xs[1..]);
        ConsSorted(xs[0], Insert(x, xs[1..]));
      }
    }
  }

  lemma {:induction false} SortSorted(xs: seq<File>)
    ensures Sorted(Sort(xs))
    decreases |xs|
  {
    if |xs| > 0 {
      SortSorted(xs[1..]);
      InsertSorted(xs[0], Sort(xs[1..]));
    }
  }

  /** `order_files` returns the numbered files, each once, in tuple order. */
  lemma OrderFilesSorted(paths: seq<string>)
    requires OrderFiles(paths).Some?
    ensures Sorted(OrderFiles(paths).value)
    ensures multiset(OrderFiles(paths).value) == multiset(Numbered(paths).value)
  {
    SortSorted(Numbered(paths).value);
  }

  /** The first element of a sorted sequence is its least element. */
  lemma SortedHeadLeast(xs: seq<File>, y: File)
    requires Sorted(xs) && |xs| > 0 && y in multiset(xs)
    ensures FileLeq(xs[0], y)
  {
    var i :| 0 <= i < |xs| && xs[i] == y;
  }

  lemma TailMultiset(a: seq<File>, b: seq<File>)
    requires |a| > 0 && |b| > 0 && a[0] == b[0] && multiset(a) == multiset(b)
    ensures multiset(a[1..]) == multiset(b[1..])
  {
    assert a == [a[0]] + a[1..] && b == [b[0]] + b[1..];
    assert multiset(a[1..]) == multiset(a) - multiset{a[0]};
    assert multiset(b[1..]) == multiset(b) - multiset{b[0]};
  }

  /** Only one ordering is sorted, so the result does not depend on how
      the paths were listed. */
  lemma {:induction false} SortedUnique(a: seq<File>, b: seq<File>)
    requires Sorted(a) && Sorted(b) && multiset(a) == multiset(b)
    ensures a == b
    decreases |a|
  {
    if |a| > 0 {
      assert |b| == |multiset(b)| == |multiset(a)| == |a|;
      assert a[0] in multiset(b) && b[0] in multiset(a);
      SortedHeadLeast(a, b[0]);
      SortedHeadLeast(b, a[0]);
      FileLeqAntisymmetric(a[0], b[0]);
      TailMultiset(a, b);
      SortedUnique(a[1..], b[1..]);
    }
  }

  /** Reordering the input paths does not change the result. */
  lemma OrderIndependent(p: seq<string>, q: seq<string>)
    requires OrderFiles(p).Some? && OrderFiles(q).Some?
    requires multiset(Numbered(p).value) == multiset(Numbered(q).value)
    ensures OrderFiles(p) == OrderFiles(q)
  {
    OrderFilesSorted(p);
    OrderFilesSorted(q);
    SortedUnique(OrderFiles(p).value, OrderFiles(q).value);
  }

  /** The capture of the leftmost, longest match is the page number. */
  lemma FileNumberOf(f: string, s: nat, k: nat)
    requires MatchAt(f, s, k)
    requires forall s': nat, k': nat :: s' < s ==> !MatchAt(f, s', k')
    requires forall k': nat :: k < k' ==> !MatchAt(f, s, k')
    ensures FileNumber(f) == Some(DigitsValue(f[s..s + k]))
  {
    var m := SearchFrom(f, 0);
    assert m.Some?;
  }

  lemma NumberedCons(p: string, rest: seq<string>)
    requires FileNumber(p).Some? && Numbered(rest).Some?
    ensures Numbered([p] + rest) == Some([File(FileNumber(p).value, p)] + Numbered(rest).value)
  {
    assert ([p] + rest)[1..] == rest;
  }

  /** Two pages come out in the order of their numbers, whatever the
      order of the paths. */
  lemma OrderPair(p: string, q: string, a: nat, b: nat)
    requires FileNumber(p) == Some(a) && FileNumber(q) == Some(b) && b < a
    ensures OrderFiles([p, q]) == Some([File(b, q), File(a, p)])
  {
    NumberedPair(p, q, a, b);
    SortPair(File(a, p), File(b, q));
  }

  lemma NumberedPair(p: string, q: string, a: nat, b: nat)
    requires FileNumber(p) == Some(a) && FileNumber(q) == Some(b)
    ensures Numbered([p, q]) == Some([File(a, p), File(b, q)])
  {
    NumberedCons(q, []);
    assert [q] == [q] + [];
    assert [File(b, q)] + [] == [File(b, q)];
    assert Numbered([q]) == Some([File(b, q)]);
    NumberedCons(p, [q]);
    assert [p, q] == [p] + [q];
    assert [File(a, p)] + [File(b, q)] == [File(a, p), File(b, q)];
  }

  lemma SortPair(x: File, y: File)
    requires y.num < x.num
    ensures Sort([x, y]) == [y, x]
  {
    assert [x, y][1..] == [y];
    assert Sort([y]) == Insert(y, []) == [y];
    assert !FileLeq(x, y);
    assert [y][1..] == [];
    assert Insert(x, [y]) == [y] + [x];
  }

  /** Pages are ordered by number, not by name: `2.xml` before `10.xml`. */
  lemma NumericBeforeTextual()
    ensures OrderFiles(["p/10.xml", "p/2.xml"]) == Some([File(2, "p/2.xml"), File(10, "p/10.xml")])
  {
    TenOnPage();
    TwoOnPage();
    OrderPair("p/10.xml", "p/2.xml", 10, 2);
  }

  lemma TenOnPage()
    ensures FileNumber("p/10.xml") == Some(10)
  {
    var f := "p/10.xml";
    forall s': nat, k': nat | s' < 2 ensures !MatchAt(f, s', k') {
      if 1 <= k' && s' + k' + 4 <= |f| {
        assert f[s'..s' + k'][0] == f[s'];
      }
    }
    assert f[2..4] == "10";
    assert DigitsValue("10") == 10 by {
      assert "10"[..1] == "1";
      assert "1"[..0] == "";
    }
    FileNumberOf(f, 2, 2);
  }

  lemma TwoOnPage()
    ensures FileNumber("p/2.xml") == Some(2)
  {
    var f := "p/2.xml";
    forall s': nat, k': nat | s' < 2 ensures !MatchAt(f, s', k') {
      if 1 <= k' && s' + k' + 4 <= |f| {
        assert f[s'..s' + k'][0] == f[s'];
      }
    }
    assert f[2..3] == "2";
    assert DigitsValue("2") == 2 by {
      assert "2"[..0] == "";
    }
    FileNumberOf(f, 2, 1);
  }

  /** The dot of the pattern is any character: `12xml` is page 1. */
  lemma DotMatchesDigit()
    ensures FileNumber("12xml") == Some(1)
  {
    var f := "12xml";
    assert f[0..1] == "1";
    assert DigitsValue("1") == 1 by {
      assert "1"[..0] == "";
    }
    FileNumberOf(f, 0, 1);
  }
}
