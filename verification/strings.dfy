/** Python string operations the pipeline scripts rely on, over `seq<char>`:
    substring test (`p in s`), `str.replace`, `str.split(c)`, `sep.join`,
    `"".join`, `str(n)` for naturals, `int(digits)` and `f"{n:08d}"`. */
module Strings {

  datatype Option<T> = None | Some(value: T)

  predicate IsPrefix(p: string, s: string) {
    |p| <= |s| && s[..|p|] == p
  }

  /** Python's `p in s` for two strings. */
  predicate Contains(s: string, p: string)
    decreases |s|
  {
    IsPrefix(p, s) || (|s| > 0 && Contains(s[1..], p))
  }

  /** `p` occurs at offset `i` of `s`. */
  predicate OccursAt(s: string, p: string, i: int) {
    0 <= i && i + |p| <= |s| && s[i..i + |p|] == p
  }

  lemma {:induction false} ContainsIffOccurs(s: string, p: string)
    ensures Contains(s, p) <==> exists i :: OccursAt(s, p, i)
    decreases |s|
  {
    if IsPrefix(p, s) {
      assert OccursAt(s, p, 0);
    } else if |s| == 0 {
    } else {
      ContainsIffOccurs(s[1..], p);
      if Contains(s[1..], p) {
        var i :| OccursAt(s[1..], p, i);
        assert s[1..][i..i + |p|] == s[i + 1..i + 1 + |p|];
        assert OccursAt(s, p, i + 1);
      }
      forall i | OccursAt(s, p, i) && i > 0 ensures Contains(s[1..], p) {
        assert s[1..][i - 1..i - 1 + |p|] == s[i..i + |p|];
        assert OccursAt(s[1..], p, i - 1);
      }
    }
  }

  /** A substring of a part is a substring of the whole. */
  lemma ContainsInConcat(a: string, b: string, p: string)
    requires Contains(a, p) || Contains(b, p)
    ensures Contains(a + b, p)
  {
    ContainsIffOccurs(a, p);
    ContainsIffOccurs(b, p);
    ContainsIffOccurs(a + b, p);
    if Contains(a, p) {
      var i :| OccursAt(a, p, i);
      assert (a + b)[i..i + |p|] == a[i..i + |p|];
      assert OccursAt(a + b, p, i);
    } else {
      var i :| OccursAt(b, p, i);
      assert (a + b)[|a| + i..|a| + i + |p|] == b[i..i + |p|];
      assert OccursAt(a + b, p, |a| + i);
    }
  }

  /** A non-empty pattern whose first character is absent never occurs. */
  lemma NotContainsWithoutFirstChar(s: string, p: string)
    requires |p| > 0 && p[0] !in s
    ensures !Contains(s, p)
  {
    ContainsIffOccurs(s, p);
    forall i ensures !OccursAt(s, p, i) {
      if 0 <= i && i + |p| <= |s| {
        assert s[i..i + |p|][0] == s[i] != p[0];
      }
    }
  }

  /** First index at or after `from` holding `c`. */
  function IndexFrom(s: string, c: char, from: nat): (r: Option<nat>)
    ensures r.Some? ==> from <= r.value < |s| && s[r.value] == c
    ensures r.Some? ==> forall j :: from <= j < r.value ==> s[j] != c
    ensures r.None? ==> forall j :: from <= j < |s| ==> s[j] != c
    decreases |s| - from
  {
    if from >= |s| then None
    else if s[from] == c then Some(from)
    else IndexFrom(s, c, from + 1)
  }

  /** Python's `s.replace(pat, rep)`: every non-overlapping occurrence of
      `pat`, scanned left to right, is replaced. */
  function ReplaceAll(s: string, pat: string, rep: string): (r: string)
    requires |pat| > 0
    ensures !Contains(s, pat) ==> r == s
    decreases |s|
  {
    if |s| == 0 then ""
    else if IsPrefix(pat, s) then rep + ReplaceAll(s[|pat|..], pat, rep)
    else [s[0]] + ReplaceAll(s[1..], pat, rep)
  }

  /** Replacing a single character by a text without it removes it. */
  lemma {:induction false} ReplaceCharRemoves(s: string, c: char, rep: string)
    requires c !in rep
    ensures c !in ReplaceAll(s, [c], rep)
    decreases |s|
  {
    if |s| > 0 {
      ReplaceCharRemoves(s[|[c]|..], c, rep);
      ReplaceCharRemoves(s[1..], c, rep);
    }
  }

  /** A character absent from the text and from the replacement stays
      absent. */
  lemma {:induction false} ReplaceAllKeepsAbsent(s: string, pat: string, rep: string, c: char)
    requires |pat| > 0 && c !in s && c !in rep
    ensures c !in ReplaceAll(s, pat, rep)
    decreases |s|
  {
    if |s| > 0 {
      if IsPrefix(pat, s) {
        ReplaceAllKeepsAbsent(s[|pat|..], pat, rep, c);
      } else {
        ReplaceAllKeepsAbsent(s[1..], pat, rep, c);
      }
    }
  }

  /** A stretch without `pat`'s first character passes through unchanged. */
  lemma {:induction false} ReplaceAllSkip(t: string, rest: string, pat: string, rep: string)
    requires |pat| > 0 && pat[0] !in t
    ensures ReplaceAll(t + rest, pat, rep) == t + ReplaceAll(rest, pat, rep)
    decreases |t|
  {
    if |t| == 0 {
      assert t + rest == rest;
    } else {
      var s := t + rest;
      assert s[0] == t[0] != pat[0];
      assert !IsPrefix(pat, s);
      assert s[1..] == t[1..] + rest;
      ReplaceAllSkip(t[1..], rest, pat, rep);
    }
  }

  /** `str.replace` distributes over a cut that no occurrence of `pat` can
      straddle: `b` starts with `pat`'s first character, which appears
      nowhere else in `pat`. */
  lemma {:induction false} ReplaceAllSplit(a: string, b: string, pat: string, rep: string)
    requires |pat| > 0 && |b| > 0 && b[0] == pat[0]
    requires pat[0] !in pat[1..]
    ensures ReplaceAll(a + b, pat, rep) == ReplaceAll(a, pat, rep) + ReplaceAll(b, pat, rep)
    decreases |a|
  {
    if |a| == 0 {
      assert a + b == b;
    } else if IsPrefix(pat, a + b) {
      PrefixBeforeCut(a, b, pat);
      assert (a + b)[|pat|..] == a[|pat|..] + b;
      ReplaceAllSplit(a[|pat|..], b, pat, rep);
    } else {
      assert !IsPrefix(pat, a);
      assert (a + b)[1..] == a[1..] + b;
      ReplaceAllSplit(a[1..], b, pat, rep);
    }
  }

  /** An occurrence at the start of `a + b` cannot reach into `b`. */
  lemma PrefixBeforeCut(a: string, b: string, pat: string)
    requires |a| > 0 && |pat| > 0 && |b| > 0 && b[0] == pat[0]
    requires pat[0] !in pat[1..]
    requires IsPrefix(pat, a + b)
    ensures IsPrefix(pat, a)
  {
    forall k | 0 < k < |pat| ensures pat[k] != pat[0] {
      assert pat[1..][k - 1] == pat[k];
    }
    assert (a + b)[|a|] == pat[0];
  }

  /** `sep.join(parts)`. */
  function Join(parts: seq<string>, sep: string): string
    decreases |parts|
  {
    if |parts| == 0 then ""
    else if |parts| == 1 then parts[0]
    else parts[0] + sep + Join(parts[1..], sep)
  }

  /** `"".join(parts)`. */
  function Concat(parts: seq<string>): string
    decreases |parts|
  {
    if |parts| == 0 then "" else parts[0] + Concat(parts[1..])
  }

  lemma {:induction false} ConcatAppend(a: seq<string>, b: seq<string>)
    ensures Concat(a + b) == Concat(a) + Concat(b)
    decreases |a|
  {
    if |a| == 0 {
      assert a + b == b;
    } else {
      assert (a + b)[1..] == a[1..] + b;
      ConcatAppend(a[1..], b);
    }
  }

  /** Python's `s.split(c)` for a one-character separator: the pieces
      between separators, always at least one, and joining them back with
      `c` restores `s`. */
  function Split(s: string, c: char): (r: seq<string>)
    ensures |r| >= 1
    ensures c in s <==> |r| >= 2
    ensures forall i :: 0 <= i < |r| ==> c !in r[i]
    ensures Join(r, [c]) == s
    decreases |s|
  {
    if |s| == 0 then [""]
    else
      var rest := Split(s[1..], c);
      if s[0] == c then
        assert s == [c] + Join(rest, [c]);
        [""] + rest
      else
        var r := [[s[0]] + rest[0]] + rest[1..];
        assert r[1..] == rest[1..];
        r
  }

  /** The pieces of a split hold only characters of the text. */
  lemma {:induction false} SplitKeepsAbsent(s: string, c: char, d: char)
    requires d !in s
    ensures forall i :: 0 <= i < |Split(s, c)| ==> d !in Split(s, c)[i]
    decreases |s|
  {
    if |s| > 0 {
      SplitKeepsAbsent(s[1..], c, d);
    }
  }

  /** Splitting a join of separator-free pieces gives the pieces back. */
  lemma {:induction false} SplitJoin(parts: seq<string>, c: char)
    requires |parts| >= 1
    requires forall i :: 0 <= i < |parts| ==> c !in parts[i]
    ensures Split(Join(parts, [c]), c) == parts
    decreases |parts|, |parts[0]|
  {
    if |parts[0]| > 0 {
      var p0 := parts[0][1..];
      var parts' := [p0] + parts[1..];
      assert parts'[1..] == parts[1..];
      assert Join(parts, [c]) == [parts[0][0]] + Join(parts', [c]);
      SplitJoin(parts', c);
      assert parts[0] == [parts[0][0]] + p0;
      assert parts == [[parts[0][0]] + p0] + parts[1..];
    } else if |parts| == 1 {
    } else {
      assert Join(parts, [c]) == [c] + Join(parts[1..], [c]);
      SplitJoin(parts[1..], c);
    }
  }

  /** `s.split(c)[1]` is the text between the first and the second `c`. */
  lemma SecondPiece(s: string, c: char) returns (pre: string, rest: string)
    requires c in s
    ensures |Split(s, c)| >= 2
    ensures s == pre + [c] + Split(s, c)[1] + rest
    ensures c !in pre && c !in Split(s, c)[1] && (rest == "" || rest[0] == c)
  {
    var parts := Split(s, c);
    JoinFirst(parts, c);
    rest := JoinSecond(parts[1..], c);
    pre := parts[0];
    assert parts[1..][0] == parts[1];
    assert Join(parts[1..], [c]) == parts[1] + rest;
    assert s == pre + [c] + (parts[1] + rest);
  }

  /** A join of two or more pieces starts with the first and a separator. */
  lemma JoinFirst(parts: seq<string>, c: char)
    requires |parts| >= 2
    ensures Join(parts, [c]) == parts[0] + [c] + Join(parts[1..], [c])
  {
  }

  /** After its first piece, a join goes on with a separator or ends. */
  lemma JoinSecond(parts: seq<string>, c: char) returns (rest: string)
    requires |parts| >= 1
    ensures Join(parts, [c]) == parts[0] + rest
    ensures rest == "" || rest[0] == c
  {
    if |parts| == 1 {
      rest := "";
    } else {
      rest := [c] + Join(parts[1..], [c]);
    }
  }

  function Last<T>(xs: seq<T>): T
    requires |xs| > 0
  {
    xs[|xs| - 1]
  }

  /** The last `c`-separated piece of `s` (Python's `s.split(c)[-1]`) is a
      separator-free suffix of `s` preceded by `c` or by nothing. */
  lemma {:induction false} LastPieceIsSuffix(s: string, c: char)
    ensures var last := Last(Split(s, c));
            c !in last &&
            exists pre :: s == pre + last && (pre == [] || Last(pre) == c)
  {
    var parts := Split(s, c);
    if |parts| == 1 {
      assert s == [] + Last(parts);
    } else {
      var pre := Join(parts[..|parts| - 1], [c]) + [c];
      JoinLast(parts, c);
      assert s == pre + Last(parts);
    }
  }

  lemma {:induction false} JoinLast(parts: seq<string>, c: char)
    requires |parts| >= 2
    ensures Join(parts, [c]) == Join(parts[..|parts| - 1], [c]) + [c] + Last(parts)
    decreases |parts|
  {
    if |parts| > 2 {
      JoinLast(parts[1..], c);
      assert parts[1..][..|parts| - 2] == parts[..|parts| - 1][1..];
    }
  }

  predicate IsDigit(ch: char) {
    '0' <= ch <= '9'
  }

  predicate AllDigits(s: string) {
    forall i :: 0 <= i < |s| ==> IsDigit(s[i])
  }

  function DigitChar(d: nat): (ch: char)
    requires d < 10
    ensures IsDigit(ch) && ch as int - '0' as int == d
  {
    ('0' as int + d) as char
  }

  /** Python's `str(n)` for a natural number: decimal, no leading zero. */
  function NatToString(n: nat): (r: string)
    ensures |r| >= 1 && AllDigits(r)
    ensures |r| > 1 ==> r[0] != '0'
    decreases n
  {
    if n < 10 then [DigitChar(n)] else NatToString(n / 10) + [DigitChar(n % 10)]
  }

  /** Python's `int(s)` on a string of decimal digits (leading zeros allowed). */
  function DigitsValue(s: string): nat
    requires AllDigits(s)
    decreases |s|
  {
    if |s| == 0 then 0
    else DigitsValue(s[..|s| - 1]) * 10 + (s[|s| - 1] as int - '0' as int)
  }

  /** `int(str(n)) == n`. */
  lemma {:induction false} DigitsValueOfNatToString(n: nat)
    ensures DigitsValue(NatToString(n)) == n
    decreases n
  {
    if n >= 10 {
      var s := NatToString(n);
      assert s[..|s| - 1] == NatToString(n / 10);
      DigitsValueOfNatToString(n / 10);
    }
  }

  /** Distinct numbers print differently. */
  lemma NatToStringInjective(a: nat, b: nat)
    requires NatToString(a) == NatToString(b)
    ensures a == b
  {
    DigitsValueOfNatToString(a);
    DigitsValueOfNatToString(b);
  }

  function Repeat(ch: char, k: nat): (r: string)
    ensures |r| == k && forall i :: 0 <= i < k ==> r[i] == ch
  {
    seq(k, _ => ch)
  }

  /** Python's `f"{n:0{width}d}"` for a natural number: zero-padded on the
      left up to `width` characters, never truncated. */
  function ZeroPad(n: nat, width: nat): (r: string)
  {
    var s := NatToString(n);
    if |s| < width then Repeat('0', width - |s|) + s else s
  }

  /** Leading zeros do not change the value of a digit string. */
  lemma {:induction false} DigitsValueLeadingZeros(k: nat, s: string)
    requires AllDigits(s)
    ensures AllDigits(Repeat('0', k) + s)
    ensures DigitsValue(Repeat('0', k) + s) == DigitsValue(s)
    decreases |s|
  {
    var z := Repeat('0', k);
    if |s| == 0 {
      assert z + s == z;
      ZerosValue(k);
    } else {
      assert (z + s)[..|z + s| - 1] == z + s[..|s| - 1];
      DigitsValueLeadingZeros(k, s[..|s| - 1]);
    }
  }

  lemma {:induction false} ZerosValue(k: nat)
    ensures DigitsValue(Repeat('0', k)) == 0
    decreases k
  {
    if k > 0 {
      assert Repeat('0', k)[..k - 1] == Repeat('0', k - 1);
      ZerosValue(k - 1);
    }
  }

  /** The padded form has `max(width, digits)` characters, all digits, and
      reads back as `n`. */
  lemma ZeroPadRoundTrip(n: nat, width: nat)
    ensures var r := ZeroPad(n, width);
            AllDigits(r) && DigitsValue(r) == n &&
            |r| == if |NatToString(n)| < width then width else |NatToString(n)|
  {
    DigitsValueOfNatToString(n);
    var s := NatToString(n);
    if |s| < width {
      DigitsValueLeadingZeros(width - |s|, s);
    }
  }
}
