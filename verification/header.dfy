/** `fill_header` (4-ladas2tei.py:85-93): every `[word]` token of the
    header template is replaced by the metadata value of that column, by
    the empty text for a column the row lacks, and `[date_today]` by the
    date.  The replacements run one after the other with `str.replace`, in
    the order the placeholders first occur, with `date_today` last unless
    the template already named it. */
module Header {
  import opened Strings
  import opened TagEnd

  /** A match of `\[(\w+)\]` at the start of `s`: the length of the word. */
  function HoleAt(s: string): (k: Option<nat>)
    ensures k.Some? ==> 1 <= k.value && k.value + 2 <= |s|
  {
    if |s| < 3 || s[0] != '[' then None
    else
      var k := WordRun(s[1..]);
      if k == 0 || 1 + k >= |s| || s[1 + k] != ']' then None else Some(k)
  }

  /** `re.findall(r'\[(\w+)\]', template)`. */
  function Placeholders(s: string): (r: seq<string>)
    ensures forall i :: 0 <= i < |r| ==> IsWord(r[i])
    decreases |s|
  {
    if |s| == 0 then []
    else
      match HoleAt(s)
      case Some(k) => [s[1..1 + k]] + Placeholders(s[k + 2..])
      case None => Placeholders(s[1..])
  }

  predicate IsWord(w: string) {
    |w| > 0 && forall i :: 0 <= i < |w| ==> IsWordChar(w[i])
  }

  /** The keys of a dict built from `xs` in order: first occurrences only. */
  function DedupFrom(acc: seq<string>, xs: seq<string>): (r: seq<string>)
    requires forall i, j :: 0 <= i < j < |acc| ==> acc[i] != acc[j]
    ensures forall x :: x in r <==> x in acc || x in xs
    ensures forall i, j :: 0 <= i < j < |r| ==> r[i] != r[j]
    ensures |r| >= |acc| && r[..|acc|] == acc
    decreases |xs|
  {
    if |xs| == 0 then acc
    else if xs[0] in acc then DedupFrom(acc, xs[1..])
    else
      var r := DedupFrom(acc + [xs[0]], xs[1..]);
      assert r[..|acc|] == r[..|acc| + 1][..|acc|];
      r
  }

  const DateKey: string := "date_today"

  /** The keys of `replacements`, in insertion order. */
  function ReplacementKeys(template: string): (keys: seq<string>)
    ensures forall w :: w in Placeholders(template) ==> w in keys
    ensures DateKey in keys
    ensures forall w :: w in keys ==> w in Placeholders(template) || w == DateKey
    ensures forall i, j :: 0 <= i < j < |keys| ==> keys[i] != keys[j]
  {
    var ks := DedupFrom([], Placeholders(template));
    if DateKey in ks then ks else ks + [DateKey]
  }

  /** `str(v)` of a CSV cell: a cell missing from a short row is `None`. */
  function CellText(v: Option<string>): string {
    match v
    case None => "None"
    case Some(t) => t
  }

  /** The value `replacements` holds for a key. */
  function ValueOf(metadata: map<string, Option<string>>, date: string, key: string): string {
    if key == DateKey then date
    else if key in metadata then CellText(metadata[key])
    else ""
  }

  function Token(key: string): (t: string)
    ensures |t| == |key| + 2 && t[0] == '['
  {
    "[" + key + "]"
  }

  /** The replacement loop over `keys`. */
  function FillFrom(template: string, keys: seq<string>, metadata: map<string, Option<string>>, date: string): string
    decreases |keys|
  {
    if |keys| == 0 then template
    else FillFrom(ReplaceAll(template, Token(keys[0]), ValueOf(metadata, date, keys[0])), keys[1..], metadata, date)
  }

  /** `fill_header`, with the template's text and the date given. */
  function FillHeader(template: string, metadata: map<string, Option<string>>, date: string): string {
    FillFrom(template, ReplacementKeys(template), metadata, date)
  }

  /** A template as literal text and placeholder tokens. */
  datatype Chunk = Lit(text: string) | Hole(name: string)

  predicate ValidChunk(c: Chunk) {
    match c
    case Lit(t) => '[' !in t
    case Hole(w) => IsWord(w)
  }

  predicate ValidChunks(cs: seq<Chunk>) {
    forall i :: 0 <= i < |cs| ==> ValidChunk(cs[i])
  }

  function RenderChunk(c: Chunk): string {
    match c
    case Lit(t) => t
    case Hole(w) => Token(w)
  }

  function RenderChunks(cs: seq<Chunk>): string
    decreases |cs|
  {
    if |cs| == 0 then "" else RenderChunk(cs[0]) + RenderChunks(cs[1..])
  }

  function HoleNames(cs: seq<Chunk>): seq<string>
    decreases |cs|
  {
    if |cs| == 0 then []
    else (if cs[0].Hole? then [cs[0].name] else []) + HoleNames(cs[1..])
  }

  /** The header the template promises: every hole replaced by its value. */
  function Filled(cs: seq<Chunk>, metadata: map<string, Option<string>>, date: string): string
    decreases |cs|
  {
    if |cs| == 0 then ""
    else
      (match cs[0] case Lit(t) => t case Hole(w) => ValueOf(metadata, date, w))
      + Filled(cs[1..], metadata, date)
  }

  lemma {:induction false} PlaceholdersSkipText(t: string, rest: string)
    requires '[' !in t
    ensures Placeholders(t + rest) == Placeholders(rest)
    decreases |t|
  {
    if |t| == 0 {
      assert t + rest == rest;
    } else {
      assert (t + rest)[0] == t[0];
      assert (t + rest)[1..] == t[1..] + rest;
      PlaceholdersSkipText(t[1..], rest);
    }
  }

  lemma PlaceholdersHole(w: string, rest: string)
    requires IsWord(w)
    ensures Placeholders(Token(w) + rest) == [w] + Placeholders(rest)
  {
    var s := Token(w) + rest;
    assert s[1..] == w + ("]" + rest);
    WordRunOfWord(w, "]" + rest);
    assert s[1 + |w|] == ']';
    assert s[1..1 + |w|] == w;
    assert s[|w| + 2..] == rest;
  }

  /** The placeholder scan finds exactly the holes of a chunked template. */
  lemma {:induction false} PlaceholdersOfChunks(cs: seq<Chunk>)
    requires ValidChunks(cs)
    ensures Placeholders(RenderChunks(cs)) == HoleNames(cs)
    decreases |cs|
  {
    if |cs| > 0 {
      PlaceholdersOfChunks(cs[1..]);
      match cs[0]
      case Lit(t) => PlaceholdersSkipText(t, RenderChunks(cs[1..]));
      case Hole(w) => PlaceholdersHole(w, RenderChunks(cs[1..]));
    }
  }

  /** The holes named `key` filled with `v`. */
  function SubstHole(cs: seq<Chunk>, key: string, v: string): (r: seq<Chunk>)
    ensures |r| == |cs|
    decreases |cs|
  {
    if |cs| == 0 then []
    else [if cs[0] == Hole(key) then Lit(v) else cs[0]] + SubstHole(cs[1..], key, v)
  }

  /** A token differs from every other token of the same shape. */
  lemma OtherTokenNoPrefix(w: string, key: string, rest: string)
    requires IsWord(w) && IsWord(key) && w != key
    ensures !IsPrefix(Token(key), Token(w) + rest)
  {
    var pat := Token(key);
    var s := Token(w) + rest;
    var i: nat;
    if |key| < |w| {
      i := 1 + |key|;
      assert pat[i] == ']' && s[i] == w[|key|];
    } else if |key| > |w| {
      i := 1 + |w|;
      assert pat[i] == key[|w|] && s[i] == ']';
    } else {
      var j :| 0 <= j < |key| && key[j] != w[j];
      i := 1 + j;
      assert pat[i] == key[j] && s[i] == w[j];
    }
    assert i < |pat| && pat[i] != s[i];
    if |pat| <= |s| {
      assert s[..|pat|][i] == s[i];
    }
  }

  /** One `str.replace` of a token fills exactly the holes with that name. */
  lemma {:induction false} ReplaceToken(cs: seq<Chunk>, key: string, v: string)
    requires ValidChunks(cs) && IsWord(key)
    ensures ReplaceAll(RenderChunks(cs), Token(key), v) == RenderChunks(SubstHole(cs, key, v))
    decreases |cs|
  {
    if |cs| > 0 {
      var rest := RenderChunks(cs[1..]);
      var pat := Token(key);
      ReplaceToken(cs[1..], key, v);
      assert SubstHole(cs, key, v)[1..] == SubstHole(cs[1..], key, v);
      match cs[0]
      case Lit(t) =>
        ReplaceAllSkip(t, rest, pat, v);
      case Hole(w) =>
        if w == key {
          assert IsPrefix(pat, pat + rest);
          assert (pat + rest)[|pat|..] == rest;
        } else {
          OtherTokenSkipped(w, key, rest, v);
        }
    }
  }

  /** A token of another name passes through a replacement unchanged. */
  lemma OtherTokenSkipped(w: string, key: string, rest: string, v: string)
    requires IsWord(w) && IsWord(key) && w != key
    ensures ReplaceAll(Token(w) + rest, Token(key), v) == Token(w) + ReplaceAll(rest, Token(key), v)
  {
    var pat := Token(key);
    var s := Token(w) + rest;
    OtherTokenNoPrefix(w, key, rest);
    assert s[1..] == (w + "]") + rest;
    forall k | 0 <= k < |w| ensures w[k] != '[' {
      assert IsWordChar(w[k]);
    }
    assert forall k :: 0 <= k < |w| ==> (w + "]")[k] == w[k];
    ReplaceAllSkip(w + "]", rest, pat, v);
    assert Token(w) + ReplaceAll(rest, pat, v) == "[" + ((w + "]") + ReplaceAll(rest, pat, v));
  }

  /** Filling a hole with its own value does not change the promised header. */
  lemma {:induction false} FilledSubst(cs: seq<Chunk>, key: string, metadata: map<string, Option<string>>, date: string)
    ensures Filled(SubstHole(cs, key, ValueOf(metadata, date, key)), metadata, date) == Filled(cs, metadata, date)
    decreases |cs|
  {
    if |cs| > 0 {
      FilledSubst(cs[1..], key, metadata, date);
      assert SubstHole(cs, key, ValueOf(metadata, date, key))[1..] == SubstHole(cs[1..], key, ValueOf(metadata, date, key));
    }
  }

  lemma {:induction false} SubstKeepsValid(cs: seq<Chunk>, key: string, v: string)
    requires ValidChunks(cs) && '[' !in v
    ensures ValidChunks(SubstHole(cs, key, v))
    ensures forall w :: w in HoleNames(SubstHole(cs, key, v)) ==> w in HoleNames(cs) && w != key
    decreases |cs|
  {
    if |cs| > 0 {
      SubstKeepsValid(cs[1..], key, v);
      assert SubstHole(cs, key, v)[1..] == SubstHole(cs[1..], key, v);
    }
  }

  lemma {:induction false} NoHolesRenderFilled(cs: seq<Chunk>, metadata: map<string, Option<string>>, date: string)
    requires HoleNames(cs) == []
    ensures RenderChunks(cs) == Filled(cs, metadata, date)
    decreases |cs|
  {
    if |cs| > 0 {
      NoHolesRenderFilled(cs[1..], metadata, date);
    }
  }

  /** No value brings in a new `[`. */
  predicate BracketFree(metadata: map<string, Option<string>>, date: string) {
    && '[' !in date
    && forall k :: k in metadata && metadata[k].Some? ==> '[' !in metadata[k].value
  }

  /** The replacement loop over keys covering every hole yields the
      promised header. */
  lemma {:induction false} FillFromChunks(cs: seq<Chunk>, keys: seq<string>, metadata: map<string, Option<string>>, date: string)
    requires ValidChunks(cs) && BracketFree(metadata, date)
    requires forall i :: 0 <= i < |keys| ==> IsWord(keys[i])
    requires forall w :: w in HoleNames(cs) ==> w in keys
    ensures FillFrom(RenderChunks(cs), keys, metadata, date) == Filled(cs, metadata, date)
    decreases |keys|
  {
    if |keys| == 0 {
      assert |HoleNames(cs)| > 0 ==> HoleNames(cs)[0] in HoleNames(cs);
      NoHolesRenderFilled(cs, metadata, date);
    } else {
      var k := keys[0];
      var v := ValueOf(metadata, date, k);
      var cs' := SubstHole(cs, k, v);
      ReplaceToken(cs, k, v);
      SubstKeepsValid(cs, k, v);
      forall w | w in HoleNames(cs') ensures w in keys[1..] {
        assert w in keys && w != k;
      }
      FillFromChunks(cs', keys[1..], metadata, date);
      FilledSubst(cs, k, metadata, date);
    }
  }

  /** `fill_header` on a chunked template: every placeholder is replaced by
      its column's value, `""` for a missing column, and the date for
      `[date_today]`, and nothing else changes. */
  lemma FillHeaderChunks(cs: seq<Chunk>, metadata: map<string, Option<string>>, date: string)
    requires ValidChunks(cs) && BracketFree(metadata, date)
    ensures FillHeader(RenderChunks(cs), metadata, date) == Filled(cs, metadata, date)
  {
    var template := RenderChunks(cs);
    PlaceholdersOfChunks(cs);
    KeysAreWords(template);
    FillFromChunks(cs, ReplacementKeys(template), metadata, date);
  }

  lemma KeysAreWords(template: string)
    ensures forall i :: 0 <= i < |ReplacementKeys(template)| ==> IsWord(ReplacementKeys(template)[i])
  {
    var keys := ReplacementKeys(template);
    forall i | 0 <= i < |keys| ensures IsWord(keys[i]) {
      if keys[i] != DateKey {
        assert keys[i] in Placeholders(template);
      }
    }
  }

  /** A template without `[` comes back unchanged. */
  lemma {:induction false} NoBracketUnchanged(template: string, keys: seq<string>, metadata: map<string, Option<string>>, date: string)
    requires '[' !in template
    ensures FillFrom(template, keys, metadata, date) == template
    decreases |keys|
  {
    if |keys| > 0 {
      NotContainsWithoutFirstChar(template, Token(keys[0]));
      NoBracketUnchanged(template, keys[1..], metadata, date);
    }
  }
}
