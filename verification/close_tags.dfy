/** The two closing-tag searches of `update_block`:
    - the continuation rule (4-ladas2tei.py:169-173) collects every match of
      `</[^>]+>` with `re.findall` and deletes them all with `re.sub`;
    - the cumulative and list rules (4-ladas2tei.py:181) look for a closing
      tag `</[a-zA-Z]*>` at the very end of the last block (`$` also accepts
      a single final line feed after it).
    Both are modelled as the scans Python performs, and related to a
    structured view of a block as text pieces and closing tags. */
module CloseTags {
  import opened Strings

  /** A text `re.findall(r"<\/[^>]+>", ...)` can return: `</`, at least one
      character other than `>`, then the first `>`. */
  predicate IsCloseText(c: string) {
    && |c| >= 4 && c[0] == '<' && c[1] == '/' && c[|c| - 1] == '>'
    && forall j :: 2 <= j < |c| - 1 ==> c[j] != '>'
  }

  /** End of a match of `</[^>]+>` at the start of `s`. */
  function CloseAt(s: string): (e: Option<nat>)
    ensures e.Some? ==> 4 <= e.value <= |s| && IsCloseText(s[..e.value])
  {
    if |s| < 3 || s[0] != '<' || s[1] != '/' || s[2] == '>' then None
    else
      match IndexFrom(s, '>', 3)
      case Some(g) => Some(g + 1)
      case None => None
  }

  /** `re.findall(r"<\/[^>]+>", s)`. */
  function Closes(s: string): (r: seq<string>)
    ensures forall i :: 0 <= i < |r| ==> IsCloseText(r[i])
    decreases |s|
  {
    if |s| == 0 then []
    else
      match CloseAt(s)
      case Some(e) => [s[..e]] + Closes(s[e..])
      case None => Closes(s[1..])
  }

  /** `re.sub(r"<\/[^>]+>", '', s)`. */
  function StripCloses(s: string): string
    decreases |s|
  {
    if |s| == 0 then ""
    else
      match CloseAt(s)
      case Some(e) => StripCloses(s[e..])
      case None => [s[0]] + StripCloses(s[1..])
  }

  /** Nothing is lost: every character of `s` ends up either in the
      stripped text or in one of the collected closing tags. */
  lemma {:induction false} StripClosesConserves(s: string)
    ensures |StripCloses(s)| + |Concat(Closes(s))| == |s|
    decreases |s|
  {
    if |s| > 0 {
      match CloseAt(s)
      case Some(e) =>
        StripClosesConserves(s[e..]);
        assert Concat(Closes(s)) == s[..e] + Concat(Closes(s[e..]));
      case None =>
        StripClosesConserves(s[1..]);
    }
  }

  /** No `</` anywhere: the source's "pas de matches" case. */
  predicate NoCloseOpener(s: string) {
    forall i :: 0 <= i < |s| - 1 ==> !(s[i] == '<' && s[i + 1] == '/')
  }

  lemma NoCloseOpenerTail(s: string)
    requires |s| > 0 && NoCloseOpener(s)
    ensures NoCloseOpener(s[1..])
  {
    forall i | 0 <= i < |s[1..]| - 1 ensures !(s[1..][i] == '<' && s[1..][i + 1] == '/') {
      assert s[1..][i] == s[i + 1] && s[1..][i + 1] == s[i + 2];
    }
  }

  lemma {:induction false} NoCloseOpenerScan(s: string)
    requires NoCloseOpener(s)
    ensures Closes(s) == [] && StripCloses(s) == s
    decreases |s|
  {
    if |s| > 0 {
      assert CloseAt(s).None? by {
        if |s| >= 2 {
          assert !(s[0] == '<' && s[1] == '/');
        }
      }
      NoCloseOpenerTail(s);
      NoCloseOpenerScan(s[1..]);
    }
  }

  /** A structured block: text pieces with no `</` that do not end in `<`,
      and closing tags with a non-empty name free of `>`. */
  datatype Piece = Text(t: string) | Close(name: string)

  predicate ValidPiece(p: Piece) {
    match p
    case Text(t) => NoCloseOpener(t) && (|t| == 0 || t[|t| - 1] != '<')
    case Close(n) => |n| > 0 && '>' !in n
  }

  function RenderPiece(p: Piece): string {
    match p
    case Text(t) => t
    case Close(n) => "</" + n + ">"
  }

  function RenderPieces(ps: seq<Piece>): string
    decreases |ps|
  {
    if |ps| == 0 then "" else RenderPiece(ps[0]) + RenderPieces(ps[1..])
  }

  /** The closing tags of a structured block, in order. */
  function ClosePieces(ps: seq<Piece>): seq<string>
    decreases |ps|
  {
    if |ps| == 0 then []
    else if ps[0].Close? then [RenderPiece(ps[0])] + ClosePieces(ps[1..])
    else ClosePieces(ps[1..])
  }

  /** The text of a structured block with its closing tags left out. */
  function TextPieces(ps: seq<Piece>): string
    decreases |ps|
  {
    if |ps| == 0 then ""
    else if ps[0].Close? then TextPieces(ps[1..])
    else ps[0].t + TextPieces(ps[1..])
  }

  /** No closing tag starts at a text piece. */
  lemma TextNoCloseAt(t: string, rest: string)
    requires |t| > 0 && ValidPiece(Text(t))
    ensures CloseAt(t + rest).None?
  {
    if |t| >= 2 {
      assert !(t[0] == '<' && t[1] == '/');
    } else {
      assert (t + rest)[0] == t[0] != '<';
    }
  }

  lemma {:induction false} ScanText(t: string, rest: string)
    requires ValidPiece(Text(t))
    ensures Closes(t + rest) == Closes(rest)
    ensures StripCloses(t + rest) == t + StripCloses(rest)
    decreases |t|
  {
    if |t| == 0 {
      assert t + rest == rest;
    } else {
      var s := t + rest;
      TextNoCloseAt(t, rest);
      assert s[1..] == t[1..] + rest;
      NoCloseOpenerTail(t);
      ScanText(t[1..], rest);
    }
  }

  lemma ScanClose(n: string, rest: string)
    requires ValidPiece(Close(n))
    ensures Closes("</" + n + ">" + rest) == ["</" + n + ">"] + Closes(rest)
    ensures StripCloses("</" + n + ">" + rest) == StripCloses(rest)
  {
    var c := "</" + n + ">";
    var s := c + rest;
    var g := |n| + 2;
    assert s[g] == '>';
    forall j | 3 <= j < g ensures s[j] != '>' {
      assert s[j] == n[j - 2];
    }
    assert s[2] == n[0] != '>';
    assert CloseAt(s) == Some(g + 1);
    assert s[..g + 1] == c;
    assert s[g + 1..] == rest;
  }

  /** On a structured block the source's text scans do what a structured
      implementation would: `findall` yields exactly the closing tags in
      order, and `sub` leaves exactly the remaining text. */
  lemma {:induction false} ScanPieces(ps: seq<Piece>)
    requires forall i :: 0 <= i < |ps| ==> ValidPiece(ps[i])
    ensures Closes(RenderPieces(ps)) == ClosePieces(ps)
    ensures StripCloses(RenderPieces(ps)) == TextPieces(ps)
    decreases |ps|
  {
    if |ps| > 0 {
      ScanPieces(ps[1..]);
      match ps[0]
      case Text(t) => ScanText(t, RenderPieces(ps[1..]));
      case Close(n) => ScanClose(n, RenderPieces(ps[1..]));
    }
  }

  predicate IsLetter(c: char) {
    ('a' <= c <= 'z') || ('A' <= c <= 'Z')
  }

  /** Length of the longest suffix of letters. */
  function LetterRunBack(s: string): (k: nat)
    ensures k <= |s|
    ensures forall i :: |s| - k <= i < |s| ==> IsLetter(s[i])
    ensures k < |s| ==> !IsLetter(s[|s| - 1 - k])
    decreases |s|
  {
    if |s| == 0 || !IsLetter(s[|s| - 1]) then 0 else 1 + LetterRunBack(s[..|s| - 1])
  }

  /** The part of `s` that `$` anchors to: all of it, or all but one final
      line feed. */
  function DollarBody(s: string): (b: string)
    ensures b == s || (s == b + "\n")
  {
    if |s| > 0 && s[|s| - 1] == '\n' then s[..|s| - 1] else s
  }

  /** A closing tag made of letters only, as `</[a-zA-Z]*>` matches it. */
  predicate IsLetterClose(g: string) {
    && |g| >= 3 && g[0] == '<' && g[1] == '/' && g[|g| - 1] == '>'
    && forall i :: 2 <= i < |g| - 1 ==> IsLetter(g[i])
  }

  /** `re.search('</[a-zA-Z]*>$', s)`: the match is unique, since the
      letters must be exactly the letter run before the final `>`. */
  function LastTag(s: string): (r: Option<string>)
    ensures r.Some? ==> IsLetterClose(r.value)
    ensures r.Some? ==> |r.value| <= |DollarBody(s)|
    ensures r.Some? ==> DollarBody(s)[|DollarBody(s)| - |r.value|..] == r.value
  {
    var body := DollarBody(s);
    if |body| < 3 || body[|body| - 1] != '>' then None
    else
      var inner := body[..|body| - 1];
      var st := |inner| - LetterRunBack(inner);
      if st >= 2 && inner[st - 2] == '<' && inner[st - 1] == '/' then
        LetterCloseAt(body, inner, st);
        Some(body[st - 2..])
      else None
  }

  lemma LetterCloseAt(body: string, inner: string, st: nat)
    requires |body| >= 3 && body[|body| - 1] == '>' && inner == body[..|body| - 1]
    requires 2 <= st <= |inner|
    requires inner[st - 2] == '<' && inner[st - 1] == '/'
    requires forall i :: st <= i < |inner| ==> IsLetter(inner[i])
    ensures IsLetterClose(body[st - 2..])
  {
    var g := body[st - 2..];
    forall i | 2 <= i < |g| - 1 ensures IsLetter(g[i]) {
      assert g[i] == inner[st - 2 + i];
    }
  }

  /** Conversely, a block ending in `</letters>` has exactly that last tag. */
  lemma LastTagOfClose(pre: string, w: string)
    requires forall i :: 0 <= i < |w| ==> IsLetter(w[i])
    ensures LastTag(pre + "</" + w + ">") == Some("</" + w + ">")
  {
    var s := pre + "</" + w + ">";
    assert DollarBody(s) == s;
    var inner := s[..|s| - 1];
    assert inner == pre + "</" + w;
    LetterRunBackOf(pre + "</", w);
    assert s[|pre|..] == "</" + w + ">";
  }

  /** A block ending in an opening tag `<letters>` has no last tag. */
  lemma LastTagOfOpen(pre: string, w: string)
    requires forall i :: 0 <= i < |w| ==> IsLetter(w[i])
    ensures LastTag(pre + "<" + w + ">").None?
  {
    var s := pre + "<" + w + ">";
    assert DollarBody(s) == s;
    var inner := s[..|s| - 1];
    assert inner == (pre + "<") + w;
    LetterRunBackOf(pre + "<", w);
    assert inner[|pre|] == '<';
  }

  lemma {:induction false} LetterRunBackOf(x: string, w: string)
    requires forall i :: 0 <= i < |w| ==> IsLetter(w[i])
    requires |x| > 0 && !IsLetter(x[|x| - 1])
    ensures LetterRunBack(x + w) == |w|
    decreases |w|
  {
    if |w| == 0 {
      assert x + w == x;
    } else {
      assert (x + w)[..|x + w| - 1] == x + w[..|w| - 1];
      LetterRunBackOf(x, w[..|w| - 1]);
    }
  }
}
