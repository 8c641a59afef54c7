/** `create_tag_end` (4-ladas2tei.py:138-143): the closing tags for an
    opening tag or for a stack of opening tags.  The source works on text:
    a list is first joined in reverse order, then every opening tag
    `<name attrs>` is cut down to `<name>` by the regular expression
    `<(\w+)(\s+[^>]*)?>`, and finally every `<` becomes `</`.  Both steps are
    modelled here as the left-to-right scans Python performs. */
module TagEnd {
  import opened Strings

  /** A value of `tei_mapping`: one opening tag, or a Python list of
      opening tags from the outermost to the innermost. */
  datatype TagSpec = Single(tag: string) | Stack(tags: seq<string>)

  /** `\w` (ASCII letters, digits and underscore). */
  predicate IsWordChar(c: char) {
    ('a' <= c <= 'z') || ('A' <= c <= 'Z') || ('0' <= c <= '9') || c == '_'
  }

  /** `\s` (ASCII space, tab, line feed, vertical tab, form feed, return). */
  predicate IsSpaceChar(c: char) {
    c == ' ' || (9 <= c as int <= 13)
  }

  /** Length of the longest prefix of word characters. */
  function WordRun(s: string): (k: nat)
    ensures k <= |s|
    ensures forall i :: 0 <= i < k ==> IsWordChar(s[i])
    ensures k < |s| ==> !IsWordChar(s[k])
    decreases |s|
  {
    if |s| == 0 || !IsWordChar(s[0]) then 0 else 1 + WordRun(s[1..])
  }

  /** A match of `<(\w+)(\s+[^>]*)?>` at the start of `s`: the length of
      the captured name and the end of the match.  `\w+` can only stop at
      the end of the word run, since the next character must be `>` or a
      space; `[^>]*` then runs to the first `>`. */
  function OpenTagAt(s: string): (m: Option<(nat, nat)>)
    ensures m.Some? ==> 1 <= m.value.0 && 1 + m.value.0 < m.value.1 <= |s|
    ensures m.Some? ==> s[0] == '<' && s[m.value.1 - 1] == '>'
  {
    if |s| == 0 || s[0] != '<' then None
    else
      var k := WordRun(s[1..]);
      var q := 1 + k;
      if k == 0 || q >= |s| then None
      else if s[q] == '>' then Some((k, q + 1))
      else if IsSpaceChar(s[q]) then
        match IndexFrom(s, '>', q + 1)
        case Some(g) => Some((k, g + 1))
        case None => None
      else None
  }

  /** `re.sub(r'<(\w+)(\s+[^>]*)?>', r'<\1>', s)`. */
  function CleanOpenTags(s: string): string
    decreases |s|
  {
    if |s| == 0 then ""
    else match OpenTagAt(s)
      case Some((k, e)) => "<" + s[1..1 + k] + ">" + CleanOpenTags(s[e..])
      case None => [s[0]] + CleanOpenTags(s[1..])
  }

  function Reverse<T>(xs: seq<T>): (r: seq<T>)
    ensures |r| == |xs|
    ensures forall i :: 0 <= i < |xs| ==> r[i] == xs[|xs| - 1 - i]
    decreases |xs|
  {
    if |xs| == 0 then [] else Reverse(xs[1..]) + [xs[0]]
  }

  /** The text `create_tag_end` cleans: the tag itself, or a list's tags
      joined innermost first. */
  function TagText(spec: TagSpec): string {
    match spec
    case Single(t) => t
    case Stack(ts) => Concat(Reverse(ts))
  }

  /** `create_tag_end(tag)`. */
  function CreateTagEnd(spec: TagSpec): string {
    ReplaceAll(CleanOpenTags(TagText(spec)), "<", "</")
  }

  /** An opening tag as a structured value: a name and an attribute text. */
  datatype OpenTag = OpenTag(name: string, attrs: string)

  /** The shape of every tag in the TEI tables: a non-empty word as name,
      and attributes that are empty or start with a space and hold no `>`. */
  predicate WellFormed(t: OpenTag) {
    && |t.name| > 0
    && (forall i :: 0 <= i < |t.name| ==> IsWordChar(t.name[i]))
    && (t.attrs == "" || (IsSpaceChar(t.attrs[0]) && '>' !in t.attrs))
  }

  function Render(t: OpenTag): string {
    "<" + t.name + t.attrs + ">"
  }

  function CloseOf(t: OpenTag): string {
    "</" + t.name + ">"
  }

  /** Reads an opening-tag text back into its name and attributes. */
  function ParseOpenTag(s: string): (r: Option<OpenTag>)
    ensures r.Some? ==> WellFormed(r.value) && Render(r.value) == s
  {
    if |s| < 3 || s[0] != '<' || s[|s| - 1] != '>' then None
    else
      var k := WordRun(s[1..]);
      var t := OpenTag(s[1..1 + k], s[1 + k..|s| - 1]);
      if WellFormed(t) then
        assert s == "<" + t.name + t.attrs + ">";
        Some(t)
      else None
  }

  /** Parsing a rendered well-formed tag gives the tag back. */
  lemma ParseRendered(t: OpenTag)
    requires WellFormed(t)
    ensures ParseOpenTag(Render(t)) == Some(t)
  {
    var s := Render(t);
    assert s[1..] == t.name + (t.attrs + ">");
    WordRunOfWord(t.name, t.attrs + ">");
    assert s[1..1 + |t.name|] == t.name;
    assert s[1 + |t.name|..|s| - 1] == t.attrs;
  }

  /** A text that parses as an opening tag starts with `<` and a word
      character, never with the `</` of a closing tag. */
  lemma ParsedTagShape(s: string)
    requires ParseOpenTag(s).Some?
    ensures |s| >= 3 && s[0] == '<' && IsWordChar(s[1]) && s[1] != '/'
  {
    var t := ParseOpenTag(s).value;
    assert s[1] == t.name[0];
  }

  function RenderAll(ts: seq<OpenTag>): (r: seq<string>)
    ensures |r| == |ts| && forall i :: 0 <= i < |ts| ==> r[i] == Render(ts[i])
    decreases |ts|
  {
    if |ts| == 0 then [] else [Render(ts[0])] + RenderAll(ts[1..])
  }

  function CloseAll(ts: seq<OpenTag>): (r: seq<string>)
    ensures |r| == |ts| && forall i :: 0 <= i < |ts| ==> r[i] == CloseOf(ts[i])
    decreases |ts|
  {
    if |ts| == 0 then [] else [CloseOf(ts[0])] + CloseAll(ts[1..])
  }

  lemma {:induction false} WordRunOfWord(w: string, x: string)
    requires forall i :: 0 <= i < |w| ==> IsWordChar(w[i])
    requires |x| == 0 || !IsWordChar(x[0])
    ensures WordRun(w + x) == |w|
    decreases |w|
  {
    if |w| > 0 {
      assert (w + x)[1..] == w[1..] + x;
      WordRunOfWord(w[1..], x);
    } else {
      assert w + x == x;
    }
  }

  /** The regular expression matches a rendered tag exactly. */
  lemma OpenTagAtRender(t: OpenTag, rest: string)
    requires WellFormed(t)
    ensures OpenTagAt(Render(t) + rest) == Some((|t.name|, |Render(t)|))
  {
    var s := Render(t) + rest;
    var k := |t.name|;
    assert s[1..] == t.name + (t.attrs + ">" + rest);
    WordRunOfWord(t.name, t.attrs + ">" + rest);
    if t.attrs != "" {
      AttrsEnd(t, rest);
    }
  }

  /** The first `>` after the attributes' leading space closes the tag. */
  lemma AttrsEnd(t: OpenTag, rest: string)
    requires WellFormed(t) && t.attrs != ""
    ensures IndexFrom(Render(t) + rest, '>', |t.name| + 2) == Some(|Render(t)| - 1)
  {
    var s := Render(t) + rest;
    var k := |t.name|;
    var g := 1 + k + |t.attrs|;
    assert s[g] == '>';
    forall j | k + 2 <= j < g ensures s[j] != '>' {
      assert s[j] == t.attrs[j - 1 - k];
    }
  }

  /** Cleaning a rendered tag leaves its bare name form. */
  lemma CleanRendered(t: OpenTag, rest: string)
    requires WellFormed(t)
    ensures CleanOpenTags(Render(t) + rest) == "<" + t.name + ">" + CleanOpenTags(rest)
  {
    var s := Render(t) + rest;
    OpenTagAtRender(t, rest);
    assert s[1..1 + |t.name|] == t.name;
    assert s[|Render(t)|..] == rest;
  }

  function BareAll(ts: seq<OpenTag>): string
    decreases |ts|
  {
    if |ts| == 0 then "" else "<" + ts[0].name + ">" + BareAll(ts[1..])
  }

  lemma {:induction false} CleanRenderedAll(ts: seq<OpenTag>)
    requires forall i :: 0 <= i < |ts| ==> WellFormed(ts[i])
    ensures CleanOpenTags(Concat(RenderAll(ts))) == BareAll(ts)
    decreases |ts|
  {
    if |ts| > 0 {
      assert RenderAll(ts)[1..] == RenderAll(ts[1..]);
      CleanRenderedAll(ts[1..]);
      CleanRendered(ts[0], Concat(RenderAll(ts[1..])));
    }
  }

  lemma SlashFirst(x: string)
    ensures ReplaceAll("<" + x, "<", "</") == "</" + ReplaceAll(x, "<", "</")
  {
    assert IsPrefix("<", "<" + x);
    assert ("<" + x)[1..] == x;
  }

  lemma SlashSkip(body: string, rest: string)
    requires '<' !in body
    requires |rest| == 0 || rest[0] == '<'
    ensures ReplaceAll(body + rest, "<", "</") == body + ReplaceAll(rest, "<", "</")
  {
    NotContainsWithoutFirstChar(body, "<");
    if |rest| > 0 {
      ReplaceAllSplit(body, rest, "<", "</");
    } else {
      assert body + rest == body;
    }
  }

  lemma BareRegroup(name: string, rest: string)
    requires '<' !in name
    ensures '<' !in name + ">"
    ensures "<" + name + ">" + rest == "<" + ((name + ">") + rest)
  {
    var body := name + ">";
    assert forall i :: 0 <= i < |name| ==> body[i] == name[i];
  }

  lemma ClosedRegroup(name: string, r: string)
    ensures "</" + ((name + ">") + r) == "</" + name + ">" + r
  {
  }

  /** Turning `<` into `</` closes one bare tag. */
  lemma SlashBare(name: string, rest: string)
    requires '<' !in name
    requires |rest| == 0 || rest[0] == '<'
    ensures ReplaceAll("<" + name + ">" + rest, "<", "</")
            == "</" + name + ">" + ReplaceAll(rest, "<", "</")
  {
    BareRegroup(name, rest);
    SlashFirst((name + ">") + rest);
    SlashSkip(name + ">", rest);
    ClosedRegroup(name, ReplaceAll(rest, "<", "</"));
  }

  /** Turning `<` into `</` closes each bare tag. */
  lemma {:induction false} SlashBareAll(ts: seq<OpenTag>)
    requires forall i :: 0 <= i < |ts| ==> WellFormed(ts[i])
    ensures ReplaceAll(BareAll(ts), "<", "</") == Concat(CloseAll(ts))
    decreases |ts|
  {
    if |ts| > 0 {
      var t := ts[0];
      assert '<' !in t.name by {
        forall i | 0 <= i < |t.name| ensures t.name[i] != '<' {
          assert IsWordChar(t.name[i]);
        }
      }
      SlashBare(t.name, BareAll(ts[1..]));
      SlashBareAll(ts[1..]);
      assert CloseAll(ts)[1..] == CloseAll(ts[1..]);
    }
  }

  /** A single well-formed opening tag gets exactly its bare closing tag:
      attributes never reach the closing form. */
  lemma CreateTagEndSingle(t: OpenTag)
    requires WellFormed(t)
    ensures CreateTagEnd(Single(Render(t))) == CloseOf(t)
  {
    CleanRenderedAll([t]);
    SlashBareAll([t]);
    assert Concat(RenderAll([t])) == Render(t);
    assert Concat(CloseAll([t])) == CloseOf(t);
  }

  lemma ReverseRenderAll(ts: seq<OpenTag>)
    ensures Reverse(RenderAll(ts)) == RenderAll(Reverse(ts))
  {
  }

  /** A stack of well-formed opening tags is closed innermost first, with
      one closing tag per opening tag. */
  lemma CreateTagEndStack(ts: seq<OpenTag>)
    requires forall i :: 0 <= i < |ts| ==> WellFormed(ts[i])
    ensures CreateTagEnd(Stack(RenderAll(ts))) == Concat(CloseAll(Reverse(ts)))
  {
    var rs := Reverse(ts);
    ReverseRenderAll(ts);
    CleanRenderedAll(rs);
    SlashBareAll(rs);
  }
}
