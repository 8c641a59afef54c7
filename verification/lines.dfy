/** `process_line` (4-ladas2tei.py:113-135): the rendering of one zone's
    text lines as `<lb n='page_zone_line'/> text` entries. */
module Lines {
  import opened Strings
  import opened TagEnd
  import opened CloseTags

  /** A line's text after `if text: text = text.replace("&", "et")` and
      `text or ""`: a missing text renders as the empty string. */
  function CleanText(text: Option<string>): (r: string)
    ensures '&' !in r
    ensures text.None? ==> r == ""
  {
    match text
    case None => ""
    case Some(t) =>
      ReplaceCharRemoves(t, '&', "et");
      ReplaceAll(t, "&", "et")
  }

  /** The same text as the `f"{text}"` of the verse branch prints it: a
      missing text becomes `None`. */
  function VerseText(text: Option<string>): string {
    match text
    case None => "None"
    case Some(t) => ReplaceAll(t, "&", "et")
  }

  /** The `n` attribute of a line: page, zone and line numbers joined by `_`. */
  function LineId(n: nat, nZone: nat, nLine: nat): string {
    Join([NatToString(n), NatToString(nZone), NatToString(nLine)], "_")
  }

  function LineEntry(n: nat, nZone: nat, nLine: nat, text: Option<string>): string {
    "<lb n='" + LineId(n, nZone, nLine) + "'/> " + CleanText(text)
  }

  function VerseEntry(n: nat, nZone: nat, nLine: nat, text: Option<string>): string {
    "<l><lb n='" + LineId(n, nZone, nLine) + "'/> " + VerseText(text) + "</l>"
  }

  /** The test `tag == "MainZone-Lg"` of line 131: it compares the mapped
      tag with a zone type name. */
  predicate IsVerseTest(tag: TagSpec) {
    tag == Single("MainZone-Lg")
  }

  /** The entries for one line element, numbered `nLine`. */
  function EntriesOf(tag: TagSpec, n: nat, nZone: nat, nLine: nat, text: Option<string>): seq<string> {
    (if IsVerseTest(tag) then [VerseEntry(n, nZone, nLine, text)] else [])
      + [LineEntry(n, nZone, nLine, text)]
  }

  /** The loop of `process_line` from the line after the `done`-th on. */
  function LinesFrom(texts: seq<Option<string>>, tag: TagSpec, n: nat, nZone: nat, done: nat): (r: seq<string>)
    ensures !IsVerseTest(tag) ==> |r| == |texts|
    ensures !IsVerseTest(tag) ==>
      forall i :: 0 <= i < |texts| ==> r[i] == LineEntry(n, nZone, done + i + 1, texts[i])
    decreases |texts|
  {
    if |texts| == 0 then []
    else EntriesOf(tag, n, nZone, done + 1, texts[0]) + LinesFrom(texts[1..], tag, n, nZone, done + 1)
  }

  /** `process_line(zone, tag, n, n_zone)`, with the zone's line texts in
      document order (a missing text as `None`). */
  function ProcessLine(texts: seq<Option<string>>, tag: TagSpec, n: nat, nZone: nat): (r: seq<string>)
    ensures !IsVerseTest(tag) ==> |r| == |texts|
    ensures !IsVerseTest(tag) ==>
      forall i :: 0 <= i < |texts| ==> r[i] == LineEntry(n, nZone, i + 1, texts[i])
  {
    LinesFrom(texts, tag, n, nZone, 0)
  }

  /** Were the verse test ever true, each line would yield two entries. */
  lemma {:induction false} VerseBranchDoublesLines(texts: seq<Option<string>>, n: nat, nZone: nat, done: nat)
    ensures |LinesFrom(texts, Single("MainZone-Lg"), n, nZone, done)| == 2 * |texts|
    decreases |texts|
  {
    if |texts| > 0 {
      VerseBranchDoublesLines(texts[1..], n, nZone, done + 1);
    }
  }

  /** Line identifiers determine page, zone and line numbers, so the
      entries of a document carry pairwise distinct identifiers. */
  lemma LineIdInjective(n1: nat, z1: nat, k1: nat, n2: nat, z2: nat, k2: nat)
    requires LineId(n1, z1, k1) == LineId(n2, z2, k2)
    ensures n1 == n2 && z1 == z2 && k1 == k2
  {
    var p1 := [NatToString(n1), NatToString(z1), NatToString(k1)];
    var p2 := [NatToString(n2), NatToString(z2), NatToString(k2)];
    DigitsHaveNoSeparator(p1);
    DigitsHaveNoSeparator(p2);
    SplitJoin(p1, '_');
    SplitJoin(p2, '_');
    NatToStringInjective(n1, n2);
    NatToStringInjective(z1, z2);
    NatToStringInjective(k1, k2);
  }

  lemma DigitsHaveNoSeparator(ps: seq<string>)
    requires forall i :: 0 <= i < |ps| ==> AllDigits(ps[i])
    ensures forall i :: 0 <= i < |ps| ==> '_' !in ps[i]
  {
    forall i, j | 0 <= i < |ps| && 0 <= j < |ps[i]| ensures ps[i][j] != '_' {
      assert IsDigit(ps[i][j]);
    }
  }

  /** The only `<` of a rendered line is its opening `<lb`, so a line whose
      text holds no `<` contains no closing tag. */
  lemma LineEntryHasNoClose(n: nat, nZone: nat, nLine: nat, text: Option<string>)
    requires text.Some? ==> '<' !in text.value
    ensures NoCloseOpener(LineEntry(n, nZone, nLine, text))
    ensures LineEntry(n, nZone, nLine, text)[|LineEntry(n, nZone, nLine, text)| - 1] != '<'
  {
    var id := LineId(n, nZone, nLine);
    var clean := CleanText(text);
    CleanKeepsNoAngle(text);
    LineIdNoAngle(n, nZone, nLine);
    NoAngleTail(id, clean);
    var tail := "lb n='" + id + "'/> " + clean;
    assert LineEntry(n, nZone, nLine, text) == "<" + tail;
    OnlyLeadingAngle(tail);
  }

  lemma CleanKeepsNoAngle(text: Option<string>)
    requires text.Some? ==> '<' !in text.value
    ensures '<' !in CleanText(text)
  {
    if text.Some? {
      ReplaceAllKeepsAbsent(text.value, "&", "et", '<');
    }
  }

  lemma LineIdNoAngle(n: nat, nZone: nat, nLine: nat)
    ensures '<' !in LineId(n, nZone, nLine)
  {
    JoinKeepsAbsent([NatToString(n), NatToString(nZone), NatToString(nLine)], "_", '<');
  }

  lemma NoAngleTail(id: string, clean: string)
    requires '<' !in id && '<' !in clean
    ensures '<' !in "lb n='" + id + "'/> " + clean
  {
    assert '<' !in "lb n='";
    assert '<' !in "'/> ";
  }

  /** A text whose only `<` is its first character, not followed by `/`. */
  lemma OnlyLeadingAngle(tail: string)
    requires '<' !in tail && |tail| > 0 && tail[0] != '/'
    ensures NoCloseOpener("<" + tail)
    ensures ("<" + tail)[|tail|] != '<'
  {
    var e := "<" + tail;
    forall i | 0 <= i < |e| - 1 ensures !(e[i] == '<' && e[i + 1] == '/') {
      if i > 0 {
        assert e[i] == tail[i - 1];
      }
    }
    assert e[|tail|] == tail[|tail| - 1];
  }

  lemma {:induction false} JoinKeepsAbsent(ps: seq<string>, sep: string, c: char)
    requires c !in sep
    requires forall i :: 0 <= i < |ps| ==> c !in ps[i]
    ensures c !in Join(ps, sep)
    decreases |ps|
  {
    if |ps| > 1 {
      JoinKeepsAbsent(ps[1..], sep, c);
    }
  }
}
