/** The block assembler of 4-ladas2tei.py: `update_block` (lines 147-202)
    decides, zone by zone, whether the zone's lines open a new block or are
    merged into an earlier one; `process_document` (lines 57-82) emits a
    page marker and feeds the page's zones through it; `main` (lines
    228-241) wraps the blocks of all selected page files in the TEI body
    envelope.  A block list is a `seq<string>`, exactly as in the source. */
module Assembler {
  import opened Strings
  import opened TagEnd
  import opened CloseTags
  import opened Lines
  import opened Classify

  /** `"".join(tag)`: a single tag is its own text, a list is joined
      outermost first. */
  function OpenText(spec: TagSpec): string {
    match spec
    case Single(t) => t
    case Stack(ts) => Concat(ts)
  }

  /** A block may take a continuation unless it mentions `fw` (a forme
      work block) or `pb` (a page marker). */
  predicate Mergeable(b: string) {
    !Contains(b, "fw") && !Contains(b, "pb")
  }

  /** The backward loop of the continuation rule from index `i` down: it
      stops at a mergeable block, or runs out at index 0. */
  function ScanBack(blocks: seq<string>, i: nat): (r: nat)
    requires i < |blocks|
    ensures r <= i
    ensures Mergeable(blocks[r]) || r == 0
    ensures forall j :: r < j <= i ==> !Mergeable(blocks[j])
  {
    if Mergeable(blocks[i]) || i == 0 then i else ScanBack(blocks, i - 1)
  }

  /** The block a continued zone flows back into: the latest mergeable
      block, or the first block when none is mergeable. */
  function ContinuationTarget(blocks: seq<string>): (i: nat)
    requires |blocks| > 0
    ensures i < |blocks|
    ensures forall j :: i < j < |blocks| ==> !Mergeable(blocks[j])
    ensures Mergeable(blocks[i]) || (i == 0 && forall j :: 0 <= j < |blocks| ==> !Mergeable(blocks[j]))
  {
    ScanBack(blocks, |blocks| - 1)
  }

  /** What `update_block` needs to run without an exception: a consistent
      classification, and a block to look at for the three merging rules. */
  predicate CanUpdate(blocks: seq<string>, c: Classified) {
    && Consistent(c)
    && ((c.continued || c.cumul.Some? || c.isList) ==> |blocks| > 0)
  }

  /** `last_tag_needed`: the parent's tag for a cumulative zone, the
      closing form of the outer tag for a list. */
  function NeededTag(c: Classified): string
    requires Consistent(c)
    requires c.cumul.Some? || c.isList
  {
    if c.cumul.Some? then TeiMapping(c.cumul.value).tag
    else CreateTagEnd(Single(c.tag.tags[0]))
  }

  /** `any("<head>" in el for el in liste_block)`. */
  predicate AnyHead(blocks: seq<string>) {
    exists j :: 0 <= j < |blocks| && Contains(blocks[j], "<head>")
  }

  /** A new block for a zone: its tag, its lines, its closing tags. */
  function NewBlock(tag: TagSpec, lines: seq<string>): string {
    OpenText(tag) + Concat(lines) + CreateTagEnd(tag)
  }

  /** The continuation rule (lines 163-177): the target's closing tags are
      cut out of it and close a new block holding the zone's lines; with
      no closing tag to move, nothing happens. */
  function Continue(blocks: seq<string>, lines: seq<string>): (r: seq<string>)
    requires |blocks| > 0
    ensures |blocks| <= |r| <= |blocks| + 1
  {
    var i := ContinuationTarget(blocks);
    var ms := Closes(blocks[i]);
    if |ms| > 0 then blocks[i := StripCloses(blocks[i])] + [Concat(lines) + Concat(ms)]
    else blocks
  }

  /** The cumulative and list rules (lines 179-194): when the last block
      ends with the needed closing tag, the zone goes in front of it
      (every copy of that tag in the last block is removed first);
      otherwise the zone opens a block. */
  function MergeOrOpen(blocks: seq<string>, c: Classified, lines: seq<string>): (r: seq<string>)
    requires Consistent(c) && (c.cumul.Some? || c.isList) && |blocks| > 0
    ensures |blocks| <= |r| <= |blocks| + 1
    ensures r[..|blocks| - 1] == blocks[..|blocks| - 1]
    ensures LastTag(blocks[|blocks| - 1]).None? ==> r == blocks + [NewBlock(c.tag, lines)]
  {
    var last := blocks[|blocks| - 1];
    var found := LastTag(last);
    if found.Some? && found.value == NeededTag(c) then
      var g := found.value;
      var open := if c.isList then c.tag.tags[1] else OpenText(c.tag);
      var end := if c.isList then CreateTagEnd(Single(c.tag.tags[1])) else CreateTagEnd(c.tag);
      blocks[..|blocks| - 1] + [ReplaceAll(last, g, "") + open + Concat(lines) + end + g]
    else blocks + [NewBlock(c.tag, lines)]
  }

  /** The heading and default rules (lines 195-200). */
  function Open(blocks: seq<string>, c: Classified, lines: seq<string>): (r: seq<string>)
    ensures |r| == |blocks| + 1 && r[..|blocks|] == blocks
  {
    if c.zoneType == Some("MainZone-Head") && AnyHead(blocks) then
      blocks + ["</div><div>" + NewBlock(c.tag, lines)]
    else blocks + [NewBlock(c.tag, lines)]
  }

  /** `update_block(liste_block, tag, liste_line, continued, cumul,
      is_list, zone_type)`, with the five zone values in `c`. */
  function UpdateBlock(blocks: seq<string>, c: Classified, lines: seq<string>): (r: seq<string>)
    requires CanUpdate(blocks, c)
    ensures |blocks| <= |r| <= |blocks| + 1
  {
    if c.continued then Continue(blocks, lines)
    else if c.cumul.Some? || c.isList then MergeOrOpen(blocks, c, lines)
    else Open(blocks, c, lines)
  }

  /** Cutting a block list at one index. */
  lemma ConcatAround(blocks: seq<string>, i: nat, x: string)
    requires i < |blocks|
    ensures Concat(blocks) == Concat(blocks[..i]) + blocks[i] + Concat(blocks[i + 1..])
    ensures Concat(blocks[i := x]) == Concat(blocks[..i]) + x + Concat(blocks[i + 1..])
  {
    assert blocks == blocks[..i] + [blocks[i]] + blocks[i + 1..];
    ConcatAppend(blocks[..i] + [blocks[i]], blocks[i + 1..]);
    ConcatAppend(blocks[..i], [blocks[i]]);
    var u := blocks[i := x];
    assert u == blocks[..i] + [x] + blocks[i + 1..];
    ConcatAppend(blocks[..i] + [x], blocks[i + 1..]);
    ConcatAppend(blocks[..i], [x]);
  }

  /** Read as one text, a continuation takes the closing tags out of its
      target and puts them after the continued lines, so that the element
      left open spans the page marker and forme-work blocks in between. */
  lemma ContinuationText(blocks: seq<string>, c: Classified, lines: seq<string>)
    requires CanUpdate(blocks, c) && c.continued
    requires Closes(blocks[ContinuationTarget(blocks)]) != []
    ensures var i := ContinuationTarget(blocks);
      Concat(UpdateBlock(blocks, c, lines))
        == Concat(blocks[..i]) + StripCloses(blocks[i]) + Concat(blocks[i + 1..])
           + Concat(lines) + Concat(Closes(blocks[i]))
  {
    var i := ContinuationTarget(blocks);
    var ms := Closes(blocks[i]);
    var u := blocks[i := StripCloses(blocks[i])];
    ConcatAround(blocks, i, StripCloses(blocks[i]));
    ConcatAppend(u, [Concat(lines) + Concat(ms)]);
  }

  /** Nothing is lost or duplicated by a continuation. */
  lemma ContinuationConserves(blocks: seq<string>, c: Classified, lines: seq<string>)
    requires CanUpdate(blocks, c) && c.continued
    requires Closes(blocks[ContinuationTarget(blocks)]) != []
    ensures |Concat(UpdateBlock(blocks, c, lines))| == |Concat(blocks)| + |Concat(lines)|
  {
    var i := ContinuationTarget(blocks);
    ContinuationText(blocks, c, lines);
    ConcatAround(blocks, i, blocks[i]);
    StripClosesConserves(blocks[i]);
  }

  /** On a structured target the continuation keeps the target's text,
      ends the new block with exactly the target's closing tags in order,
      and changes no other block. */
  lemma ContinuationSplice(blocks: seq<string>, c: Classified, lines: seq<string>, ps: seq<Piece>)
    requires CanUpdate(blocks, c) && c.continued
    requires forall k :: 0 <= k < |ps| ==> ValidPiece(ps[k])
    requires blocks[ContinuationTarget(blocks)] == RenderPieces(ps)
    requires ClosePieces(ps) != []
    ensures var i := ContinuationTarget(blocks);
            var r := UpdateBlock(blocks, c, lines);
      && |r| == |blocks| + 1
      && r[i] == TextPieces(ps)
      && r[|blocks|] == Concat(lines) + Concat(ClosePieces(ps))
      && forall j :: 0 <= j < |blocks| && j != i ==> r[j] == blocks[j]
  {
    ScanPieces(ps);
  }

  /** A continued zone whose target holds no closing tag is dropped: its
      lines appear nowhere. */
  lemma ContinuationWithoutCloseDropped(blocks: seq<string>, c: Classified, lines: seq<string>)
    requires CanUpdate(blocks, c) && c.continued
    requires NoCloseOpener(blocks[ContinuationTarget(blocks)])
    ensures UpdateBlock(blocks, c, lines) == blocks
  {
    NoCloseOpenerScan(blocks[ContinuationTarget(blocks)]);
  }

  /** The cumulative rule compares a closing tag with the parent's opening
      tag, so a cumulative zone never merges into its parent block: it
      always opens a block of its own. */
  lemma CumulativeNeverMerges(blocks: seq<string>, c: Classified, lines: seq<string>)
    requires CanUpdate(blocks, c) && !c.continued && c.cumul.Some?
    ensures UpdateBlock(blocks, c, lines) == blocks + [NewBlock(c.tag, lines)]
  {
    MappingTagsOpen(c.cumul.value);
  }

  /** Deleting every copy of a closing tag that occurs only at the end. */
  lemma RemoveFinalClose(pre: string, t: OpenTag)
    requires WellFormed(t) && !Contains(pre, CloseOf(t))
    ensures ReplaceAll(pre + CloseOf(t), CloseOf(t), "") == pre
  {
    var g := CloseOf(t);
    assert g[1..] == "/" + t.name + ">";
    forall k | 0 <= k < |t.name| ensures t.name[k] != '<' {
      assert IsWordChar(t.name[k]);
    }
    assert '<' !in g[1..];
    ReplaceAllSplit(pre, g, g, "");
    assert IsPrefix(g, g);
    assert g[|g|..] == "";
  }

  /** The needed tag of a list is the bare closing form of its outer tag. */
  lemma ListNeeded(c: Classified, t0: OpenTag)
    requires Consistent(c) && c.cumul.None? && c.isList
    requires WellFormed(t0) && c.tag.tags[0] == Render(t0)
    ensures NeededTag(c) == CloseOf(t0)
  {
    CreateTagEndSingle(t0);
  }

  /** The merging branch of a list, once the last tag matches. */
  lemma ListMerges(blocks: seq<string>, c: Classified, lines: seq<string>, t1: OpenTag)
    requires Consistent(c) && c.cumul.None? && c.isList && |blocks| > 0
    requires LastTag(blocks[|blocks| - 1]) == Some(NeededTag(c))
    requires WellFormed(t1) && c.tag.tags[1] == Render(t1)
    ensures var last := blocks[|blocks| - 1];
            var g := NeededTag(c);
      MergeOrOpen(blocks, c, lines)
        == blocks[..|blocks| - 1] + [ReplaceAll(last, g, "") + Render(t1) + Concat(lines) + CloseOf(t1) + g]
  {
    CreateTagEndSingle(t1);
  }

  /** A list zone that follows a block ending with the list's closing tag
      becomes one more item inside that list. */
  lemma ListContinues(blocks: seq<string>, c: Classified, lines: seq<string>,
                      t0: OpenTag, t1: OpenTag, pre: string)
    requires CanUpdate(blocks, c) && !c.continued && c.cumul.None? && c.isList
    requires WellFormed(t0) && WellFormed(t1)
    requires c.tag.tags[0] == Render(t0) && c.tag.tags[1] == Render(t1)
    requires forall k :: 0 <= k < |t0.name| ==> IsLetter(t0.name[k])
    requires blocks[|blocks| - 1] == pre + CloseOf(t0)
    requires !Contains(pre, CloseOf(t0))
    ensures UpdateBlock(blocks, c, lines)
      == blocks[..|blocks| - 1] + [pre + Render(t1) + Concat(lines) + CloseOf(t1) + CloseOf(t0)]
  {
    var g := CloseOf(t0);
    var last := blocks[|blocks| - 1];
    assert last == pre + "</" + t0.name + ">";
    LastTagOfClose(pre, t0.name);
    assert LastTag(last) == Some(g);
    ListNeeded(c, t0);
    ListMerges(blocks, c, lines, t1);
    RemoveFinalClose(pre, t0);
    UpdateIsMerge(blocks, c, lines);
    assert ReplaceAll(blocks[|blocks| - 1], g, "") == pre;
  }

  lemma UpdateIsMerge(blocks: seq<string>, c: Classified, lines: seq<string>)
    requires CanUpdate(blocks, c) && !c.continued && (c.cumul.Some? || c.isList)
    ensures UpdateBlock(blocks, c, lines) == MergeOrOpen(blocks, c, lines)
  {
  }

  /** A list zone that does not follow its list opens the whole stack of
      tags and closes it innermost first. */
  lemma ListOpens(blocks: seq<string>, c: Classified, lines: seq<string>, ts: seq<OpenTag>)
    requires CanUpdate(blocks, c) && !c.continued && c.cumul.None?
    requires c.tag == Stack(RenderAll(ts))
    requires forall k :: 0 <= k < |ts| ==> WellFormed(ts[k])
    requires LastTag(blocks[|blocks| - 1]) != Some(CloseOf(ts[0]))
    ensures UpdateBlock(blocks, c, lines)
      == blocks + [Concat(RenderAll(ts)) + Concat(lines) + Concat(CloseAll(Reverse(ts)))]
  {
    CreateTagEndSingle(ts[0]);
    CreateTagEndStack(ts);
  }

  /** A single tag's block is closed by the bare form of the tag. */
  lemma NewBlockSingle(t: OpenTag, lines: seq<string>)
    requires WellFormed(t)
    ensures NewBlock(Single(Render(t)), lines) == Render(t) + Concat(lines) + CloseOf(t)
  {
    CreateTagEndSingle(t);
  }

  lemma UpdateIsOpen(blocks: seq<string>, c: Classified, lines: seq<string>)
    requires CanUpdate(blocks, c) && !c.continued && c.cumul.None? && !c.isList
    ensures UpdateBlock(blocks, c, lines) == Open(blocks, c, lines)
  {
  }

  /** A `MainZone-Head` zone after an earlier heading first closes the
      current division and opens a new one. */
  lemma HeadingOpensDivision(blocks: seq<string>, c: Classified, lines: seq<string>, t: OpenTag)
    requires CanUpdate(blocks, c) && !c.continued && c.cumul.None?
    requires c.tag == Single(Render(t)) && WellFormed(t)
    requires c.zoneType == Some("MainZone-Head") && AnyHead(blocks)
    ensures UpdateBlock(blocks, c, lines)
      == blocks + ["</div><div>" + Render(t) + Concat(lines) + CloseOf(t)]
  {
    UpdateIsOpen(blocks, c, lines);
    NewBlockSingle(t, lines);
    assert "</div><div>" + NewBlock(c.tag, lines)
        == "</div><div>" + Render(t) + Concat(lines) + CloseOf(t);
  }

  /** Any other zone appends one block: its tag, its lines and the bare
      closing form of its tag. */
  lemma PlainZoneAppends(blocks: seq<string>, c: Classified, lines: seq<string>, t: OpenTag)
    requires CanUpdate(blocks, c) && !c.continued && c.cumul.None?
    requires c.tag == Single(Render(t)) && WellFormed(t)
    requires !(c.zoneType == Some("MainZone-Head") && AnyHead(blocks))
    ensures UpdateBlock(blocks, c, lines) == blocks + [Render(t) + Concat(lines) + CloseOf(t)]
  {
    UpdateIsOpen(blocks, c, lines);
    NewBlockSingle(t, lines);
  }

  /** A block with no closing tag at all is never touched again. */
  predicate Stable(b: string) {
    Closes(b) == [] && LastTag(b).None?
  }

  lemma ContinueKeepsStable(blocks: seq<string>, lines: seq<string>, j: nat)
    requires j < |blocks| && Stable(blocks[j])
    ensures j < |Continue(blocks, lines)| && Continue(blocks, lines)[j] == blocks[j]
  {
  }

  lemma MergeKeepsStable(blocks: seq<string>, c: Classified, lines: seq<string>, j: nat)
    requires Consistent(c) && (c.cumul.Some? || c.isList) && |blocks| > 0
    requires j < |blocks| && Stable(blocks[j])
    ensures j < |MergeOrOpen(blocks, c, lines)| && MergeOrOpen(blocks, c, lines)[j] == blocks[j]
  {
    var r := MergeOrOpen(blocks, c, lines);
    if j < |blocks| - 1 {
      assert r[j] == r[..|blocks| - 1][j];
    }
  }

  lemma UpdateKeepsStable(blocks: seq<string>, c: Classified, lines: seq<string>, j: nat)
    requires CanUpdate(blocks, c) && j < |blocks| && Stable(blocks[j])
    ensures j < |UpdateBlock(blocks, c, lines)| && UpdateBlock(blocks, c, lines)[j] == blocks[j]
  {
    if c.continued {
      ContinueKeepsStable(blocks, lines, j);
    } else if c.cumul.Some? || c.isList {
      MergeKeepsStable(blocks, c, lines, j);
    }
  }

  /** Outside the continuation rule no block but the last ever changes. */
  lemma UpdateKeepsPrefix(blocks: seq<string>, c: Classified, lines: seq<string>)
    requires CanUpdate(blocks, c) && !c.continued && |blocks| > 0
    ensures UpdateBlock(blocks, c, lines)[..|blocks| - 1] == blocks[..|blocks| - 1]
  {
  }
}
