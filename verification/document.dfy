/** One book through 4-ladas2tei.py: `process_document` (lines 57-82)
    turns one page file into a page marker followed by its zones, and the
    file loop of `main` (lines 228-241) runs it over the selected files of
    the book's folder, numbering pages from 0, inside the body envelope.
    The XSLT result of a page is an input here: the list of its regions,
    or `None` when parsing or the transformation failed.  The zone loop
    takes its classifier as a parameter, of which it needs only that
    every classification is `Consistent`; `Body` runs it with the
    script's own `ClassifyZone`. */
module Document {
  import opened Strings
  import opened TagEnd
  import opened CloseTags
  import opened Lines
  import opened Classify
  import opened Assembler

  /** A `region` element: its `type` attribute and the texts of its
      `line` children (`None` for a line without text). */
  datatype Zone = Zone(zoneType: Option<string>, lines: seq<Option<string>>)

  /** A directory entry: its name and what the XSLT made of it. */
  datatype PageFile = PageFile(name: string, regions: Option<seq<Zone>>)

  const Opener: string := "<text><body><div>"
  const Closer: string := "</div></body></text>"

  /** The page-boundary marker of page `n` taken from file `doc`. */
  function PbMarker(n: nat, doc: string): string {
    "<pb n='" + NatToString(n) + "' facs='" + doc + "'/>"
  }

  /** A classifier whose every classification `update_block` can rely on. */
  ghost predicate ConsistentClassifier(classify: Option<string> -> Classified) {
    forall t :: Consistent(classify(t))
  }

  lemma ScriptClassifierConsistent()
    ensures ConsistentClassifier(ClassifyZone)
  {
    forall t ensures Consistent(ClassifyZone(t)) {
      ClassifyConsistent(t);
    }
  }

  /** The zone loop of `process_document`, from the zone numbered `nZone`. */
  function AssembleZones(classify: Option<string> -> Classified, blocks: seq<string>, zones: seq<Zone>, n: nat, nZone: nat): (r: seq<string>)
    requires ConsistentClassifier(classify) && |blocks| > 0
    ensures |r| >= |blocks|
    decreases |zones|
  {
    if |zones| == 0 then blocks
    else
      var z := zones[0];
      var c := classify(z.zoneType);
      var lines := ProcessLine(z.lines, c.tag, n, nZone);
      AssembleZones(classify, UpdateBlock(blocks, c, lines), zones[1..], n, nZone + 1)
  }

  /** `process_document(directory, doc, liste_block, xslt_file, n)`: a page
      the XSLT could not produce leaves the blocks as they were. */
  function ProcessDocument(classify: Option<string> -> Classified, blocks: seq<string>, page: PageFile, n: nat): (r: seq<string>)
    requires ConsistentClassifier(classify)
    ensures page.regions.None? ==> r == blocks
    ensures page.regions.Some? ==> |r| > |blocks|
  {
    match page.regions
    case None => blocks
    case Some(zones) => AssembleZones(classify, blocks + [PbMarker(n, page.name)], zones, n, 0)
  }

  /** The file filter of `main`: the name mentions `xml` but not `METS`. */
  predicate Selected(name: string) {
    Contains(name, "xml") && !Contains(name, "METS")
  }

  /** The file loop of `main` over a sorted directory listing: the blocks
      and the page counter `n` after it. */
  function AssemblePages(classify: Option<string> -> Classified, blocks: seq<string>, files: seq<PageFile>, n: nat): (r: (seq<string>, nat))
    requires ConsistentClassifier(classify)
    ensures |r.0| >= |blocks| && r.1 >= n
    decreases |files|
  {
    if |files| == 0 then (blocks, n)
    else if Selected(files[0].name) then AssemblePages(classify, ProcessDocument(classify, blocks, files[0], n), files[1..], n + 1)
    else AssemblePages(classify, blocks, files[1..], n)
  }

  /** `"".join(liste_block)` once the closing envelope is appended. */
  function Body(files: seq<PageFile>): string {
    ScriptClassifierConsistent();
    Concat(AssemblePages(ClassifyZone, [Opener], files, 0).0 + [Closer])
  }

  /** The names of the selected files, in order: a reference for what the
      page counter counts. */
  function SelectedNames(files: seq<PageFile>): (r: seq<string>)
    ensures |r| <= |files|
    ensures forall i :: 0 <= i < |r| ==> Selected(r[i])
    decreases |files|
  {
    if |files| == 0 then []
    else (if Selected(files[0].name) then [files[0].name] else []) + SelectedNames(files[1..])
  }

  /** The page counter counts every selected file, whether or not its
      transformation succeeded. */
  lemma {:induction false} PagesCounted(classify: Option<string> -> Classified, blocks: seq<string>, files: seq<PageFile>, n: nat)
    requires ConsistentClassifier(classify)
    ensures AssemblePages(classify, blocks, files, n).1 == n + |SelectedNames(files)|
    decreases |files|
  {
    if |files| > 0 {
      if Selected(files[0].name) {
        PagesCounted(classify, ProcessDocument(classify, blocks, files[0], n), files[1..], n + 1);
      } else {
        PagesCounted(classify, blocks, files[1..], n);
      }
    }
  }

  lemma OpenerStable()
    ensures Stable(Opener)
  {
    OpenerNoClose();
    NoCloseOpenerScan(Opener);
    OpenerNoLastTag();
  }

  lemma OpenerNoClose()
    ensures NoCloseOpener(Opener)
  {
  }

  lemma OpenerNoLastTag()
    ensures LastTag(Opener).None?
  {
    assert Opener == "<text><body>" + "<" + "div" + ">";
    LastTagOfOpen("<text><body>", "div");
  }

  /** A page marker holds no closing tag and does not end in one, as long
      as the file name holds no `<`. */
  lemma PbMarkerStable(n: nat, doc: string)
    requires '<' !in doc
    ensures Stable(PbMarker(n, doc))
  {
    PbMarkerNoClose(n, doc);
    NoCloseOpenerScan(PbMarker(n, doc));
    PbMarkerNoLastTag(PbMarker(n, doc), NatToString(n) + "' facs='" + doc);
  }

  lemma PbMarkerNoClose(n: nat, doc: string)
    requires '<' !in doc
    ensures NoCloseOpener(PbMarker(n, doc))
  {
    var tail := "pb n='" + NatToString(n) + "' facs='" + doc + "'/>";
    PbTailNoAngle(n, doc);
    assert PbMarker(n, doc) == "<" + tail;
    OnlyLeadingAngle(tail);
  }

  lemma PbTailNoAngle(n: nat, doc: string)
    requires '<' !in doc
    ensures '<' !in "pb n='" + NatToString(n) + "' facs='" + doc + "'/>"
  {
    var d := NatToString(n);
    assert forall i :: 0 <= i < |d| ==> IsDigit(d[i]);
    assert '<' !in d;
  }

  /** A text ending in `'/>` has no last tag: the `/` is not preceded by `<`. */
  lemma PbMarkerNoLastTag(m: string, mid: string)
    requires m == "<pb n='" + mid + "'/>"
    ensures LastTag(m).None?
  {
    assert DollarBody(m) == m;
    var inner := m[..|m| - 1];
    assert inner[|inner| - 1] == '/' && inner[|inner| - 2] == '\'';
    assert LetterRunBack(inner) == 0;
  }

  lemma {:induction false} ZonesKeepStable(classify: Option<string> -> Classified, blocks: seq<string>, zones: seq<Zone>, n: nat, nZone: nat, j: nat)
    requires ConsistentClassifier(classify)
    requires |blocks| > 0 && j < |blocks| && Stable(blocks[j])
    ensures AssembleZones(classify, blocks, zones, n, nZone)[j] == blocks[j]
    decreases |zones|
  {
    if |zones| > 0 {
      var z := zones[0];
      var c := classify(z.zoneType);
      var lines := ProcessLine(z.lines, c.tag, n, nZone);
      UpdateKeepsStable(blocks, c, lines, j);
      ZonesKeepStable(classify, UpdateBlock(blocks, c, lines), zones[1..], n, nZone + 1, j);
    }
  }

  /** A transformed page starts with its marker, right after the blocks
      so far, and the marker is never merged into. */
  lemma ProcessDocumentMarksPage(classify: Option<string> -> Classified, blocks: seq<string>, page: PageFile, n: nat)
    requires ConsistentClassifier(classify)
    requires page.regions.Some? && '<' !in page.name
    ensures ProcessDocument(classify, blocks, page, n)[|blocks|] == PbMarker(n, page.name)
  {
    var b := blocks + [PbMarker(n, page.name)];
    PbMarkerStable(n, page.name);
    ZonesKeepStable(classify, b, page.regions.value, n, 0, |blocks|);
  }

  lemma DocumentKeepsStable(classify: Option<string> -> Classified, blocks: seq<string>, page: PageFile, n: nat, j: nat)
    requires ConsistentClassifier(classify)
    requires j < |blocks| && Stable(blocks[j])
    ensures ProcessDocument(classify, blocks, page, n)[j] == blocks[j]
  {
    if page.regions.Some? {
      var b := blocks + [PbMarker(n, page.name)];
      ZonesKeepStable(classify, b, page.regions.value, n, 0, j);
    }
  }

  lemma {:induction false} PagesKeepStable(classify: Option<string> -> Classified, blocks: seq<string>, files: seq<PageFile>, n: nat, j: nat)
    requires ConsistentClassifier(classify)
    requires j < |blocks| && Stable(blocks[j])
    ensures AssemblePages(classify, blocks, files, n).0[j] == blocks[j]
    decreases |files|
  {
    if |files| > 0 {
      if Selected(files[0].name) {
        DocumentKeepsStable(classify, blocks, files[0], n, j);
        PagesKeepStable(classify, ProcessDocument(classify, blocks, files[0], n), files[1..], n + 1, j);
      } else {
        PagesKeepStable(classify, blocks, files[1..], n, j);
      }
    }
  }

  /** Joining blocks whose first block is `a`, with `z` appended. */
  lemma ConcatEnvelope(blocks: seq<string>, a: string, z: string)
    requires |blocks| > 0 && blocks[0] == a
    ensures IsPrefix(a, Concat(blocks + [z]))
    ensures |Concat(blocks + [z])| >= |z| && Concat(blocks + [z])[|Concat(blocks + [z])| - |z|..] == z
  {
    ConcatAppend(blocks, [z]);
    assert Concat([z]) == z;
    assert Concat(blocks) == a + Concat(blocks[1..]);
  }

  /** The body is always wrapped in the envelope: no rule ever rewrites the
      opening block. */
  lemma BodyEnvelope(files: seq<PageFile>)
    ensures IsPrefix(Opener, Body(files))
    ensures |Body(files)| >= |Closer| && Body(files)[|Body(files)| - |Closer|..] == Closer
  {
    OpenerStable();
    ScriptClassifierConsistent();
    PagesKeepStable(ClassifyZone, [Opener], files, 0, 0);
    ConcatEnvelope(AssemblePages(ClassifyZone, [Opener], files, 0).0, Opener, Closer);
  }

  /** Every selected, transformed page leaves its marker in the result,
      numbered by how many selected files precede it. */
  lemma {:induction false} PageMarkersKept(classify: Option<string> -> Classified, blocks: seq<string>, files: seq<PageFile>, n: nat, k: nat)
    requires ConsistentClassifier(classify)
    requires k < |files| && Selected(files[k].name) && files[k].regions.Some?
    requires '<' !in files[k].name
    ensures PbMarker(n + |SelectedNames(files[..k])|, files[k].name) in AssemblePages(classify, blocks, files, n).0
    decreases |files|, 1
  {
    if k == 0 {
      assert files[..0] == [];
      PageMarkerHere(classify, blocks, files, n);
    } else {
      PageMarkerLater(classify, blocks, files, n, k);
    }
  }

  /** The marker of a later file, carried over the first one. */
  lemma {:induction false} PageMarkerLater(classify: Option<string> -> Classified, blocks: seq<string>, files: seq<PageFile>, n: nat, k: nat)
    requires ConsistentClassifier(classify)
    requires 0 < k < |files| && Selected(files[k].name) && files[k].regions.Some?
    requires '<' !in files[k].name
    ensures PbMarker(n + |SelectedNames(files[..k])|, files[k].name) in AssemblePages(classify, blocks, files, n).0
    decreases |files|, 0
  {
    SelectedNamesStep(files, k);
    assert files[1..][k - 1] == files[k];
    if Selected(files[0].name) {
      PageMarkersKept(classify, ProcessDocument(classify, blocks, files[0], n), files[1..], n + 1, k - 1);
    } else {
      PageMarkersKept(classify, blocks, files[1..], n, k - 1);
    }
    PageMarkerShift(classify, blocks, files, n, k, n + |SelectedNames(files[..k])|);
  }

  /** A marker among the later files' blocks survives into the whole run. */
  lemma PageMarkerShift(classify: Option<string> -> Classified, blocks: seq<string>, files: seq<PageFile>, n: nat, k: nat, idx: nat)
    requires ConsistentClassifier(classify)
    requires 0 < k < |files|
    requires Selected(files[0].name) ==>
      PbMarker(idx, files[k].name) in AssemblePages(classify, ProcessDocument(classify, blocks, files[0], n), files[1..], n + 1).0
    requires !Selected(files[0].name) ==>
      PbMarker(idx, files[k].name) in AssemblePages(classify, blocks, files[1..], n).0
    ensures PbMarker(idx, files[k].name) in AssemblePages(classify, blocks, files, n).0
  {
  }

  /** The first file's marker, when it is selected and transformed. */
  lemma PageMarkerHere(classify: Option<string> -> Classified, blocks: seq<string>, files: seq<PageFile>, n: nat)
    requires ConsistentClassifier(classify)
    requires |files| > 0 && Selected(files[0].name) && files[0].regions.Some?
    requires '<' !in files[0].name
    ensures PbMarker(n, files[0].name) in AssemblePages(classify, blocks, files, n).0
  {
    var b := ProcessDocument(classify, blocks, files[0], n);
    ProcessDocumentMarksPage(classify, blocks, files[0], n);
    PbMarkerStable(n, files[0].name);
    PagesKeepStable(classify, b, files[1..], n + 1, |blocks|);
    var r := AssemblePages(classify, blocks, files, n).0;
    assert r == AssemblePages(classify, b, files[1..], n + 1).0;
    assert r[|blocks|] == PbMarker(n, files[0].name);
  }

  /** Counting the selected files before position `k` one file at a time. */
  lemma SelectedNamesStep(files: seq<PageFile>, k: nat)
    requires 0 < k <= |files|
    ensures |SelectedNames(files[..k])|
      == (if Selected(files[0].name) then 1 else 0) + |SelectedNames(files[1..][..k - 1])|
  {
    assert files[..k] == [files[0]] + files[1..][..k - 1];
    assert files[..k][1..] == files[1..][..k - 1];
  }

  /** A zone whose classification picks neither the continuation nor a
      merging rule. */
  predicate OpensBlock(classify: Option<string> -> Classified, z: Zone) {
    var c := classify(z.zoneType);
    !c.continued && c.cumul.None? && !c.isList
  }

  /** A page of such zones adds exactly one block per zone and leaves the
      earlier blocks alone. */
  lemma {:induction false} OpeningZonesAppend(classify: Option<string> -> Classified, blocks: seq<string>, zones: seq<Zone>, n: nat, nZone: nat)
    requires ConsistentClassifier(classify)
    requires |blocks| > 0
    requires forall i :: 0 <= i < |zones| ==> OpensBlock(classify, zones[i])
    ensures |AssembleZones(classify, blocks, zones, n, nZone)| == |blocks| + |zones|
    ensures AssembleZones(classify, blocks, zones, n, nZone)[..|blocks|] == blocks
    decreases |zones|
  {
    if |zones| > 0 {
      var z := zones[0];
      var c := classify(z.zoneType);
      var lines := ProcessLine(z.lines, c.tag, n, nZone);
      var b := UpdateBlock(blocks, c, lines);
      assert OpensBlock(classify, zones[0]);
      assert b == Open(blocks, c, lines);
      OpeningZonesAppend(classify, b, zones[1..], n, nZone + 1);
      assert AssembleZones(classify, b, zones[1..], n, nZone + 1)[..|blocks|]
          == AssembleZones(classify, b, zones[1..], n, nZone + 1)[..|b|][..|blocks|];
    }
  }
}
