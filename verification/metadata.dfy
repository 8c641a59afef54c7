/** The metadata converter (3-create-ladas2tei-metadata.py): every input
    line naming a book of a known site becomes a row
    `[folder, number, title, date, publisher, extra]`, numbered from 1 in
    input order; other lines are dropped.  The e-rara page scrape is a
    parameter: `links(url)` are the manifest links found on the page. */
module Metadata {
  import opened Strings
  import opened Download

  /** `line.split("\t")`. */
  function Fields(line: string): seq<string> {
    Split(line, '\t')
  }

  /** Whether the loop recognises the site of a book URL (the `if`/`elif`
      chain of lines 26-52). */
  predicate KnownSite(url: string) {
    SourceOf(url) != Unrecognised
  }

  /** The folder name the converter derives for a book URL (lines 27, 38-39,
      45 and 51-52); `None` where the script stops with an index error. */
  function MetaFolder(url: string, links: string -> seq<string>): Option<string> {
    match SourceOf(url)
    case Gallica => Some(Last(Split(url, '/')))
    case Erara =>
      var proper := ReformatEraraUrl(url);
      var found := links(proper);
      if |found| == 0 then None
      else
        var u := Split(proper, '/');
        var m := Split("https://www.e-rara.ch" + found[0], '/');
        if |u| < 5 || |m| < 6 then None else Some("doi_" + u[3] + "_" + u[4] + "_" + m[5])
    case Numelyo =>
      var parts := Split(url, '/');
      if |parts| < 5 || |Split(parts[4], ':')| < 2 then None
      else Some("numelyo_" + Split(parts[4], ':')[0] + "_" + Split(parts[4], ':')[1])
    case Tolosana => Some("tolosana_" + Last(Split(url, '/')))
    case Unrecognised => None
  }

  /** `MetaFolder` for a fixed page scrape, as the loop consumes it. */
  function FolderRule(links: string -> seq<string>): string -> Option<string> {
    url => MetaFolder(url, links)
  }

  /** The row of a book line (lines 28, 40, 46 and 53). */
  function RowOf(fields: seq<string>, folder: string, k: nat): (row: seq<string>)
    requires |fields| >= 20
    ensures |row| == 6
  {
    [folder, NatToString(k), fields[17], fields[14], fields[15], fields[19]]
  }

  /* The loop itself is stated for any site test `known` and folder rule
     `folder`; `Convert` runs it with `KnownSite` and `FolderRule`. */

  /** A line the loop turns into a row. */
  predicate IsBookLine(line: string, known: string -> bool) {
    |Fields(line)| >= 2 && known(Fields(line)[1])
  }

  /** The book lines of a file, in order. */
  function BookLines(lines: seq<string>, known: string -> bool): (r: seq<string>)
    ensures forall x :: x in r ==> IsBookLine(x, known)
    decreases |lines|
  {
    if |lines| == 0 then []
    else (if IsBookLine(lines[0], known) then [lines[0]] else []) + BookLines(lines[1..], known)
  }

  /** A line on which the loop stops with an index error. */
  predicate Fails(line: string, known: string -> bool, folder: string -> Option<string>) {
    || |Fields(line)| < 2
    || (IsBookLine(line, known) && (|Fields(line)| < 20 || folder(Fields(line)[1]).None?))
  }

  /** The loop from counter value `i` on; `None` where some line makes it
      stop with an index error. */
  function ConvertFrom(lines: seq<string>, i: nat, known: string -> bool, folder: string -> Option<string>): (r: Option<seq<seq<string>>>)
    ensures r.None? <==> exists k :: 0 <= k < |lines| && Fails(lines[k], known, folder)
    decreases |lines|
  {
    if |lines| == 0 then Some([])
    else
      var line := lines[0];
      var next := if IsBookLine(line, known) then i + 1 else i;
      var rest := ConvertFrom(lines[1..], next, known, folder);
      ConvertStep(lines, known, folder, rest);
      if Fails(line, known, folder) then None
      else if !IsBookLine(line, known) then rest
      else if rest.None? then None
      else Some([RowOf(Fields(line), folder(Fields(line)[1]).value, i)] + rest.value)
  }

  /** `row` is the row of book line `line` numbered `k`. */
  predicate RowFor(row: seq<string>, line: string, k: nat, folder: string -> Option<string>) {
    && |Fields(line)| >= 20
    && folder(Fields(line)[1]).Some?
    && row == RowOf(Fields(line), folder(Fields(line)[1]).value, k)
  }

  lemma RowForShape(row: seq<string>, line: string, k: nat, folder: string -> Option<string>)
    requires RowFor(row, line, k, folder)
    ensures |row| == 6 && row[1] == NatToString(k)
  {
  }

  /** One row per book line, in order, numbered on from `i`. */
  predicate RowsFor(rows: seq<seq<string>>, books: seq<string>, i: nat, folder: string -> Option<string>)
    decreases |rows|
  {
    if |rows| == 0 then |books| == 0
    else
      && |books| > 0
      && RowFor(rows[0], books[0], i, folder)
      && RowsFor(rows[1..], books[1..], i + 1, folder)
  }

  /** The rows follow the book lines: one row per book line, in order,
      numbered on from `i`, with the line's folder and fields. */
  lemma {:induction false} ConvertRows(lines: seq<string>, i: nat, known: string -> bool, folder: string -> Option<string>)
    requires ConvertFrom(lines, i, known, folder).Some?
    ensures RowsFor(ConvertFrom(lines, i, known, folder).value, BookLines(lines, known), i, folder)
    decreases |lines|
  {
    if |lines| > 0 {
      var line := lines[0];
      if IsBookLine(line, known) {
        ConvertRows(lines[1..], i + 1, known, folder);
        var rest := ConvertFrom(lines[1..], i + 1, known, folder).value;
        var rows := ConvertFrom(lines, i, known, folder).value;
        var books := BookLines(lines, known);
        assert rows[1..] == rest;
        assert books[0] == line && books[1..] == BookLines(lines[1..], known);
      } else {
        ConvertRows(lines[1..], i, known, folder);
        assert BookLines(lines, known) == BookLines(lines[1..], known);
      }
    }
  }

  /** Row `j` of rows that follow the book lines carries the number
      `i + j` and six fields. */
  lemma {:induction false} RowsNumbered(rows: seq<seq<string>>, books: seq<string>, i: nat, folder: string -> Option<string>)
    requires RowsFor(rows, books, i, folder)
    ensures |rows| == |books|
    ensures forall j :: 0 <= j < |rows| ==> |rows[j]| == 6 && rows[j][1] == NatToString(i + j)
    decreases |rows|
  {
    if |rows| > 0 {
      RowForShape(rows[0], books[0], i, folder);
      RowsNumbered(rows[1..], books[1..], i + 1, folder);
      forall j | 0 < j < |rows| ensures |rows[j]| == 6 && rows[j][1] == NatToString(i + j) {
        assert rows[1..][j - 1] == rows[j] && i + 1 + (j - 1) == i + j;
      }
    }
  }

  lemma ConvertStep(lines: seq<string>, known: string -> bool, folder: string -> Option<string>, rest: Option<seq<seq<string>>>)
    requires |lines| > 0
    requires rest.None? <==> exists k :: 0 <= k < |lines[1..]| && Fails(lines[1..][k], known, folder)
    ensures (Fails(lines[0], known, folder) || rest.None?) <==>
      exists k :: 0 <= k < |lines| && Fails(lines[k], known, folder)
  {
    if exists k :: 0 <= k < |lines| && Fails(lines[k], known, folder) {
      var k :| 0 <= k < |lines| && Fails(lines[k], known, folder);
      if k > 0 {
        assert lines[1..][k - 1] == lines[k];
      }
    }
    if rest.None? {
      var k :| 0 <= k < |lines[1..]| && Fails(lines[1..][k], known, folder);
      assert lines[k + 1] == lines[1..][k];
    }
  }

  /** The converter's rows, numbered from 1. */
  function Convert(lines: seq<string>, links: string -> seq<string>): Option<seq<seq<string>>> {
    ConvertFrom(lines, 1, KnownSite, FolderRule(links))
  }

  /** The counter: the book lines get the numbers 1 to k in input order,
      each row has six fields, and the other lines leave no trace. */
  lemma ConvertNumbers(lines: seq<string>, links: string -> seq<string>)
    requires Convert(lines, links).Some?
    ensures |Convert(lines, links).value| == |BookLines(lines, KnownSite)|
    ensures forall j :: 0 <= j < |Convert(lines, links).value| ==>
      |Convert(lines, links).value[j]| == 6 && Convert(lines, links).value[j][1] == NatToString(j + 1)
  {
    ConvertRows(lines, 1, KnownSite, FolderRule(links));
    var rows := Convert(lines, links).value;
    RowsNumbered(rows, BookLines(lines, KnownSite), 1, FolderRule(links));
  }

  /** The column names of the written header (line 60), which is their
      tab-join followed by a line feed. */
  const HeaderColumns: seq<string> := ["file_name", "number", "title", "date", "publisher"]

  function HeaderLine(): string {
    Join(HeaderColumns, "\t") + "\n"
  }

  /** The header names five columns while every row has six fields. */
  lemma HeaderHasFiveColumns()
    ensures Split(HeaderLine()[..|HeaderLine()| - 1], '\t') == HeaderColumns
    ensures |HeaderColumns| + 1 == |RowOf(seq(20, _ => ""), "", 1)|
  {
    forall k | 0 <= k < |HeaderColumns| ensures '\t' !in HeaderColumns[k] {
    }
    var line := HeaderLine();
    assert line[..|line| - 1] == Join(HeaderColumns, "\t");
    SplitJoin(HeaderColumns, '\t');
  }

  /** The converter and the downloader name a book's folder alike, except
      that the downloader's Tolosana folder carries a trailing `/` and an
      e-rara page must hold exactly one manifest link for the downloader. */
  lemma FolderNamesAgree(url: string, links: string -> seq<string>)
    ensures SourceOf(url) in {Gallica, Numelyo} ==>
      MetaFolder(url, links) == BookFolder(url, links(ReformatEraraUrl(url)))
    ensures SourceOf(url) == Tolosana ==>
      MetaFolder(url, links).Some? && BookFolder(url, links(ReformatEraraUrl(url))) == Some(MetaFolder(url, links).value + "/")
    ensures SourceOf(url) == Erara && |links(ReformatEraraUrl(url))| == 1 ==>
      MetaFolder(url, links) == BookFolder(url, links(ReformatEraraUrl(url)))
    ensures SourceOf(url) == Unrecognised ==>
      MetaFolder(url, links).None? && BookFolder(url, links(ReformatEraraUrl(url))).None?
  {
  }
}
