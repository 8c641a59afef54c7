/** The URL logic of the book downloader (0-download-books.py): the e-rara
    URL normalisation, the choice of a source site, the already-downloaded
    filter, the page URLs requested and the folder each book goes to.  The
    HTTP work is a parameter: `status(url)` is the code the downloader of
    the URL's site ends with. */
module Download {
  import opened Strings

  /** `reformat_erara_url` (also copied verbatim at
      3-create-ladas2tei-metadata.py:6-12). */
  function ReformatEraraUrl(url: string): (r: string)
    ensures Contains(r, "https://")
    ensures Contains(url, "https://") ==> r == url
    ensures !Contains(url, "https://") && !Contains(url, "doi:") ==> r == "https://" + url
  {
    if Contains(url, "https://") then url
    else if Contains(url, "doi:") then
      ContainsHasChar(url, "doi:", 3);
      DoiPrefix + Split(url, ':')[1]
    else
      ContainsPrefix("https://", url);
      "https://" + url
  }

  const DoiPrefix: string := "https://www.doi.org/"

  lemma ContainsPrefix(p: string, x: string)
    ensures Contains(p + x, p)
  {
    assert (p + x)[..|p|] == p;
  }

  lemma ContainsHasChar(s: string, p: string, k: nat)
    requires Contains(s, p) && k < |p|
    ensures p[k] in s
  {
    ContainsIffOccurs(s, p);
    var i :| OccursAt(s, p, i);
    assert s[i..i + |p|][k] == s[i + k];
  }

  /** Normalising twice changes nothing. */
  lemma ReformatIdempotent(url: string)
    ensures ReformatEraraUrl(ReformatEraraUrl(url)) == ReformatEraraUrl(url)
    ensures Contains(url, "https://") ==> ReformatEraraUrl(url) == url
  {
  }

  /** A `doi:` reference without `https://` becomes the DOI resolver's
      address of the second `:` piece (see `SecondPiece`). */
  lemma ReformatDoi(url: string)
    requires !Contains(url, "https://") && Contains(url, "doi:")
    ensures ':' in url
    ensures ReformatEraraUrl(url) == DoiPrefix + Split(url, ':')[1]
  {
    ContainsHasChar(url, "doi:", 3);
  }

  /** The site a book URL is downloaded from, in the order the tests are
      made. */
  datatype Source = Gallica | Erara | Numelyo | Tolosana | Unrecognised

  function SourceOf(url: string): (s: Source)
    ensures s == Gallica <==> Contains(url, "gallica.bnf.fr")
    ensures s == Unrecognised <==>
      && !Contains(url, "gallica.bnf.fr")
      && !(Contains(url, "doi") && Contains(url, "e-rara"))
      && !Contains(url, "https://numelyo.bm-lyon.fr")
      && !Contains(url, "https://tolosana.univ-toulouse.fr")
  {
    if Contains(url, "gallica.bnf.fr") then Gallica
    else if Contains(url, "doi") && Contains(url, "e-rara") then Erara
    else if Contains(url, "https://numelyo.bm-lyon.fr") then Numelyo
    else if Contains(url, "https://tolosana.univ-toulouse.fr") then Tolosana
    else Unrecognised
  }

  /** `urls = [url for url in urls if url not in downloaded_books]`. */
  function Remaining(urls: seq<string>, downloaded: seq<string>): (r: seq<string>)
    ensures |r| <= |urls|
    ensures forall x :: x in r <==> x in urls && x !in downloaded
    decreases |urls|
  {
    if |urls| == 0 then []
    else
      var rest := Remaining(urls[1..], downloaded);
      assert forall x :: x in urls <==> x == urls[0] || x in urls[1..];
      if urls[0] in downloaded then rest else [urls[0]] + rest
  }

  /** The filter keeps the order of the list: it works piece by piece. */
  lemma {:induction false} RemainingAppend(a: seq<string>, b: seq<string>, downloaded: seq<string>)
    ensures Remaining(a + b, downloaded) == Remaining(a, downloaded) + Remaining(b, downloaded)
    decreases |a|
  {
    if |a| == 0 {
      assert a + b == b;
    } else {
      assert (a + b)[1..] == a[1..] + b;
      RemainingAppend(a[1..], b, downloaded);
    }
  }

  /** Filtering twice is filtering once by both lists. */
  lemma {:induction false} RemainingTwice(urls: seq<string>, d1: seq<string>, d2: seq<string>)
    ensures Remaining(Remaining(urls, d1), d2) == Remaining(urls, d1 + d2)
    decreases |urls|
  {
    if |urls| > 0 {
      RemainingTwice(urls[1..], d1, d2);
      var u := urls[0];
      assert u in d1 + d2 <==> u in d1 || u in d2;
      if u !in d1 {
        assert Remaining(urls, d1) == [u] + Remaining(urls[1..], d1);
        assert ([u] + Remaining(urls[1..], d1))[1..] == Remaining(urls[1..], d1);
      }
    }
  }

  /** The URLs of a list that some site accepts, in order. */
  function Recognised(urls: seq<string>): (r: seq<string>)
    ensures forall x :: x in r <==> x in urls && SourceOf(x) != Unrecognised
    decreases |urls|
  {
    if |urls| == 0 then []
    else
      var rest := Recognised(urls[1..]);
      assert forall x :: x in urls <==> x == urls[0] || x in urls[1..];
      if SourceOf(urls[0]) == Unrecognised then rest else [urls[0]] + rest
  }

  /** How a site's downloader ends for a book.  `status(url)` is the code
      the downloader of the book's site returns, 200 when every page came
      in.  `download_numelyo` reaches a failing page's message at line 166,
      which formats `img_url`, a name only `download_erara` binds (line 98):
      the message raises `NameError` before `return status_code` runs, so a
      Numelyo book either succeeds or raises. */
  datatype Outcome = Code(code: int) | Raised

  function BookOutcome(url: string, status: string -> int): (o: Outcome)
    ensures o == Code(200) <==> status(url) == 200
    ensures o.Raised? <==> SourceOf(url) == Numelyo && status(url) != 200
  {
    if SourceOf(url) == Numelyo && status(url) != 200 then Raised else Code(status(url))
  }

  /** One pass of the `for url in urls` loop: books of a known site are
      downloaded and recorded in order until one of them fails; the pass
      then returns that code, or ends in an exception. */
  function Pass(urls: seq<string>, status: string -> int): (res: (Outcome, seq<string>))
    ensures res.0 == Code(200) ==> res.1 == Recognised(urls)
    ensures res.0 != Code(200) ==> exists k :: (0 <= k < |urls| && SourceOf(urls[k]) != Unrecognised
      && BookOutcome(urls[k], status) == res.0 && res.1 == Recognised(urls[..k]))
    ensures forall x :: x in res.1 ==> x in urls && SourceOf(x) != Unrecognised && status(x) == 200
    decreases |urls|
  {
    if |urls| == 0 then (Code(200), [])
    else
      var u := urls[0];
      var rest := Pass(urls[1..], status);
      if SourceOf(u) == Unrecognised then
        PassSkip(urls, status, rest);
        rest
      else if status(u) != 200 then
        assert urls[..0] == [];
        (BookOutcome(u, status), [])
      else
        PassRecord(urls, status, rest);
        (rest.0, [u] + rest.1)
  }

  lemma PassSkip(urls: seq<string>, status: string -> int, rest: (Outcome, seq<string>))
    requires |urls| > 0 && SourceOf(urls[0]) == Unrecognised
    requires rest.0 != Code(200) ==> exists k :: (0 <= k < |urls[1..]| && SourceOf(urls[1..][k]) != Unrecognised
      && BookOutcome(urls[1..][k], status) == rest.0 && rest.1 == Recognised(urls[1..][..k]))
    ensures rest.0 != Code(200) ==> exists k :: (0 <= k < |urls| && SourceOf(urls[k]) != Unrecognised
      && BookOutcome(urls[k], status) == rest.0 && rest.1 == Recognised(urls[..k]))
  {
    if rest.0 != Code(200) {
      var k :| 0 <= k < |urls[1..]| && SourceOf(urls[1..][k]) != Unrecognised
        && BookOutcome(urls[1..][k], status) == rest.0 && rest.1 == Recognised(urls[1..][..k]);
      assert urls[..k + 1][1..] == urls[1..][..k];
      assert urls[k + 1] == urls[1..][k];
    }
  }

  lemma PassRecord(urls: seq<string>, status: string -> int, rest: (Outcome, seq<string>))
    requires |urls| > 0 && SourceOf(urls[0]) != Unrecognised
    requires rest.0 != Code(200) ==> exists k :: (0 <= k < |urls[1..]| && SourceOf(urls[1..][k]) != Unrecognised
      && BookOutcome(urls[1..][k], status) == rest.0 && rest.1 == Recognised(urls[1..][..k]))
    ensures rest.0 != Code(200) ==> exists k :: (0 <= k < |urls| && SourceOf(urls[k]) != Unrecognised
      && BookOutcome(urls[k], status) == rest.0 && [urls[0]] + rest.1 == Recognised(urls[..k]))
  {
    if rest.0 != Code(200) {
      var k :| 0 <= k < |urls[1..]| && SourceOf(urls[1..][k]) != Unrecognised
        && BookOutcome(urls[1..][k], status) == rest.0 && rest.1 == Recognised(urls[1..][..k]);
      assert urls[..k + 1][1..] == urls[1..][..k];
      assert urls[..k + 1][0] == urls[0];
      assert urls[k + 1] == urls[1..][k];
    }
  }

  /** `download_books`: each of the two tries first drops the books
      recorded as downloaded, then runs a pass; the books recorded by the
      first try count as downloaded in the second.  A returned failure
      code ends the run; an exception ends the try (line 247), and the
      run returns 200 once both tries are over (line 252). */
  function DownloadBooks(urls: seq<string>, downloaded: seq<string>, status: string -> int): (res: (int, seq<string>))
  {
    var first := Remaining(urls, downloaded);
    var (o1, r1) := Pass(first, status);
    if o1.Code? && o1.code != 200 then (o1.code, r1)
    else
      var (o2, r2) := Pass(Remaining(first, downloaded + r1), status);
      if o2.Code? then (o2.code, r1 + r2) else (200, r1 + r2)
  }

  lemma {:induction false} RecognisedOfNone(urls: seq<string>)
    requires forall i :: 0 <= i < |urls| ==> SourceOf(urls[i]) == Unrecognised
    ensures Recognised(urls) == []
    decreases |urls|
  {
    if |urls| > 0 {
      RecognisedOfNone(urls[1..]);
    }
  }

  /** No book of the list ends its download in an exception. */
  ghost predicate NoneRaises(urls: seq<string>, status: string -> int) {
    forall x :: x in urls ==> BookOutcome(x, status).Code?
  }

  /** A pass that ends in `o` other than success ends with a book of a
      known site whose outcome is `o`. */
  lemma PassFailure(urls: seq<string>, status: string -> int)
    requires Pass(urls, status).0 != Code(200)
    ensures exists x :: x in urls && SourceOf(x) != Unrecognised && BookOutcome(x, status) == Pass(urls, status).0
  {
    var k :| 0 <= k < |urls| && SourceOf(urls[k]) != Unrecognised
      && BookOutcome(urls[k], status) == Pass(urls, status).0 && Pass(urls, status).1 == Recognised(urls[..k]);
    assert urls[k] in urls;
  }

  /** The run records only books not yet downloaded, each once it came
      in, and a failure code is that of a book of a known site other than
      Numelyo. */
  lemma DownloadBooksResult(urls: seq<string>, downloaded: seq<string>, status: string -> int)
    ensures var (code, recorded) := DownloadBooks(urls, downloaded, status);
      && (forall x :: x in recorded ==> x in urls && x !in downloaded && status(x) == 200)
      && (code != 200 ==> exists x :: (x in urls && x !in downloaded
            && SourceOf(x) != Unrecognised && SourceOf(x) != Numelyo && status(x) == code))
  {
    var first := Remaining(urls, downloaded);
    var (o1, r1) := Pass(first, status);
    var second := Remaining(first, downloaded + r1);
    if o1 != Code(200) {
      PassFailure(first, status);
    }
    if Pass(second, status).0 != Code(200) {
      PassFailure(second, status);
    }
  }

  /** When no book raises, a first try that succeeds leaves nothing for
      the second: a successful run downloads exactly the books of a known
      site not yet recorded, in list order. */
  lemma DownloadBooksComplete(urls: seq<string>, downloaded: seq<string>, status: string -> int)
    requires NoneRaises(Remaining(urls, downloaded), status)
    ensures DownloadBooks(urls, downloaded, status).0 == 200 ==>
      DownloadBooks(urls, downloaded, status).1 == Recognised(Remaining(urls, downloaded))
  {
    var first := Remaining(urls, downloaded);
    var (o1, r1) := Pass(first, status);
    if o1 != Code(200) {
      PassFailure(first, status);
    } else {
      var second := Remaining(first, downloaded + r1);
      forall i | 0 <= i < |second| ensures SourceOf(second[i]) == Unrecognised {
        assert second[i] in first && second[i] !in r1;
      }
      RecognisedOfNone(second);
      assert r1 + [] == r1;
    }
  }

  /** A failing Numelyo download is reported as success: when the only
      books that fail are Numelyo books, the run returns 200, and yet a
      failing book is never recorded. */
  lemma NumelyoFailureReportedAsSuccess(urls: seq<string>, downloaded: seq<string>, status: string -> int)
    requires forall x :: x in urls && SourceOf(x) != Unrecognised && status(x) != 200 ==> SourceOf(x) == Numelyo
    ensures DownloadBooks(urls, downloaded, status).0 == 200
    ensures forall x :: x in urls && status(x) != 200 ==> x !in DownloadBooks(urls, downloaded, status).1
  {
    DownloadBooksResult(urls, downloaded, status);
  }

  /** Gallica page `k` (lines 32 and 49). */
  function GallicaPage(url: string, k: nat): string {
    url + "/f" + NatToString(k) + ".highres"
  }

  /** Different page numbers request different addresses. */
  lemma GallicaPagesDistinct(url: string, k1: nat, k2: nat)
    requires GallicaPage(url, k1) == GallicaPage(url, k2)
    ensures k1 == k2
  {
    var p := url + "/f";
    var a := NatToString(k1) + ".highres";
    var b := NatToString(k2) + ".highres";
    assert GallicaPage(url, k1) == p + a && GallicaPage(url, k2) == p + b;
    assert a == (p + a)[|p|..] == (p + b)[|p|..] == b;
    assert NatToString(k1) == a[..|a| - 8] == b[..|b| - 8] == NatToString(k2);
    NatToStringInjective(k1, k2);
  }

  /** The folder a Gallica book goes to: the last `/` piece (line 26). */
  function GallicaFolder(url: string): string {
    Last(Split(url, '/'))
  }

  datatype ImageFormat = Tif | Jpg

  function FormatName(f: ImageFormat): string {
    match f
    case Tif => "TIF"
    case Jpg => "JPG"
  }

  /** The base address of a Numelyo book (line 146). */
  function NumelyoBase(url: string): string {
    ReplaceAll(url, "f_view", "f_eserv")
  }

  /** Numelyo page `i` in one format (lines 125 and 134). */
  function NumelyoPage(url: string, i: nat, format: ImageFormat): string {
    NumelyoBase(url) + "/web_" + FormatName(format) + ZeroPad(i, 8) + ".jpg"
  }

  /** The page number sits in a field of at least eight digits that
      reads back as the number, so pages and formats never collide. */
  lemma NumelyoPageNumber(url: string, i: nat, format: ImageFormat)
    ensures exists pad ::
      && NumelyoPage(url, i, format) == NumelyoBase(url) + "/web_" + FormatName(format) + pad + ".jpg"
      && AllDigits(pad) && |pad| >= 8 && DigitsValue(pad) == i
  {
    ZeroPadRoundTrip(i, 8);
  }

  lemma NumelyoPagesDistinct(url: string, i1: nat, f1: ImageFormat, i2: nat, f2: ImageFormat)
    requires NumelyoPage(url, i1, f1) == NumelyoPage(url, i2, f2)
    ensures i1 == i2 && f1 == f2
  {
    var p := NumelyoBase(url) + "/web_";
    var z1, z2 := ZeroPad(i1, 8), ZeroPad(i2, 8);
    assert |FormatName(f1)| == 3 == |FormatName(f2)|;
    CancelParts(p + FormatName(f1) + z1, ".jpg", p + FormatName(f2) + z2, ".jpg");
    CancelParts(p + FormatName(f1), z1, p + FormatName(f2), z2);
    CancelParts(p, FormatName(f1), p, FormatName(f2));
    ZeroPadRoundTrip(i1, 8);
    ZeroPadRoundTrip(i2, 8);
  }

  lemma CancelPrefix(p: string, a: string, b: string)
    requires p + a == p + b
    ensures a == b
  {
    assert a == (p + a)[|p|..];
  }

  /** Two concatenations of equal texts whose first parts have one length. */
  lemma CancelParts(a1: string, b1: string, a2: string, b2: string)
    requires a1 + b1 == a2 + b2
    requires |a1| == |a2| || |b1| == |b2|
    ensures a1 == a2 && b1 == b2
  {
    assert a1 == (a1 + b1)[..|a1|];
    assert a2 == (a2 + b2)[..|a2|];
    assert b1 == (a1 + b1)[|a1|..];
    assert b2 == (a2 + b2)[|a2|..];
  }

  /** `"numelyo_" + seg.split(":")[0] + "_" + seg.split(":")[1]` for the
      fifth `/` piece `seg` (line 149); `None` where an index is out of
      range. */
  function NumelyoFolder(url: string): (r: Option<string>)
    ensures r.Some? <==> |Split(url, '/')| >= 5 && ':' in Split(url, '/')[4]
  {
    var parts := Split(url, '/');
    if |parts| < 5 then None
    else
      var ids := Split(parts[4], ':');
      if |ids| < 2 then None else Some("numelyo_" + ids[0] + "_" + ids[1])
  }

  /** The Tolosana book number: the last `/` piece (line 172). */
  function TolosanaBook(url: string): string {
    Last(Split(url, '/'))
  }

  /** The folder a Tolosana book goes to (line 173), with its trailing `/`. */
  function TolosanaFolder(url: string): string {
    "tolosana_" + TolosanaBook(url) + "/"
  }

  /** The PDF a Tolosana book is fetched as (line 174). */
  function TolosanaPdf(url: string): string {
    "https://documents.univ-toulouse.fr/150NDG/PPN" + TolosanaBook(url) + ".pdf"
  }

  /** `"doi_" + u[3] + "_" + u[4] + "_" + m[5]` for the `/` pieces `u` of
      the normalised URL and `m` of the manifest address built from the
      scraped link (line 93); `None` where an index is out of range. */
  function EraraFolder(properUrl: string, link: string): (r: Option<string>)
    ensures r.Some? <==> |Split(properUrl, '/')| >= 5 && |Split(EraraManifest(link), '/')| >= 6
  {
    var u := Split(properUrl, '/');
    var m := Split(EraraManifest(link), '/');
    if |u| < 5 || |m| < 6 then None
    else Some("doi_" + u[3] + "_" + u[4] + "_" + m[5])
  }

  function EraraManifest(link: string): string {
    "https://www.e-rara.ch" + link
  }

  /** The folder the downloader writes a book to, relative to the output
      folder.  `links` are the manifest links scraped from an e-rara page:
      anything but exactly one is an error. */
  function BookFolder(url: string, links: seq<string>): (r: Option<string>)
    ensures SourceOf(url) == Unrecognised ==> r.None?
    ensures r.Some? ==> '/' !in DirName(r.value)
  {
    match SourceOf(url)
    case Gallica =>
      LastPieceHasNoSlash(url);
      Some(GallicaFolder(url))
    case Erara =>
      if |links| != 1 then None
      else
        var r := EraraFolder(ReformatEraraUrl(url), links[0]);
        if r.Some? then EraraFolderNoSlash(ReformatEraraUrl(url), links[0]); r else r
    case Numelyo =>
      var r := NumelyoFolder(url);
      if r.Some? then NumelyoFolderNoSlash(url); r else r
    case Tolosana =>
      LastPieceHasNoSlash(url);
      var f := TolosanaFolder(url);
      assert DirName(f) == "tolosana_" + TolosanaBook(url);
      Some(f)
    case Unrecognised => None
  }

  /** A folder path with a trailing `/` dropped. */
  function DirName(f: string): string {
    if |f| > 0 && f[|f| - 1] == '/' then f[..|f| - 1] else f
  }

  lemma LastPieceHasNoSlash(url: string)
    ensures '/' !in Last(Split(url, '/'))
  {
    var parts := Split(url, '/');
    assert Last(parts) == parts[|parts| - 1];
  }

  lemma NumelyoFolderNoSlash(url: string)
    requires NumelyoFolder(url).Some?
    ensures |NumelyoFolder(url).value| > 0
    ensures '/' !in NumelyoFolder(url).value
  {
    var parts := Split(url, '/');
    var ids := Split(parts[4], ':');
    SplitKeepsAbsent(parts[4], ':', '/');
    assert '/' !in ids[0] && '/' !in ids[1];
  }

  lemma EraraFolderNoSlash(properUrl: string, link: string)
    requires EraraFolder(properUrl, link).Some?
    ensures |EraraFolder(properUrl, link).value| > 0
    ensures '/' !in EraraFolder(properUrl, link).value
  {
    var u := Split(properUrl, '/');
    var m := Split(EraraManifest(link), '/');
    assert '/' !in u[3] && '/' !in u[4] && '/' !in m[5];
  }
}
