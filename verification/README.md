# A Dafny model of the textent book pipeline

This project models the deterministic core of the textent pipeline. The
pipeline downloads digitised books, converts their metadata, orders the
page files of each book, and turns the layout-analysis output of every page
into one TEI document per book. Four parts of the pipeline are modelled as
pure Dafny functions over `seq<char>`:

- **The TEI converter** (`4-ladas2tei.py`). It has these pieces:
  - the zone tables `tei_mapping` and `cumulative`;
  - the classification of a zone;
  - the line renderer `process_line`;
  - `create_tag_end`, which builds closing tags from text;
  - the block assembler `update_block`;
  - the page loop `process_document`, with its `<pb/>` page markers;
  - the file loop and TEI body envelope of `main`;
  - the header filler `fill_header`.
- **The page orderer** (`tei_conversion/src/order_files.py`). It pairs
  every page path with the number the regular expression `(\d+).xml$`
  captures, then sorts the pairs.
- **The book downloader** (`0-download-books.py`). Modelled are:
  - the e-rara URL normalisation;
  - the choice of source site;
  - the resume filter for books already downloaded;
  - the two download tries;
  - the page URLs requested from Gallica and Numelyo;
  - the folder each book is written to.
- **The metadata converter** (`3-create-ladas2tei-metadata.py`). It turns
  every input line that names a book into a six-field row. Rows are
  numbered from 1.

The two tables of the converter are lookups on enumerations. `ZoneKind`
lists the keys of `tei_mapping`, and `TeiTag` lists the opening tags its
values spell. `ZoneKindOf` reads a zone type text as a key, and
`ZoneName` gives a key's text back.

Three loops take part of their logic as a parameter. Their lemmas hold
for every value of that parameter:

- The zone and file loops of the converter take the zone classifier. They
  rely only on each classification being consistent. `Document.Body` runs
  them with `Classify.ClassifyZone`.
- The metadata loop takes the site test and the folder rule.
  `Metadata.Convert` runs it with the converter's own rules.

Python's regular expressions and string methods appear as explicit scans,
with the matching rules Python applies:

- `re.sub`, `re.findall` and `re.search`;
- `$`, which also matches before a final line feed;
- greedy `\d+`;
- `str.replace`, `str.split` and `str.join`;
- `str(n)` and zero padding.

## Modules

| module | file | contents |
|---|---|---|
| `Strings` | `strings.dfy` | Python string operations: `in`, `replace`, `split`, `join`, `str(n)`, `int(s)`, `{n:08d}` |
| `TagEnd` | `tag_end.dfy` | `create_tag_end`, and structured opening tags |
| `CloseTags` | `close_tags.dfy` | the two closing-tag searches of `update_block` |
| `Lines` | `lines.dfy` | `process_line` |
| `Classify` | `classify.dfy` | `tei_mapping`, `cumulative`, and the per-zone flags |
| `Assembler` | `assembler.dfy` | `update_block` |
| `Document` | `document.dfy` | `process_document` and the file loop of `main` |
| `Header` | `header.dfy` | `fill_header` |
| `OrderFiles` | `order_files.dfy` | `Files.order_files` |
| `Download` | `download.dfy` | the URL and folder logic of the downloader |
| `Metadata` | `metadata.dfy` | the metadata converter |

## Behaviour as written

The model follows the code where the code and its evident intent disagree. The intent shows in the
docstrings of `update_block` and `process_line`, the zone names and the script's messages.
These points are proved about the model.

- **Cumulative sub-zones never merge** (`Assembler.CumulativeNeverMerges`).
  - Line 184 sets `last_tag_needed` to the parent zone's *opening* tag, for example `<figure>`.
  - Line 187 compares it with a *closing* tag found at the end of the last block.
  - The two can never be equal, so a caption or heading of a figure always opens a block of its own.
- **A continuation splices the text apart**. This is shown by
  `Assembler.ContinuationSplice` and `Assembler.ContinuationText`.
  - A `...Continued` zone does not reopen the target element.
  - Every closing tag is cut out of the target block.
  - Those tags are appended to a new last block after the continued lines.
- **A continuation can drop lines** (`Assembler.ContinuationWithoutCloseDropped`).
  - This happens when the target block holds no closing tag at all.
  - The continued lines are then dropped: the source only prints `pas de matches`.
- **The verse branch of `process_line` is dead** (`Classify.VerseTagNeverClassified`).
  - It compares the mapped *tag* with the zone type name `MainZone-Lg`.
  - No tag of `tei_mapping` is that name.
- **Removing the end tag of a list removes every copy** (`Assembler.ListContinues`).
  - `last_block.replace(last_tag.group(), "")` deletes every copy of the list's closing tag in the last block, not only the final one.
  - The lemma states the merge for blocks in which the tag occurs only at the end.
- **Header and rows disagree on the column count** (`Metadata.HeaderHasFiveColumns`).
  - The metadata converter writes a five-column header.
  - Every row it writes has six fields.
- **The two scripts name some folders differently** (`Metadata.FolderNamesAgree`).
  - The downloader's Tolosana folder name ends in `/`.
  - The downloader insists on exactly one e-rara manifest link, while the metadata converter takes the first of any number of links.
- **A failing Numelyo download is reported as success** (`Download.NumelyoFailureReportedAsSuccess`).
  - When a Numelyo page fails with a code other than 200 or 404, line 166 prints a message that names `img_url`.
  - `download_numelyo` never binds `img_url`. Only `download_erara` does, at line 98. The message raises `NameError` before `return status_code` runs.
  - `download_books` catches the exception at line 247 and starts its second try. When that try raises too, the run reaches `return 200` at line 252.
  - So a Numelyo book never makes the run return a failure code. The failing book is not recorded as downloaded.
- **The `.` of `(\d+).xml$` matches any character** (`OrderFiles.DotMatchesDigit`).
  - So `12xml` is numbered 1.

## Model

| member | source | states |
|---|---|---|
| `Strings.ContainsIffOccurs` | 0-download-books.py:212 | Python's `p in s` holds exactly when `p` occurs at some offset of `s` |
| `Strings.Split` | 3-create-ladas2tei-metadata.py:20 | `s.split(c)` yields at least one piece, and more than one exactly when `c` occurs. No piece contains `c`, and joining the pieces with `c` gives `s` back |
| `Strings.SplitJoin` | 3-create-ladas2tei-metadata.py:62 | splitting a `c`-join of `c`-free fields gives the fields back, so a written row reads back as its fields |
| `Strings.SecondPiece` | 0-download-books.py:63 | `url.split(":")[1]` is exactly the colon-free text between the first and the second colon, or up to the end |
| `Strings.LastPieceIsSuffix` | 0-download-books.py:26 | `url.split('/')[-1]` is a slash-free suffix of the URL, preceded by a slash or by nothing |
| `Strings.ReplaceCharRemoves` | 4-ladas2tei.py:130 | after `replace("&", "et")` no `&` remains |
| `Strings.NatToString` | 4-ladas2tei.py:71 | `str(n)` is a non-empty digit string without a leading zero |
| `Strings.DigitsValueOfNatToString` | tei_conversion/src/order_files.py:19 | `int(str(n)) == n` |
| `Strings.NatToStringInjective` | 4-ladas2tei.py:132-133 | distinct numbers print differently |
| `Strings.ZeroPadRoundTrip` | 0-download-books.py:125 | `f"{i:08d}"` is a digit string of length `max(8, digits of i)` that reads back as `i` |
| `TagEnd.OpenTagAt` | 4-ladas2tei.py:141 | a match of `<(\w+)(\s+[^>]*)?>` starts with `<`, ends at the first `>` after the name, and captures a non-empty name |
| `TagEnd.ParseOpenTag` | 4-ladas2tei.py:141 | a text read as an opening tag is well formed and renders back to the same text |
| `TagEnd.ParseRendered` | 4-ladas2tei.py:141 | reading back a rendered well-formed tag gives the tag: name and attributes round-trip |
| `TagEnd.OpenTagAtRender` | 4-ladas2tei.py:141 | the pattern matches a rendered tag exactly and captures its name, whatever text follows |
| `TagEnd.CleanRendered` | 4-ladas2tei.py:141 | the substitution cuts a rendered tag down to `<name>` and leaves the rest to later matches |
| `TagEnd.CleanRenderedAll` | 4-ladas2tei.py:140-141 | the substitution cuts every tag of a joined stack down to its bare name form |
| `TagEnd.Reverse` | 4-ladas2tei.py:140 | `tag[::-1]` has the same length, with element `i` taken from the mirrored position |
| `TagEnd.SlashBareAll` | 4-ladas2tei.py:142 | replacing `<` by `</` turns a run of bare tags into their closing tags, in the same order |
| `TagEnd.CreateTagEndSingle` | 4-ladas2tei.py:138-143 | the closing text for a single well-formed tag is exactly `</name>`. Attributes never reach it |
| `TagEnd.CreateTagEndStack` | 4-ladas2tei.py:138-143 | a list of well-formed tags is closed innermost first, with one closing tag per opening tag |
| `CloseTags.CloseAt` | 4-ladas2tei.py:169-170 | a match of `</[^>]+>` is `</`, at least one character other than `>`, and the first `>` |
| `CloseTags.Closes` | 4-ladas2tei.py:170 | every text `re.findall` collects is a closing tag of that shape |
| `CloseTags.StripClosesConserves` | 4-ladas2tei.py:170-173 | no character is lost or duplicated: the text left by `re.sub` and the collected matches add up to the block |
| `CloseTags.NoCloseOpenerScan` | 4-ladas2tei.py:171 | a block without `</` yields no match, and `re.sub` leaves it unchanged |
| `CloseTags.ScanPieces` | 4-ladas2tei.py:169-173 | on a block made of text pieces and closing tags, `findall` yields exactly the closing tags in order and `sub` leaves exactly the text pieces |
| `CloseTags.DollarBody` | 4-ladas2tei.py:181 | `$` anchors at the end of the text, or before one final line feed |
| `CloseTags.LastTag` | 4-ladas2tei.py:181 | a match of `</[a-zA-Z]*>$` is a letters-only closing tag ending where `$` anchors |
| `CloseTags.LastTagOfClose` | 4-ladas2tei.py:181 | a block ending in `</letters>` has exactly that tag as its match, whatever precedes it |
| `CloseTags.LastTagOfOpen` | 4-ladas2tei.py:181 | a block ending in an opening tag `<letters>` has no match |
| `Lines.CleanText` | 4-ladas2tei.py:128-133 | a rendered line text holds no `&`, and a missing text renders as the empty string |
| `Lines.LinesFrom` | 4-ladas2tei.py:126-133 | outside the verse branch, the loop renders one entry per line, numbered on from the lines already done |
| `Lines.ProcessLine` | 4-ladas2tei.py:113-135 | outside the verse branch, entry `i` is `<lb n='page_zone_i+1'/> text` for the `i`-th line, and there are as many entries as lines |
| `Lines.VerseBranchDoublesLines` | 4-ladas2tei.py:131-133 | were the verse test true, every line would yield two entries |
| `Lines.LineIdInjective` | 4-ladas2tei.py:132-133 | a line's `n` attribute determines its page, zone and line numbers |
| `Lines.LineEntryHasNoClose` | 4-ladas2tei.py:133 | a rendered line whose text holds no `<` contains no `</` and does not end in `<` |
| `Classify.ClassifyZone` | 4-ladas2tei.py:74-78 | a missing or unmapped zone type gets `<ab>`. The zone is continued exactly when its type contains `Continued`, and cumulative exactly when its type is a key of `cumulative` |
| `Classify.ZoneNameRoundTrip` | 4-ladas2tei.py:9-45 | the keys of `tei_mapping` are distinct texts, and looking up a key finds that key's own entry |
| `Classify.ClassifyKnown` | 4-ladas2tei.py:74-78 | a zone whose type is a key gets that key's tag, and may merge into exactly the parent `cumulative` gives the key |
| `Classify.TagWellFormed` | 4-ladas2tei.py:9-45 | every opening tag the table spells has a non-empty word name, and attributes that are empty or start with a space and hold no `>` |
| `Classify.TableListsHoldTwo` | 4-ladas2tei.py:9-45 | every list value of `tei_mapping` holds at least two tags |
| `Classify.MappingTagsParse` | 4-ladas2tei.py:9-45 | every tag text in `tei_mapping` reads back as a well-formed opening tag |
| `Classify.ClassifiedTagsParse` | 4-ladas2tei.py:75 | every tag a zone can receive is well formed, and every list holds at least two tags |
| `Classify.MappingTagsOpen` | 4-ladas2tei.py:9-45 | no single tag of `tei_mapping` is a closing tag |
| `Classify.CumulativeParentsOpen` | 4-ladas2tei.py:46-54 | every parent named by `cumulative` is mapped to a single opening tag |
| `Classify.CumulativeZonesSingle` | 4-ladas2tei.py:46-54 | every cumulative sub-zone is mapped, and mapped to a single tag |
| `Classify.ClassifyConsistent` | 4-ladas2tei.py:75-78 | the list flag agrees with the tag's shape. Lists hold two tags, and a cumulative parent can be looked up at line 184 |
| `Classify.VerseTagNeverClassified` | 4-ladas2tei.py:131 | no zone is ever given the tag `MainZone-Lg`, so the verse test never holds |
| `Assembler.ScanBack` | 4-ladas2tei.py:164-168 | the backward loop stops at the latest mergeable block at or below `i`, or runs out at index 0. Every block it skips mentions `fw` or `pb` |
| `Assembler.ContinuationTarget` | 4-ladas2tei.py:164-168 | the target is the latest block mentioning neither `fw` nor `pb`, or the first block when every block mentions one |
| `Assembler.Continue` | 4-ladas2tei.py:163-177 | a continuation adds at most one block |
| `Assembler.MergeOrOpen` | 4-ladas2tei.py:179-194 | the cumulative and list rules change only the last block or append one block. A last block without a final closing tag always gets a new block |
| `Assembler.Open` | 4-ladas2tei.py:195-200 | the heading and default rules append exactly one block and keep the others |
| `Assembler.UpdateBlock` | 4-ladas2tei.py:147-202 | a zone adds at most one block |
| `Assembler.ContinuationText` | 4-ladas2tei.py:169-175 | read as one text, a continuation moves the target's closing tags from the target to after the continued lines |
| `Assembler.ContinuationConserves` | 4-ladas2tei.py:169-175 | a continuation loses and duplicates nothing: the joined text grows by exactly the continued lines |
| `Assembler.ContinuationSplice` | 4-ladas2tei.py:163-175 | on a structured target, the target keeps its text and the new block is the lines followed by the target's closing tags in order. No other block changes |
| `Assembler.ContinuationWithoutCloseDropped` | 4-ladas2tei.py:171-177 | a continued zone whose target holds no closing tag leaves the blocks as they were |
| `Assembler.CumulativeNeverMerges` | 4-ladas2tei.py:181-194 | a cumulative zone always appends a block of its own |
| `Assembler.RemoveFinalClose` | 4-ladas2tei.py:191 | deleting a closing tag that occurs only at the end of a block leaves the rest of the block |
| `Assembler.ListNeeded` | 4-ladas2tei.py:186 | the tag a list waits for is the bare closing form of its outer tag |
| `Assembler.ListMerges` | 4-ladas2tei.py:187-192 | once the last tag matches, the last block gets the inner tag, the lines, the inner closing tag and the outer closing tag |
| `Assembler.ListContinues` | 4-ladas2tei.py:179-192 | a list zone after a block ending with the list's closing tag becomes one more item inside that list |
| `Assembler.ListOpens` | 4-ladas2tei.py:182-194 | a list zone that does not follow its list opens the whole stack of tags and closes it innermost first |
| `Assembler.NewBlockSingle` | 4-ladas2tei.py:199-200 | a new block for a single tag is the tag, the lines and the bare closing tag |
| `Assembler.UpdateIsMerge` | 4-ladas2tei.py:179 | a cumulative or list zone that is not continued takes the merging rule |
| `Assembler.UpdateIsOpen` | 4-ladas2tei.py:195-200 | any other zone that is not continued takes the heading or the default rule |
| `Assembler.HeadingOpensDivision` | 4-ladas2tei.py:195-197 | a `MainZone-Head` zone after an earlier `<head>` first closes the current division and opens a new one |
| `Assembler.PlainZoneAppends` | 4-ladas2tei.py:198-200 | any other single-tag zone appends its tag, its lines and the bare closing tag |
| `Assembler.ContinueKeepsStable` | 4-ladas2tei.py:169-175 | a block with no closing tag is left in place by a continuation |
| `Assembler.MergeKeepsStable` | 4-ladas2tei.py:180-194 | a block with no closing tag is left in place by the merging rules |
| `Assembler.UpdateKeepsStable` | 4-ladas2tei.py:147-202 | a block with no closing tag is never changed again |
| `Assembler.UpdateKeepsPrefix` | 4-ladas2tei.py:179-200 | outside the continuation rule, no block but the last ever changes |
| `Document.ScriptClassifierConsistent` | 4-ladas2tei.py:74-78 | the script's own classification gives every zone what `update_block` relies on |
| `Document.AssembleZones` | 4-ladas2tei.py:73-81 | the zone loop never removes a block |
| `Document.ProcessDocument` | 4-ladas2tei.py:67-82 | a page the XSLT cannot produce leaves the blocks as they were, and any other page adds at least its marker |
| `Document.AssemblePages` | 4-ladas2tei.py:236-239 | the file loop never removes a block and never decreases the page counter |
| `Document.SelectedNames` | 4-ladas2tei.py:237 | the selected names all mention `xml` and not `METS` |
| `Document.PagesCounted` | 4-ladas2tei.py:236-239 | the page counter ends at its start plus the number of selected files, whether or not they were transformed |
| `Document.OpenerStable` | 4-ladas2tei.py:228 | the opening envelope block holds no closing tag |
| `Document.PbMarkerStable` | 4-ladas2tei.py:71 | a page marker holds no closing tag, as long as the file name holds no `<` |
| `Document.PbMarkerNoLastTag` | 4-ladas2tei.py:71 | a page marker does not end in a closing tag |
| `Document.ZonesKeepStable` | 4-ladas2tei.py:73-81 | the zone loop never changes a block without closing tags |
| `Document.ProcessDocumentMarksPage` | 4-ladas2tei.py:68-71 | a transformed page starts with its own marker, right after the blocks so far, and keeps it |
| `Document.DocumentKeepsStable` | 4-ladas2tei.py:57-82 | a page never changes a block without closing tags |
| `Document.PagesKeepStable` | 4-ladas2tei.py:236-239 | the file loop never changes a block without closing tags |
| `Document.BodyEnvelope` | 4-ladas2tei.py:228-241 | the joined body always starts with `<text><body><div>` and ends with `</div></body></text>` |
| `Document.PageMarkersKept` | 4-ladas2tei.py:236-239 | every selected, transformed page leaves its marker in the result, numbered by the count of selected files before it |
| `Document.PageMarkerHere` | 4-ladas2tei.py:68-71 | the first file, when selected and transformed, leaves its marker in the final blocks |
| `Document.PageMarkerLater` | 4-ladas2tei.py:236-239 | a later file's marker survives the files before it, numbered by the selected files before it |
| `Document.OpeningZonesAppend` | 4-ladas2tei.py:73-81 | a page of zones that take the default or heading rule adds exactly one block per zone and keeps the earlier blocks |
| `Header.HoleAt` | 4-ladas2tei.py:88 | a match of `\[(\w+)\]` spans a non-empty name between the brackets |
| `Header.Placeholders` | 4-ladas2tei.py:88 | every name `re.findall` returns is a non-empty word |
| `Header.PlaceholdersOfChunks` | 4-ladas2tei.py:88 | on a template of literal text and placeholders, `findall` returns exactly the placeholder names in order |
| `Header.DedupFrom` | 4-ladas2tei.py:89 | the dict comprehension keeps every name once, in first-occurrence order |
| `Header.ReplacementKeys` | 4-ladas2tei.py:88-90 | the replaced keys are exactly the template's placeholders plus `date_today`, each once |
| `Header.KeysAreWords` | 4-ladas2tei.py:88-90 | every replaced key is a word, so its token is a placeholder the pattern recognises |
| `Header.ReplaceToken` | 4-ladas2tei.py:92 | `str.replace` of one token substitutes exactly the placeholders of that name and no other text |
| `Header.FillFromChunks` | 4-ladas2tei.py:91-92 | the replacement loop fills every placeholder of the template with its value, provided the values add no `[` |
| `Header.FillHeaderChunks` | 4-ladas2tei.py:85-93 | the filled header is the template with each placeholder replaced by its value: the metadata cell, `""` for a missing column, the date for `date_today` |
| `Header.NoBracketUnchanged` | 4-ladas2tei.py:91-92 | a template without `[` comes back unchanged |
| `OrderFiles.TryAt` | tei_conversion/src/order_files.py:19 | a match at one offset captures the longest digit run the pattern allows, and there is none when no length matches |
| `OrderFiles.SearchFrom` | tei_conversion/src/order_files.py:19 | `re.search` finds the leftmost offset where the pattern matches |
| `OrderFiles.FileNumber` | tei_conversion/src/order_files.py:19 | a path gets a number exactly when the pattern matches somewhere in it |
| `OrderFiles.FileNumberOf` | tei_conversion/src/order_files.py:19 | the number is the value of the leftmost, longest digit capture |
| `OrderFiles.Numbered` | tei_conversion/src/order_files.py:19 | every path is paired with its number, in order, and the call fails exactly when some path has no number |
| `OrderFiles.StrLessTotal` | tei_conversion/src/order_files.py:19 | Python string comparison orders any two distinct paths |
| `OrderFiles.StrLessTransitive` | tei_conversion/src/order_files.py:19 | Python string comparison is transitive |
| `OrderFiles.StrLessAsymmetric` | tei_conversion/src/order_files.py:19 | Python string comparison is asymmetric |
| `OrderFiles.StrLessIrreflexive` | tei_conversion/src/order_files.py:19 | no path is less than itself |
| `OrderFiles.FileLeqTotal` | tei_conversion/src/order_files.py:19 | tuple order, by number and then by path, compares any two files |
| `OrderFiles.FileLeqTransitive` | tei_conversion/src/order_files.py:19 | tuple order is transitive |
| `OrderFiles.FileLeqAntisymmetric` | tei_conversion/src/order_files.py:19 | files equal in tuple order are the same file |
| `OrderFiles.Insert` | tei_conversion/src/order_files.py:19 | inserting a file adds exactly that file |
| `OrderFiles.Sort` | tei_conversion/src/order_files.py:19 | sorting is a permutation |
| `OrderFiles.SortSorted` | tei_conversion/src/order_files.py:19 | the sorted list is in tuple order |
| `OrderFiles.OrderFiles` | tei_conversion/src/order_files.py:16-20 | the call succeeds exactly when every path has a number, and then returns a permutation of the numbered paths |
| `OrderFiles.OrderFilesSorted` | tei_conversion/src/order_files.py:16-20 | the result is in order of page number, ties broken by path, and is a permutation of the numbered paths |
| `OrderFiles.SortedUnique` | tei_conversion/src/order_files.py:19 | two sorted lists of the same files are equal |
| `OrderFiles.OrderIndependent` | tei_conversion/src/order_files.py:16-20 | the result does not depend on the order of the directory listing |
| `OrderFiles.NumericBeforeTextual` | tei_conversion/src/order_files.py:19 | page 2 comes before page 10, although `"p/10.xml" < "p/2.xml"` as text |
| `OrderFiles.TenOnPage` | tei_conversion/src/order_files.py:19 | `p/10.xml` is numbered 10 |
| `OrderFiles.TwoOnPage` | tei_conversion/src/order_files.py:19 | `p/2.xml` is numbered 2 |
| `OrderFiles.DotMatchesDigit` | tei_conversion/src/order_files.py:19 | the unescaped `.` matches a digit, so `12xml` is numbered 1 |
| `Download.ReformatEraraUrl` | 0-download-books.py:59-65 | the normalised URL always contains `https://`. A URL already holding `https://` is kept, and one holding neither `https://` nor `doi:` gets `https://` in front |
| `Download.ReformatIdempotent` | 0-download-books.py:59-61 | normalising twice is normalising once, and a URL with `https://` is kept as it is |
| `Download.ReformatDoi` | 0-download-books.py:62-64 | a `doi:` URL without `https://` becomes the DOI resolver followed by the `:` piece between the first and the second colon, or up to the end |
| `Download.SourceOf` | 0-download-books.py:211-246 | Gallica is chosen exactly when the URL names `gallica.bnf.fr`, and no site exactly when none of the four tests holds |
| `Download.Remaining` | 0-download-books.py:205-206 | the resume filter keeps exactly the URLs not yet recorded, in order |
| `Download.RemainingAppend` | 0-download-books.py:206 | the filter works URL by URL: filtering a concatenation is concatenating the filtered parts |
| `Download.RemainingTwice` | 0-download-books.py:197-206 | filtering again with more recorded books is filtering once with all of them |
| `Download.Recognised` | 0-download-books.py:211-246 | the URLs some site accepts are exactly those of the list that pass one of the four tests |
| `Download.BookOutcome` | 0-download-books.py:145-169 | a book succeeds exactly when its site's downloader returns 200. A Numelyo book that fails raises at line 166 and returns no code |
| `Download.Pass` | 0-download-books.py:210-246 | a pass records only accepted URLs that downloaded with 200. On success it records all of them in order. Otherwise it ends with the first failing book's outcome, a code or an exception, having recorded the books before it |
| `Download.DownloadBooksResult` | 0-download-books.py:195-252 | the run records only books not yet downloaded, each downloaded with 200. A failure code is that of an accepted book that is not a Numelyo book |
| `Download.DownloadBooksComplete` | 0-download-books.py:195-252 | when no book raises, a successful run records exactly the accepted books not yet downloaded, in order |
| `Download.NumelyoFailureReportedAsSuccess` | 0-download-books.py:145-169 | when only Numelyo books fail, the run returns 200, yet no failing book is recorded |
| `Download.GallicaPagesDistinct` | 0-download-books.py:32-49 | different page numbers request different Gallica addresses |
| `Download.NumelyoPageNumber` | 0-download-books.py:125-134 | a Numelyo page address holds a field of at least eight digits that reads back as the page number |
| `Download.NumelyoPagesDistinct` | 0-download-books.py:123-142 | different pages or formats request different Numelyo addresses |
| `Download.NumelyoFolder` | 0-download-books.py:149 | the folder name exists exactly when the URL has a fifth `/` piece containing `:` |
| `Download.EraraFolder` | 0-download-books.py:93 | the folder name exists exactly when both URLs have enough `/` pieces |
| `Download.BookFolder` | 0-download-books.py:93-173 | an unrecognised URL gets no folder, and every folder is a single directory name below the output folder |
| `Download.NumelyoFolderNoSlash` | 0-download-books.py:149 | a Numelyo folder name is non-empty and holds no `/` |
| `Download.EraraFolderNoSlash` | 0-download-books.py:93 | an e-rara folder name is non-empty and holds no `/` |
| `Metadata.RowOf` | 3-create-ladas2tei-metadata.py:28 | every row has six fields |
| `Metadata.BookLines` | 3-create-ladas2tei-metadata.py:25-56 | the lines the loop keeps all have a URL field that passes the site test |
| `Metadata.ConvertFrom` | 3-create-ladas2tei-metadata.py:24-56 | the script stops with an index error exactly when some line has fewer than two fields, or names a book but lacks a field or a folder name |
| `Metadata.ConvertRows` | 3-create-ladas2tei-metadata.py:24-56 | the rows follow the book lines one to one and in order, each with its folder, its number and its fields |
| `Metadata.RowsNumbered` | 3-create-ladas2tei-metadata.py:24-56 | rows that follow the book lines each have six fields, and row `j` carries the number `i + j` |
| `Metadata.ConvertNumbers` | 3-create-ladas2tei-metadata.py:24-56 | there is one row per book line, each with six fields, numbered 1, 2, … in input order |
| `Metadata.HeaderHasFiveColumns` | 3-create-ladas2tei-metadata.py:60 | the header reads back as five column names, one fewer than the fields of a row |
| `Metadata.FolderNamesAgree` | 3-create-ladas2tei-metadata.py:26-52 | the converter and the downloader name Gallica and Numelyo folders alike. Tolosana differs by the downloader's trailing `/`. e-rara agrees when the page has exactly one manifest link. Unknown sites get no folder from either |

The metadata converter's `reformat_erara_url` (3-create-ladas2tei-metadata.py:6-12)
is a verbatim copy of the downloader's, so `Download.ReformatEraraUrl` models both.

## Left out

- HTTP requests, the retry loop of `download_one_page`, sleeping and printing are left out. A book's download outcome is the parameter `status(url)`.
- The Gallica "until two pages are identical" loop is left out, because it depends on downloaded content. Only the page addresses it requests are modelled.
- The Numelyo TIF/JPG probing and its 404 detection are left out, because they inspect HTTP responses. Only the two addresses per page are modelled.
- The e-rara page scrape and the IIIF manifest download are left out, because they need the network and HTML parsing. The scraped links are a parameter. The image list of the manifest is left out.
- PDF conversion, file writes, `os.mkdir` and `os.remove` are left out, because they are I/O.
- Exceptions inside `download_books` other than the `NameError` of a failing Numelyo book are left out. Network errors and file errors are examples.
- `get_books_urls` is left out: it reads a file and deduplicates through a `set`, whose order Python does not fix. The URL list is an input.
- `downloaded_books.txt` is left out as a file. Its whitespace-split contents are the input `downloaded`, and a missing file is the empty list.
- The metadata converter's file reading and writing are left out. The input is its list of lines. The output is the header line and the rows as field lists, not the written text. The script writes its output only after the loop (lines 59-62), so a line that raises writes nothing, and `None` for the whole run is exact.
- `apply_xslt` and the XSLT stylesheet are left out, as are lxml parsing and serialisation of the body. A page's regions are an input, and `None` stands for a failed transformation.
- `glob`, `os.listdir`, `sorted` on directory names and the `KeyError` of an unknown book folder are left out, because they are I/O. The sorted listing is an input.
- `csv.DictReader` is left out. A row is a map from column names to optional cells, and a missing cell is `None`, printed `None`.
- `datetime.today()` is left out. The date is a parameter holding its printed form.
- Command-line parsing (`argparse`, `click`) is left out.
- `1-batch.py`, `2-rtk-cpu.py` and `tei_conversion/multiprocess.py` are left out, because they run external tools and processes.
- Regular-expression classes are ASCII only. `\w`, `\s` and `\d` do not cover the Unicode characters Python's `re` also accepts.
- `Header.FillHeaderChunks`: proved for templates whose literal text holds no `[`, and for metadata values and a date without `[`. A value holding a placeholder could be substituted again by a later key. `Header.NoBracketUnchanged` covers templates without any `[`.
- `Assembler.ListContinues`: stated for last blocks in which the list's closing tag occurs only at the end. `Assembler.ListMerges` gives the general form.
- `Assembler.ContinuationSplice`: stated for target blocks made of text pieces and closing tags. `Assembler.ContinuationText` holds for every block.
- `Lines.ProcessLine`: its contract describes the branch without the verse entry only. `Classify.VerseTagNeverClassified` shows the verse branch never runs, and `Lines.VerseBranchDoublesLines` gives its count.
- `Download.DownloadBooksResult`: a failing run is stated to return the code of some accepted book that was not yet downloaded. `Download.Pass` names the first failing book of the pass.
- `Download.DownloadBooksComplete`: stated for runs in which no book raises. `Download.NumelyoFailureReportedAsSuccess` covers the runs in which a Numelyo book raises.
- `Assembler.UpdateBlock`: its own contract only bounds the number of blocks. The rule it applies is stated by `Assembler.UpdateIsMerge`, `Assembler.UpdateIsOpen` and the continuation lemmas.
- `Assembler.Continue`: its own contract only bounds the number of blocks. `Assembler.ContinuationSplice`, `Assembler.ContinuationText` and `Assembler.ContinuationWithoutCloseDropped` state what it does.
- `Document.AssembleZones`: its own contract only says that no block is removed. `Document.ZonesKeepStable` and `Document.OpeningZonesAppend` state more.
- `Download.ReformatEraraUrl`: its own contract leaves out the `doi:` case, whose `split(":")[1]` needs a colon. `Download.ReformatDoi` states that case.
