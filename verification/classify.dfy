/** The zone classifier of 4-ladas2tei.py: the two tables `tei_mapping`
    (zone type to TEI tag, lines 9-45) and `cumulative` (sub-zone type to
    the parent zone type it may merge into, lines 46-54), and the per-zone
    flags computed in `process_document` (lines 74-78).  The keys of
    `tei_mapping` are the constructors of `ZoneKind` and its tags those
    of `TeiTag`; a zone type string is looked up by `ZoneKindOf` (with
    `ZoneName` its inverse on the keys), and each
    tag text of the table is the rendering of the opening tag it spells. */
module Classify {
  import opened Strings
  import opened TagEnd

  /** The opening tags `tei_mapping` uses. */
  datatype TeiTag =
    | Ab
    | Closer
    | Dateline
    | Entry
    | FigDesc
    | Figure
    | Head
    | Item
    | Lg
    | ListTag
    | Note
    | P
    | Signed
    | Sp
    | DivEntry
    | DivForm
    | DivLetter
    | DivOthers
    | DivTitlepage
    | DivToc
    | FigureCode
    | FigureDecoration
    | FigureMaths
    | FigureTable
    | FwAd
    | FwDigital
    | FwMargin
    | FwNumbering
    | FwQuiremark
    | FwRunningtitle
    | FwStamp
    | FwSticker
    | HiDropcapital

  function OpenTagOf(t: TeiTag): OpenTag {
    match t
    case Ab => OpenTag("ab", "")
    case Closer => OpenTag("closer", "")
    case Dateline => OpenTag("dateline", "")
    case Entry => OpenTag("entry", "")
    case FigDesc => OpenTag("figDesc", "")
    case Figure => OpenTag("figure", "")
    case Head => OpenTag("head", "")
    case Item => OpenTag("item", "")
    case Lg => OpenTag("lg", "")
    case ListTag => OpenTag("list", "")
    case Note => OpenTag("note", "")
    case P => OpenTag("p", "")
    case Signed => OpenTag("signed", "")
    case Sp => OpenTag("sp", "")
    case DivEntry => OpenTag("div", " type=\"entry\"")
    case DivForm => OpenTag("div", " type=\"form\"")
    case DivLetter => OpenTag("div", " type=\"letter\"")
    case DivOthers => OpenTag("div", " type=\"others\"")
    case DivTitlepage => OpenTag("div", " type=\"titlepage\"")
    case DivToc => OpenTag("div", " type=\"toc\"")
    case FigureCode => OpenTag("figure", " type=\"code\"")
    case FigureDecoration => OpenTag("figure", " type=\"decoration\"")
    case FigureMaths => OpenTag("figure", " type=\"maths\"")
    case FigureTable => OpenTag("figure", " type=\"table\"")
    case FwAd => OpenTag("fw", " type=\"ad\"")
    case FwDigital => OpenTag("fw", " type=\"digital\"")
    case FwMargin => OpenTag("fw", " type=\"margin\"")
    case FwNumbering => OpenTag("fw", " type=\"numbering\"")
    case FwQuiremark => OpenTag("fw", " type=\"quiremark\"")
    case FwRunningtitle => OpenTag("fw", " type=\"runningtitle\"")
    case FwStamp => OpenTag("fw", " type=\"stamp\"")
    case FwSticker => OpenTag("fw", " type=\"sticker\"")
    case HiDropcapital => OpenTag("hi", " rend=\"dropcapital\"")
  }

  /** The tag text of an opening tag of the table. */
  function TagText(t: TeiTag): string {
    Render(OpenTagOf(t))
  }

  /** The tag texts of a list of opening tags. */
  function TagTexts(ts: seq<TeiTag>): (r: seq<string>)
    ensures |r| == |ts| && forall i :: 0 <= i < |ts| ==> r[i] == TagText(ts[i])
    decreases |ts|
  {
    if |ts| == 0 then [] else [TagText(ts[0])] + TagTexts(ts[1..])
  }

  datatype ZoneKind =
    | AdvertisementZone
    | DigitizationArtefactZone
    | DropCapitalZone
    | FigureZone
    | FigureZoneFigDesc
    | FigureZoneHead
    | GraphicZone
    | GraphicZoneDecoration
    | GraphicZoneFigDesc
    | GraphicZoneHead
    | GraphicZoneMaths
    | GraphicZonePart
    | GraphicZoneTextualContent
    | MainZoneDate
    | MainZoneEntry
    | MainZoneForm
    | MainZoneHead
    | MainZoneLg
    | MainZoneList
    | MainZoneOther
    | MainZoneP
    | MainZonePCatalogueDesc
    | MainZoneSignature
    | MainZoneSp
    | MarginTextZoneManuscriptAddendum
    | MarginTextZoneNotes
    | NumberingZone
    | PageTitleZone
    | PageTitleZoneIndex
    | QuireMarkZone
    | RunningTitleZone
    | StampZone
    | StampZoneSticker
    | TableZone
    | TableZoneHead

  /** The key a zone type text is, if any: the dictionary lookup of
      `tei_mapping` and `cumulative`. */
  function ZoneKindOf(zoneType: string): Option<ZoneKind> {
    match zoneType
    case "AdvertisementZone" => Some(AdvertisementZone)
    case "DigitizationArtefactZone" => Some(DigitizationArtefactZone)
    case "DropCapitalZone" => Some(DropCapitalZone)
    case "FigureZone" => Some(FigureZone)
    case "FigureZone-FigDesc" => Some(FigureZoneFigDesc)
    case "FigureZone-Head" => Some(FigureZoneHead)
    case "GraphicZone" => Some(GraphicZone)
    case "GraphicZone-Decoration" => Some(GraphicZoneDecoration)
    case "GraphicZone-FigDesc" => Some(GraphicZoneFigDesc)
    case "GraphicZone-Head" => Some(GraphicZoneHead)
    case "GraphicZone-Maths" => Some(GraphicZoneMaths)
    case "GraphicZone-Part" => Some(GraphicZonePart)
    case "GraphicZone-TextualContent" => Some(GraphicZoneTextualContent)
    case "MainZone-Date" => Some(MainZoneDate)
    case "MainZone-Entry" => Some(MainZoneEntry)
    case "MainZone-Form" => Some(MainZoneForm)
    case "MainZone-Head" => Some(MainZoneHead)
    case "MainZone-Lg" => Some(MainZoneLg)
    case "MainZone-List" => Some(MainZoneList)
    case "MainZone-Other" => Some(MainZoneOther)
    case "MainZone-P" => Some(MainZoneP)
    case "MainZone-P@CatalogueDesc" => Some(MainZonePCatalogueDesc)
    case "MainZone-Signature" => Some(MainZoneSignature)
    case "MainZone-Sp" => Some(MainZoneSp)
    case "MarginTextZone-ManuscriptAddendum" => Some(MarginTextZoneManuscriptAddendum)
    case "MarginTextZone-Notes" => Some(MarginTextZoneNotes)
    case "NumberingZone" => Some(NumberingZone)
    case "PageTitleZone" => Some(PageTitleZone)
    case "PageTitleZone-Index" => Some(PageTitleZoneIndex)
    case "QuireMarkZone" => Some(QuireMarkZone)
    case "RunningTitleZone" => Some(RunningTitleZone)
    case "StampZone" => Some(StampZone)
    case "StampZone-Sticker" => Some(StampZoneSticker)
    case "TableZone" => Some(TableZone)
    case "TableZone-Head" => Some(TableZoneHead)
    case _ => None
  }

  /** The key text of a zone kind in `tei_mapping`. */
  function ZoneName(k: ZoneKind): string {
    match k
    case AdvertisementZone => "AdvertisementZone"
    case DigitizationArtefactZone => "DigitizationArtefactZone"
    case DropCapitalZone => "DropCapitalZone"
    case FigureZone => "FigureZone"
    case FigureZoneFigDesc => "FigureZone-FigDesc"
    case FigureZoneHead => "FigureZone-Head"
    case GraphicZone => "GraphicZone"
    case GraphicZoneDecoration => "GraphicZone-Decoration"
    case GraphicZoneFigDesc => "GraphicZone-FigDesc"
    case GraphicZoneHead => "GraphicZone-Head"
    case GraphicZoneMaths => "GraphicZone-Maths"
    case GraphicZonePart => "GraphicZone-Part"
    case GraphicZoneTextualContent => "GraphicZone-TextualContent"
    case MainZoneDate => "MainZone-Date"
    case MainZoneEntry => "MainZone-Entry"
    case MainZoneForm => "MainZone-Form"
    case MainZoneHead => "MainZone-Head"
    case MainZoneLg => "MainZone-Lg"
    case MainZoneList => "MainZone-List"
    case MainZoneOther => "MainZone-Other"
    case MainZoneP => "MainZone-P"
    case MainZonePCatalogueDesc => "MainZone-P@CatalogueDesc"
    case MainZoneSignature => "MainZone-Signature"
    case MainZoneSp => "MainZone-Sp"
    case MarginTextZoneManuscriptAddendum => "MarginTextZone-ManuscriptAddendum"
    case MarginTextZoneNotes => "MarginTextZone-Notes"
    case NumberingZone => "NumberingZone"
    case PageTitleZone => "PageTitleZone"
    case PageTitleZoneIndex => "PageTitleZone-Index"
    case QuireMarkZone => "QuireMarkZone"
    case RunningTitleZone => "RunningTitleZone"
    case StampZone => "StampZone"
    case StampZoneSticker => "StampZone-Sticker"
    case TableZone => "TableZone"
    case TableZoneHead => "TableZone-Head"
  }

  /* Each key reads back as its own kind. */
  lemma AdvertisementZoneKey() ensures ZoneKindOf("AdvertisementZone") == Some(AdvertisementZone) {}
  lemma DigitizationArtefactZoneKey() ensures ZoneKindOf("DigitizationArtefactZone") == Some(DigitizationArtefactZone) {}
  lemma DropCapitalZoneKey() ensures ZoneKindOf("DropCapitalZone") == Some(DropCapitalZone) {}
  lemma FigureZoneKey() ensures ZoneKindOf("FigureZone") == Some(FigureZone) {}
  lemma FigureZoneFigDescKey() ensures ZoneKindOf("FigureZone-FigDesc") == Some(FigureZoneFigDesc) {}
  lemma FigureZoneHeadKey() ensures ZoneKindOf("FigureZone-Head") == Some(FigureZoneHead) {}
  lemma GraphicZoneKey() ensures ZoneKindOf("GraphicZone") == Some(GraphicZone) {}
  lemma GraphicZoneDecorationKey() ensures ZoneKindOf("GraphicZone-Decoration") == Some(GraphicZoneDecoration) {}
  lemma GraphicZoneFigDescKey() ensures ZoneKindOf("GraphicZone-FigDesc") == Some(GraphicZoneFigDesc) {}
  lemma GraphicZoneHeadKey() ensures ZoneKindOf("GraphicZone-Head") == Some(GraphicZoneHead) {}
  lemma GraphicZoneMathsKey() ensures ZoneKindOf("GraphicZone-Maths") == Some(GraphicZoneMaths) {}
  lemma GraphicZonePartKey() ensures ZoneKindOf("GraphicZone-Part") == Some(GraphicZonePart) {}
  lemma GraphicZoneTextualContentKey() ensures ZoneKindOf("GraphicZone-TextualContent") == Some(GraphicZoneTextualContent) {}
  lemma MainZoneDateKey() ensures ZoneKindOf("MainZone-Date") == Some(MainZoneDate) {}
  lemma MainZoneEntryKey() ensures ZoneKindOf("MainZone-Entry") == Some(MainZoneEntry) {}
  lemma MainZoneFormKey() ensures ZoneKindOf("MainZone-Form") == Some(MainZoneForm) {}
  lemma MainZoneHeadKey() ensures ZoneKindOf("MainZone-Head") == Some(MainZoneHead) {}
  lemma MainZoneLgKey() ensures ZoneKindOf("MainZone-Lg") == Some(MainZoneLg) {}
  lemma MainZoneListKey() ensures ZoneKindOf("MainZone-List") == Some(MainZoneList) {}
  lemma MainZoneOtherKey() ensures ZoneKindOf("MainZone-Other") == Some(MainZoneOther) {}
  lemma MainZonePKey() ensures ZoneKindOf("MainZone-P") == Some(MainZoneP) {}
  lemma MainZonePCatalogueDescKey() ensures ZoneKindOf("MainZone-P@CatalogueDesc") == Some(MainZonePCatalogueDesc) {}
  lemma MainZoneSignatureKey() ensures ZoneKindOf("MainZone-Signature") == Some(MainZoneSignature) {}
  lemma MainZoneSpKey() ensures ZoneKindOf("MainZone-Sp") == Some(MainZoneSp) {}
  lemma MarginTextZoneManuscriptAddendumKey() ensures ZoneKindOf("MarginTextZone-ManuscriptAddendum") == Some(MarginTextZoneManuscriptAddendum) {}
  lemma MarginTextZoneNotesKey() ensures ZoneKindOf("MarginTextZone-Notes") == Some(MarginTextZoneNotes) {}
  lemma NumberingZoneKey() ensures ZoneKindOf("NumberingZone") == Some(NumberingZone) {}
  lemma PageTitleZoneKey() ensures ZoneKindOf("PageTitleZone") == Some(PageTitleZone) {}
  lemma PageTitleZoneIndexKey() ensures ZoneKindOf("PageTitleZone-Index") == Some(PageTitleZoneIndex) {}
  lemma QuireMarkZoneKey() ensures ZoneKindOf("QuireMarkZone") == Some(QuireMarkZone) {}
  lemma RunningTitleZoneKey() ensures ZoneKindOf("RunningTitleZone") == Some(RunningTitleZone) {}
  lemma StampZoneKey() ensures ZoneKindOf("StampZone") == Some(StampZone) {}
  lemma StampZoneStickerKey() ensures ZoneKindOf("StampZone-Sticker") == Some(StampZoneSticker) {}
  lemma TableZoneKey() ensures ZoneKindOf("TableZone") == Some(TableZone) {}
  lemma TableZoneHeadKey() ensures ZoneKindOf("TableZone-Head") == Some(TableZoneHead) {}

  /** The keys of `tei_mapping` are distinct, and the lookup finds every
      key's own entry. */
  lemma ZoneNameRoundTrip(k: ZoneKind)
    ensures ZoneKindOf(ZoneName(k)) == Some(k)
  {
    match k
    case AdvertisementZone => AdvertisementZoneKey();
    case DigitizationArtefactZone => DigitizationArtefactZoneKey();
    case DropCapitalZone => DropCapitalZoneKey();
    case FigureZone => FigureZoneKey();
    case FigureZoneFigDesc => FigureZoneFigDescKey();
    case FigureZoneHead => FigureZoneHeadKey();
    case GraphicZone => GraphicZoneKey();
    case GraphicZoneDecoration => GraphicZoneDecorationKey();
    case GraphicZoneFigDesc => GraphicZoneFigDescKey();
    case GraphicZoneHead => GraphicZoneHeadKey();
    case GraphicZoneMaths => GraphicZoneMathsKey();
    case GraphicZonePart => GraphicZonePartKey();
    case GraphicZoneTextualContent => GraphicZoneTextualContentKey();
    case MainZoneDate => MainZoneDateKey();
    case MainZoneEntry => MainZoneEntryKey();
    case MainZoneForm => MainZoneFormKey();
    case MainZoneHead => MainZoneHeadKey();
    case MainZoneLg => MainZoneLgKey();
    case MainZoneList => MainZoneListKey();
    case MainZoneOther => MainZoneOtherKey();
    case MainZoneP => MainZonePKey();
    case MainZonePCatalogueDesc => MainZonePCatalogueDescKey();
    case MainZoneSignature => MainZoneSignatureKey();
    case MainZoneSp => MainZoneSpKey();
    case MarginTextZoneManuscriptAddendum => MarginTextZoneManuscriptAddendumKey();
    case MarginTextZoneNotes => MarginTextZoneNotesKey();
    case NumberingZone => NumberingZoneKey();
    case PageTitleZone => PageTitleZoneKey();
    case PageTitleZoneIndex => PageTitleZoneIndexKey();
    case QuireMarkZone => QuireMarkZoneKey();
    case RunningTitleZone => RunningTitleZoneKey();
    case StampZone => StampZoneKey();
    case StampZoneSticker => StampZoneStickerKey();
    case TableZone => TableZoneKey();
    case TableZoneHead => TableZoneHeadKey();
  }

  /** A value of `tei_mapping`: one opening tag, or a list of opening tags
      from the outermost to the innermost. */
  datatype TableEntry = Tag(tag: TeiTag) | TagList(tags: seq<TeiTag>)

  /** `tei_mapping`, with each tag text given as the opening tag it spells. */
  function TeiTags(k: ZoneKind): TableEntry {
    match k
    case AdvertisementZone => Tag(FwAd)
    case DigitizationArtefactZone => Tag(FwDigital)
    case DropCapitalZone => Tag(HiDropcapital)
    case FigureZone => Tag(FigureCode)
    case FigureZoneFigDesc => Tag(FigDesc)
    case FigureZoneHead => Tag(Head)
    case GraphicZone => Tag(Figure)
    case GraphicZoneDecoration => Tag(FigureDecoration)
    case GraphicZoneFigDesc => Tag(FigDesc)
    case GraphicZoneHead => Tag(Head)
    case GraphicZoneMaths => Tag(FigureMaths)
    case GraphicZonePart => Tag(Figure)
    case GraphicZoneTextualContent => Tag(P)
    case MainZoneDate => Tag(Dateline)
    case MainZoneEntry => TagList([DivEntry, P])
    case MainZoneForm => TagList([DivForm, P])
    case MainZoneHead => Tag(Head)
    case MainZoneLg => Tag(Lg)
    case MainZoneList => TagList([ListTag, Item])
    case MainZoneOther => TagList([DivOthers, P])
    case MainZoneP => Tag(P)
    case MainZonePCatalogueDesc => Tag(Entry)
    case MainZoneSignature => TagList([DivLetter, Closer, Signed])
    case MainZoneSp => Tag(Sp)
    case MarginTextZoneManuscriptAddendum => Tag(FwMargin)
    case MarginTextZoneNotes => Tag(Note)
    case NumberingZone => Tag(FwNumbering)
    case PageTitleZone => TagList([DivTitlepage, P])
    case PageTitleZoneIndex => TagList([DivToc, P])
    case QuireMarkZone => Tag(FwQuiremark)
    case RunningTitleZone => Tag(FwRunningtitle)
    case StampZone => Tag(FwStamp)
    case StampZoneSticker => Tag(FwSticker)
    case TableZone => Tag(FigureTable)
    case TableZoneHead => Tag(Head)
  }

  function Rendered(e: TableEntry): TagSpec {
    match e
    case Tag(t) => Single(TagText(t))
    case TagList(ts) => Stack(TagTexts(ts))
  }

  /** `tei_mapping[k]`. */
  function TeiMapping(k: ZoneKind): TagSpec {
    Rendered(TeiTags(k))
  }

  /** `cumulative.get(k)`: the parent zone a sub-zone may merge into. */
  function Cumulative(k: ZoneKind): Option<ZoneKind> {
    match k
    case GraphicZoneFigDesc => Some(GraphicZone)
    case GraphicZoneHead => Some(GraphicZone)
    case GraphicZonePart => Some(GraphicZone)
    case GraphicZoneTextualContent => Some(GraphicZone)
    case FigureZoneFigDesc => Some(FigureZone)
    case FigureZoneHead => Some(FigureZone)
    case TableZoneHead => Some(TableZone)
    case _ => None
  }

  /** The fallback of `tei_mapping.get(zone_type, '<ab>')`. */
  const DefaultTag: TagSpec := Single("<ab>")

  /** A zone's classification: its type attribute (absent when the region
      has none), its tag, and the three flags that select the rule of
      `update_block`; `cumul` holds the parent zone `cumulative` gave. */
  datatype Classified = Classified(
    zoneType: Option<string>,
    tag: TagSpec,
    continued: bool,
    cumul: Option<ZoneKind>,
    isList: bool)

  /** Python truthiness of `zone_type`: present and non-empty. */
  predicate Truthy(zoneType: Option<string>) {
    zoneType.Some? && zoneType.value != ""
  }

  /** Lines 74-78 of `process_document`. */
  function ClassifyZone(zoneType: Option<string>): (c: Classified)
    ensures c.zoneType == zoneType
    ensures zoneType.None? || ZoneKindOf(zoneType.value).None? ==> c.tag == DefaultTag && c.cumul.None?
    ensures zoneType.Some? && ZoneKindOf(zoneType.value).Some? ==>
      var k := ZoneKindOf(zoneType.value).value;
      && c.tag == TeiMapping(k)
      && c.cumul == (if zoneType.value == "" then None else Cumulative(k))
    ensures c.continued <==> zoneType.Some? && Contains(zoneType.value, "Continued")
    ensures c.isList <==> c.tag.Stack?
  {
    var kind := if zoneType.Some? then ZoneKindOf(zoneType.value) else None;
    var tag := if kind.Some? then TeiMapping(kind.value) else DefaultTag;
    var continued := Truthy(zoneType) && Contains(zoneType.value, "Continued");
    var cumul := if Truthy(zoneType) && kind.Some? then Cumulative(kind.value) else None;
    Classified(zoneType, tag, continued, cumul, tag.Stack?)
  }

  /** Every opening tag of the table is well formed: one lemma per tag,
      and their case split. */
  lemma AbWellFormed() ensures WellFormed(OpenTag("ab", "")) {}
  lemma CloserWellFormed() ensures WellFormed(OpenTag("closer", "")) {}
  lemma DatelineWellFormed() ensures WellFormed(OpenTag("dateline", "")) {}
  lemma EntryWellFormed() ensures WellFormed(OpenTag("entry", "")) {}
  lemma FigDescWellFormed() ensures WellFormed(OpenTag("figDesc", "")) {}
  lemma FigureWellFormed() ensures WellFormed(OpenTag("figure", "")) {}
  lemma HeadWellFormed() ensures WellFormed(OpenTag("head", "")) {}
  lemma ItemWellFormed() ensures WellFormed(OpenTag("item", "")) {}
  lemma LgWellFormed() ensures WellFormed(OpenTag("lg", "")) {}
  lemma ListTagWellFormed() ensures WellFormed(OpenTag("list", "")) {}
  lemma NoteWellFormed() ensures WellFormed(OpenTag("note", "")) {}
  lemma PWellFormed() ensures WellFormed(OpenTag("p", "")) {}
  lemma SignedWellFormed() ensures WellFormed(OpenTag("signed", "")) {}
  lemma SpWellFormed() ensures WellFormed(OpenTag("sp", "")) {}
  lemma DivEntryWellFormed() ensures WellFormed(OpenTag("div", " type=\"entry\"")) {}
  lemma DivFormWellFormed() ensures WellFormed(OpenTag("div", " type=\"form\"")) {}
  lemma DivLetterWellFormed() ensures WellFormed(OpenTag("div", " type=\"letter\"")) {}
  lemma DivOthersWellFormed() ensures WellFormed(OpenTag("div", " type=\"others\"")) {}
  lemma DivTitlepageWellFormed() ensures WellFormed(OpenTag("div", " type=\"titlepage\"")) {}
  lemma DivTocWellFormed() ensures WellFormed(OpenTag("div", " type=\"toc\"")) {}
  lemma FigureCodeWellFormed() ensures WellFormed(OpenTag("figure", " type=\"code\"")) {}
  lemma FigureDecorationWellFormed() ensures WellFormed(OpenTag("figure", " type=\"decoration\"")) {}
  lemma FigureMathsWellFormed() ensures WellFormed(OpenTag("figure", " type=\"maths\"")) {}
  lemma FigureTableWellFormed() ensures WellFormed(OpenTag("figure", " type=\"table\"")) {}
  lemma FwAdWellFormed() ensures WellFormed(OpenTag("fw", " type=\"ad\"")) {}
  lemma FwDigitalWellFormed() ensures WellFormed(OpenTag("fw", " type=\"digital\"")) {}
  lemma FwMarginWellFormed() ensures WellFormed(OpenTag("fw", " type=\"margin\"")) {}
  lemma FwNumberingWellFormed() ensures WellFormed(OpenTag("fw", " type=\"numbering\"")) {}
  lemma FwQuiremarkWellFormed() ensures WellFormed(OpenTag("fw", " type=\"quiremark\"")) {}
  lemma FwRunningtitleWellFormed() ensures WellFormed(OpenTag("fw", " type=\"runningtitle\"")) {}
  lemma FwStampWellFormed() ensures WellFormed(OpenTag("fw", " type=\"stamp\"")) {}
  lemma FwStickerWellFormed() ensures WellFormed(OpenTag("fw", " type=\"sticker\"")) {}
  lemma HiDropcapitalWellFormed() ensures WellFormed(OpenTag("hi", " rend=\"dropcapital\"")) {}

  lemma TagWellFormed(t: TeiTag)
    ensures WellFormed(OpenTagOf(t))
  {
    match t
    case Ab => AbWellFormed();
    case Closer => CloserWellFormed();
    case Dateline => DatelineWellFormed();
    case Entry => EntryWellFormed();
    case FigDesc => FigDescWellFormed();
    case Figure => FigureWellFormed();
    case Head => HeadWellFormed();
    case Item => ItemWellFormed();
    case Lg => LgWellFormed();
    case ListTag => ListTagWellFormed();
    case Note => NoteWellFormed();
    case P => PWellFormed();
    case Signed => SignedWellFormed();
    case Sp => SpWellFormed();
    case DivEntry => DivEntryWellFormed();
    case DivForm => DivFormWellFormed();
    case DivLetter => DivLetterWellFormed();
    case DivOthers => DivOthersWellFormed();
    case DivTitlepage => DivTitlepageWellFormed();
    case DivToc => DivTocWellFormed();
    case FigureCode => FigureCodeWellFormed();
    case FigureDecoration => FigureDecorationWellFormed();
    case FigureMaths => FigureMathsWellFormed();
    case FigureTable => FigureTableWellFormed();
    case FwAd => FwAdWellFormed();
    case FwDigital => FwDigitalWellFormed();
    case FwMargin => FwMarginWellFormed();
    case FwNumbering => FwNumberingWellFormed();
    case FwQuiremark => FwQuiremarkWellFormed();
    case FwRunningtitle => FwRunningtitleWellFormed();
    case FwStamp => FwStampWellFormed();
    case FwSticker => FwStickerWellFormed();
    case HiDropcapital => HiDropcapitalWellFormed();
  }

  predicate ListsHoldTwo(e: TableEntry) {
    match e
    case Tag(_) => true
    case TagList(ts) => |ts| >= 2
  }

  /** A list value of `tei_mapping` holds at least two tags. */
  lemma TableListsHoldTwo(k: ZoneKind)
    ensures ListsHoldTwo(TeiTags(k))
  {
  }

  /** A zone whose type is a key of `tei_mapping` gets that key's tag, and
      may merge into exactly the parent `cumulative` gives its key. */
  lemma ClassifyKnown(k: ZoneKind)
    ensures ClassifyZone(Some(ZoneName(k))).tag == TeiMapping(k)
    ensures ClassifyZone(Some(ZoneName(k))).cumul == Cumulative(k)
  {
    ZoneNameRoundTrip(k);
    EmptyNotKey();
  }

  lemma EmptyNotKey()
    ensures ZoneKindOf("") == None
  {
  }

  /** Each tag a zone can be classified with reads back as a well-formed
      opening tag, and a list holds at least two of them. */
  predicate TagsParse(spec: TagSpec) {
    match spec
    case Single(t) => ParseOpenTag(t).Some?
    case Stack(ts) => |ts| >= 2 && forall i :: 0 <= i < |ts| ==> ParseOpenTag(ts[i]).Some?
  }

  lemma EntryParses(e: TableEntry)
    requires ListsHoldTwo(e)
    ensures TagsParse(Rendered(e))
  {
    match e
    case Tag(t) =>
      TagWellFormed(t);
      ParseRendered(OpenTagOf(t));
    case TagList(ts) =>
      forall i | 0 <= i < |ts| ensures ParseOpenTag(TagTexts(ts)[i]).Some? {
        TagWellFormed(ts[i]);
        ParseRendered(OpenTagOf(ts[i]));
      }
  }

  /** Every value of `tei_mapping` is made of well-formed opening tags. */
  lemma MappingTagsParse(k: ZoneKind)
    ensures TagsParse(TeiMapping(k))
  {
    TableListsHoldTwo(k);
    EntryParses(TeiTags(k));
  }

  lemma ClassifiedTagsParse(zoneType: Option<string>)
    ensures TagsParse(ClassifyZone(zoneType).tag)
  {
    if ClassifyZone(zoneType).tag == DefaultTag {
      TagWellFormed(Ab);
      ParseRendered(OpenTagOf(Ab));
      assert TagText(Ab) == "<ab>";
    } else {
      MappingTagsParse(ZoneKindOf(zoneType.value).value);
    }
  }

  /** No single tag of `tei_mapping` is a closing tag: its second
      character is not `/`. */
  lemma MappingTagsOpen(k: ZoneKind)
    requires TeiMapping(k).Single?
    ensures |TeiMapping(k).tag| >= 2 && TeiMapping(k).tag[1] != '/'
  {
    MappingTagsParse(k);
    ParsedTagShape(TeiMapping(k).tag);
  }

  /** The parent zone `cumulative` names is mapped to a single opening
      tag. */
  lemma CumulativeParentsOpen(k: ZoneKind)
    requires Cumulative(k).Some?
    ensures TeiMapping(Cumulative(k).value).Single?
    ensures |TeiMapping(Cumulative(k).value).tag| >= 2 && TeiMapping(Cumulative(k).value).tag[1] != '/'
  {
    MappingTagsOpen(Cumulative(k).value);
  }

  /** Cumulative sub-zones are mapped to single tags, never to lists. */
  lemma CumulativeZonesSingle(k: ZoneKind)
    requires Cumulative(k).Some?
    ensures TeiMapping(k).Single?
  {
  }

  /** The zone type name `MainZone-Lg` is never a tag `tei_mapping` yields,
      so the verse test of `process_line` never holds. */
  lemma VerseTagNeverClassified(zoneType: Option<string>)
    ensures ClassifyZone(zoneType).tag != Single("MainZone-Lg")
  {
    ClassifiedTagsParse(zoneType);
    var tag := ClassifyZone(zoneType).tag;
    if tag.Single? {
      ParsedTagShape(tag.tag);
    }
  }

  /** What `update_block` relies on of a classification: the list flag
      agrees with the tag, lists hold two tags, and a cumulative parent is
      mapped to a single tag. */
  predicate Consistent(c: Classified) {
    && (c.isList <==> c.tag.Stack?)
    && (c.tag.Stack? ==> |c.tag.tags| >= 2)
    && (c.cumul.Some? ==> TeiTags(c.cumul.value).Tag?)
  }

  lemma ClassifyConsistent(zoneType: Option<string>)
    ensures Consistent(ClassifyZone(zoneType))
  {
    ClassifiedTagsParse(zoneType);
    var c := ClassifyZone(zoneType);
    if c.cumul.Some? {
      CumulativeParentsOpen(ZoneKindOf(zoneType.value).value);
    }
  }
}
