/**
 * A reader that is given nothing but the bytes of the link document: from the trailer to the
 * catalog, the page tree, every page, its content stream and its links.
 */
module PdfDocument {
  import opened Common
  import opened PdfText
  import opened PdfFile
  import opened Pagination
  import opened PdfPages
  import opened PdfRefs
  import opened PdfLinks
  import opened PdfReadBack

  // ---- The dictionaries

  const DICT_CLOSE := " >>\n"
  const PAGE_OPEN := "<< /Type /Page /Parent 2 0 R /MediaBox "
  const PAGE_BOX := "[0 0 612 792] /Resources << /Font << "
  const PAGE_FONTS := "/F1 3 0 R /F2 4 0 R /F3 5 0 R "
  const PAGE_CONTENTS := ">> >> /Contents "
  const PAGE_HEAD := PAGE_OPEN + PAGE_BOX + PAGE_FONTS + PAGE_CONTENTS
  const PAGE_ANNOTS := "/Annots ["
  const CATALOG_OPEN := "<< /Type /Catalog /Pages "
  const KIDS_OPEN := "<< /Type /Pages /Kids ["
  const KIDS_COUNT := "] /Count "

  /** The page tree a catalog names. */
  function ReadCatalog(body: Bytes): Option<nat> {
    match Expect(Ascii(CATALOG_OPEN), body)
    case None => None
    case Some(b1) =>
      match ReadRef(b1)
      case None => None
      case Some((pages, b2)) => if b2 == Ascii(DICT_CLOSE) then Some(pages) else None
  }

  /** The kids of a page tree; /Count has to agree. */
  function ReadPageTree(body: Bytes): Option<seq<nat>> {
    match Expect(Ascii(KIDS_OPEN), body)
    case None => None
    case Some(b1) =>
      var (kids, b2) := ReadRefs(b1);
      match Expect(Ascii(KIDS_COUNT), b2)
      case None => None
      case Some(b3) =>
        match ReadNumber(b3)
        case None => None
        case Some((count, b4)) => if count == |kids| && b4 == Ascii(DICT_CLOSE) then Some(kids) else None
  }

  /** The contents and the annotations of a page. */
  function ReadPageDict(body: Bytes): Option<(nat, seq<nat>)> {
    match Expect(Ascii(PAGE_HEAD), body)
    case None => None
    case Some(b1) =>
      match ReadRef(b1)
      case None => None
      case Some((contents, b2)) =>
        match Expect(Ascii(" "), b2)
        case None => None
        case Some(b3) =>
          match ReadPageEnd(b3)
          case None => None
          case Some(annots) => Some((contents, annots))
  }

  function ReadPageEnd(b: Bytes): Option<seq<nat>> {
    match Expect(Ascii(PAGE_ANNOTS), b)
    case None => if b == Ascii(DICT_CLOSE) then Some([]) else None
    case Some(b1) =>
      var (annots, b2) := ReadRefs(b1);
      if b2 == Ascii("]" + DICT_CLOSE) then Some(annots) else None
  }

  lemma CatalogReads(pages: nat)
    ensures ReadCatalog(BodyOf(CatalogText(pages))) == Some(pages)
  {
    var open, close := Ascii(CATALOG_OPEN), Ascii(DICT_CLOSE);
    CatalogBytes(pages);
    ExpectToken(open, Ascii(Ref(pages)) + close);
    RefReads(pages, close);
  }

  lemma CatalogBytes(pages: nat)
    ensures BodyOf(CatalogText(pages)) == Ascii(CATALOG_OPEN) + (Ascii(Ref(pages)) + Ascii(DICT_CLOSE))
  {
    RefIsAscii(pages);
    ThreeParts(CATALOG_OPEN, Ref(pages), " >>", "\n");
  }

  lemma ThreeParts(a: string, b: string, c: string, d: string)
    requires IsAscii(a) && IsAscii(b) && IsAscii(c + d)
    ensures Utf8(a + b + c + d) == Ascii(a) + (Ascii(b) + Ascii(c + d))
  {
    AsciiIsUtf8(a);
    AsciiIsUtf8(b);
    AsciiIsUtf8(c + d);
    assert a + b + c + d == a + b + (c + d);
    Utf8Append(a + b, c + d);
    Utf8Append(a, b);
    Regroup(Ascii(a), Ascii(b), Ascii(c + d));
  }

  lemma PageTreeReads(kids: seq<nat>)
    ensures ReadPageTree(BodyOf(PagesText(kids))) == Some(kids)
  {
    PageTreeBytes(kids);
    PageTreeBytesRead(kids, Ascii(KIDS_OPEN), Ascii(KIDS_COUNT), Ascii(DICT_CLOSE));
  }

  lemma KidsTokens()
    ensures IsAscii(KIDS_OPEN) && IsAscii(KIDS_COUNT) && IsAscii(" >>" + "\n") && " >>" + "\n" == DICT_CLOSE
    ensures |Ascii(KIDS_COUNT)| > 0 && Ascii(KIDS_COUNT)[0] == 93 && |Ascii(DICT_CLOSE)| > 0
              && Ascii(DICT_CLOSE)[0] == SPACE
  {
  }

  lemma PageTreeBytesRead(kids: seq<nat>, open: Bytes, count: Bytes, close: Bytes)
    requires open == Ascii(KIDS_OPEN) && count == Ascii(KIDS_COUNT) && close == Ascii(DICT_CLOSE)
    ensures ReadPageTree(open + (Ascii(Refs(kids)) + (count + (Ascii(Decimal(|kids|)) + close)))) == Some(kids)
  {
    var b3 := Ascii(Decimal(|kids|)) + close;
    var b2 := count + b3;
    KidsTokens();
    assert b2[0] == count[0];
    ExpectToken(open, Ascii(Refs(kids)) + b2);
    RefsRead(kids, b2);
    ExpectToken(count, b3);
    ReadDecimal(|kids|, close);
  }

  lemma PageTreeBytes(kids: seq<nat>)
    ensures BodyOf(PagesText(kids)) ==
              Ascii(KIDS_OPEN)
                  + (Ascii(Refs(kids)) + (Ascii(KIDS_COUNT) + (Ascii(Decimal(|kids|)) + Ascii(DICT_CLOSE))))
  {
    RefsAreAscii(kids);
    DecimalReads(|kids|);
    KidsTokens();
    FiveParts(KIDS_OPEN, Refs(kids), KIDS_COUNT, Decimal(|kids|), " >>", "\n");
  }

  lemma FiveParts(a: string, b: string, c: string, d: string, e: string, f: string)
    requires IsAscii(a) && IsAscii(b) && IsAscii(c) && IsAscii(d) && IsAscii(e + f)
    ensures Utf8(a + b + c + d + e + f) == Ascii(a) + (Ascii(b) + (Ascii(c) + (Ascii(d) + Ascii(e + f))))
  {
    AsciiIsUtf8(a);
    AsciiIsUtf8(b);
    AsciiIsUtf8(c);
    AsciiIsUtf8(d);
    AsciiIsUtf8(e + f);
    assert a + b + c + d + e + f == a + b + c + d + (e + f);
    Utf8Append(a + b + c + d, e + f);
    Utf8Append(a + b + c, d);
    Utf8Append(a + b, c);
    Utf8Append(a, b);
    Nest(Ascii(a), Ascii(b), Ascii(c), Ascii(d), Ascii(e + f));
  }

  lemma PageDictReads(contents: nat, annots: seq<nat>)
    ensures ReadPageDict(BodyOf(PageText(contents, annots))) == Some((contents, annots))
  {
    PageBytes(contents, annots);
    PageEndReads(annots);
    PageBytesRead(contents, annots, Ascii(PAGE_HEAD), Ascii(PageEnd(annots)));
  }

  lemma PageBytesRead(contents: nat, annots: seq<nat>, open: Bytes, end: Bytes)
    requires open == Ascii(PAGE_HEAD) && ReadPageEnd(end) == Some(annots)
    ensures ReadPageDict(open + (Ascii(Ref(contents)) + (Ascii(" ") + end))) == Some((contents, annots))
  {
    ExpectToken(open, Ascii(Ref(contents)) + (Ascii(" ") + end));
    RefReads(contents, Ascii(" ") + end);
    ExpectToken(Ascii(" "), end);
  }

  /** What a page dictionary ends with. */
  function PageEnd(annots: seq<nat>): string {
    if annots == [] then DICT_CLOSE else PAGE_ANNOTS + Refs(annots) + ("]" + DICT_CLOSE)
  }

  lemma PageEndReads(annots: seq<nat>)
    ensures ReadPageEnd(Ascii(PageEnd(annots))) == Some(annots)
  {
    if annots == [] {
      assert Ascii(PAGE_ANNOTS)[0] == 47 && Ascii(DICT_CLOSE)[0] == SPACE;
    } else {
      var close := Ascii("]" + DICT_CLOSE);
      AsciiAppend(PAGE_ANNOTS + Refs(annots), "]" + DICT_CLOSE);
      AsciiAppend(PAGE_ANNOTS, Refs(annots));
      Regroup(Ascii(PAGE_ANNOTS), Ascii(Refs(annots)), close);
      ExpectToken(Ascii(PAGE_ANNOTS), Ascii(Refs(annots)) + close);
      assert close[0] == 93;
      RefsRead(annots, close);
    }
  }

  lemma PageBytes(contents: nat, annots: seq<nat>)
    ensures BodyOf(PageText(contents, annots)) ==
              Ascii(PAGE_HEAD) + (Ascii(Ref(contents)) + (Ascii(" ") + Ascii(PageEnd(annots))))
  {
    var middle := if annots == [] then "" else PAGE_ANNOTS + Refs(annots) + "]";
    PageEndText(annots, middle);
    PageEndIsAscii(annots);
    HeadIsAscii();
    RefIsAscii(contents);
    AsciiAppend(" ", PageEnd(annots));
    assert PAGE_HEAD + Ref(contents) + " " + middle + " >>" + "\n"
        == PAGE_HEAD + Ref(contents) + " " + (middle + " >>" + "\n");
    ThreeParts(PAGE_HEAD, Ref(contents), " ", PageEnd(annots));
  }

  lemma PageEndText(annots: seq<nat>, middle: string)
    requires middle == if annots == [] then "" else PAGE_ANNOTS + Refs(annots) + "]"
    ensures middle + " >>" + "\n" == PageEnd(annots)
  {
    assert " >>" + "\n" == DICT_CLOSE;
    if annots != [] {
      assert PAGE_ANNOTS + Refs(annots) + "]" + " >>" + "\n" == PAGE_ANNOTS + Refs(annots) + ("]" + (" >>" + "\n"));
    } else {
      assert "" + " >>" == " >>";
    }
  }

  lemma PageEndIsAscii(annots: seq<nat>)
    ensures IsAscii(" " + PageEnd(annots))
  {
    RefsAreAscii(annots);
    AsciiJoin(PAGE_ANNOTS, Refs(annots), "]" + DICT_CLOSE);
    AsciiJoin(" ", PageEnd(annots), "");
  }

  lemma HeadIsAscii()
    ensures IsAscii(PAGE_HEAD)
  {
    OpenHeadIsAscii();
    FontsAreAscii();
    BoxIsAscii();
    ContentsIsAscii();
    AsciiJoin(PAGE_OPEN, PAGE_BOX, PAGE_FONTS);
    AsciiJoin(PAGE_OPEN + PAGE_BOX + PAGE_FONTS, PAGE_CONTENTS, "");
  }

  lemma OpenHeadIsAscii()
    ensures IsAscii(PAGE_OPEN)
  {
  }

  lemma BoxIsAscii()
    ensures IsAscii(PAGE_BOX)
  {
  }

  lemma ContentsIsAscii()
    ensures IsAscii(PAGE_CONTENTS)
  {
  }

  lemma FontsAreAscii()
    ensures IsAscii(PAGE_FONTS)
  {
  }

  // ---- Fonts

  const FONT_OPEN := "<< /Type /Font /Subtype /Type1 /BaseFont /"

  /** The name of a font object. */
  function ReadFont(body: Bytes): Option<Bytes> {
    Between(Ascii(FONT_OPEN), body, Ascii(DICT_CLOSE))
  }

  lemma FontOpenIsAscii()
    ensures Utf8(FONT_OPEN) == Ascii(FONT_OPEN)
  {
    AsciiIsUtf8(FONT_OPEN);
  }

  lemma FontReads(name: string)
    ensures ReadFont(BodyOf(FontText(name))) == Some(Utf8(name))
  {
    FontTextIs(name);
    FontOpenIsAscii();
    CloseIsAscii();
    FontBytes(FONT_OPEN, name, DICT_CLOSE);
    BetweenReads(Ascii(FONT_OPEN), Utf8(name), Ascii(DICT_CLOSE));
  }

  lemma CloseIsAscii()
    ensures Utf8(DICT_CLOSE) == Ascii(DICT_CLOSE)
  {
    AsciiIsUtf8(DICT_CLOSE);
  }

  lemma FontTextIs(name: string)
    ensures FontText(name) + "\n" == FONT_OPEN + name + DICT_CLOSE
  {
    SplitClose();
    JoinClose(FONT_OPEN + name, " >>", "\n");
  }

  lemma SplitClose()
    ensures " >>" + "\n" == DICT_CLOSE
  {
  }

  lemma JoinClose(a: string, b: string, c: string)
    ensures a + b + c == a + (b + c)
  {
  }

  lemma FontBytes(a: string, b: string, c: string)
    ensures Utf8(a + b + c) == Utf8(a) + Utf8(b) + Utf8(c)
  {
    Utf8Append(a + b, c);
    Utf8Append(a, b);
  }

  /** The three fonts that every page names. */
  lemma FontsReadBack(draw: Drawing, pages: seq<seq<PlacedItem>>)
    ensures var bodies := Bodies(Texts(Objects(draw, pages)));
            && |bodies| >= 5 && ReadFont(bodies[2]) == Some(Utf8("Helvetica"))
            && ReadFont(bodies[3]) == Some(Utf8("Helvetica-Bold")) && ReadFont(bodies[4]) == Some(Utf8("Courier"))
  {
    var objects := Objects(draw, pages);
    FontsStay(draw, pages, objects);
    FontAt(objects, 3, "Helvetica");
    FontAt(objects, 4, "Helvetica-Bold");
    FontAt(objects, 5, "Courier");
  }

  lemma FontsStay(draw: Drawing, pages: seq<seq<PlacedItem>>, objects: seq<PdfObject>)
    requires objects == Objects(draw, pages)
    ensures |objects| >= 5 && objects[2] == Font("Helvetica") && objects[3] == Font("Helvetica-Bold")
    ensures objects[4] == Font("Courier")
  {
    FixedFirst(draw, pages, |pages|);
    EarlierObjects(draw, pages, 0, |pages|);
    assert FixedObjects() <= ObjectsUpTo(draw, pages, |pages|);
  }

  lemma FontAt(objects: seq<PdfObject>, number: nat, name: string)
    requires 0 < number <= |objects| && objects[number - 1] == Font(name)
    ensures var bodies := Bodies(Texts(objects));
            |bodies| == |objects| && ReadFont(bodies[number - 1]) == Some(Utf8(name))
  {
    ObjectBodyAt(Render, objects, number, Font(name));
    FontReads(name);
  }

  // ---- The document

  /** What a page shows: its content stream, and the target of each of its annotations. */
  datatype PageRead = PageRead(contents: Bytes, links: seq<Option<Bytes>>)

  function ReadPage(bodies: seq<Bytes>, number: nat): Option<PageRead> {
    match BodyAt(bodies, number)
    case None => None
    case Some(page) =>
      match ReadPageDict(page)
      case None => None
      case Some((contents, annots)) =>
        match BodyAt(bodies, contents)
        case None => None
        case Some(content) =>
          match ReadStream(content)
          case None => None
          case Some(data) => Some(PageRead(data, ReadLinks(bodies, annots)))
  }

  function ReadKids(bodies: seq<Bytes>, root: nat): Option<seq<nat>> {
    match BodyAt(bodies, root)
    case None => None
    case Some(catalog) =>
      match ReadCatalog(catalog)
      case None => None
      case Some(tree) =>
        match BodyAt(bodies, tree)
        case None => None
        case Some(body) => ReadPageTree(body)
  }

  function ReadPages(bodies: seq<Bytes>, kids: seq<nat>): seq<Option<PageRead>> {
    seq(|kids|, k requires 0 <= k < |kids| => ReadPage(bodies, kids[k]))
  }

  /** The pages of a file, in the order of its page tree. */
  function ReadDocument(file: Bytes): Option<seq<Option<PageRead>>> {
    match ReadFile(file)
    case None => None
    case Some(bodies) =>
      match ReadRoot(file)
      case None => None
      case Some(root) =>
        match ReadKids(bodies, root)
        case None => None
        case Some(kids) => Some(ReadPages(bodies, kids))
  }

  /** All links, page after page. */
  function AllLinks(pages: seq<Option<PageRead>>): seq<Option<Bytes>> {
    if pages == [] then []
    else
      var last := pages[|pages| - 1];
      AllLinks(pages[..|pages| - 1]) + (if last.Some? then last.value.links else [])
  }

  /** What a reader should see of the pages that the items were split into. */
  function Shown(draw: Drawing, split: seq<seq<Item>>): seq<Option<PageRead>> {
    var pages := PlaceAll(Height, split);
    seq(|split|, k requires 0 <= k < |split| =>
      Some(PageRead(Utf8(draw(pages[k], k, |pages|)), Expected(Urls(split[k])))))
  }

  lemma CatalogAt(draw: Drawing, pages: seq<seq<PlacedItem>>, bodies: seq<Bytes>)
    requires bodies == Bodies(Texts(Objects(draw, pages)))
    ensures BodyAt(bodies, 1) == Some(BodyOf(CatalogText(PAGES_NUMBER)))
    ensures BodyAt(bodies, PAGES_NUMBER) == Some(BodyOf(PagesText(PageNumbers(draw, pages, |pages|))))
  {
    FixedFirst(draw, pages, |pages|);
    ObjectBodyAt(Render, Objects(draw, pages), 1, Catalog);
    ObjectBodyAt(Render, Objects(draw, pages), PAGES_NUMBER, PageTree(PageNumbers(draw, pages, |pages|)));
  }

  lemma KidsRead(draw: Drawing, pages: seq<seq<PlacedItem>>, bodies: seq<Bytes>)
    requires bodies == Bodies(Texts(Objects(draw, pages)))
    ensures ReadKids(bodies, 1) == Some(PageNumbers(draw, pages, |pages|))
  {
    CatalogAt(draw, pages, bodies);
    CatalogReads(PAGES_NUMBER);
    PageTreeReads(PageNumbers(draw, pages, |pages|));
  }

  lemma PageDictAt(draw: Drawing, pages: seq<seq<PlacedItem>>, k: nat, bodies: seq<Bytes>)
    requires k < |pages| && bodies == Bodies(Texts(Objects(draw, pages)))
    ensures var body := BodyAt(bodies, PageNumber(draw, pages, k));
            body.Some? && ReadPageDict(body.value) ==
                Some((ContentsNumber(draw, pages, k), AnnotNumbers(draw, pages, k)))
  {
    PagePartsAt(draw, pages, k);
    PageObjectReads(Objects(draw, pages), PageNumber(draw, pages, k), ContentsNumber(draw, pages, k),
                    AnnotNumbers(draw, pages, k), bodies);
  }

  lemma PageObjectReads(objects: seq<PdfObject>, number: nat, contents: nat, annots: seq<nat>, bodies: seq<Bytes>)
    requires 0 < number <= |objects| && objects[number - 1] == Page(contents, annots)
    requires bodies == Bodies(Texts(objects))
    ensures var body := BodyAt(bodies, number);
            body.Some? && ReadPageDict(body.value) == Some((contents, annots))
  {
    ObjectBodyAt(Render, objects, number, Page(contents, annots));
    PageRenderReads(contents, annots);
  }

  lemma PageRenderReads(contents: nat, annots: seq<nat>)
    ensures ReadPageDict(BodyOf(Render(Page(contents, annots)))) == Some((contents, annots))
  {
    PageDictReads(contents, annots);
  }

  lemma PageReads(draw: Drawing, split: seq<seq<Item>>, k: nat, bodies: seq<Bytes>)
    requires k < |split| && Total(Height, split[k]) <= ROOM
              && bodies == Bodies(Texts(Objects(draw, PlaceAll(Height, split))))
    ensures ReadPage(bodies, PageNumber(draw, PlaceAll(Height, split), k)) == Shown(draw, split)[k]
  {
    var pages := PlaceAll(Height, split);
    PageDictAt(draw, pages, k, bodies);
    ContentsReadBack(draw, pages, k);
    PageLinksReadBack(draw, split, k, bodies);
  }

  lemma PagesRead(draw: Drawing, split: seq<seq<Item>>, bodies: seq<Bytes>)
    requires forall k | 0 <= k < |split| :: Total(Height, split[k]) <= ROOM
    requires bodies == Bodies(Texts(Objects(draw, PlaceAll(Height, split))))
    ensures var pages := PlaceAll(Height, split);
            ReadPages(bodies, PageNumbers(draw, pages, |pages|)) == Shown(draw, split)
  {
    var pages := PlaceAll(Height, split);
    var kids := PageNumbers(draw, pages, |pages|);
    forall k | 0 <= k < |split| ensures ReadPages(bodies, kids)[k] == Shown(draw, split)[k] {
      PageReads(draw, split, k, bodies);
    }
  }

  lemma {:induction false} LinksShown(draw: Drawing, split: seq<seq<Item>>, n: nat)
    requires n <= |split|
    ensures AllLinks(Shown(draw, split)[..n]) == Expected(Urls(Concat(split[..n])))
  {
    if n == 0 {
      assert split[..0] == [] && Concat(split[..0]) == [];
    } else {
      LinksShown(draw, split, n - 1);
      var shown := Shown(draw, split);
      assert shown[..n][..n - 1] == shown[..n - 1];
      UrlsOfPages(split, n);
    }
  }

  lemma ReadDocumentSteps(file: Bytes, bodies: seq<Bytes>, root: nat, kids: seq<nat>)
    requires ReadFile(file) == Some(bodies) && ReadRoot(file) == Some(root) && ReadKids(bodies, root) == Some(kids)
    ensures ReadDocument(file) == Some(ReadPages(bodies, kids))
  {
  }

  lemma DocumentFrom(draw: Drawing, data: seq<Phase>, bodies: seq<Bytes>, file: Bytes)
    requires bodies == Bodies(Texts(Objects(draw, PagesOf(data))))
    requires ReadFile(file) == Some(bodies) && ReadRoot(file) == Some(1)
    ensures ReadDocument(file) == Some(Shown(draw, Greedy(Height, Flatten(data))))
  {
    var split, pages := Greedy(Height, Flatten(data)), PagesOf(data);
    GreedyIsSplit(Height, Flatten(data));
    KidsRead(draw, pages, bodies);
    PagesRead(draw, split, bodies);
    ReadDocumentSteps(file, bodies, 1, PageNumbers(draw, pages, |pages|));
  }

  lemma LinksOfData(draw: Drawing, data: seq<Phase>)
    ensures AllLinks(Shown(draw, Greedy(Height, Flatten(data)))) == Expected(Urls(Flatten(data)))
  {
    var split := Greedy(Height, Flatten(data));
    GreedyIsSplit(Height, Flatten(data));
    LinksShown(draw, split, |split|);
    assert Shown(draw, split)[..|split|] == Shown(draw, split) && split[..|split|] == split;
  }

  /**
   * The bytes of the file are enough to see every page: reading from the trailer through catalog,
   * page tree and pages gives each page's drawing and links, and all links together are the
   * addresses of all steps in the order of the data, up to line endings.
   */
  lemma DocumentReadsBack(draw: Drawing, data: seq<Phase>, header: Bytes)
    requires var bodies := Bodies(Texts(Objects(draw, PagesOf(data))));
             OffsetOf(header, bodies, |bodies|) < OFFSET_LIMIT
    ensures var file := FileBytes(header, Bodies(Texts(Objects(draw, PagesOf(data)))), 1);
            var shown := Shown(draw, Greedy(Height, Flatten(data)));
            && ReadDocument(file) == Some(shown)
            && AllLinks(shown) == Expected(Urls(Flatten(data)))
  {
    var bodies := Bodies(Texts(Objects(draw, PagesOf(data))));
    FileReadsBack(header, bodies, 1);
    RootReadsBack(header, bodies, 1);
    DocumentFrom(draw, data, bodies, FileBytes(header, bodies, 1));
    LinksOfData(draw, data);
  }
}
