/**
 * SimplePDFBuilder: pages of drawing operators and links, turned into a numbered object table and
 * a file. Coordinates arrive already formatted, so that number formatting stays outside the model.
 */
module PdfBuilder {
  import opened Common
  import opened PdfText
  import opened PdfFile
  import opened PdfRefs

  datatype Annotation = Annotation(rect: string, url: string)

  /** A page under construction. */
  datatype PageDef = PageDef(ops: seq<string>, annots: seq<Annotation>)

  /** Dictionaries by role; `PageTree` is written last, over whatever object 2 was. */
  datatype Dict =
    | Catalog
    | PageTree(kids: seq<nat>)
    | Font(name: string)
    | Length(n: nat)
    | Link(annotation: Annotation)
    | Page(contents: nat, fonts: seq<nat>, annots: seq<nat>)

  datatype Obj = Obj(id: nat, dict: Dict, stream: string)

  function JoinLines(ops: seq<string>): string {
    if ops == [] then ""
    else if |ops| == 1 then ops[0]
    else JoinLines(ops[..|ops| - 1]) + "\n" + ops[|ops| - 1]
  }

  function FontRefs(fonts: seq<nat>): string {
    if fonts == [] then "" else FontRefs(fonts[..|fonts| - 1]) + FontRef(|fonts|, fonts[|fonts| - 1])
  }

  function FontRef(index: nat, number: nat): string {
    "/F" + Decimal(index) + " " + Ref(number) + " "
  }

  /** A link annotation up to its address, which is written as it is. */
  function LinkHead(rect: string): string {
    "/Type /Annot\n/Subtype /Link\n/Rect [" + rect + "]\n/Border [0 0 0]\n/A << /S /URI /URI ("
  }

  /** The lines of a page dictionary behind its fonts. */
  function PageEnd(annots: seq<nat>): string {
    ">> >>\n" + (if annots == [] then "" else "/Annots [" + Refs(annots) + "]\n")
  }

  /** The key-value lines of a dictionary. */
  function DictLines(d: Dict): string {
    match d
    case Catalog => "/Type /Catalog\n/Pages " + Ref(2) + "\n"
    case PageTree(kids) => "/Type /Pages\n/Kids [" + Refs(kids) + "]\n/Count " + Decimal(|kids|) + "\n"
    case Font(name) => "/Type /Font\n/Subtype /Type1\n/BaseFont /" + name + "\n"
    case Length(n) => "/Length " + Decimal(n) + "\n"
    case Link(a) => LinkHead(a.rect) + a.url + ") >>\n"
    case Page(contents, fonts, annots) =>
      "/Type /Page\n/Parent 2 0 R\n" + "/MediaBox [0 0 595.28 841.89]\n/Contents " + Ref(contents)
      + "\n/Resources << /Font << " + FontRefs(fonts) + PageEnd(annots)
  }

  /** What stands between the head of an object and `endobj`; an empty stream is not written. */
  function BodyText(d: Dict, stream: string): string {
    "<<\n" + DictLines(d) + ">>\n" + (if stream == "" then "" else "stream\n" + stream + "\nendstream\n")
  }

  /** Each object's number and text. */
  function Rendered(objects: seq<Obj>): seq<(nat, string)> {
    seq(|objects|, i requires 0 <= i < |objects| => (objects[i].id, BodyText(objects[i].dict, objects[i].stream)))
  }

  function Bodies(texts: seq<(nat, string)>): seq<Bytes> {
    seq(|texts|, i requires 0 <= i < |texts| => Utf8(texts[i].1))
  }

  predicate Numbered(objects: seq<Obj>) {
    forall i | 0 <= i < |objects| :: objects[i].id == i + 1
  }

  // ---- The object table that build() makes

  function Add(objects: seq<Obj>, d: Dict, stream: string): seq<Obj> {
    objects + [Obj(|objects| + 1, d, stream)]
  }

  const FONTS: seq<string> := ["Helvetica", "Helvetica-Bold", "Courier", "Helvetica-Oblique"]

  function WithFonts(objects: seq<Obj>, n: nat): seq<Obj>
    requires n <= |FONTS|
  {
    if n == 0 then Add(objects, Catalog, "") else Add(WithFonts(objects, n - 1), Font(FONTS[n - 1]), "")
  }

  function WithLinks(objects: seq<Obj>, annots: seq<Annotation>): seq<Obj> {
    if annots == [] then objects else Add(WithLinks(objects, annots[..|annots| - 1]), Link(annots[|annots| - 1]), "")
  }

  /** Contents, links, page. */
  function WithPage(objects: seq<Obj>, page: PageDef, fonts: seq<nat>): seq<Obj> {
    var data := JoinLines(page.ops);
    var started := Add(objects, Length(|Utf8(data)|), data);
    Add(WithLinks(started, page.annots), Page(|started|, fonts, Numbers(|started|, |page.annots|)), "")
  }

  function WithPages(objects: seq<Obj>, pages: seq<PageDef>, fonts: seq<nat>): seq<Obj> {
    if pages == [] then objects
    else WithPage(WithPages(objects, pages[..|pages| - 1], fonts), pages[|pages| - 1], fonts)
  }

  function Kids(objects: seq<Obj>, pages: seq<PageDef>, fonts: seq<nat>): seq<nat> {
    if pages == [] then []
    else Kids(objects, pages[..|pages| - 1], fonts) + [|WithPages(objects, pages, fonts)|]
  }

  lemma {:induction false} FontsAdded(objects: seq<Obj>, n: nat)
    requires n <= |FONTS| && Numbered(objects)
    ensures Numbered(WithFonts(objects, n)) && |WithFonts(objects, n)| == |objects| + 1 + n
    ensures objects <= WithFonts(objects, n)
  {
    if n > 0 {
      FontsAdded(objects, n - 1);
    }
  }

  lemma {:induction false} LinksAdded(objects: seq<Obj>, annots: seq<Annotation>)
    requires Numbered(objects)
    ensures Numbered(WithLinks(objects, annots)) && objects <= WithLinks(objects, annots)
    ensures |WithLinks(objects, annots)| == |objects| + |annots|
    ensures forall j | 0 <= j < |annots| ::
              WithLinks(objects, annots)[|objects| + j] == Obj(|objects| + j + 1, Link(annots[j]), "")
  {
    if annots != [] {
      LinksAdded(objects, annots[..|annots| - 1]);
    }
  }

  lemma {:induction false} PagesAdded(objects: seq<Obj>, pages: seq<PageDef>, fonts: seq<nat>)
    requires Numbered(objects)
    ensures Numbered(WithPages(objects, pages, fonts)) && objects <= WithPages(objects, pages, fonts)
    ensures |Kids(objects, pages, fonts)| == |pages|
  {
    if pages != [] {
      var before := WithPages(objects, pages[..|pages| - 1], fonts);
      var page := pages[|pages| - 1];
      PagesAdded(objects, pages[..|pages| - 1], fonts);
      LinksAdded(Add(before, Length(|Utf8(JoinLines(page.ops))|), JoinLines(page.ops)), page.annots);
    }
  }

  /** The table build() makes of the objects and pages it finds. */
  function Built(objects: seq<Obj>, pages: seq<PageDef>): seq<Obj>
    requires Numbered(objects)
  {
    var fonts := Numbers(|objects| + 1, |FONTS|);
    var fixed := WithFonts(objects, |FONTS|);
    FontsAdded(objects, |FONTS|);
    PagesAdded(fixed, pages, fonts);
    WithPages(fixed, pages, fonts)[1 := Obj(2, PageTree(Kids(fixed, pages, fonts)), "")]
  }

  class SimplePDFBuilder {
    var objects: seq<Obj>
    var pages: seq<PageDef>

    ghost predicate Valid()
      reads this
    {
      Numbered(objects)
    }

    constructor ()
      ensures Valid() && objects == [] && pages == []
    {
      objects, pages := [], [];
    }

    method AddObject(d: Dict, stream: string) returns (id: nat)
      requires Valid()
      modifies this`objects
      ensures Valid() && objects == Add(old(objects), d, stream) && id == |objects|
    {
      id := |objects| + 1;
      objects := objects + [Obj(id, d, stream)];
    }

    method AddPage()
      modifies this`pages
      ensures pages == old(pages) + [PageDef([], [])]
    {
      pages := pages + [PageDef([], [])];
    }

    /** Append an operator to the current page. */
    method PushOp(op: string)
      requires pages != []
      modifies this`pages
      ensures |pages| == |old(pages)| && pages[..|pages| - 1] == old(pages)[..|pages| - 1]
      ensures pages[|pages| - 1] == old(pages)[|pages| - 1].(ops := old(pages)[|pages| - 1].ops + [op])
    {
      var current := pages[|pages| - 1];
      pages := pages[|pages| - 1 := current.(ops := current.ops + [op])];
    }

    /** Show a text: `placement` is everything before the literal string. */
    method DrawText(placement: string, text: string)
      requires pages != []
      modifies this`pages
      ensures |pages| == |old(pages)| && pages[..|pages| - 1] == old(pages)[..|pages| - 1]
      ensures pages[|pages| - 1] == old(pages)[|pages| - 1].(
                ops := old(pages)[|pages| - 1].ops + [placement + "(" + EscapePdf(text) + ") Tj ET"])
    {
      PushOp(placement + "(" + EscapePdf(text) + ") Tj ET");
    }

    method AddLink(rect: string, url: string)
      requires pages != []
      modifies this`pages
      ensures |pages| == |old(pages)| && pages[..|pages| - 1] == old(pages)[..|pages| - 1]
      ensures pages[|pages| - 1] ==
                old(pages)[|pages| - 1].(annots := old(pages)[|pages| - 1].annots + [Annotation(rect, url)])
    {
      var current := pages[|pages| - 1];
      pages := pages[|pages| - 1 := current.(annots := current.annots + [Annotation(rect, url)])];
    }

    method AddLinks(annots: seq<Annotation>) returns (refs: seq<nat>)
      requires Valid()
      modifies this`objects
      ensures Valid() && objects == WithLinks(old(objects), annots)
      ensures refs == Numbers(|old(objects)|, |annots|)
    {
      ghost var before := objects;
      refs := [];
      for i := 0 to |annots|
        invariant Valid() && objects == WithLinks(before, annots[..i]) && |objects| == |before| + i
        invariant refs == Numbers(|before|, i)
      {
        assert annots[..i + 1][..i] == annots[..i];
        var id := AddObject(Link(annots[i]), "");
        refs := refs + [id];
      }
      assert annots[..|annots|] == annots;
    }

    /** The objects of one page: contents, links, page. */
    method AddPageObjects(page: PageDef, fonts: seq<nat>) returns (pId: nat)
      requires Valid()
      modifies this`objects
      ensures Valid() && objects == WithPage(old(objects), page, fonts) && pId == |objects|
    {
      var data := JoinLines(page.ops);
      var contentId := AddObject(Length(|Utf8(data)|), data);
      var annotRefs := AddLinks(page.annots);
      pId := AddObject(Page(contentId, fonts, annotRefs), "");
    }

    /** Fill the object table from the pages. */
    method BuildObjects()
      requires Valid()
      modifies this`objects
      ensures Valid() && objects == Built(old(objects), pages)
    {
      ghost var before := objects;
      var catalogId := AddObject(Catalog, "");
      var fonts: seq<nat> := [];
      for i := 0 to |FONTS|
        invariant Valid() && objects == WithFonts(before, i) && |objects| == |before| + 1 + i
        invariant fonts == Numbers(|before| + 1, i)
      {
        var id := AddObject(Font(FONTS[i]), "");
        fonts := fonts + [id];
      }
      ghost var fixed := objects;
      var pageIds: seq<nat> := [];
      for i := 0 to |pages|
        invariant Valid() && objects == WithPages(fixed, pages[..i], fonts)
        invariant pageIds == Kids(fixed, pages[..i], fonts)
      {
        assert pages[..i + 1][..i] == pages[..i];
        var pId := AddPageObjects(pages[i], fonts);
        pageIds := pageIds + [pId];
      }
      assert pages[..|pages|] == pages;
      PagesAdded(fixed, pages, fonts);
      objects := objects[1 := Obj(2, PageTree(pageIds), "")];
    }

    method Build() returns (file: Bytes)
      requires Valid()
      modifies this`objects
      ensures Valid() && objects == Built(old(objects), pages)
      ensures file == FileBytes(Utf8("%PDF-1.4\n%\U{E2}\U{E3}\U{CF}\U{D3}\n"), Bodies(Rendered(objects)),
                                |old(objects)| + 1)
    {
      var catalogId := |objects| + 1;
      BuildObjects();
      file := WriteFile(HEADER, Rendered(objects), catalogId);
    }
  }

  /** Where the first n objects start. */
  function Starts(texts: seq<(nat, string)>, start: nat, n: nat): seq<nat>
    requires n <= |texts|
  {
    seq(n, k requires 0 <= k < n => start + |ObjectsBytes(Bodies(texts), k)|)
  }

  lemma StartsStep(texts: seq<(nat, string)>, start: nat, n: nat)
    requires n < |texts|
    ensures Starts(texts, start, n + 1) == Starts(texts, start, n) + [start + |ObjectsBytes(Bodies(texts), n)|]
  {
  }

  /** Every object as text, with the running byte offset of each. */
  method Serialize(texts: seq<(nat, string)>, start: nat) returns (text: string, offsets: seq<nat>, end: nat)
    requires forall i | 0 <= i < |texts| :: texts[i].0 == i + 1
    ensures Utf8(text) == ObjectsBytes(Bodies(texts), |texts|)
    ensures offsets == Starts(texts, start, |texts|)
    ensures end == start + |Utf8(text)|
  {
    text, offsets, end := "", [], start;
    for i := 0 to |texts|
      invariant Serializing(texts, start, i, text, offsets, end)
    {
      var str := ObjectText(texts[i].0, texts[i].1);
      OneMoreObject(texts, start, i, text, offsets, end, str);
      offsets := offsets + [end];
      end := end + |Utf8(str)|;
      text := text + str;
    }
  }

  ghost predicate Serializing(texts: seq<(nat, string)>, start: nat, i: nat, text: string, offsets: seq<nat>,
                              end: nat) {
    && i <= |texts| && Utf8(text) == ObjectsBytes(Bodies(texts), i) && end == start + |Utf8(text)|
    && offsets == Starts(texts, start, i)
  }

  lemma OneMoreObject(texts: seq<(nat, string)>, start: nat, i: nat, text: string, offsets: seq<nat>, end: nat,
                      str: string)
    requires i < |texts| && texts[i].0 == i + 1 && Serializing(texts, start, i, text, offsets, end)
    requires str == ObjectText(texts[i].0, texts[i].1)
    ensures Serializing(texts, start, i + 1, text + str, offsets + [end], end + |Utf8(str)|)
  {
    StartsStep(texts, start, i);
    ObjectTextBytes(i + 1, texts[i].1);
    AppendBytes(text, str, ObjectsBytes(Bodies(texts), i), ObjectBytes(i + 1, Bodies(texts)[i]));
  }

  method WriteFile(header: string, texts: seq<(nat, string)>, root: nat) returns (file: Bytes)
    requires forall i | 0 <= i < |texts| :: texts[i].0 == i + 1
    ensures file == FileBytes(Utf8(header), Bodies(texts), root)
  {
    var text, offsets, end := Serialize(texts, |Utf8(header)|);
    OffsetsAreStarts(Utf8(header), texts);
    var tail := WriteTableAndTrailer(offsets, root, end);
    file := Utf8(header) + Utf8(text) + Utf8(tail);
  }

  lemma OffsetsAreStarts(header: Bytes, texts: seq<(nat, string)>)
    ensures Starts(texts, |header|, |texts|) == OffsetsOf(header, Bodies(texts))
  {
  }

  const HEADER := "%PDF-1.4\n%\U{E2}\U{E3}\U{CF}\U{D3}\n"

  // ---- What the built table says

  /** Objects of page k of a builder that holds only pages: the contents number of each page. */
  function ContentsNumber(objects: seq<Obj>, pages: seq<PageDef>, fonts: seq<nat>, k: nat): nat
    requires k < |pages|
  {
    |WithPages(objects, pages[..k], fonts)| + 1
  }

  lemma {:induction false} EarlierPages(objects: seq<Obj>, pages: seq<PageDef>, fonts: seq<nat>, k: nat)
    requires Numbered(objects) && k <= |pages|
    ensures WithPages(objects, pages[..k], fonts) <= WithPages(objects, pages, fonts)
    ensures |Kids(objects, pages, fonts)| == |pages|
    ensures k > 0 ==> Kids(objects, pages, fonts)[k - 1] == |WithPages(objects, pages[..k], fonts)|
    decreases |pages|
  {
    PagesAdded(objects, pages, fonts);
    if k < |pages| {
      var init := pages[..|pages| - 1];
      assert init[..k] == pages[..k];
      EarlierPages(objects, init, fonts, k);
      PagesAdded(objects, init, fonts);
      var before := WithPages(objects, init, fonts);
      var page := pages[|pages| - 1];
      LinksAdded(Add(before, Length(|Utf8(JoinLines(page.ops))|), JoinLines(page.ops)), page.annots);
    } else {
      assert pages[..k] == pages;
    }
  }

  /** The three parts of a page sit next to each other. */
  lemma PageParts(objects: seq<Obj>, page: PageDef, fonts: seq<nat>)
    requires Numbered(objects)
    ensures var after, n, data := WithPage(objects, page, fonts), |objects|, JoinLines(page.ops);
            && |after| == n + |page.annots| + 2
            && objects <= after
            && after[n] == Obj(n + 1, Length(|Utf8(data)|), data)
            && (forall j | 0 <= j < |page.annots| :: after[n + 1 + j] == Obj(n + 2 + j, Link(page.annots[j]), ""))
            && after[|after| - 1] == Obj(|after|, Page(n + 1, fonts, Numbers(n + 1, |page.annots|)), "")
  {
    LinksAdded(Add(objects, Length(|Utf8(JoinLines(page.ops))|), JoinLines(page.ops)), page.annots);
  }

  /** Page k, right after it has been added. */
  lemma PageJustAdded(fixed: seq<Obj>, pages: seq<PageDef>, fonts: seq<nat>, k: nat)
    requires Numbered(fixed) && k < |pages|
    ensures WithPages(fixed, pages[..k + 1], fonts) == WithPage(WithPages(fixed, pages[..k], fonts), pages[k], fonts)
    ensures Numbered(WithPages(fixed, pages[..k], fonts)) && |fixed| <= |WithPages(fixed, pages[..k], fonts)|
  {
    assert pages[..k + 1][..k] == pages[..k];
    PagesAdded(fixed, pages[..k], fonts);
  }

  /** Page k, seen in the table after all pages. */
  lemma PageInTable(fixed: seq<Obj>, pages: seq<PageDef>, fonts: seq<nat>, k: nat)
    requires Numbered(fixed) && k < |pages|
    ensures var n := |WithPages(fixed, pages[..k], fonts)|;
            && |fixed| <= n && HoldsPage(WithPages(fixed, pages, fonts), n, pages[k], fonts)
            && |Kids(fixed, pages, fonts)| == |pages|
            && Kids(fixed, pages, fonts)[k] == n + |pages[k].annots| + 2
  {
    PageJustAdded(fixed, pages, fonts, k);
    EarlierPages(fixed, pages, fonts, k + 1);
    PageStays(WithPages(fixed, pages[..k], fonts), pages[k], fonts, WithPages(fixed, pages, fonts));
  }

  /** Contents, links and page stand behind the first n objects of a table. */
  ghost predicate HoldsPage(all: seq<Obj>, n: nat, page: PageDef, fonts: seq<nat>) {
    var data, links := JoinLines(page.ops), |page.annots|;
    && n + links + 2 <= |all|
    && all[n] == Obj(n + 1, Length(|Utf8(data)|), data)
    && (forall j | 0 <= j < links :: all[n + 1 + j] == Obj(n + 2 + j, Link(page.annots[j]), ""))
    && all[n + links + 1] == Obj(n + links + 2, Page(n + 1, fonts, Numbers(n + 1, links)), "")
  }

  /** The objects of one page keep their places in a longer table. */
  lemma PageStays(objects: seq<Obj>, page: PageDef, fonts: seq<nat>, all: seq<Obj>)
    requires Numbered(objects) && WithPage(objects, page, fonts) <= all
    ensures |objects| + |page.annots| + 2 == |WithPage(objects, page, fonts)|
    ensures HoldsPage(all, |objects|, page, fonts)
  {
    PageParts(objects, page, fonts);
    PrefixAt(WithPage(objects, page, fonts), all);
  }

  lemma PrefixAt(a: seq<Obj>, b: seq<Obj>)
    requires a <= b
    ensures forall i | 0 <= i < |a| :: b[i] == a[i]
  {
  }

  lemma FixedTable()
    ensures var fixed := WithFonts([], |FONTS|);
            && Numbered(fixed) && |fixed| == 5 && fixed[0] == Obj(1, Catalog, "")
            && fixed[2] == Obj(3, Font("Helvetica-Bold"), "") && fixed[3] == Obj(4, Font("Courier"), "")
            && fixed[4] == Obj(5, Font("Helvetica-Oblique"), "")
    ensures Numbers(1, |FONTS|) == [2, 3, 4, 5]
  {
    FontsAdded([], |FONTS|);
    assert WithFonts([], 4) == Add(WithFonts([], 3), Font(FONTS[3]), "");
    assert WithFonts([], 3) == Add(WithFonts([], 2), Font(FONTS[2]), "");
    assert WithFonts([], 2) == Add(WithFonts([], 1), Font(FONTS[1]), "");
    assert WithFonts([], 1) == Add(WithFonts([], 0), Font(FONTS[0]), "");
  }

  /** From the catalog, kid k of the page tree is this page: its text, its links and these fonts. */
  ghost predicate Resolves(objects: seq<Obj>, count: nat, k: nat, page: PageDef, fonts: seq<nat>) {
    && |objects| >= 5 && objects[1].dict.PageTree? && objects[1].stream == ""
    && var kids := objects[1].dict.kids;
    && k < count == |kids| && 5 < kids[k] <= |objects|
    && objects[kids[k] - 1].dict.Page? && objects[kids[k] - 1].stream == ""
    && var made := objects[kids[k] - 1].dict;
    && made.fonts == fonts && 5 < made.contents <= |objects|
    && objects[made.contents - 1].stream == JoinLines(page.ops)
    && objects[made.contents - 1].dict == Length(|Utf8(JoinLines(page.ops))|)
    && |made.annots| == |page.annots|
    && forall j | 0 <= j < |page.annots| ::
         && 5 < made.annots[j] <= |objects|
         && objects[made.annots[j] - 1].dict == Link(page.annots[j]) && objects[made.annots[j] - 1].stream == ""
  }

  /**
   * The page tree lists one page per page built, in order; each page names its own content stream
   * (with the length of its text) and its own links in order.
   */
  lemma PagesResolve(pages: seq<PageDef>, k: nat)
    requires k < |pages|
    ensures |Built([], pages)| >= 5 && Built([], pages)[0] == Obj(1, Catalog, "")
    ensures Resolves(Built([], pages), |pages|, k, pages[k], [2, 3, 4, 5])
  {
    FixedTable();
    var fixed, fonts := WithFonts([], |FONTS|), Numbers(1, |FONTS|);
    PageResolvesIn(fixed, fonts, pages, k, Obj(2, PageTree(Kids(fixed, pages, fonts)), ""));
  }

  /** The same for any table of fixed objects. */
  lemma PageResolvesIn(fixed: seq<Obj>, fonts: seq<nat>, pages: seq<PageDef>, k: nat, second: Obj)
    requires Numbered(fixed) && |fixed| >= 5 && k < |pages|
    requires second == Obj(2, PageTree(Kids(fixed, pages, fonts)), "")
    ensures |WithPages(fixed, pages, fonts)| >= 5 && WithPages(fixed, pages, fonts)[0] == fixed[0]
    ensures Resolves(WithPages(fixed, pages, fonts)[1 := second], |pages|, k, pages[k], fonts)
  {
    PagesAdded(fixed, pages, fonts);
    PageInTable(fixed, pages, fonts, k);
    var all, n := WithPages(fixed, pages, fonts), |WithPages(fixed, pages[..k], fonts)|;
    PartsResolve(all, second, |pages|, k, n, pages[k], fonts);
  }

  /** The parts of a page refer to each other in the finished table. */
  lemma PartsResolve(all: seq<Obj>, second: Obj, count: nat, k: nat, n: nat, page: PageDef, fonts: seq<nat>)
    requires 5 <= n && HoldsPage(all, n, page, fonts)
    requires second.dict.PageTree? && second.stream == ""
    requires k < count == |second.dict.kids| && second.dict.kids[k] == n + |page.annots| + 2
    ensures Resolves(all[1 := second], count, k, page, fonts)
  {
    forall j | 0 <= j < |page.annots|
      ensures Numbers(n + 1, |page.annots|)[j] - 1 == n + 1 + j
      ensures all[n + 1 + j] == Obj(n + 2 + j, Link(page.annots[j]), "")
    {
    }
  }

  /** However many pages there are, the catalog comes first and the page tree lists them. */
  lemma TreeLists(pages: seq<PageDef>)
    ensures var objects := Built([], pages);
            && |objects| >= 5 && objects[0] == Obj(1, Catalog, "")
            && objects[1].dict.PageTree? && |objects[1].dict.kids| == |pages| && objects[1].stream == ""
  {
    FixedTable();
    PagesAdded(WithFonts([], |FONTS|), pages, Numbers(1, |FONTS|));
  }

  /**
   * Font /F1 of every page is object 2, and object 2 is the page tree: the Helvetica font object
   * that was there has been overwritten. The other three fonts resolve.
   */
  lemma FirstFontIsOverwritten(pages: seq<PageDef>)
    ensures var objects := Built([], pages);
            && |objects| >= 5
            && objects[1].dict.PageTree?
            && objects[2] == Obj(3, Font("Helvetica-Bold"), "") && objects[3] == Obj(4, Font("Courier"), "")
            && objects[4] == Obj(5, Font("Helvetica-Oblique"), "")
  {
    FixedTable();
    PagesAdded(WithFonts([], |FONTS|), pages, Numbers(1, |FONTS|));
  }

  lemma ContentsText(d: string, data: string)
    ensures "<<\n" + ("/Length " + d + "\n") + ">>\n" + ("stream\n" + data + "\nendstream\n")
         == "<<" + "\n" + "/Length " + d + "\n" + ">>\nstream\n" + data + "\nendstream\n"
  {
    assert "<<\n" == "<<" + "\n" && ">>\nstream\n" == ">>\n" + "stream\n";
    RegroupStream("<<", "\n", "/Length ", d, "\n", ">>\n", "stream\n", data, "\nendstream\n");
  }

  lemma RegroupStream(a: string, b: string, c: string, d: string, e: string, f: string, g: string, h: string, i: string)
    ensures a + b + (c + d + e) + f + (g + h + i) == a + b + c + d + e + (f + g) + h + i
  {
  }

  /** A content stream that is not empty is delimited by its /Length. */
  lemma ContentsReadBack(data: string)
    requires data != ""
    ensures ReadStream(Utf8(BodyText(Length(|Utf8(data)|), data))) == Some(Utf8(data))
  {
    ContentsText(Decimal(|Utf8(data)|), data);
    StreamReadsBack("\n", "\n", data);
  }

  // ---- Links

  lemma LinkTextParts(head: string, url: string)
    ensures "<<\n" + (head + url + ") >>\n") + ">>\n" + "" == "<<\n" + head + url + (")" + " >>\n>>\n")
  {
    assert ") >>\n" + ">>\n" == ")" + " >>\n>>\n";
  }

  /**
   * A link's address stands unescaped between parentheses: a reader of literal strings gets it back
   * exactly when its parentheses balance and it holds no backslash and no carriage return.
   */
  lemma LinkReadsBackIff(a: Annotation) returns (head: Bytes, address: Bytes)
    ensures Utf8(BodyText(Link(a), "")) == head + address && head == Utf8("<<\n" + LinkHead(a.rect))
    ensures LexString(address, 0) == Some((Utf8(a.url), Ascii(" >>\n>>\n"))) <==> NeedsNoEscape(Utf8(a.url), 0)
  {
    var open, rest := "<<\n" + LinkHead(a.rect), " >>\n>>\n";
    head, address := Utf8(open), Utf8(a.url) + [CLOSE] + Ascii(rest);
    LinkTextParts(LinkHead(a.rect), a.url);
    LinkEnd();
    Utf8Append(open + a.url, ")" + rest);
    Utf8Append(open, a.url);
    Regroup(head, Utf8(a.url), Utf8(")" + rest));
    Regroup(Utf8(a.url), [CLOSE], Ascii(rest));
    UnescapedReadsIff(Utf8(a.url), 0, Ascii(rest));
  }

  lemma LinkEnd()
    ensures Utf8(")" + " >>\n>>\n") == [CLOSE] + Ascii(" >>\n>>\n")
  {
    AsciiIsUtf8(")" + " >>\n>>\n");
    AsciiAppend(")", " >>\n>>\n");
  }
}
