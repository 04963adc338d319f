/**
 * The link-list PDF: the object table, the file, and reading the links back out of the bytes.
 * The drawing operators of a page are a parameter; everything else is the script's own text.
 */
module PdfLinks {
  import opened Common
  import opened PdfText
  import opened PdfFile
  import opened Pagination
  import opened PdfPages
  import opened PdfRefs

  /** The content stream of a page, from its items, its index and the number of pages. */
  type Drawing = (seq<PlacedItem>, nat, nat) -> string

  // ---- Objects

  const PAGES_NUMBER: nat := 2
  const FIXED: nat := 5

  function Integer(n: int): string {
    if n < 0 then "-" + Decimal(-n) else Decimal(n)
  }

  /** The link annotation of a step drawn at height y. */
  function AnnotText(y: int, url: string): string {
    "<< /Type /Annot /Subtype /Link /Rect [92 " + Integer(y - 26) + " 560 " + Integer(y + 2)
    + "] /Border [0 0 0] /A << /S /URI /URI (" + EscapePdf(url) + ") >> >>"
  }

  function StreamText(data: string): string {
    "<< /Length " + Decimal(|Utf8(data)|) + " >>\nstream\n" + data + "\nendstream"
  }

  function PageText(contents: nat, annots: seq<nat>): string {
    ("<< /Type /Page /Parent 2 0 R /MediaBox " + "[0 0 612 792] /Resources << /Font << "
     + "/F1 3 0 R /F2 4 0 R /F3 5 0 R " + ">> >> /Contents ") + Ref(contents) + " "
    + (if annots == [] then "" else "/Annots [" + Refs(annots) + "]") + " >>"
  }

  function CatalogText(pages: nat): string {
    "<< /Type /Catalog /Pages " + Ref(pages) + " >>"
  }

  function PagesText(kids: seq<nat>): string {
    "<< /Type /Pages /Kids [" + Refs(kids) + "] /Count " + Decimal(|kids|) + " >>"
  }

  function FontText(name: string): string {
    "<< /Type /Font /Subtype /Type1 /BaseFont /" + name + " >>"
  }

  /** The kinds of object in the table, and the text each is written as. */
  datatype PdfObject =
    | Reserved
    | Catalog
    | PageTree(kids: seq<nat>)
    | Font(name: string)
    | LinkAnnot(y: int, url: string)
    | Contents(data: string)
    | Page(contents: nat, annots: seq<nat>)

  function Render(o: PdfObject): string {
    match o
    case Reserved => ""
    case Catalog => CatalogText(PAGES_NUMBER)
    case PageTree(kids) => PagesText(kids)
    case Font(name) => FontText(name)
    case LinkAnnot(y, url) => AnnotText(y, url)
    case Contents(data) => StreamText(data)
    case Page(contents, annots) => PageText(contents, annots)
  }

  function FixedObjects(): seq<PdfObject> {
    [Reserved, Reserved, Font("Helvetica"), Font("Helvetica-Bold"), Font("Courier")]
  }

  /** The annotations of a page: one per step, in order. */
  function Annots(page: seq<PlacedItem>): seq<PdfObject> {
    if page == [] then []
    else
      var last := page[|page| - 1];
      Annots(page[..|page| - 1]) + (if last.item.StepItem? then [LinkAnnot(last.y, last.item.step.url)] else [])
  }

  /** The objects of one page, when `from` objects come before it: annotations, contents, page. */
  function PageObjects(draw: Drawing, page: seq<PlacedItem>, index: nat, total: nat, from: nat): seq<PdfObject> {
    var annots := Annots(page);
    annots + [Contents(draw(page, index, total)), Page(from + |annots| + 1, Numbers(from, |annots|))]
  }

  function ObjectsUpTo(draw: Drawing, pages: seq<seq<PlacedItem>>, n: nat): seq<PdfObject>
    requires n <= |pages|
  {
    if n == 0 then FixedObjects()
    else
      var before := ObjectsUpTo(draw, pages, n - 1);
      before + PageObjects(draw, pages[n - 1], n - 1, |pages|, |before|)
  }

  /** The object number of page k. */
  function PageNumber(draw: Drawing, pages: seq<seq<PlacedItem>>, k: nat): nat
    requires k < |pages|
  {
    |ObjectsUpTo(draw, pages, k + 1)|
  }

  function PageNumbers(draw: Drawing, pages: seq<seq<PlacedItem>>, n: nat): seq<nat>
    requires n <= |pages|
  {
    seq(n, k requires 0 <= k < n => PageNumber(draw, pages, k))
  }

  lemma PageNumbersStep(draw: Drawing, pages: seq<seq<PlacedItem>>, k: nat)
    requires k < |pages|
    ensures PageNumbers(draw, pages, k + 1) == PageNumbers(draw, pages, k) + [PageNumber(draw, pages, k)]
  {
  }

  lemma {:induction false} FixedFirst(draw: Drawing, pages: seq<seq<PlacedItem>>, n: nat)
    requires n <= |pages|
    ensures |ObjectsUpTo(draw, pages, n)| >= FIXED
  {
    if n > 0 {
      FixedFirst(draw, pages, n - 1);
    }
  }

  /** Fill in the two places reserved for the catalog and the page tree. */
  function Finish(objects: seq<PdfObject>, kids: seq<nat>): seq<PdfObject>
    requires |objects| >= FIXED
  {
    objects[0 := Catalog][PAGES_NUMBER - 1 := PageTree(kids)]
  }

  /** The finished object table. */
  function Objects(draw: Drawing, pages: seq<seq<PlacedItem>>): seq<PdfObject> {
    FixedFirst(draw, pages, |pages|);
    Finish(ObjectsUpTo(draw, pages, |pages|), PageNumbers(draw, pages, |pages|))
  }

  method AddAnnotations(before: seq<PdfObject>, page: seq<PlacedItem>)
    returns (objects: seq<PdfObject>, annotations: seq<nat>)
    ensures objects == before + Annots(page)
    ensures annotations == Numbers(|before|, |Annots(page)|)
  {
    objects, annotations := before, [];
    for i := 0 to |page|
      invariant objects == before + Annots(page[..i])
      invariant annotations == Numbers(|before|, |Annots(page[..i])|)
    {
      assert page[..i + 1][..i] == page[..i];
      var p := page[i];
      if p.item.StepItem? {
        objects := objects + [LinkAnnot(p.y, p.item.step.url)];
        annotations := annotations + [|objects|];
      }
    }
    assert page[..|page|] == page;
  }

  method AddPage(draw: Drawing, before: seq<PdfObject>, page: seq<PlacedItem>, index: nat, total: nat)
    returns (objects: seq<PdfObject>)
    ensures objects == before + PageObjects(draw, page, index, total, |before|)
  {
    var annotations;
    objects, annotations := AddAnnotations(before, page);
    objects := objects + [Contents(draw(page, index, total))];
    objects := objects + [Page(|objects|, annotations)];
  }

  method BuildObjects(draw: Drawing, pages: seq<seq<PlacedItem>>) returns (objects: seq<PdfObject>)
    ensures objects == Objects(draw, pages)
  {
    objects := FixedObjects();
    var pageObjNums: seq<nat> := [];
    for pageIdx := 0 to |pages|
      invariant objects == ObjectsUpTo(draw, pages, pageIdx)
      invariant pageObjNums == PageNumbers(draw, pages, pageIdx)
    {
      objects := AddPage(draw, objects, pages[pageIdx], pageIdx, |pages|);
      PageNumbersStep(draw, pages, pageIdx);
      pageObjNums := pageObjNums + [|objects|];
    }
    FixedFirst(draw, pages, |pages|);
    objects := Finish(objects, pageObjNums);
  }

  // ---- The file

  const HEADER := "%PDF-1.4\n%\U{FF}\U{FF}\U{FF}\U{FF}\n"

  /** What stands between the head of an object and `endobj`. */
  function Bodies(texts: seq<string>): seq<Bytes> {
    Mapped(BodyOf, texts)
  }

  function BodyOf(text: string): Bytes {
    Utf8(text + "\n")
  }

  function Texts(objects: seq<PdfObject>): seq<string> {
    Mapped(Render, objects)
  }

  function FileText(header: string, texts: seq<string>, n: nat): string
    requires n <= |texts|
  {
    if n == 0 then header else FileText(header, texts, n - 1) + ObjectText(n, texts[n - 1] + "\n")
  }

  lemma {:induction false} FileTextBytes(header: string, texts: seq<string>, n: nat)
    requires n <= |texts|
    ensures Utf8(FileText(header, texts, n)) == Utf8(header) + ObjectsBytes(Bodies(texts), n)
  {
    if n == 0 {
      assert Utf8(header) + [] == Utf8(header);
    } else {
      FileTextBytes(header, texts, n - 1);
      ObjectTextBytes(n, texts[n - 1] + "\n");
      assert Bodies(texts)[n - 1] == BodyOf(texts[n - 1]);
      Extend(FileText(header, texts, n - 1), ObjectText(n, texts[n - 1] + "\n"), Utf8(header),
             ObjectsBytes(Bodies(texts), n - 1), ObjectBytes(n, BodyOf(texts[n - 1])));
    }
  }

  lemma Extend(before: string, text: string, header: Bytes, objects: Bytes, bytes: Bytes)
    requires Utf8(before) == header + objects && Utf8(text) == bytes
    ensures Utf8(before + text) == header + (objects + bytes)
  {
    AppendBytes(before, text, header + objects, bytes);
    Regroup(header, objects, bytes);
  }

  method WriteObjects(header: string, texts: seq<string>) returns (pdf: string, offsets: seq<nat>)
    ensures pdf == FileText(header, texts, |texts|)
    ensures offsets == OffsetsOf(Utf8(header), Bodies(texts))
  {
    pdf, offsets := header, [];
    for i := 0 to |texts|
      invariant pdf == FileText(header, texts, i)
      invariant |offsets| == i && forall k | 0 <= k < i :: offsets[k] == OffsetOf(Utf8(header), Bodies(texts), k)
    {
      FileTextBytes(header, texts, i);
      offsets := offsets + [|Utf8(pdf)|];
      pdf := pdf + ObjectText(i + 1, texts[i] + "\n");
    }
  }

  /** The bytes written for an object table: header, texts, cross-reference table and trailer. */
  method WriteFile(header: string, texts: seq<string>) returns (file: Bytes)
    ensures file == FileBytes(Utf8(header), Bodies(texts), 1)
  {
    var pdf, offsets := WriteObjects(header, texts);
    FileTextBytes(header, texts, |texts|);
    var xrefOffset := |Utf8(pdf)|;
    var tail := WriteTableAndTrailer(offsets, 1, xrefOffset);
    Utf8Append(pdf, tail);
    file := Utf8(pdf + tail);
  }

  function PagesOf(data: seq<Phase>): seq<seq<PlacedItem>> {
    PlaceAll(Height, Greedy(Height, Flatten(data)))
  }

  method BuildPdfBuffer(draw: Drawing, data: seq<Phase>) returns (file: Bytes)
    ensures file == FileBytes(Utf8("%PDF-1.4\n%\U{FF}\U{FF}\U{FF}\U{FF}\n"),
                              Bodies(Texts(Objects(draw, PagesOf(data)))), 1)
  {
    var items := FlattenItems(data);
    var pages := Paginate(Height, items);
    var objects := BuildObjects(draw, pages);
    file := WriteFile(HEADER, Texts(objects));
  }
}
