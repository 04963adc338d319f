/** Reading the generated link document: its pages, content streams and links come back from the bytes. */
module PdfReadBack {
  import opened Common
  import opened PdfText
  import opened PdfFile
  import opened Pagination
  import opened PdfPages
  import opened PdfRefs
  import opened PdfLinks

  // ---- One annotation

  const ANNOT_OPEN := "<< /Type /Annot /Subtype /Link /Rect [92 "
  const ANNOT_URI := "] /Border [0 0 0] /A << /S /URI /URI ("
  const ANNOT_CLOSE := ") >> >>"

  /** The lower and upper edge of the rectangle of a link annotation, and its target. */
  function ReadAnnot(body: Bytes): Option<(nat, nat, Bytes)> {
    match Expect(Ascii(ANNOT_OPEN), body)
    case None => None
    case Some(b1) =>
      match ReadNumber(b1)
      case None => None
      case Some((low, b2)) =>
        match Expect(Ascii(" 560 "), b2)
        case None => None
        case Some(b3) =>
          match ReadNumber(b3)
          case None => None
          case Some((high, b4)) =>
            match Expect(Ascii(ANNOT_URI), b4)
            case None => None
            case Some(b5) =>
              match LexString(b5, 0)
              case None => None
              case Some((url, rest)) => if rest == Ascii(" >> >>\n") then Some((low, high, url)) else None
  }

  /** The target of a link annotation object. */
  function ReadLink(body: Bytes): Option<Bytes> {
    match ReadAnnot(body) case None => None case Some((_, _, url)) => Some(url)
  }

  lemma LinkParts(low: nat, high: nat, url: string)
    ensures Utf8(ANNOT_OPEN + Decimal(low) + " 560 " + Decimal(high) + ANNOT_URI + EscapePdf(url)
                 + ANNOT_CLOSE + "\n") ==
              Ascii(ANNOT_OPEN) + Ascii(Decimal(low)) + Ascii(" 560 ") + Ascii(Decimal(high)) + Ascii(ANNOT_URI)
              + Utf8(EscapePdf(url)) + ([CLOSE] + Ascii(" >> >>\n"))
  {
    DecimalReads(low);
    DecimalReads(high);
    AsciiIsUtf8(Decimal(low));
    AsciiIsUtf8(Decimal(high));
    OpenIsAscii();
    UriIsAscii();
    RestIsAscii();
    SixAndRest(ANNOT_OPEN, Decimal(low), " 560 ", Decimal(high), ANNOT_URI, EscapePdf(url), ANNOT_CLOSE, "\n");
  }

  lemma OpenIsAscii()
    ensures Utf8(ANNOT_OPEN) == Ascii(ANNOT_OPEN)
  {
    AsciiIsUtf8(ANNOT_OPEN);
  }

  lemma UriIsAscii()
    ensures Utf8(ANNOT_URI) == Ascii(ANNOT_URI)
  {
    AsciiIsUtf8(ANNOT_URI);
  }

  lemma RestIsAscii()
    ensures Utf8(" 560 ") == Ascii(" 560 ")
    ensures Utf8(ANNOT_CLOSE + "\n") == [CLOSE] + Ascii(" >> >>\n")
  {
    AsciiIsUtf8(" 560 ");
    AsciiIsUtf8(ANNOT_CLOSE + "\n");
    assert Ascii(ANNOT_CLOSE + "\n") == [CLOSE] + Ascii(" >> >>\n");
  }

  lemma SixAndRest(a: string, b: string, c: string, d: string, e: string, f: string, g: string, h: string)
    ensures Utf8(a + b + c + d + e + f + g + h) ==
              Utf8(a) + Utf8(b) + Utf8(c) + Utf8(d) + Utf8(e) + Utf8(f) + Utf8(g + h)
  {
    assert a + b + c + d + e + f + g + h == a + b + c + d + e + f + (g + h);
    Utf8Append(a + b + c + d + e + f, g + h);
    Utf8Six(a, b, c, d, e, f);
  }

  lemma LinkReads(low: nat, high: nat, escaped: Bytes, url: Bytes)
    requires LexString(escaped + ([CLOSE] + Ascii(" >> >>\n")), 0) == Some((url, Ascii(" >> >>\n")))
    ensures ReadAnnot(Ascii(ANNOT_OPEN) + Ascii(Decimal(low)) + Ascii(" 560 ") + Ascii(Decimal(high))
                      + Ascii(ANNOT_URI) + escaped + ([CLOSE] + Ascii(" >> >>\n"))) == Some((low, high, url))
  {
    var b5 := escaped + ([CLOSE] + Ascii(" >> >>\n"));
    var b4 := Ascii(ANNOT_URI) + b5;
    var b3 := Ascii(Decimal(high)) + b4;
    var b2 := Ascii(" 560 ") + b3;
    var b1 := Ascii(Decimal(low)) + b2;
    NestSeven(Ascii(ANNOT_OPEN), Ascii(Decimal(low)), Ascii(" 560 "), Ascii(Decimal(high)), Ascii(ANNOT_URI), escaped,
        [CLOSE] + Ascii(" >> >>\n"));
    ExpectToken(Ascii(ANNOT_OPEN), b1);
    ReadDecimal(low, b2);
    ExpectToken(Ascii(" 560 "), b3);
    ReadDecimal(high, b4);
    ExpectToken(Ascii(ANNOT_URI), b5);
  }

  lemma Utf8Six(a: string, b: string, c: string, d: string, e: string, f: string)
    ensures Utf8(a + b + c + d + e + f) == Utf8(a) + Utf8(b) + Utf8(c) + Utf8(d) + Utf8(e) + Utf8(f)
  {
    Utf8Append(a + b + c + d + e, f);
    Utf8Append(a + b + c + d, e);
    Utf8Append(a + b + c, d);
    Utf8Append(a + b, c);
    Utf8Append(a, b);
  }

  lemma NestSeven(a: Bytes, b: Bytes, c: Bytes, d: Bytes, e: Bytes, f: Bytes, g: Bytes)
    ensures a + b + c + d + e + f + g == a + (b + (c + (d + (e + (f + g)))))
  {
  }

  /** A link annotation gives back its address, up to line endings, and spans from 26 below to 2 above its step. */
  lemma AnnotReadsBack(y: int, url: string)
    requires y >= 26
    ensures ReadAnnot(Utf8(AnnotText(y, url) + "\n")) == Some((y - 26, y + 2, NormalizeEol(Utf8(url))))
    ensures ReadLink(Utf8(AnnotText(y, url) + "\n")) == Some(NormalizeEol(Utf8(url)))
  {
    AnnotTextIs(y, url);
    LinkParts(y - 26, y + 2, url);
    LinkLexes(url, Ascii(" >> >>\n"));
    LinkReads(y - 26, y + 2, Utf8(EscapePdf(url)), NormalizeEol(Utf8(url)));
  }

  lemma AnnotTextIs(y: int, url: string)
    requires y >= 26
    ensures AnnotText(y, url) + "\n" == ANNOT_OPEN + Decimal(y - 26) + " 560 " + Decimal(y + 2) + ANNOT_URI
                                        + EscapePdf(url) + ANNOT_CLOSE + "\n"
  {
  }

  lemma LinkLexes(url: string, rest: Bytes)
    ensures LexString(Utf8(EscapePdf(url)) + ([CLOSE] + rest), 0) == Some((NormalizeEol(Utf8(url)), rest))
  {
    EscapeRoundTrip(url, rest);
    Regroup(Utf8(EscapePdf(url)), [CLOSE], rest);
  }

  // ---- The addresses on a page and in the document

  function Urls(items: seq<Item>): seq<string> {
    if items == [] then []
    else Urls(items[..|items| - 1]) + (if items[|items| - 1].StepItem? then [items[|items| - 1].step.url] else [])
  }

  lemma {:induction false} UrlsAppend(a: seq<Item>, b: seq<Item>)
    ensures Urls(a + b) == Urls(a) + Urls(b)
  {
    if b == [] {
      assert a + b == a;
    } else {
      UrlsAppend(a, b[..|b| - 1]);
      assert (a + b)[..|a + b| - 1] == a + b[..|b| - 1];
    }
  }

  /** Annotation j of a page links to the address of its step j, from within the page. */
  lemma {:induction false} AnnotsAreUrls(page: seq<Item>, n: nat, j: nat)
    requires n <= |page| && Total(Height, page) <= ROOM
    ensures |Annots(Place(Height, page)[..n])| == |Urls(page[..n])|
    ensures j < |Urls(page[..n])| ==>
              var annot := Annots(Place(Height, page)[..n])[j];
              annot.LinkAnnot? && annot.y >= 26 && annot.url == Urls(page[..n])[j]
    decreases n
  {
    if n > 0 {
      var placed, items := Place(Height, page)[..n], page[..n];
      AnnotsAreUrls(page, n - 1, j);
      assert placed[..n - 1] == Place(Height, page)[..n - 1] && items[..n - 1] == page[..n - 1];
      PlacedWithinMargins(Height, page, n - 1);
    }
  }

  // ---- Finding the objects of a page

  lemma {:induction false} EarlierObjects(draw: Drawing, pages: seq<seq<PlacedItem>>, k: nat, n: nat)
    requires k <= n <= |pages|
    ensures ObjectsUpTo(draw, pages, k) <= ObjectsUpTo(draw, pages, n)
    decreases n
  {
    if k < n {
      EarlierObjects(draw, pages, k, n - 1);
    }
  }

  /** A stretch of a longer list. */
  ghost predicate Inside<T>(all: seq<T>, own: seq<T>, from: nat) {
    from + |own| <= |all| && forall i | 0 <= i < |own| :: all[from + i] == own[i]
  }

  /** Where the objects of page k are in the finished table. */
  lemma PageAt(draw: Drawing, pages: seq<seq<PlacedItem>>, k: nat)
    returns (objects: seq<PdfObject>, own: seq<PdfObject>, from: nat)
    requires k < |pages|
    ensures objects == Objects(draw, pages) && from == |ObjectsUpTo(draw, pages, k)| >= FIXED
    ensures own == PageObjects(draw, pages[k], k, |pages|, from)
    ensures from + |own| == PageNumber(draw, pages, k) && Inside(objects, own, from)
  {
    FixedFirst(draw, pages, k);
    FixedFirst(draw, pages, |pages|);
    EarlierObjects(draw, pages, k + 1, |pages|);
    objects, from := Objects(draw, pages), |ObjectsUpTo(draw, pages, k)|;
    own := PageObjects(draw, pages[k], k, |pages|, from);
    StaysInTable(ObjectsUpTo(draw, pages, k), own, ObjectsUpTo(draw, pages, |pages|),
        PageNumbers(draw, pages, |pages|));
  }

  /** Filling in the reserved places leaves the later objects alone. */
  lemma StaysInTable(before: seq<PdfObject>, own: seq<PdfObject>, all: seq<PdfObject>, kids: seq<nat>)
    requires |before| >= FIXED && before + own <= all
    ensures Inside(Finish(all, kids), own, |before|)
  {
    forall i | 0 <= i < |own| ensures all[|before| + i] == own[i] {
      assert (before + own)[|before| + i] == own[i];
    }
  }

  function AnnotNumbers(draw: Drawing, pages: seq<seq<PlacedItem>>, k: nat): seq<nat>
    requires k < |pages|
  {
    Numbers(|ObjectsUpTo(draw, pages, k)|, |Annots(pages[k])|)
  }

  function ContentsNumber(draw: Drawing, pages: seq<seq<PlacedItem>>, k: nat): nat
    requires k < |pages|
  {
    |ObjectsUpTo(draw, pages, k)| + |Annots(pages[k])| + 1
  }

  /** The objects of page k, in the finished table. */
  lemma OwnAt(draw: Drawing, pages: seq<seq<PlacedItem>>, k: nat)
    returns (objects: seq<PdfObject>, own: seq<PdfObject>, from: nat)
    requires k < |pages|
    ensures objects == Objects(draw, pages) && from == |ObjectsUpTo(draw, pages, k)| >= FIXED
    ensures from + |own| == PageNumber(draw, pages, k) && Inside(objects, own, from)
    ensures var n := |Annots(pages[k])|;
            && |own| == n + 2
            && own[n] == Contents(draw(pages[k], k, |pages|))
                && own[n + 1] == Page(from + n + 1, AnnotNumbers(draw, pages, k))
            && forall j | 0 <= j < n :: own[j] == Annots(pages[k])[j]
  {
    objects, own, from := PageAt(draw, pages, k);
    OwnParts(draw, pages[k], k, |pages|, from);
  }

  lemma PagePartsAt(draw: Drawing, pages: seq<seq<PlacedItem>>, k: nat)
    requires k < |pages|
    ensures var objects, contents, number :=
              Objects(draw, pages), ContentsNumber(draw, pages, k), PageNumber(draw, pages, k);
            && FIXED < contents < number <= |objects|
            && objects[number - 1] == Page(contents, AnnotNumbers(draw, pages, k))
            && objects[contents - 1] == Contents(draw(pages[k], k, |pages|))
  {
    var _, _, _ := PageEndAt(draw, pages, k);
  }

  /** The last two objects of page k: contents and page. */
  lemma PageEndAt(draw: Drawing, pages: seq<seq<PlacedItem>>, k: nat)
    returns (objects: seq<PdfObject>, contents: nat, number: nat)
    requires k < |pages|
    ensures objects == Objects(draw, pages)
    ensures contents == ContentsNumber(draw, pages, k) && number == PageNumber(draw, pages, k)
    ensures FIXED < contents < number <= |objects|
    ensures objects[number - 1] == Page(contents, AnnotNumbers(draw, pages, k))
    ensures objects[contents - 1] == Contents(draw(pages[k], k, |pages|))
  {
    var own, from;
    objects, own, from := OwnAt(draw, pages, k);
    contents, number := ContentsNumber(draw, pages, k), PageNumber(draw, pages, k);
    LastTwo(objects, own, from, contents, number, own[|own| - 2], own[|own| - 1]);
  }

  lemma LastTwo<T>(all: seq<T>, own: seq<T>, from: nat, contents: nat, number: nat, x: T, y: T)
    requires |own| >= 2 && Inside(all, own, from) && x == own[|own| - 2] && y == own[|own| - 1]
    requires contents == from + |own| - 1 && number == from + |own|
    ensures 0 < contents < number <= |all| && all[contents - 1] == x && all[number - 1] == y
  {
    var n := |own| - 2;
    assert all[from + n] == own[n] && all[from + (n + 1)] == own[n + 1];
  }

  lemma OwnParts(draw: Drawing, page: seq<PlacedItem>, index: nat, total: nat, from: nat)
    ensures var own, n := PageObjects(draw, page, index, total, from), |Annots(page)|;
            && |own| == n + 2
            && own[n] == Contents(draw(page, index, total)) && own[n + 1] == Page(from + n + 1, Numbers(from, n))
            && forall j | 0 <= j < n :: own[j] == Annots(page)[j]
  {
  }

  lemma AnnotAt(draw: Drawing, pages: seq<seq<PlacedItem>>, k: nat, j: nat)
    requires k < |pages| && j < |Annots(pages[k])|
    ensures var objects, number := Objects(draw, pages), AnnotNumbers(draw, pages, k)[j];
            FIXED < number < ContentsNumber(draw, pages, k) && number <= |objects|
                && objects[number - 1] == Annots(pages[k])[j]
  {
    var objects, own, from := OwnAt(draw, pages, k);
    OneAt(objects, own, from, j, AnnotNumbers(draw, pages, k)[j]);
  }

  lemma OneAt<T>(all: seq<T>, own: seq<T>, from: nat, j: nat, number: nat)
    requires j < |own| && Inside(all, own, from)
    requires number == from + 1 + j
    ensures number <= |all| && all[number - 1] == own[j]
  {
    assert all[from + j] == own[j];
  }

  /** The objects with these numbers are these annotations. */
  ghost predicate AnnotsHeld(objects: seq<PdfObject>, numbers: seq<nat>, annots: seq<PdfObject>) {
    && |numbers| == |annots|
    && forall j | 0 <= j < |numbers| :: FIXED < numbers[j] <= |objects| && objects[numbers[j] - 1] == annots[j]
  }

  /** From the catalog, kid k of the page tree is a page with these contents and these annotations. */
  ghost predicate Resolves(objects: seq<PdfObject>, n: nat, k: nat, data: string, annots: seq<PdfObject>) {
    && |objects| >= FIXED && objects[0] == Catalog && objects[PAGES_NUMBER - 1].PageTree?
    && var kids := objects[PAGES_NUMBER - 1].kids;
    && k < n == |kids| && FIXED < kids[k] <= |objects| && objects[kids[k] - 1].Page?
    && var page := objects[kids[k] - 1];
    && FIXED < page.contents <= |objects| && objects[page.contents - 1] == Contents(data)
    && AnnotsHeld(objects, page.annots, annots)
  }

  lemma Combine(objects: seq<PdfObject>, n: nat, k: nat, data: string, annots: seq<PdfObject>, number: nat,
                contents: nat, numbers: seq<nat>)
    requires |objects| >= FIXED && objects[0] == Catalog && objects[PAGES_NUMBER - 1].PageTree?
    requires k < n == |objects[PAGES_NUMBER - 1].kids| && objects[PAGES_NUMBER - 1].kids[k] == number
    requires FIXED < contents < number <= |objects|
    requires objects[number - 1] == Page(contents, numbers) && objects[contents - 1] == Contents(data)
    requires AnnotsHeld(objects, numbers, annots)
    ensures Resolves(objects, n, k, data, annots)
  {
  }

  /**
   * The page tree resolves: the page-tree object lists one kid per page, in order, and the object a
   * kid names is a page whose contents and annotations are the objects its references name.
   */
  lemma PageTreeResolves(draw: Drawing, pages: seq<seq<PlacedItem>>, k: nat)
    requires k < |pages|
    ensures Resolves(Objects(draw, pages), |pages|, k, draw(pages[k], k, |pages|), Annots(pages[k]))
  {
    var objects, contents, number := PageEndAt(draw, pages, k);
    KidsAreNumbers(draw, pages, k, objects, number);
    AnnotsAt(draw, pages, k);
    Combine(objects, |pages|, k, draw(pages[k], k, |pages|), Annots(pages[k]), number, contents,
            AnnotNumbers(draw, pages, k));
  }

  lemma KidsAreNumbers(draw: Drawing, pages: seq<seq<PlacedItem>>, k: nat, objects: seq<PdfObject>, number: nat)
    requires k < |pages| && objects == Objects(draw, pages) && number == PageNumber(draw, pages, k)
    ensures |objects| >= FIXED && objects[0] == Catalog && objects[PAGES_NUMBER - 1].PageTree?
    ensures |objects[PAGES_NUMBER - 1].kids| == |pages| && objects[PAGES_NUMBER - 1].kids[k] == number
  {
    FixedFirst(draw, pages, |pages|);
  }

  lemma AnnotsAt(draw: Drawing, pages: seq<seq<PlacedItem>>, k: nat)
    requires k < |pages|
    ensures AnnotsHeld(Objects(draw, pages), AnnotNumbers(draw, pages, k), Annots(pages[k]))
  {
    forall j | 0 <= j < |Annots(pages[k])|
      ensures var number := AnnotNumbers(draw, pages, k)[j];
              FIXED < number <= |Objects(draw, pages)| && Objects(draw, pages)[number - 1] == Annots(pages[k])[j]
    {
      AnnotAt(draw, pages, k, j);
    }
  }

  // ---- From the bytes

  /** The links of the objects with these numbers. */
  function ReadLinks(bodies: seq<Bytes>, numbers: seq<nat>): seq<Option<Bytes>> {
    seq(|numbers|, j requires 0 <= j < |numbers| =>
      if 0 < numbers[j] <= |bodies| then ReadLink(bodies[numbers[j] - 1]) else None)
  }

  function Expected(urls: seq<string>): seq<Option<Bytes>> {
    seq(|urls|, j requires 0 <= j < |urls| => Some(NormalizeEol(Utf8(urls[j]))))
  }

  lemma ObjectBodyAt(render: PdfObject -> string, objects: seq<PdfObject>, number: nat, o: PdfObject)
    requires 0 < number <= |objects| && objects[number - 1] == o
    ensures var bodies := Bodies(Mapped(render, objects));
            |bodies| == |objects| && bodies[number - 1] == BodyOf(render(o))
  {
    MappedTwiceAt(render, BodyOf, objects, number - 1, o);
  }

  /** The body of annotation j of page k is the text of that annotation. */
  lemma AnnotBodyAt(draw: Drawing, pages: seq<seq<PlacedItem>>, k: nat, j: nat, o: PdfObject)
    requires k < |pages| && j < |Annots(pages[k])| && o == Annots(pages[k])[j]
    ensures var bodies, number := Bodies(Texts(Objects(draw, pages))), AnnotNumbers(draw, pages, k)[j];
            0 < number <= |bodies| && bodies[number - 1] == BodyOf(Render(o))
  {
    AnnotAt(draw, pages, k, j);
    ObjectBodyAt(Render, Objects(draw, pages), AnnotNumbers(draw, pages, k)[j], o);
  }

  lemma OneLinkReads(page: seq<Item>, j: nat)
    requires Total(Height, page) <= ROOM
    ensures |Annots(Place(Height, page))| == |Urls(page)|
    ensures j < |Urls(page)| ==>
              ReadLink(BodyOf(Render(Annots(Place(Height, page))[j]))) == Some(NormalizeEol(Utf8(Urls(page)[j])))
  {
    AnnotsAreUrls(page, |page|, j);
    assert Place(Height, page)[..|page|] == Place(Height, page) && page[..|page|] == page;
    if j < |Urls(page)| {
      LinkReadsBack(Annots(Place(Height, page))[j], Urls(page)[j]);
    }
  }

  lemma LinkReadsBack(annot: PdfObject, url: string)
    requires annot.LinkAnnot? && annot.y >= 26 && annot.url == url
    ensures ReadLink(BodyOf(Render(annot))) == Some(NormalizeEol(Utf8(url)))
  {
    AnnotReadsBack(annot.y, url);
  }

  lemma OneLinkReadsBack(draw: Drawing, split: seq<seq<Item>>, k: nat, j: nat)
    requires k < |split| && Total(Height, split[k]) <= ROOM
    ensures |Annots(PlaceAll(Height, split)[k])| == |Urls(split[k])|
    ensures j < |Urls(split[k])| ==>
              var pages := PlaceAll(Height, split);
              var bodies, number := Bodies(Texts(Objects(draw, pages))), AnnotNumbers(draw, pages, k)[j];
              0 < number <= |bodies| && ReadLink(bodies[number - 1]) == Some(NormalizeEol(Utf8(Urls(split[k])[j])))
  {
    var page, pages := split[k], PlaceAll(Height, split);
    assert pages[k] == Place(Height, page);
    OneLinkReads(page, j);
    if j < |Urls(page)| {
      AnnotBodyAt(draw, pages, k, j, Annots(Place(Height, page))[j]);
    }
  }

  /** The links of page k, read from the object bodies, are the addresses of its steps in order. */
  lemma PageLinksReadBack(draw: Drawing, split: seq<seq<Item>>, k: nat, bodies: seq<Bytes>)
    requires k < |split| && Total(Height, split[k]) <= ROOM
              && bodies == Bodies(Texts(Objects(draw, PlaceAll(Height, split))))
    ensures ReadLinks(bodies, AnnotNumbers(draw, PlaceAll(Height, split), k)) == Expected(Urls(split[k]))
  {
    var numbers, urls := AnnotNumbers(draw, PlaceAll(Height, split), k), Urls(split[k]);
    OneLinkReadsBack(draw, split, k, 0);
    forall j | 0 <= j < |urls| ensures IsLinked(bodies, numbers, j, urls[j]) {
      OneLinkReadsBack(draw, split, k, j);
    }
    AllLinked(bodies, numbers, urls);
  }

  /** The j-th of these objects links to this address. */
  ghost predicate IsLinked(bodies: seq<Bytes>, numbers: seq<nat>, j: nat, url: string) {
    && j < |numbers| && 0 < numbers[j] <= |bodies|
    && ReadLink(bodies[numbers[j] - 1]) == Some(NormalizeEol(Utf8(url)))
  }

  lemma AllLinked(bodies: seq<Bytes>, numbers: seq<nat>, urls: seq<string>)
    requires |numbers| == |urls| && forall j | 0 <= j < |urls| :: IsLinked(bodies, numbers, j, urls[j])
    ensures ReadLinks(bodies, numbers) == Expected(urls)
  {
    forall j | 0 <= j < |urls| ensures ReadLinks(bodies, numbers)[j] == Expected(urls)[j] {
      assert IsLinked(bodies, numbers, j, urls[j]);
      LinkAt(bodies, numbers, j, Some(NormalizeEol(Utf8(urls[j]))));
    }
  }

  lemma LinkAt(bodies: seq<Bytes>, numbers: seq<nat>, j: nat, link: Option<Bytes>)
    requires j < |numbers| && 0 < numbers[j] <= |bodies| && ReadLink(bodies[numbers[j] - 1]) == link
    ensures ReadLinks(bodies, numbers)[j] == link
  {
  }

  lemma UrlsOfPages(split: seq<seq<Item>>, n: nat)
    requires 0 < n <= |split|
    ensures Expected(Urls(Concat(split[..n]))) == Expected(Urls(Concat(split[..n - 1]))) + Expected(Urls(split[n - 1]))
  {
    ConcatLast(split[..n]);
    assert split[..n][..n - 1] == split[..n - 1];
    UrlsAppend(Concat(split[..n - 1]), split[n - 1]);
    ExpectedAppend(Urls(Concat(split[..n - 1])), Urls(split[n - 1]));
  }

  lemma ExpectedAppend(a: seq<string>, b: seq<string>)
    ensures Expected(a + b) == Expected(a) + Expected(b)
  {
  }

  lemma {:induction false} ConcatLast<T>(pages: seq<seq<T>>)
    requires pages != []
    ensures Concat(pages) == Concat(pages[..|pages| - 1]) + pages[|pages| - 1]
  {
    var n := |pages| - 1;
    if n == 0 {
      assert pages[1..] == [] && pages[..0] == [];
    } else {
      var tail, init := pages[1..], pages[..n];
      ConcatLast(tail);
      assert tail[..n - 1] == init[1..] && tail[n - 1] == pages[n];
      assert Concat(init) == pages[0] + Concat(init[1..]);
      Regroup(pages[0], Concat(init[1..]), pages[n]);
    }
  }

  /** The content stream of every page is read back by its /Length. */
  lemma ContentsReadBack(draw: Drawing, pages: seq<seq<PlacedItem>>, k: nat)
    requires k < |pages|
    ensures var bodies, number := Bodies(Texts(Objects(draw, pages))), ContentsNumber(draw, pages, k);
            0 < number <= |bodies| && ReadStream(bodies[number - 1]) == Some(Utf8(draw(pages[k], k, |pages|)))
  {
    ContentsBodyReads(draw(pages[k], k, |pages|));
    ContentsBodyAt(draw, pages, k, Contents(draw(pages[k], k, |pages|)));
  }

  lemma ContentsBodyAt(draw: Drawing, pages: seq<seq<PlacedItem>>, k: nat, o: PdfObject)
    requires k < |pages| && o == Contents(draw(pages[k], k, |pages|))
    ensures var bodies, number := Bodies(Texts(Objects(draw, pages))), ContentsNumber(draw, pages, k);
            0 < number <= |bodies| && bodies[number - 1] == BodyOf(Render(o))
  {
    PagePartsAt(draw, pages, k);
    ObjectBodyAt(Render, Objects(draw, pages), ContentsNumber(draw, pages, k), o);
  }

  lemma ContentsBodyReads(data: string)
    ensures ReadStream(BodyOf(Render(Contents(data)))) == Some(Utf8(data))
  {
    StreamTextIsBody(data);
    StreamReadsBack(" ", " ", data);
  }

  lemma StreamTextIsBody(data: string)
    ensures StreamText(data) + "\n" == StreamBody(" ", " ", data)
  {
    var a, d := "<< /Length ", Decimal(|Utf8(data)|);
    assert "<<" + " " + "/Length " == a && " " + ">>\nstream\n" == " >>\nstream\n";
    assert "\nendstream" + "\n" == "\nendstream\n";
    Reassociate(a, d, " ", ">>\nstream\n", data, "\nendstream", "\n");
  }

  lemma Reassociate(a: string, b: string, c: string, d: string, e: string, f: string, g: string)
    ensures a + b + (c + d) + e + f + g == a + b + c + d + e + (f + g)
  {
  }
}
