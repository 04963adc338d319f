/**
 * A reader that is given nothing but the bytes of the walkthrough document: from the trailer to the
 * catalog, the page tree, every page, its fonts, its text and its links.
 */
module PdfBuilderReader {
  import opened Common
  import opened PdfText
  import opened PdfFile
  import opened PdfRefs
  import opened PdfBuilder

  const OPEN_DICT := "<<\n"
  const CLOSE_DICT := ">>\n"
  const LINK_RECT := "/Type /Annot\n/Subtype /Link\n/Rect ["
  const LINK_URI := "]\n/Border [0 0 0]\n/A << /S /URI /URI ("
  const CATALOG_LINES := "/Type /Catalog\n/Pages "
  const TREE_LINES := "/Type /Pages\n/Kids ["
  const TREE_COUNT := "]\n/Count "
  const PAGE_LINES := "/Type /Page\n/Parent 2 0 R\n"
  const PAGE_BOX := "/MediaBox [0 0 595.28 841.89]\n/Contents "
  const PAGE_FONTS := "\n/Resources << /Font << "
  const FONTS_END := ">> >>\n"
  const PAGE_ANNOTS := "/Annots ["

  // ---- Catalog and page tree

  function ReadCatalog(body: Bytes): Option<nat> {
    match Expect(Ascii(OPEN_DICT + CATALOG_LINES), body)
    case None => None
    case Some(b1) =>
      match ReadRef(b1)
      case None => None
      case Some((pages, b2)) => if b2 == Ascii("\n" + CLOSE_DICT) then Some(pages) else None
  }

  function ReadPageTree(body: Bytes): Option<seq<nat>> {
    match Expect(Ascii(OPEN_DICT + TREE_LINES), body)
    case None => None
    case Some(b1) =>
      var (kids, b2) := ReadRefs(b1);
      match Expect(Ascii(TREE_COUNT), b2)
      case None => None
      case Some(b3) =>
        match ReadNumber(b3)
        case None => None
        case Some((count, b4)) => if count == |kids| && b4 == Ascii("\n" + CLOSE_DICT) then Some(kids) else None
  }

  lemma AsciiTwo(a: string, b: string)
    requires IsAscii(a) && IsAscii(b)
    ensures IsAscii(a + b) && Utf8(a + b) == Ascii(a + b) == Ascii(a) + Ascii(b)
  {
    AsciiIsUtf8(a + b);
    AsciiAppend(a, b);
  }

  /** Texts put together, as bytes put together. */
  lemma ThreeParts(a: string, b: string, c: string)
    requires IsAscii(a) && IsAscii(b) && IsAscii(c)
    ensures Utf8(a + b + c) == Ascii(a) + (Ascii(b) + Ascii(c))
  {
    AsciiTwo(a, b);
    AsciiTwo(a + b, c);
    Regroup(Ascii(a), Ascii(b), Ascii(c));
  }

  lemma CatalogIsAscii()
    ensures IsAscii(OPEN_DICT + CATALOG_LINES) && IsAscii("\n" + CLOSE_DICT)
  {
    AsciiJoin(OPEN_DICT, CATALOG_LINES, "");
  }

  lemma CatalogText(pages: string)
    ensures OPEN_DICT + (CATALOG_LINES + pages + "\n") + CLOSE_DICT + "" ==
              (OPEN_DICT + CATALOG_LINES) + pages + ("\n" + CLOSE_DICT)
  {
  }

  lemma CatalogReads()
    ensures ReadCatalog(Utf8(BodyText(Catalog, ""))) == Some(2)
  {
    var open, close := OPEN_DICT + CATALOG_LINES, "\n" + CLOSE_DICT;
    CatalogText(Ref(2));
    CatalogIsAscii();
    RefIsAscii(2);
    ThreeParts(open, Ref(2), close);
    ExpectToken(Ascii(open), Ascii(Ref(2)) + Ascii(close));
    RefReads(2, Ascii(close));
  }

  lemma TreeIsAscii()
    ensures IsAscii(OPEN_DICT + TREE_LINES) && IsAscii(TREE_COUNT)
    ensures |Ascii(TREE_COUNT)| > 0 && Ascii(TREE_COUNT)[0] == 93
    ensures |Ascii("\n" + CLOSE_DICT)| > 0 && Ascii("\n" + CLOSE_DICT)[0] == LF
  {
    AsciiJoin(OPEN_DICT, TREE_LINES, "");
  }

  lemma TreeText(kids: string, count: string)
    ensures OPEN_DICT + (TREE_LINES + kids + TREE_COUNT + count + "\n") + CLOSE_DICT + "" ==
              (OPEN_DICT + TREE_LINES) + kids + (TREE_COUNT + count + ("\n" + CLOSE_DICT))
  {
  }

  lemma TreeBytes(kids: seq<nat>)
    ensures Utf8(BodyText(PageTree(kids), "")) ==
              Ascii(OPEN_DICT + TREE_LINES) + (Ascii(Refs(kids))
              + (Ascii(TREE_COUNT) + (Ascii(Decimal(|kids|)) + Ascii("\n" + CLOSE_DICT))))
  {
    var count, close := Decimal(|kids|), "\n" + CLOSE_DICT;
    TreeText(Refs(kids), count);
    TreeIsAscii();
    CatalogIsAscii();
    RefsAreAscii(kids);
    DecimalReads(|kids|);
    AsciiJoin(TREE_COUNT, count, close);
    ThreeParts(OPEN_DICT + TREE_LINES, Refs(kids), TREE_COUNT + count + close);
    AsciiIsUtf8(TREE_COUNT + count + close);
    ThreeParts(TREE_COUNT, count, close);
  }

  lemma TreeBytesRead(kids: seq<nat>, open: Bytes, count: Bytes, close: Bytes)
    requires open == Ascii(OPEN_DICT + TREE_LINES) && count == Ascii(TREE_COUNT) && close == Ascii("\n" + CLOSE_DICT)
    ensures ReadPageTree(open + (Ascii(Refs(kids)) + (count + (Ascii(Decimal(|kids|)) + close)))) == Some(kids)
  {
    var b3 := Ascii(Decimal(|kids|)) + close;
    TreeIsAscii();
    assert (count + b3)[0] == count[0];
    ExpectToken(open, Ascii(Refs(kids)) + (count + b3));
    RefsRead(kids, count + b3);
    ExpectToken(count, b3);
    ReadDecimal(|kids|, close);
  }

  lemma PageTreeReads(kids: seq<nat>)
    ensures ReadPageTree(Utf8(BodyText(PageTree(kids), ""))) == Some(kids)
  {
    TreeBytes(kids);
    TreeBytesRead(kids, Ascii(OPEN_DICT + TREE_LINES), Ascii(TREE_COUNT), Ascii("\n" + CLOSE_DICT));
  }

  // ---- Fonts

  /** `/F1 2 0 R /F2 3 0 R ...`, numbered from `next` on, as many as there are. */
  function ReadFonts(b: Bytes, next: nat): (r: (seq<nat>, Bytes))
    ensures |r.1| <= |b|
    decreases |b|
  {
    match ReadFont(b, next)
    case None => ([], b)
    case Some((font, rest)) =>
      var (more, end) := ReadFonts(rest, next + 1);
      ([font] + more, end)
  }

  function ReadFont(b: Bytes, index: nat): (r: Option<(nat, Bytes)>)
    ensures r.Some? ==> |r.value.1| < |b|
  {
    match Expect(Ascii("/F"), b)
    case None => None
    case Some(b1) =>
      match ReadNumber(b1)
      case None => None
      case Some((found, b2)) =>
        if found != index then None
        else
          match Expect(Ascii(" "), b2)
          case None => None
          case Some(b3) =>
            match ReadRef(b3)
            case None => None
            case Some((font, b4)) =>
              match Expect(Ascii(" "), b4)
              case None => None
              case Some(b5) => Some((font, b5))
  }

  lemma FontRefIsAscii(index: nat, number: nat)
    ensures IsAscii(FontRef(index, number))
    ensures Ascii(FontRef(index, number)) ==
              Ascii("/F") + Ascii(Decimal(index)) + Ascii(" ") + Ascii(Ref(number)) + Ascii(" ")
  {
    DecimalReads(index);
    RefIsAscii(number);
    AsciiFive("/F", Decimal(index), " ", Ref(number), " ");
  }

  lemma FontReads(index: nat, number: nat, rest: Bytes)
    ensures ReadFont(Ascii(FontRef(index, number)) + rest, index) == Some((number, rest))
  {
    var space := Ascii(" ");
    FontRefIsAscii(index, number);
    Nest(Ascii("/F"), Ascii(Decimal(index)), space, Ascii(Ref(number)), space);
    FontBytes(Ascii("/F"), Ascii(Decimal(index)), space, Ascii(Ref(number)), rest);
    ExpectToken(Ascii("/F"), Ascii(Decimal(index)) + (space + (Ascii(Ref(number)) + (space + rest))));
    assert (space + (Ascii(Ref(number)) + (space + rest)))[0] == 32;
    ReadDecimal(index, space + (Ascii(Ref(number)) + (space + rest)));
    ExpectToken(space, Ascii(Ref(number)) + (space + rest));
    RefReads(number, space + rest);
    ExpectToken(space, rest);
  }

  lemma FontBytes(a: Bytes, b: Bytes, c: Bytes, d: Bytes, e: Bytes)
    ensures a + (b + (c + (d + c))) + e == a + (b + (c + (d + (c + e))))
  {
  }

  lemma {:induction false} FontRefsAreAscii(fonts: seq<nat>)
    ensures IsAscii(FontRefs(fonts))
  {
    if fonts != [] {
      FontRefsAreAscii(fonts[..|fonts| - 1]);
      FontRefIsAscii(|fonts|, fonts[|fonts| - 1]);
    }
  }

  function InFront(fonts: seq<nat>, r: (seq<nat>, Bytes)): (seq<nat>, Bytes) {
    (fonts + r.0, r.1)
  }

  lemma InFrontTwice(init: seq<nat>, last: nat, r: (seq<nat>, Bytes))
    ensures InFront(init, InFront([last], r)) == InFront(init + [last], r)
  {
    assert init + ([last] + r.0) == init + [last] + r.0;
  }

  lemma OneFontReads(index: nat, number: nat, rest: Bytes)
    ensures ReadFonts(Ascii(FontRef(index, number)) + rest, index) == InFront([number], ReadFonts(rest, index + 1))
  {
    FontReads(index, number, rest);
  }

  lemma LastFont(init: seq<nat>, last: nat, rest: Bytes)
    ensures Ascii(FontRefs(init + [last])) + rest ==
              Ascii(FontRefs(init)) + (Ascii(FontRef(|init| + 1, last)) + rest)
  {
    assert (init + [last])[..|init|] == init;
    AsciiAppend(FontRefs(init), FontRef(|init| + 1, last));
    Regroup(Ascii(FontRefs(init)), Ascii(FontRef(|init| + 1, last)), rest);
  }

  /** The reader passes over a list of fonts and goes on behind it. */
  lemma {:induction false} FontsPrefix(fonts: seq<nat>, rest: Bytes)
    ensures ReadFonts(Ascii(FontRefs(fonts)) + rest, 1) == InFront(fonts, ReadFonts(rest, |fonts| + 1))
  {
    if fonts == [] {
      assert Ascii("") + rest == rest && fonts + ReadFonts(rest, 1).0 == ReadFonts(rest, 1).0;
    } else {
      var init, last := fonts[..|fonts| - 1], fonts[|fonts| - 1];
      assert fonts == init + [last];
      LastFont(init, last, rest);
      FontsPrefix(init, Ascii(FontRef(|fonts|, last)) + rest);
      OneFontReads(|fonts|, last, rest);
      InFrontTwice(init, last, ReadFonts(rest, |fonts| + 1));
    }
  }

  // ---- Pages

  /** The contents, the fonts and the annotations of a page. */
  function ReadPageDict(body: Bytes): Option<(nat, seq<nat>, seq<nat>)> {
    match Expect(Ascii(PAGE_HEAD), body)
    case None => None
    case Some(b1) =>
      match ReadRef(b1)
      case None => None
      case Some((contents, b2)) =>
        match Expect(Ascii(PAGE_FONTS), b2)
        case None => None
        case Some(b3) =>
          var (fonts, b4) := ReadFonts(b3, 1);
          match Expect(Ascii(FONTS_END), b4)
          case None => None
          case Some(b5) =>
            match ReadAnnots(b5)
            case None => None
            case Some(annots) => Some((contents, fonts, annots))
  }

  const PAGE_HEAD := OPEN_DICT + (PAGE_LINES + PAGE_BOX)

  function ReadAnnots(b: Bytes): Option<seq<nat>> {
    match Expect(Ascii(PAGE_ANNOTS), b)
    case None => if b == Ascii(CLOSE_DICT) then Some([]) else None
    case Some(b1) =>
      var (annots, b2) := ReadRefs(b1);
      if b2 == Ascii("]\n" + CLOSE_DICT) then Some(annots) else None
  }

  function AnnotsText(annots: seq<nat>): string {
    if annots == [] then CLOSE_DICT else PAGE_ANNOTS + Refs(annots) + ("]\n" + CLOSE_DICT)
  }

  lemma AnnotTokens()
    ensures IsAscii(PAGE_ANNOTS) && IsAscii("]\n" + CLOSE_DICT) && IsAscii(CLOSE_DICT) && IsAscii(FONTS_END)
    ensures Ascii(PAGE_ANNOTS)[0] == 47 && Ascii(CLOSE_DICT)[0] == 62 && Ascii("]\n" + CLOSE_DICT)[0] == 93
    ensures Ascii(FONTS_END)[0] == 62
  {
  }

  lemma AnnotsRead(annots: seq<nat>)
    ensures IsAscii(AnnotsText(annots)) && ReadAnnots(Ascii(AnnotsText(annots))) == Some(annots)
  {
    AnnotTokens();
    if annots != [] {
      var close := "]\n" + CLOSE_DICT;
      RefsAreAscii(annots);
      AsciiJoin(PAGE_ANNOTS, Refs(annots), close);
      AsciiAppend(PAGE_ANNOTS + Refs(annots), close);
      AsciiAppend(PAGE_ANNOTS, Refs(annots));
      Regroup(Ascii(PAGE_ANNOTS), Ascii(Refs(annots)), Ascii(close));
      ExpectToken(Ascii(PAGE_ANNOTS), Ascii(Refs(annots)) + Ascii(close));
      RefsRead(annots, Ascii(close));
    }
  }

  lemma HeadIsAscii()
    ensures IsAscii(PAGE_HEAD) && IsAscii(PAGE_FONTS)
  {
    LinesAreAscii();
    BoxIsAscii();
    AsciiJoin(PAGE_LINES, PAGE_BOX, "");
    AsciiJoin(OPEN_DICT, PAGE_LINES + PAGE_BOX, "");
  }

  lemma LinesAreAscii()
    ensures IsAscii(PAGE_LINES) && IsAscii(OPEN_DICT)
  {
  }

  lemma BoxIsAscii()
    ensures IsAscii(PAGE_BOX)
  {
  }

  lemma PageTextParts(contents: string, fonts: string, annots: seq<nat>)
    ensures OPEN_DICT + (PAGE_LINES + PAGE_BOX + contents + PAGE_FONTS + fonts + PageEnd(annots)) + CLOSE_DICT + "" ==
              PAGE_HEAD + contents + (PAGE_FONTS + fonts + (FONTS_END + AnnotsText(annots)))
  {
    PageEndText(annots);
    RegroupPage(OPEN_DICT, PAGE_LINES, PAGE_BOX, contents, PAGE_FONTS, fonts, PageEnd(annots), CLOSE_DICT);
  }

  lemma PageEndText(annots: seq<nat>)
    ensures PageEnd(annots) + CLOSE_DICT == FONTS_END + AnnotsText(annots)
  {
    if annots == [] {
      assert FONTS_END + "" == FONTS_END;
    } else {
      RegroupEnd(FONTS_END, PAGE_ANNOTS, Refs(annots), "]\n", CLOSE_DICT);
    }
  }

  lemma RegroupEnd(a: string, b: string, c: string, d: string, e: string)
    ensures a + (b + c + d) + e == a + (b + c + (d + e))
  {
  }

  lemma RegroupPage(a: string, b: string, c: string, d: string, e: string, f: string, g: string, h: string)
    ensures a + (b + c + d + e + f + g) + h + "" == a + (b + c) + d + (e + f + (g + h))
  {
  }

  lemma PageBytes(contents: nat, fonts: seq<nat>, annots: seq<nat>)
    ensures Utf8(BodyText(Page(contents, fonts, annots), "")) ==
              Ascii(PAGE_HEAD) + (Ascii(Ref(contents)) + (Ascii(PAGE_FONTS) + (Ascii(FontRefs(fonts))
              + (Ascii(FONTS_END) + Ascii(AnnotsText(annots))))))
  {
    PageTextParts(Ref(contents), FontRefs(fonts), annots);
    PageTokens(contents, fonts, annots);
    SixParts(PAGE_HEAD, Ref(contents), PAGE_FONTS, FontRefs(fonts), FONTS_END, AnnotsText(annots));
  }

  lemma PageTokens(contents: nat, fonts: seq<nat>, annots: seq<nat>)
    ensures IsAscii(PAGE_HEAD) && IsAscii(Ref(contents)) && IsAscii(PAGE_FONTS) && IsAscii(FontRefs(fonts))
    ensures IsAscii(FONTS_END) && IsAscii(AnnotsText(annots))
  {
    HeadIsAscii();
    AnnotTokens();
    AnnotsRead(annots);
    RefIsAscii(contents);
    FontRefsAreAscii(fonts);
  }

  lemma SixParts(a: string, b: string, c: string, d: string, e: string, f: string)
    requires IsAscii(a) && IsAscii(b) && IsAscii(c) && IsAscii(d) && IsAscii(e) && IsAscii(f)
    ensures Utf8(a + b + (c + d + (e + f))) ==
              Ascii(a) + (Ascii(b) + (Ascii(c) + (Ascii(d) + (Ascii(e) + Ascii(f)))))
  {
    AsciiTwo(e, f);
    AsciiJoin(c, d, e + f);
    ThreeParts(a, b, c + d + (e + f));
    AsciiIsUtf8(c + d + (e + f));
    ThreeParts(c, d, e + f);
  }

  lemma PageBytesRead(contents: nat, fonts: seq<nat>, annots: seq<nat>, head: Bytes, open: Bytes, close: Bytes,
                      end: Bytes)
    requires head == Ascii(PAGE_HEAD) && open == Ascii(PAGE_FONTS) && close == Ascii(FONTS_END)
    requires ReadAnnots(end) == Some(annots)
    ensures ReadPageDict(head + (Ascii(Ref(contents)) + (open + (Ascii(FontRefs(fonts)) + (close + end))))) ==
              Some((contents, fonts, annots))
  {
    var b3 := Ascii(FontRefs(fonts)) + (close + end);
    ExpectToken(head, Ascii(Ref(contents)) + (open + b3));
    RefReads(contents, open + b3);
    ExpectToken(open, b3);
    NoFont(close + end, |fonts| + 1);
    FontsPrefix(fonts, close + end);
    assert fonts + [] == fonts;
    ExpectToken(close, end);
  }

  lemma NoFont(b: Bytes, next: nat)
    requires b != [] && b[0] != 47
    ensures ReadFonts(b, next) == ([], b)
  {
    assert Ascii("/F")[0] == 47;
  }

  lemma PageDictReads(contents: nat, fonts: seq<nat>, annots: seq<nat>)
    ensures ReadPageDict(Utf8(BodyText(Page(contents, fonts, annots), ""))) == Some((contents, fonts, annots))
  {
    PageBytes(contents, fonts, annots);
    AnnotsRead(annots);
    AnnotTokens();
    PageBytesRead(contents, fonts, annots, Ascii(PAGE_HEAD), Ascii(PAGE_FONTS), Ascii(FONTS_END),
                  Ascii(AnnotsText(annots)));
  }

  // ---- Links

  /** The input from the first x on. */
  function SkipTo(b: Bytes, x: Byte): Option<Bytes> {
    if b == [] then None else if b[0] == x then Some(b) else SkipTo(b[1..], x)
  }

  const BRACKET: Byte := 93

  /** The target of a link; the rectangle in front of it is passed over. */
  function ReadLink(body: Bytes): Option<Bytes> {
    match Expect(Ascii(OPEN_DICT + LINK_RECT), body)
    case None => None
    case Some(b1) =>
      match SkipTo(b1, BRACKET)
      case None => None
      case Some(b2) =>
        match Expect(Ascii(LINK_URI), b2)
        case None => None
        case Some(b3) => ReadTarget(b3)
  }

  function ReadTarget(b: Bytes): Option<Bytes> {
    match LexString(b, 0)
    case None => None
    case Some((url, rest)) => if rest == Ascii(" >>\n>>\n") then Some(url) else None
  }

  lemma {:induction false} SkipsTo(b: Bytes, x: Byte, rest: Bytes)
    requires x !in b && rest != [] && rest[0] == x
    ensures SkipTo(b + rest, x) == Some(rest)
  {
    if b == [] {
      assert b + rest == rest;
    } else {
      SkipsTo(b[1..], x, rest);
      assert (b + rest)[0] == b[0] && (b + rest)[1..] == b[1..] + rest;
    }
  }

  lemma {:induction false} BracketInUtf8(s: string)
    ensures BRACKET in Utf8(s) <==> ']' in s
  {
    if s != "" {
      BracketInUtf8(s[1..]);
      assert s == [s[0]] + s[1..];
    }
  }

  lemma LinkTokens()
    ensures IsAscii(OPEN_DICT + LINK_RECT) && IsAscii(LINK_URI) && Ascii(LINK_URI)[0] == BRACKET
  {
    AsciiJoin(OPEN_DICT, LINK_RECT, "");
  }

  lemma LinkHeadBytes(rect: string)
    ensures Utf8("<<\n" + LinkHead(rect)) == Ascii(OPEN_DICT + LINK_RECT) + (Utf8(rect) + Ascii(LINK_URI))
  {
    LinkTokens();
    AsciiIsUtf8(OPEN_DICT + LINK_RECT);
    AsciiIsUtf8(LINK_URI);
    RegroupHead(OPEN_DICT, LINK_RECT, rect, LINK_URI);
    Utf8Append(OPEN_DICT + LINK_RECT, rect + LINK_URI);
    Utf8Append(rect, LINK_URI);
  }

  lemma RegroupHead(a: string, b: string, c: string, d: string)
    ensures a + (b + c + d) == (a + b) + (c + d)
  {
  }

  lemma LinkBytesRead(rect: Bytes, open: Bytes, uri: Bytes, address: Bytes)
    requires BRACKET !in rect && open == Ascii(OPEN_DICT + LINK_RECT) && uri == Ascii(LINK_URI)
    ensures ReadLink(open + (rect + uri) + address) == ReadTarget(address)
  {
    LinkTokens();
    RegroupFour(open, rect, uri, address);
    assert open + (rect + uri) + address == open + rect + uri + address;
    ExpectToken(open, rect + (uri + address));
    SkipsTo(rect, BRACKET, uri + address);
    ExpectToken(uri, address);
  }

  /** A link is read exactly when its address needs no escape. */
  lemma LinkReadsIff(a: Annotation)
    requires ']' !in a.rect
    ensures ReadLink(Utf8(BodyText(Link(a), ""))) == Some(Utf8(a.url)) <==> NeedsNoEscape(Utf8(a.url), 0)
  {
    var head, address := LinkReadsBackIff(a);
    LinkHeadBytes(a.rect);
    BracketInUtf8(a.rect);
    LinkBytesRead(Utf8(a.rect), Ascii(OPEN_DICT + LINK_RECT), Ascii(LINK_URI), address);
  }

  // ---- Content streams

  /** The stream of an object; an empty one leaves only its dictionary. */
  function ReadContents(body: Bytes): Option<Bytes> {
    if EndsWith(body, Ascii("endstream\n")).Some? then ReadStream(body)
    else if body == Ascii(NO_STREAM) then Some([])
    else None
  }

  const NO_STREAM := OPEN_DICT + "/Length 0\n" + CLOSE_DICT

  lemma ContentsRead(data: string)
    ensures ReadContents(Utf8(BodyText(Length(|Utf8(data)|), data))) == Some(Utf8(data))
  {
    if data == "" {
      NoContents();
    } else {
      ContentsReadBack(data);
      EndsInStream("<<\n" + DictLines(Length(|Utf8(data)|)) + ">>\n", data);
    }
  }

  lemma NoContents()
    ensures Utf8(BodyText(Length(0), "")) == Ascii(NO_STREAM) && ReadContents(Ascii(NO_STREAM)) == Some([])
  {
    LengthLine();
    NoStreamText(OPEN_DICT, "/Length 0\n", CLOSE_DICT);
    AsciiJoin(OPEN_DICT, "/Length 0\n", CLOSE_DICT);
    AsciiIsUtf8(NO_STREAM);
    NotAStream(Ascii(NO_STREAM), Ascii("endstream\n"));
  }

  lemma LengthLine()
    ensures DictLines(Length(0)) == "/Length 0\n"
  {
    assert Decimal(0) == "0";
  }

  lemma NoStreamText(a: string, b: string, c: string)
    ensures a + b + c + "" == a + b + c
  {
  }

  lemma NotAStream(body: Bytes, token: Bytes)
    requires body == Ascii(NO_STREAM) && token == Ascii("endstream\n")
    ensures EndsWith(body, token) == None
  {
    assert |body| == 16 && |token| == 10;
    assert body[14] == 62 && token[8] == 109;
  }

  lemma EndsInStream(dict: string, data: string)
    ensures EndsWith(Utf8(dict + ("stream\n" + data + "\nendstream\n")), Ascii("endstream\n")).Some?
  {
    StreamEnd();
    EndsInToken(dict, "stream\n" + data, "\n", "endstream\n");
  }

  lemma EndsInToken(a: string, b: string, c: string, token: string)
    requires IsAscii(token)
    ensures EndsWith(Utf8(a + (b + (c + token))), Ascii(token)).Some?
  {
    assert a + (b + (c + token)) == (a + b + c) + token;
    Utf8Append(a + b + c, token);
    AsciiIsUtf8(token);
    EndsWithToken(Utf8(a + b + c), Ascii(token));
  }

  lemma StreamEnd()
    ensures "\nendstream\n" == "\n" + "endstream\n" && IsAscii("endstream\n")
  {
  }

  // ---- Fonts and lines

  const FONT_OPEN := "<<\n/Type /Font\n/Subtype /Type1\n/BaseFont /"
  const FONT_CLOSE := "\n>>\n"

  function ReadFontName(body: Bytes): Option<Bytes> {
    Between(Ascii(FONT_OPEN), body, Ascii(FONT_CLOSE))
  }

  lemma FontTokens()
    ensures IsAscii(FONT_OPEN) && IsAscii(FONT_CLOSE)
  {
  }

  lemma FontText(name: string)
    ensures BodyText(Font(name), "") == FONT_OPEN + name + FONT_CLOSE
  {
    FontParts();
    RegroupFont("<<\n", "/Type /Font\n/Subtype /Type1\n/BaseFont /", name, "\n", ">>\n");
  }

  lemma FontParts()
    ensures "<<\n" + "/Type /Font\n/Subtype /Type1\n/BaseFont /" == FONT_OPEN && "\n" + ">>\n" == FONT_CLOSE
  {
  }

  lemma RegroupFont(a: string, b: string, c: string, d: string, e: string)
    ensures a + (b + c + d) + e + "" == (a + b) + c + (d + e)
  {
  }

  lemma FontNameReads(name: string)
    ensures ReadFontName(Utf8(BodyText(Font(name), ""))) == Some(Utf8(name))
  {
    FontText(name);
    FontTokens();
    AsciiIsUtf8(FONT_OPEN);
    AsciiIsUtf8(FONT_CLOSE);
    Utf8Append(FONT_OPEN + name, FONT_CLOSE);
    Utf8Append(FONT_OPEN, name);
    BetweenReads(Ascii(FONT_OPEN), Utf8(name), Ascii(FONT_CLOSE));
  }

  /** The object with this number is the font with this name. */
  ghost predicate IsFont(bodies: seq<Bytes>, number: nat, name: string) {
    BodyAt(bodies, number).Some? && ReadFontName(BodyAt(bodies, number).value) == Some(Utf8(name))
  }

  lemma FontBodyReads(objects: seq<Obj>, number: nat, name: string, bodies: seq<Bytes>)
    requires 0 < number <= |objects| && objects[number - 1] == Obj(number, Font(name), "")
    requires bodies == Bodies(Rendered(objects))
    ensures IsFont(bodies, number, name)
  {
    BodyIs(objects, number, Font(name), "", bodies);
    FontNameReads(name);
  }

  /** Of the four fonts that every page names, objects 2 to 5, three are fonts. */
  lemma FontsReadBack(pages: seq<PageDef>, bodies: seq<Bytes>)
    requires bodies == Bodies(Rendered(Built([], pages)))
    ensures IsFont(bodies, 3, "Helvetica-Bold") && IsFont(bodies, 4, "Courier")
    ensures IsFont(bodies, 5, "Helvetica-Oblique")
  {
    var objects := Built([], pages);
    FirstFontIsOverwritten(pages);
    FontBodyReads(objects, 3, "Helvetica-Bold", bodies);
    FontBodyReads(objects, 4, "Courier", bodies);
    FontBodyReads(objects, 5, "Helvetica-Oblique", bodies);
  }

  /** The lines of a text. */
  function SplitLines(s: string): (lines: seq<string>)
    ensures lines != []
  {
    if s == "" then [""]
    else
      var rest := SplitLines(s[1..]);
      if s[0] == '\n' then [""] + rest else [[s[0]] + rest[0]] + rest[1..]
  }

  lemma {:induction false} OneLine(line: string)
    requires '\n' !in line
    ensures SplitLines(line) == [line]
  {
    if line != "" {
      OneLine(line[1..]);
      assert [line[0]] + line[1..] == line;
    }
  }

  lemma {:induction false} LastLine(before: string, line: string)
    requires '\n' !in line
    ensures SplitLines(before + "\n" + line) == SplitLines(before) + [line]
  {
    if before == "" {
      OneLine(line);
      assert before + "\n" + line == "\n" + line && ("\n" + line)[1..] == line;
    } else {
      LastLine(before[1..], line);
      var s := before + "\n" + line;
      assert s[0] == before[0] && s[1..] == before[1..] + "\n" + line;
    }
  }

  /** The operators of a page are the lines of its content stream. */
  lemma {:induction false} LinesReadBack(ops: seq<string>)
    requires ops != [] && forall op | op in ops :: '\n' !in op
    ensures SplitLines(JoinLines(ops)) == ops
  {
    var n := |ops| - 1;
    if n == 0 {
      OneLine(ops[0]);
    } else {
      LinesReadBack(ops[..n]);
      LastLine(JoinLines(ops[..n]), ops[n]);
    }
  }

  // ---- The document

  /** What a page shows: its content stream, the objects of its fonts and the target of each link. */
  datatype PageRead = PageRead(contents: Bytes, fonts: seq<nat>, links: seq<Option<Bytes>>)

  function ReadPage(bodies: seq<Bytes>, number: nat): Option<PageRead> {
    match BodyAt(bodies, number)
    case None => None
    case Some(page) =>
      match ReadPageDict(page)
      case None => None
      case Some((contents, fonts, annots)) =>
        match BodyAt(bodies, contents)
        case None => None
        case Some(content) =>
          match ReadContents(content)
          case None => None
          case Some(data) => Some(PageRead(data, fonts, ReadLinks(bodies, annots)))
  }

  function ReadLinks(bodies: seq<Bytes>, numbers: seq<nat>): seq<Option<Bytes>> {
    seq(|numbers|, j requires 0 <= j < |numbers| =>
      match BodyAt(bodies, numbers[j]) case None => None case Some(link) => ReadLink(link))
  }

  function ReadKids(bodies: seq<Bytes>, root: nat): Option<seq<nat>> {
    match BodyAt(bodies, root)
    case None => None
    case Some(catalog) =>
      match ReadCatalog(catalog)
      case None => None
      case Some(tree) =>
        match BodyAt(bodies, tree)
        case None => None
        case Some(body) => ReadPageTree(body)
  }

  function ReadPages(bodies: seq<Bytes>, kids: seq<nat>): seq<Option<PageRead>> {
    seq(|kids|, k requires 0 <= k < |kids| => ReadPage(bodies, kids[k]))
  }

  /** The pages of a file, in the order of its page tree. */
  function ReadDocument(file: Bytes): Option<seq<Option<PageRead>>> {
    match ReadFile(file)
    case None => None
    case Some(bodies) =>
      match ReadRoot(file)
      case None => None
      case Some(root) =>
        match ReadKids(bodies, root)
        case None => None
        case Some(kids) => Some(ReadPages(bodies, kids))
  }

  /** What was read of a page is what was put on it; an address only if it needs no escape. */
  ghost predicate Shows(read: Option<PageRead>, page: PageDef) {
    && read.Some? && read.value.contents == Utf8(JoinLines(page.ops)) && read.value.fonts == [2, 3, 4, 5]
    && LinksShown(read.value.links, page.annots)
  }

  ghost predicate LinksShown(links: seq<Option<Bytes>>, annots: seq<Annotation>) {
    && |links| == |annots|
    && forall j | 0 <= j < |links| ::
         links[j] == Some(Utf8(annots[j].url)) <==> NeedsNoEscape(Utf8(annots[j].url), 0)
  }

  /** Rectangles are four numbers; all that matters is that they do not close the bracket. */
  ghost predicate PlainRects(page: PageDef) {
    forall j | 0 <= j < |page.annots| :: ']' !in page.annots[j].rect
  }

  lemma BodyIs(objects: seq<Obj>, number: nat, d: Dict, stream: string, bodies: seq<Bytes>)
    requires 0 < number <= |objects| && bodies == Bodies(Rendered(objects))
    requires objects[number - 1].dict == d && objects[number - 1].stream == stream
    ensures BodyAt(bodies, number) == Some(Utf8(BodyText(d, stream)))
  {
    RenderedAt(objects, number - 1, d, stream);
    TextAt(Rendered(objects), number, BodyText(d, stream), bodies);
  }

  lemma RenderedAt(objects: seq<Obj>, i: nat, d: Dict, stream: string)
    requires i < |objects| && objects[i].dict == d && objects[i].stream == stream
    ensures |Rendered(objects)| == |objects| && Rendered(objects)[i].1 == BodyText(d, stream)
  {
  }

  lemma TextAt(texts: seq<(nat, string)>, number: nat, text: string, bodies: seq<Bytes>)
    requires 0 < number <= |texts| && texts[number - 1].1 == text && bodies == Bodies(texts)
    ensures BodyAt(bodies, number) == Some(Utf8(text))
  {
  }

  ghost predicate LinksHeld(objects: seq<Obj>, numbers: seq<nat>, annots: seq<Annotation>) {
    && |numbers| == |annots|
    && forall j | 0 <= j < |numbers| ::
         && 0 < numbers[j] <= |objects|
         && objects[numbers[j] - 1].dict == Link(annots[j]) && objects[numbers[j] - 1].stream == ""
  }

  lemma LinksRead(objects: seq<Obj>, numbers: seq<nat>, page: PageDef, bodies: seq<Bytes>)
    requires LinksHeld(objects, numbers, page.annots) && PlainRects(page) && bodies == Bodies(Rendered(objects))
    ensures LinksShown(ReadLinks(bodies, numbers), page.annots)
  {
    var links := ReadLinks(bodies, numbers);
    forall j | 0 <= j < |links|
      ensures links[j] == Some(Utf8(page.annots[j].url)) <==> NeedsNoEscape(Utf8(page.annots[j].url), 0)
    {
      BodyIs(objects, numbers[j], Link(page.annots[j]), "", bodies);
      LinkReadsIff(page.annots[j]);
    }
  }

  lemma PageReads(objects: seq<Obj>, count: nat, k: nat, page: PageDef, bodies: seq<Bytes>)
    requires Resolves(objects, count, k, page, [2, 3, 4, 5]) && PlainRects(page)
    requires bodies == Bodies(Rendered(objects))
    ensures Shows(ReadPage(bodies, objects[1].dict.kids[k]), page)
  {
    var number, contents, annots := PartBodies(objects, count, k, page, bodies);
    LinksRead(objects, annots, page, bodies);
    PartsRead(number, contents, annots, page, bodies);
  }

  lemma PartBodies(objects: seq<Obj>, count: nat, k: nat, page: PageDef, bodies: seq<Bytes>)
    returns (number: nat, contents: nat, annots: seq<nat>)
    requires Resolves(objects, count, k, page, [2, 3, 4, 5]) && bodies == Bodies(Rendered(objects))
    ensures number == objects[1].dict.kids[k] && LinksHeld(objects, annots, page.annots)
    ensures BodyAt(bodies, number) == Some(Utf8(BodyText(Page(contents, [2, 3, 4, 5], annots), "")))
    ensures var data := JoinLines(page.ops);
            BodyAt(bodies, contents) == Some(Utf8(BodyText(Length(|Utf8(data)|), data)))
  {
    number := objects[1].dict.kids[k];
    contents, annots := objects[number - 1].dict.contents, objects[number - 1].dict.annots;
    BodyIs(objects, number, Page(contents, [2, 3, 4, 5], annots), "", bodies);
    BodyIs(objects, contents, Length(|Utf8(JoinLines(page.ops))|), JoinLines(page.ops), bodies);
  }

  lemma PartsRead(number: nat, contents: nat, annots: seq<nat>, page: PageDef, bodies: seq<Bytes>)
    requires BodyAt(bodies, number) == Some(Utf8(BodyText(Page(contents, [2, 3, 4, 5], annots), "")))
    requires var data := JoinLines(page.ops);
             BodyAt(bodies, contents) == Some(Utf8(BodyText(Length(|Utf8(data)|), data)))
    requires LinksShown(ReadLinks(bodies, annots), page.annots)
    ensures Shows(ReadPage(bodies, number), page)
  {
    PageDictReads(contents, [2, 3, 4, 5], annots);
    ContentsRead(JoinLines(page.ops));
  }

  lemma KidsRead(objects: seq<Obj>, bodies: seq<Bytes>)
    requires |objects| >= 2 && objects[0] == Obj(1, Catalog, "") && bodies == Bodies(Rendered(objects))
    requires objects[1].dict.PageTree? && objects[1].stream == ""
    ensures ReadKids(bodies, 1) == Some(objects[1].dict.kids)
  {
    BodyIs(objects, 1, Catalog, "", bodies);
    BodyIs(objects, 2, objects[1].dict, "", bodies);
    CatalogReads();
    PageTreeReads(objects[1].dict.kids);
  }

  ghost predicate AllShow(read: seq<Option<PageRead>>, pages: seq<PageDef>) {
    |read| == |pages| && forall k | 0 <= k < |pages| :: Shows(read[k], pages[k])
  }

  lemma PagesRead(pages: seq<PageDef>, objects: seq<Obj>, bodies: seq<Bytes>)
    requires objects == Built([], pages) && bodies == Bodies(Rendered(objects))
    requires forall k | 0 <= k < |pages| :: PlainRects(pages[k])
    ensures |objects| >= 5 && objects[1].dict.PageTree? && objects[1].stream == "" && objects[0] == Obj(1, Catalog, "")
    ensures AllShow(ReadPages(bodies, objects[1].dict.kids), pages)
  {
    TreeLists(pages);
    forall k | 0 <= k < |pages| ensures Shows(ReadPages(bodies, objects[1].dict.kids)[k], pages[k]) {
      PagesResolve(pages, k);
      PageReads(objects, |pages|, k, pages[k], bodies);
    }
  }

  /**
   * The bytes of the document are enough to see every page: reading from the trailer through catalog
   * and page tree gives each page's text and fonts, and each link exactly when its address needs no
   * escape.
   */
  lemma DocumentReadsBack(pages: seq<PageDef>, header: Bytes)
    requires forall k | 0 <= k < |pages| :: PlainRects(pages[k])
    requires var bodies := Bodies(Rendered(Built([], pages)));
             OffsetOf(header, bodies, |bodies|) < OFFSET_LIMIT
    ensures var read := ReadDocument(FileBytes(header, Bodies(Rendered(Built([], pages))), 1));
            read.Some? && AllShow(read.value, pages)
  {
    var objects := Built([], pages);
    var bodies := Bodies(Rendered(objects));
    FileReadsBack(header, bodies, 1);
    RootReadsBack(header, bodies, 1);
    PagesRead(pages, objects, bodies);
    KidsRead(objects, bodies);
  }
}
