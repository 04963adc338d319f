/**
 * The file layout both PDF writers produce, and a reader that starts from the end of the file:
 * startxref, the cross-reference table, then each object at its offset (ISO 32000-1, section 7.5).
 */
module PdfFile {
  import opened Common
  import opened PdfText

  // ---- Layout

  function ObjectHead(number: nat): Bytes {
    Ascii(Decimal(number) + " 0 obj\n")
  }

  function ObjectTail(): Bytes {
    Ascii("endobj\n")
  }

  /** Object `number` with everything between its head and `endobj`. */
  function ObjectBytes(number: nat, body: Bytes): Bytes {
    ObjectHead(number) + body + ObjectTail()
  }

  /** The same as text, the way both writers put it. */
  function ObjectText(number: nat, body: string): string {
    Decimal(number) + " 0 obj\n" + body + "endobj\n"
  }

  lemma ObjectTextBytes(number: nat, body: string)
    ensures Utf8(ObjectText(number, body)) == ObjectBytes(number, Utf8(body))
  {
    var head, tail := Decimal(number) + " 0 obj\n", "endobj\n";
    DecimalReads(number);
    HeadAndTailAreUtf8(head, Decimal(number), " 0 obj\n", tail);
    Utf8Append(head + body, tail);
    Utf8Append(head, body);
  }

  lemma HeadAndTailAreUtf8(head: string, number: string, obj: string, tail: string)
    requires IsAscii(number) && IsAscii(obj) && IsAscii(tail) && head == number + obj
    ensures Utf8(head) == Ascii(head) && Utf8(tail) == Ascii(tail)
  {
    AsciiIsUtf8(head);
    AsciiIsUtf8(tail);
  }

  /** The first n objects, in order. */
  function ObjectsBytes(bodies: seq<Bytes>, n: nat): Bytes
    requires n <= |bodies|
  {
    if n == 0 then [] else ObjectsBytes(bodies, n - 1) + ObjectBytes(n, bodies[n - 1])
  }

  /** Where object k + 1 starts; for k == |bodies|, where the table starts. */
  function OffsetOf(header: Bytes, bodies: seq<Bytes>, k: nat): nat
    requires k <= |bodies|
  {
    |header| + |ObjectsBytes(bodies, k)|
  }

  const ENTRY_TAIL := " 00000 n \n"

  function Entry(offset: nat): Bytes {
    Ascii(Pad10(offset) + ENTRY_TAIL)
  }

  /** The offsets of the objects, in order. */
  function OffsetsOf(header: Bytes, bodies: seq<Bytes>): seq<nat> {
    seq(|bodies|, k requires 0 <= k < |bodies| => OffsetOf(header, bodies, k))
  }

  function Entries(offsets: seq<nat>): Bytes {
    if offsets == [] then [] else Entry(offsets[0]) + Entries(offsets[1..])
  }

  const FREE_HEAD := "\n0000000000 65535 f \n"

  function XrefHead(count: nat): Bytes {
    Ascii("xref\n0 " + Decimal(count) + FREE_HEAD)
  }

  function TrailerText(count: nat, root: nat): string {
    TRAILER_SIZE + Decimal(count) + TRAILER_ROOT + Decimal(root) + TRAILER_CLOSE
  }

  function TrailerHead(count: nat, root: nat): Bytes {
    Ascii(TrailerText(count, root) + "startxref\n")
  }

  function Table(offsets: seq<nat>): Bytes {
    XrefHead(|offsets| + 1) + Entries(offsets)
  }

  const EOF := "\n%%EOF\n"

  function Trailer(count: nat, root: nat, start: nat): Bytes {
    TrailerHead(count, root) + Ascii(Decimal(start)) + Ascii(EOF)
  }

  /** What follows the objects: the table starts at byte `start`. */
  function TableAndTrailer(offsets: seq<nat>, root: nat, start: nat): Bytes {
    Table(offsets) + Trailer(|offsets| + 1, root, start)
  }

  function FileBytes(header: Bytes, bodies: seq<Bytes>, root: nat): Bytes {
    var n := |bodies|;
    header + ObjectsBytes(bodies, n) + TableAndTrailer(OffsetsOf(header, bodies), root, OffsetOf(header, bodies, n))
  }

  // ---- Reading

  /** The input after an expected token. */
  function Expect(token: Bytes, b: Bytes): Option<Bytes> {
    if token <= b then Some(b[|token|..]) else None
  }

  /** How many digits the input starts with. */
  function DigitRun(b: Bytes): (n: nat)
    ensures n <= |b| && forall x | x in b[..n] :: IsDigit(x)
  {
    if b == [] || !IsDigit(b[0]) then 0
    else
      var n := 1 + DigitRun(b[1..]);
      assert b[..n] == [b[0]] + b[1..][..n - 1];
      n
  }

  function ReadNumber(b: Bytes): Option<(nat, Bytes)> {
    var n := DigitRun(b);
    if n == 0 then None else Some((NumberOf(b[..n]), b[n..]))
  }

  /** How many digits the input ends with. */
  function DigitRunAtEnd(b: Bytes): (n: nat)
    ensures n <= |b| && forall x | x in b[|b| - n..] :: IsDigit(x)
  {
    if b == [] || !IsDigit(b[|b| - 1]) then 0
    else
      var n := 1 + DigitRunAtEnd(b[..|b| - 1]);
      assert b[|b| - n..] == b[..|b| - 1][|b| - n..] + [b[|b| - 1]];
      n
  }

  function EndsWith(b: Bytes, token: Bytes): Option<Bytes> {
    if |token| <= |b| && b[|b| - |token|..] == token then Some(b[..|b| - |token|]) else None
  }

  /** The number before %%EOF. */
  function ReadStartXref(file: Bytes): Option<nat> {
    match EndsWith(file, Ascii(EOF))
    case None => None
    case Some(b) =>
      var n := DigitRunAtEnd(b);
      if n > 0 && EndsWith(b[..|b| - n], Ascii("startxref\n")).Some? then Some(NumberOf(b[|b| - n..])) else None
  }

  /** n twenty-byte entries of objects in use. */
  function ReadEntries(b: Bytes, n: nat): Option<seq<nat>> {
    if n == 0 then Some([])
    else if |b| < 20 || DigitRun(b) != 10 || b[10..20] != Ascii(ENTRY_TAIL) then None
    else match ReadEntries(b[20..], n - 1)
      case None => None
      case Some(rest) => Some([NumberOf(b[..10])] + rest)
  }

  /** The number of entries after the free one, and what follows the free one. */
  function ReadXrefHead(b: Bytes): Option<(nat, Bytes)> {
    match Expect(Ascii("xref\n0 "), b)
    case None => None
    case Some(b1) =>
      match ReadNumber(b1)
      case None => None
      case Some((count, b2)) =>
        match Expect(Ascii(FREE_HEAD), b2)
        case None => None
        case Some(b3) => if count == 0 then None else Some((count - 1, b3))
  }

  function ReadXref(b: Bytes): Option<seq<nat>> {
    match ReadXrefHead(b)
    case None => None
    case Some((n, entries)) => ReadEntries(entries, n)
  }

  const TRAILER_SIZE := "trailer\n<< /Size "
  const TRAILER_ROOT := " /Root "
  const TRAILER_CLOSE := " 0 R >>\n"

  /** The number of the /Root object in a trailer dictionary. */
  function ReadTrailer(b: Bytes): Option<nat> {
    match Expect(Ascii(TRAILER_SIZE), b)
    case None => None
    case Some(b1) =>
      match ReadNumber(b1)
      case None => None
      case Some((_, b2)) =>
        match Expect(Ascii(TRAILER_ROOT), b2)
        case None => None
        case Some(b3) =>
          match ReadNumber(b3)
          case None => None
          case Some((root, b4)) => if Expect(Ascii(TRAILER_CLOSE), b4).Some? then Some(root) else None
  }

  /** The /Root of a file: the trailer stands behind the twenty-byte entries of the table. */
  function ReadRoot(file: Bytes): Option<nat> {
    match ReadStartXref(file)
    case None => None
    case Some(start) =>
      if start > |file| then None
      else match ReadXrefHead(file[start..])
        case None => None
        case Some((n, entries)) => if 20 * n <= |entries| then ReadTrailer(entries[20 * n..]) else None
  }

  /** The body of an object that occupies bytes [from, to). */
  function ReadObject(file: Bytes, number: nat, from: nat, to: nat): Option<Bytes> {
    if from <= to <= |file| then Between(ObjectHead(number), file[from..to], ObjectTail()) else None
  }

  /** What is left without a leading and a trailing token. */
  function Between(head: Bytes, b: Bytes, tail: Bytes): Option<Bytes> {
    match Expect(head, b)
    case None => None
    case Some(rest) => EndsWith(rest, tail)
  }

  /** Objects number, number + 1, ... at the given offsets; the last one ends at `end`. */
  function ReadObjects(file: Bytes, number: nat, offsets: seq<nat>, end: nat): Option<seq<Bytes>>
    decreases |offsets|
  {
    if offsets == [] then Some([])
    else
      match ReadObject(file, number, offsets[0], if |offsets| > 1 then offsets[1] else end)
      case None => None
      case Some(body) =>
        match ReadObjects(file, number + 1, offsets[1..], end)
        case None => None
        case Some(rest) => Some([body] + rest)
  }

  function ReadFile(file: Bytes): Option<seq<Bytes>> {
    match ReadStartXref(file)
    case None => None
    case Some(start) =>
      if start > |file| then None
      else match ReadXref(file[start..])
        case None => None
        case Some(offsets) => ReadObjects(file, 1, offsets, start)
  }

  // ---- The reader undoes the layout

  lemma ExpectToken(token: Bytes, rest: Bytes)
    ensures Expect(token, token + rest) == Some(rest)
  {
  }

  lemma EndsWithToken(before: Bytes, token: Bytes)
    ensures EndsWith(before + token, token) == Some(before)
  {
    assert (before + token)[|before|..] == token && (before + token)[..|before|] == before;
  }

  lemma {:induction false} DigitRunStops(digits: Bytes, rest: Bytes)
    requires forall x | x in digits :: IsDigit(x)
    requires rest != [] ==> !IsDigit(rest[0])
    ensures DigitRun(digits + rest) == |digits|
  {
    if digits == [] {
      assert digits + rest == rest;
    } else {
      DigitRunStops(digits[1..], rest);
      assert (digits + rest)[1..] == digits[1..] + rest;
    }
  }

  lemma {:induction false} DigitRunAtEndStops(before: Bytes, digits: Bytes)
    requires forall x | x in digits :: IsDigit(x)
    requires before != [] ==> !IsDigit(before[|before| - 1])
    ensures DigitRunAtEnd(before + digits) == |digits|
  {
    if digits == [] {
      assert before + digits == before;
    } else {
      DigitRunAtEndStops(before, digits[..|digits| - 1]);
      assert (before + digits)[..|before + digits| - 1] == before + digits[..|digits| - 1];
    }
  }

  lemma ReadDecimal(n: nat, rest: Bytes)
    requires rest != [] ==> !IsDigit(rest[0])
    ensures ReadNumber(Ascii(Decimal(n)) + rest) == Some((n, rest))
  {
    DecimalReads(n);
    DigitRunStops(Ascii(Decimal(n)), rest);
    var b := Ascii(Decimal(n)) + rest;
    assert b[..|Ascii(Decimal(n))|] == Ascii(Decimal(n)) && b[|Ascii(Decimal(n))|..] == rest;
  }

  /** An entry is twenty bytes exactly when its offset has at most ten digits. */
  lemma EntryIsTwentyBytes(offset: nat)
    ensures |Entry(offset)| == 20 <==> offset < OFFSET_LIMIT
    ensures Entry(offset) == Ascii(Pad10(offset)) + Ascii(ENTRY_TAIL)
  {
    Pad10Reads(offset);
    AsciiAppend(Pad10(offset), ENTRY_TAIL);
  }

  lemma {:induction false} EntriesAppend(offsets: seq<nat>, offset: nat)
    ensures Entries(offsets + [offset]) == Entries(offsets) + Entry(offset)
  {
    if offsets == [] {
      assert [] + [offset] == [offset] && [offset][1..] == [];
      assert Entry(offset) + [] == [] + Entry(offset) == Entry(offset);
    } else {
      var first, more := offsets[0], offsets[1..];
      var longer := offsets + [offset];
      EntriesAppend(more, offset);
      assert longer[0] == first && longer[1..] == more + [offset];
      Regroup(Entry(first), Entries(more), Entry(offset));
    }
  }

  lemma OneEntryReads(offset: nat, n: nat, rest: Bytes)
    requires offset < OFFSET_LIMIT
    ensures ReadEntries(Entry(offset) + rest, n + 1) ==
              match ReadEntries(rest, n) case None => None case Some(o) => Some([offset] + o)
  {
    EntryIsTwentyBytes(offset);
    Pad10Reads(offset);
    var p, t := Ascii(Pad10(offset)), Ascii(ENTRY_TAIL);
    var b := Entry(offset) + rest;
    assert b == p + (t + rest);
    DigitRunStops(p, t + rest);
    assert b[..10] == p && b[10..20] == t && b[20..] == rest;
  }

  lemma {:induction false} EntriesRead(offsets: seq<nat>, rest: Bytes)
    requires forall k | 0 <= k < |offsets| :: offsets[k] < OFFSET_LIMIT
    ensures ReadEntries(Entries(offsets) + rest, |offsets|) == Some(offsets)
  {
    if offsets == [] {
      assert Entries(offsets) + rest == rest;
    } else {
      EntriesRead(offsets[1..], rest);
      EntryThenEntries(offsets[0], offsets[1..], Entries(offsets[1..]) + rest);
      Regroup(Entry(offsets[0]), Entries(offsets[1..]), rest);
      assert offsets == [offsets[0]] + offsets[1..];
    }
  }

  lemma EntryThenEntries(offset: nat, offsets: seq<nat>, b: Bytes)
    requires offset < OFFSET_LIMIT && ReadEntries(b, |offsets|) == Some(offsets)
    ensures ReadEntries(Entry(offset) + b, |offsets| + 1) == Some([offset] + offsets)
  {
    OneEntryReads(offset, |offsets|, b);
  }

  lemma XrefReads(offsets: seq<nat>, rest: Bytes)
    requires forall k | 0 <= k < |offsets| :: offsets[k] < OFFSET_LIMIT
    ensures ReadXref(Table(offsets) + rest) == Some(offsets)
  {
    XrefHeadReads(offsets, rest);
    EntriesRead(offsets, rest);
  }

  lemma XrefHeadReads(offsets: seq<nat>, rest: Bytes)
    ensures ReadXrefHead(Table(offsets) + rest) == Some((|offsets|, Entries(offsets) + rest))
  {
    var n := |offsets|;
    var b3 := Entries(offsets) + rest;
    AsciiAppend("xref\n0 " + Decimal(n + 1), FREE_HEAD);
    AsciiAppend("xref\n0 ", Decimal(n + 1));
    var x, d, f := Ascii("xref\n0 "), Ascii(Decimal(n + 1)), Ascii(FREE_HEAD);
    ReadDecimal(n + 1, f + b3);
    Nest(x, d, f, Entries(offsets), rest);
    ExpectToken(x, d + (f + b3));
    ExpectToken(f, b3);
  }

  lemma Nest(a: Bytes, b: Bytes, c: Bytes, d: Bytes, e: Bytes)
    ensures a + b + c + d + e == a + (b + (c + (d + e)))
  {
  }

  lemma {:induction false} OffsetsGrow(header: Bytes, bodies: seq<Bytes>, k: nat, m: nat)
    requires k <= m <= |bodies|
    ensures OffsetOf(header, bodies, k) <= OffsetOf(header, bodies, m)
    ensures ObjectsBytes(bodies, k) <= ObjectsBytes(bodies, m)
    decreases m - k
  {
    if k < m {
      OffsetsGrow(header, bodies, k, m - 1);
      assert ObjectsBytes(bodies, m) == ObjectsBytes(bodies, m - 1) + ObjectBytes(m, bodies[m - 1]);
    }
  }

  lemma StartXrefReads(before: Bytes, count: nat, root: nat, offset: nat)
    ensures ReadStartXref(before + Trailer(count, root, offset)) == Some(offset)
  {
    var t, s := Ascii(TrailerText(count, root)), Ascii("startxref\n");
    AsciiAppend(TrailerText(count, root), "startxref\n");
    DecimalReads(offset);
    TailReads(before, t, s, Ascii(Decimal(offset)), Ascii(EOF));
    RegroupTail(before, t + s, Ascii(Decimal(offset)), Ascii(EOF));
  }

  lemma RegroupTail(before: Bytes, head: Bytes, digits: Bytes, eof: Bytes)
    ensures before + head + digits + eof == before + (head + digits + eof)
  {
  }

  lemma TailReads(before: Bytes, text: Bytes, s: Bytes, digits: Bytes, eof: Bytes)
    requires digits != [] && forall x | x in digits :: IsDigit(x)
    requires s == Ascii("startxref\n") && eof == Ascii(EOF)
    ensures ReadStartXref(before + (text + s) + digits + eof) == Some(NumberOf(digits))
  {
    var a := before + (text + s);
    assert a == (before + text) + s;
    assert a[|a| - 1] == s[|s| - 1] == LF;
    EndsWithToken(a + digits, eof);
    DigitRunAtEndStops(a, digits);
    assert (a + digits)[|a + digits| - |digits|..] == digits && (a + digits)[..|a + digits| - |digits|] == a;
    EndsWithToken(before + text, s);
  }

  /** The objects around object k + 1. */
  lemma {:induction false} ObjectsAround(bodies: seq<Bytes>, k: nat, n: nat) returns (after: Bytes)
    requires k < n <= |bodies|
    ensures ObjectsBytes(bodies, n) == ObjectsBytes(bodies, k) + ObjectBytes(k + 1, bodies[k]) + after
    ensures ObjectsBytes(bodies, k + 1) == ObjectsBytes(bodies, k) + ObjectBytes(k + 1, bodies[k])
    decreases n
  {
    if k == n - 1 {
      after := [];
    } else {
      var between := ObjectsAround(bodies, k, n - 1);
      after := between + ObjectBytes(n, bodies[n - 1]);
      Regroup(ObjectsBytes(bodies, k) + ObjectBytes(k + 1, bodies[k]), between, ObjectBytes(n, bodies[n - 1]));
    }
  }

  lemma Middle(header: Bytes, a: Bytes, b: Bytes, after: Bytes, rest: Bytes)
    ensures var file, from := header + (a + b + after) + rest, |header| + |a|;
            from + |b| <= |file| && file[from..from + |b|] == b
  {
  }

  /** Object k + 1 occupies exactly the bytes between its offset and the next one. */
  lemma ObjectSpan(header: Bytes, bodies: seq<Bytes>, k: nat, rest: Bytes)
    requires k < |bodies|
    ensures var file := header + ObjectsBytes(bodies, |bodies|) + rest;
            var from, to := OffsetOf(header, bodies, k), OffsetOf(header, bodies, k + 1);
            from <= to <= |file| && file[from..to] == ObjectBytes(k + 1, bodies[k])
  {
    var after := ObjectsAround(bodies, k, |bodies|);
    Middle(header, ObjectsBytes(bodies, k), ObjectBytes(k + 1, bodies[k]), after, rest);
  }

  lemma BetweenReads(head: Bytes, body: Bytes, tail: Bytes)
    ensures Between(head, head + body + tail, tail) == Some(body)
  {
    Regroup(head, body, tail);
    ExpectToken(head, body + tail);
    EndsWithToken(body, tail);
  }

  lemma ObjectReads(header: Bytes, bodies: seq<Bytes>, k: nat, rest: Bytes, file: Bytes)
    requires k < |bodies| && file == header + ObjectsBytes(bodies, |bodies|) + rest
    ensures ReadObject(file, k + 1, OffsetOf(header, bodies, k), OffsetOf(header, bodies, k + 1)) == Some(bodies[k])
  {
    ObjectSpan(header, bodies, k, rest);
    BetweenReads(ObjectHead(k + 1), bodies[k], ObjectTail());
  }

  ghost predicate Readable(file: Bytes, number: nat, offsets: seq<nat>, end: nat, bodies: seq<Bytes>, k: nat)
    requires k < |bodies| == |offsets|
  {
    ReadObject(file, number + k, offsets[k], if k + 1 < |bodies| then offsets[k + 1] else end) == Some(bodies[k])
  }

  /** Objects that can be read one by one, from offset to offset, are read in a row. */
  lemma {:induction false} ObjectsRead(file: Bytes, number: nat, offsets: seq<nat>, end: nat, bodies: seq<Bytes>)
    requires |bodies| == |offsets|
    requires forall k | 0 <= k < |bodies| :: Readable(file, number, offsets, end, bodies, k)
    ensures ReadObjects(file, number, offsets, end) == Some(bodies)
    decreases |bodies|
  {
    if bodies != [] {
      var next, moreOffsets, moreBodies := number + 1, offsets[1..], bodies[1..];
      forall k | 0 <= k < |moreBodies| ensures Readable(file, next, moreOffsets, end, moreBodies, k) {
        assert Readable(file, number, offsets, end, bodies, k + 1);
      }
      ObjectsRead(file, next, moreOffsets, end, moreBodies);
      assert Readable(file, number, offsets, end, bodies, 0);
      assert bodies == [bodies[0]] + bodies[1..];
    }
  }

  /**
   * Reading a written file from its end recovers every object body under its number, whatever
   * bytes the bodies hold, as long as the table starts before byte 10^10.
   */
  lemma FileReadsBack(header: Bytes, bodies: seq<Bytes>, root: nat)
    requires OffsetOf(header, bodies, |bodies|) < OFFSET_LIMIT
    ensures ReadFile(FileBytes(header, bodies, root)) == Some(bodies)
  {
    var end := OffsetOf(header, bodies, |bodies|);
    FileStart(header, bodies, root);
    FileTable(header, bodies, root);
    FileObjects(header, bodies, root);
    ReadFileSteps(FileBytes(header, bodies, root), end, OffsetsOf(header, bodies), bodies);
  }

  lemma FileStart(header: Bytes, bodies: seq<Bytes>, root: nat)
    ensures ReadStartXref(FileBytes(header, bodies, root)) == Some(OffsetOf(header, bodies, |bodies|))
    ensures OffsetOf(header, bodies, |bodies|) <= |FileBytes(header, bodies, root)|
  {
    var n, offsets, end := |bodies|, OffsetsOf(header, bodies), OffsetOf(header, bodies, |bodies|);
    var objects := header + ObjectsBytes(bodies, n);
    Regroup(objects, Table(offsets), Trailer(n + 1, root, end));
    StartXrefReads(objects + Table(offsets), n + 1, root, end);
  }

  lemma FileTable(header: Bytes, bodies: seq<Bytes>, root: nat)
    requires OffsetOf(header, bodies, |bodies|) < OFFSET_LIMIT
    requires OffsetOf(header, bodies, |bodies|) <= |FileBytes(header, bodies, root)|
    ensures ReadXref(FileBytes(header, bodies, root)[OffsetOf(header, bodies, |bodies|)..]) ==
              Some(OffsetsOf(header, bodies))
  {
    var offsets, end := OffsetsOf(header, bodies), OffsetOf(header, bodies, |bodies|);
    DropPrefix(header + ObjectsBytes(bodies, |bodies|), TableAndTrailer(offsets, root, end));
    OffsetsInRange(header, bodies);
    XrefReads(offsets, Trailer(|offsets| + 1, root, end));
  }

  lemma DropPrefix(before: Bytes, rest: Bytes)
    ensures (before + rest)[|before|..] == rest
  {
  }

  lemma FileObjects(header: Bytes, bodies: seq<Bytes>, root: nat)
    ensures ReadObjects(FileBytes(header, bodies, root), 1, OffsetsOf(header, bodies),
              OffsetOf(header, bodies, |bodies|)) == Some(bodies)
  {
    var offsets, end := OffsetsOf(header, bodies), OffsetOf(header, bodies, |bodies|);
    var file, rest := FileBytes(header, bodies, root), TableAndTrailer(offsets, root, end);
    forall k | 0 <= k < |bodies| ensures Readable(file, 1, offsets, end, bodies, k) {
      ObjectReads(header, bodies, k, rest, file);
    }
    ObjectsRead(file, 1, offsets, end, bodies);
  }

  lemma ReadFileSteps(file: Bytes, start: nat, offsets: seq<nat>, bodies: seq<Bytes>)
    requires ReadStartXref(file) == Some(start) && start <= |file|
    requires ReadXref(file[start..]) == Some(offsets)
    requires ReadObjects(file, 1, offsets, start) == Some(bodies)
    ensures ReadFile(file) == Some(bodies)
  {
  }

  lemma OffsetsInRange(header: Bytes, bodies: seq<Bytes>)
    requires OffsetOf(header, bodies, |bodies|) < OFFSET_LIMIT
    ensures forall k | 0 <= k < |bodies| :: OffsetsOf(header, bodies)[k] < OFFSET_LIMIT
  {
    forall k | 0 <= k < |bodies|
      ensures OffsetsOf(header, bodies)[k] < OFFSET_LIMIT
    {
      OffsetsGrow(header, bodies, k, |bodies|);
    }
  }

  // ---- The root

  lemma {:induction false} EntriesLength(offsets: seq<nat>)
    requires forall k | 0 <= k < |offsets| :: offsets[k] < OFFSET_LIMIT
    ensures |Entries(offsets)| == 20 * |offsets|
  {
    if offsets != [] {
      EntryIsTwentyBytes(offsets[0]);
      EntriesLength(offsets[1..]);
    }
  }

  lemma TrailerReads(count: nat, root: nat, start: nat)
    ensures ReadTrailer(Trailer(count, root, start)) == Some(root)
  {
    var rest := Ascii("startxref\n") + Ascii(Decimal(start)) + Ascii(EOF);
    TrailerParts(count, root, start);
    TrailerBytesRead(Ascii(TRAILER_SIZE), count, Ascii(TRAILER_ROOT), root, Ascii(TRAILER_CLOSE), rest);
  }

  lemma TrailerBytesRead(a: Bytes, count: nat, b: Bytes, root: nat, c: Bytes, rest: Bytes)
    requires a == Ascii(TRAILER_SIZE) && b == Ascii(TRAILER_ROOT) && c == Ascii(TRAILER_CLOSE)
    ensures ReadTrailer(a + (Ascii(Decimal(count)) + (b + (Ascii(Decimal(root)) + (c + rest))))) == Some(root)
  {
    var b4 := c + rest;
    var b3 := Ascii(Decimal(root)) + b4;
    var b2 := b + b3;
    assert b[0] == 32 && c[0] == 32;
    ExpectToken(a, Ascii(Decimal(count)) + b2);
    ReadDecimal(count, b2);
    ExpectToken(b, b3);
    ReadDecimal(root, b4);
    ExpectToken(c, rest);
  }

  lemma TrailerParts(count: nat, root: nat, start: nat)
    ensures Trailer(count, root, start) ==
              Ascii(TRAILER_SIZE) + (Ascii(Decimal(count)) + (Ascii(TRAILER_ROOT) + (Ascii(Decimal(root))
              + (Ascii(TRAILER_CLOSE) + (Ascii("startxref\n") + Ascii(Decimal(start)) + Ascii(EOF))))))
  {
    var a, b, c, d, e := TRAILER_SIZE, Decimal(count), TRAILER_ROOT, Decimal(root), TRAILER_CLOSE;
    AsciiFive(a, b, c, d, e);
    AsciiAppend(a + b + c + d + e, "startxref\n");
    NestTrailer(Ascii(a), Ascii(b), Ascii(c), Ascii(d), Ascii(e), Ascii("startxref\n"), Ascii(Decimal(start)),
        Ascii(EOF));
  }

  lemma AsciiFive(a: string, b: string, c: string, d: string, e: string)
    ensures Ascii(a + b + c + d + e) == Ascii(a) + Ascii(b) + Ascii(c) + Ascii(d) + Ascii(e)
  {
    AsciiAppend(a + b + c + d, e);
    AsciiAppend(a + b + c, d);
    AsciiAppend(a + b, c);
    AsciiAppend(a, b);
  }

  lemma NestTrailer(a: Bytes, b: Bytes, c: Bytes, d: Bytes, e: Bytes, f: Bytes, g: Bytes, h: Bytes)
    ensures (a + b + c + d + e + f) + g + h == a + (b + (c + (d + (e + (f + g + h)))))
  {
  }

  /** The root number a file was written with is read back from its trailer. */
  lemma RootReadsBack(header: Bytes, bodies: seq<Bytes>, root: nat)
    requires OffsetOf(header, bodies, |bodies|) < OFFSET_LIMIT
    ensures ReadRoot(FileBytes(header, bodies, root)) == Some(root)
  {
    var offsets, end := OffsetsOf(header, bodies), OffsetOf(header, bodies, |bodies|);
    var trailer := Trailer(|offsets| + 1, root, end);
    FileStart(header, bodies, root);
    DropPrefix(header + ObjectsBytes(bodies, |bodies|), TableAndTrailer(offsets, root, end));
    OffsetsInRange(header, bodies);
    EntriesLength(offsets);
    XrefHeadReads(offsets, trailer);
    DropPrefix(Entries(offsets), trailer);
    TrailerReads(|offsets| + 1, root, end);
  }

  // ---- The table and the trailer as text

  method WriteEntries(offsets: seq<nat>) returns (text: string)
    ensures Utf8(text) == Entries(offsets)
  {
    text := "";
    for i := 0 to |offsets|
      invariant Utf8(text) == Entries(offsets[..i])
    {
      EntryIsUtf8(offsets[i]);
      var entry := Pad10(offsets[i]) + " 00000 n \n";
      EntryAppends(text, entry, offsets[..i], offsets[i]);
      assert offsets[..i + 1] == offsets[..i] + [offsets[i]];
      text := text + entry;
    }
    assert offsets[..|offsets|] == offsets;
  }

  lemma EntryIsUtf8(offset: nat)
    ensures Utf8(Pad10(offset) + ENTRY_TAIL) == Entry(offset)
  {
    Pad10Reads(offset);
    AsciiJoin(Pad10(offset), ENTRY_TAIL, "");
    AsciiIsUtf8(Pad10(offset) + ENTRY_TAIL);
  }

  lemma AppendBytes(a: string, b: string, x: Bytes, y: Bytes)
    requires Utf8(a) == x && Utf8(b) == y
    ensures Utf8(a + b) == x + y
  {
    Utf8Append(a, b);
  }

  lemma EntryAppends(text: string, entry: string, before: seq<nat>, offset: nat)
    requires Utf8(text) == Entries(before) && Utf8(entry) == Entry(offset)
    ensures Utf8(text + entry) == Entries(before + [offset])
  {
    AppendBytes(text, entry, Entries(before), Entry(offset));
    EntriesAppend(before, offset);
  }

  lemma TableTextIsAscii(count: nat)
    ensures Utf8("xref\n0 " + Decimal(count) + FREE_HEAD) == XrefHead(count)
  {
    DecimalReads(count);
    AsciiIsUtf8("xref\n0 " + Decimal(count) + FREE_HEAD);
  }

  lemma AsciiJoin(a: string, b: string, c: string)
    requires IsAscii(a) && IsAscii(b) && IsAscii(c)
    ensures IsAscii(a + b + c) && a + b + "" == a + b
  {
  }

  lemma TrailerTextIsAscii(count: nat, root: nat)
    ensures Utf8(TrailerText(count, root) + "startxref\n") == TrailerHead(count, root)
  {
    DecimalReads(count);
    DecimalReads(root);
    var a, b, c, d := TRAILER_SIZE, TRAILER_ROOT, TRAILER_CLOSE, "startxref\n";
    AsciiJoin(a, Decimal(count), b);
    AsciiJoin(a + Decimal(count) + b, Decimal(root), c);
    AsciiJoin(a + Decimal(count) + b + Decimal(root) + c, d, "");
    AsciiIsUtf8(TrailerText(count, root) + d);
  }

  lemma TailTextIsAscii(offset: nat)
    ensures Utf8(Decimal(offset)) == Ascii(Decimal(offset)) && Utf8(EOF) == Ascii(EOF)
  {
    DecimalReads(offset);
    AsciiIsUtf8(Decimal(offset));
    AsciiIsUtf8(EOF);
  }

  /** The table and the trailer, as both writers emit them. */
  method WriteTableAndTrailer(offsets: seq<nat>, root: nat, start: nat) returns (text: string)
    ensures Utf8(text) == TableAndTrailer(offsets, root, start)
  {
    var count := |offsets| + 1;
    var entries := WriteEntries(offsets);
    var head := "xref\n0 " + Decimal(count) + "\n0000000000 65535 f \n";
    var trailer := "trailer\n<< /Size " + Decimal(count) + " /Root " + Decimal(root) + " 0 R >>\n" + "startxref\n";
    TableTextIsAscii(count);
    TrailerTextIsAscii(count, root);
    TailTextIsAscii(start);
    text := Joined(head, entries, trailer, Decimal(start), "\n%%EOF\n",
                   XrefHead(count), Entries(offsets), TrailerHead(count, root), Ascii(Decimal(start)), Ascii(EOF));
  }

  function Joined(a: string, b: string, c: string, d: string, e: string,
                  ghost v: Bytes, ghost w: Bytes, ghost x: Bytes, ghost y: Bytes, ghost z: Bytes): (text: string)
    requires Utf8(a) == v && Utf8(b) == w && Utf8(c) == x && Utf8(d) == y && Utf8(e) == z
    ensures Utf8(text) == v + w + (x + y + z)
  {
    AppendBytes(a, b, v, w);
    AppendBytes(c, d, x, y);
    AppendBytes(c + d, e, x + y, z);
    AppendBytes(a + b, c + d + e, v + w, x + y + z);
    (a + b) + (c + d + e)
  }

  // ---- Streams

  predicate IsSpace(b: Byte) {
    b == LF || b == CR || b == 32
  }

  function SkipSpace(b: Bytes): Bytes {
    if b != [] && IsSpace(b[0]) then SkipSpace(b[1..]) else b
  }

  /** A stream object whose dictionary holds just /Length: the Length bytes after `stream`. */
  function ReadStream(body: Bytes): Option<Bytes> {
    match Expect(Ascii("<<"), body)
    case None => None
    case Some(b1) =>
      match Expect(Ascii("/Length "), SkipSpace(b1))
      case None => None
      case Some(b2) =>
        match ReadNumber(b2)
        case None => None
        case Some((length, b3)) =>
          match Expect(Ascii(">>\nstream\n"), SkipSpace(b3))
          case None => None
          case Some(b4) =>
            if length <= |b4| && b4[length..] == Ascii("\nendstream\n") then Some(b4[..length]) else None
  }

  function StreamHead(open: string, close: string, n: nat): string {
    "<<" + open + "/Length " + Decimal(n) + close + ">>\nstream\n"
  }

  /** The dictionary opening and the separator before `>>`, as each writer spaces them. */
  function StreamBody(open: string, close: string, data: string): string {
    StreamHead(open, close, |Utf8(data)|) + data + "\nendstream\n"
  }

  lemma StreamHeadParts(open: string, close: string, n: nat)
    requires open in {" ", "\n"} && close in {" ", "\n"}
    ensures IsAscii(StreamHead(open, close, n))
    ensures Ascii(StreamHead(open, close, n)) ==
              Ascii("<<") + Ascii(open) + Ascii("/Length ") + Ascii(Decimal(n)) + Ascii(close) + Ascii(">>\nstream\n")
  {
    DecimalReads(n);
    AsciiAppend("<<" + open + "/Length " + Decimal(n) + close, ">>\nstream\n");
    AsciiAppend("<<" + open + "/Length " + Decimal(n), close);
    AsciiAppend("<<" + open + "/Length ", Decimal(n));
    AsciiAppend("<<" + open, "/Length ");
    AsciiAppend("<<", open);
  }

  lemma NestStream(a: Bytes, b: Bytes, c: Bytes, d: Bytes, e: Bytes, f: Bytes, g: Bytes, i: Bytes)
    ensures a + b + c + d + e + f + g + i == a + (b + (c + (d + (e + (f + (g + i))))))
  {
  }

  /** The parts of a stream object, as bytes. */
  lemma StreamParts(open: string, close: string, data: string)
    requires open in {" ", "\n"} && close in {" ", "\n"}
    ensures Utf8(StreamBody(open, close, data)) ==
              Ascii("<<") + (Ascii(open) + (Ascii("/Length ") + (Ascii(Decimal(|Utf8(data)|)) + (Ascii(close)
              + (Ascii(">>\nstream\n") + (Utf8(data) + Ascii("\nendstream\n")))))))
  {
    var head := StreamHead(open, close, |Utf8(data)|);
    StreamHeadParts(open, close, |Utf8(data)|);
    AsciiIsUtf8(head);
    AsciiIsUtf8("\nendstream\n");
    Utf8Append(head + data, "\nendstream\n");
    Utf8Append(head, data);
    NestStream(Ascii("<<"), Ascii(open), Ascii("/Length "), Ascii(Decimal(|Utf8(data)|)), Ascii(close),
               Ascii(">>\nstream\n"), Utf8(data), Ascii("\nendstream\n"));
  }

  lemma StreamReads(open: Bytes, close: Bytes, n: nat, data: Bytes)
    requires |open| == 1 && IsSpace(open[0]) && |close| == 1 && IsSpace(close[0]) && n == |data|
    ensures ReadStream(Ascii("<<") + (open + (Ascii("/Length ") + (Ascii(Decimal(n)) + (close
              + (Ascii(">>\nstream\n") + (data + Ascii("\nendstream\n")))))))) == Some(data)
  {
    var b4 := data + Ascii("\nendstream\n");
    var b3 := close + (Ascii(">>\nstream\n") + b4);
    var b2 := Ascii(Decimal(n)) + b3;
    var b1 := open + (Ascii("/Length ") + b2);
    ExpectToken(Ascii("<<"), b1);
    SkipOne(open, Ascii("/Length ") + b2);
    ExpectToken(Ascii("/Length "), b2);
    ReadDecimal(n, b3);
    SkipOne(close, Ascii(">>\nstream\n") + b4);
    ExpectToken(Ascii(">>\nstream\n"), b4);
    assert b4[n..] == Ascii("\nendstream\n") && b4[..n] == data;
  }

  /** /Length delimits exactly the bytes of the stream, whatever they are. */
  lemma StreamReadsBack(open: string, close: string, data: string)
    requires open in {" ", "\n"} && close in {" ", "\n"}
    ensures ReadStream(Utf8(StreamBody(open, close, data))) == Some(Utf8(data))
  {
    StreamParts(open, close, data);
    StreamReads(Ascii(open), Ascii(close), |Utf8(data)|, Utf8(data));
  }

  lemma SkipOne(space: Bytes, rest: Bytes)
    requires |space| == 1 && IsSpace(space[0]) && rest != [] && !IsSpace(rest[0])
    ensures SkipSpace(space + rest) == rest
  {
    assert (space + rest)[1..] == rest;
  }
}
