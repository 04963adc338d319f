/** References to objects: how both writers list them, and a reader of such lists (ISO 32000-1, section 7.3.10). */
module PdfRefs {
  import opened Common
  import opened PdfText
  import opened PdfFile

  function Ref(number: nat): string {
    Decimal(number) + " 0 R"
  }

  function Refs(numbers: seq<nat>): string {
    if numbers == [] then ""
    else if |numbers| == 1 then Ref(numbers[0])
    else Refs(numbers[..|numbers| - 1]) + " " + Ref(numbers[|numbers| - 1])
  }

  /** n consecutive numbers after `from`. */
  function Numbers(from: nat, n: nat): seq<nat> {
    seq(n, i requires 0 <= i < n => from + 1 + i)
  }

  // ---- Reading

  /** The body of the object with this number. */
  function BodyAt(bodies: seq<Bytes>, number: nat): Option<Bytes> {
    if 0 < number <= |bodies| then Some(bodies[number - 1]) else None
  }

  const REF_TAIL := " 0 R"

  /** `n 0 R` */
  function ReadRef(b: Bytes): Option<(nat, Bytes)> {
    match ReadNumber(b)
    case None => None
    case Some((number, b1)) =>
      match Expect(Ascii(REF_TAIL), b1)
      case None => None
      case Some(b2) => Some((number, b2))
  }

  /** References separated by single spaces, as many as there are. */
  function ReadRefs(b: Bytes): (r: (seq<nat>, Bytes))
    ensures |r.1| <= |b|
    decreases |b|
  {
    match ReadRef(b)
    case None => ([], b)
    case Some((number, rest)) =>
      if rest == [] || rest[0] != SPACE then ([number], rest)
      else
        var (more, end) := ReadRefs(rest[1..]);
        ([number] + more, end)
  }

  const SPACE: Byte := 32

  lemma RefIsAscii(number: nat)
    ensures IsAscii(Ref(number))
    ensures Ascii(Ref(number)) == Ascii(Decimal(number)) + Ascii(REF_TAIL)
  {
    DecimalReads(number);
    AsciiAppend(Decimal(number), REF_TAIL);
  }

  lemma RefReads(number: nat, rest: Bytes)
    ensures ReadRef(Ascii(Ref(number)) + rest) == Some((number, rest))
  {
    RefIsAscii(number);
    var tail := Ascii(REF_TAIL);
    Regroup(Ascii(Decimal(number)), tail, rest);
    assert tail[0] == SPACE;
    ReadDecimal(number, tail + rest);
    ExpectToken(tail, rest);
  }

  lemma {:induction false} RefsAreAscii(numbers: seq<nat>)
    ensures IsAscii(Refs(numbers))
  {
    if numbers != [] {
      RefIsAscii(numbers[|numbers| - 1]);
      RefsAreAscii(numbers[..|numbers| - 1]);
    }
  }

  /** The list, from its front. */
  lemma {:induction false} RefsFront(numbers: seq<nat>)
    requires |numbers| > 1
    ensures Refs(numbers) == Ref(numbers[0]) + " " + Refs(numbers[1..])
  {
    var n := |numbers| - 1;
    if n == 1 {
      assert numbers[..1] == [numbers[0]] && numbers[1..] == [numbers[1]];
    } else {
      RefsFront(numbers[..n]);
      assert numbers[..n][1..] == numbers[1..][..n - 1];
      RegroupText(Ref(numbers[0]) + " ", Refs(numbers[1..][..n - 1]), " ", Ref(numbers[n]));
    }
  }

  lemma RegroupText(a: string, b: string, c: string, d: string)
    ensures (a + b) + c + d == a + (b + c + d)
  {
  }

  /** The reader undoes the list. */
  lemma {:induction false} RefsRead(numbers: seq<nat>, rest: Bytes)
    requires rest != [] && !IsDigit(rest[0]) && rest[0] != SPACE
    ensures ReadRefs(Ascii(Refs(numbers)) + rest) == (numbers, rest)
  {
    if numbers == [] {
      assert Ascii("") + rest == rest;
    } else if |numbers| == 1 {
      LastRef(numbers[0], rest);
      assert numbers == [numbers[0]];
    } else {
      var number, more := numbers[0], numbers[1..];
      RefsRead(more, rest);
      MoreRefs(number, more, Ascii(Refs(more)) + rest, rest);
      FrontBytes(number, more, numbers, rest);
      assert numbers == [number] + more;
    }
  }

  lemma LastRef(number: nat, rest: Bytes)
    requires rest != [] && rest[0] != SPACE
    ensures ReadRefs(Ascii(Ref(number)) + rest) == ([number], rest)
  {
    RefReads(number, rest);
  }

  lemma FrontBytes(number: nat, more: seq<nat>, numbers: seq<nat>, rest: Bytes)
    requires |numbers| > 1 && number == numbers[0] && more == numbers[1..]
    ensures Ascii(Refs(numbers)) + rest == Ascii(Ref(number)) + (Ascii(" ") + (Ascii(Refs(more)) + rest))
  {
    RefsFront(numbers);
    AsciiAppend(Ref(number) + " ", Refs(more));
    AsciiAppend(Ref(number), " ");
    RegroupFour(Ascii(Ref(number)), Ascii(" "), Ascii(Refs(more)), rest);
  }

  lemma RegroupFour(a: Bytes, b: Bytes, c: Bytes, d: Bytes)
    ensures a + b + c + d == a + (b + (c + d))
  {
  }

  lemma MoreRefs(number: nat, more: seq<nat>, tail: Bytes, rest: Bytes)
    requires ReadRefs(tail) == (more, rest)
    ensures ReadRefs(Ascii(Ref(number)) + (Ascii(" ") + tail)) == ([number] + more, rest)
  {
    RefReads(number, Ascii(" ") + tail);
    assert (Ascii(" ") + tail)[0] == SPACE && (Ascii(" ") + tail)[1..] == tail;
  }
}
