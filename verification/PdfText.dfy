/**
 * Text and numbers as the PDF writers emit them: UTF-8, decimal digits, escaped literal strings,
 * and the readers that undo them (ISO 32000-1, sections 7.3.3 and 7.3.4.2).
 */
module PdfText {
  import opened Common

  // ---- UTF-8

  function Utf8Char(c: char): (b: Bytes)
    ensures 1 <= |b| <= 4
    ensures (c as int) < 0x80 ==> b == [c as int]
    ensures (c as int) >= 0x80 ==> forall x | x in b :: x >= 0x80
  {
    var u := c as int;
    if u < 0x80 then [u]
    else if u < 0x800 then [0xC0 + u / 0x40, 0x80 + u % 0x40]
    else if u < 0x1_0000 then [0xE0 + u / 0x1000, 0x80 + u / 0x40 % 0x40, 0x80 + u % 0x40]
    else [0xF0 + u / 0x4_0000, 0x80 + u / 0x1000 % 0x40, 0x80 + u / 0x40 % 0x40, 0x80 + u % 0x40]
  }

  /** Buffer.from(s, "utf-8"); its length is Buffer.byteLength(s, "utf-8"). */
  function Utf8(s: string): Bytes {
    if s == "" then [] else Utf8Char(s[0]) + Utf8(s[1..])
  }

  lemma {:induction false} Utf8Append(s: string, t: string)
    ensures Utf8(s + t) == Utf8(s) + Utf8(t)
  {
    if s == "" {
      assert s + t == t;
    } else {
      assert (s + t)[0] == s[0] && (s + t)[1..] == s[1..] + t;
      Utf8Append(s[1..], t);
    }
  }

  /** The character that an encoding starts with, and what follows it (RFC 3629, section 3). */
  function DecodeFirst(b: Bytes): Option<(int, Bytes)> {
    if b == [] then None
    else if b[0] < 0x80 then Some((b[0] as int, b[1..]))
    else if b[0] < 0xC0 then None
    else if b[0] < 0xE0 then
      if |b| < 2 then None else Some(((b[0] as int - 0xC0) * 0x40 + Tail(b, 1), b[2..]))
    else if b[0] < 0xF0 then
      if |b| < 3 then None else Some(((b[0] as int - 0xE0) * 0x1000 + Tail(b, 1) * 0x40 + Tail(b, 2), b[3..]))
    else if |b| < 4 then None
    else Some(((b[0] as int - 0xF0) * 0x4_0000 + Tail(b, 1) * 0x1000 + Tail(b, 2) * 0x40 + Tail(b, 3), b[4..]))
  }

  /** The six bits of a continuation byte. */
  function Tail(b: Bytes, i: nat): int
    requires i < |b|
  {
    b[i] as int - 0x80
  }

  lemma Utf8CharDecodes(c: char, rest: Bytes)
    ensures DecodeFirst(Utf8Char(c) + rest) == Some((c as int, rest))
  {
    var u := c as int;
    SixBits(u);
    if u < 0x80 {
      assert ([u] + rest)[1..] == rest;
    } else if u < 0x800 {
      DecodeTwo(0xC0 + u / 0x40, 0x80 + u % 0x40, rest);
    } else if u < 0x1_0000 {
      DecodeThree(0xE0 + u / 0x1000, 0x80 + u / 0x40 % 0x40, 0x80 + u % 0x40, rest);
    } else {
      DecodeFour(0xF0 + u / 0x4_0000, 0x80 + u / 0x1000 % 0x40, 0x80 + u / 0x40 % 0x40, 0x80 + u % 0x40, rest);
    }
  }

  /** A number, in groups of six bits. */
  lemma SixBits(u: nat)
    ensures u == u / 0x40 * 0x40 + u % 0x40
    ensures u == u / 0x1000 * 0x1000 + u / 0x40 % 0x40 * 0x40 + u % 0x40
    ensures u == u / 0x4_0000 * 0x4_0000 + u / 0x1000 % 0x40 * 0x1000 + u / 0x40 % 0x40 * 0x40 + u % 0x40
  {
    assert u / 0x40 / 0x40 == u / 0x1000;
    assert u / 0x1000 / 0x40 == u / 0x4_0000;
  }

  lemma DecodeTwo(a: Byte, b: Byte, rest: Bytes)
    requires 0xC0 <= a < 0xE0
    ensures DecodeFirst([a, b] + rest) == Some(((a as int - 0xC0) * 0x40 + (b as int - 0x80), rest))
  {
    assert ([a, b] + rest)[2..] == rest;
  }

  lemma DecodeThree(a: Byte, b: Byte, c: Byte, rest: Bytes)
    requires 0xE0 <= a < 0xF0
    ensures DecodeFirst([a, b, c] + rest) ==
              Some(((a as int - 0xE0) * 0x1000 + (b as int - 0x80) * 0x40 + (c as int - 0x80), rest))
  {
    assert ([a, b, c] + rest)[3..] == rest;
  }

  lemma DecodeFour(a: Byte, b: Byte, c: Byte, d: Byte, rest: Bytes)
    requires 0xF0 <= a
    ensures DecodeFirst([a, b, c, d] + rest) ==
              Some(((a as int - 0xF0) * 0x4_0000 + (b as int - 0x80) * 0x1000 + (c as int - 0x80) * 0x40
                    + (d as int - 0x80), rest))
  {
    assert ([a, b, c, d] + rest)[4..] == rest;
  }

  /** A text is determined by its encoding. */
  lemma {:induction false} Utf8Decodes(s: string, t: string)
    requires Utf8(s) == Utf8(t)
    ensures s == t
  {
    if s != "" && t != "" {
      Utf8CharDecodes(s[0], Utf8(s[1..]));
      Utf8CharDecodes(t[0], Utf8(t[1..]));
      Utf8Decodes(s[1..], t[1..]);
      assert s == [s[0]] + s[1..] && t == [t[0]] + t[1..];
    }
  }

  predicate IsAscii(s: string) {
    forall i | 0 <= i < |s| :: (s[i] as int) < 0x80
  }

  /** The bytes of an ASCII text. */
  function Ascii(s: string): Bytes {
    seq(|s|, i requires 0 <= i < |s| => if (s[i] as int) < 0x80 then s[i] as int else 63)
  }

  lemma {:induction false} AsciiIsUtf8(s: string)
    requires IsAscii(s)
    ensures Utf8(s) == Ascii(s)
  {
    if s != "" {
      AsciiIsUtf8(s[1..]);
      assert Ascii(s) == [s[0] as int] + Ascii(s[1..]);
    }
  }

  lemma AsciiAppend(s: string, t: string)
    ensures Ascii(s + t) == Ascii(s) + Ascii(t)
  {
  }

  // ---- Decimal numbers

  function Decimal(n: nat): string {
    if n < 10 then [('0' as int + n) as char] else Decimal(n / 10) + [('0' as int + n % 10) as char]
  }

  /** String(n).padStart(10, "0") */
  function Pad10(n: nat): string {
    var d := Decimal(n);
    if |d| < 10 then seq(10 - |d|, _ => '0') + d else d
  }

  predicate IsDigit(b: Byte) {
    48 <= b <= 57
  }

  function NumberOf(digits: Bytes): nat
    requires forall b | b in digits :: IsDigit(b)
  {
    if digits == [] then 0
    else
      var last := digits[|digits| - 1];
      assert IsDigit(last);
      10 * NumberOf(digits[..|digits| - 1]) + (last as int - 48)
  }

  lemma {:induction false} DecimalReads(n: nat)
    ensures IsAscii(Decimal(n)) && Decimal(n) != ""
    ensures forall b | b in Ascii(Decimal(n)) :: IsDigit(b)
    ensures NumberOf(Ascii(Decimal(n))) == n
  {
    var last := [('0' as int + n % 10) as char];
    assert Ascii(last) == [48 + n % 10];
    if n >= 10 {
      DecimalReads(n / 10);
      AsciiAppend(Decimal(n / 10), last);
      var b := Ascii(Decimal(n));
      assert b[..|b| - 1] == Ascii(Decimal(n / 10));
    } else {
      assert Decimal(n) == last && n % 10 == n;
      var b := Ascii(Decimal(n));
      assert b == [48 + n] && b[..0] == [];
    }
  }

  lemma {:induction false} ZerosRead(k: nat, d: Bytes)
    requires forall b | b in d :: IsDigit(b)
    ensures forall b | b in seq(k, _ => 48) + d :: IsDigit(b)
    ensures NumberOf(seq(k, _ => 48) + d) == NumberOf(d)
    decreases |d|, k
  {
    var z: Bytes := seq(k, _ => 48);
    if d != [] {
      ZerosRead(k, d[..|d| - 1]);
      assert (z + d)[..|z + d| - 1] == z + d[..|d| - 1];
    } else if k > 0 {
      ZerosRead(k - 1, []);
      assert z + d == z;
      assert z[..k - 1] == seq(k - 1, _ => 48) + [];
    }
  }

  function Pow10(d: nat): nat {
    if d == 0 then 1 else 10 * Pow10(d - 1)
  }

  lemma {:induction false} DecimalLength(n: nat, d: nat)
    requires d > 0
    ensures |Decimal(n)| <= d <==> n < Pow10(d)
    decreases d
  {
    if d == 1 {
      assert Pow10(1) == 10 * Pow10(0);
    } else if n >= 10 {
      DecimalLength(n / 10, d - 1);
    } else {
      TenAtLeast(d);
    }
  }

  lemma {:induction false} TenAtLeast(d: nat)
    requires d > 0
    ensures Pow10(d) >= 10
  {
    if d > 1 {
      TenAtLeast(d - 1);
    }
  }

  /** Offsets below this fit the ten digits of a cross-reference entry. */
  const OFFSET_LIMIT: nat := 10_000_000_000

  /** A padded number reads back, and fills ten bytes exactly while it is below 10^10. */
  lemma Pad10Reads(n: nat)
    ensures IsAscii(Pad10(n))
    ensures forall b | b in Ascii(Pad10(n)) :: IsDigit(b)
    ensures NumberOf(Ascii(Pad10(n))) == n
    ensures |Pad10(n)| == 10 <==> n < OFFSET_LIMIT
  {
    var d := Decimal(n);
    DecimalReads(n);
    DecimalLength(n, 10);
    if |d| < 10 {
      assert Ascii(Pad10(n)) == seq(10 - |d|, _ => 48) + Ascii(d);
      ZerosRead(10 - |d|, Ascii(d));
    }
  }

  // ---- Escaping

  /** s.replace(/c/g, by) */
  function ReplaceAll(s: string, c: char, rep: string): string {
    if s == "" then "" else (if s[0] == c then rep else [s[0]]) + ReplaceAll(s[1..], c, rep)
  }

  function EscapePdf(s: string): string {
    ReplaceAll(ReplaceAll(ReplaceAll(s, '\\', "\\\\"), '(', "\\("), ')', "\\)")
  }

  const BACKSLASH: Byte := 92
  const OPEN: Byte := 40
  const CLOSE: Byte := 41
  const CR: Byte := 13
  const LF: Byte := 10

  predicate IsSpecial(b: Byte) {
    b == BACKSLASH || b == OPEN || b == CLOSE
  }

  /** One pass that puts a backslash before each backslash and parenthesis. */
  function EscapeBytes(b: Bytes): Bytes {
    if b == [] then [] else (if IsSpecial(b[0]) then [BACKSLASH, b[0]] else [b[0]]) + EscapeBytes(b[1..])
  }

  lemma {:induction false} ReplaceAppend(s: string, t: string, c: char, rep: string)
    ensures ReplaceAll(s + t, c, rep) == ReplaceAll(s, c, rep) + ReplaceAll(t, c, rep)
  {
    if s == "" {
      assert s + t == t;
    } else {
      assert (s + t)[0] == s[0] && (s + t)[1..] == s[1..] + t;
      ReplaceAppend(s[1..], t, c, rep);
    }
  }

  lemma {:induction false} EscapeAppend(a: Bytes, b: Bytes)
    ensures EscapeBytes(a + b) == EscapeBytes(a) + EscapeBytes(b)
  {
    if a == [] {
      assert a + b == b;
    } else {
      assert (a + b)[0] == a[0] && (a + b)[1..] == a[1..] + b;
      EscapeAppend(a[1..], b);
    }
  }

  lemma {:induction false} PlainBytes(b: Bytes)
    requires forall x | x in b :: !IsSpecial(x)
    ensures EscapeBytes(b) == b
  {
    if b != [] {
      PlainBytes(b[1..]);
    }
  }

  lemma ReplaceOne(x: char, c: char, rep: string)
    ensures ReplaceAll([x], c, rep) == if x == c then rep else [x]
  {
    assert ReplaceAll("", c, rep) == "";
  }

  /** A backslash is doubled before the parentheses are looked at, so nothing is escaped twice. */
  lemma EscapeOneChar(c: char)
    ensures EscapePdf([c]) == if c == '\\' || c == '(' || c == ')' then ['\\', c] else [c]
    ensures Utf8(EscapePdf([c])) == EscapeBytes(Utf8([c]))
  {
    ReplaceOne(c, '\\', "\\\\");
    if c == '\\' {
      ReplaceAppend("\\", "\\", '(', "\\(");
      ReplaceAppend("\\", "\\", ')', "\\)");
      ReplaceOne('\\', '(', "\\(");
      ReplaceOne('\\', ')', "\\)");
      assert "\\\\" == "\\" + "\\";
    } else {
      ReplaceOne(c, '(', "\\(");
      ReplaceOne(c, ')', "\\)");
      if c == '(' {
        ReplaceAppend("\\", "(", ')', "\\)");
        ReplaceOne('\\', ')', "\\)");
        ReplaceOne('(', ')', "\\)");
        assert "\\(" == "\\" + "(";
      }
    }
    assert Utf8([c]) == Utf8Char(c) + Utf8("") == Utf8Char(c);
    if c == '\\' || c == '(' || c == ')' {
      assert Utf8(['\\', c]) == Utf8Char('\\') + Utf8([c]);
      assert EscapeBytes([c as int]) == [BACKSLASH, c as int] + EscapeBytes([]);
    } else {
      PlainBytes(Utf8Char(c));
    }
  }

  lemma EscapePdfAppend(s: string, t: string)
    ensures EscapePdf(s + t) == EscapePdf(s) + EscapePdf(t)
  {
    ReplaceAppend(s, t, '\\', "\\\\");
    var s1, t1 := ReplaceAll(s, '\\', "\\\\"), ReplaceAll(t, '\\', "\\\\");
    ReplaceAppend(s1, t1, '(', "\\(");
    ReplaceAppend(ReplaceAll(s1, '(', "\\("), ReplaceAll(t1, '(', "\\("), ')', "\\)");
  }

  /** The three replacements are one pass over the bytes. */
  lemma {:induction false} EscapeIsOnePass(s: string)
    ensures Utf8(EscapePdf(s)) == EscapeBytes(Utf8(s))
  {
    if s == "" {
      assert EscapePdf("") == "";
    } else {
      EscapeIsOnePass(s[1..]);
      EscapeOneChar(s[0]);
      assert s == [s[0]] + s[1..];
      EscapePdfAppend([s[0]], s[1..]);
      Utf8Append(EscapePdf([s[0]]), EscapePdf(s[1..]));
      Utf8Append([s[0]], s[1..]);
      EscapeAppend(Utf8([s[0]]), Utf8(s[1..]));
    }
  }

  // ---- Literal strings

  predicate IsOctal(b: Byte) {
    48 <= b <= 55
  }

  /** The byte meant by a backslash followed by b, for the single-letter escapes. */
  function Unescape(b: Byte): Byte {
    match b
    case 110 => LF case 114 => CR case 116 => 9 case 98 => 8 case 102 => 12
    case _ => b
  }

  /**
   * Read a literal string after its opening parenthesis, `depth` unescaped parentheses deep:
   * the bytes it denotes and what follows its closing parenthesis.
   */
  function LexString(b: Bytes, depth: nat): Option<(Bytes, Bytes)>
    decreases |b|
  {
    if b == [] then None
    else if b[0] == BACKSLASH then
      if |b| == 1 then None
      else if IsOctal(b[1]) then
        var n := if |b| > 3 && IsOctal(b[2]) && IsOctal(b[3]) then 3 else if |b| > 2 && IsOctal(b[2]) then 2 else 1;
        Emit([OctalValue(b[1..1 + n]) % 256], LexString(b[1 + n..], depth))
      else if b[1] == CR then LexString(b[if |b| > 2 && b[2] == LF then 3 else 2..], depth)
      else if b[1] == LF then LexString(b[2..], depth)
      else Emit([Unescape(b[1])], LexString(b[2..], depth))
    else if b[0] == CLOSE then
      if depth == 0 then Some(([], b[1..])) else Emit([CLOSE], LexString(b[1..], depth - 1))
    else if b[0] == OPEN then Emit([OPEN], LexString(b[1..], depth + 1))
    else if b[0] == CR then Emit([LF], LexString(b[if |b| > 1 && b[1] == LF then 2 else 1..], depth))
    else Emit([b[0]], LexString(b[1..], depth))
  }

  function Emit(b: Bytes, r: Option<(Bytes, Bytes)>): Option<(Bytes, Bytes)> {
    match r
    case None => None
    case Some((out, rest)) => Some((b + out, rest))
  }

  function OctalValue(b: Bytes): nat {
    if b == [] then 0 else 8 * OctalValue(b[..|b| - 1]) + (if IsOctal(b[|b| - 1]) then b[|b| - 1] as int - 48 else 0)
  }

  /** End-of-line markers as a reader sees them: CR and CR LF become LF. */
  function NormalizeEol(b: Bytes): Bytes {
    if b == [] then []
    else if b[0] == CR then [LF] + NormalizeEol(b[if |b| > 1 && b[1] == LF then 2 else 1..])
    else [b[0]] + NormalizeEol(b[1..])
  }

  lemma LexEscape(c: Byte, tail: Bytes, depth: nat)
    requires IsSpecial(c)
    ensures LexString([BACKSLASH, c] + tail, depth) == Emit([c], LexString(tail, depth))
  {
    assert ([BACKSLASH, c] + tail)[2..] == tail;
  }

  lemma LexPlain(c: Byte, tail: Bytes, depth: nat)
    requires !IsSpecial(c) && c != CR
    ensures LexString([c] + tail, depth) == Emit([c], LexString(tail, depth))
  {
    assert ([c] + tail)[1..] == tail;
  }

  lemma LexOpen(tail: Bytes, depth: nat)
    ensures LexString([OPEN] + tail, depth) == Emit([OPEN], LexString(tail, depth + 1))
  {
    assert ([OPEN] + tail)[1..] == tail;
  }

  lemma LexClose(tail: Bytes, depth: nat)
    ensures LexString([CLOSE] + tail, depth) ==
              if depth == 0 then Some(([], tail)) else Emit([CLOSE], LexString(tail, depth - 1))
  {
    assert ([CLOSE] + tail)[1..] == tail;
  }

  lemma LexCr(tail: Bytes, depth: nat)
    ensures LexString([CR] + tail, depth) ==
              Emit([LF], LexString(if tail != [] && tail[0] == LF then tail[1..] else tail, depth))
  {
    var b := [CR] + tail;
    assert b[1..] == tail;
    if tail != [] {
      assert b[1] == tail[0] && b[2..] == tail[1..];
    }
  }

  lemma EscapeFront(c: Byte, b: Bytes, rest: Bytes)
    ensures EscapeBytes([c] + b) + [CLOSE] + rest ==
              (if IsSpecial(c) then [BACKSLASH, c] else [c]) + (EscapeBytes(b) + [CLOSE] + rest)
  {
    assert ([c] + b)[1..] == b;
  }

  /** Reading an escaped text gives it back, up to line endings, and stops at its parenthesis. */
  lemma {:induction false} LexEscaped(b: Bytes, rest: Bytes)
    ensures LexString(EscapeBytes(b) + [CLOSE] + rest, 0) == Some((NormalizeEol(b), rest))
    decreases |b|
  {
    if b == [] {
      LexClose(rest, 0);
      assert EscapeBytes([]) + [CLOSE] + rest == [CLOSE] + rest;
    } else {
      var c, tail := b[0], EscapeBytes(b[1..]) + [CLOSE] + rest;
      assert b == [c] + b[1..];
      EscapeFront(c, b[1..], rest);
      LexEscaped(b[1..], rest);
      if IsSpecial(c) {
        LexEscape(c, tail, 0);
      } else if c == CR {
        LexCr(tail, 0);
        LineBreak(b, rest);
      } else {
        LexPlain(c, tail, 0);
      }
    }
  }

  /** The text behind a CR starts with LF exactly when a line break continues. */
  lemma LineBreak(b: Bytes, rest: Bytes)
    requires b != [] && b[0] == CR
    ensures var tail := EscapeBytes(b[1..]) + [CLOSE] + rest;
            if |b| > 1 && b[1] == LF then tail[0] == LF && tail[1..] == EscapeBytes(b[2..]) + [CLOSE] + rest
            else tail[0] != LF
    ensures |b| > 1 && b[1] == LF ==>
              LexString(EscapeBytes(b[2..]) + [CLOSE] + rest, 0) == Some((NormalizeEol(b[2..]), rest))
    decreases |b|, 0
  {
    if |b| > 1 {
      assert b[1..] == [b[1]] + b[2..];
      EscapeFront(b[1], b[2..], rest);
      if b[1] == LF {
        LexEscaped(b[2..], rest);
      }
    }
  }

  // ---- Literal strings that were not escaped

  /** `depth` closing parentheses are still to come, and none comes too early. */
  predicate Balanced(b: Bytes, depth: nat) {
    if b == [] then depth == 0
    else if b[0] == OPEN then Balanced(b[1..], depth + 1)
    else if b[0] == CLOSE then depth > 0 && Balanced(b[1..], depth - 1)
    else Balanced(b[1..], depth)
  }

  predicate NeedsNoEscape(b: Bytes, depth: nat) {
    BACKSLASH !in b && CR !in b && Balanced(b, depth)
  }

  /** A literal string denotes fewer bytes than it takes. */
  lemma {:induction false} LexShrinks(b: Bytes, depth: nat)
    ensures LexString(b, depth).Some? ==>
              |LexString(b, depth).value.0| + |LexString(b, depth).value.1| < |b|
    decreases |b|
  {
    if b != [] {
      if b[0] == BACKSLASH {
        LexEscapeShrinks(b, depth);
      } else {
        LexShrinks(b[1..], if b[0] == CLOSE && depth > 0 then depth - 1 else if b[0] == OPEN then depth + 1 else depth);
        if |b| > 1 && b[0] == CR && b[1] == LF {
          LexShrinks(b[2..], depth);
        }
      }
    }
  }

  /** An escape sequence costs at least one byte more. */
  lemma {:induction false} LexEscapeShrinks(b: Bytes, depth: nat)
    requires b != [] && b[0] == BACKSLASH
    ensures LexString(b, depth).Some? ==>
              |LexString(b, depth).value.0| + |LexString(b, depth).value.1| + 1 < |b|
    decreases |b|, 0
  {
    if |b| > 1 {
      LexShrinks(b[2..], depth);
      if |b| > 2 {
        LexShrinks(b[3..], depth);
      }
      if |b| > 3 {
        LexShrinks(b[4..], depth);
      }
    }
  }

  /**
   * A text written between parentheses as it is comes back exactly when its parentheses balance
   * and it holds neither a backslash nor a carriage return.
   */
  lemma {:induction false} UnescapedReadsIff(b: Bytes, depth: nat, rest: Bytes)
    ensures LexString(b + [CLOSE] + rest, depth) == Some((b, rest)) <==> NeedsNoEscape(b, depth)
  {
    if b == [] {
      LexClose(rest, depth);
      assert b + [CLOSE] + rest == [CLOSE] + rest;
    } else {
      var c, more := b[0], b[1..];
      var tail := more + [CLOSE] + rest;
      assert b == [c] + more && b + [CLOSE] + rest == [c] + tail;
      if c == BACKSLASH {
        LexEscapeShrinks([c] + tail, depth);
      } else if c == CR {
        LexCr(tail, depth);
      } else if c == OPEN {
        LexOpen(tail, depth);
        UnescapedReadsIff(more, depth + 1, rest);
        FrontStays(c, more, LexString(tail, depth + 1), rest);
      } else if c == CLOSE {
        LexClose(tail, depth);
        if depth > 0 {
          UnescapedReadsIff(more, depth - 1, rest);
          FrontStays(c, more, LexString(tail, depth - 1), rest);
        }
      } else {
        LexPlain(c, tail, depth);
        UnescapedReadsIff(more, depth, rest);
        FrontStays(c, more, LexString(tail, depth), rest);
      }
    }
  }

  lemma FrontStays(c: Byte, more: Bytes, r: Option<(Bytes, Bytes)>, rest: Bytes)
    ensures Emit([c], r) == Some(([c] + more, rest)) <==> r == Some((more, rest))
  {
    if r.Some? && [c] + r.value.0 == [c] + more {
      assert r.value.0 == ([c] + r.value.0)[1..] == ([c] + more)[1..] == more;
    }
  }

  lemma {:induction false} NormalizeIsIdentityIff(b: Bytes)
    ensures NormalizeEol(b) == b <==> CR !in b
    ensures CR !in NormalizeEol(b)
    decreases |b|
  {
    if b != [] {
      if b[0] == CR {
        NormalizeIsIdentityIff(b[if |b| > 1 && b[1] == LF then 2 else 1..]);
        assert NormalizeEol(b)[0] == LF;
      } else {
        NormalizeIsIdentityIff(b[1..]);
        assert b == [b[0]] + b[1..];
        assert NormalizeEol(b)[1..] == NormalizeEol(b[1..]);
      }
    }
  }

  lemma {:induction false} CrInUtf8(s: string)
    ensures CR in Utf8(s) <==> '\r' in s
  {
    if s != "" {
      CrInUtf8(s[1..]);
      assert s == [s[0]] + s[1..];
    }
  }

  /** A text survives escaping and reading exactly when it holds no carriage return. */
  lemma EscapeRoundTrip(s: string, rest: Bytes)
    ensures LexString(Utf8(EscapePdf(s)) + [CLOSE] + rest, 0) == Some((NormalizeEol(Utf8(s)), rest))
    ensures NormalizeEol(Utf8(s)) == Utf8(s) <==> '\r' !in s
  {
    EscapeIsOnePass(s);
    LexEscaped(Utf8(s), rest);
    NormalizeIsIdentityIff(Utf8(s));
    CrInUtf8(s);
  }
}
