/** The string operations the parsers are written with, and what undoes them. */
module Text {
  import opened Options

  const MAX_INT: int := 0x7FFF_FFFF_FFFF_FFFF

  predicate HasPrefix(s: string, prefix: string) { prefix <= s }

  function TrimPrefix(s: string, prefix: string): string {
    if HasPrefix(s, prefix) then s[|prefix|..] else s
  }

  function TrimSuffixChar(s: string, c: char): string {
    if s != "" && s[|s| - 1] == c then s[..|s| - 1] else s
  }

  /** Whether a text occurs inside another. */
  predicate Contains(s: string, sub: string) {
    exists i :: 0 <= i <= |s| && HasPrefix(s[i..], sub)
  }

  lemma ContainsExactly(s: string, sub: string)
    ensures Contains(s, sub) <==> exists a, b :: s == a + sub + b
  {
    if Contains(s, sub) {
      var i :| 0 <= i <= |s| && HasPrefix(s[i..], sub);
      assert s == s[..i] + sub + s[i..][|sub|..];
    }
    if a, b :| s == a + sub + b {
      assert s[|a|..] == sub + b;
    }
  }

  // ---------------------------------------------------------------- trimming

  /** Unicode white space. */
  predicate IsSpace(c: char) {
    || 0x09 <= c as int <= 0x0D || c == ' ' || c as int in {0x85, 0xA0, 0x1680, 0x2028, 0x2029, 0x202F, 0x205F, 0x3000}
    || 0x2000 <= c as int <= 0x200A
  }

  /** All there are: the twenty-five of Unicode's property White_Space. */
  lemma SpaceExactly(c: char)
    ensures IsSpace(c) <==> c in WHITE_SPACE
  {}

  const WHITE_SPACE :=
    "\U{9}\U{A}\U{B}\U{C}\U{D} \U{85}\U{A0}\U{1680}\U{2000}\U{2001}\U{2002}\U{2003}\U{2004}\U{2005}\U{2006}\U{2007}\U{2008}\U{2009}\U{200A}\U{2028}\U{2029}\U{202F}\U{205F}\U{3000}"

  /** Nothing is left of it once the white space is trimmed. */
  predicate Blank(s: string) { forall i :: 0 <= i < |s| ==> IsSpace(s[i]) }

  function TrimSpaceLeft(s: string): string {
    if s != "" && IsSpace(s[0]) then TrimSpaceLeft(s[1..]) else s
  }

  function TrimSpaceRight(s: string): string {
    if s != "" && IsSpace(s[|s| - 1]) then TrimSpaceRight(s[..|s| - 1]) else s
  }

  function TrimSpace(s: string): string { TrimSpaceRight(TrimSpaceLeft(s)) }

  /** It neither begins nor ends in white space. */
  predicate Trimmed(s: string) { s == "" || (!IsSpace(s[0]) && !IsSpace(s[|s| - 1])) }

  lemma {:induction false} BlankTrims(s: string)
    requires Blank(s)
    ensures TrimSpaceLeft(s) == ""
  {
    hide IsSpace;
    if s != "" { BlankTrims(s[1..]); }
  }

  lemma {:induction false} TrimsRightToBlank(s: string)
    requires TrimSpaceRight(s) == ""
    ensures Blank(s)
  {
    hide IsSpace;
    if s != "" { TrimsRightToBlank(s[..|s| - 1]); }
  }

  lemma {:induction false} TrimsLeftToHead(s: string)
    ensures TrimSpaceLeft(s) == "" ==> Blank(s)
    ensures TrimSpaceLeft(s) != "" ==> !IsSpace(TrimSpaceLeft(s)[0]) && !Blank(s)
  {
    hide IsSpace;
    if s != "" && IsSpace(s[0]) { TrimsLeftToHead(s[1..]); }
  }

  /** Trimming leaves nothing exactly when there is nothing but white space. */
  lemma TrimSpaceEmpty(s: string)
    ensures TrimSpace(s) == "" <==> Blank(s)
  {
    hide IsSpace;
    TrimsLeftToHead(s);
    if Blank(s) { BlankTrims(s); }
    if TrimSpace(s) == "" { TrimsRightToBlank(TrimSpaceLeft(s)); }
  }

  lemma {:induction false} TrimLeftBegins(s: string)
    ensures TrimSpaceLeft(s) != "" ==> !IsSpace(TrimSpaceLeft(s)[0])
  {
    hide IsSpace;
    if s != "" && IsSpace(s[0]) { TrimLeftBegins(s[1..]); }
  }

  lemma {:induction false} TrimRightEnds(s: string)
    ensures TrimSpaceRight(s) <= s
    ensures TrimSpaceRight(s) != "" ==> !IsSpace(TrimSpaceRight(s)[|TrimSpaceRight(s)| - 1])
  {
    hide IsSpace;
    if s != "" && IsSpace(s[|s| - 1]) { TrimRightEnds(s[..|s| - 1]); }
  }

  /** What is left is trimmed. */
  lemma TrimSpaceTrimmed(s: string)
    ensures Trimmed(TrimSpace(s))
  {
    hide IsSpace;
    TrimLeftBegins(s);
    TrimRightEnds(TrimSpaceLeft(s));
  }

  lemma TrimKeeps(s: string)
    requires Trimmed(s)
    ensures TrimSpace(s) == s
  {}

  // ---------------------------------------------------------------- splitting

  /** The pieces between separators: one more than there are separators. */
  function Split(s: string, sep: char): (pieces: seq<string>)
    ensures pieces != []
  {
    if s == "" then [""]
    else if s[0] == sep then [""] + Split(s[1..], sep)
    else
      var rest := Split(s[1..], sep);
      [[s[0]] + rest[0]] + rest[1..]
  }

  /** No piece holds the separator, and none holds anything the text does not. */
  lemma {:induction false} SplitFree(s: string, sep: char)
    ensures forall p :: p in Split(s, sep) ==> sep !in p && forall c :: c in p ==> c in s
  {
    if s != "" {
      SplitFree(s[1..], sep);
      var rest := Split(s[1..], sep);
      assert forall c :: c in s[1..] ==> c in s;
      assert rest[0] in rest;
      assert s[0] != sep ==> Split(s, sep) == [[s[0]] + rest[0]] + rest[1..];
    }
  }

  /** Every piece followed by the separator. */
  function Terminated(pieces: seq<string>, sep: char): string {
    if pieces == [] then "" else pieces[0] + [sep] + Terminated(pieces[1..], sep)
  }

  /** The pieces with the separator between them. */
  function Join(pieces: seq<string>, sep: char): string
    requires pieces != []
  {
    if |pieces| == 1 then pieces[0] else pieces[0] + [sep] + Join(pieces[1..], sep)
  }

  lemma {:induction false} SplitPiece(piece: string, sep: char)
    requires sep !in piece
    ensures Split(piece, sep) == [piece]
  {
    if piece != "" {
      SplitPiece(piece[1..], sep);
      assert piece == [piece[0]] + piece[1..];
    }
  }

  lemma {:induction false} SplitHead(piece: string, sep: char, rest: string)
    requires sep !in piece
    ensures Split(piece + [sep] + rest, sep) == [piece] + Split(rest, sep)
  {
    var s := piece + [sep] + rest;
    if piece == "" {
      assert s[1..] == rest;
    } else {
      assert s[1..] == piece[1..] + [sep] + rest;
      SplitHead(piece[1..], sep, rest);
      assert piece == [piece[0]] + piece[1..];
    }
  }

  /** Two texts with a separator between them are split each by itself. */
  lemma {:induction false} SplitTwo(a: string, sep: char, b: string)
    ensures Split(a + [sep] + b, sep) == Split(a, sep) + Split(b, sep)
  {
    var s := a + [sep] + b;
    if a == "" {
      assert s[1..] == b;
    } else {
      assert s[1..] == a[1..] + [sep] + b;
      SplitTwo(a[1..], sep, b);
    }
  }

  /** Splitting undoes joining, when no piece holds the separator. */
  lemma {:induction false} SplitJoin(pieces: seq<string>, sep: char)
    requires pieces != [] && forall p :: p in pieces ==> sep !in p
    ensures Split(Join(pieces, sep), sep) == pieces
  {
    assert pieces[0] in pieces;
    if |pieces| == 1 {
      SplitPiece(pieces[0], sep);
    } else {
      SplitJoin(pieces[1..], sep);
      SplitHead(pieces[0], sep, Join(pieces[1..], sep));
      assert pieces == [pieces[0]] + pieces[1..];
    }
  }

  lemma {:induction false} TerminatedIsJoined(pieces: seq<string>, sep: char)
    requires pieces != []
    ensures Terminated(pieces, sep) == Join(pieces, sep) + [sep]
  {
    if |pieces| == 1 {
      assert Terminated(pieces[1..], sep) == "";
    } else {
      TerminatedIsJoined(pieces[1..], sep);
    }
  }

  /** Reading the lines of a text every line of which is ended gives the lines. */
  lemma LinesOf(lines: seq<string>, sep: char)
    requires lines != [] && forall p :: p in lines ==> sep !in p
    ensures Split(TrimSuffixChar(Terminated(lines, sep), sep), sep) == lines
  {
    TerminatedIsJoined(lines, sep);
    assert TrimSuffixChar(Terminated(lines, sep), sep) == Join(lines, sep);
    SplitJoin(lines, sep);
  }

  // ---------------------------------------------------------------- cutting

  /** What precedes and what follows the first occurrence of a separator. */
  function Cut(s: string, sep: string): (string, string, bool)
    requires sep != ""
  {
    if HasPrefix(s, sep) then ("", s[|sep|..], true)
    else if s == "" then ("", "", false)
    else
      var (before, after, found) := Cut(s[1..], sep);
      ([s[0]] + before, after, found)
  }

  /** Cutting where the separator first occurs. */
  lemma {:induction false} CutAt(a: string, sep: string, b: string)
    requires sep != ""
    requires forall i :: 0 <= i < |a| ==> !HasPrefix((a + sep + b)[i..], sep)
    ensures Cut(a + sep + b, sep) == (a, b, true)
  {
    var s := a + sep + b;
    if a == "" {
      assert s == sep + b;
    } else {
      assert s[0..] == s;
      assert s[1..] == a[1..] + sep + b;
      forall i | 0 <= i < |a| - 1 ensures !HasPrefix((a[1..] + sep + b)[i..], sep) {
        assert s[i + 1..] == s[1..][i..];
      }
      CutAt(a[1..], sep, b);
      assert a == [a[0]] + a[1..];
    }
  }

  /** Nothing but what was in the text, and before the cut no separator. */
  lemma {:induction false} CutFree(s: string, sep: char)
    ensures var (before, after, found) := Cut(s, [sep]);
            && sep !in before && (found <==> sep in s)
            && (found ==> s == before + [sep] + after) && (!found ==> before == s)
  {
    if s != "" {
      if !HasPrefix(s, [sep]) {
        assert s[0] != sep;
        CutFree(s[1..], sep);
        assert s == [s[0]] + s[1..];
      } else {
        assert s == [sep] + s[1..];
      }
    }
  }

  /** What was cut, put together again. */
  lemma {:induction false} CutParts(s: string, sep: string)
    requires sep != "" && Cut(s, sep).2
    ensures s == Cut(s, sep).0 + sep + Cut(s, sep).1
  {
    if !HasPrefix(s, sep) && s != "" {
      CutParts(s[1..], sep);
      assert s == [s[0]] + s[1..];
    }
  }

  lemma {:induction false} CutMissing(s: string, sep: string)
    requires sep != "" && sep[0] !in s
    ensures Cut(s, sep) == (s, "", false)
  {
    if s != "" {
      CutMissing(s[1..], sep);
      assert s == [s[0]] + s[1..];
    }
  }

  /** A separator whose first character does not occur before it. */
  lemma CutAtChar(a: string, sep: string, b: string)
    requires sep != "" && sep[0] !in a
    ensures Cut(a + sep + b, sep) == (a, b, true)
  {
    forall i | 0 <= i < |a| ensures !HasPrefix((a + sep + b)[i..], sep) {
      assert (a + sep + b)[i..][0] == a[i];
    }
    CutAt(a, sep, b);
  }

  /** At most n pieces, the last one holding whatever is left. */
  function SplitN(s: string, sep: char, n: nat): (pieces: seq<string>)
    requires n > 0
    ensures 0 < |pieces| <= n
    decreases n
  {
    if n == 1 then [s]
    else
      var (before, after, found) := Cut(s, [sep]);
      if found then [before] + SplitN(after, sep, n - 1) else [s]
  }

  /** Only the last piece may hold the separator, and none holds anything the text does not. */
  lemma {:induction false} SplitNFree(s: string, sep: char, n: nat, i: nat)
    requires n > 0 && i < |SplitN(s, sep, n)|
    ensures i < |SplitN(s, sep, n)| - 1 ==> sep !in SplitN(s, sep, n)[i]
    ensures forall c :: c in SplitN(s, sep, n)[i] ==> c in s
    decreases n
  {
    if n > 1 {
      CutFree(s, sep);
      var (before, after, found) := Cut(s, [sep]);
      if found && i > 0 {
        SplitNFree(after, sep, n - 1, i - 1);
        assert SplitN(s, sep, n)[i] == SplitN(after, sep, n - 1)[i - 1];
      }
    }
  }

  /** Splitting off pieces without the separator; the last may hold anything. */
  lemma {:induction false} SplitNJoin(pieces: seq<string>, sep: char)
    requires pieces != [] && forall i :: 0 <= i < |pieces| - 1 ==> sep !in pieces[i]
    ensures SplitN(Join(pieces, sep), sep, |pieces|) == pieces
  {
    if |pieces| > 1 {
      CutAtChar(pieces[0], [sep], Join(pieces[1..], sep));
      SplitNJoin(pieces[1..], sep);
    }
  }

  // ---------------------------------------------------------------- bytes and characters

  function Byte(n: nat): char
    requires n < 256
  {
    n as char
  }

  /** The UTF-8 bytes of a character (RFC 3629, section 3). */
  function Utf8(c: char): (bytes: string)
    ensures bytes != ""
  {
    var n := c as int;
    if n < 0x80 then [c]
    else if n < 0x800 then [Byte(0xC0 + n / 0x40), Byte(0x80 + n % 0x40)]
    else if n < 0x1_0000 then [Byte(0xE0 + n / 0x1000), Byte(0x80 + n / 0x40 % 0x40), Byte(0x80 + n % 0x40)]
    else [Byte(0xF0 + n / 0x4_0000), Byte(0x80 + n / 0x1000 % 0x40), Byte(0x80 + n / 0x40 % 0x40), Byte(0x80 + n % 0x40)]
  }

  function Bytes(s: string): string {
    if s == "" then "" else Bytes(s[..|s| - 1]) + Utf8(s[|s| - 1])
  }

  /** The character that one to four bytes encode: the first says how many there are, and each of the
      others carries six bits. */
  function Decoded(bytes: string): int {
    match |bytes|
    case 1 => bytes[0] as int
    case 2 => (bytes[0] as int - 192) * 64 + Low(bytes[1])
    case 3 => ((bytes[0] as int - 224) * 64 + Low(bytes[1])) * 64 + Low(bytes[2])
    case 4 => (((bytes[0] as int - 240) * 64 + Low(bytes[1])) * 64 + Low(bytes[2])) * 64 + Low(bytes[3])
    case _ => -1
  }

  function Low(c: char): int { c as int - 128 }

  /** Decoding undoes encoding, and the encoding is the shortest there is. */
  lemma Utf8Decoded(c: char)
    ensures Decoded(Utf8(c)) == c as int
    ensures |Utf8(c)| == if c as int < 128 then 1 else if c as int < 2048 then 2 else if c as int < 65536 then 3 else 4
  {
    var n := c as int;
    if n < 2048 {
      SixBits(n);
    } else if n < 65536 {
      ThreeParts(n);
    } else {
      FourParts(n);
    }
  }

  /** Every byte but the first is of the kind that continues. */
  lemma Utf8Continues(c: char)
    ensures forall i :: 1 <= i < |Utf8(c)| ==> 0 <= Low(Utf8(c)[i]) < 64
  {}

  /** The first byte says how many there are. */
  lemma Utf8First(c: char)
    ensures var first := Utf8(c)[0] as int;
            if first < 128 then |Utf8(c)| == 1 else if first < 224 then |Utf8(c)| == 2 else if first < 240 then |Utf8(c)| == 3 else |Utf8(c)| == 4
    ensures |Utf8(c)| > 1 ==> 192 <= Utf8(c)[0] as int < 248
  {}

  lemma SixBits(n: nat)
    ensures n == n / 64 * 64 + n % 64 && n / 64 / 64 == n / 4096
  {}

  lemma ThreeParts(n: nat)
    ensures (n / 4096 * 64 + n / 64 % 64) * 64 + n % 64 == n
  {
    SixBits(n);
    SixBits(n / 64);
  }

  lemma FourParts(n: nat)
    ensures ((n / 0x4_0000 * 64 + n / 4096 % 64) * 64 + n / 64 % 64) * 64 + n % 64 == n
  {
    ThreeParts(n / 64);
    SixBits(n);
    assert n / 64 / 4096 == n / 0x4_0000;
  }

  /** No byte of a character outside ASCII is one of ASCII. */
  lemma HighBytes(c: char)
    ensures c as int >= 0x80 ==> forall i :: 0 <= i < |Utf8(c)| ==> Utf8(c)[i] as int >= 0x80
    ensures c as int < 0x80 ==> Utf8(c) == [c]
  {}

  // ---------------------------------------------------------------- numbers

  predicate IsDigit(c: char) { '0' <= c <= '9' }

  predicate AllDigits(s: string) {
    s != "" && forall i :: 0 <= i < |s| ==> IsDigit(s[i])
  }

  function Digit(d: nat): char
    requires d < 10
  {
    '0' + d as char
  }

  function Itoa(n: nat): (s: string)
    ensures AllDigits(s)
  {
    if n < 10 then [Digit(n)] else Itoa(n / 10) + [Digit(n % 10)]
  }

  function ValueOf(s: string): nat
    requires forall i :: 0 <= i < |s| ==> IsDigit(s[i])
  {
    if s == "" then 0
    else
      assert IsDigit(s[|s| - 1]);
      10 * ValueOf(s[..|s| - 1]) + (s[|s| - 1] as int - '0' as int)
  }

  /** A decimal integer with an optional sign, refused outside the machine's integers. */
  function Atoi(s: string): Option<int> {
    var (negative, digits) :=
      if s != "" && s[0] == '-' then (true, s[1..])
      else if s != "" && s[0] == '+' then (false, s[1..])
      else (false, s);
    if !AllDigits(digits) then None
    else
      var n: int := ValueOf(digits);
      if negative then if n <= MAX_INT + 1 then Some(-n) else None
      else if n <= MAX_INT then Some(n) else None
  }

  lemma {:induction false} ValueOfItoa(n: nat)
    ensures ValueOf(Itoa(n)) == n
  {
    if n >= 10 {
      ValueOfItoa(n / 10);
      assert Itoa(n)[..|Itoa(n)| - 1] == Itoa(n / 10);
    }
  }

  /** Zeros in front change nothing. */
  lemma {:induction false} LeadingZero(s: string)
    requires forall i :: 0 <= i < |s| ==> IsDigit(s[i])
    ensures forall i :: 0 <= i < |"0" + s| ==> IsDigit(("0" + s)[i])
    ensures ValueOf("0" + s) == ValueOf(s)
  {
    if s != "" {
      assert ("0" + s)[..|s|] == "0" + s[..|s| - 1];
      LeadingZero(s[..|s| - 1]);
    }
  }

  /** With a sign, and beyond the machine's integers. */
  lemma AtoiSigned(n: nat)
    ensures Atoi("-" + Itoa(n)) == if n <= 0x8000_0000_0000_0000 then Some(-(n as int)) else None
    ensures Atoi("+" + Itoa(n)) == if n <= 0x7FFF_FFFF_FFFF_FFFF then Some(n as int) else None
    ensures Atoi(Itoa(n)) == if n <= 0x7FFF_FFFF_FFFF_FFFF then Some(n as int) else None
  {
    ValueOfItoa(n);
    assert IsDigit(Itoa(n)[0]);
    assert ("-" + Itoa(n))[1..] == Itoa(n) && ("+" + Itoa(n))[1..] == Itoa(n);
  }

  /** What is not digits after at most one sign is no number. */
  lemma AtoiOnly(s: string)
    ensures Atoi(s).Some? ==> AllDigits(s) || (s != "" && s[0] in "+-" && AllDigits(s[1..]))
  {}

  /** Reading back what was written. */
  lemma AtoiItoa(n: nat)
    requires n <= MAX_INT
    ensures Atoi(Itoa(n)) == Some(n as int)
  {
    ValueOfItoa(n);
    assert IsDigit(Itoa(n)[0]);
  }
}
