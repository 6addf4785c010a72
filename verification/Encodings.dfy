/** The text encodings that custom identifiers are made of: base64url without padding (sections 5
    and 3.2 of RFC 4648), base 36, and fields separated by dots. */
module Encodings {
  import opened Wrappers

  type Byte = x: int | 0 <= x < 256
  type Sextet = x: int | 0 <= x < 64

  // ---------------------------------------------------------------- base64url

  function Pack(b: seq<Byte>): seq<Sextet> {
    if |b| == 0 then []
    else if |b| == 1 then [b[0] / 4, b[0] % 4 * 16]
    else if |b| == 2 then [b[0] / 4, b[0] % 4 * 16 + b[1] / 16, b[1] % 16 * 4]
    else [b[0] / 4, b[0] % 4 * 16 + b[1] / 16, b[1] % 16 * 4 + b[2] / 64, b[2] % 64] + Pack(b[3..])
  }

  function FirstByte(a: int, b: int): Byte
    requires 0 <= a < 64 && 0 <= b < 64
  {
    a * 4 + b / 16
  }

  function SecondByte(b: int, c: int): Byte
    requires 0 <= b < 64 && 0 <= c < 64
  {
    b % 16 * 16 + c / 4
  }

  function ThirdByte(c: int, d: int): Byte
    requires 0 <= c < 64 && 0 <= d < 64
  {
    c % 4 * 64 + d
  }

  /** A left-over single sextet carries no byte; bits beyond the last byte are dropped. */
  function Unpack(s: seq<Sextet>): seq<Byte> {
    if |s| < 2 then []
    else if |s| == 2 then [FirstByte(s[0], s[1])]
    else if |s| == 3 then [FirstByte(s[0], s[1]), SecondByte(s[1], s[2])]
    else [FirstByte(s[0], s[1]), SecondByte(s[1], s[2]), ThirdByte(s[2], s[3])] + Unpack(s[4..])
  }

  lemma {:induction false} UnpackPack(b: seq<Byte>)
    ensures Unpack(Pack(b)) == b
  {
    if |b| >= 3 {
      UnpackPack(b[3..]);
      assert Pack(b)[4..] == Pack(b[3..]);
      assert b == [b[0], b[1], b[2]] + b[3..];
    }
  }

  function Symbol(x: Sextet): char {
    if x < 26 then 'A' + x as char
    else if x < 52 then 'a' + (x - 26) as char
    else if x < 62 then '0' + (x - 52) as char
    else if x == 62 then '-' else '_'
  }

  function SymbolValue(c: char): Option<Sextet> {
    if 'A' <= c <= 'Z' then Some(c as int - 'A' as int)
    else if 'a' <= c <= 'z' then Some(c as int - 'a' as int + 26)
    else if '0' <= c <= '9' then Some(c as int - '0' as int + 52)
    else if c == '-' then Some(62)
    else if c == '_' then Some(63)
    else None
  }

  /** Table 2 of RFC 4648: capital letters, small letters and digits in their order, then '-' and '_'. */
  lemma AlphabetIs(x: Sextet)
    ensures Symbol(0) == 'A' && Symbol(25) == 'Z' && Symbol(26) == 'a' && Symbol(51) == 'z'
    ensures Symbol(52) == '0' && Symbol(61) == '9' && Symbol(62) == '-' && Symbol(63) == '_'
    ensures x !in {25, 51, 61, 62, 63} ==> Symbol(x + 1) as int == Symbol(x) as int + 1
    ensures SymbolValue(Symbol(x)) == Some(x)
  {
  }

  /** Nothing else is a symbol. */
  lemma SymbolsAre(c: char)
    ensures SymbolValue(c).Some? <==> 'A' <= c <= 'Z' || 'a' <= c <= 'z' || '0' <= c <= '9' || c == '-' || c == '_'
    ensures SymbolValue(c).Some? ==> Symbol(SymbolValue(c).value) == c
  {
  }

  /** Four symbols as one number of 24 bits. */
  function Bits24(a: int, b: int, c: int, d: int): int { a * 262_144 + b * 4096 + c * 64 + d }

  /** A group of three bytes and its four symbols are the same number of 24 bits, and what is left over at
      the end is padded with zero bits: section 4 of RFC 4648. */
  lemma GroupsAreNumbers(b: seq<Byte>)
    requires b != []
    ensures var s := Pack(b);
            if |b| == 1 then |s| == 2 && Bits24(s[0], s[1], 0, 0) == b[0] as int * 65_536
            else if |b| == 2 then |s| == 3 && Bits24(s[0], s[1], s[2], 0) == b[0] as int * 65_536 + b[1] as int * 256
            else |s| >= 4 && Bits24(s[0], s[1], s[2], s[3]) == b[0] as int * 65_536 + b[1] as int * 256 + b[2] as int
                 && s[4..] == Pack(b[3..])
  {
    if |b| >= 3 { assert Pack(b)[4..] == Pack(b[3..]); }
  }

  function Symbols(s: seq<Sextet>): string {
    if s == [] then "" else [Symbol(s[0])] + Symbols(s[1..])
  }

  /** Characters outside the alphabet are skipped. */
  function SymbolValues(t: string): seq<Sextet> {
    if t == "" then []
    else match SymbolValue(t[0])
      case Some(x) => [x] + SymbolValues(t[1..])
      case None => SymbolValues(t[1..])
  }

  predicate IsBase64Url(t: string) {
    forall c :: c in t ==> SymbolValue(c).Some?
  }

  lemma {:induction false} SymbolsRoundTrip(s: seq<Sextet>)
    ensures SymbolValues(Symbols(s)) == s && IsBase64Url(Symbols(s))
  {
    if s != [] {
      SymbolsRoundTrip(s[1..]);
      assert Symbols(s)[1..] == Symbols(s[1..]);
      assert SymbolValue(Symbol(s[0])) == Some(s[0]);
    }
  }

  predicate OneByteEach(t: string) {
    forall i :: 0 <= i < |t| ==> t[i] as int < 256
  }

  function ByteOf(c: char): Byte
    requires c as int < 256
  {
    c as int
  }

  function Bytes(t: string): seq<Byte>
    requires OneByteEach(t)
  {
    if t == "" then [] else [ByteOf(t[0])] + Bytes(t[1..])
  }

  function Chars(b: seq<Byte>): string {
    if b == [] then "" else [b[0] as char] + Chars(b[1..])
  }

  lemma {:induction false} CharsOfBytes(t: string)
    requires OneByteEach(t)
    ensures Chars(Bytes(t)) == t
  {
    if t != "" {
      CharsOfBytes(t[1..]);
      assert Bytes(t)[1..] == Bytes(t[1..]);
    }
  }

  function EncodeBase64Url(t: string): string
    requires OneByteEach(t)
  {
    Symbols(Pack(Bytes(t)))
  }

  function DecodeBase64Url(t: string): string {
    Chars(Unpack(SymbolValues(t)))
  }

  lemma Base64UrlRoundTrip(t: string)
    requires OneByteEach(t)
    ensures DecodeBase64Url(EncodeBase64Url(t)) == t && IsBase64Url(EncodeBase64Url(t))
  {
    SymbolsRoundTrip(Pack(Bytes(t)));
    UnpackPack(Bytes(t));
    CharsOfBytes(t);
  }

  // ---------------------------------------------------------------- base 36

  function Digit36(n: nat): char
    requires n < 36
  {
    if n < 10 then '0' + n as char else 'a' + (n - 10) as char
  }

  lemma Digits36Are(n: nat)
    requires n < 36
    ensures Digit36(0) == '0' && Digit36(9) == '9' && Digit36(10) == 'a' && Digit36(35) == 'z'
    ensures n != 9 && n != 35 ==> Digit36(n + 1) as int == Digit36(n) as int + 1
  {
  }

  predicate IsDigit36(c: char) { '0' <= c <= '9' || 'a' <= c <= 'z' }

  function Digit36Value(c: char): (n: nat)
    requires IsDigit36(c)
    ensures n < 36 && Digit36(n) == c
  {
    if '0' <= c <= '9' then c as int - '0' as int else c as int - 'a' as int + 10
  }

  predicate IsBase36(t: string) { t != "" && forall c :: c in t ==> IsDigit36(c) }

  /** What printing produces: no leading zero, except for zero itself. */
  predicate IsCanonicalBase36(t: string) { IsBase36(t) && (|t| == 1 || t[0] != '0') }

  function ToBase36(n: nat): (t: string)
    ensures IsCanonicalBase36(t) && (n > 0 ==> t[0] != '0')
  {
    if n < 36 then [Digit36(n)] else ToBase36(n / 36) + [Digit36(n % 36)]
  }

  function FromBase36(t: string): nat
    requires forall c :: c in t ==> IsDigit36(c)
  {
    if t == "" then 0 else FromBase36(t[..|t| - 1]) * 36 + Digit36Value(t[|t| - 1])
  }

  lemma {:induction false} Base36RoundTrip(n: nat)
    ensures FromBase36(ToBase36(n)) == n
  {
    assert Digit36Value(Digit36(n % 36)) == n % 36;
    if n >= 36 {
      Base36RoundTrip(n / 36);
      assert ToBase36(n)[..|ToBase36(n)| - 1] == ToBase36(n / 36);
    }
  }

  lemma {:induction false} CanonicalBase36Reprints(t: string)
    requires IsCanonicalBase36(t)
    ensures ToBase36(FromBase36(t)) == t && (t != "0" ==> FromBase36(t) > 0)
  {
    var init, last := t[..|t| - 1], t[|t| - 1];
    assert t == init + [last];
    if |t| > 1 {
      CanonicalBase36Reprints(init);
      assert (FromBase36(init) * 36 + Digit36Value(last)) / 36 == FromBase36(init);
    }
  }

  lemma OnlyCanonicalBase36Reprints(t: string)
    requires IsBase36(t)
    ensures ToBase36(FromBase36(t)) == t <==> IsCanonicalBase36(t)
  {
    if IsCanonicalBase36(t) { CanonicalBase36Reprints(t); }
  }

  // ---------------------------------------------------------------- dotted fields

  predicate Dotless(t: string) { '.' !in t }

  function Split(t: string): (r: seq<string>)
    ensures |r| > 0
  {
    if t == "" then [""]
    else if t[0] == '.' then [""] + Split(t[1..])
    else var rest := Split(t[1..]); [[t[0]] + rest[0]] + rest[1..]
  }

  function Join(parts: seq<string>): string
    requires |parts| > 0
  {
    if |parts| == 1 then parts[0] else parts[0] + "." + Join(parts[1..])
  }

  lemma {:induction false} SplitOfField(f: string, t: string)
    requires Dotless(f)
    ensures Split(f + "." + t) == [f] + Split(t)
  {
    if f == "" {
      assert f + "." + t == "." + t;
      assert ("." + t)[1..] == t;
    } else {
      SplitOfField(f[1..], t);
      assert (f + "." + t)[1..] == f[1..] + "." + t;
      assert [f[0]] + f[1..] == f;
    }
  }

  lemma {:induction false} SplitDotless(f: string)
    requires Dotless(f)
    ensures Split(f) == [f]
  {
    if f != "" {
      SplitDotless(f[1..]);
      assert [f[0]] + f[1..] == f;
    }
  }

  lemma {:induction false} SplitJoin(parts: seq<string>)
    requires |parts| > 0 && forall p :: p in parts ==> Dotless(p)
    ensures Split(Join(parts)) == parts
  {
    if |parts| == 1 {
      SplitDotless(parts[0]);
    } else {
      SplitJoin(parts[1..]);
      SplitOfField(parts[0], Join(parts[1..]));
      assert parts == [parts[0]] + parts[1..];
    }
  }

  lemma {:induction false} SplitIsDotless(t: string)
    ensures forall i :: 0 <= i < |Split(t)| ==> Dotless(Split(t)[i])
  {
    if t != "" { SplitIsDotless(t[1..]); }
  }

  lemma {:induction false} JoinSplit(t: string)
    ensures Join(Split(t)) == t
  {
    if t != "" {
      JoinSplit(t[1..]);
      var rest := Split(t[1..]);
      assert t == [t[0]] + t[1..];
      if t[0] == '.' {
        assert Split(t)[1..] == rest;
        assert t == "" + "." + t[1..];
      } else if |rest| > 1 {
        assert Split(t)[1..] == rest[1..];
        assert Join(rest) == rest[0] + "." + Join(rest[1..]);
        assert Join(Split(t)) == [t[0]] + rest[0] + "." + Join(rest[1..]) == [t[0]] + Join(rest);
      }
    }
  }
}
