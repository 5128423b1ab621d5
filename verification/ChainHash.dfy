/** Hashes as text (chaincfg/chainhash/hash.go): the hexadecimal digits of the bytes in
reverse, and back, with short strings standing for hashes that end in zeros. */
module ChainHash {
  import opened Bytes
  import opened Options
  import opened OutPoints

  const MAX_HASH_STRING_SIZE: nat := 64

  /** A Go string: its characters stand for its bytes. */
  type ByteString = s: string | forall i :: 0 <= i < |s| ==> s[i] as int < 256

  datatype HashError = HashStrSize | InvalidHexDigit
  datatype Result<+T> = Success(value: T) | Failure(error: HashError)

  type Digit = x: int | 0 <= x < 16

  // ---------- Hexadecimal ----------

  predicate IsHex(c: char) { '0' <= c <= '9' || 'a' <= c <= 'f' || 'A' <= c <= 'F' }

  predicate AllHex(s: string) { forall c :: c in s ==> IsHex(c) }

  function DigitOf(c: char): Digit
    requires IsHex(c)
  {
    if '0' <= c <= '9' then c as int - '0' as int
    else if 'a' <= c <= 'f' then c as int - 'a' as int + 10
    else c as int - 'A' as int + 10
  }

  function CharOf(d: Digit): char
  {
    if d < 10 then ('0' as int + d) as char else ('a' as int + d - 10) as char
  }

  function Lower(c: char): char
  {
    if 'A' <= c <= 'Z' then (c as int - 'A' as int + 'a' as int) as char else c
  }

  function LowerAll(s: string): string { seq(|s|, i requires 0 <= i < |s| => Lower(s[i])) }

  function Encode(b: seq<byte>): (s: string)
    ensures |s| == 2 * |b|
    ensures forall i :: 0 <= i < |s| ==> s[i] as int < 256
  {
    if b == [] then [] else [CharOf(b[0] / 16), CharOf(b[0] % 16)] + Encode(b[1..])
  }

  function DecodeHex(s: string): (b: seq<byte>)
    requires |s| % 2 == 0 && AllHex(s)
    ensures |b| == |s| / 2
  {
    if s == [] then [] else [16 * DigitOf(s[0]) + DigitOf(s[1])] + DecodeHex(s[2..])
  }

  lemma {:induction false} DecodeInvertsEncode(b: seq<byte>)
    ensures AllHex(Encode(b)) && DecodeHex(Encode(b)) == b
  {
    if b != [] {
      DecodeInvertsEncode(b[1..]);
      assert Encode(b)[2..] == Encode(b[1..]);
    }
  }

  lemma CharInvertsDigit(c: char)
    requires IsHex(c)
    ensures CharOf(DigitOf(c)) == Lower(c)
  {
  }

  lemma PairInvertsByte(high: char, low: char)
    requires IsHex(high) && IsHex(low)
    ensures var b: int := 16 * DigitOf(high) + DigitOf(low);
            0 <= b < 256 && CharOf(b / 16) == Lower(high) && CharOf(b % 16) == Lower(low)
  {
    CharInvertsDigit(high);
    CharInvertsDigit(low);
  }

  lemma LowerPair(s: string)
    requires |s| >= 2
    ensures LowerAll(s) == [Lower(s[0]), Lower(s[1])] + LowerAll(s[2..])
  {
  }

  lemma {:induction false} EncodeInvertsDecode(s: string)
    requires |s| % 2 == 0 && AllHex(s)
    ensures Encode(DecodeHex(s)) == LowerAll(s)
  {
    if s != [] {
      EncodeInvertsDecode(s[2..]);
      assert DecodeHex(s)[1..] == DecodeHex(s[2..]);
      LowerPair(s);
      PairInvertsByte(s[0], s[1]);
      hide LowerAll, DigitOf, CharOf, Lower;
    }
  }

  lemma {:induction false} EncodeSum(a: seq<byte>, b: seq<byte>)
    ensures Encode(a + b) == Encode(a) + Encode(b)
  {
    if a == [] {
      assert a + b == b;
    } else {
      EncodeSum(a[1..], b);
      assert (a + b)[1..] == a[1..] + b;
    }
  }

  function ZeroBytes(n: nat): seq<byte> { seq(n, _ => 0) }

  function ZeroChars(n: nat): string { seq(n, _ => '0') }

  lemma {:induction false} EncodeZeros(n: nat)
    ensures Encode(ZeroBytes(n)) == ZeroChars(2 * n)
  {
    if n > 0 {
      EncodeZeros(n - 1);
      assert ZeroBytes(n)[1..] == ZeroBytes(n - 1);
      assert ZeroChars(2 * n) == ['0', '0'] + ZeroChars(2 * n - 2);
    }
  }

  // ---------- Hashes ----------

  function Reverse<T>(s: seq<T>): seq<T> { seq(|s|, i requires 0 <= i < |s| => s[|s| - 1 - i]) }

  function ToString(h: seq<byte>): ByteString { Encode(Reverse(h)) }

  /** An odd number of digits gets a zero in front. */
  function Even(src: string): string { if |src| % 2 == 0 then src else ['0'] + src }

  function Padded(b: seq<byte>): seq<byte>
    requires |b| <= HASH_SIZE
  {
    ZeroBytes(HASH_SIZE - |b|) + b
  }

  function HashOf(src: ByteString): Result<seq<byte>>
  {
    if |src| > MAX_HASH_STRING_SIZE then Failure(HashStrSize)
    else if !AllHex(src) then Failure(InvalidHexDigit)
    else
      EvenHex(src);
      Success(Reverse(Padded(DecodeHex(Even(src)))))
  }

  lemma EvenHex(src: string)
    requires AllHex(src)
    ensures AllHex(Even(src)) && |Even(src)| % 2 == 0
    ensures |src| <= MAX_HASH_STRING_SIZE ==> |Even(src)| <= MAX_HASH_STRING_SIZE
  {
  }

  /** The text of a hash gives the hash back. */
  lemma HashRoundTrip(h: seq<byte>)
    requires |h| == HASH_SIZE
    ensures HashOf(ToString(h)) == Success(h)
  {
    DecodeInvertsEncode(Reverse(h));
    assert Padded(Reverse(h)) == Reverse(h);
    assert Reverse(Reverse(h)) == h;
  }

  /** A string is accepted exactly when it is short enough and all hexadecimal; then the
      text of its hash is the string in lower case, with zeros in front up to 64. */
  lemma TextRoundTrip(src: ByteString)
    ensures HashOf(src).Success? <==> |src| <= MAX_HASH_STRING_SIZE && AllHex(src)
    ensures HashOf(src).Success? ==>
              && |HashOf(src).value| == HASH_SIZE
              && ToString(HashOf(src).value) == ZeroChars(MAX_HASH_STRING_SIZE - |src|) + LowerAll(src)
  {
    if HashOf(src).Success? {
      EvenHex(src);
      var even := Even(src);
      var b := DecodeHex(even);
      assert Reverse(Reverse(Padded(b))) == Padded(b);
      EvenTextRoundTrip(even);
      OddText(src);
      hide Encode, DecodeHex, AllHex, LowerAll, Padded, ZeroChars;
    }
  }

  lemma PaddedText(b: seq<byte>, n: nat)
    requires |b| + n == HASH_SIZE
    ensures Encode(Padded(b)) == ZeroChars(2 * n) + Encode(b)
  {
    hide Encode, ZeroBytes, ZeroChars;
    EncodeSum(ZeroBytes(n), b);
    EncodeZeros(n);
  }

  lemma EvenTextRoundTrip(s: string)
    requires |s| % 2 == 0 && |s| <= MAX_HASH_STRING_SIZE && AllHex(s)
    ensures Encode(Padded(DecodeHex(s))) == ZeroChars(MAX_HASH_STRING_SIZE - |s|) + LowerAll(s)
  {
    hide Encode, DecodeHex, Padded, ZeroChars, LowerAll, AllHex;
    var b := DecodeHex(s);
    var n: nat := HASH_SIZE - |b|;
    assert 2 * n == MAX_HASH_STRING_SIZE - |s|;
    PaddedText(b, n);
    EncodeInvertsDecode(s);
  }

  lemma OddText(src: string)
    requires |src| <= MAX_HASH_STRING_SIZE
    ensures |Even(src)| <= MAX_HASH_STRING_SIZE
    ensures ZeroChars(MAX_HASH_STRING_SIZE - |Even(src)|) + LowerAll(Even(src))
         == ZeroChars(MAX_HASH_STRING_SIZE - |src|) + LowerAll(src)
  {
    if |src| % 2 == 1 {
      var zeros := ZeroChars(MAX_HASH_STRING_SIZE - |src| - 1);
      assert LowerAll(Even(src)) == ['0'] + LowerAll(src);
      assert zeros + ['0'] == ZeroChars(MAX_HASH_STRING_SIZE - |src|);
      assert zeros + LowerAll(Even(src)) == zeros + ['0'] + LowerAll(src);
    }
  }

  // ---------- Which digits stand for which byte ----------

  const HEX_DIGITS := "0123456789abcdef"
  const UPPER_HEX_DIGITS := "0123456789ABCDEF"

  lemma {:induction false} EncodedAt(b: seq<byte>, i: nat)
    requires i < |b|
    ensures Encode(b)[2 * i] == HEX_DIGITS[b[i] / 16] && Encode(b)[2 * i + 1] == HEX_DIGITS[b[i] % 16]
    decreases i
  {
    CharIsDigit(b[0] / 16);
    CharIsDigit(b[0] % 16);
    if i > 0 {
      EncodedAt(b[1..], i - 1);
      assert Encode(b)[2..] == Encode(b[1..]);
    }
  }

  lemma CharIsDigit(d: Digit)
    ensures CharOf(d) == HEX_DIGITS[d]
  {
  }

  /** The text starts with the last byte: byte k is shown by the digits 62 - 2k and 63 - 2k. */
  lemma TextByPosition(h: seq<byte>, k: nat)
    requires |h| == 32 && k < 32
    ensures |ToString(h)| == 64
    ensures ToString(h)[62 - 2 * k] == HEX_DIGITS[h[k] / 16] && ToString(h)[63 - 2 * k] == HEX_DIGITS[h[k] % 16]
  {
    EncodedAt(Reverse(h), 31 - k);
  }

  /** A character that stands for a digit, in either case. */
  predicate StandsFor(c: char, d: Digit) { c == HEX_DIGITS[d] || c == UPPER_HEX_DIGITS[d] }

  lemma LowerStandsFor(c: char, d: Digit)
    requires Lower(c) == HEX_DIGITS[d]
    ensures StandsFor(c, d)
  {
    if 'A' <= c <= 'Z' {
      assert d >= 10;
      assert UPPER_HEX_DIGITS[d] as int == HEX_DIGITS[d] as int - 32;
    }
  }

  lemma PaddedLower(src: string, i: nat)
    requires |src| <= 64 && i < 64
    ensures |LowerAll(src)| == |src|
    ensures Lower((ZeroChars(64 - |src|) + src)[i]) == (ZeroChars(64 - |src|) + LowerAll(src))[i]
  {
  }

  /** With zeros in front of a short string, digits 62 - 2k and 63 - 2k make byte k. */
  lemma ByteByPosition(src: ByteString, k: nat)
    requires HashOf(src).Success? && k < 32
    ensures |src| <= 64 && |HashOf(src).value| == 32
    ensures var padded, x := seq(64 - |src|, _ => '0') + src, HashOf(src).value[k];
            StandsFor(padded[62 - 2 * k], x / 16) && StandsFor(padded[63 - 2 * k], x % 16)
  {
    TextRoundTrip(src);
    var h := HashOf(src).value;
    TextByPosition(h, k);
    var zeros := ZeroChars(64 - |src|);
    var padded := zeros + src;
    hide ToString, HashOf, StandsFor, Lower, LowerAll, ZeroChars;
    PaddedLower(src, 62 - 2 * k);
    PaddedLower(src, 63 - 2 * k);
    LowerStandsFor(padded[62 - 2 * k], h[k] / 16);
    LowerStandsFor(padded[63 - 2 * k], h[k] % 16);
  }

  predicate NoDigit(c: char) { forall d: Digit :: !StandsFor(c, d) }

  lemma HexStandsForDigit(c: char)
    ensures IsHex(c) <==> !NoDigit(c)
  {
    if IsHex(c) {
      CharInvertsDigit(c);
      CharIsDigit(DigitOf(c));
      LowerStandsFor(c, DigitOf(c));
    }
  }

  /** Strings above 64 characters are refused for their length, others exactly for a
      character that stands for no digit. */
  lemma RefusedExactly(src: ByteString)
    ensures HashOf(src) == Failure(HashStrSize) <==> |src| > 64
    ensures HashOf(src) == Failure(InvalidHexDigit) <==> |src| <= 64 && exists c :: c in src && NoDigit(c)
  {
    hide IsHex, NoDigit;
    forall c ensures IsHex(c) <==> !NoDigit(c) {
      HexStandsForDigit(c);
    }
  }

  // ---------- The code ----------

  /** hex.Decode into the tail of the temporary hash; an invalid digit stops it. */
  method DecodeInto(dst: array<byte>, from: nat, src: string) returns (ok: bool)
    requires |src| % 2 == 0 && from + |src| / 2 == dst.Length
    modifies dst
    ensures ok <==> AllHex(src)
    ensures ok ==> dst[from..] == DecodeHex(src)
    ensures dst[..from] == old(dst[..from])
  {
    var i := 0;
    assert src[..0] == [] && dst[from..from] == [];
    assert DecodeHex([]) == [];
    hide DecodeHex, DigitOf, IsHex;
    while i < |src| / 2
      invariant 0 <= i <= |src| / 2
      invariant AllHex(src[..2 * i])
      invariant dst[..from] == old(dst[..from])
      invariant dst[from..from + i] == DecodeHex(src[..2 * i])
    {
      if !IsHex(src[2 * i]) || !IsHex(src[2 * i + 1]) {
        assert src[2 * i] in src && src[2 * i + 1] in src;
        return false;
      }
      DecodeHexAppend(src[..2 * i], src[2 * i], src[2 * i + 1]);
      assert src[..2 * i + 2] == src[..2 * i] + [src[2 * i], src[2 * i + 1]];
      dst[from + i] := 16 * DigitOf(src[2 * i]) + DigitOf(src[2 * i + 1]);
      i := i + 1;
    }
    assert src[..2 * i] == src && dst[from..from + i] == dst[from..];
    ok := true;
  }

  lemma {:induction false} DecodeHexAppend(s: string, x: char, y: char)
    requires |s| % 2 == 0 && AllHex(s) && IsHex(x) && IsHex(y)
    ensures AllHex(s + [x, y])
    ensures DecodeHex(s + [x, y]) == DecodeHex(s) + [16 * DigitOf(x) + DigitOf(y)]
  {
    if s == [] {
      assert s + [x, y] == [x, y];
    } else {
      DecodeHexAppend(s[2..], x, y);
      assert (s + [x, y])[2..] == s[2..] + [x, y];
    }
  }

  lemma EvenIsHex(src: string)
    ensures AllHex(Even(src)) <==> AllHex(src)
  {
    assert forall c :: c in Even(src) ==> c in src || c == '0';
    assert forall c :: c in src ==> c in Even(src);
  }

  /** The reverse copy, two cells a turn. */
  method ReverseCopy(dst: array<byte>, src: array<byte>)
    requires dst.Length == src.Length == HASH_SIZE && dst != src
    modifies dst
    ensures dst[..] == Reverse(src[..])
  {
    var i := 0;
    while i < HASH_SIZE / 2
      invariant 0 <= i <= HASH_SIZE / 2
      invariant forall k | 0 <= k < i :: dst[k] == src[HASH_SIZE - 1 - k]
      invariant forall k | HASH_SIZE - i <= k < HASH_SIZE :: dst[k] == src[HASH_SIZE - 1 - k]
    {
      dst[i], dst[HASH_SIZE - 1 - i] := src[HASH_SIZE - 1 - i], src[i];
      i := i + 1;
    }
  }

  method Decode(dst: array<byte>, src: ByteString) returns (err: Option<HashError>)
    requires dst.Length == HASH_SIZE
    modifies dst
    ensures match HashOf(src)
            case Success(h) => err == None && dst[..] == h
            case Failure(e) => err == Some(e) && dst[..] == old(dst[..])
  {
    if |src| > MAX_HASH_STRING_SIZE {
      return Some(HashStrSize);
    }
    var srcBytes := if |src| % 2 == 0 then src else ['0'] + src;
    EvenIsHex(src);
    var reversedHash := new byte[HASH_SIZE](_ => 0);
    var from := HASH_SIZE - |srcBytes| / 2;
    var ok := DecodeInto(reversedHash, from, srcBytes);
    if !ok {
      return Some(InvalidHexDigit);
    }
    assert reversedHash[..] == reversedHash[..from] + reversedHash[from..];
    assert reversedHash[..] == Padded(DecodeHex(srcBytes));
    ReverseCopy(dst, reversedHash);
    err := None;
  }

  /** The swaps happen in a copy, which is what the value receiver is. */
  method String(hash: seq<byte>) returns (s: string)
    requires |hash| == HASH_SIZE
    ensures s == ToString(hash)
  {
    var copy := new byte[HASH_SIZE](i requires 0 <= i < HASH_SIZE => hash[i]);
    var i := 0;
    while i < HASH_SIZE / 2
      invariant 0 <= i <= HASH_SIZE / 2
      invariant forall k | 0 <= k < i || HASH_SIZE - i <= k < HASH_SIZE :: copy[k] == hash[HASH_SIZE - 1 - k]
      invariant forall k | i <= k < HASH_SIZE - i :: copy[k] == hash[k]
    {
      copy[i], copy[HASH_SIZE - 1 - i] := copy[HASH_SIZE - 1 - i], copy[i];
      i := i + 1;
    }
    assert copy[..] == Reverse(hash);
    s := Encode(copy[..]);
  }
}
