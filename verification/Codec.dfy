/**
 * The wire descriptor: a fixed header, a counted list of length-prefixed blobs, printed
 * in lower-case Base16 (section 8 of RFC 4648) and read back in either case.
 */
module Codec {

  import opened Wrappers
  import opened Text
  import opened Arithmetic

  type U32 = x: int | 0 <= x < 0x1_0000_0000
  type U64 = x: int | 0 <= x < 0x1_0000_0000_0000_0000

  datatype Desc = Desc(
    eid: seq<Byte>, uasid: U32, va: U64, len: U64, attr: U32, tokenId: U32,
    segCtx: seq<Byte>, rjetty: seq<seq<Byte>>)

  /** Where a truncated descriptor ends. */
  datatype Field =
    | Eid | Uasid | Va | Len | Attr | TokenId | SegCtxLength | RjettyCount
    | RjettyLength(i: nat) | SegCtx | Rjetty(j: nat)

  datatype Error = OddLength | BadDigit(c: Byte) | Truncated(at: Field) | NoRjetty | Trailing(count: nat)

  // ---------------------------------------------------------------- Base16

  /** The value `v` as a lower-case digit. */
  function HexDigit(v: int): (c: char)
    requires 0 <= v < 16
  {
    if v < 10 then ('0' as int + v) as char else ('a' as int + v - 10) as char
  }

  function HexVal(c: Byte): (r: Result<int, Error>)
    ensures r.Ok? ==> 0 <= r.value < 16
  {
    if '0' as int <= c <= '9' as int then Ok(c - '0' as int)
    else if 'a' as int <= c <= 'f' as int then Ok(c - 'a' as int + 10)
    else if 'A' as int <= c <= 'F' as int then Ok(c - 'A' as int + 10)
    else Err(BadDigit(c))
  }

  function HexEnc(bytes: seq<Byte>): (s: string)
  {
    if bytes == [] then [] else [HexDigit(bytes[0] / 16), HexDigit(bytes[0] % 16)] + HexEnc(bytes[1..])
  }

  /** Pairs of digits, the first bad one reported; a last odd digit is not looked at. */
  function HexPairs(digits: seq<Byte>): (r: Result<seq<Byte>, Error>)
  {
    if |digits| < 2 then Ok([])
    else
      var hi, lo := HexVal(digits[0]), HexVal(digits[1]);
      if hi.Err? then Err(hi.error)
      else if lo.Err? then Err(lo.error)
      else Then([16 * hi.value + lo.value], HexPairs(digits[2..]))
  }

  function HexDec(s: string): (r: Result<seq<Byte>, Error>)
  {
    var digits := Bytes(Trim(s));
    if |digits| % 2 != 0 then Err(OddLength) else HexPairs(digits)
  }

  method HexEncode(bytes: seq<Byte>) returns (s: string)
    ensures s == HexEnc(bytes)
  {
    s := [];
    for i := 0 to |bytes|
      invariant s + HexEnc(bytes[i..]) == HexEnc(bytes)
    {
      assert bytes[i..][0] == bytes[i] && bytes[i..][1..] == bytes[i + 1..];
      s := s + [HexDigit(bytes[i] / 16)];
      s := s + [HexDigit(bytes[i] % 16)];
    }
  }

  method HexDecode(s: string) returns (r: Result<seq<Byte>, Error>)
    ensures r == HexDec(s)
  {
    hide HexVal, Bytes, Trim;
    var digits := Bytes(Trim(s));
    if |digits| % 2 != 0 {
      return Err(OddLength);
    }
    var out: seq<Byte> := [];
    var i := 0;
    assert digits[0..] == digits;
    ThenNothing(HexPairs(digits));
    while i < |digits|
      invariant 0 <= i <= |digits| && i % 2 == 0
      invariant HexPairs(digits) == Then(out, HexPairs(digits[i..]))
      decreases |digits| - i
    {
      assert digits[i..][2..] == digits[i + 2..];
      var hi := HexVal(digits[i]);
      if hi.Err? {
        return Err(hi.error);
      }
      var lo := HexVal(digits[i + 1]);
      if lo.Err? {
        return Err(lo.error);
      }
      ThenThen(out, [16 * hi.value + lo.value], HexPairs(digits[i + 2..]));
      out := out + [16 * hi.value + lo.value];
      i := i + 2;
    }
    assert out + [] == out;
    return Ok(out);
  }

  /** An ASCII character is accepted as value `v` exactly when its lower case prints `v`. */
  lemma DigitValue(c: char, v: int)
    requires IsAscii(c) && 0 <= v < 16
    ensures HexVal(c as int) == Ok(v) <==> Lower(c) == HexDigit(v)
  {
  }

  lemma ForeignDigit(c: char, v: int)
    requires !IsAscii(c) && 0 <= v < 16
    ensures Lower(c) != HexDigit(v) && HexVal(Utf8(c)[0]).Err?
  {
  }

  lemma HexEncLength(bytes: seq<Byte>)
    ensures |HexEnc(bytes)| == 2 * |bytes|
  {
  }

  lemma HexEncHead(bytes: seq<Byte>)
    requires bytes != []
    ensures |HexEnc(bytes)| >= 2 && HexEnc(bytes)[2..] == HexEnc(bytes[1..])
    ensures HexEnc(bytes)[0] == HexDigit(bytes[0] / 16) && HexEnc(bytes)[1] == HexDigit(bytes[0] % 16)
  {
  }

  /** One accepted pair of digits is one byte printed and folded to lower case. */
  lemma PairIsByte(c: char, d: char, b: Byte)
    requires IsAscii(c) && IsAscii(d)
    ensures (HexVal(c as int).Ok? && HexVal(d as int).Ok? && 16 * HexVal(c as int).value + HexVal(d as int).value == b)
            <==> (Lower(c) == HexDigit(b / 16) && Lower(d) == HexDigit(b % 16))
  {
    DigitValue(c, b / 16);
    DigitValue(d, b % 16);
  }

  lemma BytesOfPair(t: string)
    requires |t| >= 2 && IsAscii(t[0]) && IsAscii(t[1])
    ensures Bytes(t) == [t[0] as int, t[1] as int] + Bytes(t[2..])
    ensures Bytes(t)[2..] == Bytes(t[2..])
  {
    hide Utf8, Bytes;
    BytesOfAscii(t);
    BytesOfAscii(t[1..]);
    assert t[1..][0] == t[1] && t[1..][1..] == t[2..];
  }

  lemma BytesOfAscii(t: string)
    requires t != [] && IsAscii(t[0])
    ensures Bytes(t) == [t[0] as int] + Bytes(t[1..])
  {
    hide Utf8;
  }

  lemma PairsForeign(t: string, bs: seq<Byte>)
    requires t != [] && !(|t| >= 2 && IsAscii(t[0]) && IsAscii(t[1]))
    ensures !(|Bytes(t)| % 2 == 0 && HexPairs(Bytes(t)) == Ok(bs))
    ensures LowerAll(t) != HexEnc(bs)
  {
    HexEncLength(bs);
    if bs != [] {
      HexEncHead(bs);
    }
    if !IsAscii(t[0]) {
      ForeignDigit(t[0], if bs == [] then 0 else bs[0] / 16);
    } else if |t| == 1 {
      assert Bytes(t[1..]) == [];
    } else {
      ForeignDigit(t[1], if bs == [] then 0 else bs[0] % 16);
      assert t[1..][0] == t[1];
      assert Bytes(t)[1] == Utf8(t[1])[0];
    }
  }

  lemma {:induction false} PairsAccept(t: string, bs: seq<Byte>)
    ensures |Bytes(t)| % 2 == 0 && HexPairs(Bytes(t)) == Ok(bs) <==> LowerAll(t) == HexEnc(bs)
    decreases |t|
  {
    hide HexVal, HexDigit, Lower, Utf8;
    if t == [] {
      assert bs != [] ==> HexEnc(bs) != [];
    } else if |t| >= 2 && IsAscii(t[0]) && IsAscii(t[1]) {
      if bs == [] {
        BytesOfPair(t);
        assert HexPairs(Bytes(t)) != Ok(bs);
      } else {
        PairsAccept(t[2..], bs[1..]);
        PairAccepts(t, bs);
      }
    } else {
      PairsForeign(t, bs);
    }
  }

  lemma LowerSuffix(t: string)
    requires |t| >= 2
    ensures LowerAll(t)[2..] == LowerAll(t[2..])
  {
  }

  /** What holds behind the first pair of digits holds for the whole text. */
  lemma PairAccepts(t: string, bs: seq<Byte>)
    requires |t| >= 2 && IsAscii(t[0]) && IsAscii(t[1]) && bs != []
    requires |Bytes(t[2..])| % 2 == 0 && HexPairs(Bytes(t[2..])) == Ok(bs[1..]) <==> LowerAll(t[2..]) == HexEnc(bs[1..])
    ensures |Bytes(t)| % 2 == 0 && HexPairs(Bytes(t)) == Ok(bs) <==> LowerAll(t) == HexEnc(bs)
  {
    hide HexVal, HexDigit, Lower, Utf8, HexPairs, HexEnc, Bytes, LowerAll;
    BytesOfPair(t);
    var lower := LowerAll(t);
    LowerSuffix(t);
    HexEncHead(bs);
    PairIsByte(t[0], t[1], bs[0]);
    PairsHead(Bytes(t), bs);
    SplitTwo(lower, HexEnc(bs));
  }

  lemma SplitTwo(a: string, b: string)
    requires |a| >= 2 && |b| >= 2
    ensures a == b <==> a[0] == b[0] && a[1] == b[1] && a[2..] == b[2..]
  {
    if a[0] == b[0] && a[1] == b[1] && a[2..] == b[2..] {
      assert a == [a[0], a[1]] + a[2..] && b == [b[0], b[1]] + b[2..];
    }
  }

  lemma PairsHead(digits: seq<Byte>, bs: seq<Byte>)
    requires |digits| >= 2 && bs != []
    ensures HexPairs(digits) == Ok(bs) <==>
      && HexVal(digits[0]).Ok? && HexVal(digits[1]).Ok?
      && 16 * HexVal(digits[0]).value + HexVal(digits[1]).value == bs[0]
      && HexPairs(digits[2..]) == Ok(bs[1..])
  {
    var rest := HexPairs(digits[2..]);
    if HexVal(digits[0]).Ok? && HexVal(digits[1]).Ok? && rest.Ok? {
      var b: Byte := 16 * HexVal(digits[0]).value + HexVal(digits[1]).value;
      assert ([b] + rest.value)[1..] == rest.value;
      assert bs == [bs[0]] + bs[1..];
    }
  }

  /** Decoding accepts exactly the strings that are, trimmed and in lower case, an encoding. */
  lemma HexAccepts(s: string, bs: seq<Byte>)
    ensures HexDec(s) == Ok(bs) <==> LowerAll(Trim(s)) == HexEnc(bs)
  {
    PairsAccept(Trim(s), bs);
  }

  const HEX := "0123456789abcdef"

  /** Byte `i` is printed as the table entries of its high and then its low half. */
  lemma {:induction false} HexEncAt(bytes: seq<Byte>, i: nat)
    requires i < |bytes|
    ensures |HexEnc(bytes)| == 2 * |bytes|
    ensures HexEnc(bytes)[2 * i] == HEX[bytes[i] / 16] && HexEnc(bytes)[2 * i + 1] == HEX[bytes[i] % 16]
  {
    HexEncLength(bytes);
    HexEncHead(bytes);
    if i > 0 {
      HexEncAt(bytes[1..], i - 1);
      assert HexEnc(bytes)[2..][2 * (i - 1)] == HexEnc(bytes)[2 * i];
      assert HexEnc(bytes)[2..][2 * (i - 1) + 1] == HexEnc(bytes)[2 * i + 1];
    }
  }

  /** Text of hex digits only has no space to trim. */
  predicate AllHex(s: string)
  {
    forall i :: 0 <= i < |s| ==> IsAscii(s[i]) && HexVal(s[i] as int).Ok?
  }

  lemma {:induction false} HexEncIsLowerHex(bs: seq<Byte>)
    ensures AllHex(HexEnc(bs)) && LowerAll(HexEnc(bs)) == HexEnc(bs)
  {
    if bs != [] {
      HexEncIsLowerHex(bs[1..]);
      DigitValue(HexDigit(bs[0] / 16), bs[0] / 16);
      DigitValue(HexDigit(bs[0] % 16), bs[0] % 16);
    }
  }

  lemma AllHexTrim(s: string)
    requires AllHex(s)
    ensures Trim(s) == s
  {
    TrimTight(s);
  }

  lemma Associates<T>(x: seq<T>, y: seq<T>, z: seq<T>)
    ensures x + (y + z) == (x + y) + z
  {
  }

  lemma {:induction false} HexEncAppend(a: seq<Byte>, b: seq<Byte>)
    ensures HexEnc(a + b) == HexEnc(a) + HexEnc(b)
  {
    if a == [] {
      assert a + b == b;
    } else {
      hide HexDigit;
      HexEncAppend(a[1..], b);
      assert (a + b)[1..] == a[1..] + b && (a + b)[0] == a[0];
      Associates([HexDigit(a[0] / 16), HexDigit(a[0] % 16)], HexEnc(a[1..]), HexEnc(b));
    }
  }

  /** Digits of even number are, in lower case, the encoding of some bytes. */
  lemma {:induction false} EvenHexIsEncoding(s: string) returns (bs: seq<Byte>)
    requires AllHex(s) && |s| % 2 == 0
    ensures LowerAll(s) == HexEnc(bs) && |bs| == |s| / 2
    decreases |s|
  {
    bs := [];
    if s != [] {
      var rest := EvenHexIsEncoding(s[2..]);
      var b: Byte := 16 * HexVal(s[0] as int).value + HexVal(s[1] as int).value;
      PairIsByte(s[0], s[1], b);
      bs := [b] + rest;
      HexEncHead(bs);
      SplitTwo(LowerAll(s), HexEnc(bs));
      assert LowerAll(s)[2..] == LowerAll(s[2..]);
    }
  }

  // ---------------------------------------------------------------- little-endian numbers

  function Pow256(w: nat): (r: nat)
    ensures r > 0
  {
    if w == 0 then 1 else 256 * Pow256(w - 1)
  }

  lemma Widths()
    ensures Pow256(4) == 0x1_0000_0000 && Pow256(8) == 0x1_0000_0000_0000_0000
  {
    assert Pow256(2) == 0x1_0000;
    assert Pow256(4) == 0x1_0000_0000;
    assert Pow256(6) == 0x1_0000_0000_0000;
  }

  function ToLe(n: nat, w: nat): (b: seq<Byte>)
    ensures |b| == w
  {
    if w == 0 then [] else [n % 256] + ToLe(n / 256, w - 1)
  }

  function FromLe(b: seq<Byte>): (n: nat)
    ensures n < Pow256(|b|)
  {
    if b == [] then 0 else b[0] + 256 * FromLe(b[1..])
  }

  lemma {:induction false} FromToLe(n: nat, w: nat)
    requires n < Pow256(w)
    ensures FromLe(ToLe(n, w)) == n
  {
    if w > 0 {
      FromToLe(n / 256, w - 1);
      assert ToLe(n, w)[1..] == ToLe(n / 256, w - 1);
    }
  }

  lemma {:induction false} ToFromLe(b: seq<Byte>)
    ensures ToLe(FromLe(b), |b|) == b
  {
    if b != [] {
      ToFromLe(b[1..]);
      assert FromLe(b) / 256 == FromLe(b[1..]) && FromLe(b) % 256 == b[0];
      assert b == [b[0]] + b[1..];
    }
  }

  /** Byte `i` of a little-endian number is the digit of weight 256^i. */
  lemma {:induction false} LeByte(n: nat, w: nat, i: nat)
    requires i < w
    ensures ToLe(n, w)[i] == (n / Pow256(i)) % 256
  {
    if i > 0 {
      LeByte(n / 256, w - 1, i - 1);
      DivTwice(n, 256, Pow256(i - 1));
    }
  }

  // ---------------------------------------------------------------- layout

  const WIDTH_32 := 0x1_0000_0000

  /** The lengths, each cut to 32 bits, before `tail`. */
  function Lens(rjetty: seq<seq<Byte>>, tail: seq<Byte>): (b: seq<Byte>)
  {
    if rjetty == [] then tail else ToLe(|rjetty[0]| % WIDTH_32, 4) + Lens(rjetty[1..], tail)
  }

  function Blobs(rjetty: seq<seq<Byte>>, tail: seq<Byte>): (b: seq<Byte>)
  {
    if rjetty == [] then tail else rjetty[0] + Blobs(rjetty[1..], tail)
  }

  /** The counts and everything after them. */
  function Body(d: Desc, tail: seq<Byte>): (b: seq<Byte>)
  {
    ToLe(|d.segCtx| % WIDTH_32, 4) + (ToLe(|d.rjetty| % WIDTH_32, 4)
    + Lens(d.rjetty, d.segCtx + Blobs(d.rjetty, tail)))
  }

  /** The bytes of `d` followed by `tail`. */
  function Payload(d: Desc, tail: seq<Byte>): (b: seq<Byte>)
  {
    d.eid + (ToLe(d.uasid, 4) + (ToLe(d.va, 8) + (ToLe(d.len, 8)
    + (ToLe(d.attr, 4) + (ToLe(d.tokenId, 4) + Body(d, tail))))))
  }

  function Pack(d: Desc): (s: string)
  {
    HexEnc(Payload(d, []))
  }

  method PackDesc(d: Desc) returns (s: string)
    ensures s == Pack(d)
  {
    hide ToLe, HexEnc;
    ghost var blobs := d.segCtx + Blobs(d.rjetty, []);
    ghost var all := Payload(d, []);
    var b := d.eid;
    b := b + ToLe(d.uasid, 4);
    b := b + ToLe(d.va, 8);
    b := b + ToLe(d.len, 8);
    b := b + ToLe(d.attr, 4);
    b := b + ToLe(d.tokenId, 4);
    assert b + Body(d, []) == all;
    b := b + ToLe(|d.segCtx| % WIDTH_32, 4);
    b := b + ToLe(|d.rjetty| % WIDTH_32, 4);
    assert b + Lens(d.rjetty, blobs) == all;
    for i := 0 to |d.rjetty|
      invariant b + Lens(d.rjetty[i..], blobs) == all
    {
      assert d.rjetty[i..][0] == d.rjetty[i] && d.rjetty[i..][1..] == d.rjetty[i + 1..];
      b := b + ToLe(|d.rjetty[i]| % WIDTH_32, 4);
    }
    assert b + blobs == all;
    b := b + d.segCtx;
    for i := 0 to |d.rjetty|
      invariant b + Blobs(d.rjetty[i..], []) == all
    {
      assert d.rjetty[i..][0] == d.rjetty[i] && d.rjetty[i..][1..] == d.rjetty[i + 1..];
      b := b + d.rjetty[i];
    }
    assert b == all;
    s := HexEncode(b);
  }

  /** All bytes of the blobs. */
  function BlobBytes(rjetty: seq<seq<Byte>>): (n: nat)
  {
    if rjetty == [] then 0 else |rjetty[0]| + BlobBytes(rjetty[1..])
  }

  lemma {:induction false} LensSize(rjetty: seq<seq<Byte>>, tail: seq<Byte>)
    ensures |Lens(rjetty, tail)| == 4 * |rjetty| + |tail|
    ensures Lens(rjetty, tail)[4 * |rjetty|..] == tail
  {
    hide ToLe;
    if rjetty != [] {
      LensSize(rjetty[1..], tail);
      var b, rest := Lens(rjetty, tail), Lens(rjetty[1..], tail);
      assert b[4 * |rjetty|..] == rest[4 * (|rjetty| - 1)..];
    }
  }

  lemma {:induction false} LensAt(rjetty: seq<seq<Byte>>, tail: seq<Byte>, i: nat)
    requires i < |rjetty|
    ensures |Lens(rjetty, tail)| == 4 * |rjetty| + |tail|
    ensures Lens(rjetty, tail)[4 * i..4 * i + 4] == ToLe(|rjetty[i]| % WIDTH_32, 4)
  {
    hide ToLe;
    LensSize(rjetty, tail);
    if i > 0 {
      LensAt(rjetty[1..], tail, i - 1);
      var b, rest := Lens(rjetty, tail), Lens(rjetty[1..], tail);
      assert b[4 * i..4 * i + 4] == rest[4 * (i - 1)..4 * (i - 1) + 4];
    }
  }

  lemma {:induction false} BlobAt(rjetty: seq<seq<Byte>>, i: nat)
    requires i < |rjetty|
    ensures |Blobs(rjetty, [])| == BlobBytes(rjetty)
    ensures BlobBytes(rjetty[..i]) + |rjetty[i]| <= BlobBytes(rjetty)
    ensures Blobs(rjetty, [])[BlobBytes(rjetty[..i])..BlobBytes(rjetty[..i]) + |rjetty[i]|] == rjetty[i]
  {
    var b, rest := Blobs(rjetty, []), Blobs(rjetty[1..], []);
    BlobsLength(rjetty);
    if i > 0 {
      BlobAt(rjetty[1..], i - 1);
      assert rjetty[..i][1..] == rjetty[1..][..i - 1];
      var k := BlobBytes(rjetty[1..][..i - 1]);
      assert b[|rjetty[0]|..] == rest;
      SliceOfSuffix(b, |rjetty[0]|, k, |rjetty[i]|);
    }
  }

  lemma {:induction false} BlobsLength(rjetty: seq<seq<Byte>>)
    ensures |Blobs(rjetty, [])| == BlobBytes(rjetty)
  {
    if rjetty != [] {
      BlobsLength(rjetty[1..]);
    }
  }

  /** The header at its byte offsets, and the size the vector is reserved with. */
  lemma HeaderLayout(d: Desc)
    requires |d.eid| == 16
    ensures var b := Payload(d, []);
      && |b| == 52 + 4 * |d.rjetty| + |d.segCtx| + BlobBytes(d.rjetty)
      && b[..16] == d.eid && b[16..20] == ToLe(d.uasid, 4) && b[20..28] == ToLe(d.va, 8)
      && b[28..36] == ToLe(d.len, 8) && b[36..40] == ToLe(d.attr, 4) && b[40..44] == ToLe(d.tokenId, 4)
      && b[44..48] == ToLe(|d.segCtx| % WIDTH_32, 4) && b[48..52] == ToLe(|d.rjetty| % WIDTH_32, 4)
      && b[52..] == Lens(d.rjetty, d.segCtx + Blobs(d.rjetty, []))
  {
    hide ToLe, Lens, Blobs, BlobBytes;
    BlobsLength(d.rjetty);
    LensSize(d.rjetty, d.segCtx + Blobs(d.rjetty, []));
  }

  /** The lengths and the segment context at their byte offsets. */
  lemma LensLayout(d: Desc, i: nat)
    requires |d.eid| == 16 && i < |d.rjetty|
    ensures var b, ctx := Payload(d, []), 52 + 4 * |d.rjetty|;
      && ctx + |d.segCtx| <= |b| && b[52 + 4 * i..56 + 4 * i] == ToLe(|d.rjetty[i]| % WIDTH_32, 4)
      && b[ctx..ctx + |d.segCtx|] == d.segCtx && b[ctx + |d.segCtx|..] == Blobs(d.rjetty, [])
  {
    hide ToLe, Lens, Blobs, BlobBytes, Payload;
    HeaderLayout(d);
    var b, tail, ctx := Payload(d, []), d.segCtx + Blobs(d.rjetty, []), 52 + 4 * |d.rjetty|;
    LensSize(d.rjetty, tail);
    LensAt(d.rjetty, tail, i);
    assert b[52..][4 * i..4 * i + 4] == b[52 + 4 * i..56 + 4 * i];
    assert b[52..][4 * |d.rjetty|..] == b[ctx..] == tail;
    assert b[ctx..ctx + |d.segCtx|] == tail[..|d.segCtx|];
    assert b[ctx + |d.segCtx|..] == tail[|d.segCtx|..];
  }

  /** The lengths, the segment context and each blob at their byte offsets. */
  lemma BodyLayout(d: Desc, i: nat)
    requires |d.eid| == 16 && i < |d.rjetty|
    ensures var b, n := Payload(d, []), |d.rjetty|;
      var ctx := 52 + 4 * n;
      var at := ctx + |d.segCtx| + BlobBytes(d.rjetty[..i]);
      && at + |d.rjetty[i]| <= |b|
      && b[52 + 4 * i..56 + 4 * i] == ToLe(|d.rjetty[i]| % WIDTH_32, 4)
      && b[ctx..ctx + |d.segCtx|] == d.segCtx
      && b[at..at + |d.rjetty[i]|] == d.rjetty[i]
  {
    hide ToLe, Lens, Blobs, BlobBytes, Payload;
    LensLayout(d, i);
    BlobAt(d.rjetty, i);
    var b, start, k := Payload(d, []), 52 + 4 * |d.rjetty| + |d.segCtx|, BlobBytes(d.rjetty[..i]);
    SliceOfSuffix(b, start, k, |d.rjetty[i]|);
  }

  lemma SliceOfSuffix(b: seq<Byte>, start: nat, k: nat, len: nat)
    requires start <= |b| && k + len <= |b[start..]|
    ensures b[start + k..start + k + len] == b[start..][k..k + len]
  {
  }

  // ---------------------------------------------------------------- reading back

  /** A value read off the front, or the error that stopped the reader. */
  datatype Step<+T> = Got(value: T, rest: seq<Byte>) | Bad(error: Error)

  function Take(b: seq<Byte>, n: nat, at: Field): (r: Step<seq<Byte>>)
    ensures r.Got? <==> n <= |b|
    ensures r.Got? ==> b == r.value + r.rest && |r.value| == n
  {
    if n > |b| then Bad(Truncated(at)) else Got(b[..n], b[n..])
  }

  function Num(b: seq<Byte>, w: nat, at: Field): (r: Step<nat>)
    ensures r.Got? ==> r.value < Pow256(w)
  {
    var t := Take(b, w, at);
    if t.Got? then Got(FromLe(t.value), t.rest) else Bad(t.error)
  }

  /** What a number prints, reads back; what reads as a number, it prints. */
  lemma NumExact(b: seq<Byte>, n: nat, w: nat, rest: seq<Byte>, at: Field)
    requires n < Pow256(w)
    ensures Num(b, w, at) == Got(n, rest) <==> b == ToLe(n, w) + rest
  {
    if b == ToLe(n, w) + rest {
      assert b[..w] == ToLe(n, w) && b[w..] == rest;
      FromToLe(n, w);
    }
    if Num(b, w, at).Got? {
      ToFromLe(b[..w]);
    }
  }

  lemma TakeExact(b: seq<Byte>, x: seq<Byte>, rest: seq<Byte>, at: Field)
    ensures Take(b, |x|, at) == Got(x, rest) <==> b == x + rest
  {
  }

  function Prepend<T>(front: seq<T>, r: Step<seq<T>>): (r': Step<seq<T>>)
  {
    if r.Got? then Got(front + r.value, r.rest) else r
  }

  function ReadLens(b: seq<Byte>, count: nat, i: nat): (r: Step<seq<nat>>)
    requires i <= count
    ensures r.Got? ==> |r.value| == count - i && forall k :: 0 <= k < count - i ==> r.value[k] < WIDTH_32
    decreases count - i
  {
    if i == count then Got([], b)
    else
      Widths();
      var n := Num(b, 4, RjettyLength(i));
      if n.Bad? then Bad(n.error) else Prepend([n.value], ReadLens(n.rest, count, i + 1))
  }

  function ReadBlobs(b: seq<Byte>, lens: seq<nat>, i: nat): (r: Step<seq<seq<Byte>>>)
    requires i <= |lens|
    ensures r.Got? ==> |r.value| == |lens| - i
    decreases |lens| - i
  {
    if i == |lens| then Got([], b)
    else
      var x := Take(b, lens[i], Rjetty(i));
      if x.Bad? then Bad(x.error) else Prepend([x.value], ReadBlobs(x.rest, lens, i + 1))
  }

  /** The counted part: lengths, the segment context, the blobs. */
  function ReadBody(b: seq<Byte>): (r: Step<(seq<Byte>, seq<seq<Byte>>)>)
  {
    var seg := Num(b, 4, SegCtxLength);
    if seg.Bad? then Bad(seg.error) else
    var count := Num(seg.rest, 4, RjettyCount);
    if count.Bad? then Bad(count.error) else
    if count.value == 0 then Bad(NoRjetty) else
    var lens := ReadLens(count.rest, count.value, 0);
    if lens.Bad? then Bad(lens.error) else
    var ctx := Take(lens.rest, seg.value, SegCtx);
    if ctx.Bad? then Bad(ctx.error) else
    var blobs := ReadBlobs(ctx.rest, lens.value, 0);
    if blobs.Bad? then Bad(blobs.error) else Got((ctx.value, blobs.value), blobs.rest)
  }

  /** A descriptor off the front of `b`. */
  function ReadDesc(b: seq<Byte>): (r: Step<Desc>)
  {
    Widths();
    var eid := Take(b, 16, Eid);
    if eid.Bad? then Bad(eid.error) else
    var uasid := Num(eid.rest, 4, Uasid);
    if uasid.Bad? then Bad(uasid.error) else
    var va := Num(uasid.rest, 8, Va);
    if va.Bad? then Bad(va.error) else
    var len := Num(va.rest, 8, Len);
    if len.Bad? then Bad(len.error) else
    var attr := Num(len.rest, 4, Attr);
    if attr.Bad? then Bad(attr.error) else
    var token := Num(attr.rest, 4, TokenId);
    if token.Bad? then Bad(token.error) else
    var body := ReadBody(token.rest);
    if body.Bad? then Bad(body.error) else
    Got(Desc(eid.value, uasid.value, va.value, len.value, attr.value, token.value, body.value.0, body.value.1), body.rest)
  }

  function Parse(b: seq<Byte>): (r: Result<Desc, Error>)
  {
    var d := ReadDesc(b);
    if d.Bad? then Err(d.error)
    else if d.rest != [] then Err(Trailing(|d.rest|))
    else Ok(d.value)
  }

  function Unpack(s: string): (r: Result<Desc, Error>)
  {
    var b := HexDec(s);
    if b.Err? then Err(b.error) else Parse(b.value)
  }

  /** The cursor over the decoded bytes. */
  class Rd {
    var b: seq<Byte>

    constructor (bytes: seq<Byte>)
      ensures b == bytes
    {
      b := bytes;
    }

    method TakeBytes(n: nat, at: Field) returns (r: Result<seq<Byte>, Error>)
      modifies this
      ensures Take(old(b), n, at).Bad? ==> r == Err(Take(old(b), n, at).error) && b == old(b)
      ensures Take(old(b), n, at).Got? ==> r == Ok(Take(old(b), n, at).value) && b == Take(old(b), n, at).rest
    {
      if n > |b| {
        return Err(Truncated(at));
      }
      var head := b[..n];
      b := b[n..];
      return Ok(head);
    }

    /** A number of `w` bytes; `u32` and `u64` are the widths 4 and 8. */
    method TakeNum(w: nat, at: Field) returns (r: Result<nat, Error>)
      modifies this
      ensures Num(old(b), w, at).Bad? ==> r == Err(Num(old(b), w, at).error) && b == old(b)
      ensures Num(old(b), w, at).Got? ==> r == Ok(Num(old(b), w, at).value) && b == Num(old(b), w, at).rest
    {
      var t := TakeBytes(w, at);
      if t.Err? {
        return Err(t.error);
      }
      return Ok(FromLe(t.value));
    }
  }

  lemma PrependNothing<T>(r: Step<seq<T>>)
    ensures Prepend([], r) == r
  {
    if r.Got? {
      assert [] + r.value == r.value;
    }
  }

  lemma PrependTwice<T>(a: seq<T>, x: T, r: Step<seq<T>>)
    ensures Prepend(a, Prepend([x], r)) == Prepend(a + [x], r)
  {
    if r.Got? {
      assert a + ([x] + r.value) == (a + [x]) + r.value;
    }
  }

  method TakeLens(rd: Rd, count: nat) returns (r: Result<seq<nat>, Error>)
    modifies rd
    ensures ReadLens(old(rd.b), count, 0).Bad? ==> r == Err(ReadLens(old(rd.b), count, 0).error)
    ensures ReadLens(old(rd.b), count, 0).Got? ==>
      r == Ok(ReadLens(old(rd.b), count, 0).value) && rd.b == ReadLens(old(rd.b), count, 0).rest
  {
    ghost var all := ReadLens(rd.b, count, 0);
    PrependNothing(all);
    var lens: seq<nat> := [];
    for i := 0 to count
      invariant Prepend(lens, ReadLens(rd.b, count, i)) == all
    {
      var n := rd.TakeNum(4, RjettyLength(i));
      if n.Err? {
        return Err(n.error);
      }
      PrependTwice(lens, n.value, ReadLens(rd.b, count, i + 1));
      lens := lens + [n.value];
    }
    assert lens + [] == lens;
    return Ok(lens);
  }

  method TakeBlobs(rd: Rd, lens: seq<nat>) returns (r: Result<seq<seq<Byte>>, Error>)
    modifies rd
    ensures ReadBlobs(old(rd.b), lens, 0).Bad? ==> r == Err(ReadBlobs(old(rd.b), lens, 0).error)
    ensures ReadBlobs(old(rd.b), lens, 0).Got? ==>
      r == Ok(ReadBlobs(old(rd.b), lens, 0).value) && rd.b == ReadBlobs(old(rd.b), lens, 0).rest
  {
    ghost var all := ReadBlobs(rd.b, lens, 0);
    PrependNothing(all);
    var rjetty: seq<seq<Byte>> := [];
    for i := 0 to |lens|
      invariant Prepend(rjetty, ReadBlobs(rd.b, lens, i)) == all
    {
      var x := rd.TakeBytes(lens[i], Rjetty(i));
      if x.Err? {
        return Err(x.error);
      }
      PrependTwice(rjetty, x.value, ReadBlobs(rd.b, lens, i + 1));
      rjetty := rjetty + [x.value];
    }
    assert rjetty + [] == rjetty;
    return Ok(rjetty);
  }

  method UnpackDesc(s: string) returns (r: Result<Desc, Error>)
    ensures r == Unpack(s)
  {
    hide HexDec, Pow256, Take, Num, ReadLens, ReadBlobs;
    var bytes := HexDecode(s);
    if bytes.Err? { return Err(bytes.error); }
    Widths();
    var rd := new Rd(bytes.value);
    var eid := rd.TakeBytes(16, Eid);
    if eid.Err? { return Err(eid.error); }
    var uasid := rd.TakeNum(4, Uasid);
    if uasid.Err? { return Err(uasid.error); }
    var va := rd.TakeNum(8, Va);
    if va.Err? { return Err(va.error); }
    var len := rd.TakeNum(8, Len);
    if len.Err? { return Err(len.error); }
    var attr := rd.TakeNum(4, Attr);
    if attr.Err? { return Err(attr.error); }
    var token := rd.TakeNum(4, TokenId);
    if token.Err? { return Err(token.error); }
    var segLen := rd.TakeNum(4, SegCtxLength);
    if segLen.Err? { return Err(segLen.error); }
    var count := rd.TakeNum(4, RjettyCount);
    if count.Err? { return Err(count.error); }
    if count.value == 0 { return Err(NoRjetty); }
    var lens := TakeLens(rd, count.value);
    if lens.Err? { return Err(lens.error); }
    var segCtx := rd.TakeBytes(segLen.value, SegCtx);
    if segCtx.Err? { return Err(segCtx.error); }
    var rjetty := TakeBlobs(rd, lens.value);
    if rjetty.Err? { return Err(rjetty.error); }
    if rd.b != [] { return Err(Trailing(|rd.b|)); }
    return Ok(Desc(eid.value, uasid.value, va.value, len.value, attr.value, token.value, segCtx.value, rjetty.value));
  }

  // ---------------------------------------------------------------- what is accepted

  /** Descriptors whose counts and lengths fit their fields, with at least one rjetty. */
  predicate WellFormed(d: Desc)
  {
    && |d.eid| == 16 && |d.segCtx| < WIDTH_32 && 1 <= |d.rjetty| < WIDTH_32
    && forall i :: 0 <= i < |d.rjetty| ==> |d.rjetty[i]| < WIDTH_32
  }

  function Lengths(rjetty: seq<seq<Byte>>): (r: seq<nat>)
    ensures |r| == |rjetty| && forall i :: 0 <= i < |r| ==> r[i] == |rjetty[i]|
  {
    seq(|rjetty|, i requires 0 <= i < |rjetty| => |rjetty[i]|)
  }

  lemma SuffixStep<T>(s: seq<T>, i: nat)
    requires i < |s|
    ensures s[i..][0] == s[i] && s[i..][1..] == s[i + 1..] && s[i..] == [s[i]] + s[i + 1..]
  {
  }

  lemma {:induction false} LensExact(b: seq<Byte>, rjetty: seq<seq<Byte>>, i: nat, rest: seq<Byte>)
    requires i <= |rjetty| && forall k :: 0 <= k < |rjetty| ==> |rjetty[k]| < WIDTH_32
    ensures ReadLens(b, |rjetty|, i) == Got(Lengths(rjetty)[i..], rest) <==> b == Lens(rjetty[i..], rest)
    decreases |rjetty| - i
  {
    hide ToLe, Num, Pow256;
    if i < |rjetty| {
      Widths();
      SuffixStep(rjetty, i);
      SuffixStep(Lengths(rjetty), i);
      var at := RjettyLength(i);
      if b == Lens(rjetty[i..], rest) {
        var mid := Lens(rjetty[i + 1..], rest);
        NumExact(b, |rjetty[i]|, 4, mid, at);
        LensExact(mid, rjetty, i + 1, rest);
      }
      var n := Num(b, 4, at);
      if ReadLens(b, |rjetty|, i) == Got(Lengths(rjetty)[i..], rest) {
        LensReadHead(b, |rjetty|, i);
        NumExact(b, n.value, 4, n.rest, at);
        LensExact(n.rest, rjetty, i + 1, rest);
      }
    }
  }

  /** A successful read of lengths starts with the first and goes on with the others. */
  lemma LensReadHead(b: seq<Byte>, count: nat, i: nat)
    requires i < count && ReadLens(b, count, i).Got?
    ensures var n, r := Num(b, 4, RjettyLength(i)), ReadLens(b, count, i);
      n.Got? && r.value != [] && r.value[0] == n.value && ReadLens(n.rest, count, i + 1) == Got(r.value[1..], r.rest)
  {
  }

  lemma BlobsReadHead(b: seq<Byte>, lens: seq<nat>, i: nat)
    requires i < |lens| && ReadBlobs(b, lens, i).Got?
    ensures var x, r := Take(b, lens[i], Rjetty(i)), ReadBlobs(b, lens, i);
      x.Got? && r.value != [] && r.value[0] == x.value && ReadBlobs(x.rest, lens, i + 1) == Got(r.value[1..], r.rest)
  {
  }

  lemma {:induction false} BlobsExact(b: seq<Byte>, rjetty: seq<seq<Byte>>, i: nat, rest: seq<Byte>)
    requires i <= |rjetty|
    ensures ReadBlobs(b, Lengths(rjetty), i) == Got(rjetty[i..], rest) <==> b == Blobs(rjetty[i..], rest)
    decreases |rjetty| - i
  {
    hide Take;
    if i < |rjetty| {
      SuffixStep(rjetty, i);
      var at := Rjetty(i);
      if b == Blobs(rjetty[i..], rest) {
        var mid := Blobs(rjetty[i + 1..], rest);
        TakeExact(b, rjetty[i], mid, at);
        BlobsExact(mid, rjetty, i + 1, rest);
      }
      if ReadBlobs(b, Lengths(rjetty), i) == Got(rjetty[i..], rest) {
        BlobsReadHead(b, Lengths(rjetty), i);
        var x := Take(b, |rjetty[i]|, at);
        TakeExact(b, x.value, x.rest, at);
        BlobsExact(x.rest, rjetty, i + 1, rest);
      }
    }
  }

  /** Blobs that were read have the lengths that were asked for. */
  lemma {:induction false} BlobLengths(b: seq<Byte>, lens: seq<nat>, i: nat)
    requires i <= |lens| && ReadBlobs(b, lens, i).Got?
    ensures Lengths(ReadBlobs(b, lens, i).value) == lens[i..]
    decreases |lens| - i
  {
    if i < |lens| {
      BlobsReadHead(b, lens, i);
      BlobLengths(Take(b, lens[i], Rjetty(i)).rest, lens, i + 1);
      var v := ReadBlobs(b, lens, i).value;
      SuffixStep(lens, i);
      assert Lengths(v) == [|v[0]|] + Lengths(v[1..]);
    }
  }

  /** The counted part of `d`, read off in front of `tail`. */
  lemma BodyForward(d: Desc, tail: seq<Byte>)
    requires WellFormed(d)
    ensures ReadBody(Body(d, tail)) == Got((d.segCtx, d.rjetty), tail)
  {
    hide ToLe, Num, Pow256, Take, ReadLens, ReadBlobs, Lens, Blobs;
    Widths();
    var blobs := Blobs(d.rjetty, tail);
    var lens := Lens(d.rjetty, d.segCtx + blobs);
    var count := ToLe(|d.rjetty|, 4) + lens;
    NumExact(Body(d, tail), |d.segCtx|, 4, count, SegCtxLength);
    NumExact(count, |d.rjetty|, 4, lens, RjettyCount);
    LensExact(lens, d.rjetty, 0, d.segCtx + blobs);
    TakeExact(d.segCtx + blobs, d.segCtx, blobs, SegCtx);
    BlobsExact(blobs, d.rjetty, 0, tail);
    assert d.rjetty[0..] == d.rjetty && Lengths(d.rjetty)[0..] == Lengths(d.rjetty);
  }

  /** What `ReadBody` accepts is the counted part of a descriptor that fits its fields. */
  lemma BodyBack(b: seq<Byte>, d: Desc, tail: seq<Byte>)
    requires ReadBody(b) == Got((d.segCtx, d.rjetty), tail) && |d.eid| == 16
    ensures WellFormed(d) && b == Body(d, tail)
  {
    hide ToLe, Num, Pow256, Take, ReadLens, ReadBlobs, Lens, Blobs;
    Widths();
    var seg := Num(b, 4, SegCtxLength);
    var count := Num(seg.rest, 4, RjettyCount);
    var lens := ReadLens(count.rest, count.value, 0);
    var ctx := Take(lens.rest, seg.value, SegCtx);
    BlobLengths(ctx.rest, lens.value, 0);
    assert Lengths(d.rjetty) == lens.value[0..] == lens.value;
    BlobsExact(ctx.rest, d.rjetty, 0, tail);
    assert d.rjetty[0..] == d.rjetty && Lengths(d.rjetty)[0..] == Lengths(d.rjetty);
    TakeExact(lens.rest, d.segCtx, ctx.rest, SegCtx);
    LensExact(count.rest, d.rjetty, 0, lens.rest);
    NumExact(seg.rest, |d.rjetty|, 4, count.rest, RjettyCount);
    NumExact(b, |d.segCtx|, 4, seg.rest, SegCtxLength);
  }

  lemma DescForward(d: Desc, tail: seq<Byte>)
    requires WellFormed(d)
    ensures ReadDesc(Payload(d, tail)) == Got(d, tail)
  {
    hide ToLe, Num, Pow256, Take, ReadBody, Body, WellFormed;
    Widths();
    BodyForward(d, tail);
    var b6 := Body(d, tail);
    var b5 := ToLe(d.tokenId, 4) + b6;
    var b4 := ToLe(d.attr, 4) + b5;
    var b3 := ToLe(d.len, 8) + b4;
    var b2 := ToLe(d.va, 8) + b3;
    var b1 := ToLe(d.uasid, 4) + b2;
    FitsEid(d);
    TakeExact(Payload(d, tail), d.eid, b1, Eid);
    NumExact(b1, d.uasid, 4, b2, Uasid);
    NumExact(b2, d.va, 8, b3, Va);
    NumExact(b3, d.len, 8, b4, Len);
    NumExact(b4, d.attr, 4, b5, Attr);
    NumExact(b5, d.tokenId, 4, b6, TokenId);
  }

  lemma FitsEid(d: Desc)
    requires WellFormed(d)
    ensures |d.eid| == 16
  {
  }

  lemma DescBack(b: seq<Byte>, d: Desc, tail: seq<Byte>)
    requires ReadDesc(b) == Got(d, tail)
    ensures WellFormed(d) && b == Payload(d, tail)
  {
    hide ToLe, Num, Pow256, ReadBody, Body, WellFormed;
    Widths();
    var eid := Take(b, 16, Eid);
    var uasid := Num(eid.rest, 4, Uasid);
    var va := Num(uasid.rest, 8, Va);
    var len := Num(va.rest, 8, Len);
    var attr := Num(len.rest, 4, Attr);
    var token := Num(attr.rest, 4, TokenId);
    BodyBack(token.rest, d, tail);
    NumExact(attr.rest, d.tokenId, 4, token.rest, TokenId);
    NumExact(len.rest, d.attr, 4, attr.rest, Attr);
    NumExact(va.rest, d.len, 8, len.rest, Len);
    NumExact(uasid.rest, d.va, 8, va.rest, Va);
    NumExact(eid.rest, d.uasid, 4, uasid.rest, Uasid);
  }

  /**
   * The reader accepts exactly the printed forms: a string is read as `d` if and only if `d`
   * fits its fields and the string, trimmed and in lower case, is what `d` prints.
   */
  lemma UnpackExact(s: string, d: Desc)
    ensures Unpack(s) == Ok(d) <==> WellFormed(d) && LowerAll(Trim(s)) == Pack(d)
  {
    hide HexDec, HexEnc, ReadDesc, Payload, WellFormed, Trim;
    HexAccepts(s, Payload(d, []));
    if Unpack(s) == Ok(d) {
      DescBack(HexDec(s).value, d, []);
    }
    if WellFormed(d) {
      DescForward(d, []);
    }
  }

  lemma PackIsLowerHex(d: Desc)
    ensures AllHex(Pack(d)) && LowerAll(Trim(Pack(d))) == Pack(d)
  {
    HexEncIsLowerHex(Payload(d, []));
    AllHexTrim(Pack(d));
  }

  /** The round trip works for the descriptors that fit their fields, and for no other. */
  lemma RoundTrip(d: Desc)
    ensures Unpack(Pack(d)) == Ok(d) <==> WellFormed(d)
  {
    hide Unpack, Pack, WellFormed, Trim, AllHex;
    PackIsLowerHex(d);
    UnpackExact(Pack(d), d);
  }

  /** Reading loses nothing: the accepted text is known up to case and outer spaces. */
  lemma Repacks(s: string)
    requires Unpack(s).Ok?
    ensures Pack(Unpack(s).value) == LowerAll(Trim(s)) && WellFormed(Unpack(s).value)
  {
    hide Unpack, Pack, WellFormed, Trim;
    UnpackExact(s, Unpack(s).value);
  }

  /** A descriptor without rjetty blobs prints, and what it prints is refused. */
  lemma NoRjettyIsRejected(d: Desc)
    requires d.rjetty == [] && |d.eid| == 16 && |d.segCtx| < WIDTH_32
    ensures Unpack(Pack(d)) == Err(NoRjetty)
  {
    hide ToLe, Num, Pow256, Take, ReadLens, ReadBlobs, Trim, HexEnc, HexDec;
    Widths();
    PackIsLowerHex(d);
    HexAccepts(Pack(d), Payload(d, []));
    var b8 := d.segCtx + [];
    assert Lens(d.rjetty, d.segCtx + Blobs(d.rjetty, [])) == b8;
    var b7 := ToLe(0, 4) + b8;
    var b6 := ToLe(|d.segCtx|, 4) + b7;
    var b5 := ToLe(d.tokenId, 4) + b6;
    var b4 := ToLe(d.attr, 4) + b5;
    var b3 := ToLe(d.len, 8) + b4;
    var b2 := ToLe(d.va, 8) + b3;
    var b1 := ToLe(d.uasid, 4) + b2;
    TakeExact(Payload(d, []), d.eid, b1, Eid);
    NumExact(b1, d.uasid, 4, b2, Uasid);
    NumExact(b2, d.va, 8, b3, Va);
    NumExact(b3, d.len, 8, b4, Len);
    NumExact(b4, d.attr, 4, b5, Attr);
    NumExact(b5, d.tokenId, 4, b6, TokenId);
    NumExact(b6, |d.segCtx|, 4, b7, SegCtxLength);
    NumExact(b7, 0, 4, b8, RjettyCount);
  }

  lemma {:induction false} PayloadAppend(d: Desc, tail: seq<Byte>)
    ensures Payload(d, []) + tail == Payload(d, tail)
  {
    hide ToLe, Lens, Blobs;
    BlobsAppend(d.rjetty, tail);
    LensAppend(d.rjetty, d.segCtx + Blobs(d.rjetty, []), tail);
    assert (d.segCtx + Blobs(d.rjetty, [])) + tail == d.segCtx + Blobs(d.rjetty, tail);
    assert Body(d, []) + tail == Body(d, tail);
  }

  lemma {:induction false} BlobsAppend(rjetty: seq<seq<Byte>>, tail: seq<Byte>)
    ensures Blobs(rjetty, []) + tail == Blobs(rjetty, tail)
  {
    if rjetty != [] {
      BlobsAppend(rjetty[1..], tail);
    } else {
      assert [] + tail == tail;
    }
  }

  lemma {:induction false} LensAppend(rjetty: seq<seq<Byte>>, mid: seq<Byte>, tail: seq<Byte>)
    ensures Lens(rjetty, mid) + tail == Lens(rjetty, mid + tail)
    decreases |rjetty|
  {
    hide ToLe;
    if rjetty != [] {
      LensAppend(rjetty[1..], mid, tail);
    }
  }

  /** More hex digits after a printed descriptor, in either case, are reported as such. */
  lemma ExtensionIsRejected(d: Desc, t: string)
    requires WellFormed(d) && AllHex(t) && t != []
    ensures Unpack(Pack(d) + t) == Err(if |t| % 2 == 0 then Trailing(|t| / 2) else OddLength)
  {
    hide HexEnc, HexPairs, Trim, ReadDesc, Payload, WellFormed;
    var s := Pack(d) + t;
    PackIsLowerHex(d);
    AllHexTrim(s);
    AllHexBytes(s);
    HexEncLength(Payload(d, []));
    if |t| % 2 == 0 {
      var more := EvenHexIsEncoding(t);
      HexEncAppend(Payload(d, []), more);
      PayloadAppend(d, more);
      LowerAppend(Pack(d), t);
      HexEncIsLowerHex(Payload(d, []));
      HexAccepts(s, Payload(d, more));
      DescForward(d, more);
    }
  }

  lemma LowerAppend(a: string, b: string)
    ensures LowerAll(a + b) == LowerAll(a) + LowerAll(b)
  {
  }

  lemma {:induction false} AllHexBytes(s: string)
    requires AllHex(s)
    ensures |Bytes(s)| == |s|
  {
    if s != [] {
      AllHexBytes(s[1..]);
    }
  }

  /** No descriptor is the beginning of another: every strict prefix is refused. */
  lemma PrefixIsRejected(d: Desc, k: nat)
    requires WellFormed(d) && k < |Pack(d)|
    ensures Unpack(Pack(d)[..k]).Err?
  {
    hide Unpack, Pack, Trim, WellFormed;
    var p, t := Pack(d)[..k], Pack(d)[k..];
    PackIsLowerHex(d);
    AllHexTrim(p);
    if Unpack(p).Ok? {
      var e := Unpack(p).value;
      UnpackExact(p, e);
      assert LowerAll(p) == p by {
        AllHexTrim(Pack(d));
        assert forall i :: 0 <= i < k ==> LowerAll(Pack(d))[i] == Lower(p[i]);
      }
      ExtensionIsRejected(e, t);
      assert Pack(e) + t == Pack(d);
      RoundTrip(d);
    }
  }
}
