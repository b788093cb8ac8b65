/**
 * Which error the descriptor reader reports: the first bad digit of the text, or the field a
 * cut descriptor ends in.
 */
module Truncation {
  import opened Wrappers
  import opened Text
  import opened Arithmetic
  import opened Codec

  // ---------------------------------------------------------------- bad digits

  const HEX_DIGITS := "0123456789abcdefABCDEF"

  predicate Listed(b: Byte)
  {
    b as char in HEX_DIGITS
  }

  lemma DigitIsListed(b: Byte)
    ensures HexVal(b) == if Listed(b) then HexVal(b) else Err(BadDigit(b))
    ensures HexVal(b).Ok? <==> Listed(b)
  {
    assert Listed(b) <==> '0' as int <= b <= '9' as int || 'a' as int <= b <= 'f' as int || 'A' as int <= b <= 'F' as int;
  }

  lemma {:induction false} PairsFirstBad(digits: seq<Byte>, i: nat)
    requires |digits| % 2 == 0 && i < |digits| && !Listed(digits[i])
    requires forall k :: 0 <= k < i ==> Listed(digits[k])
    ensures HexPairs(digits) == Err(BadDigit(digits[i]))
    decreases |digits|
  {
    hide HexVal, Listed;
    DigitIsListed(digits[0]);
    DigitIsListed(digits[1]);
    if i >= 2 {
      PairsFirstBad(digits[2..], i - 2);
    }
  }

  /** Text of odd length is refused for it; else the first byte that is no digit is the error. */
  lemma TextErrors(s: string)
    ensures var b := Bytes(Trim(s));
      && (|b| % 2 == 1 ==> Unpack(s) == Err(OddLength))
      && forall i :: |b| % 2 == 0 && 0 <= i < |b| && !Listed(b[i]) && (forall k :: 0 <= k < i ==> Listed(b[k])) ==>
           Unpack(s) == Err(BadDigit(b[i]))
  {
    hide Parse, HexPairs, Trim, Bytes, Listed;
    var b := Bytes(Trim(s));
    forall i | |b| % 2 == 0 && 0 <= i < |b| && !Listed(b[i]) && (forall k :: 0 <= k < i ==> Listed(b[k]))
      ensures Unpack(s) == Err(BadDigit(b[i]))
    {
      PairsFirstBad(b, i);
    }
  }

  // ---------------------------------------------------------------- cut descriptors

  lemma TakeCut(x: seq<Byte>, rest: seq<Byte>, k: nat, at: Field)
    requires k <= |x| + |rest|
    ensures Take((x + rest)[..k], |x|, at) == if k < |x| then Bad(Truncated(at)) else Got(x, rest[..k - |x|])
  {
    if k >= |x| {
      assert (x + rest)[..k] == x + rest[..k - |x|];
    }
  }

  lemma NumCut(n: nat, w: nat, rest: seq<Byte>, k: nat, at: Field)
    requires n < Pow256(w) && k <= w + |rest|
    ensures Num((ToLe(n, w) + rest)[..k], w, at) == if k < w then Bad(Truncated(at)) else Got(n, rest[..k - w])
  {
    TakeCut(ToLe(n, w), rest, k, at);
    FromToLe(n, w);
    hide ToLe, Take, FromLe;
  }

  lemma {:induction false} LensCut(rjetty: seq<seq<Byte>>, i: nat, tail: seq<Byte>, k: nat)
    requires i <= |rjetty| && (forall j :: 0 <= j < |rjetty| ==> |rjetty[j]| < WIDTH_32)
    requires k <= |Lens(rjetty[i..], tail)|
    ensures |Lens(rjetty[i..], tail)| == 4 * (|rjetty| - i) + |tail|
    ensures ReadLens(Lens(rjetty[i..], tail)[..k], |rjetty|, i)
      == if k < 4 * (|rjetty| - i) then Bad(Truncated(RjettyLength(i + k / 4)))
         else Got(Lengths(rjetty)[i..], tail[..k - 4 * (|rjetty| - i)])
    decreases |rjetty| - i
  {
    hide ToLe, Num, Pow256;
    LensSize(rjetty[i..], tail);
    if i < |rjetty| {
      Widths();
      SuffixStep(rjetty, i);
      SuffixStep(Lengths(rjetty), i);
      var rest := Lens(rjetty[i + 1..], tail);
      LensSize(rjetty[i + 1..], tail);
      NumCut(|rjetty[i]|, 4, rest, k, RjettyLength(i));
      assert |rjetty[i]| % WIDTH_32 == |rjetty[i]|;
      assert Lens(rjetty[i..], tail) == ToLe(|rjetty[i]|, 4) + rest;
      if k >= 4 {
        LensCut(rjetty, i + 1, tail, k - 4);
        assert i + 1 + (k - 4) / 4 == i + k / 4;
        assert k - 4 - 4 * (|rjetty| - (i + 1)) == k - 4 * (|rjetty| - i);
      }
    } else {
      assert rjetty[i..] == [] && Lengths(rjetty)[i..] == [];
    }
  }

  /** The blob that byte `k` of the blobs from number `i` on falls in. */
  function CutBlob(rjetty: seq<seq<Byte>>, i: nat, k: nat): (x: nat)
    requires i <= |rjetty| && k < BlobBytes(rjetty[i..])
    ensures i <= x < |rjetty|
    decreases |rjetty| - i
  {
    if i == |rjetty| then assert false; i
    else
      SuffixStep(rjetty, i);
      if k < |rjetty[i]| then i else CutBlob(rjetty, i + 1, k - |rjetty[i]|)
  }

  lemma BytesOfPrefix(rjetty: seq<seq<Byte>>, i: nat)
    requires i < |rjetty|
    ensures BlobBytes(rjetty[..i + 1]) == BlobBytes(rjetty[..i]) + |rjetty[i]|
  {
    if i > 0 {
      BytesOfPrefix(rjetty[1..], i - 1);
      assert rjetty[..i + 1][1..] == rjetty[1..][..i] && rjetty[..i][1..] == rjetty[1..][..i - 1];
    } else {
      assert rjetty[..1] == [rjetty[0]] && rjetty[..1][1..] == [];
    }
  }

  /** It is the one whose bytes start at or before `k` and end behind it. */
  lemma {:induction false} CutBlobHolds(rjetty: seq<seq<Byte>>, i: nat, k: nat)
    requires i <= |rjetty| && k < BlobBytes(rjetty[i..])
    ensures var x := CutBlob(rjetty, i, k);
      BlobBytes(rjetty[..x]) <= BlobBytes(rjetty[..i]) + k < BlobBytes(rjetty[..x]) + |rjetty[x]|
    decreases |rjetty| - i
  {
    if i < |rjetty| {
      SuffixStep(rjetty, i);
      BytesOfPrefix(rjetty, i);
      if k >= |rjetty[i]| {
        CutBlobHolds(rjetty, i + 1, k - |rjetty[i]|);
      }
    }
  }

  lemma {:induction false} BlobsCut(rjetty: seq<seq<Byte>>, i: nat, k: nat)
    requires i <= |rjetty| && k < BlobBytes(rjetty[i..])
    ensures k <= |Blobs(rjetty[i..], [])|
    ensures ReadBlobs(Blobs(rjetty[i..], [])[..k], Lengths(rjetty), i) == Bad(Truncated(Rjetty(CutBlob(rjetty, i, k))))
    decreases |rjetty| - i
  {
    hide Take;
    BlobsLength(rjetty[i..]);
    if i < |rjetty| {
      SuffixStep(rjetty, i);
      BlobsLength(rjetty[i + 1..]);
      var rest := Blobs(rjetty[i + 1..], []);
      TakeCut(rjetty[i], rest, k, Rjetty(i));
      if k >= |rjetty[i]| {
        BlobsCut(rjetty, i + 1, k - |rjetty[i]|);
      }
    }
  }

  /** The field that byte `k` of a printed descriptor belongs to, by the byte offsets of the layout. */
  function FieldOf(d: Desc, k: nat): (f: Field)
    requires k < 52 + 4 * |d.rjetty| + |d.segCtx| + BlobBytes(d.rjetty)
  {
    if k < 16 then Eid
    else if k < 20 then Uasid
    else if k < 28 then Va
    else if k < 36 then Len
    else if k < 40 then Attr
    else if k < 44 then TokenId
    else if k < 48 then SegCtxLength
    else if k < 52 then RjettyCount
    else if k < 52 + 4 * |d.rjetty| then RjettyLength((k - 52) / 4)
    else if k < 52 + 4 * |d.rjetty| + |d.segCtx| then SegCtx
    else
      assert d.rjetty[0..] == d.rjetty;
      Rjetty(CutBlob(d.rjetty, 0, k - (52 + 4 * |d.rjetty| + |d.segCtx|)))
  }

  lemma BlobPartCut(d: Desc, k: nat)
    requires k < |d.segCtx| + BlobBytes(d.rjetty)
    ensures var b := d.segCtx + Blobs(d.rjetty, []);
      && k <= |b| && d.rjetty[0..] == d.rjetty
      && (k < |d.segCtx| ==> Take(b[..k], |d.segCtx|, SegCtx) == Bad(Truncated(SegCtx)))
      && (k >= |d.segCtx| ==>
        && Take(b[..k], |d.segCtx|, SegCtx).Got? && Take(b[..k], |d.segCtx|, SegCtx).value == d.segCtx
        && ReadBlobs(Take(b[..k], |d.segCtx|, SegCtx).rest, Lengths(d.rjetty), 0)
           == Bad(Truncated(Rjetty(CutBlob(d.rjetty, 0, k - |d.segCtx|)))))
  {
    hide Take, ReadBlobs, Blobs;
    BlobsLength(d.rjetty);
    assert d.rjetty[0..] == d.rjetty;
    TakeCut(d.segCtx, Blobs(d.rjetty, []), k, SegCtx);
    if k >= |d.segCtx| {
      BlobsCut(d.rjetty, 0, k - |d.segCtx|);
    }
  }

  /** The counted part, cut: lengths, segment context or blobs. */
  lemma BodyCut(d: Desc, k: nat)
    requires WellFormed(d) && 44 <= k < 52 + 4 * |d.rjetty| + |d.segCtx| + BlobBytes(d.rjetty)
    ensures k - 44 <= |Body(d, [])|
    ensures ReadBody(Body(d, [])[..k - 44]) == Bad(Truncated(FieldOf(d, k)))
  {
    hide ToLe, Num, Pow256, Take, ReadLens, ReadBlobs, Lens, Blobs, BlobBytes, CutBlob;
    Widths();
    var blobs := d.segCtx + Blobs(d.rjetty, []);
    var lens := Lens(d.rjetty, blobs);
    BlobsLength(d.rjetty);
    LensSize(d.rjetty, blobs);
    var count := ToLe(|d.rjetty|, 4) + lens;
    NumCut(|d.segCtx|, 4, count, k - 44, SegCtxLength);
    if k >= 48 {
      NumCut(|d.rjetty|, 4, lens, k - 48, RjettyCount);
      if k >= 52 {
        assert d.rjetty[0..] == d.rjetty && Lengths(d.rjetty)[0..] == Lengths(d.rjetty);
        LensCut(d.rjetty, 0, blobs, k - 52);
        if k >= 52 + 4 * |d.rjetty| {
          BlobPartCut(d, k - (52 + 4 * |d.rjetty|));
        }
      }
    }
  }

  /** Cut in or behind the last header field. */
  lemma TokenCut(d: Desc, k: nat)
    requires WellFormed(d) && 40 <= k < 52 + 4 * |d.rjetty| + |d.segCtx| + BlobBytes(d.rjetty)
    ensures var b := ToLe(d.tokenId, 4) + Body(d, []); k - 40 <= |b|
    ensures var t := Num((ToLe(d.tokenId, 4) + Body(d, []))[..k - 40], 4, TokenId);
      if k < 44 then t == Bad(Truncated(FieldOf(d, k)))
      else t.Got? && t.value == d.tokenId && ReadBody(t.rest) == Bad(Truncated(FieldOf(d, k)))
  {
    hide ToLe, Num, Pow256, ReadBody, Body, WellFormed, BlobBytes, CutBlob;
    Widths();
    if k >= 44 {
      BodyCut(d, k);
    }
    NumCut(d.tokenId, 4, Body(d, []), k - 40, TokenId);
  }

  /**
   * Cut anywhere, a printed descriptor is reported as truncated at the field that the first
   * missing byte belongs to.
   */
  lemma CutIsReported(d: Desc, k: nat)
    requires WellFormed(d) && k < 52 + 4 * |d.rjetty| + |d.segCtx| + BlobBytes(d.rjetty)
    ensures k < |Payload(d, [])| && Parse(Payload(d, [])[..k]) == Err(Truncated(FieldOf(d, k)))
  {
    FitsEid(d);
    PayloadSize(d);
    if k >= 40 {
      TokenCut(d, k);
    }
    hide ToLe, Num, Pow256, Take, ReadBody, Body, WellFormed, BlobBytes, CutBlob;
    Widths();
    var b5 := ToLe(d.tokenId, 4) + Body(d, []);
    var b4 := ToLe(d.attr, 4) + b5;
    var b3 := ToLe(d.len, 8) + b4;
    var b2 := ToLe(d.va, 8) + b3;
    var b1 := ToLe(d.uasid, 4) + b2;
    assert Payload(d, []) == d.eid + b1;
    hide Payload;
    TakeCut(d.eid, b1, k, Eid);
    if k >= 16 { NumCut(d.uasid, 4, b2, k - 16, Uasid); }
    if k >= 20 { NumCut(d.va, 8, b3, k - 20, Va); }
    if k >= 28 { NumCut(d.len, 8, b4, k - 28, Len); }
    if k >= 36 { NumCut(d.attr, 4, b5, k - 36, Attr); }
  }

  lemma PayloadSize(d: Desc)
    requires |d.eid| == 16
    ensures |Payload(d, [])| == 52 + 4 * |d.rjetty| + |d.segCtx| + BlobBytes(d.rjetty)
    ensures |Body(d, [])| == |Payload(d, [])| - 44
  {
    HeaderLayout(d);
  }
}
