/**
 The allocation bitmaps of lib/kernel/bitmap.c: a byte array scanned for a run of
 clear bits, first fit. Bit i of the map is bit i % 8 of byte i / 8.
 */
module Bitmaps {

  /** 1 << i for a bit offset i. */
  function Mask(i: nat): bv8
    requires i < 8
  {
    [1, 2, 4, 8, 16, 32, 64, 128][i]
  }

  /** b >> i for a bit offset i. */
  function ShiftedRight(b: bv8, i: nat): bv8
    requires i <= 8
  {
    if i == 0 then b
    else if i == 1 then b >> 1
    else if i == 2 then b >> 2
    else if i == 3 then b >> 3
    else if i == 4 then b >> 4
    else if i == 5 then b >> 5
    else if i == 6 then b >> 6
    else if i == 7 then b >> 7
    else 0
  }

  /** Bit i of the map is set. */
  predicate Used(bytes: seq<bv8>, i: nat)
    requires i < 8 * |bytes|
  {
    bytes[i / 8] & Mask(i % 8) != 0
  }

  /** The bits as truth values. */
  function Bits(bytes: seq<bv8>): (bits: seq<bool>)
    ensures |bits| == 8 * |bytes|
    ensures forall i :: 0 <= i < |bits| ==> bits[i] == Used(bytes, i)
  {
    seq(8 * |bytes|, i requires 0 <= i < 8 * |bytes| => Used(bytes, i))
  }

  /** cnt consecutive clear bits start at bit `start`. */
  predicate FreeRun(bits: seq<bool>, start: nat, cnt: nat) {
    start + cnt <= |bits| && forall i :: start <= i < start + cnt ==> !bits[i]
  }

  /** k is the least start of a free run of cnt bits. */
  ghost predicate FirstFit(bits: seq<bool>, cnt: nat, k: nat) {
    FreeRun(bits, k, cnt) && forall j :: 0 <= j < k ==> !FreeRun(bits, j, cnt)
  }

  ghost predicate NoFit(bits: seq<bool>, cnt: nat) {
    forall j :: 0 <= j ==> !FreeRun(bits, j, cnt)
  }

  /** The bits of [start, start + cnt) set, the others kept. */
  function SetRun(bits: seq<bool>, start: nat, cnt: nat): (r: seq<bool>)
    ensures |r| == |bits|
    ensures forall i :: 0 <= i < |bits| ==> r[i] == (bits[i] || start <= i < start + cnt)
  {
    seq(|bits|, i requires 0 <= i < |bits| => bits[i] || start <= i < start + cnt)
  }

  lemma ShiftSelectsBit(b: bv8, i: nat)
    requires i < 8
    ensures ShiftedRight(b, i) & 1 != 0 <==> b & Mask(i) != 0
    ensures ShiftedRight(b, i) >> 1 == ShiftedRight(b, i + 1)
  {
    if i == 0 {} else if i == 1 {} else if i == 2 {} else if i == 3 {}
    else if i == 4 {} else if i == 5 {} else if i == 6 {} else {}
  }

  lemma FullByte(i: nat)
    requires i < 8
    ensures 0xff & Mask(i) != 0
  {
    if i == 0 {} else if i == 1 {} else if i == 2 {} else if i == 3 {}
    else if i == 4 {} else if i == 5 {} else if i == 6 {} else {}
  }

  lemma MaskSetsBit(b: bv8, k: nat, i: nat)
    requires k < 8 && i < 8
    ensures (b | Mask(k)) & Mask(i) != 0 <==> k == i || b & Mask(i) != 0
    ensures (b & !Mask(k)) & Mask(i) != 0 <==> k != i && b & Mask(i) != 0
  {
    if i == 0 {} else if i == 1 {} else if i == 2 {} else if i == 3 {}
    else if i == 4 {} else if i == 5 {} else if i == 6 {} else {}
  }

  // ----- the scan

  /**
   The scan has passed the first p bits: `run` clear bits end at p, preceded by a set
   bit or the start of the map, and no free run of cnt bits ends at or before p.
   */
  ghost predicate Scanned(bits: seq<bool>, cnt: nat, p: nat, run: nat) {
    && p <= |bits| && run <= p && (cnt > 0 ==> run < cnt)
    && (forall i :: p - run <= i < p ==> !bits[i])
    && (run < p ==> bits[p - run - 1])
    && (cnt > 0 ==> forall j :: 0 <= j <= p - cnt ==> !FreeRun(bits, j, cnt))
  }

  lemma ScanUsedBit(bits: seq<bool>, cnt: nat, p: nat, run: nat)
    requires Scanned(bits, cnt, p, run) && p < |bits| && bits[p]
    ensures Scanned(bits, cnt, p + 1, 0)
  {
  }

  lemma ScanFreeBit(bits: seq<bool>, cnt: nat, p: nat, run: nat)
    requires Scanned(bits, cnt, p, run) && p < |bits| && !bits[p]
    ensures run + 1 == cnt ==> p + 1 >= cnt && FirstFit(bits, cnt, p + 1 - cnt)
    ensures run + 1 != cnt ==> Scanned(bits, cnt, p + 1, run + 1)
  {
    if run + 1 < cnt && p + 1 >= cnt {
      assert !FreeRun(bits, p + 1 - cnt, cnt) by { assert bits[p - run - 1]; }
    }
  }

  lemma BitOfByte(bytes: seq<bv8>, b: nat, k: nat)
    requires b < |bytes| && k < 8
    ensures 8 * b + k < |Bits(bytes)| && Bits(bytes)[8 * b + k] == (bytes[b] & Mask(k) != 0)
  {
    assert (8 * b + k) / 8 == b && (8 * b + k) % 8 == k;
  }

  lemma {:induction false} ScanFullByte(bytes: seq<bv8>, cnt: nat, b: nat, run: nat, k: nat)
    requires b < |bytes| && bytes[b] == 0xff && 0 < k <= 8 && Scanned(Bits(bytes), cnt, 8 * b, run)
    ensures Scanned(Bits(bytes), cnt, 8 * b + k, 0)
    decreases k
  {
    hide Scanned, Used, Mask, Bits;
    if k > 1 { ScanFullByte(bytes, cnt, b, run, k - 1); }
    FullByte(k - 1);
    BitOfByte(bytes, b, k - 1);
    ScanUsedBit(Bits(bytes), cnt, 8 * b + k - 1, if k == 1 then run else 0);
  }

  lemma ScanStarts(bytes: seq<bv8>, cnt: nat)
    ensures Scanned(Bits(bytes), cnt, 0, 0)
  {
  }

  lemma ScanEnds(bits: seq<bool>, cnt: nat, run: nat)
    requires Scanned(bits, cnt, |bits|, run) && cnt > 0
    ensures NoFit(bits, cnt)
  {
  }

  lemma NoShift(b: bv8)
    ensures ShiftedRight(b, 0) == b
  {
  }

  /** bitmap_scan(): the least start of cnt clear bits, or -1 if there is none or cnt is 0. */
  method BitmapScan(bits: array<bv8>, cnt: nat) returns (r: int)
    requires 8 * bits.Length <= 0x7fff_ffff && cnt <= 0xffff_ffff
    ensures cnt == 0 ==> r == -1
    ensures cnt > 0 && r == -1 ==> NoFit(Bits(bits[..]), cnt)
    ensures r != -1 ==> r >= 0 && FirstFit(Bits(bits[..]), cnt, r)
  {
    hide Scanned, Used, Mask, ShiftedRight, NoFit, FirstFit, Bits;
    ghost var abs := Bits(bits[..]);
    var byteIndex := 0;
    var unused := 0;
    ScanStarts(bits[..], cnt);
    while byteIndex < bits.Length
      invariant 0 <= byteIndex <= bits.Length && 0 <= unused
      invariant Scanned(abs, cnt, 8 * byteIndex, unused)
    {
      if bits[byteIndex] != 0xff {
        var byteTemp := bits[byteIndex];
        NoShift(byteTemp);
        for bitsIndex := 0 to 8
          invariant 0 <= unused
          invariant byteTemp == ShiftedRight(bits[byteIndex], bitsIndex)
          invariant Scanned(abs, cnt, 8 * byteIndex + bitsIndex, unused)
        {
          ghost var p := 8 * byteIndex + bitsIndex;
          ShiftSelectsBit(bits[byteIndex], bitsIndex);
          BitOfByte(bits[..], byteIndex, bitsIndex);
          if byteTemp & 0x01 != 0 {
            ScanUsedBit(abs, cnt, p, unused);
            unused := 0;
          } else {
            ScanFreeBit(abs, cnt, p, unused);
            unused := unused + 1;
            if unused == cnt {
              return byteIndex * 8 + bitsIndex - cnt + 1;
            }
          }
          byteTemp := byteTemp >> 1;
        }
      } else {
        ScanFullByte(bits[..], cnt, byteIndex, unused, 8);
        unused := 0;
      }
      byteIndex := byteIndex + 1;
    }
    if cnt > 0 { ScanEnds(abs, cnt, unused); }
    return -1;
  }

  /** bitmap_scan_test(). */
  method BitmapScanTest(bits: array<bv8>, i: nat) returns (used: bool)
    requires i < 8 * bits.Length
    ensures used == Bits(bits[..])[i]
  {
    used := bits[i / 8] & Mask(i % 8) != 0;
  }

  /** Byte b with bit k set or cleared. */
  function SetInByte(b: bv8, k: nat, val: bool): bv8
    requires k < 8
  {
    if val then b | Mask(k) else b & !Mask(k)
  }

  lemma SetBitChangesOneBit(bytes: seq<bv8>, k: nat, val: bool)
    requires k < 8 * |bytes|
    ensures Bits(bytes[k / 8 := SetInByte(bytes[k / 8], k % 8, val)]) == Bits(bytes)[k := val]
  {
    hide Mask;
    var b := bytes[k / 8];
    var bytes' := bytes[k / 8 := SetInByte(b, k % 8, val)];
    forall i | 0 <= i < 8 * |bytes| ensures Bits(bytes')[i] == Bits(bytes)[k := val][i] {
      SetBitAt(bytes, k, val, i);
    }
  }

  lemma SetBitAt(bytes: seq<bv8>, k: nat, val: bool, i: nat)
    requires k < 8 * |bytes| && i < 8 * |bytes|
    ensures Used(bytes[k / 8 := SetInByte(bytes[k / 8], k % 8, val)], i) == if i == k then val else Used(bytes, i)
  {
    hide Mask, SetInByte, Used;
    SetBitInByte(bytes, k / 8, k % 8, val, i / 8, i % 8);
    UsedParts(bytes, i);
    UsedParts(bytes[k / 8 := SetInByte(bytes[k / 8], k % 8, val)], i);
    SameParts(i, k);
  }

  lemma SameParts(i: nat, k: nat)
    ensures i / 8 == k / 8 && i % 8 == k % 8 <==> i == k
  {
  }

  lemma UsedParts(bytes: seq<bv8>, i: nat)
    requires i < 8 * |bytes|
    ensures Used(bytes, i) <==> bytes[i / 8] & Mask(i % 8) != 0
  {
  }

  /** The same in terms of byte numbers and offsets. */
  lemma SetBitInByte(bytes: seq<bv8>, b: nat, k: nat, val: bool, c: nat, i: nat)
    requires b < |bytes| && c < |bytes| && k < 8 && i < 8
    ensures bytes[b := SetInByte(bytes[b], k, val)][c] & Mask(i) != 0 <==>
            if c == b && i == k then val else bytes[c] & Mask(i) != 0
  {
    hide Mask, SetInByte;
    SetInByteAt(bytes[b], k, val, i);
  }

  lemma SetInByteAt(b: bv8, k: nat, val: bool, i: nat)
    requires k < 8 && i < 8
    ensures SetInByte(b, k, val) & Mask(i) != 0 <==> if i == k then val else b & Mask(i) != 0
  {
    hide Mask;
    MaskSetsBit(b, k, i);
  }

  /** bitmap_set(): exactly bit i changes. An index past the end of the map is an ASSERT failure. */
  method BitmapSet(bits: array<bv8>, i: nat, val: bool) returns (ok: bool)
    modifies bits
    ensures ok == (i < 8 * bits.Length)
    ensures ok ==> Bits(bits[..]) == Bits(old(bits[..]))[i := val]
    ensures !ok ==> bits[..] == old(bits[..])
  {
    hide Mask, Bits, Used;
    if i / 8 >= bits.Length { return false; }
    SetBitChangesOneBit(bits[..], i, val);
    ghost var before := bits[..];
    if val {
      bits[i / 8] := bits[i / 8] | Mask(i % 8);
    } else {
      bits[i / 8] := bits[i / 8] & !Mask(i % 8);
    }
    assert bits[..] == before[i / 8 := SetInByte(before[i / 8], i % 8, val)];
    return true;
  }

  /** bitmap_init(): every bit clear. */
  method BitmapInit(bits: array<bv8>)
    modifies bits
    ensures forall i :: 0 <= i < 8 * bits.Length ==> !Bits(bits[..])[i]
  {
    for i := 0 to bits.Length
      invariant forall j :: 0 <= j < i ==> bits[j] == 0
    {
      bits[i] := 0;
    }
    forall i | 0 <= i < 8 * bits.Length ensures !Bits(bits[..])[i] {
      assert bits[i / 8] == 0;
      assert (0 as bv8) & Mask(i % 8) == 0;
    }
  }

  /** Scan for cnt bits and set them (the pattern of vaddr_get and palloc): exactly the first fitting run is taken. */
  method TakeRun(bits: array<bv8>, cnt: nat) returns (r: int)
    requires 8 * bits.Length <= 0x7fff_ffff && cnt <= 0xffff_ffff
    modifies bits
    ensures r == -1 ==> bits[..] == old(bits[..]) && (cnt == 0 || NoFit(Bits(old(bits[..])), cnt))
    ensures r != -1 ==> r >= 0 && cnt > 0 && FirstFit(Bits(old(bits[..])), cnt, r)
                        && Bits(bits[..]) == SetRun(Bits(old(bits[..])), r, cnt)
  {
    r := BitmapScan(bits, cnt);
    if r == -1 { return; }
    ghost var before := Bits(bits[..]);
    var done := 0;
    while done < cnt
      invariant 0 <= done <= cnt
      invariant Bits(bits[..]) == SetRun(before, r, done)
    {
      var ok := BitmapSet(bits, r + done, true);
      assert SetRun(before, r, done)[r + done := true] == SetRun(before, r, done + 1);
      done := done + 1;
    }
  }
}
