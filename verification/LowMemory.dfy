/** Bytes of the word memory, and memset(p, 0, n) on them: how mem_pool_init clears the bitmaps below main's PCB. */
module LowMemory {
  import opened Paging

  function Weight(i: nat): nat
    requires i < 4
  {
    if i == 0 then 1 else if i == 1 then 0x100 else if i == 2 then 0x1_0000 else 0x100_0000
  }

  /** Byte i of a word. */
  function ByteOf(x: nat, i: nat): nat
    requires i < 4
  {
    if i == 0 then x % 0x100
    else if i == 1 then x / 0x100 % 0x100
    else if i == 2 then x / 0x1_0000 % 0x100
    else x / 0x100_0000 % 0x100
  }

  /** The byte at physical address a. */
  function ByteAt(ram: Ram, a: nat): nat { ByteOf(Read(ram, a / 4), a % 4) }

  /** A word with byte i cleared. */
  function WithoutByte(x: nat, i: nat): nat
    requires i < 4
  {
    WeightFits(x, i);
    x - ByteOf(x, i) * Weight(i)
  }

  lemma WeightFits(x: nat, i: nat)
    requires i < 4
    ensures ByteOf(x, i) * Weight(i) <= x
  {
  }

  lemma OtherBytesStay(x: nat, i: nat, j: nat)
    requires i < 4 && j < 4
    ensures ByteOf(WithoutByte(x, i), j) == if i == j then 0 else ByteOf(x, j)
  {
    hide ByteOf, Number, WithoutByte;
    var a, b, c, r := ByteOf(x, 0), ByteOf(x, 1), ByteOf(x, 2), x / 0x100_0000;
    Digits(x);
    NumberBytes(a, b, c, r);
    WithoutByteNumber(x, i);
    if i == 0 { NumberBytes(0, b, c, r); }
    else if i == 1 { NumberBytes(a, 0, c, r); }
    else if i == 2 { NumberBytes(a, b, 0, r); }
    else { NumberBytes(a, b, c, r / 0x100 * 0x100); }
  }

  /** The number with three low bytes a, b, c. */
  function Number(a: nat, b: nat, c: nat, r: nat): nat { a + 0x100 * b + 0x1_0000 * c + 0x100_0000 * r }

  lemma Digits(x: nat)
    ensures x == Number(ByteOf(x, 0), ByteOf(x, 1), ByteOf(x, 2), x / 0x100_0000)
    ensures ByteOf(x, 0) < 0x100 && ByteOf(x, 1) < 0x100 && ByteOf(x, 2) < 0x100
  {
    assert x / 0x100 / 0x100 == x / 0x1_0000 && x / 0x1_0000 / 0x100 == x / 0x100_0000;
  }

  lemma NumberBytes(a: nat, b: nat, c: nat, r: nat)
    requires a < 0x100 && b < 0x100 && c < 0x100
    ensures var x := Number(a, b, c, r); ByteOf(x, 0) == a && ByteOf(x, 1) == b && ByteOf(x, 2) == c && ByteOf(x, 3) == r % 0x100
  {
    Bytes(a, b, c, r);
  }

  lemma WithoutByteNumber(x: nat, i: nat)
    requires i < 4
    ensures var a, b, c, r := ByteOf(x, 0), ByteOf(x, 1), ByteOf(x, 2), x / 0x100_0000;
            WithoutByte(x, i) == if i == 0 then Number(0, b, c, r) else if i == 1 then Number(a, 0, c, r)
                                 else if i == 2 then Number(a, b, 0, r) else Number(a, b, c, r / 0x100 * 0x100)
  {
    hide ByteOf;
    Digits(x);
    LastByte(x);
  }

  lemma LastByte(x: nat)
    ensures ByteOf(x, 3) == x / 0x100_0000 - x / 0x100_0000 / 0x100 * 0x100
  {
  }

  lemma Bytes(a: nat, b: nat, c: nat, r: nat)
    requires a < 0x100 && b < 0x100 && c < 0x100
    ensures var x := a + 0x100 * b + 0x1_0000 * c + 0x100_0000 * r;
            x % 0x100 == a && x / 0x100 % 0x100 == b && x / 0x1_0000 % 0x100 == c && x / 0x100_0000 == r
  {
    var x := a + 0x100 * b + 0x1_0000 * c + 0x100_0000 * r;
    assert x / 0x100 == b + 0x100 * c + 0x1_0000 * r;
    assert x / 0x1_0000 == c + 0x100 * r;
  }

  /** One byte of memory cleared. */
  function ClearByte(ram: Ram, a: nat): Ram { ram[a / 4 := WithoutByte(Read(ram, a / 4), a % 4)] }

  lemma ClearByteReads(ram: Ram, a: nat, b: nat)
    ensures ByteAt(ClearByte(ram, a), b) == if b == a then 0 else ByteAt(ram, b)
  {
    hide ByteOf, WithoutByte;
    OtherBytesStay(Read(ram, a / 4), a % 4, b % 4);
    assert a / 4 == b / 4 && a % 4 == b % 4 <==> a == b;
  }

  /** memset at address `from`, n bytes. */
  function ClearBytes(ram: Ram, from: nat, n: nat): Ram {
    if n == 0 then ram else ClearByte(ClearBytes(ram, from, n - 1), from + n - 1)
  }

  /** Exactly the bytes of the range are cleared. */
  lemma {:induction false} ClearBytesReads(ram: Ram, from: nat, n: nat, b: nat)
    ensures ByteAt(ClearBytes(ram, from, n), b) == if from <= b < from + n then 0 else ByteAt(ram, b)
    decreases n
  {
    hide ByteAt, ClearByte;
    if n > 0 {
      ClearBytesReads(ram, from, n - 1, b);
      ClearByteReads(ClearBytes(ram, from, n - 1), from + n - 1, b);
    }
  }

  /** Words outside the range are not touched at all. */
  lemma {:induction false} ClearBytesWords(ram: Ram, from: nat, n: nat, w: nat)
    requires 4 * w + 3 < from || from + n <= 4 * w
    ensures Read(ClearBytes(ram, from, n), w) == Read(ram, w)
    decreases n
  {
    hide WithoutByte;
    if n > 0 { ClearBytesWords(ram, from, n - 1, w); }
  }

  /** Clearing one range after another that follows it. */
  lemma {:induction false} ClearBytesCompose(ram: Ram, from: nat, m: nat, n: nat)
    ensures ClearBytes(ClearBytes(ram, from, m), from + m, n) == ClearBytes(ram, from, m + n)
    decreases n
  {
    hide ClearByte;
    if n > 0 { ClearBytesCompose(ram, from, m, n - 1); }
  }

  /** The bytes of frame g are the same. */
  ghost predicate FrameKept(ram: Ram, ram': Ram, g: nat) {
    forall a: nat :: 4096 * g <= a < 4096 * g + 4096 ==> ByteAt(ram', a) == ByteAt(ram, a)
  }

  /** Clearing n bytes leaves frame g as it was, whatever memory holds, exactly when the range does not reach into it. */
  lemma FrameKeptExactly(from: nat, n: nat, g: nat)
    requires from <= 4096 * g
    ensures (forall ram: Ram :: FrameKept(ram, ClearBytes(ram, from, n), g)) <==> from + n <= 4096 * g
  {
    hide ByteAt, ClearBytes;
    if from + n <= 4096 * g {
      forall ram: Ram ensures FrameKept(ram, ClearBytes(ram, from, n), g) {
        forall a: nat | 4096 * g <= a < 4096 * g + 4096 ensures ByteAt(ClearBytes(ram, from, n), a) == ByteAt(ram, a) {
          ClearBytesReads(ram, from, n, a);
        }
      }
    } else {
      var ram := map[1024 * g := 1];
      ClearBytesReads(ram, from, n, 4096 * g);
      FirstByteIsOne(g);
      assert !FrameKept(ram, ClearBytes(ram, from, n), g);
    }
  }

  lemma FirstByteIsOne(g: nat)
    ensures ByteAt(map[1024 * g := 1], 4096 * g) == 1
  {
  }

  /** What clearing does to a word depends on that word only. */
  lemma {:induction false} ClearBytesAgree(ram: Ram, ram': Ram, from: nat, n: nat, w: nat)
    requires Read(ram, w) == Read(ram', w)
    ensures Read(ClearBytes(ram, from, n), w) == Read(ClearBytes(ram', from, n), w)
    decreases n
  {
    hide WithoutByte;
    if n > 0 { ClearBytesAgree(ram, ram', from, n - 1, w); }
  }
}
