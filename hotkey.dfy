/**
  `String.fourCharCodeValue`, which turns the hot-key signature "CPED" into
  a 32-bit `FourCharCode`: the UTF-8 bytes are shifted in from the right,
  `result = (result << 8) + byte`. The shift drops what passes bit 31; the
  addition cannot overflow, because the shift leaves the low eight bits zero.
 */
module HotKeys {
  import opened Sequences

  newtype byte = x: int | 0 <= x < 256

  /** 2^32: one past the largest `FourCharCode` (a `UInt32`). */
  const Word: nat := 0x1_0000_0000

  /** `result << 8` on a UInt32: multiply by 256, drop the bits above bit 31. */
  function ShiftInByte(result: nat, b: byte): (r: nat)
    requires result < Word
    ensures r < Word
  {
    ShiftKeepsRoom(result);
    (result * 256) % Word + b as nat
  }

  /** After the shift there is room for one byte below 2^32. */
  lemma ShiftKeepsRoom(result: nat)
    ensures (result * 256) % Word == (result % 0x100_0000) * 256
    ensures (result * 256) % Word + 255 < Word
  {
    var q := result / 0x100_0000;
    var t := result % 0x100_0000;
    assert result == q * 0x100_0000 + t;
    assert result * 256 == q * Word + t * 256;
    assert 0 <= t * 256 < Word;
  }

  /** The code of a byte string: the bytes folded in from the left. */
  function Packed(bs: seq<byte>): (r: nat)
    ensures r < Word
  {
    if bs == [] then 0 else ShiftInByte(Packed(DropLast(bs)), Last(bs))
  }

  /** The bytes read as one big-endian number, with no width limit: the reference reading. */
  function BigEndian(bs: seq<byte>): nat {
    if bs == [] then 0 else BigEndian(DropLast(bs)) * 256 + Last(bs) as nat
  }

  function Pow256(n: nat): (r: nat)
    ensures r >= 1
  {
    if n == 0 then 1 else 256 * Pow256(n - 1)
  }

  lemma BigEndianBound(bs: seq<byte>)
    ensures BigEndian(bs) < Pow256(|bs|)
  {
    if bs != [] {
      BigEndianBound(DropLast(bs));
    }
  }

  /** Reading a concatenation: the front part counts |b| bytes higher. */
  lemma {:induction false} BigEndianAppend(a: seq<byte>, b: seq<byte>)
    ensures BigEndian(a + b) == BigEndian(a) * Pow256(|b|) + BigEndian(b)
    decreases |b|
  {
    if b == [] {
      assert a + b == a;
    } else {
      var b' := DropLast(b);
      assert DropLast(a + b) == a + b';
      assert Last(a + b) == Last(b);
      BigEndianAppend(a, b');
      assert Pow256(|b|) == 256 * Pow256(|b'|);
      Regroup(BigEndian(a), Pow256(|b'|), BigEndian(b'), Last(b) as nat);
    }
  }

  lemma Regroup(x: nat, p: nat, y: nat, l: nat)
    ensures (x * p + y) * 256 + l == x * (256 * p) + (y * 256 + l)
  {
  }

  /** One step of the fold is one step of the reading, taken modulo 2^32. */
  lemma ShiftIsModular(x: nat, b: byte)
    ensures ShiftInByte(x % Word, b) == (x * 256 + b as nat) % Word
  {
    var r := x % Word;
    var q := x / Word;
    assert x == q * Word + r;
    ShiftKeepsRoom(r);
    var s := (r * 256) % Word + b as nat;
    assert s < Word;
    assert x * 256 + b as nat == (q * 256) * Word + (r * 256 - (r * 256) % Word) + s;
    var k := r * 256 / Word;
    assert r * 256 == k * Word + (r * 256) % Word;
    assert x * 256 + b as nat == (q * 256 + k) * Word + s;
    ModOfMultiplePlus(q * 256 + k, s);
  }

  lemma ModOfMultiplePlus(k: nat, s: nat)
    requires s < Word
    ensures (k * Word + s) % Word == s
  {
  }

  /** The code is the big-endian reading of all the bytes, modulo 2^32. */
  lemma {:induction false} PackedIsBigEndianModWord(bs: seq<byte>)
    ensures Packed(bs) == BigEndian(bs) % Word
  {
    if bs != [] {
      var x, b := BigEndian(DropLast(bs)), Last(bs);
      PackedIsBigEndianModWord(DropLast(bs));
      assert Packed(bs) == ShiftInByte(x % Word, b);
      ShiftIsModular(x, b);
      assert BigEndian(bs) == x * 256 + b as nat;
    }
  }

  /** Up to four bytes, nothing is lost: the code is exactly the big-endian number. */
  lemma ShortStringsExact(bs: seq<byte>)
    requires |bs| <= 4
    ensures Packed(bs) == BigEndian(bs)
  {
    PackedIsBigEndianModWord(bs);
    BigEndianBound(bs);
    assert Pow256(|bs|) <= Word by {
      assert Pow256(4) == Word;
      Pow256Monotone(|bs|, 4);
    }
  }

  lemma Pow256Monotone(m: nat, n: nat)
    requires m <= n
    ensures Pow256(m) <= Pow256(n)
    decreases n
  {
    if m < n {
      Pow256Monotone(m, n - 1);
    }
  }

  /** Only the last four bytes matter: earlier ones are shifted out. */
  lemma LastFourBytesDecide(bs: seq<byte>)
    requires |bs| >= 4
    ensures Packed(bs) == Packed(bs[|bs| - 4..])
  {
    var front, back := bs[..|bs| - 4], bs[|bs| - 4..];
    assert bs == front + back;
    BigEndianAppend(front, back);
    assert Pow256(4) == Word;
    PackedIsBigEndianModWord(bs);
    ShortStringsExact(back);
    BigEndianBound(back);
    ModOfMultiplePlus(BigEndian(front), BigEndian(back));
  }

  /** `for char in self.utf8 { result = (result << 8) + FourCharCode(char) }`. */
  method FourCharCodeValue(utf8: seq<byte>) returns (result: nat)
    ensures result == Packed(utf8)
  {
    result := 0;
    var i := 0;
    while i < |utf8|
      invariant 0 <= i <= |utf8|
      invariant result == Packed(utf8[..i])
    {
      assert DropLast(utf8[..i + 1]) == utf8[..i];
      result := ShiftInByte(result, utf8[i]);
      i := i + 1;
    }
    assert utf8[..i] == utf8;
  }

  /** The UTF-8 bytes of a string of ASCII characters: one byte per character, its code. */
  function AsciiBytes(s: string): (bs: seq<byte>)
    requires forall i :: 0 <= i < |s| ==> s[i] as int < 128
    ensures |bs| == |s| && forall i :: 0 <= i < |s| ==> bs[i] as int == s[i] as int
  {
    seq(|s|, i requires 0 <= i < |s| => s[i] as int as byte)
  }

  /** The application's hot-key signature, "CPED", is 0x43504544; the empty string is 0. */
  lemma SignatureCode()
    ensures Packed(AsciiBytes("CPED")) == 0x43504544
    ensures Packed(AsciiBytes("")) == 0
  {
    var bs := AsciiBytes("CPED");
    assert bs == [0x43, 0x50, 0x45, 0x44];
    ShortStringsExact(bs);
    assert DropLast(bs) == [0x43, 0x50, 0x45];
    assert DropLast(DropLast(bs)) == [0x43, 0x50];
    assert DropLast(DropLast(DropLast(bs))) == [0x43];
    assert DropLast([0x43 as byte]) == [];
  }
}
