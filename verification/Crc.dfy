/**
 The 16-bit CRC with generator x^16 + x^12 + x^5 + 1 (section 2 of ITU-T V.41):
 the nibble-shift update of the link layer and the bit-by-bit reference.
 */
module Crc {
  import opened Bytes

  // ---------------------------------------------------------------- bytes and bits

  /** The low k bits of b as a bit vector. */
  function Bits(b: nat, k: nat): bv8 {
    if k == 0 then 0
    else (Bits(b / 2, k - 1) << 1) | (if b % 2 == 1 then 1 else 0)
  }

  /** The number whose binary form is the low k bits of v. */
  function Number(v: bv8, k: nat): nat {
    if k == 0 then 0
    else 2 * Number(v >> 1, k - 1) + (if v & 1 == 1 then 1 else 0)
  }

  function Mask(k: nat): bv8 {
    if k == 0 then 0 else (Mask(k - 1) << 1) | 1
  }

  function Pow2(k: nat): nat {
    if k == 0 then 1 else 2 * Pow2(k - 1)
  }

  lemma {:induction false} NumberBound(v: bv8, k: nat)
    ensures Number(v, k) < Pow2(k)
  {
    if k > 0 {
      NumberBound(v >> 1, k - 1);
    }
  }

  lemma {:induction false} BitsBound(b: nat, k: nat)
    requires k <= 8
    ensures Bits(b, k) & Mask(k) == Bits(b, k)
  {
    if k > 0 {
      BitsBound(b / 2, k - 1);
    }
  }

  lemma MaskBound(k: nat)
    requires k < 8
    ensures Mask(k) & 127 == Mask(k)
  {
    assert Mask(1) == 1 && Mask(2) == 3 && Mask(3) == 7;
    assert Mask(4) == 15 && Mask(5) == 31 && Mask(6) == 63;
  }

  lemma PowerOf8()
    ensures Pow2(8) == 256 && Mask(8) == 255
  {
    assert Pow2(4) == 16;
    MaskBound(7);
    assert Mask(4) == 15 && Mask(6) == 63;
  }

  lemma {:induction false} NumberOfBits(b: nat, k: nat)
    requires k <= 8 && b < Pow2(k)
    ensures Number(Bits(b, k), k) == b
  {
    if k > 0 {
      NumberOfBits(b / 2, k - 1);
      BitsBound(b / 2, k - 1);
      MaskBound(k - 1);
      var v := Bits(b / 2, k - 1);
      assert v & 127 == v;
      assert ((v << 1) | 1) >> 1 == v && ((v << 1) | 0) >> 1 == v;
    }
  }

  lemma MaskShifts(v: bv8, mask: bv8)
    requires v & ((mask << 1) | 1) == v
    ensures (v >> 1) & mask == v >> 1
  {
  }

  lemma HalfAndBit(v: bv8)
    ensures v == ((v >> 1) << 1) | (if v & 1 == 1 then 1 else 0)
  {
  }

  lemma {:induction false} BitsOfNumber(v: bv8, k: nat)
    requires k <= 8 && v & Mask(k) == v
    ensures Bits(Number(v, k), k) == v
  {
    if k > 0 {
      MaskShifts(v, Mask(k - 1));
      HalfAndBit(v);
      BitsOfNumber(v >> 1, k - 1);
    }
  }

  function Bv(b: byte): bv8 {
    Bits(b, 8)
  }

  function Int(v: bv8): byte
  {
    NumberBound(v, 8);
    PowerOf8();
    Number(v, 8)
  }

  lemma ByteRoundTrip(b: byte, v: bv8)
    ensures Int(Bv(b)) == b && Bv(Int(v)) == v
  {
    PowerOf8();
    NumberOfBits(b, 8);
    BitsOfNumber(v, 8);
  }

  // ---------------------------------------------------------------- definitions

  /** One byte by nibble shifts, as the link layer does it. */
  function Update(crc: bv16, b: bv8): bv16 {
    Mix(crc & 0xFF, ((crc >> 8) & 0xFF) ^ (b as bv16))
  }

  function Mix(hi: bv16, lo: bv16): bv16 {
    var lo' := lo ^ (lo >> 4);
    var hi' := hi ^ ((lo' << 4) & 0xFF) ^ (lo' >> 3);
    var lo'' := lo' ^ ((lo' << 5) & 0xFF);
    (hi' << 8) | lo''
  }

  /** One step of the shift register with polynomial 0x1021. */
  function Shift(c: bv16): bv16 {
    if c & 0x8000 != 0 then (c << 1) ^ 0x1021 else c << 1
  }

  function Shifts(c: bv16, k: nat): bv16
    decreases k
  {
    if k == 0 then c else Shift(Shifts(c, k - 1))
  }

  function AddByte(crc: bv16, b: byte): bv16 {
    Update(crc, Bv(b))
  }

  /** The CRC of a byte string, from an initial value. */
  function Over(crc: bv16, bytes: seq<byte>): bv16
    decreases |bytes|
  {
    if bytes == [] then crc
    else AddByte(Over(crc, bytes[..|bytes| - 1]), bytes[|bytes| - 1])
  }

  lemma OverAppend(crc: bv16, bytes: seq<byte>, b: byte)
    ensures Over(crc, bytes + [b]) == AddByte(Over(crc, bytes), b)
  {
    assert (bytes + [b])[..|bytes|] == bytes;
  }

  function High(crc: bv16): byte {
    Int((crc >> 8) as bv8)
  }

  function Low(crc: bv16): byte {
    Int((crc & 0xFF) as bv8)
  }

  /** The value received as two bytes, high byte first. */
  function Word(high: byte, low: byte): bv16 {
    Join(Bv(high), Bv(low))
  }

  lemma WordOfBytes(crc: bv16)
    ensures Word(High(crc), Low(crc)) == crc
  {
    ByteRoundTrip(0, (crc >> 8) as bv8);
    ByteRoundTrip(0, (crc & 0xFF) as bv8);
  }

  // ---------------------------------------------------------------- fast equals bitwise
  // Composed steps hide the bit-level definitions, so that only the small
  // lemmas about a single operation reason about bits.

  function Xor(a: bv16, b: bv16): bv16 {
    a ^ b
  }

  /** Four shift steps at once. */
  function Nibble(c: bv16): bv16 {
    var n := c >> 12;
    (c << 4) ^ n ^ (n << 5) ^ (n << 12)
  }

  lemma SameNibbles(x: bv16, y: bv16)
    requires x & 0xF == y & 0xF && x & 0xF0 == y & 0xF0
    requires x & 0xF00 == y & 0xF00 && x & 0xF000 == y & 0xF000
    ensures x == y
  {
  }

  lemma XorCommutes(a: bv16, b: bv16)
    ensures Xor(a, b) == Xor(b, a)
  {
  }

  lemma ShiftLinear(c: bv16, d: bv16)
    ensures Shift(Xor(c, d)) == Xor(Shift(c), Shift(d))
  {
    hide Shift, Xor;
    if c & 0x8000 != 0 {
      if d & 0x8000 != 0 {
        ShiftLinearSet(c, d);
      } else {
        ShiftLinearMixed(c, d);
      }
    } else if d & 0x8000 != 0 {
      ShiftLinearMixed(d, c);
      XorCommutes(c, d);
      XorCommutes(Shift(c), Shift(d));
    } else {
      ShiftLinearClear(c, d);
    }
  }

  lemma ShiftLinearSet(c: bv16, d: bv16)
    requires c & 0x8000 != 0 && d & 0x8000 != 0
    ensures Shift(Xor(c, d)) == Xor(Shift(c), Shift(d))
  {
  }

  lemma ShiftLinearMixed(c: bv16, d: bv16)
    requires c & 0x8000 != 0 && d & 0x8000 == 0
    ensures Shift(Xor(c, d)) == Xor(Shift(c), Shift(d))
  {
  }

  lemma ShiftLinearClear(c: bv16, d: bv16)
    requires c & 0x8000 == 0 && d & 0x8000 == 0
    ensures Shift(Xor(c, d)) == Xor(Shift(c), Shift(d))
  {
  }

  function Top(c: bv16): bv16 {
    (c >> 12) << 12
  }

  function Rest(c: bv16): bv16 {
    c & 0xFFF
  }

  lemma FourLow(m: bv16)
    ensures Shift(Shift(Shift(Shift(Rest(m))))) == Rest(m) << 4
  {
  }

  lemma FourHigh(n: bv16)
    ensures Shift(Shift(Shift(Shift(Top(n))))) == Nibble(Top(n))
  {
  }

  lemma NibbleSplit(c: bv16)
    ensures c == Xor(Top(c), Rest(c))
    ensures Nibble(c) == Xor(Nibble(Top(c)), Rest(c) << 4)
  {
  }

  lemma FourLinear(c: bv16, d: bv16)
    ensures Shift(Shift(Shift(Shift(Xor(c, d))))) == Xor(Shift(Shift(Shift(Shift(c)))), Shift(Shift(Shift(Shift(d)))))
  {
    hide Shift, Xor;
    TwoLinear(c, d);
    TwoLinear(Shift(Shift(c)), Shift(Shift(d)));
  }

  lemma TwoLinear(c: bv16, d: bv16)
    ensures Shift(Shift(Xor(c, d))) == Xor(Shift(Shift(c)), Shift(Shift(d)))
  {
    hide Shift, Xor;
    ShiftLinear(c, d);
    ShiftLinear(Shift(c), Shift(d));
  }

  lemma FourShifts(c: bv16)
    ensures Shift(Shift(Shift(Shift(c)))) == Nibble(c)
  {
    hide Shift, Nibble, Xor, Top, Rest;
    NibbleSplit(c);
    FourLinear(Top(c), Rest(c));
    FourHigh(c);
    FourLow(c);
  }

  lemma UpdateZero0(c: bv16)
    ensures Update(c, 0) & 0xF == Nibble(Nibble(c)) & 0xF
    ensures Update(c, 0) & 0xF0 == Nibble(Nibble(c)) & 0xF0
  {
  }

  lemma UpdateZero2(c: bv16)
    ensures Update(c, 0) & 0xF00 == Nibble(Nibble(c)) & 0xF00
  {
  }

  lemma UpdateZero3(c: bv16)
    ensures Update(c, 0) & 0xF000 == Nibble(Nibble(c)) & 0xF000
  {
  }

  lemma UpdateZero(c: bv16)
    ensures Update(c, 0) == Nibble(Nibble(c))
  {
    hide Update, Nibble;
    UpdateZero0(c);
    UpdateZero2(c);
    UpdateZero3(c);
    SameNibbles(Update(c, 0), Nibble(Nibble(c)));
  }

  /** The byte enters the register at its high end. */
  function Fold(c: bv16, b: bv8): bv16 {
    c ^ ((b as bv16) << 8)
  }

  lemma FoldHalves(c: bv16, b: bv8)
    ensures Fold(c, b) & 0xFF == c & 0xFF
    ensures ((Fold(c, b) >> 8) & 0xFF) ^ (0 as bv8 as bv16) == ((c >> 8) & 0xFF) ^ (b as bv16)
  {
  }

  lemma UpdateFolds(c: bv16, b: bv8)
    ensures Update(c, b) == Update(Fold(c, b), 0)
  {
    hide Mix, Fold;
    FoldHalves(c, b);
  }

  lemma UpdateIsNibbles(c: bv16, b: bv8)
    ensures Update(c, b) == Nibble(Nibble(Fold(c, b)))
  {
    hide Update, Nibble, Fold;
    UpdateFolds(c, b);
    UpdateZero(Fold(c, b));
  }

  lemma {:induction false} ShiftsAdd(c: bv16, j: nat, k: nat)
    ensures Shifts(c, j + k) == Shifts(Shifts(c, j), k)
    decreases k
  {
    if k > 0 {
      ShiftsAdd(c, j, k - 1);
    }
  }

  lemma ShiftsFour(c: bv16)
    ensures Shifts(c, 4) == Nibble(c)
  {
    hide Shift, Nibble;
    assert Shifts(c, 2) == Shift(Shift(c));
    FourShifts(c);
  }

  /** The fast update is eight steps of the shift register, for every state and byte. */
  lemma FastIsBitwise(crc: bv16, b: byte)
    ensures AddByte(crc, b) == Shifts(Fold(crc, Bv(b)), 8)
  {
    hide Update, Nibble, Shift, Fold;
    var c := Fold(crc, Bv(b));
    UpdateIsNibbles(crc, Bv(b));
    ShiftsAdd(c, 4, 4);
    ShiftsFour(c);
    ShiftsFour(Nibble(c));
  }

  // ---------------------------------------------------------------- the implementations

  lemma ShiftCases(c: bv16)
    ensures Shift(c) == if c & 0x8000 != 0 then (c << 1) ^ 0x1021 else c << 1
  {
  }

  /** CRC_Ccitt_UpdateByte: one byte, bit by bit. */
  method CcittUpdateByte(crc: bv16, value: byte) returns (r: bv16)
    ensures r == AddByte(crc, value)
  {
    hide Update, Fold, Bv, AddByte, Shift;
    FastIsBitwise(crc, value);
    r := Fold(crc, Bv(value));
    ghost var start := r;
    for i := 0 to 8
      invariant r == Shifts(start, i)
    {
      ShiftCases(r);
      if r & 0x8000 != 0 {
        r := (r << 1) ^ 0x1021;
      } else {
        r := r << 1;
      }
    }
  }

  /** CRC_Ccitt_Update: a byte string, from any state. */
  method CcittUpdate(crc: bv16, data: seq<byte>) returns (r: bv16)
    ensures r == Over(crc, data)
  {
    r := crc;
    var counter := |data|;
    while counter > 0
      invariant 0 <= counter <= |data|
      invariant r == Over(crc, data[..|data| - counter])
    {
      var i := |data| - counter;
      assert data[..i + 1][..i] == data[..i];
      r := CcittUpdateByte(r, data[i]);
      counter := counter - 1;
    }
    assert data[..|data|] == data;
  }

  const CCITT_INIT: bv16 := 0xFFFF
  const DLL_INIT: bv16 := 0

  /** CRC_Ccitt_Calc. */
  method CcittCalc(data: seq<byte>) returns (r: bv16)
    ensures r == Over(0xFFFF, data)
  {
    r := CcittUpdate(CCITT_INIT, data);
  }

  /** DLL_calculateCrc of the DBusCAN link layer. */
  method CalculateCrc(data: seq<byte>) returns (crc: bv16)
    ensures crc == Over(0, data)
  {
    crc := DLL_INIT;
    var i := 0;
    while i < |data|
      invariant 0 <= i <= |data|
      invariant crc == Over(DLL_INIT, data[..i])
    {
      assert data[..i + 1][..i] == data[..i];
      crc := AddByte(crc, data[i]);
      i := i + 1;
    }
    assert data[..|data|] == data;
  }

  // ---------------------------------------------------------------- error detection

  /** The receiver's comparison: the last two bytes are the CRC of what precedes them. */
  predicate Accepts(frame: seq<byte>) {
    |frame| >= 2 &&
    Word(frame[|frame| - 2], frame[|frame| - 1]) == Over(DLL_INIT, frame[..|frame| - 2])
  }

  /** The register value whose bytes are h and l. */
  function Join(h: bv8, l: bv8): bv16 {
    ((h as bv16) << 8) | (l as bv16)
  }

  lemma FoldOwn(h: bv8, l: bv8)
    ensures Fold(Join(h, l), h) == l as bv16
  {
  }

  lemma UpdateLow(l: bv8)
    ensures Update(l as bv16, 0) == (l as bv16) << 8
  {
  }

  lemma SecondOfOwn(l: bv8)
    ensures Update((l as bv16) << 8, l) == 0
  {
  }

  lemma ResidueOfOwn(h: bv8, l: bv8)
    ensures Update(Update(Join(h, l), h), l) == 0
  {
    hide Update, Join, Fold;
    UpdateFolds(Join(h, l), h);
    FoldOwn(h, l);
    UpdateLow(l);
    SecondOfOwn(l);
  }

  lemma UpdateCancels(c: bv16, b: bv8, d: bv16)
    requires Update(c, b) == Update(d, b)
    ensures c == d
  {
    hide Update, Xor, XorByte;
    UpdateLinear(c, d, b, b);
    XorByteZero(b, b);
    XorZero(Update(c, b), Update(d, b));
    UpdateInjective(Xor(c, d));
    XorZero(c, d);
  }

  lemma XorRules(c: bv16, d: bv16)
    ensures Xor(d, d) == 0 && Xor(0, d) == d && Xor(Xor(c, d), d) == c
  {
  }

  lemma XorZero(c: bv16, d: bv16)
    ensures Xor(c, d) == 0 <==> c == d
  {
    hide Xor;
    XorRules(c, d);
  }

  lemma XorByteRules(a: bv8, b: bv8)
    ensures XorByte(b, b) == 0 && XorByte(0, b) == b && XorByte(XorByte(a, b), b) == a
  {
  }

  lemma XorByteZero(a: bv8, b: bv8)
    ensures XorByte(a, b) == 0 <==> a == b
  {
    hide XorByte;
    XorByteRules(a, b);
  }

  lemma ResidueZero(c: bv16, h: bv8, l: bv8)
    ensures Update(Update(c, h), l) == 0 <==> Join(h, l) == c
  {
    hide Update, Join;
    ResidueOfOwn(h, l);
    if Update(Update(c, h), l) == 0 {
      UpdateCancels(Update(c, h), l, Update(Join(h, l), h));
      UpdateCancels(c, h, Join(h, l));
    }
  }

  lemma OverTwoMore(crc: bv16, frame: seq<byte>)
    requires |frame| >= 2
    ensures Over(crc, frame) ==
      AddByte(AddByte(Over(crc, frame[..|frame| - 2]), frame[|frame| - 2]), frame[|frame| - 1])
  {
    var k := |frame|;
    assert frame[..k - 1][..k - 2] == frame[..k - 2];
    assert frame[..k - 1][k - 2] == frame[k - 2];
  }

  /** A frame is accepted exactly when the CRC over all of it, its own CRC included, is zero. */
  lemma AcceptsIsResidue(frame: seq<byte>)
    requires |frame| >= 2
    ensures Accepts(frame) <==> Over(0, frame) == 0
  {
    hide Update;
    OverTwoMore(DLL_INIT, frame);
    ResidueZero(Over(DLL_INIT, frame[..|frame| - 2]), Bv(frame[|frame| - 2]), Bv(frame[|frame| - 1]));
  }

  /** A string followed by its own CRC is accepted. */
  lemma OwnCrcAccepted(data: seq<byte>)
    ensures Accepts(data + [High(Over(0, data)), Low(Over(0, data))])
  {
    var crc := Over(DLL_INIT, data);
    WordOfBytes(crc);
    assert (data + [High(crc), Low(crc)])[..|data|] == data;
  }

  lemma NibbleLinear01(c: bv16, d: bv16)
    ensures Nibble(Xor(c, d)) & 0xF == Xor(Nibble(c), Nibble(d)) & 0xF
    ensures Nibble(Xor(c, d)) & 0xF0 == Xor(Nibble(c), Nibble(d)) & 0xF0
  {
  }

  lemma NibbleLinear23(c: bv16, d: bv16)
    ensures Nibble(Xor(c, d)) & 0xF00 == Xor(Nibble(c), Nibble(d)) & 0xF00
    ensures Nibble(Xor(c, d)) & 0xF000 == Xor(Nibble(c), Nibble(d)) & 0xF000
  {
  }

  lemma NibbleLinear(c: bv16, d: bv16)
    ensures Nibble(Xor(c, d)) == Xor(Nibble(c), Nibble(d))
  {
    hide Nibble, Xor;
    NibbleLinear01(c, d);
    NibbleLinear23(c, d);
    SameNibbles(Nibble(Xor(c, d)), Xor(Nibble(c), Nibble(d)));
  }

  function XorByte(a: bv8, b: bv8): bv8 {
    a ^ b
  }

  lemma FoldLinear(c: bv16, d: bv16, a: bv8, b: bv8)
    ensures Fold(Xor(c, d), XorByte(a, b)) == Xor(Fold(c, a), Fold(d, b))
  {
  }

  /** The update is linear in state and byte together. */
  lemma UpdateLinear(c: bv16, d: bv16, a: bv8, b: bv8)
    ensures Update(Xor(c, d), XorByte(a, b)) == Xor(Update(c, a), Update(d, b))
  {
    hide Nibble, Update, Fold, Xor, XorByte;
    var x, y := Fold(c, a), Fold(d, b);
    UpdateIsNibbles(Xor(c, d), XorByte(a, b));
    UpdateIsNibbles(c, a);
    UpdateIsNibbles(d, b);
    FoldLinear(c, d, a, b);
    NibbleLinear(x, y);
    NibbleLinear(Nibble(x), Nibble(y));
  }

  lemma UpdateInjective(c: bv16)
    ensures Update(c, 0) == 0 <==> c == 0
  {
  }

  lemma TwoByteBurst(a: bv8, b: bv8)
    requires Update(Update(0, a), b) == 0
    ensures a == 0 && b == 0
  {
  }

  /** The two strings agree before position i and behind position i + 1. */
  predicate AgreeOutside(f: seq<byte>, g: seq<byte>, i: nat) {
    |f| == |g| && forall k :: 0 <= k < |f| && k != i && k != i + 1 ==> f[k] == g[k]
  }

  function Difference(f: seq<byte>, g: seq<byte>): bv16
  {
    Xor(Over(DLL_INIT, f), Over(DLL_INIT, g))
  }

  lemma DifferenceStep(f: seq<byte>, g: seq<byte>)
    requires |f| == |g| > 0
    ensures var k := |f| - 1;
      Difference(f, g) == Update(Difference(f[..k], g[..k]), XorByte(Bv(f[k]), Bv(g[k])))
  {
    hide Update, Xor, XorByte, Bv;
    var k := |f| - 1;
    UpdateLinear(Over(DLL_INIT, f[..k]), Over(DLL_INIT, g[..k]), Bv(f[k]), Bv(g[k]));
  }

  lemma DifferentBits(a: byte, b: byte)
    ensures XorByte(Bv(a), Bv(b)) == 0 <==> a == b
  {
    hide XorByte;
    ByteRoundTrip(a, 0);
    ByteRoundTrip(b, 0);
    XorByteZero(Bv(a), Bv(b));
  }

  lemma DifferenceSame(f: seq<byte>)
    ensures Difference(f, f) == 0
  {
    hide Xor;
    XorZero(Over(DLL_INIT, f), Over(DLL_INIT, f));
  }

  /** Strings that differ in a two-byte window only have different CRCs. */
  lemma {:induction false} BurstChangesCrc(f: seq<byte>, g: seq<byte>, i: nat)
    requires AgreeOutside(f, g, i)
    ensures f != g <==> Difference(f, g) != 0
    decreases |f|
  {
    hide Update, Difference, XorByte, Bv;
    DifferenceSame(f);
    if |f| > 0 {
      var k := |f| - 1;
      var f', g' := f[..k], g[..k];
      assert f == f' + [f[k]] && g == g' + [g[k]];
      DifferenceStep(f, g);
      DifferentBits(f[k], g[k]);
      BurstChangesCrc(f', g', i);
      if k > i + 1 {
        UpdateInjective(Difference(f', g'));
      } else if k == i + 1 {
        var f'', g'' := f'[..i], g'[..i];
        assert f' == f'' + [f[i]] && g' == g'' + [g[i]];
        DifferenceStep(f', g');
        DifferentBits(f[i], g[i]);
        BurstChangesCrc(f'', g'', i);
        assert f'' == g'';
        DifferenceSame(f'');
        if Difference(f, g) == 0 {
          TwoByteBurst(XorByte(Bv(f[i]), Bv(g[i])), XorByte(Bv(f[k]), Bv(g[k])));
        }
      } else {
        assert f' == g';
        DifferenceSame(f');
        UpdateInjective(0);
        if k == i && Difference(f, g) == 0 {
          TwoByteBurst(0, XorByte(Bv(f[k]), Bv(g[k])));
        }
      }
    }
  }

  /** Changing any bytes within two neighbouring positions of an accepted frame, the CRC bytes included, is noticed. */
  lemma BurstDetected(frame: seq<byte>, received: seq<byte>, i: nat)
    requires Accepts(frame) && AgreeOutside(frame, received, i) && received != frame
    ensures !Accepts(received)
  {
    AcceptsIsResidue(frame);
    AcceptsIsResidue(received);
    BurstChangesCrc(frame, received, i);
  }
}
