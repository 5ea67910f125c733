/** The message bus checksum: the table driven CRC-32 and the bit-serial definition it implements. */
module Crc32 {
  import opened Memory

  // The word operations the proofs treat as names: each fact about them is proved once, on bits,
  // and used with the bits hidden.
  function Xor(a: bv32, b: bv32): bv32 { a ^ b }
  function Not(a: bv32): bv32 { !a }
  function Word(b: Byte): bv32 { b as bv32 }
  function Drop8(a: bv32): bv32 { a >> 8 }
  function Raise8(a: bv32): bv32 { a << 8 }
  function Low8(a: bv32): bv32 { a & 0xFF }
  function High24(a: bv32): bv32 { a & 0xFFFF_FF00 }

  // ------------------------------------------------------------------ bit-serial definition

  /** One step of the reflected CRC-32 register (section 8 of RFC 1952). */
  function BitStep(c: bv32): bv32 {
    if c & 1 == 1 then (c >> 1) ^ 0xEDB88320 else c >> 1
  }

  function BitSteps(c: bv32, n: nat): bv32
    decreases n
  {
    if n == 0 then c else BitSteps(BitStep(c), n - 1)
  }

  /** A byte enters at the low end of the register and is shifted out by eight bit steps. */
  function ByteStep(c: bv32, b: Byte): bv32 {
    BitSteps(Xor(c, Word(b)), 8)
  }

  function Feed(c: bv32, data: seq<Byte>): bv32
    decreases |data|
  {
    if data == [] then c else Feed(ByteStep(c, data[0]), data[1..])
  }

  /** The checksum of `data`, continuing from the checksum `last` of what came before (0 at the start). */
  function Checksum(data: seq<Byte>, last: bv32): bv32 {
    Not(Feed(Not(last), data))
  }

  // ------------------------------------------------------------------ the bit step is linear and invertible

  // A bit step in words: the low bit decides whether the polynomial is added to the other bits.
  function Half(c: bv32): bv32 { c >> 1 }
  predicate IsOdd(c: bv32) { c & 1 == 1 }

  lemma BitStepInWords(c: bv32)
    ensures BitStep(c) == if IsOdd(c) then Xor(Half(c), 0xEDB88320) else Half(c)
  {}

  lemma HalfIsLinear(x: bv32, y: bv32)
    ensures Half(Xor(x, y)) == Xor(Half(x), Half(y))
  {}

  lemma OddnessAdds(x: bv32, y: bv32)
    ensures IsOdd(Xor(x, y)) <==> IsOdd(x) != IsOdd(y)
  {}

  lemma XorAssociates(x: bv32, y: bv32, z: bv32)
    ensures Xor(x, Xor(y, z)) == Xor(Xor(x, y), z)
  {}

  lemma XorCommutes(a: bv32, b: bv32)
    ensures Xor(a, b) == Xor(b, a)
  {}

  lemma XorUndoes(a: bv32, p: bv32)
    ensures Xor(Xor(a, p), p) == a
  {}

  lemma XorRegroups(a: bv32, b: bv32, p: bv32)
    ensures Xor(Xor(a, p), b) == Xor(a, Xor(b, p)) == Xor(Xor(a, b), p)
    ensures Xor(Xor(a, p), Xor(b, p)) == Xor(a, b)
  {
    hide Xor;
    XorAssociates(a, p, b);
    XorCommutes(p, b);
    XorAssociates(a, b, p);
    XorAssociates(Xor(a, p), b, p);
    XorUndoes(Xor(a, b), p);
  }

  lemma BitStepIsLinear(x: bv32, y: bv32)
    ensures BitStep(Xor(x, y)) == Xor(BitStep(x), BitStep(y))
  {
    hide BitStep, Half, IsOdd, Xor;
    BitStepInWords(x);
    BitStepInWords(y);
    BitStepInWords(Xor(x, y));
    HalfIsLinear(x, y);
    OddnessAdds(x, y);
    XorRegroups(Half(x), Half(y), 0xEDB88320);
  }

  lemma {:induction false} BitStepsAreLinear(x: bv32, y: bv32, n: nat)
    ensures BitSteps(Xor(x, y), n) == Xor(BitSteps(x, n), BitSteps(y, n))
    decreases n
  {
    hide BitStep, Xor;
    if n > 0 {
      BitStepIsLinear(x, y);
      BitStepsAreLinear(BitStep(x), BitStep(y), n - 1);
    }
  }

  /** The top bit of the result tells whether the polynomial was added, so a step can be undone. */
  function UndoBitStep(d: bv32): bv32 {
    if d >> 31 == 1 then ((d ^ 0xEDB88320) << 1) | 1 else d << 1
  }

  lemma BitStepCanBeUndone(c: bv32)
    ensures UndoBitStep(BitStep(c)) == c
  {}

  lemma {:induction false} BitStepsAreInjective(x: bv32, y: bv32, n: nat)
    requires BitSteps(x, n) == BitSteps(y, n)
    ensures x == y
    decreases n
  {
    hide BitStep, UndoBitStep;
    if n > 0 {
      BitStepsAreInjective(BitStep(x), BitStep(y), n - 1);
      BitStepCanBeUndone(x);
      BitStepCanBeUndone(y);
    }
  }

  lemma {:induction false} BitStepsCompose(c: bv32, m: nat, n: nat)
    ensures BitSteps(c, m + n) == BitSteps(BitSteps(c, m), n)
    decreases m
  {
    hide BitStep;
    if m > 0 {
      BitStepsCompose(BitStep(c), m - 1, n);
    }
  }

  // ------------------------------------------------------------------ the table

  /** The 256 entries, in rows of eight as in the source. */
  function Lookup(v: Byte): bv32 {
    var row := v >> 3;
    if row == 0 then Pick(v & 7, 0x00000000, 0x77073096, 0xEE0E612C, 0x990951BA, 0x076DC419, 0x706AF48F, 0xE963A535, 0x9E6495A3)
    else if row == 1 then Pick(v & 7, 0x0EDB8832, 0x79DCB8A4, 0xE0D5E91E, 0x97D2D988, 0x09B64C2B, 0x7EB17CBD, 0xE7B82D07, 0x90BF1D91)
    else if row == 2 then Pick(v & 7, 0x1DB71064, 0x6AB020F2, 0xF3B97148, 0x84BE41DE, 0x1ADAD47D, 0x6DDDE4EB, 0xF4D4B551, 0x83D385C7)
    else if row == 3 then Pick(v & 7, 0x136C9856, 0x646BA8C0, 0xFD62F97A, 0x8A65C9EC, 0x14015C4F, 0x63066CD9, 0xFA0F3D63, 0x8D080DF5)
    else if row == 4 then Pick(v & 7, 0x3B6E20C8, 0x4C69105E, 0xD56041E4, 0xA2677172, 0x3C03E4D1, 0x4B04D447, 0xD20D85FD, 0xA50AB56B)
    else if row == 5 then Pick(v & 7, 0x35B5A8FA, 0x42B2986C, 0xDBBBC9D6, 0xACBCF940, 0x32D86CE3, 0x45DF5C75, 0xDCD60DCF, 0xABD13D59)
    else if row == 6 then Pick(v & 7, 0x26D930AC, 0x51DE003A, 0xC8D75180, 0xBFD06116, 0x21B4F4B5, 0x56B3C423, 0xCFBA9599, 0xB8BDA50F)
    else if row == 7 then Pick(v & 7, 0x2802B89E, 0x5F058808, 0xC60CD9B2, 0xB10BE924, 0x2F6F7C87, 0x58684C11, 0xC1611DAB, 0xB6662D3D)
    else if row == 8 then Pick(v & 7, 0x76DC4190, 0x01DB7106, 0x98D220BC, 0xEFD5102A, 0x71B18589, 0x06B6B51F, 0x9FBFE4A5, 0xE8B8D433)
    else if row == 9 then Pick(v & 7, 0x7807C9A2, 0x0F00F934, 0x9609A88E, 0xE10E9818, 0x7F6A0DBB, 0x086D3D2D, 0x91646C97, 0xE6635C01)
    else if row == 10 then Pick(v & 7, 0x6B6B51F4, 0x1C6C6162, 0x856530D8, 0xF262004E, 0x6C0695ED, 0x1B01A57B, 0x8208F4C1, 0xF50FC457)
    else if row == 11 then Pick(v & 7, 0x65B0D9C6, 0x12B7E950, 0x8BBEB8EA, 0xFCB9887C, 0x62DD1DDF, 0x15DA2D49, 0x8CD37CF3, 0xFBD44C65)
    else if row == 12 then Pick(v & 7, 0x4DB26158, 0x3AB551CE, 0xA3BC0074, 0xD4BB30E2, 0x4ADFA541, 0x3DD895D7, 0xA4D1C46D, 0xD3D6F4FB)
    else if row == 13 then Pick(v & 7, 0x4369E96A, 0x346ED9FC, 0xAD678846, 0xDA60B8D0, 0x44042D73, 0x33031DE5, 0xAA0A4C5F, 0xDD0D7CC9)
    else if row == 14 then Pick(v & 7, 0x5005713C, 0x270241AA, 0xBE0B1010, 0xC90C2086, 0x5768B525, 0x206F85B3, 0xB966D409, 0xCE61E49F)
    else if row == 15 then Pick(v & 7, 0x5EDEF90E, 0x29D9C998, 0xB0D09822, 0xC7D7A8B4, 0x59B33D17, 0x2EB40D81, 0xB7BD5C3B, 0xC0BA6CAD)
    else if row == 16 then Pick(v & 7, 0xEDB88320, 0x9ABFB3B6, 0x03B6E20C, 0x74B1D29A, 0xEAD54739, 0x9DD277AF, 0x04DB2615, 0x73DC1683)
    else if row == 17 then Pick(v & 7, 0xE3630B12, 0x94643B84, 0x0D6D6A3E, 0x7A6A5AA8, 0xE40ECF0B, 0x9309FF9D, 0x0A00AE27, 0x7D079EB1)
    else if row == 18 then Pick(v & 7, 0xF00F9344, 0x8708A3D2, 0x1E01F268, 0x6906C2FE, 0xF762575D, 0x806567CB, 0x196C3671, 0x6E6B06E7)
    else if row == 19 then Pick(v & 7, 0xFED41B76, 0x89D32BE0, 0x10DA7A5A, 0x67DD4ACC, 0xF9B9DF6F, 0x8EBEEFF9, 0x17B7BE43, 0x60B08ED5)
    else if row == 20 then Pick(v & 7, 0xD6D6A3E8, 0xA1D1937E, 0x38D8C2C4, 0x4FDFF252, 0xD1BB67F1, 0xA6BC5767, 0x3FB506DD, 0x48B2364B)
    else if row == 21 then Pick(v & 7, 0xD80D2BDA, 0xAF0A1B4C, 0x36034AF6, 0x41047A60, 0xDF60EFC3, 0xA867DF55, 0x316E8EEF, 0x4669BE79)
    else if row == 22 then Pick(v & 7, 0xCB61B38C, 0xBC66831A, 0x256FD2A0, 0x5268E236, 0xCC0C7795, 0xBB0B4703, 0x220216B9, 0x5505262F)
    else if row == 23 then Pick(v & 7, 0xC5BA3BBE, 0xB2BD0B28, 0x2BB45A92, 0x5CB36A04, 0xC2D7FFA7, 0xB5D0CF31, 0x2CD99E8B, 0x5BDEAE1D)
    else if row == 24 then Pick(v & 7, 0x9B64C2B0, 0xEC63F226, 0x756AA39C, 0x026D930A, 0x9C0906A9, 0xEB0E363F, 0x72076785, 0x05005713)
    else if row == 25 then Pick(v & 7, 0x95BF4A82, 0xE2B87A14, 0x7BB12BAE, 0x0CB61B38, 0x92D28E9B, 0xE5D5BE0D, 0x7CDCEFB7, 0x0BDBDF21)
    else if row == 26 then Pick(v & 7, 0x86D3D2D4, 0xF1D4E242, 0x68DDB3F8, 0x1FDA836E, 0x81BE16CD, 0xF6B9265B, 0x6FB077E1, 0x18B74777)
    else if row == 27 then Pick(v & 7, 0x88085AE6, 0xFF0F6A70, 0x66063BCA, 0x11010B5C, 0x8F659EFF, 0xF862AE69, 0x616BFFD3, 0x166CCF45)
    else if row == 28 then Pick(v & 7, 0xA00AE278, 0xD70DD2EE, 0x4E048354, 0x3903B3C2, 0xA7672661, 0xD06016F7, 0x4969474D, 0x3E6E77DB)
    else if row == 29 then Pick(v & 7, 0xAED16A4A, 0xD9D65ADC, 0x40DF0B66, 0x37D83BF0, 0xA9BCAE53, 0xDEBB9EC5, 0x47B2CF7F, 0x30B5FFE9)
    else if row == 30 then Pick(v & 7, 0xBDBDF21C, 0xCABAC28A, 0x53B39330, 0x24B4A3A6, 0xBAD03605, 0xCDD70693, 0x54DE5729, 0x23D967BF)
    else Pick(v & 7, 0xB3667A2E, 0xC4614AB8, 0x5D681B02, 0x2A6F2B94, 0xB40BBE37, 0xC30C8EA1, 0x5A05DF1B, 0x2D02EF8D)
  }

  function Pick(j: Byte, e0: bv32, e1: bv32, e2: bv32, e3: bv32, e4: bv32, e5: bv32, e6: bv32, e7: bv32): bv32 {
    if j == 0 then e0 else if j == 1 then e1 else if j == 2 then e2 else if j == 3 then e3
    else if j == 4 then e4 else if j == 5 then e5 else if j == 6 then e6 else e7
  }

  function EightSteps(c: bv32): bv32 {
    BitStep(BitStep(BitStep(BitStep(BitStep(BitStep(BitStep(BitStep(c))))))))
  }

  lemma EightStepsAreBitSteps(c: bv32)
    ensures EightSteps(c) == BitSteps(c, 8)
  {
    hide BitStep;
    var c4 := BitStep(BitStep(BitStep(BitStep(c))));
    assert BitSteps(c4, 4) == BitStep(BitStep(BitStep(BitStep(c4)))) by {
      assert BitSteps(c4, 4) == BitSteps(BitStep(BitStep(c4)), 2);
    }
    assert BitSteps(c, 8) == BitSteps(BitStep(BitStep(c)), 6) == BitSteps(c4, 4);
  }

  lemma Entries0To31(v: Byte)
    requires v < 32
    ensures Lookup(v) == EightSteps(v as bv32)
  {}

  lemma Entries32To63(v: Byte)
    requires 32 <= v < 64
    ensures Lookup(v) == EightSteps(v as bv32)
  {}

  lemma Entries64To95(v: Byte)
    requires 64 <= v < 96
    ensures Lookup(v) == EightSteps(v as bv32)
  {}

  lemma Entries96To127(v: Byte)
    requires 96 <= v < 128
    ensures Lookup(v) == EightSteps(v as bv32)
  {}

  lemma Entries128To159(v: Byte)
    requires 128 <= v < 160
    ensures Lookup(v) == EightSteps(v as bv32)
  {}

  lemma Entries160To191(v: Byte)
    requires 160 <= v < 192
    ensures Lookup(v) == EightSteps(v as bv32)
  {}

  lemma Entries192To223(v: Byte)
    requires 192 <= v < 224
    ensures Lookup(v) == EightSteps(v as bv32)
  {}

  lemma Entries224To255(v: Byte)
    requires 224 <= v
    ensures Lookup(v) == EightSteps(v as bv32)
  {}

  /** Every one of the 256 entries is what eight bit steps make of its index. */
  lemma TableEntryIsEightBitSteps(v: Byte)
    ensures Lookup(v) == BitSteps(Word(v), 8)
  {
    hide Lookup, EightSteps, BitSteps;
    if v < 32 {
      Entries0To31(v);
    } else if v < 64 {
      Entries32To63(v);
    } else if v < 96 {
      Entries64To95(v);
    } else if v < 128 {
      Entries96To127(v);
    } else if v < 160 {
      Entries128To159(v);
    } else if v < 192 {
      Entries160To191(v);
    } else if v < 224 {
      Entries192To223(v);
    } else {
      Entries224To255(v);
    }
    EightStepsAreBitSteps(Word(v));
  }

  // ------------------------------------------------------------------ the table driven loop

  function TableStep(c: bv32, b: Byte): bv32 {
    Xor(Drop8(c), Lookup(TableIndex(c, b)))
  }

  // The low byte of the register, combined with the incoming byte.
  function TableIndex(c: bv32, b: Byte): Byte {
    ((c & 0xFF) as bv8) ^ b
  }

  lemma IndexIsLowByte(c: bv32, b: Byte)
    ensures Word(TableIndex(c, b)) == Xor(Low8(c), Word(b))
  {}

  lemma LowByteZeroOnBits(w: bv32)
    requires Low8(w) == 0
    ensures EightSteps(w) == Drop8(w)
  {}

  lemma ClearedLowByteShiftsOut(w: bv32)
    requires Low8(w) == 0
    ensures BitSteps(w, 8) == Drop8(w)
  {
    hide BitSteps, EightSteps;
    LowByteZeroOnBits(w);
    EightStepsAreBitSteps(w);
  }

  lemma HighAndLow(c: bv32)
    ensures Xor(High24(c), Low8(c)) == c
  {}

  lemma HighIsAboveLow(c: bv32)
    ensures Low8(High24(c)) == 0
    ensures Drop8(High24(c)) == Drop8(c)
  {}

  lemma TableStepIsByteStep(c: bv32, b: Byte)
    ensures TableStep(c, b) == ByteStep(c, b)
  {
    hide Xor, Low8, High24, Drop8, Word, BitSteps, Lookup, TableIndex;
    IndexIsLowByte(c, b);
    HighAndLow(c);
    HighIsAboveLow(c);
    XorAssociates(High24(c), Low8(c), Word(b));
    BitStepsAreLinear(High24(c), Xor(Low8(c), Word(b)), 8);
    ClearedLowByteShiftsOut(High24(c));
    TableEntryIsEightBitSteps(TableIndex(c, b));
  }

  lemma {:induction false} FeedConcat(c: bv32, a: seq<Byte>, b: seq<Byte>)
    ensures Feed(c, a + b) == Feed(Feed(c, a), b)
    decreases |a|
  {
    hide ByteStep;
    if a == [] {
      assert a + b == b;
    } else {
      assert (a + b)[0] == a[0] && (a + b)[1..] == a[1..] + b;
      FeedConcat(ByteStep(c, a[0]), a[1..], b);
    }
  }

  lemma FeedNext(c: bv32, data: seq<Byte>, n: nat)
    requires n < |data|
    ensures Feed(c, data[..n + 1]) == ByteStep(Feed(c, data[..n]), data[n])
  {
    hide ByteStep;
    assert data[..n + 1] == data[..n] + [data[n]];
    FeedConcat(c, data[..n], [data[n]]);
    assert Feed(Feed(c, data[..n]), [data[n]]) == Feed(ByteStep(Feed(c, data[..n]), data[n]), []);
  }

  /** The loop of the source, table driven and one byte at a time, computes the bit-serial checksum. */
  method CRC32(data: seq<Byte>, lastCRC: bv32) returns (result: bv32)
    ensures result == Checksum(data, lastCRC)
  {
    hide ByteStep, Feed, Lookup, Xor, Drop8, TableIndex, Not;
    var crc := Not(lastCRC);
    var current := 0;
    FeedNothing(Not(lastCRC));
    assert data[..0] == [];
    while current < |data|
      invariant 0 <= current <= |data|
      invariant crc == Feed(Not(lastCRC), data[..current])
    {
      TableStepIsByteStep(crc, data[current]);
      FeedNext(Not(lastCRC), data, current);
      crc := Xor(Drop8(crc), Lookup(TableIndex(crc, data[current])));
      current := current + 1;
    }
    assert data[..current] == data;
    result := Not(crc);
  }

  lemma FeedNothing(c: bv32)
    ensures Feed(c, []) == c
  {}

  lemma NotNot(x: bv32)
    ensures Not(Not(x)) == x
  {}

  /** Checksums continue: a buffer may be fed in pieces. */
  lemma ChecksumConcat(a: seq<Byte>, b: seq<Byte>, last: bv32)
    ensures Checksum(a + b, last) == Checksum(b, Checksum(a, last))
    ensures Checksum([], last) == last
  {
    hide Feed, Not;
    FeedConcat(Not(last), a, b);
    NotNot(Feed(Not(last), a));
    NotNot(last);
    FeedNothing(Not(last));
  }

  // ------------------------------------------------------------------ the check value

  lemma NextRegister(c: bv32, b: Byte, d: bv32)
    requires EightSteps(Xor(c, Word(b))) == d
    ensures ByteStep(c, b) == d
  {
    hide BitSteps, EightSteps;
    EightStepsAreBitSteps(Xor(c, Word(b)));
  }

  /** The register over the digits 1 to 9, the customary example. */
  lemma RegisterOfDigits()
    ensures ByteStep(0xFFFF_FFFF, 0x31) == 0x7C23_1048 && ByteStep(0x7C23_1048, 0x32) == 0xB0AC_BB32
    ensures ByteStep(0xB0AC_BB32, 0x33) == 0x77B7_9C2D && ByteStep(0x77B7_9C2D, 0x34) == 0x641C_1F5C
    ensures ByteStep(0x641C_1F5C, 0x35) == 0x340A_C5E3 && ByteStep(0x340A_C5E3, 0x36) == 0xF68D_2C9E
    ensures ByteStep(0xF68D_2C9E, 0x37) == 0xAFFC_9660 && ByteStep(0xAFFC_9660, 0x38) == 0x651F_2550
    ensures ByteStep(0x651F_2550, 0x39) == 0x340B_C6D9
  {
    hide BitSteps;
    NextRegister(0xFFFF_FFFF, 0x31, 0x7C23_1048);
    NextRegister(0x7C23_1048, 0x32, 0xB0AC_BB32);
    NextRegister(0xB0AC_BB32, 0x33, 0x77B7_9C2D);
    NextRegister(0x77B7_9C2D, 0x34, 0x641C_1F5C);
    NextRegister(0x641C_1F5C, 0x35, 0x340A_C5E3);
    NextRegister(0x340A_C5E3, 0x36, 0xF68D_2C9E);
    NextRegister(0xF68D_2C9E, 0x37, 0xAFFC_9660);
    NextRegister(0xAFFC_9660, 0x38, 0x651F_2550);
    NextRegister(0x651F_2550, 0x39, 0x340B_C6D9);
  }

  /** The checksum of the digits is the check value published for this CRC: the register starts with all bits set, and
      its complement is the result. */
  lemma CheckValue()
    ensures Checksum([0x31, 0x32, 0x33, 0x34, 0x35, 0x36, 0x37, 0x38, 0x39], 0) == 0xCBF4_3926
  {
    hide ByteStep, Feed, Not;
    var data: seq<Byte> := [0x31, 0x32, 0x33, 0x34, 0x35, 0x36, 0x37, 0x38, 0x39];
    RegisterOfDigits();
    FeedNothing(0xFFFF_FFFF);
    assert data[..0] == [] && data[..9] == data;
    FeedNext(0xFFFF_FFFF, data, 0);
    FeedNext(0xFFFF_FFFF, data, 1);
    FeedNext(0xFFFF_FFFF, data, 2);
    FeedNext(0xFFFF_FFFF, data, 3);
    FeedNext(0xFFFF_FFFF, data, 4);
    FeedNext(0xFFFF_FFFF, data, 5);
    FeedNext(0xFFFF_FFFF, data, 6);
    FeedNext(0xFFFF_FFFF, data, 7);
    FeedNext(0xFFFF_FFFF, data, 8);
    Complements();
  }

  lemma Complements()
    ensures Not(0) == 0xFFFF_FFFF && Not(0x340B_C6D9) == 0xCBF4_3926
  {}

  // ------------------------------------------------------------------ error detection

  /** Up to four bytes as one register image, first byte lowest. */
  function Pack(x: seq<Byte>): bv32
    decreases |x|
  {
    if x == [] then 0 else Xor(Raise8(Pack(x[1..])), Word(x[0]))
  }

  lemma PackGrows(w: bv32, b: Byte)
    ensures w == 0 ==> Xor(Raise8(w), Word(b)) < 0x100
    ensures w < 0x100 ==> Xor(Raise8(w), Word(b)) < 0x1_0000
    ensures w < 0x1_0000 ==> Xor(Raise8(w), Word(b)) < 0x100_0000
  {}

  lemma {:induction false} PackOfThreeIsSmall(x: seq<Byte>)
    requires |x| <= 3
    ensures Pack(x) < 0x100_0000
    ensures |x| <= 2 ==> Pack(x) < 0x1_0000
    ensures |x| <= 1 ==> Pack(x) < 0x100
    ensures |x| == 0 ==> Pack(x) == 0
    decreases |x|
  {
    hide Xor, Raise8, Word;
    if x != [] {
      PackOfThreeIsSmall(x[1..]);
      PackGrows(Pack(x[1..]), x[0]);
    }
  }

  lemma RaisedLow(w: bv32)
    ensures Low8(Raise8(w)) == 0
  {}

  lemma RaisedDrop(w: bv32)
    requires w < 0x100_0000
    ensures Drop8(Raise8(w)) == w
  {}

  lemma JoinedLow(w: bv32, b: Byte)
    ensures Low8(Xor(Raise8(w), Word(b))) == Word(b)
  {}

  lemma JoinedDrop(w: bv32, b: Byte)
    requires w < 0x100_0000
    ensures Drop8(Xor(Raise8(w), Word(b))) == w
  {}

  lemma WordIsInjective(a: Byte, b: Byte)
    requires Word(a) == Word(b)
    ensures a == b
  {}

  lemma {:induction false} PackIsInjective(x: seq<Byte>, y: seq<Byte>)
    requires |x| == |y| <= 4 && Pack(x) == Pack(y)
    ensures x == y
    decreases |x|
  {
    hide Xor, Raise8, Drop8, Low8, Word;
    if x != [] {
      PackOfThreeIsSmall(x[1..]);
      PackOfThreeIsSmall(y[1..]);
      JoinedLow(Pack(x[1..]), x[0]);
      JoinedLow(Pack(y[1..]), y[0]);
      JoinedDrop(Pack(x[1..]), x[0]);
      JoinedDrop(Pack(y[1..]), y[0]);
      WordIsInjective(x[0], y[0]);
      PackIsInjective(x[1..], y[1..]);
      assert x == [x[0]] + x[1..] && y == [y[0]] + y[1..];
    }
  }

  lemma XorLaws(c: bv32, w: bv32, b: bv32)
    ensures Xor(c, Xor(w, b)) == Xor(Xor(c, b), w)
    ensures Xor(c, 0) == c
  {}

  lemma XorCancels(c: bv32, x: bv32, y: bv32)
    ensures Xor(c, x) == Xor(c, y) ==> x == y
    ensures Xor(x, c) == Xor(y, c) ==> x == y
  {
    assert c ^ (c ^ x) == x && c ^ (c ^ y) == y;
    assert (x ^ c) ^ c == x && (y ^ c) ^ c == y;
  }

  /** Up to four bytes act on the register like one word: added at once, then shifted out. */
  lemma {:induction false} FeedIsOneWord(c: bv32, x: seq<Byte>)
    requires |x| <= 4
    ensures Feed(c, x) == BitSteps(Xor(c, Pack(x)), 8 * |x|)
    decreases |x|
  {
    hide Xor, Raise8, Drop8, Low8, Word, BitStep;
    if x == [] {
      XorLaws(c, 0, 0);
    } else {
      hide BitSteps;
      var rest, b := Pack(x[1..]), Word(x[0]);
      FeedIsOneWord(ByteStep(c, x[0]), x[1..]);
      PackOfThreeIsSmall(x[1..]);
      RaisedLow(rest);
      RaisedDrop(rest);
      ClearedLowByteShiftsOut(Raise8(rest));
      BitStepsAreLinear(Xor(c, b), Raise8(rest), 8);
      XorLaws(c, Raise8(rest), b);
      BitStepsCompose(Xor(c, Pack(x)), 8, 8 * |x[1..]|);
      assert 8 * |x| == 8 + 8 * |x[1..]|;
    }
  }

  lemma {:induction false} FeedIsInjectiveInRegister(c: bv32, d: bv32, data: seq<Byte>)
    requires Feed(c, data) == Feed(d, data)
    ensures c == d
    decreases |data|
  {
    hide Xor, Word, BitSteps;
    if data != [] {
      FeedIsInjectiveInRegister(ByteStep(c, data[0]), ByteStep(d, data[0]), data[1..]);
      BitStepsAreInjective(Xor(c, Word(data[0])), Xor(d, Word(data[0])), 8);
      XorCancels(Word(data[0]), c, d);
    }
  }

  /** Feeding buffers that share a prefix and a suffix: equal registers mean equal middles. */
  lemma BurstReachesTheEnd(c: bv32, p: seq<Byte>, u: seq<Byte>, v: seq<Byte>, q: seq<Byte>)
    requires |u| == |v| <= 4
    requires Feed(c, p + (u + q)) == Feed(c, p + (v + q))
    ensures u == v
  {
    hide Feed, BitSteps, Xor, Pack;
    var d := Feed(c, p);
    FeedConcat(c, p, u + q);
    FeedConcat(c, p, v + q);
    FeedConcat(d, u, q);
    FeedConcat(d, v, q);
    FeedIsInjectiveInRegister(Feed(d, u), Feed(d, v), q);
    FeedIsOneWord(d, u);
    FeedIsOneWord(d, v);
    BitStepsAreInjective(Xor(d, Pack(u)), Xor(d, Pack(v)), 8 * |u|);
    XorCancels(d, Pack(u), Pack(v));
    PackIsInjective(u, v);
  }

  /** Error detection: buffers that differ, but only within four consecutive bytes, never share a checksum. */
  lemma BurstIsDetected(x: seq<Byte>, y: seq<Byte>, from: nat, to: nat, last: bv32)
    requires |x| == |y| && from <= to <= |x| && to - from <= 4
    requires x[..from] == y[..from] && x[to..] == y[to..]
    ensures Checksum(x, last) == Checksum(y, last) <==> x == y
  {
    hide Feed, Not;
    if Checksum(x, last) == Checksum(y, last) {
      var u, v := x[from..to], y[from..to];
      assert x == x[..from] + (u + x[to..]) && y == x[..from] + (v + x[to..]);
      NotNot(Feed(Not(last), x));
      NotNot(Feed(Not(last), y));
      BurstReachesTheEnd(Not(last), x[..from], u, v, x[to..]);
    }
  }
}
