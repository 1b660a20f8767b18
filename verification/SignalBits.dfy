/**
 Signal sets as bytes, an int8_t being its bit pattern: the bit operations of
 Pintos/Added_Signals/signal.c are set algebra on all eight bits, the sign bit included.
 */
module SignalBits {
  import opened Basics
  import opened SignalSpec

  predicate InByte(bit: int) {
    0 <= bit < 8
  }

  function SetBit(n: Byte, bit: int): Byte {
    if bit < 0 || bit > 7 then n else n | ((1 as bv8) << bit)
  }

  function UnsetBit(n: Byte, bit: int): Byte {
    if bit < 0 || bit > 7 then n else n & !((1 as bv8) << bit)
  }

  function CheckBit(n: Byte, bit: int): bool {
    if bit < 0 || bit > 7 then false else n & ((1 as bv8) << bit) != 0
  }

  /** The set a byte stands for. */
  ghost function Bits(n: Byte): set<int> {
    set b | 0 <= b < 8 && CheckBit(n, b)
  }

  // ----- single bits -----

  lemma SetBitOne(n: Byte, bit: int, b: int)
    requires InByte(bit) && InByte(b)
    ensures CheckBit(SetBit(n, bit), b) <==> b == bit || CheckBit(n, b)
  {
  }

  lemma UnsetBitOne(n: Byte, bit: int, b: int)
    requires InByte(bit) && InByte(b)
    ensures CheckBit(UnsetBit(n, bit), b) <==> b != bit && CheckBit(n, b)
  {
  }

  // ----- bytes as sets -----

  /** setBit() is insertion; a bit number outside the byte changes nothing. */
  lemma SetBitInserts(n: Byte, bit: int)
    ensures Bits(SetBit(n, bit)) == if InByte(bit) then Bits(n) + {bit} else Bits(n)
  {
    if InByte(bit) {
      forall b ensures b in Bits(SetBit(n, bit)) <==> b in Bits(n) + {bit} {
        if InByte(b) {
          SetBitOne(n, bit, b);
        }
      }
    }
  }

  /** unsetBit() is removal. */
  lemma UnsetBitRemoves(n: Byte, bit: int)
    ensures Bits(UnsetBit(n, bit)) == if InByte(bit) then Bits(n) - {bit} else Bits(n)
  {
    if InByte(bit) {
      forall b ensures b in Bits(UnsetBit(n, bit)) <==> b in Bits(n) - {bit} {
        if InByte(b) {
          UnsetBitOne(n, bit, b);
        }
      }
    }
  }

  /** checkBit() is membership. */
  lemma CheckBitIsMember(n: Byte, bit: int)
    ensures CheckBit(n, bit) <==> bit in Bits(n)
  {
  }

  lemma OrIsUnion(m: Byte, n: Byte)
    ensures Bits(m | n) == Bits(m) + Bits(n)
  {
    forall b | 0 <= b < 8 ensures CheckBit(m | n, b) <==> CheckBit(m, b) || CheckBit(n, b) {
    }
  }

  lemma AndIsIntersection(m: Byte, n: Byte)
    ensures Bits(m & n) == Bits(m) * Bits(n)
  {
    forall b | 0 <= b < 8 ensures CheckBit(m & n, b) <==> CheckBit(m, b) && CheckBit(n, b) {
    }
  }

  lemma AndNotIsDifference(m: Byte, n: Byte)
    ensures Bits(m & !n) == Bits(m) - Bits(n)
  {
    forall b | 0 <= b < 8 ensures CheckBit(m & !n, b) <==> CheckBit(m, b) && !CheckBit(n, b) {
    }
  }

  lemma EmptyAndFull()
    ensures Bits(0) == {} && Bits(!0) == ALL_BITS
  {
    forall b | 0 <= b < 8 ensures CheckBit(!0, b) && !CheckBit(0, b) {
    }
  }

  lemma EightBits(m: Byte, n: Byte)
    requires m & 1 == n & 1 && m & 2 == n & 2 && m & 4 == n & 4 && m & 8 == n & 8
    requires m & 16 == n & 16 && m & 32 == n & 32 && m & 64 == n & 64 && m & 128 == n & 128
    ensures m == n
  {
  }

  lemma SameBit(m: Byte, n: Byte, b: int)
    requires InByte(b) && Bits(m) == Bits(n)
    ensures m & ((1 as bv8) << b) == n & ((1 as bv8) << b)
  {
    assert b in Bits(m) <==> b in Bits(n);
  }

  /** A byte is determined by its set, so nothing is lost in reading bytes as sets. */
  lemma BitsInjective(m: Byte, n: Byte)
    requires Bits(m) == Bits(n)
    ensures m == n
  {
    SameBit(m, n, 0);
    SameBit(m, n, 1);
    SameBit(m, n, 2);
    SameBit(m, n, 3);
    SameBit(m, n, 4);
    SameBit(m, n, 5);
    SameBit(m, n, 6);
    SameBit(m, n, 7);
    EightBits(m, n);
  }
}
