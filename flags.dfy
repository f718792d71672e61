/** The lifecycle flags and the signal codes of the worker, as declared in
    worker_thread.h. The model keeps the flags as a set of `Flag` values;
    `Encode` gives the `unsigned int` bit word the source stores and `Decode`
    reads a word back. The lemmas show that the two are inverse on words with
    no bit outside the seven flags, and that the source's `fetch_or(bit)` and
    `fetch_and(~bit)` add or remove exactly one flag. */
module Flags {

  /** The `FlagBits` enumeration, in declaration order. */
  datatype Flag =
    | ThreadActive
    | TerminatePending
    | DetachOnTerminate
    | Idle
    | Busy
    | WorkPending
    | WorkRepeat

  const FLAG_COUNT: nat := 7

  const FLAG_THREAD_ACTIVE: bv32 := 1 << 0
  const FLAG_TERMINATE_PENDING: bv32 := 1 << 1
  const FLAG_DETACH_ON_TERMINATE: bv32 := 1 << 2
  const FLAG_IDLE: bv32 := 1 << 3
  const FLAG_BUSY: bv32 := 1 << 4
  const FLAG_WORK_PENDING: bv32 := 1 << 5
  const FLAG_WORK_REPEAT: bv32 := 1 << 6

  /** Every bit some flag occupies. */
  const FLAG_MASK: bv32 := 0x7F

  /** The C++ `int` the signal is stored in: any value can be sent. */
  newtype Int32 = x: int | -0x8000_0000 <= x < 0x8000_0000

  /** The two named signals. */
  const SIGNAL_NONE: Int32 := 0
  const SIGNAL_KILL: Int32 := 1

  /** The position of a flag's bit. */
  function Index(f: Flag): (k: nat)
    ensures k < FLAG_COUNT
  {
    match f
    case ThreadActive => 0
    case TerminatePending => 1
    case DetachOnTerminate => 2
    case Idle => 3
    case Busy => 4
    case WorkPending => 5
    case WorkRepeat => 6
  }

  /** The `FlagBits` value of a flag. */
  function Bit(f: Flag): (b: bv32)
    ensures b != 0 && b & !FLAG_MASK == 0
  {
    match f
    case ThreadActive => FLAG_THREAD_ACTIVE
    case TerminatePending => FLAG_TERMINATE_PENDING
    case DetachOnTerminate => FLAG_DETACH_ON_TERMINATE
    case Idle => FLAG_IDLE
    case Busy => FLAG_BUSY
    case WorkPending => FLAG_WORK_PENDING
    case WorkRepeat => FLAG_WORK_REPEAT
  }

  /** The same bit in the low byte of the word, where all seven flags live. */
  function LowBit(f: Flag): (b: bv8)
    ensures b as bv32 == Bit(f)
  {
    match f
    case ThreadActive => 0x01
    case TerminatePending => 0x02
    case DetachOnTerminate => 0x04
    case Idle => 0x08
    case Busy => 0x10
    case WorkPending => 0x20
    case WorkRepeat => 0x40
  }

  function LowBitIfIn(s: set<Flag>, f: Flag): bv8 {
    if f in s then LowBit(f) else 0
  }

  /** The low byte of the flags word. */
  function Pack(s: set<Flag>): bv8 {
    LowBitIfIn(s, ThreadActive) | LowBitIfIn(s, TerminatePending) | LowBitIfIn(s, DetachOnTerminate)
    | LowBitIfIn(s, Idle) | LowBitIfIn(s, Busy) | LowBitIfIn(s, WorkPending) | LowBitIfIn(s, WorkRepeat)
  }

  /** The `unsigned int` word the source keeps for a set of flags, and `getFlags` returns. */
  function Encode(s: set<Flag>): (w: bv32)
    ensures w & !FLAG_MASK == 0
  {
    Pack(s) as bv32
  }

  /** A flag is set in a word, tested as the source tests it: `w & FLAG != 0`. */
  predicate Has(w: bv32, f: Flag) {
    w & Bit(f) != 0
  }

  /** The flags a word holds. */
  function Decode(w: bv32): set<Flag> {
    set f: Flag | Has(w, f)
  }

  /** Each flag is the single bit `1 << Index(f)`, and no two flags share a bit. */
  lemma FlagsAreDistinctSingleBits(f: Flag, g: Flag)
    ensures Bit(f) == (1 as bv32) << Index(f)
    ensures f != g ==> Bit(f) & Bit(g) == 0
  {
  }

  lemma PackHas(s: set<Flag>, f: Flag)
    ensures Pack(s) & LowBit(f) != 0 <==> f in s
  {
  }

  /** Testing a flag's bit in the encoded word is membership, and the word has
      no bit outside the seven flags. */
  lemma EncodeHas(s: set<Flag>, f: Flag)
    ensures Has(Encode(s), f) <==> f in s
    ensures Encode(s) & !FLAG_MASK == 0
  {
    PackHas(s, f);
    assert Encode(s) & Bit(f) == (Pack(s) & LowBit(f)) as bv32;
  }

  /** Decoding the encoded word gives the flags back. */
  lemma DecodeEncode(s: set<Flag>)
    ensures Decode(Encode(s)) == s
  {
    forall f: Flag ensures f in Decode(Encode(s)) <==> f in s {
      EncodeHas(s, f);
    }
  }

  /** The zero word holds no flag. */
  lemma DecodeZero()
    ensures Decode(0) == {}
  {
    DecodeEncode({});
  }

  /** Two flag sets with the same word are the same set. */
  lemma EncodeInjective(s: set<Flag>, t: set<Flag>)
    requires Encode(s) == Encode(t)
    ensures s == t
  {
    DecodeEncode(s);
    DecodeEncode(t);
  }

  lemma AndOverOr(w: bv32, b: bv32, c: bv32)
    ensures (w | b) & c == (w & c) | (b & c)
  {
  }

  lemma AndNotSplit(w: bv32, b: bv32, c: bv32)
    ensures b & c == 0 ==> (w & !b) & c == w & c
    ensures b == c ==> (w & !b) & c == 0
  {
  }

  lemma AndNotKeepsZero(w: bv32, b: bv32, c: bv32)
    ensures w & c == 0 ==> (w & !b) & c == 0
  {
  }

  lemma HasOr(w: bv32, f: Flag, g: Flag)
    ensures Has(w | Bit(f), g) <==> Has(w, g) || g == f
  {
    AndOverOr(w, Bit(f), Bit(g));
    FlagsAreDistinctSingleBits(f, g);
  }

  lemma HasAndNot(w: bv32, f: Flag, g: Flag)
    ensures Has(w & !Bit(f), g) <==> Has(w, g) && g != f
  {
    AndNotSplit(w, Bit(f), Bit(g));
    FlagsAreDistinctSingleBits(f, g);
  }

  lemma OrMember(w: bv32, f: Flag, g: Flag)
    ensures g in Decode(w | Bit(f)) <==> g in Decode(w) || g == f
  {
    HasOr(w, f, g);
  }

  lemma AndNotMember(w: bv32, f: Flag, g: Flag)
    ensures g in Decode(w & !Bit(f)) <==> g in Decode(w) && g != f
  {
    HasAndNot(w, f, g);
  }

  lemma UnionByMembers(a: set<Flag>, b: set<Flag>, f: Flag)
    requires forall g :: g in a <==> g in b || g == f
    ensures a == b + {f}
  {
  }

  lemma DifferenceByMembers(a: set<Flag>, b: set<Flag>, f: Flag)
    requires forall g :: g in a <==> g in b && g != f
    ensures a == b - {f}
  {
  }

  /** `fetch_or(FLAG)` on the word adds exactly that flag: setting one flag
      never alters another. */
  lemma FetchOrAdds(w: bv32, f: Flag)
    ensures Decode(w | Bit(f)) == Decode(w) + {f}
    ensures w & !FLAG_MASK == 0 ==> (w | Bit(f)) & !FLAG_MASK == 0
  {
    AndOverOr(w, Bit(f), !FLAG_MASK);
    var a := Decode(w | Bit(f));
    var b := Decode(w);
    forall g: Flag ensures g in a <==> g in b || g == f {
      OrMember(w, f, g);
    }
    UnionByMembers(a, b, f);
  }

  /** `fetch_and(~FLAG)` on the word removes exactly that flag. */
  lemma FetchAndRemoves(w: bv32, f: Flag)
    ensures Decode(w & !Bit(f)) == Decode(w) - {f}
    ensures w & !FLAG_MASK == 0 ==> (w & !Bit(f)) & !FLAG_MASK == 0
  {
    AndNotKeepsZero(w, Bit(f), !FLAG_MASK);
    var a := Decode(w & !Bit(f));
    var b := Decode(w);
    forall g: Flag ensures g in a <==> g in b && g != f {
      AndNotMember(w, f, g);
    }
    DifferenceByMembers(a, b, f);
  }

  /** A word with no bit outside the flags equals its low byte. */
  lemma LowByte(w: bv32)
    requires w & !FLAG_MASK == 0
    ensures w == (w as bv8) as bv32
  {
  }

  /** A byte with the top bit clear is the OR of its seven low bits. */
  lemma ByteIsOrOfBits(x: bv8)
    requires x & 0x80 == 0
    ensures x == (if x & 0x01 != 0 then 0x01 else 0) | (if x & 0x02 != 0 then 0x02 else 0)
      | (if x & 0x04 != 0 then 0x04 else 0) | (if x & 0x08 != 0 then 0x08 else 0)
      | (if x & 0x10 != 0 then 0x10 else 0) | (if x & 0x20 != 0 then 0x20 else 0)
      | (if x & 0x40 != 0 then 0x40 else 0)
  {
  }

  lemma LowBitIfInDecode(w: bv32, f: Flag)
    requires w & !FLAG_MASK == 0
    ensures LowBitIfIn(Decode(w), f) == if (w as bv8) & LowBit(f) != 0 then LowBit(f) else 0
  {
    LowByte(w);
    assert w & Bit(f) == ((w as bv8) & LowBit(f)) as bv32;
  }

  /** A word with no bit outside the seven flags is the encoding of the flags
      it holds: `Decode` and `Encode` are inverse on such words. */
  lemma EncodeDecode(w: bv32)
    requires w & !FLAG_MASK == 0
    ensures Encode(Decode(w)) == w
  {
    LowByte(w);
    ByteIsOrOfBits(w as bv8);
    LowBitIfInDecode(w, ThreadActive);
    LowBitIfInDecode(w, TerminatePending);
    LowBitIfInDecode(w, DetachOnTerminate);
    LowBitIfInDecode(w, Idle);
    LowBitIfInDecode(w, Busy);
    LowBitIfInDecode(w, WorkPending);
    LowBitIfInDecode(w, WorkRepeat);
  }

  /** Adding a flag to a set is `fetch_or` of its bit on the set's word. */
  lemma EncodeAdd(s: set<Flag>, f: Flag)
    ensures Encode(s + {f}) == Encode(s) | Bit(f)
  {
    var w := Encode(s) | Bit(f);
    EncodeHas(s, f);
    FetchOrAdds(Encode(s), f);
    DecodeEncode(s);
    EncodeDecode(w);
  }

  /** Removing a flag from a set is `fetch_and(~bit)` on the set's word. */
  lemma EncodeRemove(s: set<Flag>, f: Flag)
    ensures Encode(s - {f}) == Encode(s) & !Bit(f)
  {
    var w := Encode(s) & !Bit(f);
    EncodeHas(s, f);
    FetchAndRemoves(Encode(s), f);
    DecodeEncode(s);
    EncodeDecode(w);
  }
}
