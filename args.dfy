/** The work-argument storage declared in worker_thread.h: two opaque pointer
    slots and two 64-bit words. The words are a C++ union of an
    `unsigned long long[2]` and a `long long[2]` view, so one 64-bit word per
    slot is stored and the two views are two readings of it. */
module Args {

  /** Exactly two slots of each kind. */
  const SLOTS: nat := 2

  /** An opaque `void*`: only the null sentinel is distinguished. */
  datatype Pointer = Null | Address(id: nat)

  const TWO_64: int := 0x1_0000_0000_0000_0000
  const TWO_63: int := 0x8000_0000_0000_0000

  /** `unsigned long long`. */
  type UInt64 = x: int | 0 <= x < 0x1_0000_0000_0000_0000

  /** `long long`. */
  type Int64 = x: int | -0x8000_0000_0000_0000 <= x < 0x8000_0000_0000_0000

  /** The accessors accept exactly the indices 0 and 1. */
  predicate InRange(i: int) {
    0 <= i < SLOTS as int
  }

  /** One 64-bit storage word, held as the number its bit pattern denotes
      unsigned; this is also what the unsigned view reads. */
  type Word = UInt64

  /** The signed view of a storage word: two's complement. */
  function AsSigned(w: Word): (x: Int64)
    ensures x >= 0 <==> w < TWO_63
    ensures x == w || x == w - TWO_64
  {
    if w < TWO_63 then w else w - TWO_64
  }

  /** The word written through the signed view. */
  function FromSigned(x: Int64): (w: Word)
    ensures AsSigned(w) == x
  {
    if x >= 0 then x else x + TWO_64
  }

  /** A setter: an index outside {0, 1} leaves the slots as they were. */
  function Store<T>(s: seq<T>, i: int, v: T): (r: seq<T>)
    requires |s| == SLOTS
    ensures |r| == SLOTS
    ensures InRange(i) ==> r[i] == v && r[1 - i] == s[1 - i]
    ensures !InRange(i) ==> r == s
  {
    if InRange(i) then s[i := v] else s
  }

  /** A getter: an index outside {0, 1} reads the sentinel. */
  function Load<T>(s: seq<T>, i: int, sentinel: T): (r: T)
    requires |s| == SLOTS
    ensures InRange(i) ==> r == s[i]
    ensures !InRange(i) ==> r == sentinel
  {
    if InRange(i) then s[i] else sentinel
  }

  /** The signed view determines the word: writing back what was read
      through it restores the word. */
  lemma SignedViewIsInjective(w: Word)
    ensures FromSigned(AsSigned(w)) == w
  {
  }

  /** Writing slot i through the signed view and reading it through the
      unsigned view gives the two's-complement reinterpretation. */
  lemma SignedWriteUnsignedRead(s: seq<Word>, i: int, x: Int64)
    requires |s| == SLOTS && InRange(i)
    ensures Load(Store(s, i, FromSigned(x)), i, 0) == if x >= 0 then x else x + TWO_64
  {
  }

  /** And the reverse: an unsigned write read back through the signed view. */
  lemma UnsignedWriteSignedRead(s: seq<Word>, i: int, u: UInt64)
    requires |s| == SLOTS && InRange(i)
    ensures AsSigned(Load(Store(s, i, u), i, 0)) == if u < TWO_63 then u else u - TWO_64
  {
  }

  /** A set followed by a get at the same index returns the value; the other
      slot is untouched; out of range, the set changes nothing and the get
      returns the sentinel. */
  lemma StoreLoad<T>(s: seq<T>, i: int, j: int, v: T, sentinel: T)
    requires |s| == SLOTS
    ensures Load(Store(s, i, v), j, sentinel) ==
              if InRange(i) && i == j then v else Load(s, j, sentinel)
  {
  }
}
