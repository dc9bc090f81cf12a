/** The layout of one write instruction in shared memory, and the parser that reads it back.
    Memory is word-addressed; a slot is two words. An instruction at word `a` starts with its
    flag word, the database number, the key size and the key bytes, then, slot-aligned, the
    optional value pointer, compression slot, conditional version and version. */
module InstructionCodec {
  import opened Options
  import opened MachineWords

  /** Shared memory; buffers are allocated zero-filled, so an absent word is zero. */
  type Memory = map<nat, word>

  function Read(m: Memory, a: nat): word { if a in m then m[a] else 0 }

  function Double(m: Memory, a: nat): nat { Join(Read(m, a), Read(m, a + 1)) }

  const DOUBLE_LIMIT := 0x1_0000_0000 * 0x1_0000_0000
  const ADDRESS_LIMIT := 0x20_0000_0000_0000

  datatype Value = Value(address: nat, size: word, compressor: Option<nat>)

  datatype Instr = Instr(
    flags: Flags,
    dbi: word,
    key: seq<byte>,
    value: Option<Value>,
    ifVersion: Option<nat>,   // the bits of a double
    version: Option<nat>)

  /** An address is exact as a double; one whose slot may be taken over by a compressed value lies
      above the first two bytes of memory, as every real one does. */
  predicate ValidValue(v: Value) {
    v.address < ADDRESS_LIMIT && (v.compressor.Some? ==> v.address > 2 && v.compressor.value < ADDRESS_LIMIT)
  }

  /** The instructions the encoder produces: the flag bits say exactly which fields follow. */
  predicate ValidInstr(i: Instr) {
    && i.flags.op < 16
    && |i.key| < 0x1_0000_0000
    && (i.value.Some? <==> i.flags.HasKey() && i.flags.HasValue())
    && (i.value.Some? ==> ValidValue(i.value.value) && (i.value.value.compressor.Some? <==> i.flags.compressible))
    && (i.ifVersion.Some? <==> i.flags.HasKey() && i.flags.conditionalVersion)
    && (i.version.Some? <==> i.flags.HasKey() && i.flags.setVersion)
    && (i.ifVersion.Some? ==> i.ifVersion.value < DOUBLE_LIMIT)
    && (i.version.Some? ==> i.version.value < DOUBLE_LIMIT)
    && (!i.flags.HasKey() ==> i.dbi == 0 && i.key == [])
  }

  // ---------------------------------------------------------------- layout

  /** Slots up to the first slot after the key: `(endPosition + 16) >> 3`, relative to the start. */
  function KeySlots(keySize: nat): (slots: nat)
    ensures 8 * slots >= keySize + 21
  {
    (keySize + 28) / 8
  }

  function ValueAt(a: nat, i: Instr): nat { a + 2 * KeySlots(|i.key|) }

  function IfVersionAt(a: nat, i: Instr): nat {
    ValueAt(a, i) + if i.value.None? then 0 else if i.value.value.compressor.Some? then 4 else 2
  }

  function VersionAt(a: nat, i: Instr): nat { IfVersionAt(a, i) + if i.ifVersion.Some? then 2 else 0 }

  function EndAt(a: nat, i: Instr): nat {
    if i.flags.HasKey() then VersionAt(a, i) + if i.version.Some? then 2 else 0 else a + 2
  }

  predicate KeyLaid(m: Memory, a: nat, key: seq<byte>) {
    forall j :: 0 <= j < (|key| + 3) / 4 ==> Read(m, a + j) == PackedWord(key, j)
  }

  predicate HeadLaid(m: Memory, a: nat, dbi: word, key: seq<byte>) {
    Read(m, a + 1) == dbi && Read(m, a + 2) == |key| && KeyLaid(m, a + 3, key)
  }

  /** The size sits in the word just before the pointer slot. */
  predicate ValueLaid(m: Memory, q: nat, v: Value)
    requires q > 0 && ValidValue(v)
  {
    && Read(m, q - 1) == v.size
    && Double(m, q) == DoubleBits(v.address)
    && (v.compressor.Some? ==> Double(m, q + 2) == DoubleBits(v.compressor.value))
  }

  predicate DoubleLaid(m: Memory, q: nat, d: Option<nat>) { d.Some? ==> Double(m, q) == d.value }

  /** Everything after the flag word. */
  predicate BodyLaid(m: Memory, a: nat, i: Instr)
    requires ValidInstr(i)
  {
    i.flags.HasKey() ==>
      && HeadLaid(m, a, i.dbi, i.key)
      && (i.value.Some? ==> ValueLaid(m, ValueAt(a, i), i.value.value))
      && DoubleLaid(m, IfVersionAt(a, i), i.ifVersion)
      && DoubleLaid(m, VersionAt(a, i), i.version)
  }

  predicate FlagsLaid(m: Memory, a: nat, i: Instr, status: nat)
    requires i.flags.op < 16
  {
    Read(m, a) == FlagBits(i.flags) + status * 0x100_0000
  }

  // --------------------------------------------------------------- writing

  function SetWord(m: Memory, a: nat, w: word): (m': Memory)
    ensures Same(m, m', a, a + 1) && Read(m', a) == w
  {
    m[a := w]
  }

  function SetDouble(m: Memory, a: nat, bits: nat): (m': Memory)
    requires bits < DOUBLE_LIMIT
    ensures Same(m, m', a, a + 2) && Double(m', a) == bits
  {
    JoinSplit(bits);
    m[a := Lo(bits)][a + 1 := Hi(bits)]
  }

  /** The two memories differ only in words from `lo` up to `hi`. */
  ghost predicate Same(m: Memory, m': Memory, lo: nat, hi: nat) {
    forall x: nat :: !(lo <= x < hi) ==> Read(m', x) == Read(m, x)
  }

  lemma BodyPreserved(m: Memory, m': Memory, a: nat, i: Instr)
    requires ValidInstr(i) && BodyLaid(m, a, i)
    requires forall x: nat :: a < x < EndAt(a, i) ==> Read(m', x) == Read(m, x)
    ensures BodyLaid(m', a, i)
  {
  }

  // --------------------------------------------------------------- parsing

  function DecodeKey(m: Memory, a: nat, size: nat): seq<byte> {
    seq(size, k requires 0 <= k < size => ByteOf(Read(m, a + k / 4), k % 4))
  }

  /** `(instruction + keySize + 16) & ~7`, in words. */
  function AfterKey(a: nat, size: nat): nat { (4 * (a + 3) + size + 16) / 8 * 2 }

  function DecodeValue(m: Memory, q: nat, compressible: bool): Value
    requires q > 0
  {
    Value(
      if compressible && Read(m, q + 1) <= 0x4000_0000 then Double(m, q) else DoubleToInt(Double(m, q)),
      Read(m, q - 1),
      if compressible then Some(DoubleToInt(Double(m, q + 2))) else None)
  }

  function ValueWidth(f: Flags): nat {
    if !f.HasValue() then 0 else if f.compressible then 4 else 2
  }

  function IfVersionWidth(f: Flags): nat { if f.conditionalVersion then 2 else 0 }

  function VersionWidth(f: Flags): nat { if f.setVersion then 2 else 0 }

  datatype Parsed = Parsed(instr: Instr, next: nat)

  /** One pass of the reading half of the `DoWrites` loop. */
  function Decode(m: Memory, a: nat): Parsed {
    var f := ParseFlags(Read(m, a));
    if !f.HasKey() then Parsed(Instr(f, 0, [], None, None, None), a + 2)
    else
      var q := AfterKey(a, Read(m, a + 2));
      var c := q + ValueWidth(f);
      var s := c + IfVersionWidth(f);
      Parsed(
        Instr(f, Read(m, a + 1), DecodeKey(m, a + 3, Read(m, a + 2)),
              if f.HasValue() then Some(DecodeValue(m, q, f.compressible)) else None,
              if f.conditionalVersion then Some(Double(m, c)) else None,
              if f.setVersion then Some(Double(m, s)) else None),
        s + VersionWidth(f))
  }

  // ------------------------------------------------------------ round trip

  lemma KeyReadsBack(m: Memory, a: nat, key: seq<byte>)
    requires KeyLaid(m, a, key)
    ensures DecodeKey(m, a, |key|) == key
  {
    forall k | 0 <= k < |key| ensures DecodeKey(m, a, |key|)[k] == key[k] {
      assert 4 * (k / 4) < |key|;
      PackedByte(key, k);
    }
  }

  lemma AlignedAlike(a: nat, size: nat)
    requires a % 2 == 0
    ensures AfterKey(a, size) == a + 2 * KeySlots(size)
  {
    var b := a / 2;
    assert 4 * (a + 3) + size + 16 == 8 * b + (size + 28);
  }

  lemma ValueReadsBack(m: Memory, q: nat, v: Value)
    requires q > 0 && ValidValue(v) && ValueLaid(m, q, v)
    ensures DecodeValue(m, q, v.compressor.Some?) == v
  {
    DoubleRoundTrip(v.address);
    HighWordTellsDouble(v.address, 0);
    JoinHigh(Read(m, q), Read(m, q + 1));
    if v.compressor.Some? {
      DoubleRoundTrip(v.compressor.value);
    }
  }

  lemma JoinHigh(lo: word, hi: word)
    ensures Join(lo, hi) / 0x1_0000_0000 == hi
  {
  }

  /** Decoding inverts encoding: every field comes back, whatever status or delimiter bits the
      worker has already or-ed into the flag word, and the parser ends where the encoder stopped. */
  lemma RoundTrip(m: Memory, a: nat, i: Instr, status: nat)
    requires a % 2 == 0 && ValidInstr(i) && status < 0x100
    requires FlagsLaid(m, a, i, status) && BodyLaid(m, a, i)
    ensures Decode(m, a) == Parsed(i, EndAt(a, i))
  {
    hide FlagBits, ParseFlags, DoubleBits, DoubleToInt, KeyLaid, AfterKey, KeySlots, DecodeKey, DecodeValue, Join;
    FlagsRoundTrip(i.flags, status);
    if i.flags.HasKey() {
      AlignedAlike(a, |i.key|);
      KeyReadsBack(m, a + 3, i.key);
      if i.value.Some? {
        ValueReadsBack(m, ValueAt(a, i), i.value.value);
      }
    }
  }

  /** Once the value is compressed, its slot holds a machine pointer and its size word the
      compressed size: the parser then returns exactly that pair, all else unchanged. */
  lemma CompressedReadsBack(m: Memory, m': Memory, a: nat, i: Instr, status: nat, pointer: nat, size: word)
    requires a % 2 == 0 && ValidInstr(i) && status < 0x100 && i.value.Some? && i.flags.compressible
    requires FlagsLaid(m, a, i, status) && BodyLaid(m, a, i)
    requires forall x: nat :: !(ValueAt(a, i) - 1 <= x < ValueAt(a, i) + 4) ==> Read(m', x) == Read(m, x)
    requires Double(m', ValueAt(a, i)) == pointer < 0x4000_0000_0000_0000
    requires Read(m', ValueAt(a, i) - 1) == size
    ensures Decode(m', a).next == EndAt(a, i)
    ensures var d := Decode(m', a).instr;
            d.value.Some? && d.value.value.address == pointer && d.value.value.size == size
            && d.(value := None) == i.(value := None)
  {
    hide FlagBits, ParseFlags, DoubleBits, DoubleToInt, KeyLaid, AfterKey, KeySlots, DecodeKey, DecodeValue, Join, Read;
    FlagsRoundTrip(i.flags, status);
    AlignedAlike(a, |i.key|);
    KeyPreserved(m, m', a, i);
    KeyReadsBack(m', a + 3, i.key);
    PointerReadsBack(m', ValueAt(a, i), pointer, size);
  }

  lemma KeyPreserved(m: Memory, m': Memory, a: nat, i: Instr)
    requires KeyLaid(m, a + 3, i.key)
    requires forall x: nat :: x < ValueAt(a, i) - 1 ==> Read(m', x) == Read(m, x)
    ensures KeyLaid(m', a + 3, i.key)
    ensures a + 3 <= ValueAt(a, i) - 1
  {
  }

  lemma PointerReadsBack(m: Memory, q: nat, pointer: nat, size: word)
    requires q > 0 && Double(m, q) == pointer < 0x4000_0000_0000_0000 && Read(m, q - 1) == size
    ensures DecodeValue(m, q, true).address == pointer && DecodeValue(m, q, true).size == size
  {
    JoinHigh(Read(m, q), Read(m, q + 1));
    HighWordTellsDouble(0, pointer);
  }

  // ------------------------------------------------- the chain of instructions

  const POINTER_WORD := 3

  /** A jump record: pointer instruction, its unused second word, and the byte address as a double. */
  predicate JumpLaid(m: Memory, a: nat, target: nat)
    requires target < 0x8_0000_0000_0000
  {
    Read(m, a) == POINTER_WORD && Double(m, a + 2) == DoubleBits(4 * target)
  }

  /** Where `DoWrites` goes from a pointer instruction. */
  function JumpTarget(m: Memory, a: nat): nat { DoubleToInt(Double(m, a + 2)) / 4 }

  lemma JumpRoundTrip(m: Memory, a: nat, target: nat)
    requires target < 0x8_0000_0000_0000 && JumpLaid(m, a, target)
    ensures Decode(m, a).instr.flags.op == POINTER_NEXT && JumpTarget(m, a) == target
  {
    hide DoubleBits, DoubleToInt, Join, Read;
    DoubleRoundTrip(4 * target);
  }
}
