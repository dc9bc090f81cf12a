/** The 32-bit word that heads every write instruction. It is the only memory
    that the JavaScript producer and the native writers synchronise on. The word
    is modelled as a record of its independent fields; `BitsReadBack` and `OrIsBitwise`
    show that the record is an exact picture of the 32-bit value. */
module FlagWord {

  /** What an instruction is, as far as hand-off and status bits are concerned.
      BlockEnd and Jump carry no status and own no pending promise. */
  datatype Kind = Operation | Callback | StartBlock | BlockEnd | Jump

  datatype Op = NoInstruction | Published(kind: Kind)

  datatype Word = Word(
    op: Op,
    waiting: bool,
    delimiter: bool,
    finished: bool,
    failedCondition: bool,
    committed: bool,
    hadError: bool)

  const EMPTY := Word(NoInstruction, false, false, false, false, false, false)
  const WAITING_WORD := EMPTY.(waiting := true)
  const DELIMITER_WORD := EMPTY.(delimiter := true)

  predicate HasStatus(k: Kind) {
    k.Operation? || k.Callback? || k.StartBlock?
  }

  /** The effect of a block instruction on the nesting depth. */
  function Delta(k: Kind): int {
    match k
    case StartBlock => 1
    case BlockEnd => -1
    case _ => 0
  }

  /** Bitwise or of a word with status bits (or with an instruction into an empty word). */
  function Or(a: Word, b: Word): Word {
    Word(if a.op.Published? then a.op else b.op,
         a.waiting || b.waiting,
         a.delimiter || b.delimiter,
         a.finished || b.finished,
         a.failedCondition || b.failedCondition,
         a.committed || b.committed,
         a.hadError || b.hadError)
  }

  function Status(failed: bool): Word {
    EMPTY.(finished := true, failedCondition := failed)
  }

  /** No bit of `a` that matters after publication is missing from `b`. */
  predicate Keeps(a: Word, b: Word) {
    && (a.op.Published? ==> b.op == a.op)
    && (a.delimiter ==> b.delimiter)
    && (a.finished ==> b.finished)
    && (a.failedCondition ==> b.failedCondition)
    && (a.committed ==> b.committed)
    && (a.hadError ==> b.hadError)
  }

  const FINISHED_OPERATION: bv32 := 0x1000000
  const WAITING_OPERATION: bv32 := 0x2000000
  const FAILED_CONDITION: bv32 := 0x4000000
  const TXN_DELIMITER: bv32 := 0x8000000
  const TXN_COMMITTED: bv32 := 0x10000000
  const TXN_HAD_ERROR: bv32 := 0x40000000
  const STATUS_MASK: bv32 := 0x5f000000

  function Bit(b: bool, mask: bv32): bv32 {
    if b then mask else 0
  }

  /** The machine word for a record whose instruction flags are `flags` (0 when none). */
  function ToBits(w: Word, flags: bv32): bv32 {
    flags | Bit(w.waiting, WAITING_OPERATION) | Bit(w.delimiter, TXN_DELIMITER)
    | Bit(w.finished, FINISHED_OPERATION) | Bit(w.failedCondition, FAILED_CONDITION)
    | Bit(w.committed, TXN_COMMITTED) | Bit(w.hadError, TXN_HAD_ERROR)
  }

  lemma OrBit(a: bool, b: bool, mask: bv32)
    ensures Bit(a, mask) | Bit(b, mask) == Bit(a || b, mask)
  {
    if a && b {
      assert mask | mask == mask;
    } else {
      assert mask | 0 == mask && 0 | mask == mask;
    }
  }

  /** One field of two or-ed words. */
  lemma OrInterleave(x: bv32, x1: bv32, x2: bv32, x3: bv32, x4: bv32, x5: bv32, x6: bv32,
                     y: bv32, y1: bv32, y2: bv32, y3: bv32, y4: bv32, y5: bv32, y6: bv32)
    ensures (x | x1 | x2 | x3 | x4 | x5 | x6) | (y | y1 | y2 | y3 | y4 | y5 | y6)
            == (x | y) | (x1 | y1) | (x2 | y2) | (x3 | y3) | (x4 | y4) | (x5 | y5) | (x6 | y6)
  {
  }

  lemma OrBits(a: Word, b: Word)
    ensures Bit(a.waiting, WAITING_OPERATION) | Bit(b.waiting, WAITING_OPERATION)
            == Bit(a.waiting || b.waiting, WAITING_OPERATION)
    ensures Bit(a.delimiter, TXN_DELIMITER) | Bit(b.delimiter, TXN_DELIMITER)
            == Bit(a.delimiter || b.delimiter, TXN_DELIMITER)
    ensures Bit(a.finished, FINISHED_OPERATION) | Bit(b.finished, FINISHED_OPERATION)
            == Bit(a.finished || b.finished, FINISHED_OPERATION)
    ensures Bit(a.failedCondition, FAILED_CONDITION) | Bit(b.failedCondition, FAILED_CONDITION)
            == Bit(a.failedCondition || b.failedCondition, FAILED_CONDITION)
    ensures Bit(a.committed, TXN_COMMITTED) | Bit(b.committed, TXN_COMMITTED)
            == Bit(a.committed || b.committed, TXN_COMMITTED)
    ensures Bit(a.hadError, TXN_HAD_ERROR) | Bit(b.hadError, TXN_HAD_ERROR)
            == Bit(a.hadError || b.hadError, TXN_HAD_ERROR)
  {
    hide Bit;
    OrBit(a.waiting, b.waiting, WAITING_OPERATION);
    OrBit(a.delimiter, b.delimiter, TXN_DELIMITER);
    OrBit(a.finished, b.finished, FINISHED_OPERATION);
    OrBit(a.failedCondition, b.failedCondition, FAILED_CONDITION);
    OrBit(a.committed, b.committed, TXN_COMMITTED);
    OrBit(a.hadError, b.hadError, TXN_HAD_ERROR);
  }

  /** What the low four bits of an instruction say, as the `switch` of the native loop reads them. */
  function OpOf(low: bv32): Op {
    if low == 0 then NoInstruction
    else if low == 2 then Published(BlockEnd)
    else if low == 3 then Published(Jump)
    else if low == 1 || low == 4 then Published(StartBlock)
    else if low == 8 then Published(Callback)
    else Published(Operation)
  }

  /** The instruction bits of a word whose record is `w`: they keep clear of the status bits, and their
      low four bits name the record's instruction. */
  predicate Pictures(w: Word, flags: bv32) {
    flags & STATUS_MASK == 0 && w.op == OpOf(flags & 0xf)
  }

  /** Or-ing words is or-ing their records field by field; when at most one of them carries an
      instruction, the result pictures it. */
  lemma OrIsBitwise(a: Word, b: Word, fa: bv32, fb: bv32)
    ensures ToBits(a, fa) | ToBits(b, fb) == ToBits(Or(a, b), fa | fb)
    ensures Pictures(a, fa) && Pictures(b, fb) && (a.op.NoInstruction? || b.op.NoInstruction?) ==>
              Pictures(Or(a, b), fa | fb)
  {
    OrFields(a, b, fa, fb);
    OrPictures(a, b, fa, fb);
  }

  lemma OrPictures(a: Word, b: Word, fa: bv32, fb: bv32)
    ensures Pictures(a, fa) && Pictures(b, fb) && (a.op.NoInstruction? || b.op.NoInstruction?) ==>
              Pictures(Or(a, b), fa | fb)
  {
    assert (fa | fb) & STATUS_MASK == (fa & STATUS_MASK) | (fb & STATUS_MASK);
    assert (fa | fb) & 0xf == (fa & 0xf) | (fb & 0xf);
  }

  lemma OrFields(a: Word, b: Word, fa: bv32, fb: bv32)
    ensures ToBits(a, fa) | ToBits(b, fb) == ToBits(Or(a, b), fa | fb)
  {
    OrInterleave(
      fa, Bit(a.waiting, WAITING_OPERATION), Bit(a.delimiter, TXN_DELIMITER),
      Bit(a.finished, FINISHED_OPERATION), Bit(a.failedCondition, FAILED_CONDITION),
      Bit(a.committed, TXN_COMMITTED), Bit(a.hadError, TXN_HAD_ERROR),
      fb, Bit(b.waiting, WAITING_OPERATION), Bit(b.delimiter, TXN_DELIMITER),
      Bit(b.finished, FINISHED_OPERATION), Bit(b.failedCondition, FAILED_CONDITION),
      Bit(b.committed, TXN_COMMITTED), Bit(b.hadError, TXN_HAD_ERROR));
    OrBits(a, b);
  }

  /** The tests the code makes on the 32-bit value read exactly the record's fields. */
  lemma BitsReadBack(a: Word, flags: bv32)
    requires Pictures(a, flags)
    ensures OpOf(ToBits(a, flags) & 0xf) == a.op
    ensures (ToBits(a, flags) & 0xf != 0) == a.op.Published?
    ensures (ToBits(a, flags) & WAITING_OPERATION != 0) == a.waiting
    ensures (ToBits(a, flags) & TXN_DELIMITER != 0) == a.delimiter
    ensures (ToBits(a, flags) & FINISHED_OPERATION != 0) == a.finished
    ensures (ToBits(a, flags) & FAILED_CONDITION != 0) == a.failedCondition
    ensures (ToBits(a, flags) & TXN_COMMITTED != 0) == a.committed
    ensures (ToBits(a, flags) & TXN_HAD_ERROR != 0) == a.hadError
  {
    LowBits(a, flags);
  }

  lemma LowBits(a: Word, flags: bv32)
    ensures ToBits(a, flags) & 0xf == flags & 0xf
  {
  }
}
