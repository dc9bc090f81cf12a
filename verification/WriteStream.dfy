/** The encoder: the part of `writeInstructions` and `finishBatch` that lays instructions out in
    chained 64 KB buffers and keeps the list of pending resolutions in step with them. */
module WriteStream {
  import opened Options
  import opened MachineWords
  import opened InstructionCodec
  import opened InstructionChain

  const BUFFER_WORDS := 16384

  // ------------------------------------------------------ one instruction

  /** What the caller hands over for a value: where its bytes are, how many there are, and the byte
      that decides whether it must be compressed. */
  datatype Input = Input(address: nat, size: word, firstByte: byte)

  datatype Compression = Compression(address: nat, threshold: nat)

  /** The `ifVersion` argument: undefined, null, or a number. */
  datatype Condition = Unconditional | IfAbsent | IfVersion(bits: nat)

  datatype Request = Request(
    flags: Flags,
    dbi: word,
    key: seq<byte>,
    value: Option<Input>,
    compression: Option<Compression>,
    condition: Condition,
    version: Option<nat>)

  predicate ValidInput(v: Input, c: Option<Compression>) {
    v.address < ADDRESS_LIMIT && (CompressesInput(v, c) ==> v.address > 2)
  }

  predicate CompressesInput(v: Input, c: Option<Compression>) {
    c.Some? && (v.size >= c.value.threshold || v.firstByte >= 250)
  }

  /** What the callers of `writeInstructions` in the store pass. */
  predicate ValidRequest(r: Request) {
    && r.flags.op < 16 && r.flags.op != POINTER_NEXT && r.flags.op != NO_INSTRUCTION && r.flags.op != BLOCK_END
    && !r.flags.conditionalVersion && !r.flags.setVersion
    && (if r.flags.HasKey() then !r.flags.compressible else r.key == [])
    && (r.value.Some? <==> r.flags.HasKey() && r.flags.HasValue())
    && (r.value.Some? ==> ValidInput(r.value.value, r.compression))
    && (r.compression.Some? ==> r.compression.value.address < ADDRESS_LIMIT)
    && (r.condition.IfVersion? ==> r.condition.bits < DOUBLE_LIMIT)
    && (r.version.Some? ==> r.version.value < DOUBLE_LIMIT)
  }

  predicate Compresses(r: Request) { r.value.Some? && CompressesInput(r.value.value, r.compression) }

  /** The instruction a request stands for. */
  function Compiled(r: Request): (i: Instr)
    requires ValidRequest(r) && |r.key| < 0x1_0000_0000
    ensures ValidInstr(i) && i.flags.op == r.flags.op
  {
    if !r.flags.HasKey() then Instr(r.flags, 0, [], None, None, None)
    else
      var flags := r.flags.(
        compressible := Compresses(r),
        ifNoExists := r.flags.ifNoExists || r.condition.IfAbsent?,
        conditionalVersion := r.condition.IfVersion?,
        setVersion := r.version.Some?);
      var value := if r.value.None? then None else
        Some(Value(r.value.value.address, r.value.value.size,
                   if Compresses(r) then Some(r.compression.value.address) else None));
      Instr(flags, r.dbi, r.key, value,
            if r.condition.IfVersion? then Some(r.condition.bits) else None, r.version)
  }

  method WriteKey(m: Memory, a: nat, key: seq<byte>) returns (m': Memory)
    ensures KeyLaid(m', a, key) && Same(m, m', a, a + (|key| + 3) / 4)
  {
    m' := m;
    var j := 0;
    while j < (|key| + 3) / 4
      invariant 0 <= j <= (|key| + 3) / 4
      invariant Same(m, m', a, a + j)
      invariant forall k :: 0 <= k < j ==> Read(m', a + k) == PackedWord(key, k)
    {
      m' := SetWord(m', a + j, PackedWord(key, j));
      j := j + 1;
    }
  }

  method WriteHead(m: Memory, a: nat, dbi: word, key: seq<byte>) returns (m': Memory)
    requires |key| < 0x1_0000_0000
    ensures HeadLaid(m', a, dbi, key) && Same(m, m', a + 1, a + 2 * KeySlots(|key|) - 1)
  {
    m' := SetWord(m, a + 1, dbi);
    m' := WriteKey(m', a + 3, key);
    m' := SetWord(m', a + 2, |key|);
  }

  /** The value part: pointer, size, and the compression slot if `compressor` is given. */
  method WriteValue(m: Memory, base: nat, position: nat, v: Value) returns (m': Memory, next: nat)
    requires base + 2 * position > 0 && ValidValue(v)
    ensures ValueLaid(m', base + 2 * position, v)
    ensures next == position + if v.compressor.Some? then 2 else 1
    ensures Same(m, m', base + 2 * position - 1, base + 2 * next)
  {
    hide Join, DoubleBits, Read, SetWord, SetDouble;
    DoubleRoundTrip(v.address);
    m' := SetDouble(m, base + 2 * position, DoubleBits(v.address));
    next := position + 1;
    m' := SetWord(m', base + 2 * next - 3, v.size);
    if v.compressor.Some? {
      DoubleRoundTrip(v.compressor.value);
      m' := SetDouble(m', base + 2 * next, DoubleBits(v.compressor.value));
      next := next + 1;
    }
  }

  method WriteOptional(m: Memory, base: nat, position: nat, d: Option<nat>) returns (m': Memory, next: nat)
    requires d.Some? ==> d.value < DOUBLE_LIMIT
    ensures DoubleLaid(m', base + 2 * position, d)
    ensures next == position + if d.Some? then 1 else 0
    ensures Same(m, m', base + 2 * position, base + 2 * next)
  {
    m', next := m, position;
    if d.Some? {
      m' := SetDouble(m', base + 2 * position, d.value);
      next := position + 1;
    }
  }

  /** Lays out everything but the flag word and computes the flags to publish later. */
  method WriteBody(m: Memory, base: nat, position: nat, r: Request)
    returns (m': Memory, next: nat, flags: Flags)
    requires ValidRequest(r) && |r.key| < 0x1_0000_0000
    ensures flags == Compiled(r).flags
    ensures BodyLaid(m', base + 2 * position, Compiled(r))
    ensures base + 2 * next == EndAt(base + 2 * position, Compiled(r))
    ensures Same(m, m', base + 2 * position + 1, base + 2 * next)
  {
    hide HeadLaid, ValueLaid, DoubleLaid, BodyLaid, Same, KeySlots, Read;
    var a := base + 2 * position;
    ghost var i := Compiled(r);
    flags := r.flags;
    if !flags.HasKey() {
      m', next := WriteDbiOnly(m, base, position, r), position + 1;
      return;
    }
    var m1 := WriteHead(m, a, r.dbi, r.key);
    next := position + KeySlots(|r.key|);
    var m2 := m1;
    if r.value.Some? {
      var v := Value(r.value.value.address, r.value.value.size, None);
      if r.compression.Some?
         && (v.size >= r.compression.value.threshold || r.value.value.firstByte >= 250) {
        flags := flags.(compressible := true);
        v := v.(compressor := Some(r.compression.value.address));
      }
      assert v == i.value.value;
      m2, next := WriteValue(m1, base, next, v);
    }
    var ifVersion: Option<nat> := None;
    match r.condition {
      case Unconditional =>
      case IfAbsent => flags := flags.(ifNoExists := true);
      case IfVersion(bits) =>
        flags := flags.(conditionalVersion := true);
        ifVersion := Some(bits);
    }
    assert base + 2 * next == IfVersionAt(a, i);
    var m3;
    m3, next := WriteOptional(m2, base, next, ifVersion);
    if r.version.Some? {
      flags := flags.(setVersion := true);
    }
    m', next := WriteOptional(m3, base, next, r.version);
    PartsPreserved(m, m1, m2, m3, m', a, i);
  }

  function WriteDbiOnly(m: Memory, base: nat, position: nat, r: Request): (m': Memory)
    requires ValidRequest(r) && !r.flags.HasKey() && |r.key| < 0x1_0000_0000
    ensures BodyLaid(m', base + 2 * position, Compiled(r))
    ensures Same(m, m', base + 2 * position + 1, base + 2 * (position + 1))
  {
    SetWord(m, base + 2 * position + 1, r.dbi)
  }

  lemma PartsPreserved(m: Memory, m1: Memory, m2: Memory, m3: Memory, m4: Memory, a: nat, i: Instr)
    requires ValidInstr(i) && i.flags.HasKey()
    requires Same(m, m1, a + 1, ValueAt(a, i) - 1) && HeadLaid(m1, a, i.dbi, i.key)
    requires if i.value.Some? then Same(m1, m2, ValueAt(a, i) - 1, IfVersionAt(a, i)) else m1 == m2
    requires i.value.Some? ==> ValueLaid(m2, ValueAt(a, i), i.value.value)
    requires Same(m2, m3, IfVersionAt(a, i), VersionAt(a, i)) && DoubleLaid(m3, IfVersionAt(a, i), i.ifVersion)
    requires Same(m3, m4, VersionAt(a, i), EndAt(a, i)) && DoubleLaid(m4, VersionAt(a, i), i.version)
    ensures BodyLaid(m4, a, i) && Same(m, m4, a + 1, EndAt(a, i))
  {
  }

  // ------------------------------------------------------ the whole stream

  /** `newBufferThreshold`: past this slot the next instruction goes to a new buffer. */
  function Threshold(maxKeySize: nat): nat
    requires maxKeySize <= 65472
  {
    (65536 - maxKeySize - 64) / 8
  }

  function SlotCount(i: Instr): nat {
    if i.flags.HasKey() then
      KeySlots(|i.key|) + (if i.value.None? then 0 else if i.value.value.compressor.Some? then 2 else 1)
      + (if i.ifVersion.Some? then 1 else 0) + (if i.version.Some? then 1 else 0)
    else 1
  }

  /** An instruction starting at slot `p`, and the jump record if one follows, stay in the buffer. */
  predicate Fits(maxKeySize: nat, p: nat, i: Instr)
    requires maxKeySize <= 65472
  {
    p + SlotCount(i) <= if p + SlotCount(i) > Threshold(maxKeySize) then 8190 else 8191
  }

  lemma InstructionEndsInBuffer(maxKeySize: nat, p: nat, i: Instr)
    requires maxKeySize <= 65472 && p <= Threshold(maxKeySize)
    requires ValidInstr(i) && |i.key| <= maxKeySize
    ensures p + SlotCount(i) <= 8191
  {
    var q := maxKeySize / 8;
    assert (|i.key| + 28) / 8 <= (maxKeySize + 28) / 8;
  }

  predicate FourFields(i: Instr) {
    i.value.Some? && i.value.value.compressor.Some? && i.ifVersion.Some? && i.version.Some?
  }

  /** The jump record after an instruction always fits, unless all four trailing fields are present. */
  lemma JumpFitsAfterThreeFields(maxKeySize: nat, p: nat, i: Instr)
    requires maxKeySize <= 65472 && p <= Threshold(maxKeySize)
    requires ValidInstr(i) && |i.key| <= maxKeySize && !FourFields(i)
    ensures Fits(maxKeySize, p, i)
  {
    assert (|i.key| + 28) / 8 <= (maxKeySize + 28) / 8;
  }

  ghost predicate JumpAlwaysFits(maxKeySize: nat)
    requires maxKeySize <= 65472
  {
    forall p: nat, i :: p <= Threshold(maxKeySize) && ValidInstr(i) && |i.key| <= maxKeySize
      ==> Fits(maxKeySize, p, i)
  }

  /** With all four fields the jump record fits for every instruction exactly when the maximum key
      size is 1, 2 or 3 modulo 8. */
  lemma JumpFitsExactlyWhen(maxKeySize: nat)
    requires maxKeySize <= 65472
    ensures JumpAlwaysFits(maxKeySize) <==> maxKeySize % 8 in {1, 2, 3}
  {
    if maxKeySize % 8 in {1, 2, 3} {
      forall p: nat, i | p <= Threshold(maxKeySize) && ValidInstr(i) && |i.key| <= maxKeySize
        ensures Fits(maxKeySize, p, i)
      {
        assert (|i.key| + 28) / 8 <= (maxKeySize + 28) / 8;
      }
    } else {
      var flags := PLAIN.(op := 15, conditionalVersion := true, setVersion := true, compressible := true);
      var i := Instr(flags, 0, seq(maxKeySize, _ => 0), Some(Value(4096, 0, Some(4096))), Some(0), Some(0));
      assert ValidInstr(i);
      assert !Fits(maxKeySize, Threshold(maxKeySize), i);
    }
  }

  /** Ends of blocks are not checked against the threshold: the next instruction may start as many slots past
      it as there are ends just before. */
  ghost predicate JumpFitsAfter(maxKeySize: nat, ends: nat)
    requires maxKeySize <= 65472
  {
    forall p: nat, i :: p <= Threshold(maxKeySize) + ends && ValidInstr(i) && |i.key| <= maxKeySize && !FourFields(i)
      ==> Fits(maxKeySize, p, i)
  }

  /** With at most three trailing fields the jump record always fits after one end of block exactly for maximum
      key sizes of 1, 2 or 3 modulo 8, and after two or more ends for none. */
  lemma JumpFitsAfterEndsExactlyWhen(maxKeySize: nat, ends: nat)
    requires maxKeySize <= 65472
    ensures JumpFitsAfter(maxKeySize, ends) <==> ends == 0 || (ends == 1 && maxKeySize % 8 in {1, 2, 3})
  {
    if ends == 0 || (ends == 1 && maxKeySize % 8 in {1, 2, 3}) {
      forall p: nat, i | p <= Threshold(maxKeySize) + ends && ValidInstr(i) && |i.key| <= maxKeySize && !FourFields(i)
        ensures Fits(maxKeySize, p, i)
      {
        assert (|i.key| + 28) / 8 <= (maxKeySize + 28) / 8;
      }
    } else {
      var flags := PLAIN.(op := 15, setVersion := true, compressible := true);
      var i := Instr(flags, 0, seq(maxKeySize, _ => 0), Some(Value(4096, 0, Some(4096))), None, Some(0));
      assert ValidInstr(i) && !FourFields(i);
      assert !Fits(maxKeySize, Threshold(maxKeySize) + ends, i);
    }
  }

  lemma EndSlot(base: nat, p: nat, i: Instr)
    ensures EndAt(base + 2 * p, i) == base + 2 * (p + SlotCount(i))
  {
  }

  const END_BLOCK := Instr(PLAIN.(op := BLOCK_END), 0, [], None, None, None)

  /** The start addresses of the entries that carry a promise: all but the ends of blocks. */
  function Promised(log: seq<Entry>): seq<nat> {
    if log == [] then []
    else
      var rest := Promised(log[..|log| - 1]);
      if log[|log| - 1].instr == END_BLOCK then rest else rest + [log[|log| - 1].addr]
  }

  lemma PromisedAppend(log: seq<Entry>, e: Entry)
    ensures Promised(log + [e]) == if e.instr == END_BLOCK then Promised(log) else Promised(log) + [e.addr]
  {
    assert (log + [e])[..|log|] == log;
  }

  lemma {:induction false} PromisedUpdate(log: seq<Entry>, k: nat, e: Entry)
    requires k < |log| && e.addr == log[k].addr && e.instr == log[k].instr
    ensures Promised(log[k := e]) == Promised(log)
  {
    var n := |log| - 1;
    if k == n {
      assert log[k := e][..n] == log[..n];
    } else {
      assert log[k := e][..n] == log[..n][k := e];
      PromisedUpdate(log[..n], k, e);
    }
  }

  /** The rest of the current buffer: free of finished entries, and its next flag word unpublished. */
  ghost predicate RoomAhead(m: Memory, log: seq<Entry>, base: nat, position: nat) {
    && base % 2 == 0 && base + BUFFER_WORDS < 0x8_0000_0000_0000
    && position <= 8191
    && QuietAt(m, base + 2 * position)
    && (forall x :: base + 2 * position + 1 < x < base + BUFFER_WORDS ==> Read(m, x) == 0)
    && (forall k :: 0 <= k < |log| ==>
          ExtentEnd(log[k]) <= base + 2 * position || base + BUFFER_WORDS <= log[k].addr)
  }

  /** A new buffer: zero-filled, and apart from everything in use. */
  ghost predicate FreshBuffer(m: Memory, log: seq<Entry>, base: nat, newBase: nat) {
    && newBase % 2 == 0 && newBase + BUFFER_WORDS < 0x8_0000_0000_0000
    && (newBase + BUFFER_WORDS <= base || base + BUFFER_WORDS <= newBase)
    && (forall x :: newBase <= x < newBase + BUFFER_WORDS ==> Read(m, x) == 0)
    && (forall k :: 0 <= k < |log| ==>
          ExtentEnd(log[k]) <= newBase || newBase + BUFFER_WORDS <= log[k].addr)
  }

  lemma ChainPreserved(m: Memory, m': Memory, log: seq<Entry>, lo: nat, hi: nat)
    requires ChainLaid(m, log) && Same(m, m', lo, hi)
    requires forall k :: 0 <= k < |log| ==> ExtentEnd(log[k]) <= lo || hi <= log[k].addr
    ensures ChainLaid(m', log)
  {
    hide Laid, ExtentEnd, ValidEntry;
    forall k | 0 <= k < |log| ensures Laid(m', log[k]) {
      LaidPreserved(m, m', log[k]);
    }
  }

  method WriteJump(m: Memory, base: nat, last: nat, target: nat) returns (m': Memory)
    requires target < 0x8_0000_0000_0000
    ensures JumpLaid(m', base + 2 * last, target)
    ensures Same(m, m', base + 2 * last, base + 2 * last + 4)
  {
    hide DoubleBits, Join, Read, SetWord, SetDouble;
    DoubleRoundTrip(4 * target);
    m' := SetDouble(m, base + 2 * (last + 1), DoubleBits(4 * target));
    m' := SetWord(m', base + 2 * last, POINTER_WORD);
  }

  lemma InPlace(m: Memory, m': Memory, e: Entry)
    requires ValidEntry(e) && !e.published && QuietAt(m, e.addr) && e.status == Read(m, e.addr) / 0x100_0000
    requires Read(m', e.addr) == Read(m, e.addr) && BodyLaid(m', e.addr, e.instr)
    requires e.next != Stop(e) ==> JumpLaid(m', Stop(e), e.next)
    ensures Laid(m', e)
  {
    hide BodyLaid, JumpLaid, Read, ValidEntry, Stop;
  }

  /** Everything `writeInstructions` stores: the body and, past the threshold, the jump record. */
  method LayOut(m: Memory, maxKeySize: nat, base: nat, position: nat, r: Request, newBuffer: nat)
    returns (m': Memory, base': nat, position': nat, flags: Flags, ghost e: Entry)
    requires ValidRequest(r) && |r.key| <= maxKeySize <= 65472 && Fits(maxKeySize, position, Compiled(r))
    requires base % 2 == 0 && QuietAt(m, base + 2 * position)
    requires newBuffer < 0x8_0000_0000_0000 && base + BUFFER_WORDS < 0x8_0000_0000_0000
    requires newBuffer + BUFFER_WORDS <= base || base + BUFFER_WORDS <= newBuffer
    ensures flags == Compiled(r).flags
    ensures e == Entry(base + 2 * position, Compiled(r), base' + 2 * position', false,
                       Read(m, base + 2 * position) / 0x100_0000)
    ensures ValidEntry(e) && Laid(m', e) && Same(m, m', e.addr, ExtentEnd(e))
    ensures ExtentEnd(e) <= base + BUFFER_WORDS
    ensures (base', position') == (newBuffer, 0)
            || (base' == base && position < position' <= 8191 && ExtentEnd(e) == base + 2 * position')
    ensures position + SlotCount(Compiled(r)) <= Threshold(maxKeySize) ==>
              base' == base && position' == position + SlotCount(Compiled(r))
    ensures position + SlotCount(Compiled(r)) > Threshold(maxKeySize) ==> base' == newBuffer && position' == 0
  {
    hide BodyLaid, JumpLaid, Read, Same, Threshold, Laid;
    var a := base + 2 * position;
    var next;
    m', next, flags := WriteBody(m, base, position, r);
    e := Entry(a, Compiled(r), base + 2 * next, false, Read(m, a) / 0x100_0000);
    EndSlot(base, position, e.instr);
    ghost var body := m';
    base', position' := base, next;
    if next > Threshold(maxKeySize) {
      m' := WriteJump(m', base, next, newBuffer);
      e := e.(next := newBuffer);
      base', position' := newBuffer, 0;
      BodyPreservedBySame(body, m', a, e.instr, base + 2 * next, base + 2 * next + 4);
    }
    UntouchedBefore(m, body, m', a, base + 2 * next, ExtentEnd(e));
    InPlace(m, m', e);
  }

  lemma BodyPreservedBySame(m: Memory, m': Memory, a: nat, i: Instr, lo: nat, hi: nat)
    requires ValidInstr(i) && BodyLaid(m, a, i) && Same(m, m', lo, hi) && EndAt(a, i) <= lo
    ensures BodyLaid(m', a, i)
  {
    hide BodyLaid, Read;
    BodyPreserved(m, m', a, i);
  }

  lemma UntouchedBefore(m: Memory, m1: Memory, m2: Memory, a: nat, mid: nat, end: nat)
    requires a < mid <= end && Same(m, m1, a + 1, mid) && (m1 == m2 || Same(m1, m2, mid, end))
    ensures Read(m2, a) == Read(m, a) && Same(m, m2, a, end)
  {
    hide Read;
  }

  lemma AppendEntry(m: Memory, m': Memory, log: seq<Entry>, start: nat, base: nat, position: nat, e: Entry)
    requires ChainLaid(m, log) && AllApart(log) && Linked(log, start, e.addr)
    requires RoomAhead(m, log, base, position) && e.addr == base + 2 * position
    requires ValidEntry(e) && Laid(m', e) && ExtentEnd(e) <= base + BUFFER_WORDS
    requires Same(m, m', e.addr, ExtentEnd(e))
    ensures ChainLaid(m', log + [e]) && AllApart(log + [e]) && Linked(log + [e], start, e.next)
    ensures Promised(log + [e]) == if e.instr == END_BLOCK then Promised(log) else Promised(log) + [e.addr]
  {
    hide Laid, ValidEntry, Same, QuietAt, Linked, Promised, Read, ExtentEnd;
    ChainPreserved(m, m', log, e.addr, ExtentEnd(e));
    LinkedAppend(log, start, e);
    PromisedAppend(log, e);
  }

  lemma RoomInBuffer(m: Memory, m': Memory, log: seq<Entry>, base: nat, position: nat, e: Entry, next: nat)
    requires RoomAhead(m, log, base, position) && e.addr == base + 2 * position
    requires position < next <= 8191 && ExtentEnd(e) == base + 2 * next
    requires Same(m, m', e.addr, ExtentEnd(e))
    ensures RoomAhead(m', log + [e], base, next) && Read(m', base + 2 * next) == 0
  {
    hide ExtentEnd, Read;
  }

  lemma RoomInNewBuffer(m: Memory, m': Memory, log: seq<Entry>, base: nat, position: nat, e: Entry, newBuffer: nat)
    requires RoomAhead(m, log, base, position) && e.addr == base + 2 * position
    requires FreshBuffer(m, log, base, newBuffer)
    requires ExtentEnd(e) <= base + BUFFER_WORDS
    requires Same(m, m', e.addr, ExtentEnd(e))
    ensures RoomAhead(m', log + [e], newBuffer, 0) && Read(m', newBuffer) == 0
  {
    hide ExtentEnd, Read;
  }

  /** An instruction abandoned for its key leaves its database number behind, which harms nothing. */
  lemma ScribbledAhead(m: Memory, m': Memory, log: seq<Entry>, base: nat, position: nat)
    requires ChainLaid(m, log) && RoomAhead(m, log, base, position)
    requires Same(m, m', base + 2 * position + 1, base + 2 * position + 2)
    ensures ChainLaid(m', log) && RoomAhead(m', log, base, position)
    ensures Same(m, m', base + 2 * position, base + BUFFER_WORDS)
  {
    hide ChainLaid, ExtentEnd, Read;
    ChainPreserved(m, m', log, base + 2 * position + 1, base + 2 * position + 2);
  }

  lemma PublishedInPlace(m: Memory, m': Memory, e: Entry, e': Entry)
    requires ValidEntry(e) && Laid(m, e) && Same(m, m', e.addr, e.addr + 1)
    requires e' == e.(published := true, status := e'.status) && e'.status < 0x100
    requires Read(m', e.addr) == FlagBits(e.instr.flags) + e'.status * 0x100_0000
    ensures ValidEntry(e') && Laid(m', e')
  {
    hide Read, FlagBits;
    BodyPreserved(m, m', e.addr, e.instr);
  }

  lemma PublishPreserves(m: Memory, m': Memory, log: seq<Entry>, start: nat, base: nat, position: nat, k: nat, e: Entry)
    requires ChainLaid(m, log) && AllApart(log) && Linked(log, start, base + 2 * position)
    requires RoomAhead(m, log, base, position) && k < |log|
    requires e.addr == log[k].addr && e.instr == log[k].instr && e.next == log[k].next
    requires Same(m, m', e.addr, e.addr + 1) && ValidEntry(e) && Laid(m', e)
    ensures ChainLaid(m', log[k := e]) && AllApart(log[k := e]) && Linked(log[k := e], start, base + 2 * position)
    ensures RoomAhead(m', log[k := e], base, position) && Promised(log[k := e]) == Promised(log)
  {
    LinkedUpdate(log, start, base + 2 * position, k, e);
    PromisedUpdate(log, k, e);
    OthersPreserved(m, m', log, k, e);
    RoomStill(m, m', log, base, position, k, e);
  }

  lemma RoomStill(m: Memory, m': Memory, log: seq<Entry>, base: nat, position: nat, k: nat, e: Entry)
    requires RoomAhead(m, log, base, position) && k < |log|
    requires e.addr == log[k].addr && e.instr == log[k].instr && e.next == log[k].next
    requires Same(m, m', e.addr, e.addr + 1)
    ensures RoomAhead(m', log[k := e], base, position)
  {
    hide ExtentEnd, Read;
    ExtentAlike(e, log[k]);
  }

  /** What laying out an instruction needs of the buffers. */
  lemma RoomFacts(m: Memory, log: seq<Entry>, base: nat, position: nat, newBase: nat)
    requires RoomAhead(m, log, base, position) && FreshBuffer(m, log, base, newBase)
    ensures base % 2 == 0 && QuietAt(m, base + 2 * position) && position <= 8191 && base != newBase
    ensures newBase < 0x8_0000_0000_0000 && base + BUFFER_WORDS < 0x8_0000_0000_0000
    ensures newBase + BUFFER_WORDS <= base || base + BUFFER_WORDS <= newBase
  {
  }

  lemma NotAnEnd(r: Request)
    requires ValidRequest(r)
    ensures |r.key| < 0x1_0000_0000 ==> Compiled(r) != END_BLOCK
    ensures r.value.Some? ==> r.flags.HasKey()
  {
  }

  lemma SameSelf(m: Memory, lo: nat, hi: nat)
    ensures Same(m, m, lo, hi)
  {
  }

  lemma SameWidens(m: Memory, m': Memory, lo: nat, hi: nat, hi': nat)
    requires Same(m, m', lo, hi) && hi <= hi'
    ensures Same(m, m', lo, hi')
  {
  }

  lemma LaidAt(m: Memory, log: seq<Entry>, k: nat)
    requires ChainLaid(m, log) && k < |log|
    ensures ValidEntry(log[k]) && Laid(m, log[k])
  {
  }

  lemma EndInPlace(m: Memory, m1: Memory, m2: Memory, e: Entry, w: word)
    requires QuietAt(m, e.addr) && Read(m, e.addr) == w && Read(m, e.addr + 2) == 0
    requires e.instr == END_BLOCK && e.published && e.next == e.addr + 2 && e.addr % 2 == 0
    requires e.next < 0x8_0000_0000_0000 && (e.status == w / 0x100_0000 || e.status == 0)
    requires Same(m, m1, e.addr + 2, e.addr + 3) && Read(m1, e.addr + 2) == 0
    requires Same(m1, m2, e.addr, e.addr + 1) && Read(m2, e.addr) == 2 + e.status * 0x100_0000
    ensures ValidEntry(e) && Laid(m2, e) && ExtentEnd(e) == e.addr + 2 && Same(m, m2, e.addr, e.addr + 2)
  {
    hide Read, FlagBits;
    EndFlags();
    TwoWords(m, m1, m2, e.addr);
  }

  lemma EndFlags()
    ensures FlagBits(END_BLOCK.flags) == 2
  {
  }

  lemma TwoWords(m: Memory, m1: Memory, m2: Memory, a: nat)
    requires Read(m, a + 2) == 0 && Same(m, m1, a + 2, a + 3) && Read(m1, a + 2) == 0 && Same(m1, m2, a, a + 1)
    ensures Same(m, m2, a, a + 2)
  {
    hide Read;
  }

  datatype Outcome = Written(flags: Flags) | KeyTooLong | ValueTooLong

  class Encoder {
    const maxKeySize: nat
    var mem: Memory
    var base: nat                  // first word of the current buffer
    var position: nat              // next free slot in it
    var resolutions: seq<nat>      // word addresses of the flags the pending promises watch
    var nextResolution: nat
    const start: nat               // first word of the first buffer
    ghost var log: seq<Entry>

    function Here(): nat
      reads this
    {
      base + 2 * position
    }

    ghost predicate Valid()
      reads this
    {
      && maxKeySize <= 65472
      && ChainLaid(mem, log) && AllApart(log) && Linked(log, start, Here())
      && RoomAhead(mem, log, base, position)
      && resolutions == Promised(log) && nextResolution == Here()
    }

    /** The first word already reads as a delimiter of an earlier, committed and flushed transaction. */
    constructor (maxKeySize: nat, buffer: nat)
      requires maxKeySize <= 65472 && buffer % 2 == 0 && buffer + BUFFER_WORDS < 0x8_0000_0000_0000
      ensures Valid() && this.maxKeySize == maxKeySize
      ensures log == [] && base == buffer && position == 0
      ensures Read(mem, buffer) == 0x3800_0000
      ensures forall x :: x != buffer ==> Read(mem, x) == 0
    {
      this.maxKeySize := maxKeySize;
      mem := map[buffer := 0x3800_0000];
      base, position := buffer, 0;
      resolutions, nextResolution := [], buffer;
      start := buffer;
      log := [];
    }

    /** Lays out one instruction after the last, leaving its flag bits to be published later. */
    method WriteInstruction(r: Request, dupSort: bool, newBuffer: nat) returns (outcome: Outcome)
      requires Valid() && ValidRequest(r)
      requires |r.key| <= maxKeySize ==> Fits(maxKeySize, position, Compiled(r))
      requires FreshBuffer(mem, log, base, newBuffer)
      modifies this
      ensures Valid()
      ensures outcome == if dupSort && r.value.Some? && r.value.value.size > maxKeySize then ValueTooLong
                         else if |r.key| > maxKeySize then KeyTooLong
                         else Written(Compiled(r).flags)
      ensures !outcome.Written? ==> log == old(log) && Here() == old(Here()) && base == old(base)
      ensures outcome.Written? ==>
                log == old(log) + [Entry(old(Here()), Compiled(r), Here(), false, old(Read(mem, Here())) / 0x100_0000)]
      ensures outcome.Written? ==>
                ExtentEnd(log[|log| - 1]) <= old(base) + BUFFER_WORDS && (base == old(base) || base == newBuffer)
      ensures Same(old(mem), mem, old(Here()), old(base) + BUFFER_WORDS)
      ensures outcome.Written? && old(position) + SlotCount(Compiled(r)) <= Threshold(maxKeySize) ==>
                base == old(base) && position == old(position) + SlotCount(Compiled(r))
      ensures outcome.Written? && old(position) + SlotCount(Compiled(r)) > Threshold(maxKeySize) ==>
                base == newBuffer && position == 0
      ensures outcome.Written? ==> position <= Threshold(maxKeySize) && Read(mem, Here()) == 0
    {
      hide ChainLaid, AllApart, Linked, Laid, ValidEntry, ExtentEnd, Promised, Fits, Read, Same, RoomAhead, FreshBuffer,
           QuietAt, Compiled, ValidRequest, SlotCount, Threshold;
      RoomFacts(mem, log, base, position, newBuffer);
      NotAnEnd(r);
      if dupSort && r.value.Some? && r.value.value.size > maxKeySize {
        SameSelf(mem, Here(), base + BUFFER_WORDS);
        return ValueTooLong;
      }
      ghost var was, wasBase := mem, base;
      if |r.key| > maxKeySize {
        mem := SetWord(mem, Here() + 1, r.dbi);
        ScribbledAhead(was, mem, log, base, position);
        return KeyTooLong;
      }
      var m, base', position', flags;
      ghost var e;
      m, base', position', flags, e := LayOut(mem, maxKeySize, base, position, r, newBuffer);
      resolutions := resolutions + [nextResolution];
      AppendEntry(mem, m, log, start, base, position, e);
      if base' == base {
        RoomInBuffer(mem, m, log, base, position, e, position');
      } else {
        RoomInNewBuffer(mem, m, log, base, position, e, newBuffer);
      }
      SameWidens(was, m, e.addr, ExtentEnd(e), wasBase + BUFFER_WORDS);
      mem, base, position := m, base', position';
      nextResolution := Here();
      log := log + [e];
      return Written(flags);
    }

    /** Stores the flag bits of the instruction at `addr`: atomically or-ed in, or, inside a batch,
        plainly stored over whatever status the worker had put there. */
    method Publish(addr: nat, flags: Flags, atomic: bool, ghost k: nat) returns (writeStatus: word)
      requires Valid() && flags.op < 16
      requires k < |log| && log[k].addr == addr && !log[k].published && log[k].instr.flags == flags
      modifies `mem, `log
      ensures Valid()
      ensures writeStatus == old(log[k]).status * 0x100_0000
      ensures log == old(log)[k := old(log[k]).(published := true, status := if atomic then old(log[k]).status else 0)]
      ensures Same(old(mem), mem, addr, addr + 1)
    {
      hide ChainLaid, AllApart, Linked, RoomAhead, Promised, BodyLaid, JumpLaid, FlagBits, Read;
      ghost var was := mem;
      assert ValidEntry(log[k]) && Laid(mem, log[k]) by { LaidAt(mem, log, k); }
      FlagsRoundTrip(flags, 0);
      writeStatus := Read(mem, addr);
      mem := SetWord(mem, addr, if atomic then FlagBits(flags) + writeStatus else FlagBits(flags));
      ghost var e := log[k].(published := true, status := if atomic then log[k].status else 0);
      PublishedInPlace(was, mem, log[k], e);
      PublishPreserves(was, mem, log, start, base, position, k, e);
      log := log[k := e];
    }

    /** Ends a block: one published slot, no promise, no check against the threshold. */
    method FinishBatch(atomic: bool) returns (writeStatus: word)
      requires Valid() && position < 8191
      modifies this
      ensures Valid() && base == old(base) && position == old(position) + 1
      ensures writeStatus == old(Read(mem, Here()))
      ensures log == old(log) + [Entry(old(Here()), END_BLOCK, Here(), true,
                                       if atomic then writeStatus / 0x100_0000 else 0)]
      ensures resolutions == old(resolutions)
      ensures ExtentEnd(log[|log| - 1]) <= base + BUFFER_WORDS
      ensures Same(old(mem), mem, old(Here()), base + BUFFER_WORDS)
      ensures Read(mem, Here()) == 0
    {
      hide ChainLaid, AllApart, Linked, Promised, Read, Laid;
      ghost var was := mem;
      mem := SetWord(mem, base + 2 * (position + 1), 0);
      ghost var cleared := mem;
      writeStatus := Read(mem, base + 2 * position);
      mem := SetWord(mem, base + 2 * position, if atomic then 2 + writeStatus else 2);
      ghost var e := Entry(Here(), END_BLOCK, Here() + 2, true, if atomic then writeStatus / 0x100_0000 else 0);
      EndInPlace(was, cleared, mem, e, writeStatus);
      AppendEntry(was, mem, log, start, base, position, e);
      RoomInBuffer(was, mem, log, base, position, e, position + 1);
      position := position + 1;
      nextResolution := nextResolution + 2;
      log := log + [e];
    }
  }

  // -------------------------------------------------------------- theorems

  /** Whatever was written, in however many buffers: the parser, started at the first word, visits
      exactly the instructions written, in order, and comes to rest where the encoder stands. */
  lemma StreamReadsBack(s: Encoder)
    requires s.Valid() && AllPublished(s.log)
    ensures Parse(s.mem, s.start, |s.log|) == (Instrs(s.log), s.Here())
  {
    hide Promised;
    ParseInvertsWriting(s.mem, s.log, s.start, s.Here());
  }

  /** The instructions that carry a promise, in stream order. */
  function PromisedInstrs(log: seq<Entry>): seq<Instr> {
    if log == [] then []
    else
      var rest := PromisedInstrs(log[..|log| - 1]);
      if log[|log| - 1].instr == END_BLOCK then rest else rest + [log[|log| - 1].instr]
  }

  lemma {:induction false} PromisedEntry(log: seq<Entry>, i: nat) returns (k: nat)
    requires i < |Promised(log)|
    ensures |Promised(log)| == |PromisedInstrs(log)|
    ensures k < |log| && Promised(log)[i] == log[k].addr && PromisedInstrs(log)[i] == log[k].instr
  {
    PromisedAlike(log);
    var n := |log| - 1;
    if i < |Promised(log[..n])| {
      k := PromisedEntry(log[..n], i);
    } else {
      PromisedAlike(log[..n]);
      k := n;
    }
  }

  lemma {:induction false} PromisedAlike(log: seq<Entry>)
    ensures |Promised(log)| == |PromisedInstrs(log)|
  {
    if log != [] {
      PromisedAlike(log[..|log| - 1]);
    }
  }

  /** The i-th resolution watches the flag word of the i-th instruction that is not a block end. */
  lemma ResolutionsAddressInstructions(s: Encoder, i: nat)
    requires s.Valid() && AllPublished(s.log) && i < |s.resolutions|
    ensures |s.resolutions| == |PromisedInstrs(s.log)|
    ensures Decode(s.mem, s.resolutions[i]).instr == PromisedInstrs(s.log)[i]
  {
    hide Decode, Laid, ValidEntry, AllApart, Linked, RoomAhead;
    var k := PromisedEntry(s.log, i);
    DecodesEntry(s.mem, s.log[k]);
  }

  /** Inside a running transaction the same encoder fills one reusable buffer from slot 0, whatever
      it held before, and the parser reads that one instruction. */
  method WriteDirect(m: Memory, base: nat, r: Request) returns (m': Memory)
    requires base % 2 == 0 && ValidRequest(r) && |r.key| < 0x1_0000_0000
    ensures Decode(m', base).instr == Compiled(r) && FlagsLaid(m', base, Compiled(r), 0)
  {
    hide BodyLaid, Read, FlagBits, Decode;
    var next, flags;
    m', next, flags := WriteBody(m, base, 0, r);
    ghost var body := m';
    FlagsRoundTrip(flags, 0);
    m' := SetWord(m', base, FlagBits(flags));
    BodyPreserved(body, m', base, Compiled(r));
    RoundTrip(m', base, Compiled(r), 0);
  }
}
