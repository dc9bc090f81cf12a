/** The producer's side of a batch: the calls of `put`, `remove`, `ifVersion` and `batch` lay their
    instructions out, in the order and with the stores of the JavaScript code. */
module BatchProducer {
  import opened Options
  import opened InstructionCodec
  import opened InstructionChain
  import opened WriteStream
  import opened Interpreter
  import NativeWriter
  import opened ConditionalBatch

  /** Zero-filled buffers the allocator can still hand out, apart from each other and from all in use. */
  ghost predicate Supply(m: Memory, log: seq<Entry>, base: nat, buffers: seq<nat>) {
    && (forall b <- buffers :: FreshBuffer(m, log, base, b))
    && (forall j, k :: 0 <= j < k < |buffers| ==> Distant(buffers[j], buffers[k]))
  }

  predicate Distant(a: nat, b: nat) { a + BUFFER_WORDS <= b || b + BUFFER_WORDS <= a }

  /** The supply survives an instruction written in the current buffer. */
  lemma SupplyAfter(m: Memory, m': Memory, log: seq<Entry>, e: Entry, base: nat, lo: nat, base': nat, buffers: seq<nat>)
    requires Supply(m, log, base, buffers) && base <= lo && Same(m, m', lo, base + BUFFER_WORDS)
    requires base <= e.addr && ExtentEnd(e) <= base + BUFFER_WORDS
    requires base' == base || (buffers != [] && base' == buffers[0])
    ensures Supply(m', log + [e], base', if base' == base then buffers else buffers[1..])
  {
    hide Read, ExtentEnd;
    var rest := if base' == base then buffers else buffers[1..];
    forall b | b in rest ensures FreshBuffer(m', log + [e], base', b) {
      var k :| 0 <= k < |rest| && rest[k] == b;
      assert FreshBuffer(m, log, base, b);
      if base' != base {
        assert Distant(buffers[0], buffers[k + 1]);
      }
      assert forall j :: 0 <= j < |log| ==> (log + [e])[j] == log[j];
    }
    forall j, k | 0 <= j < k < |rest| ensures Distant(rest[j], rest[k]) {
      if base' != base {
        assert Distant(buffers[j + 1], buffers[k + 1]);
      }
    }
  }

  /** Publishing an instruction already laid out leaves the supply alone. */
  lemma SupplyPublished(m: Memory, m': Memory, log: seq<Entry>, base: nat, buffers: seq<nat>, k: nat, e: Entry)
    requires Supply(m, log, base, buffers) && k < |log| && Same(m, m', log[k].addr, log[k].addr + 1)
    requires e.addr == log[k].addr && e.instr == log[k].instr && e.next == log[k].next
    ensures Supply(m', log[k := e], base, buffers)
  {
    hide Read, ExtentEnd;
    ExtentAlike(e, log[k]);
    forall b | b in buffers ensures FreshBuffer(m', log[k := e], base, b) {
      assert FreshBuffer(m, log, base, b);
    }
  }

  /** `log'` continues `log` with published entries that stand for `code`; the first of them carries the
      status `first`, the others none. */
  ghost predicate Continues(log: seq<Entry>, log': seq<Entry>, code: seq<Instr>, first: nat) {
    && |log'| == |log| + |code| && log'[..|log|] == log
    && forall k :: 0 <= k < |code| ==>
         && log'[|log| + k].instr == code[k] && log'[|log| + k].published
         && log'[|log| + k].status == if k == 0 then first else 0
  }

  lemma ContinuesJoin(a: seq<Entry>, b: seq<Entry>, c: seq<Entry>, x: seq<Instr>, y: seq<Instr>, first: nat)
    requires Continues(a, b, x, first) && Continues(b, c, y, if x == [] then first else 0)
    ensures Continues(a, c, x + y, first)
  {
    assert forall k :: 0 <= k < |b| ==> c[k] == c[..|b|][k];
    assert c[..|a|] == a by {
      assert forall k :: 0 <= k < |a| ==> c[k] == b[..|a|][k];
    }
    forall k | 0 <= k < |x + y|
      ensures c[|a| + k].instr == (x + y)[k] && c[|a| + k].published
      ensures c[|a| + k].status == if k == 0 then first else 0
    {
      if k >= |x| {
        assert c[|b| + (k - |x|)].instr == y[k - |x|];
      }
    }
  }

  lemma ContinuesLength(log: seq<Entry>, log': seq<Entry>, code: seq<Instr>, first: nat)
    requires Continues(log, log', code, first)
    ensures |log'| == |log| + |code| && forall k :: 0 <= k < |log| ==> log'[k] == log[k]
  {
    assert forall k :: 0 <= k < |log| ==> log'[k] == log'[..|log|][k];
  }

  lemma ContinuesInstrs(log: seq<Entry>, log': seq<Entry>, code: seq<Instr>, first: nat)
    requires Continues(log, log', code, first) && AllPublished(log)
    ensures AllPublished(log') && Instrs(log') == Instrs(log) + code
  {
    forall k | 0 <= k < |log'| ensures log'[k].published && log'[k].instr == (Instrs(log) + code)[k] {
      if k < |log| {
        assert log'[k] == log'[..|log|][k];
      } else {
        assert log'[|log| + (k - |log|)].instr == code[k - |log|];
      }
    }
  }

  // -------------------------------------------------- the order of the stores

  /** A flag word published: the instruction's place in the stream, and whether by an atomic or. */
  datatype Publication = Publication(index: nat, atomic: bool)

  /** The flag words published by a sequence of calls whose first instruction is number `at`, in the order
      of the stores: outside a batch atomically, inside by plain stores; an outermost block's start last. */
  function Publications(ops: seq<Op>, outside: bool, at: nat): seq<Publication>
    requires ValidOps(ops)
    decreases ops, 0
  {
    if ops == [] then []
    else
      PublicationsOf(ops[0], outside, at) + Publications(ops[1..], outside, at + Length(ops[0]))
  }

  function PublicationsOf(op: Op, outside: bool, at: nat): seq<Publication>
    requires ValidOp(op)
    decreases op, 2
  {
    match op
    case Put(_, _, _, _, _) => [Publication(at, outside)]
    case Remove(_, _) => [Publication(at, outside)]
    case IfVersionBlock(_, _, _, body) => BlockPublications(body, outside, at)
    case Batch(_, body) => BlockPublications(body, outside, at)
  }

  function BlockPublications(body: seq<Op>, outside: bool, at: nat): seq<Publication>
    requires ValidOps(body)
    decreases body, 1
  {
    var inner := Publications(body, false, at + 1) + [Publication(at + 1 + |Compile(body)|, false)];
    if outside then inner + [Publication(at, true)] else [Publication(at, false)] + inner
  }

  /** How many instructions a call compiles to. */
  function Length(op: Op): nat
    requires ValidOp(op)
  {
    if op.IfVersionBlock? || op.Batch? then |Compile(op.body)| + 2 else 1
  }

  // ------------------------------------------------------------- enough room

  /** Where the encoder stands: the next slot of its buffer, and how many more buffers it can have. */
  datatype Place = Place(position: nat, buffers: nat)

  /** Where it stands after one more instruction, if that and a jump record behind it stay in the buffer.
      An end of block is never followed by a jump record. */
  function After(maxKeySize: nat, i: Instr, at: Place): Option<Place>
    requires maxKeySize <= 65472
  {
    if i == END_BLOCK then if at.position < 8191 then Some(Place(at.position + 1, at.buffers)) else None
    else if at.buffers == 0 || !Fits(maxKeySize, at.position, i) then None
    else if at.position + SlotCount(i) > Threshold(maxKeySize) then Some(Place(0, at.buffers - 1))
    else Some(Place(at.position + SlotCount(i), at.buffers))
  }

  function Plan(maxKeySize: nat, code: seq<Instr>, at: Place): Option<Place>
    requires maxKeySize <= 65472
  {
    if code == [] then Some(at)
    else
      var next := After(maxKeySize, code[0], at);
      if next.None? then None else Plan(maxKeySize, code[1..], next.value)
  }

  lemma {:induction false} PlanJoin(maxKeySize: nat, a: seq<Instr>, b: seq<Instr>, at: Place)
    requires maxKeySize <= 65472
    ensures var middle := Plan(maxKeySize, a, at);
            Plan(maxKeySize, a + b, at) == if middle.None? then None else Plan(maxKeySize, b, middle.value)
  {
    hide After;
    if a == [] {
      assert a + b == b;
    } else {
      assert (a + b)[0] == a[0] && (a + b)[1..] == a[1..] + b;
      var next := After(maxKeySize, a[0], at);
      if next.Some? {
        PlanJoin(maxKeySize, a[1..], b, next.value);
      }
    }
  }

  lemma PlanOne(maxKeySize: nat, i: Instr, at: Place)
    requires maxKeySize <= 65472
    ensures Plan(maxKeySize, [i], at) == After(maxKeySize, i, at)
  {
    hide After;
    assert [i][1..] == [];
  }

  predicate KeysFit(op: Op, maxKeySize: nat) {
    match op
    case Put(_, key, _, _, _) => |key| <= maxKeySize
    case Remove(_, key) => |key| <= maxKeySize
    case IfVersionBlock(_, key, _, body) => |key| <= maxKeySize && forall o <- body :: KeysFit(o, maxKeySize)
    case Batch(_, body) => forall o <- body :: KeysFit(o, maxKeySize)
  }

  predicate AllKeysFit(ops: seq<Op>, maxKeySize: nat) { forall o <- ops :: KeysFit(o, maxKeySize) }

  predicate OwnKeyFits(op: Op, maxKeySize: nat) { op.Batch? || |op.key| <= maxKeySize }

  class Producer {
    const encoder: Encoder
    var buffers: seq<nat>
    ghost var publications: seq<Publication>

    constructor (encoder: Encoder, buffers: seq<nat>)
      ensures this.encoder == encoder && this.buffers == buffers && publications == []
    {
      this.encoder, this.buffers, publications := encoder, buffers, [];
    }

    ghost predicate Valid()
      reads this, encoder
    {
      encoder.Valid() && Supply(encoder.mem, encoder.log, encoder.base, buffers)
    }

    function At(): Place
      reads this, encoder
    {
      Place(encoder.position, |buffers|)
    }

    /** The status on the word the next instruction will start with: what the worker left there. */
    function Status(): nat
      reads encoder
    {
      Read(encoder.mem, encoder.Here()) / 0x100_0000
    }

    /** `writeInstructions`, exactly if the key is short enough and buffer and allocator have the room. */
    method Write(op: Op) returns (ok: bool)
      requires Valid() && ValidOp(op)
      modifies this, encoder
      ensures Valid() && publications == old(publications)
      ensures encoder.maxKeySize <= 65472
      ensures ok <==> OwnKeyFits(op, encoder.maxKeySize) && After(encoder.maxKeySize, Head(op), old(At())).Some?
      ensures ok ==> After(encoder.maxKeySize, Head(op), old(At())) == Some(At()) && Status() == 0
      ensures ok ==>
                && |encoder.log| == |old(encoder.log)| + 1 && encoder.log[..|old(encoder.log)|] == old(encoder.log)
                && encoder.log[|old(encoder.log)|].instr == Head(op) && !encoder.log[|old(encoder.log)|].published
                && encoder.log[|old(encoder.log)|].addr == old(encoder.Here())
                && encoder.log[|old(encoder.log)|].status == old(Status())
    {
      hide Supply, ChainLaid, AllApart, Linked, RoomAhead, Promised, FreshBuffer, Same, ExtentEnd, Read, Known,
           RequestOf, SlotCount, Threshold, Fits;
      var r := RequestOf(op);
      RequestKey(op, encoder.maxKeySize);
      if buffers == [] || |r.key| > encoder.maxKeySize || !Fits(encoder.maxKeySize, encoder.position, Compiled(r)) {
        return false;
      }
      var newBuffer := buffers[0];
      FirstOfSupply(encoder.mem, encoder.log, encoder.base, buffers);
      ghost var m, log, base, lo := encoder.mem, encoder.log, encoder.base, encoder.Here();
      var outcome := encoder.WriteInstruction(r, false, newBuffer);
      SupplyAfter(m, encoder.mem, log, encoder.log[|log|], base, lo, encoder.base, buffers);
      if encoder.base == newBuffer {
        buffers := buffers[1..];
      }
      return true;
    }

    /** Publishes the instruction at index `k`: outside a batch atomically, which keeps the status on its
        word, inside by a plain store, which leaves none. */
    method Publish(op: Op, addr: nat, atomic: bool, ghost k: nat)
      requires Valid() && ValidOp(op) && k < |encoder.log| && !encoder.log[k].published
      requires encoder.log[k].addr == addr && encoder.log[k].instr == Head(op)
      modifies this`publications, encoder
      ensures Valid() && buffers == old(buffers) && |encoder.log| == |old(encoder.log)|
      ensures At() == old(At()) && Status() == old(Status())
      ensures encoder.log[k].instr == Head(op) && encoder.log[k].published
      ensures encoder.log[k].status == if atomic then old(encoder.log)[k].status else 0
      ensures forall j :: 0 <= j < |encoder.log| && j != k ==> encoder.log[j] == old(encoder.log)[j]
      ensures publications == old(publications) + [Publication(k, atomic)]
    {
      hide Supply, ChainLaid, AllApart, Linked, RoomAhead, Promised, Same, Known, RequestOf, Read;
      ghost var m, log := encoder.mem, encoder.log;
      AheadOfEntry(m, log, encoder.base, encoder.position, k);
      var status := encoder.Publish(addr, Compiled(RequestOf(op)).flags, atomic, k);
      SupplyPublished(m, encoder.mem, log, encoder.base, buffers, k, encoder.log[k]);
      SameElsewhere(m, encoder.mem, addr, encoder.Here());
      publications := publications + [Publication(k, atomic)];
    }

    method EndBlock(atomic: bool) returns (ok: bool)
      requires Valid()
      modifies this`publications, encoder
      ensures Valid() && buffers == old(buffers)
      ensures ok <==> old(encoder.position) < 8191
      ensures if ok then Continues(old(encoder.log), encoder.log, [END_BLOCK], if atomic then old(Status()) else 0)
              else encoder.log == old(encoder.log)
      ensures ok ==> encoder.position == old(encoder.position) + 1 && Status() == 0
      ensures ok ==> publications == old(publications) + [Publication(|old(encoder.log)|, atomic)]
    {
      hide Supply, ChainLaid, AllApart, Linked, RoomAhead, Promised, Same, ExtentEnd, Read;
      if encoder.position >= 8191 {
        return false;
      }
      ghost var m, log, lo := encoder.mem, encoder.log, encoder.Here();
      var status := encoder.FinishBatch(atomic);
      SupplyAfter(m, encoder.mem, log, encoder.log[|log|], encoder.base, lo, encoder.base, buffers);
      publications := publications + [Publication(|log|, atomic)];
      return true;
    }

    /** The calls of one callback, in order. `batchDepth` is the depth they run at. What ends up published
        in the stream is the compiled form of the calls, in the order of `Publications`; outside a batch the
        first word keeps the status the worker had put there. It succeeds exactly if the keys are short
        enough and the code can be laid out. */
    method WriteAll(ops: seq<Op>, batchDepth: nat) returns (ok: bool)
      requires Valid() && ValidOps(ops)
      modifies this, encoder
      ensures Valid() && encoder.maxKeySize <= 65472
      ensures ok <==> AllKeysFit(ops, encoder.maxKeySize) && Plan(encoder.maxKeySize, Compile(ops), old(At())).Some?
      ensures ok ==> Plan(encoder.maxKeySize, Compile(ops), old(At())) == Some(At())
      ensures ok ==>
                && Continues(old(encoder.log), encoder.log, Compile(ops), if batchDepth == 0 then old(Status()) else 0)
                && publications == old(publications) + Publications(ops, batchDepth == 0, |old(encoder.log)|)
                && Status() == if ops == [] then old(Status()) else 0
      decreases ops, 0
    {
      hide Supply, ChainLaid, Known, ValidOp, Head, KeysFit, AllKeysFit, Read, After, Plan, Compile, Publications,
           PublicationsOf, Continues, RoomAhead, AllApart, Linked, Promised;
      if ops == [] {
        NothingToWrite(encoder.log, encoder.maxKeySize, At(), batchDepth == 0, if batchDepth == 0 then Status() else 0);
        return true;
      }
      CompileFirst(ops);
      PublicationsFirst(ops, batchDepth == 0, |encoder.log|);
      PlanJoin(encoder.maxKeySize, Compile([ops[0]]), Compile(ops[1..]), At());
      AllKeysFirst(ops, encoder.maxKeySize);
      ok := WriteOp(ops[0], batchDepth);
      if ok {
        ghost var middle := encoder.log;
        ok := WriteAll(ops[1..], batchDepth);
        if ok {
          ContinuesJoin(old(encoder.log), middle, encoder.log, Compile([ops[0]]), Compile(ops[1..]),
                        if batchDepth == 0 then old(Status()) else 0);
          ContinuesLength(old(encoder.log), middle, Compile([ops[0]]), if batchDepth == 0 then old(Status()) else 0);
        }
      }
    }

    method WriteOp(op: Op, batchDepth: nat) returns (ok: bool)
      requires Valid() && ValidOp(op)
      modifies this, encoder
      ensures Valid() && encoder.maxKeySize <= 65472
      ensures ok <==> KeysFit(op, encoder.maxKeySize) && Plan(encoder.maxKeySize, Compile([op]), old(At())).Some?
      ensures ok ==> Plan(encoder.maxKeySize, Compile([op]), old(At())) == Some(At())
      ensures ok ==>
                && Continues(old(encoder.log), encoder.log, Compile([op]), if batchDepth == 0 then old(Status()) else 0)
                && publications == old(publications) + PublicationsOf(op, batchDepth == 0, |old(encoder.log)|)
                && Status() == 0
      decreases op, 2
    {
      hide Supply, ChainLaid, Known, ValidOp, Head, Compile, Read, After, Plan, BlockPublications, RoomAhead, AllApart,
           Linked, Promised;
      CompileOne(op);
      PlanOne(encoder.maxKeySize, Head(op), At());
      if op.Put? || op.Remove? {
        ghost var k := |encoder.log|;
        var addr := encoder.Here();
        ok := Write(op);
        if ok {
          Publish(op, addr, batchDepth == 0, k);
        }
      } else {
        ok := WriteBlock(op, batchDepth);
      }
    }

    /** A block raises the depth by two while its callback runs; an outermost one publishes its start
        only after its end, a nested one at once. */
    method WriteBlock(op: Op, batchDepth: nat) returns (ok: bool)
      requires Valid() && ValidOp(op) && (op.IfVersionBlock? || op.Batch?) && ValidOps(op.body)
      modifies this, encoder
      ensures Valid() && encoder.maxKeySize <= 65472
      ensures var code := [Head(op)] + Compile(op.body) + [END_BLOCK];
              && (ok <==> KeysFit(op, encoder.maxKeySize) && Plan(encoder.maxKeySize, code, old(At())).Some?)
              && (ok ==> Plan(encoder.maxKeySize, code, old(At())) == Some(At()))
              && (ok ==> Continues(old(encoder.log), encoder.log, code, if batchDepth == 0 then old(Status()) else 0))
      ensures ok ==>
                && publications
                   == old(publications) + BlockPublications(op.body, batchDepth == 0, |old(encoder.log)|)
                && Status() == 0
      decreases op, 1
    {
      hide Supply, ChainLaid, Known, ValidOp, ValidOps, Head, Compile, KeysFit, AllKeysFit, Plan, After, Read,
           Publications, Continues, OwnKeyFits, RoomAhead, AllApart, Linked, Promised;
      ghost var start, k, first := encoder.log, |encoder.log|, Status();
      BlockPlan(op, encoder.maxKeySize, At());
      var addr := encoder.Here();
      ok := Write(op);
      if !ok {
        return;
      }
      var depth := batchDepth + 2;
      if depth > 2 {
        Publish(op, addr, false, k);
      }
      ghost var before := encoder.log;
      ok := WriteBody(op.body, depth);
      if !ok {
        return;
      }
      ghost var ended := encoder.log;
      ContinuesLength(before, ended, Compile(op.body) + [END_BLOCK], 0);
      if depth <= 2 {
        Publish(op, addr, true, k);
      }
      BlockContinues(start, before, ended, encoder.log, Head(op), Compile(op.body) + [END_BLOCK],
                     if batchDepth == 0 then first else 0);
      assert [Head(op)] + (Compile(op.body) + [END_BLOCK]) == [Head(op)] + Compile(op.body) + [END_BLOCK];
    }

    /** The callback and the end of its block. */
    method WriteBody(body: seq<Op>, depth: nat) returns (ok: bool)
      requires Valid() && ValidOps(body) && depth > 0 && Status() == 0
      modifies this, encoder
      ensures Valid() && encoder.maxKeySize <= 65472
      ensures var code := Compile(body) + [END_BLOCK];
              && (ok <==> AllKeysFit(body, encoder.maxKeySize) && Plan(encoder.maxKeySize, code, old(At())).Some?)
              && (ok ==> Plan(encoder.maxKeySize, code, old(At())) == Some(At()))
              && (ok ==> Continues(old(encoder.log), encoder.log, code, 0))
      ensures ok ==>
                && publications == old(publications) + Publications(body, false, |old(encoder.log)|)
                                   + [Publication(|old(encoder.log)| + |Compile(body)|, false)]
                && Status() == 0
      decreases body, 1
    {
      hide Supply, ChainLaid, Known, ValidOp, Compile, Read, Publications, AllKeysFit, RoomAhead, AllApart, Linked,
           Promised;
      PlanJoin(encoder.maxKeySize, Compile(body), [END_BLOCK], At());
      ok := WriteAll(body, depth);
      if ok {
        ghost var written := encoder.log;
        PlanOne(encoder.maxKeySize, END_BLOCK, At());
        ok := EndBlock(false);
        if ok {
          ContinuesJoin(old(encoder.log), written, encoder.log, Compile(body), [END_BLOCK], 0);
        }
      }
    }
  }

  lemma NothingToWrite(log: seq<Entry>, maxKeySize: nat, at: Place, outside: bool, first: nat)
    requires maxKeySize <= 65472
    ensures Compile([]) == [] && AllKeysFit([], maxKeySize) && Plan(maxKeySize, [], at) == Some(at)
    ensures Publications([], outside, |log|) == [] && Continues(log, log, [], first)
  {
  }

  lemma RequestKey(op: Op, maxKeySize: nat)
    requires ValidOp(op)
    ensures OwnKeyFits(op, maxKeySize) <==> |RequestOf(op).key| <= maxKeySize
    ensures Head(op) == Compiled(RequestOf(op)) && Head(op) != END_BLOCK
  {
  }

  lemma AllKeysFirst(ops: seq<Op>, maxKeySize: nat)
    requires ops != []
    ensures AllKeysFit(ops, maxKeySize) <==> KeysFit(ops[0], maxKeySize) && AllKeysFit(ops[1..], maxKeySize)
  {
    hide KeysFit;
    if KeysFit(ops[0], maxKeySize) && AllKeysFit(ops[1..], maxKeySize) {
      forall o | o in ops ensures KeysFit(o, maxKeySize) {
        assert o == ops[0] || o in ops[1..];
      }
    }
  }

  /** The free slot's word belongs to no entry. */
  lemma AheadOfEntry(m: Memory, log: seq<Entry>, base: nat, position: nat, k: nat)
    requires RoomAhead(m, log, base, position) && k < |log|
    ensures log[k].addr != base + 2 * position
  {
  }

  lemma SameElsewhere(m: Memory, m': Memory, a: nat, x: nat)
    requires Same(m, m', a, a + 1) && x != a
    ensures Read(m', x) == Read(m, x)
  {
    hide Read;
  }

  lemma PublicationsFirst(ops: seq<Op>, outside: bool, at: nat)
    requires ops != [] && ValidOps(ops) && ValidOps(ops[1..])
    ensures Length(ops[0]) == |Compile([ops[0]])|
    ensures Publications(ops, outside, at)
            == PublicationsOf(ops[0], outside, at) + Publications(ops[1..], outside, at + Length(ops[0]))
  {
    hide Head, Known, PublicationsOf;
    CompileOne(ops[0]);
  }

  /** The instruction, the callback and the end of a block, laid out one after the other. */
  lemma BlockPlan(op: Op, maxKeySize: nat, at: Place)
    requires maxKeySize <= 65472 && ValidOp(op) && (op.IfVersionBlock? || op.Batch?) && ValidOps(op.body)
    ensures KeysFit(op, maxKeySize) <==> OwnKeyFits(op, maxKeySize) && AllKeysFit(op.body, maxKeySize)
    ensures var next := After(maxKeySize, Head(op), at);
            Plan(maxKeySize, [Head(op)] + Compile(op.body) + [END_BLOCK], at)
            == if next.None? then None else Plan(maxKeySize, Compile(op.body) + [END_BLOCK], next.value)
  {
    hide After, Head;
    assert [Head(op)] + Compile(op.body) + [END_BLOCK] == [Head(op)] + (Compile(op.body) + [END_BLOCK]);
    PlanOne(maxKeySize, Head(op), at);
    PlanJoin(maxKeySize, [Head(op)], Compile(op.body) + [END_BLOCK], at);
  }

  lemma BlockContinues(start: seq<Entry>, before: seq<Entry>, ended: seq<Entry>, log: seq<Entry>,
                       head: Instr, code: seq<Instr>, first: nat)
    requires |before| == |start| + 1 && before[..|start|] == start && Continues(before, ended, code, 0)
    requires |log| == |ended| && log[|start|].instr == head && log[|start|].published && log[|start|].status == first
    requires forall j :: 0 <= j < |log| && j != |start| ==> log[j] == ended[j]
    ensures Continues(start, log, [head] + code, first)
  {
    assert log[..|start|] == start by {
      forall j | 0 <= j < |start| ensures log[j] == start[j] {
        assert ended[j] == ended[..|before|][j] && before[j] == before[..|start|][j];
      }
    }
    forall k | 0 <= k < |[head] + code|
      ensures log[|start| + k].instr == ([head] + code)[k] && log[|start| + k].published
      ensures log[|start| + k].status == if k == 0 then first else 0
    {
      if k > 0 {
        assert ended[|before| + (k - 1)].instr == code[k - 1];
      }
    }
  }

  lemma CompileFirst(ops: seq<Op>)
    requires ops != [] && ValidOps(ops)
    ensures ValidOps([ops[0]]) && ValidOps(ops[1..]) && Compile(ops) == Compile([ops[0]]) + Compile(ops[1..])
  {
    hide Head, Known;
    var op, rest := ops[0], Compile(ops[1..]);
    CompileOne(op);
    if op.IfVersionBlock? || op.Batch? {
      assert [Head(op)] + Compile(op.body) + [END_BLOCK] + rest == ([Head(op)] + Compile(op.body) + [END_BLOCK]) + rest;
    }
  }

  lemma CompileOne(op: Op)
    requires ValidOp(op)
    ensures ValidOps([op]) && (op.IfVersionBlock? || op.Batch? ==> ValidOps(op.body))
    ensures Compile([op]) ==
            if op.IfVersionBlock? || op.Batch? then [Head(op)] + Compile(op.body) + [END_BLOCK] else [Head(op)]
  {
    hide Head, Known;
    assert [op][1..] == [] && Compile([]) == [];
    if op.IfVersionBlock? || op.Batch? {
      BodyValid(op);
      assert [Head(op)] + Compile(op.body) + [END_BLOCK] + [] == [Head(op)] + Compile(op.body) + [END_BLOCK];
    } else {
      assert [Head(op)] + [] == [Head(op)];
    }
  }

  lemma FirstOfSupply(m: Memory, log: seq<Entry>, base: nat, buffers: seq<nat>)
    requires Supply(m, log, base, buffers) && buffers != []
    ensures FreshBuffer(m, log, base, buffers[0]) && buffers[0] != base
  {
    assert buffers[0] in buffers;
  }

  lemma SupplyInitially(m: Memory, first: nat, buffers: seq<nat>)
    requires forall x :: x != first ==> Read(m, x) == 0
    requires forall b <- buffers :: b % 2 == 0 && b + BUFFER_WORDS < 0x8_0000_0000_0000 && Distant(first, b)
    requires forall j, k :: 0 <= j < k < |buffers| ==> Distant(buffers[j], buffers[k])
    ensures Supply(m, [], first, buffers)
  {
    hide Read;
  }

  /** From the calls to the database: a batch written into a new stream, in as many buffers as it takes,
      is executed by the worker as the direct calls would have been, in one transaction. */
  method BatchEndToEnd(w: World, ops: seq<Op>, maxKeySize: nat, first: nat, buffers: seq<nat>,
                       worker: NativeWriter.Worker)
    returns (ok: bool)
    requires ValidOps(ops) && maxKeySize <= 65472 && first % 2 == 0 && first + BUFFER_WORDS < 0x8_0000_0000_0000
    requires forall b <- buffers :: b % 2 == 0 && b + BUFFER_WORDS < 0x8_0000_0000_0000 && Distant(first, b)
    requires forall j, k :: 0 <= j < k < |buffers| ==> Distant(buffers[j], buffers[k])
    requires worker.finishedProgress
    modifies worker
    ensures ok ==> worker.db == Direct(w, ops, old(worker.db)).0
    ensures ok <==> AllKeysFit(ops, maxKeySize) && Plan(maxKeySize, Compile(ops), Place(0, |buffers|)).Some?
  {
    hide Direct, Compile, ChainLaid, AllApart, Linked, RoomAhead, Promised, Supply, NativeWriter.Stream, Plan;
    var encoder := new Encoder(maxKeySize, first);
    SupplyInitially(encoder.mem, first, buffers);
    var producer := new Producer(encoder, buffers);
    ok := producer.WriteAll(ops, 0);
    if ok {
      ContinuesInstrs([], encoder.log, Compile(ops), 0x38);
      worker.mem := encoder.mem;
      var outcome := CommitBatch(w, encoder, worker, ops);
    }
  }
}
