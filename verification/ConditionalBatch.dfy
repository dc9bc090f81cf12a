/** Batches with nested `ifVersion` blocks: what the stream makes of them when it is interpreted
    later, and what running the same calls inside an open transaction makes of them. */
module ConditionalBatch {
  import opened Options
  import opened MachineWords
  import opened InstructionCodec
  import opened InstructionChain
  import opened WriteStream
  import opened Interpreter
  import opened NativeWriter

  /** Calls on versioned stores: puts and removes without a condition of their own, and blocks. */
  datatype Op =
    | Put(dbi: word, key: Bytes, value: Input, compression: Option<Compression>, version: nat)
    | Remove(dbi: word, key: Bytes)
    | IfVersionBlock(dbi: word, key: Bytes, ifVersion: nat, body: seq<Op>)
    | Batch(dbi: word, body: seq<Op>)

  predicate ValidKey(key: Bytes) { |key| < 0x1_0000_0000 }

  predicate ValidOp(op: Op) {
    match op
    case Put(_, key, value, compression, version) =>
      ValidKey(key) && ValidInput(value, compression) && version < DOUBLE_LIMIT
      && (compression.Some? ==> compression.value.address < ADDRESS_LIMIT)
    case Remove(_, key) => ValidKey(key)
    case IfVersionBlock(_, key, v, body) => ValidKey(key) && v < DOUBLE_LIMIT && forall o <- body :: ValidOp(o)
    case Batch(_, body) => forall o <- body :: ValidOp(o)
  }

  predicate ValidOps(ops: seq<Op>) { forall o <- ops :: ValidOp(o) }

  /** What the call hands to `writeInstructions` (for a block, at its start). */
  function RequestOf(op: Op): (r: Request)
    requires ValidOp(op)
    ensures ValidRequest(r) && |r.key| < 0x1_0000_0000
    ensures Known(Compiled(r))
  {
    match op
    case Put(dbi, key, value, compression, version) =>
      Request(PLAIN.(op := PUT), dbi, key, Some(value), compression, Unconditional, Some(version))
    case Remove(dbi, key) =>
      Request(PLAIN.(op := DEL), dbi, key, None, None, Unconditional, None)
    case IfVersionBlock(dbi, key, v, _) =>
      Request(PLAIN.(op := START_CONDITION_BLOCK), dbi, key, None, None, IfVersion(v), None)
    case Batch(dbi, _) =>
      Request(PLAIN.(op := START_BLOCK), dbi, [], None, None, Unconditional, None)
  }

  function Head(op: Op): (i: Instr)
    requires ValidOp(op)
    ensures Known(i)
  {
    Compiled(RequestOf(op))
  }

  /** The instructions a sequence of calls puts in the stream. */
  function Compile(ops: seq<Op>): (code: seq<Instr>)
    requires ValidOps(ops)
    ensures forall i <- code :: Known(i)
  {
    if ops == [] then []
    else
      var rest := Compile(ops[1..]);
      match ops[0]
      case Put(_, _, _, _, _) => [Head(ops[0])] + rest
      case Remove(_, _) => [Head(ops[0])] + rest
      case IfVersionBlock(_, _, _, body) => [Head(ops[0])] + Compile(body) + [END_BLOCK] + rest
      case Batch(_, body) => [Head(ops[0])] + Compile(body) + [END_BLOCK] + rest
  }

  // --------------------------------------------------------- direct meaning

  /** `doesExist(key, version)` in a versioned store. */
  predicate DoesExist(db: Store, dbi: word, key: Bytes, version: nat) {
    (dbi, key) in db && SameDouble(version, VersionOf(db[(dbi, key)]))
  }

  /** The marks of a block that is not entered: everything in it has failed. */
  function Skipped(ops: seq<Op>): seq<Mark> {
    if ops == [] then [] else SkippedOp(ops[0]) + Skipped(ops[1..])
  }

  function SkippedOp(op: Op): seq<Mark> {
    match op
    case Put(_, _, _, _, _) => [Finished(true)]
    case Remove(_, _) => [Finished(true)]
    case IfVersionBlock(_, _, _, body) => [Finished(true)] + Skipped(body) + [Unmarked]
    case Batch(_, body) => [Finished(true)] + Skipped(body) + [Unmarked]
  }

  /** The calls run one by one inside a transaction: a block tests its version on the spot and either
      runs its callback or skips it. The marks are listed as the stream would report them. */
  function Direct(w: World, ops: seq<Op>, db: Store): (Store, seq<Mark>)
    requires ValidOps(ops)
  {
    if ops == [] then (db, [])
    else
      var one := DirectOp(w, ops[0], db);
      var rest := Direct(w, ops[1..], one.0);
      (rest.0, one.1 + rest.1)
  }

  function DirectOp(w: World, op: Op, db: Store): (Store, seq<Mark>)
    requires ValidOp(op)
  {
    match op
    case Put(dbi, key, value, _, version) =>
      (db[(dbi, key) := VersionBytes(version) + w.load(value.address, value.size)], [Finished(false)])
    case Remove(dbi, key) => (db - {(dbi, key)}, [Finished((dbi, key) !in db)])
    case IfVersionBlock(dbi, key, v, body) =>
      if DoesExist(db, dbi, key, v) then
        var r := Direct(w, body, db);
        (r.0, [Finished(false)] + r.1 + [Unmarked])
      else (db, SkippedOp(op))
    case Batch(_, body) =>
      var r := Direct(w, body, db);
      (r.0, [Finished(false)] + r.1 + [Unmarked])
  }

  // ------------------------------------------------------------- equivalence

  /** Running two stretches of code one after the other. */
  lemma {:induction false} RunAppend(w: World, a: seq<Instr>, b: seq<Instr>, s: Machine)
    requires (forall i <- a :: Known(i)) && (forall i <- b :: Known(i))
    ensures var (s1, m1) := Run(w, a, s);
            Run(w, a + b, s) == (Run(w, b, s1).0, m1 + Run(w, b, s1).1)
  {
    hide Known, Exec;
    if a == [] {
      assert a + b == b;
      assert [] + Run(w, b, s).1 == Run(w, b, s).1;
    } else {
      assert (a + b)[0] == a[0] && (a + b)[1..] == a[1..] + b;
      RunAppend(w, a[1..], b, Exec(w, a[0], s).0);
      var one := Exec(w, a[0], s);
      var (s1, m1) := Run(w, a[1..], one.0);
      assert [one.1] + (m1 + Run(w, b, s1).1) == ([one.1] + m1) + Run(w, b, s1).1;
    }
  }

  lemma RunOne(w: World, i: Instr, s: Machine)
    requires Known(i)
    ensures Run(w, [i], s) == (Exec(w, i, s).0, [Exec(w, i, s).1])
  {
    hide Exec, Known;
    var (s', m) := Exec(w, i, s);
    assert [i][1..] == [] && Run(w, [], s') == (s', []) && [m] + [] == [m];
  }

  /** A head, a stretch of code, the end of the block and the rest, run piece by piece. */
  lemma RunBlock(w: World, head: Instr, body: seq<Instr>, rest: seq<Instr>, s: Machine)
    requires Known(head) && Known(END_BLOCK) && (forall i <- body :: Known(i)) && (forall i <- rest :: Known(i))
    ensures var (s1, m1) := Exec(w, head, s);
            var (s2, m2) := Run(w, body, s1);
            var (s3, m3) := Exec(w, END_BLOCK, s2);
            Run(w, [head] + body + [END_BLOCK] + rest, s)
            == (Run(w, rest, s3).0, [m1] + m2 + [m3] + Run(w, rest, s3).1)
  {
    hide Exec, Known, Run;
    RunAppend(w, [head] + body + [END_BLOCK], rest, s);
    RunAppend(w, [head] + body, [END_BLOCK], s);
    RunAppend(w, [head], body, s);
    RunOne(w, head, s);
    RunOne(w, END_BLOCK, Run(w, body, Exec(w, head, s).0).0);
  }

  lemma RunHead(w: World, head: Instr, rest: seq<Instr>, s: Machine)
    requires Known(head) && forall i <- rest :: Known(i)
    ensures var (s1, m1) := Exec(w, head, s);
            Run(w, [head] + rest, s) == (Run(w, rest, s1).0, [m1] + Run(w, rest, s1).1)
  {
    hide Exec, Known;
    assert ([head] + rest)[1..] == rest;
  }

  // The effect of each kind of instruction, entered with every block holding or with some block failed.

  lemma HeadHolding(w: World, op: Op, s: Machine)
    requires ValidOp(op) && s.conditionDepth == s.validatedDepth
    ensures var (s1, m1) := Exec(w, Head(op), s);
            match op
            case Put(dbi, key, value, _, version) => (s1.(db := s.db), [m1]) == (s, DirectOp(w, op, s.db).1)
                && s1.db == DirectOp(w, op, s.db).0
            case Remove(_, _) => (s1.(db := s.db), [m1]) == (s, DirectOp(w, op, s.db).1)
                && s1.db == DirectOp(w, op, s.db).0
            case IfVersionBlock(dbi, key, v, _) =>
              var holds := DoesExist(s.db, dbi, key, v);
              s1 == Machine(s.db, s.conditionDepth + 1, if holds then s.validatedDepth + 1 else s.validatedDepth)
              && m1 == Finished(!holds)
            case Batch(_, _) =>
              s1 == Machine(s.db, s.conditionDepth + 1, s.validatedDepth + 1) && m1 == Finished(false)
  {
    hide SameDouble, VersionOf, VersionBytes, Direct;
  }

  lemma HeadFailed(w: World, op: Op, s: Machine)
    requires ValidOp(op) && s.validatedDepth < s.conditionDepth
    ensures Exec(w, Head(op), s) ==
            (if op.Put? || op.Remove? then s else s.(conditionDepth := s.conditionDepth + 1), Finished(true))
  {
    hide SameDouble, VersionOf, VersionBytes;
  }

  lemma EndKnown()
    ensures Known(END_BLOCK)
  {
  }

  lemma EndEffect(w: World, s: Machine)
    requires Known(END_BLOCK)
    ensures Exec(w, END_BLOCK, s) ==
            (Machine(s.db, s.conditionDepth - 1,
                     if s.validatedDepth >= s.conditionDepth then s.validatedDepth - 1 else s.validatedDepth),
             Unmarked)
  {
  }

  /** Under a failed condition nothing is executed, however the code nests, and the counters return. */
  lemma {:induction false} FailedBlockSkips(w: World, ops: seq<Op>, s: Machine)
    requires ValidOps(ops) && s.validatedDepth < s.conditionDepth
    ensures Run(w, Compile(ops), s) == (s, Skipped(ops))
    decreases ops, 0
  {
    hide Exec, Known, Run, Head, ValidOp;
    if ops == [] {
      RunNothing(w, s);
    } else {
      var op, rest := ops[0], Compile(ops[1..]);
      HeadFailed(w, op, s);
      FailedBlockSkips(w, ops[1..], s);
      match op {
        case Put(_, _, _, _, _) => RunHead(w, Head(op), rest, s);
        case Remove(_, _) => RunHead(w, Head(op), rest, s);
        case IfVersionBlock(_, _, _, body) =>
          BodyValid(op);
          FailedBody(w, op, body, rest, s);
        case Batch(_, body) =>
          BodyValid(op);
          FailedBody(w, op, body, rest, s);
      }
    }
  }

  lemma {:induction false} FailedBody(w: World, op: Op, body: seq<Op>, rest: seq<Instr>, s: Machine)
    requires ValidOp(op) && ValidOps(body) && s.validatedDepth < s.conditionDepth && forall i <- rest :: Known(i)
    requires (op.IfVersionBlock? || op.Batch?) && op.body == body
    ensures Run(w, [Head(op)] + Compile(body) + [END_BLOCK] + rest, s)
            == (Run(w, rest, s).0, [Finished(true)] + Skipped(body) + [Unmarked] + Run(w, rest, s).1)
    decreases body, 1
  {
    hide Exec, Known, Run, Head;
    EndKnown();
    HeadFailed(w, op, s);
    var inside := s.(conditionDepth := s.conditionDepth + 1);
    FailedBlockSkips(w, body, inside);
    EndEffect(w, inside);
    RunBlock(w, Head(op), Compile(body), rest, s);
  }

  lemma BodyValid(op: Op)
    requires ValidOp(op) && (op.IfVersionBlock? || op.Batch?)
    ensures ValidOps(op.body)
  {
  }

  lemma RunNothing(w: World, s: Machine)
    ensures Run(w, [], s) == (s, [])
  {
  }

  /** Interpreting the compiled calls is running them directly: the same database and the same marks,
      for any nesting of blocks and whatever their conditions find, with the counters where they were. */
  lemma {:induction false} StreamMeansDirect(w: World, ops: seq<Op>, s: Machine)
    requires ValidOps(ops) && s.conditionDepth == s.validatedDepth
    ensures var (db', marks) := Direct(w, ops, s.db);
            Run(w, Compile(ops), s) == (s.(db := db'), marks)
    decreases ops, 0
  {
    hide Exec, Known, Run, Head, ValidOp, DirectOp;
    if ops == [] {
      RunNothing(w, s);
    } else {
      var op, rest := ops[0], Compile(ops[1..]);
      var (db1, _) := DirectOp(w, op, s.db);
      StreamMeansDirect(w, ops[1..], s.(db := db1));
      HeadHolding(w, op, s);
      match op {
        case Put(_, _, _, _, _) => RunHead(w, Head(op), rest, s);
        case Remove(_, _) => RunHead(w, Head(op), rest, s);
        case IfVersionBlock(_, _, _, body) => BlockMeansDirect(w, op, rest, s);
        case Batch(_, body) => BlockMeansDirect(w, op, rest, s);
      }
    }
  }

  lemma {:induction false} BlockMeansDirect(w: World, op: Op, rest: seq<Instr>, s: Machine)
    requires ValidOp(op) && (op.IfVersionBlock? || op.Batch?) && forall i <- rest :: Known(i)
    requires s.conditionDepth == s.validatedDepth
    ensures ValidOps(op.body)
    ensures var (db1, m1) := DirectOp(w, op, s.db);
            var s1 := s.(db := db1);
            Run(w, [Head(op)] + Compile(op.body) + [END_BLOCK] + rest, s)
            == (Run(w, rest, s1).0, m1 + Run(w, rest, s1).1)
    decreases op
  {
    hide Exec, Known, Run, Head, ValidOp, DoesExist;
    BodyValid(op);
    EndKnown();
    HeadHolding(w, op, s);
    var inside := Exec(w, Head(op), s).0;
    if inside.conditionDepth == inside.validatedDepth {
      StreamMeansDirect(w, op.body, inside);
    } else {
      FailedBlockSkips(w, op.body, inside);
    }
    EndEffect(w, Run(w, Compile(op.body), inside).0);
    RunBlock(w, Head(op), Compile(op.body), rest, s);
  }

  // ------------------------------------------------------------ both routes

  /** One call inside a transaction: encoded into the one reusable buffer, parsed and executed at once,
      its outcome or-ed into the flag word and the caller's answer read from there. */
  method CallDirect(w: World, op: Op, db: Store, m: Memory, base: nat) returns (db': Store, m': Memory, success: bool)
    requires ValidOp(op) && (op.Put? || op.Remove?) && base % 2 == 0
    ensures (db', [Finished(!success)]) == DirectOp(w, op, db)
  {
    hide ValidOp, Exec, Decode, Known, Compiled, RequestOf, FlagBits, Read, ParseFlags;
    m' := WriteDirect(m, base, RequestOf(op));
    var conditionDepth, validatedDepth, mark;
    db', conditionDepth, validatedDepth, mark := Execute(w, Decode(m', base).instr, db, 0, 0);
    HeadHolding(w, op, Machine(db, 0, 0));
    FlagsRoundTrip(Head(op).flags, 0);
    var flags := Read(m', base);
    m' := SetWord(m', base, flags + MarkStatus(0, mark) * 0x100_0000);
    success := Read(m', base) / 0x100_0000 / 4 % 2 == 0;
    FailedBitRead(flags, mark);
  }

  lemma FailedBitRead(flags: nat, mark: Mark)
    requires flags < 0x100_0000 && mark.Finished?
    ensures (flags + MarkStatus(0, mark) * 0x100_0000) / 0x100_0000 / 4 % 2 == if mark.failed then 1 else 0
  {
    WordParts(flags, MarkStatus(0, mark));
  }

  /** The route inside a transaction: each put or remove is a call, and a block is a test and a callback.
      The marks list what the calls returned, those of a block not entered as failed. */
  method RunDirect(w: World, ops: seq<Op>, db: Store, m: Memory, base: nat)
    returns (db': Store, m': Memory, marks: seq<Mark>)
    requires ValidOps(ops) && base % 2 == 0
    ensures (db', marks) == Direct(w, ops, db)
    decreases ops
  {
    hide ValidOp, DirectOp, DoesExist;
    db', m', marks := db, m, [];
    if ops == [] {
      return;
    }
    var op := ops[0];
    if op.Put? || op.Remove? {
      var success;
      db', m', success := CallDirect(w, op, db', m', base);
      marks := [Finished(!success)];
    } else {
      BodyValid(op);
      BlockDirect(w, op, db);
      if op.Batch? || DoesExist(db', op.dbi, op.key, op.ifVersion) {
        db', m', marks := RunDirect(w, op.body, db', m', base);
        marks := [Finished(false)] + marks + [Unmarked];
      } else {
        marks := SkippedOp(op);
      }
    }
    var rest;
    db', m', rest := RunDirect(w, ops[1..], db', m', base);
    marks := marks + rest;
  }

  lemma BlockDirect(w: World, op: Op, db: Store)
    requires ValidOp(op) && (op.Batch? || op.IfVersionBlock?) && ValidOps(op.body)
    ensures DirectOp(w, op, db) ==
            if op.Batch? || DoesExist(db, op.dbi, op.key, op.ifVersion) then
              (Direct(w, op.body, db).0, [Finished(false)] + Direct(w, op.body, db).1 + [Unmarked])
            else (db, SkippedOp(op))
  {
  }

  /** A finished encoder's memory is a stream the worker can run. */
  lemma EncodedStream(s: Encoder)
    requires s.Valid() && AllPublished(s.log) && AllKnown(s.log)
    ensures Stream(s.mem, s.log, s.start, s.Here())
  {
    hide ChainLaid, AllApart, Linked, Promised, Known, ExtentEnd;
  }

  lemma CompiledKnown(log: seq<Entry>, ops: seq<Op>)
    requires ValidOps(ops) && Instrs(log) == Compile(ops)
    ensures AllKnown(log)
  {
    hide Known;
    forall e | e in log ensures Known(e.instr) {
      var k :| 0 <= k < |log| && log[k] == e;
      assert Instrs(log)[k] == e.instr;
      assert e.instr in Compile(ops);
    }
  }

  /** The route through shared memory: a batch laid out in any number of buffers and published is
      executed by the worker with the meaning of the direct calls, committed in one transaction, and
      every flag word reports what the direct call would have returned. */
  method CommitBatch(w: World, s: Encoder, worker: Worker, ops: seq<Op>) returns (outcome: NativeWriter.Outcome)
    requires s.Valid() && AllPublished(s.log) && ValidOps(ops) && Instrs(s.log) == Compile(ops)
    requires worker.mem == s.mem && worker.finishedProgress
    modifies worker
    ensures outcome.Committed?
    ensures worker.db == Direct(w, ops, old(worker.db)).0
    ensures var marks := Direct(w, ops, old(worker.db)).1;
            |marks| == |s.log| && Stream(worker.mem, Marked(s.log, marks), s.start, s.Here())
    ensures Read(worker.mem, s.Here()) == 0x800_0000 && worker.instructions == s.Here()
  {
    hide Stream, ChainLaid, AllApart, Linked, RoomAhead, Promised, Known, Run, Direct, Compile, Exec, Marked,
         Progress, ValidOps;
    CompiledKnown(s.log, ops);
    EncodedStream(s);
    ghost var before := Machine(worker.db, 0, 0);
    StreamMeansDirect(w, ops, before);
    NoCallbacks(w, ops, Run(w, Compile(ops), before).1);
    outcome := worker.DoWrites(w, s.start, s.log, s.Here());
  }

  lemma {:induction false} ProgressKept(code: seq<Instr>, marks: seq<Mark>)
    requires |code| == |marks| && forall i <- code :: i.flags.op != USER_CALLBACK
    ensures Progress(code, marks, true)
  {
    if code != [] {
      ProgressKept(code[1..], marks[1..]);
    }
  }

  lemma NoCallbacks(w: World, ops: seq<Op>, marks: seq<Mark>)
    requires ValidOps(ops) && |marks| == |Compile(ops)|
    ensures Progress(Compile(ops), marks, true)
  {
    hide Known, Progress;
    NoCallbackCompiled(ops);
    ProgressKept(Compile(ops), marks);
  }

  lemma {:induction false} NoCallbackCompiled(ops: seq<Op>)
    requires ValidOps(ops)
    ensures forall i <- Compile(ops) :: i.flags.op != USER_CALLBACK
    decreases ops
  {
    if ops != [] {
      NoCallbackCompiled(ops[1..]);
      if ops[0].IfVersionBlock? || ops[0].Batch? {
        BodyValid(ops[0]);
        NoCallbackCompiled(ops[0].body);
      }
    }
  }
}
