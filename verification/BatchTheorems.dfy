/** What the producer's calls amount to: which flag words are stored when and how, what is in memory
    afterwards, and which batches can be written at all. */
module BatchTheorems {
  import opened MachineWords
  import opened InstructionCodec
  import opened InstructionChain
  import opened WriteStream
  import opened Interpreter
  import opened ConditionalBatch
  import opened BatchProducer

  // ------------------------------------------------- which words, and how stored

  /** Blocks opened minus blocks closed. */
  function Depth(code: seq<Instr>): int {
    if code == [] then 0
    else (if Starts(code[0]) then 1 else if code[0].flags.op == BLOCK_END then -1 else 0) + Depth(code[1..])
  }

  lemma {:induction false} DepthJoin(a: seq<Instr>, b: seq<Instr>)
    ensures Depth(a + b) == Depth(a) + Depth(b)
  {
    if a == [] {
      assert a + b == b;
    } else {
      assert (a + b)[0] == a[0] && (a + b)[1..] == a[1..] + b;
      DepthJoin(a[1..], b);
    }
  }

  lemma DepthOne(i: Instr)
    ensures Depth([i]) == if Starts(i) then 1 else if i.flags.op == BLOCK_END then -1 else 0
  {
    assert [i][1..] == [];
  }

  /** Compiled calls close every block they open, and no other. */
  lemma {:induction false} DepthWithin(ops: seq<Op>, n: nat)
    requires ValidOps(ops) && n <= |Compile(ops)|
    ensures Depth(Compile(ops)[..n]) >= 0 && (n == |Compile(ops)| ==> Depth(Compile(ops)[..n]) == 0)
    decreases ops, 0
  {
    hide Head, Known, ValidOp, Depth, Compile;
    if ops == [] {
      NoDepth();
    } else {
      CompileFirst(ops);
      var first, rest := Compile([ops[0]]), Compile(ops[1..]);
      if n <= |first| {
        assert (first + rest)[..n] == first[..n];
        DepthWithinOp(ops[0], n);
      }
      if n >= |first| {
        assert (first + rest)[..n] == first + rest[..n - |first|];
        DepthJoin(first, rest[..n - |first|]);
        DepthWithinOp(ops[0], |first|);
        assert first[..|first|] == first;
        DepthWithin(ops[1..], n - |first|);
      }
    }
  }

  lemma NoDepth()
    ensures Compile([]) == [] && Depth([]) == 0
  {
  }

  lemma {:induction false} DepthWithinOp(op: Op, n: nat)
    requires ValidOp(op) && ValidOps([op]) && n <= |Compile([op])|
    ensures var code := Compile([op]);
            && Depth(code[..n]) >= 0 && (n == |code| ==> Depth(code[..n]) == 0)
            && ((op.IfVersionBlock? || op.Batch?) && 0 < n < |code| ==> Depth(code[..n]) >= 1)
    decreases op, 0
  {
    hide Known, ValidOp, Depth, Compile;
    CompileOne(op);
    HeadKinds(op);
    var code := Compile([op]);
    if n == 0 {
      NoDepth();
    } else if op.IfVersionBlock? || op.Batch? {
      var body := Compile(op.body);
      var m := if n <= |body| + 1 then n - 1 else |body|;
      DepthWithin(op.body, m);
      DepthJoin([Head(op)], body[..m]);
      assert code[..m + 1] == [Head(op)] + body[..m];
      if n == |code| {
        DepthJoin(code[..m + 1], [END_BLOCK]);
        assert code[..n] == code[..m + 1] + [END_BLOCK];
      }
    } else {
      assert code[..n] == [Head(op)];
    }
  }

  lemma HeadKinds(op: Op)
    requires ValidOp(op)
    ensures Depth([Head(op)]) == if op.IfVersionBlock? || op.Batch? then 1 else 0
    ensures Depth([END_BLOCK]) == -1
  {
    DepthOne(Head(op));
    DepthOne(END_BLOCK);
  }

  /** Every flag word is published once: there are as many stores as instructions, and among them one for
      each, atomic exactly if the calls run outside a batch and no block is open around the instruction. */
  lemma {:induction false} PublishedOnceEach(ops: seq<Op>, outside: bool, at: nat, k: nat)
    requires ValidOps(ops)
    ensures |Publications(ops, outside, at)| == |Compile(ops)|
    ensures at <= k < at + |Compile(ops)| ==>
              Publication(k, outside && Depth(Compile(ops)[..k - at]) == 0) in Publications(ops, outside, at)
    decreases ops, 0
  {
    hide Head, Known, ValidOp, Depth, Compile, Publications, PublicationsOf;
    if ops == [] {
      NothingToWrite([], 0, Place(0, 0), outside, 0);
      NothingPublished(outside, at);
    } else {
      CompileFirst(ops);
      PublicationsFirst(ops, outside, at);
      var first, rest := Compile([ops[0]]), Compile(ops[1..]);
      PublishedOnceEachOf(ops[0], outside, at, k);
      PublishedOnceEach(ops[1..], outside, at + |first|, k);
      if at <= k < at + |first| {
        assert (first + rest)[..k - at] == first[..k - at];
      } else if at + |first| <= k < at + |first + rest| {
        var n := k - at - |first|;
        assert (first + rest)[..k - at] == first + rest[..n];
        DepthJoin(first, rest[..n]);
        DepthWithinOp(ops[0], |first|);
        assert first[..|first|] == first;
      }
    }
  }

  lemma NothingPublished(outside: bool, at: nat)
    ensures Publications([], outside, at) == []
  {
  }

  lemma {:induction false} PublishedOnceEachOf(op: Op, outside: bool, at: nat, k: nat)
    requires ValidOp(op) && ValidOps([op])
    ensures |PublicationsOf(op, outside, at)| == |Compile([op])|
    ensures at <= k < at + |Compile([op])| ==>
              Publication(k, outside && Depth(Compile([op])[..k - at]) == 0) in PublicationsOf(op, outside, at)
    decreases op, 0
  {
    hide Head, Known, ValidOp, Depth, Compile, Publications;
    CompileOne(op);
    NoDepth();
    if op.IfVersionBlock? || op.Batch? {
      PublishedOnceEach(op.body, false, at + 1, k);
      if at < k < at + |Compile([op])| {
        DepthWithinOp(op, k - at);
      }
    }
  }

  /** Once written, each new flag word holds the flags of its instruction, and over them the status of its
      entry: the first the one found on the word, all others none. */
  lemma WordsInMemory(s: Encoder, log: seq<Entry>, code: seq<Instr>, first: nat, k: nat)
    requires s.Valid() && Continues(log, s.log, code, first) && k < |code|
    ensures Read(s.mem, s.log[|log| + k].addr)
            == FlagBits(code[k].flags) + (if k == 0 then first else 0) * 0x100_0000
  {
    hide AllApart, Linked, RoomAhead, Promised, BodyLaid, JumpLaid, FlagBits, Read;
    LaidAt(s.mem, s.log, |log| + k);
    assert s.log[|log| + k].instr == code[k];
  }

  // ------------------------------------------------------ batches that always fit

  /** Code of any length is laid out if every instruction's key leaves a slot for each end of block just
      before it and no instruction has all four trailing fields. */
  predicate Roomy(maxKeySize: nat, code: seq<Instr>, ends: nat) {
    if code == [] then true
    else if code[0] == END_BLOCK then 8 * ends <= maxKeySize + 48 && Roomy(maxKeySize, code[1..], ends + 1)
    else
      && ValidInstr(code[0]) && |code[0].key| + 8 * ends <= maxKeySize && !FourFields(code[0])
      && Roomy(maxKeySize, code[1..], 0)
  }

  lemma {:induction false} RoomyIsLaidOut(maxKeySize: nat, code: seq<Instr>, at: Place, ends: nat)
    requires maxKeySize <= 65472 && Roomy(maxKeySize, code, ends)
    requires at.position <= Threshold(maxKeySize) + ends && at.buffers >= |code|
    ensures Plan(maxKeySize, code, at).Some?
  {
    if code == [] {
    } else if code[0] == END_BLOCK {
      RoomyIsLaidOut(maxKeySize, code[1..], Place(at.position + 1, at.buffers), ends + 1);
    } else {
      RoomyFits(maxKeySize, code[0], at.position, ends);
      RoomyIsLaidOut(maxKeySize, code[1..], After(maxKeySize, code[0], at).value, 0);
    }
  }

  lemma RoomyFits(maxKeySize: nat, i: Instr, position: nat, ends: nat)
    requires maxKeySize <= 65472 && position <= Threshold(maxKeySize) + ends
    requires ValidInstr(i) && |i.key| + 8 * ends <= maxKeySize && !FourFields(i)
    ensures Fits(maxKeySize, position, i)
  {
    assert (|i.key| + 28) / 8 + ends <= (maxKeySize + 28) / 8;
  }

  /** How deep the blocks of the calls are nested. */
  function Height(op: Op): nat {
    if op.IfVersionBlock? || op.Batch? then 1 + HeightAll(op.body) else 0
  }

  function HeightAll(ops: seq<Op>): nat {
    if ops == [] then 0
    else if Height(ops[0]) > HeightAll(ops[1..]) then Height(ops[0]) else HeightAll(ops[1..])
  }

  lemma {:induction false} RoomyEarlier(maxKeySize: nat, code: seq<Instr>, ends: nat, ends': nat)
    requires Roomy(maxKeySize, code, ends) && ends' <= ends
    ensures Roomy(maxKeySize, code, ends')
  {
    hide ValidInstr, FourFields;
    if code != [] && code[0] == END_BLOCK {
      RoomyEarlier(maxKeySize, code[1..], ends + 1, ends' + 1);
    }
  }

  /** No key in the calls is longer than `limit`. */
  lemma {:induction false} KeysFitLess(op: Op, limit: nat, maxKeySize: nat)
    requires KeysFit(op, limit) && limit <= maxKeySize
    ensures KeysFit(op, maxKeySize)
  {
    if op.IfVersionBlock? || op.Batch? {
      forall o | o in op.body ensures KeysFit(o, maxKeySize) {
        KeysFitLess(o, limit, maxKeySize);
      }
    }
  }

  lemma KeysOfCall(op: Op, maxKeySize: nat)
    requires KeysFit(op, maxKeySize)
    ensures OwnKeyFits(op, maxKeySize)
    ensures op.IfVersionBlock? || op.Batch? ==> AllKeysFit(op.body, maxKeySize)
  {
  }

  lemma HeadFields(op: Op, maxKeySize: nat)
    requires ValidOp(op) && OwnKeyFits(op, maxKeySize)
    ensures ValidInstr(Head(op)) && !FourFields(Head(op)) && |Head(op).key| <= maxKeySize && Head(op) != END_BLOCK
  {
  }

  function Higher(a: nat, b: nat): nat { if a > b then a else b }

  /** The first call's code, opened up, and what follows it. */
  lemma CallThenRest(ops: seq<Op>, rest: seq<Instr>)
    requires ops != [] && ValidOps(ops)
    ensures ValidOp(ops[0]) && ValidOps(ops[1..])
    ensures HeightAll(ops) == Higher(Height(ops[0]), HeightAll(ops[1..]))
    ensures var op, after := ops[0], Compile(ops[1..]) + rest;
            if op.IfVersionBlock? || op.Batch? then
              && ValidOps(op.body) && Height(op) == 1 + HeightAll(op.body)
              && Compile(ops) + rest == [Head(op)] + (Compile(op.body) + ([END_BLOCK] + after))
            else Height(op) == 0 && Compile(ops) + rest == [Head(op)] + after
  {
    hide Head, Known, ValidOp, Compile;
    CompileFirst(ops);
    CompileOne(ops[0]);
    var code := Compile(ops[1..]);
    if ops[0].IfVersionBlock? || ops[0].Batch? {
      Rebracket([Head(ops[0])], Compile(ops[0].body), [END_BLOCK], code, rest);
    } else {
      assert [Head(ops[0])] + code + rest == [Head(ops[0])] + (code + rest);
    }
  }

  lemma Rebracket(a: seq<Instr>, b: seq<Instr>, c: seq<Instr>, d: seq<Instr>, e: seq<Instr>)
    ensures (a + b + c) + d + e == a + (b + (c + (d + e)))
  {
  }

  /** Calls nested up to `depth` deep, with keys that leave a slot for every level, compile to code with room
      for all of it, whatever code with room for itself follows. */
  lemma {:induction false} NestedIsRoomy(ops: seq<Op>, rest: seq<Instr>, maxKeySize: nat, depth: nat, ends: nat)
    requires ValidOps(ops) && 8 * depth <= maxKeySize && AllKeysFit(ops, maxKeySize - 8 * depth)
    requires HeightAll(ops) <= depth && ends <= depth
    requires Roomy(maxKeySize, rest, Higher(ends, HeightAll(ops)))
    ensures Roomy(maxKeySize, Compile(ops) + rest, ends)
    decreases ops
  {
    hide Head, Known, ValidOp, ValidOps, Compile, ValidInstr, FourFields, KeysFit, AllKeysFit, Roomy, Height, HeightAll;
    if ops == [] {
      NothingRoomy(rest, maxKeySize, ends);
    } else {
      var op := ops[0];
      CallThenRest(ops, rest);
      AllKeysFirst(ops, maxKeySize - 8 * depth);
      KeysOfCall(op, maxKeySize - 8 * depth);
      HeadFields(op, maxKeySize - 8 * depth);
      var after := Compile(ops[1..]) + rest;
      RoomyEarlier(maxKeySize, rest, Higher(ends, HeightAll(ops)), Higher(Height(op), HeightAll(ops[1..])));
      NestedIsRoomy(ops[1..], rest, maxKeySize, depth, Height(op));
      if op.IfVersionBlock? || op.Batch? {
        RoomyEnd(maxKeySize, after, HeightAll(op.body));
        NestedIsRoomy(op.body, [END_BLOCK] + after, maxKeySize, depth, 0);
        RoomyHead(maxKeySize, Head(op), Compile(op.body) + ([END_BLOCK] + after), ends);
      } else {
        RoomyHead(maxKeySize, Head(op), after, ends);
      }
    }
  }

  lemma NothingRoomy(rest: seq<Instr>, maxKeySize: nat, ends: nat)
    requires Roomy(maxKeySize, rest, Higher(ends, HeightAll([])))
    ensures Roomy(maxKeySize, Compile([]) + rest, ends)
  {
    assert Compile([]) + rest == rest;
  }

  lemma RoomyEnd(maxKeySize: nat, rest: seq<Instr>, ends: nat)
    requires 8 * ends <= maxKeySize && Roomy(maxKeySize, rest, ends + 1)
    ensures Roomy(maxKeySize, [END_BLOCK] + rest, ends)
  {
    assert ([END_BLOCK] + rest)[1..] == rest;
  }

  lemma RoomyHead(maxKeySize: nat, head: Instr, rest: seq<Instr>, ends: nat)
    requires head != END_BLOCK && ValidInstr(head) && !FourFields(head) && |head.key| + 8 * ends <= maxKeySize
    requires Roomy(maxKeySize, rest, 0)
    ensures Roomy(maxKeySize, [head] + rest, ends)
  {
    assert ([head] + rest)[1..] == rest;
  }

  /** A batch of any length always succeeds, given as many buffers as instructions, if its keys leave eight
      bytes for each level its blocks nest. */
  lemma NestedIsLaidOut(ops: seq<Op>, maxKeySize: nat, buffers: nat)
    requires maxKeySize <= 65472 && ValidOps(ops) && 8 * HeightAll(ops) <= maxKeySize
    requires AllKeysFit(ops, maxKeySize - 8 * HeightAll(ops)) && buffers >= |Compile(ops)|
    ensures AllKeysFit(ops, maxKeySize) && Plan(maxKeySize, Compile(ops), Place(0, buffers)).Some?
  {
    hide Compile, Plan, KeysFit;
    forall o | o in ops ensures KeysFit(o, maxKeySize) {
      KeysFitLess(o, maxKeySize - 8 * HeightAll(ops), maxKeySize);
    }
    NestedIsRoomy(ops, [], maxKeySize, HeightAll(ops), 0);
    assert Compile(ops) + [] == Compile(ops);
    RoomyIsLaidOut(maxKeySize, Compile(ops), Place(0, buffers), 0);
  }

  /** One batch of plain puts and removes always succeeds, whatever its length and its keys. */
  lemma FlatIsLaidOut(batch: Op, maxKeySize: nat, buffers: nat)
    requires maxKeySize <= 65472 && ValidOp(batch) && ValidOps([batch]) && batch.Batch?
    requires KeysFit(batch, maxKeySize) && HeightAll(batch.body) == 0 && buffers >= |Compile([batch])|
    ensures AllKeysFit([batch], maxKeySize) && Plan(maxKeySize, Compile([batch]), Place(0, buffers)).Some?
  {
    hide Compile, Plan, KeysFit, Head, Known, ValidOp;
    CompileOne(batch);
    BlockPlan(batch, maxKeySize, Place(0, buffers));
    HeadFields(batch, maxKeySize);
    assert [END_BLOCK][1..] == [];
    NestedIsRoomy(batch.body, [END_BLOCK], maxKeySize, 0, 0);
    assert Compile([batch]) == [Head(batch)] + (Compile(batch.body) + [END_BLOCK]);
    RoomyHead(maxKeySize, Head(batch), Compile(batch.body) + [END_BLOCK], 0);
    RoomyIsLaidOut(maxKeySize, Compile([batch]), Place(0, buffers), 0);
  }
}
