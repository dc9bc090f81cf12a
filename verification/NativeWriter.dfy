/** The loop of `DoWrites` over shared memory: parse, execute, mark the flag word, follow pointers,
    and at the first unpublished word either end the transaction or wait. */
module NativeWriter {
  import FlagWord
  import opened MachineWords
  import opened InstructionCodec
  import opened InstructionChain
  import opened Interpreter

  // ------------------------------------------------------------ status bits

  /** FINISHED_OPERATION, and perhaps FAILED_CONDITION, or-ed into a status byte. */
  function SetStatus(status: nat, failed: bool): (r: nat)
    requires status < 0x100
    ensures r < 0x100
  {
    var one := if status % 2 == 0 then status + 1 else status;
    if failed && one / 4 % 2 == 0 then one + 4 else one
  }

  /** Or-ing in the outcome sets those two bits and no other; a failed bit already there stays. */
  lemma SetStatusReads(finished: nat, waiting: nat, failed: nat, high: nat, fails: bool)
    requires finished < 2 && waiting < 2 && failed < 2 && high < 0x20
    ensures SetStatus(finished + 2 * waiting + 4 * failed + 8 * high, fails)
            == 1 + 2 * waiting + 4 * (if fails then 1 else failed) + 8 * high
  {
  }

  /** The status byte after or-ing in what `Exec` reports. */
  function MarkStatus(status: nat, m: Mark): (r: nat)
    requires status < 0x100
    ensures r < 0x100
  {
    if m.Unmarked? then status else SetStatus(status, m.failed)
  }

  function Marked(log: seq<Entry>, marks: seq<Mark>): (r: seq<Entry>)
    requires |marks| <= |log| && forall e <- log :: e.status < 0x100
    ensures |r| == |log|
  {
    seq(|log|, k requires 0 <= k < |log| =>
      if k < |marks| then log[k].(status := MarkStatus(log[k].status, marks[k])) else log[k])
  }

  datatype Outcome = Committed | Waiting

  /** The flag word the worker leaves at the first unpublished instruction. */
  function EndWord(o: Outcome): word { if o.Committed? then 0x800_0000 else 0x200_0000 }

  /** Callbacks leave `finishedProgress` unset, unless they keep strict order: then the worker has
      waited for them before going on. */
  function Progress(code: seq<Instr>, marks: seq<Mark>, finished: bool): bool
    requires |code| == |marks|
  {
    if code == [] then finished
    else
      Progress(code[1..], marks[1..],
        if code[0].flags.op == USER_CALLBACK && marks[0] == Finished(false) then code[0].flags.compressible
        else finished)
  }

  predicate AllKnown(log: seq<Entry>) { forall e <- log :: Known(e.instr) }

  /** A published stream in memory: entries laid out one after the other, then an unpublished word. */
  ghost predicate Stream(m: Memory, log: seq<Entry>, start: nat, end: nat) {
    && ChainLaid(m, log) && AllApart(log) && Linked(log, start, end) && AllPublished(log) && AllKnown(log)
    && QuietAt(m, end)
    && (forall e <- log :: ExtentEnd(e) <= end || end < e.addr)
  }

  lemma MarkInPlace(m: Memory, m': Memory, e: Entry, status: nat)
    requires ValidEntry(e) && Laid(m, e) && e.published && status < 0x100
    requires Same(m, m', e.addr, e.addr + 1)
    requires Read(m', e.addr) == FlagBits(e.instr.flags) + status * 0x100_0000
    ensures ValidEntry(e.(status := status)) && Laid(m', e.(status := status))
  {
    hide Read, FlagBits;
    BodyPreserved(m, m', e.addr, e.instr);
  }

  lemma StreamMarked(m: Memory, m': Memory, log: seq<Entry>, start: nat, end: nat, k: nat, status: nat)
    requires Stream(m, log, start, end) && k < |log| && status < 0x100
    requires Same(m, m', log[k].addr, log[k].addr + 1)
    requires Read(m', log[k].addr) == FlagBits(log[k].instr.flags) + status * 0x100_0000
    ensures Stream(m', log[k := log[k].(status := status)], start, end)
  {
    hide Laid, ValidEntry, ExtentEnd, Read, FlagBits, Known;
    var e := log[k].(status := status);
    assert ValidEntry(log[k]) && Laid(m, log[k]);
    MarkInPlace(m, m', log[k], status);
    OthersPreserved(m, m', log, k, e);
    LinkedUpdate(log, start, end, k, e);
    ExtentAlike(e, log[k]);
    assert log[k] in log;
    assert QuietAt(m', end);
  }

  lemma StreamEnded(m: Memory, m': Memory, log: seq<Entry>, start: nat, end: nat)
    requires Stream(m, log, start, end) && Same(m, m', end, end + 1) && QuietAt(m', end)
    ensures Stream(m', log, start, end)
  {
    hide Laid, ValidEntry, ExtentEnd, Read, Known, Linked, AllApart, QuietAt;
    forall k | 0 <= k < |log| ensures Laid(m', log[k]) {
      assert log[k] in log && ValidEntry(log[k]) && Laid(m, log[k]);
      LaidPreserved(m, m', log[k]);
    }
  }

  lemma {:induction false} LinkedAt(log: seq<Entry>, start: nat, end: nat, k: nat)
    requires Linked(log, start, end) && k < |log|
    ensures log[k].next == if k + 1 < |log| then log[k + 1].addr else end
    ensures log[0].addr == start
  {
    if k > 0 {
      LinkedAt(log[1..], log[0].next, end, k - 1);
    } else if |log| > 1 {
      assert Linked(log[1..], log[0].next, end);
    }
  }

  // ----------------------------------------------------------- the executor

  /** The conditions and the `switch` of the loop body. */
  method Execute(w: World, i: Instr, db: Store, conditionDepth: int, validatedDepth: int)
    returns (db': Store, conditionDepth': int, validatedDepth': int, mark: Mark)
    requires Known(i)
    ensures (Machine(db', conditionDepth', validatedDepth'), mark)
            == Exec(w, i, Machine(db, conditionDepth, validatedDepth))
    ensures Obeys(w, i, conditionDepth == validatedDepth, db, db', mark)
  {
    hide SameDouble, VersionOf, VersionBytes, Obeys;
    ExecObeys(w, i, Machine(db, conditionDepth, validatedDepth));
    db', conditionDepth', validatedDepth' := db, conditionDepth, validatedDepth;
    var failed := false;
    var validated := conditionDepth == validatedDepth;
    if i.flags.HasKey() {
      if i.flags.conditionalVersion {
        if (i.dbi, i.key) in db {
          validated := validated && SameDouble(i.ifVersion.value, VersionOf(db[(i.dbi, i.key)]));
        } else {
          validated := false;
        }
      }
      if i.flags.ifNoExists {
        validated := validated && (i.dbi, i.key) !in db;
      }
    }
    if !(validated || !i.flags.Conditional()) {
      return db', conditionDepth', validatedDepth', Finished(true);
    }
    if i.flags.op == BLOCK_END {
      conditionDepth' := conditionDepth - 1;
      if validatedDepth > conditionDepth' {
        validatedDepth' := validatedDepth - 1;
      }
      return db', conditionDepth', validatedDepth', Unmarked;
    } else if i.flags.op == START_BLOCK || i.flags.op == START_CONDITION_BLOCK {
      failed := !validated;
      if validated {
        validatedDepth' := validatedDepth + 1;
      }
      conditionDepth' := conditionDepth + 1;
    } else {
      var r := Perform(w, i, db);
      db', failed := r.0, r.1;
    }
    return db', conditionDepth', validatedDepth', Finished(failed);
  }

  /** The publish protocol's kinds are those of the `switch`: an instruction reports a status exactly if its
      kind has one, and moves the nesting depth by its kind's part. */
  lemma KindsAgree(w: World, i: Instr, s: Machine)
    requires Known(i)
    ensures var op := FlagWord.OpOf(i.flags.op as bv32);
            && op.Published? && op.kind != FlagWord.Jump
            && (FlagWord.HasStatus(op.kind) <==> Exec(w, i, s).1.Finished?)
            && Exec(w, i, s).0.conditionDepth == s.conditionDepth + FlagWord.Delta(op.kind)
            && (op.kind == FlagWord.Callback <==> i.flags.op == USER_CALLBACK)
  {
    hide OwnCondition, Perform;
  }

  // --------------------------------------------------- the loop's bookkeeping

  /** Where the loop stands: at the flag word of entry `k`, at a pointer instruction after the entry
      before it, or at the end. */
  ghost predicate Position(now: seq<Entry>, end: nat, k: nat, jumping: bool, at: nat) {
    && k <= |now|
    && (jumping ==> k > 0 && now[k - 1].next != Stop(now[k - 1]))
    && at == if jumping then Stop(now[k - 1]) else Arrival(now, end, k)
  }

  ghost function Arrival(now: seq<Entry>, end: nat, k: nat): nat { if k < |now| then now[k].addr else end }

  lemma ParseAt(m: Memory, now: seq<Entry>, start: nat, end: nat, k: nat, jumping: bool, at: nat)
    requires Stream(m, now, start, end) && Position(now, end, k, jumping, at)
    ensures jumping ==> Decode(m, at).instr.flags.op == POINTER_NEXT && JumpTarget(m, at) == Arrival(now, end, k)
    ensures !jumping && k < |now| ==>
              && Decode(m, at) == Parsed(now[k].instr, Stop(now[k])) && Known(now[k].instr)
              && now[k].instr.flags.op != POINTER_NEXT && now[k].instr.flags.op != NO_INSTRUCTION
    ensures !jumping && k == |now| ==> Decode(m, at).instr.flags.op == NO_INSTRUCTION
  {
    hide Decode, JumpTarget, Laid, Linked, AllApart, Known, ExtentEnd, Stop, FlagBits, ParseFlags;
    if jumping {
      LinkedAt(now, start, end, k - 1);
      LaidJump(m, now[k - 1]);
      JumpRoundTrip(m, at, now[k - 1].next);
    } else if k < |now| {
      assert now[k] in now && ValidEntry(now[k]);
      DecodesEntry(m, now[k]);
    } else {
      QuietOp(m, end);
      DecodeOp(m, at);
    }
  }

  lemma LaidJump(m: Memory, e: Entry)
    requires ValidEntry(e) && Laid(m, e) && e.next != Stop(e)
    ensures JumpLaid(m, Stop(e), e.next)
  {
  }

  lemma DecodeOp(m: Memory, a: nat)
    ensures Decode(m, a).instr.flags == ParseFlags(Read(m, a))
  {
    hide ParseFlags, Read;
  }

  /** After an entry the loop stands at the next one or at the pointer leading there. */
  lemma Advance(m: Memory, now: seq<Entry>, start: nat, end: nat, k: nat)
    requires Stream(m, now, start, end) && k < |now|
    ensures Position(now, end, k + 1, now[k].next != Stop(now[k]), Stop(now[k]))
  {
    hide Laid, Linked, AllApart, Known, ExtentEnd, Stop, ValidEntry;
    LinkedAt(now, start, end, k);
  }

  /** What is done and what remains make up the whole run. */
  ghost predicate Remaining(w: World, code: seq<Instr>, s0: Machine, p0: bool, marks: seq<Mark>, s: Machine, p: bool)
    requires forall i <- code :: Known(i)
  {
    && |marks| <= |code|
    && var whole := Run(w, code, s0);
       var rest := Run(w, code[|marks|..], s);
       && whole == (rest.0, marks + rest.1)
       && Progress(code, whole.1, p0) == Progress(code[|marks|..], rest.1, p)
  }

  lemma RemainingStep(w: World, code: seq<Instr>, s0: Machine, p0: bool, marks: seq<Mark>, s: Machine, p: bool,
                      s': Machine, mark: Mark, p': bool)
    requires forall i <- code :: Known(i)
    requires Remaining(w, code, s0, p0, marks, s, p) && |marks| < |code|
    requires (s', mark) == Exec(w, code[|marks|], s)
    requires p' == if code[|marks|].flags.op == USER_CALLBACK && mark == Finished(false)
                   then code[|marks|].flags.compressible else p
    ensures Remaining(w, code, s0, p0, marks + [mark], s', p')
  {
    hide Exec, Known;
    var k := |marks|;
    assert code[k..][0] == code[k] && code[k..][1..] == code[k + 1..];
    assert marks + ([mark] + Run(w, code[k + 1..], s').1) == marks + [mark] + Run(w, code[k + 1..], s').1;
  }

  lemma MarkedStep(log: seq<Entry>, marks: seq<Mark>, mark: Mark)
    requires |marks| < |log| && forall e <- log :: e.status < 0x100
    ensures var now, k := Marked(log, marks), |marks|;
            && now[k] == log[k]
            && now[k := now[k].(status := MarkStatus(log[k].status, mark))] == Marked(log, marks + [mark])
  {
  }

  lemma StatusParts(m: Memory, e: Entry)
    requires ValidEntry(e) && Laid(m, e) && e.published
    ensures Read(m, e.addr) % 0x100_0000 == FlagBits(e.instr.flags) && Read(m, e.addr) / 0x100_0000 == e.status
  {
    hide BodyLaid, JumpLaid, Stop, FlagBits, ParseFlags, Read;
    FlagsRoundTrip(e.instr.flags, e.status);
    WordParts(FlagBits(e.instr.flags), e.status);
  }

  lemma WordParts(low: nat, high: nat)
    requires low < 0x100_0000
    ensures (low + high * 0x100_0000) % 0x100_0000 == low && (low + high * 0x100_0000) / 0x100_0000 == high
  {
  }

  /** The whole effect of or-ing a mark into the flag word of entry `k`. */
  lemma StepMemory(m: Memory, m': Memory, log: seq<Entry>, start: nat, end: nat, marks: seq<Mark>, mark: Mark)
    requires |marks| < |log| && forall e <- log :: e.status < 0x100
    requires Stream(m, Marked(log, marks), start, end)
    requires var a := log[|marks|].addr;
             Same(m, m', a, a + 1) && Read(m, a) / 0x100_0000 < 0x100
             && Read(m', a) == Read(m, a) % 0x100_0000 + MarkStatus(Read(m, a) / 0x100_0000, mark) * 0x100_0000
    ensures Stream(m', Marked(log, marks + [mark]), start, end)
  {
    hide Laid, Linked, AllApart, Known, ExtentEnd, Stop, ValidEntry, Read, MarkStatus, Marked, Stream, Same;
    var now, k := Marked(log, marks), |marks|;
    MarkedStep(log, marks, mark);
    StreamEntry(m, now, start, end, k);
    StatusParts(m, now[k]);
    StreamMarked(m, m', now, start, end, k, MarkStatus(log[k].status, mark));
  }

  lemma StreamEntry(m: Memory, now: seq<Entry>, start: nat, end: nat, k: nat)
    requires Stream(m, now, start, end) && k < |now|
    ensures ValidEntry(now[k]) && Laid(m, now[k]) && now[k].published
  {
  }

  lemma MarkedNothing(log: seq<Entry>)
    requires forall e <- log :: e.status < 0x100
    ensures Marked(log, []) == log
  {
  }

  lemma BeginLoop(w: World, m: Memory, log: seq<Entry>, start: nat, end: nat, s0: Machine, p0: bool)
    requires Stream(m, log, start, end)
    ensures (forall e <- log :: e.status < 0x100) && (forall i <- Instrs(log) :: Known(i)) && |Instrs(log)| == |log|
    ensures Stream(m, Marked(log, []), start, end) && Position(Marked(log, []), end, 0, false, start)
    ensures Remaining(w, Instrs(log), s0, p0, [], s0, p0)
  {
    hide Laid, AllApart, Known, ExtentEnd, Stop, Read, Run, Progress;
    forall e | e in log ensures e.status < 0x100 {
      var k :| 0 <= k < |log| && log[k] == e;
      assert ValidEntry(log[k]);
    }
    MarkedNothing(log);
    var code := Instrs(log);
    assert code[0..] == code && [] + Run(w, code, s0).1 == Run(w, code, s0).1;
    if log != [] {
      LinkedAt(log, start, end, 0);
    }
  }

  lemma EndLoop(w: World, m: Memory, m': Memory, log: seq<Entry>, start: nat, end: nat, code: seq<Instr>,
                s0: Machine, p0: bool, marks: seq<Mark>, s: Machine, p: bool, o: Outcome)
    requires (forall e <- log :: e.status < 0x100) && (forall i <- code :: Known(i)) && |code| == |log| == |marks|
    requires Stream(m, Marked(log, marks), start, end) && Remaining(w, code, s0, p0, marks, s, p)
    requires Same(m, m', end, end + 1) && Read(m', end) == EndWord(o)
    ensures Run(w, code, s0) == (s, marks) && Progress(code, marks, p0) == p
    ensures Stream(m', Marked(log, marks), start, end)
  {
    hide Laid, Linked, AllApart, Known, ExtentEnd, Stop, ValidEntry, Read, Stream, Same, Marked;
    assert code[|marks|..] == [];
    assert marks + [] == marks;
    assert QuietAt(m', end);
    StreamEnded(m, m', Marked(log, marks), start, end);
  }

  lemma StepLoop(w: World, m: Memory, m': Memory, log: seq<Entry>, start: nat, end: nat, code: seq<Instr>,
                 s0: Machine, p0: bool, marks: seq<Mark>, s: Machine, p: bool, s': Machine, p': bool, mark: Mark)
    requires (forall e <- log :: e.status < 0x100) && (forall i <- code :: Known(i))
    requires code == Instrs(log) && |marks| < |log|
    requires Stream(m, Marked(log, marks), start, end) && Remaining(w, code, s0, p0, marks, s, p)
    requires (s', mark) == Exec(w, code[|marks|], s)
    requires p' == if code[|marks|].flags.op == USER_CALLBACK && mark == Finished(false)
                   then code[|marks|].flags.compressible else p
    requires var a := log[|marks|].addr;
             && Same(m, m', a, a + 1) && Read(m, a) / 0x100_0000 < 0x100
             && Read(m', a) == Read(m, a) % 0x100_0000 + MarkStatus(Read(m, a) / 0x100_0000, mark) * 0x100_0000
    ensures Stream(m', Marked(log, marks + [mark]), start, end)
    ensures Remaining(w, code, s0, p0, marks + [mark], s', p')
    ensures var now, k := Marked(log, marks), |marks|;
            Position(Marked(log, marks + [mark]), end, k + 1, now[k].next != Stop(now[k]), Stop(now[k]))
  {
    hide Laid, Linked, AllApart, Known, ExtentEnd, Stop, ValidEntry, Read, Stream, Same, Marked, Remaining,
         Exec, MarkStatus;
    RemainingStep(w, code, s0, p0, marks, s, p, s', mark, p');
    StepMemory(m, m', log, start, end, marks, mark);
    var now, k := Marked(log, marks), |marks|;
    var next := Marked(log, marks + [mark]);
    MarkedStep(log, marks, mark);
    Advance(m', next, start, end, k);
    StopAlike(now[k], next[k]);
  }

  lemma StopAlike(e: Entry, f: Entry)
    requires e.addr == f.addr && e.instr == f.instr
    ensures Stop(e) == Stop(f)
  {
  }

  /** The entry the loop is about to execute is the one in the log, its flag word as marked so far. */
  lemma EntryAlike(log: seq<Entry>, marks: seq<Mark>)
    requires |marks| < |log| && forall e <- log :: e.status < 0x100
    ensures Marked(log, marks)[|marks|] == log[|marks|] && Instrs(log)[|marks|] == log[|marks|].instr
  {
  }

  class Worker {
    var mem: Memory
    var db: Store
    var finishedProgress: bool
    var instructions: nat

    /** Runs the stream from `start` until the first unpublished word at `end`. Every instruction has
        been executed once, in order, with the meaning of `Run`; every flag word carries its mark and
        keeps its other bits; and the word at `end` says whether the worker is done or waits. */
    method DoWrites(w: World, start: nat, ghost log: seq<Entry>, ghost end: nat) returns (outcome: Outcome)
      requires Stream(mem, log, start, end)
      modifies this
      ensures var (s, marks) := Run(w, Instrs(log), Machine(old(db), 0, 0));
              && db == s.db
              && |marks| == |log| && Stream(mem, Marked(log, marks), start, end)
              && finishedProgress == Progress(Instrs(log), marks, old(finishedProgress))
              && (outcome.Committed? <==> finishedProgress && s.conditionDepth == 0)
      ensures Read(mem, end) == EndWord(outcome)
      ensures outcome.Committed? ==> instructions == end
    {
      hide Stream, Exec, Known, Decode, JumpTarget, Read, Stop, MarkStatus, Same, Marked, Run, Progress, Instrs,
           Remaining, SetWord;
      var at := start;
      var conditionDepth, validatedDepth := 0, 0;
      ghost var code, s0, p0 := Instrs(log), Machine(db, 0, 0), finishedProgress;
      ghost var marks: seq<Mark>, jumping := [], false;
      BeginLoop(w, mem, log, start, end, s0, p0);
      while true
        invariant |marks| <= |log| && Stream(mem, Marked(log, marks), start, end)
        invariant Position(Marked(log, marks), end, |marks|, jumping, at)
        invariant Remaining(w, code, s0, p0, marks, Machine(db, conditionDepth, validatedDepth), finishedProgress)
        decreases |log| - |marks|, if jumping then 1 else 0
      {
        ghost var now, was, s := Marked(log, marks), mem, Machine(db, conditionDepth, validatedDepth);
        ghost var p := finishedProgress;
        ParseAt(mem, now, start, end, |marks|, jumping, at);
        if |marks| < |log| {
          EntryAlike(log, marks);
        }
        var d := Decode(mem, at);
        if d.instr.flags.op == POINTER_NEXT {
          at := JumpTarget(mem, at);
          jumping := false;
        } else if d.instr.flags.op == NO_INSTRUCTION {
          if !finishedProgress || conditionDepth != 0 {
            mem := SetWord(mem, at, 0x200_0000);
            outcome := Waiting;
          } else {
            mem := SetWord(mem, at, 0x800_0000);
            instructions := at;
            outcome := Committed;
          }
          EndLoop(w, was, mem, log, start, end, code, s0, p0, marks, Machine(db, conditionDepth, validatedDepth),
                  finishedProgress, outcome);
          return;
        } else {
          var mark;
          db, conditionDepth, validatedDepth, mark := Execute(w, d.instr, db, conditionDepth, validatedDepth);
          if d.instr.flags.op == USER_CALLBACK && mark == Finished(false) {
            finishedProgress := d.instr.flags.compressible;
          }
          var flags := Read(mem, at);
          mem := SetWord(mem, at, flags % 0x100_0000 + MarkStatus(flags / 0x100_0000, mark) * 0x100_0000);
          StepLoop(w, was, mem, log, start, end, code, s0, p0, marks, s, p,
                   Machine(db, conditionDepth, validatedDepth), finishedProgress, mark);
          at := d.next;
          jumping := now[|marks|].next != at;
          marks := marks + [mark];
        }
      }
    }
  }
}
