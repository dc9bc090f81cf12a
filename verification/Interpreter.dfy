/** What `DoWrites` makes of one decoded instruction, with its two nesting counters, against the
    plain reading of nested conditional blocks as a stack of outcomes. */
module Interpreter {
  import opened Options
  import opened MachineWords
  import opened InstructionCodec

  /** Each database number and key maps to its stored record. */
  type Store = map<(word, Bytes), Bytes>

  /** The bytes at an address, and what a put that looked its own condition up stores: that lookup
      reuses the variable holding the value, so the stored bytes are left open. */
  datatype World = World(load: (nat, nat) -> Bytes, reused: (Instr, Bytes) -> Bytes)

  // --------------------------------------------------------------- versions

  /** Equality of two doubles given by their bits: NaN equals nothing, the zeros equal each other. */
  predicate SameDouble(a: nat, b: nat) {
    !IsNaN(a) && !IsNaN(b) && (a == b || (IsZero(a) && IsZero(b)))
  }

  predicate IsNaN(bits: nat) {
    bits / 0x10_0000_0000_0000 % 0x800 == 0x7FF && bits % 0x10_0000_0000_0000 != 0
  }

  predicate IsZero(bits: nat) { bits == 0 || bits == 0x8000_0000_0000_0000 }

  /** The eight bytes `putWithVersion` puts in front of a value. */
  function VersionBytes(bits: nat): (b: Bytes)
    requires bits < DOUBLE_LIMIT
    ensures |b| == 8
  {
    var lo, hi := Lo(bits), Hi(bits);
    [ByteOf(lo, 0), ByteOf(lo, 1), ByteOf(lo, 2), ByteOf(lo, 3),
     ByteOf(hi, 0), ByteOf(hi, 1), ByteOf(hi, 2), ByteOf(hi, 3)]
  }

  /** The double read from the front of a record. */
  function VersionOf(record: Bytes): nat { Join(PackedWord(record, 0), PackedWord(record, 1)) }

  lemma WordOfBytes(w: word)
    ensures ByteOf(w, 0) as int + 0x100 * ByteOf(w, 1) as int + 0x1_0000 * ByteOf(w, 2) as int
            + 0x100_0000 * ByteOf(w, 3) as int == w
  {
    var q1, q2, q3 := w / 0x100, w / 0x100 / 0x100, w / 0x100 / 0x100 / 0x100;
    QuotientUnique(w, q2, q1 % 0x100 * 0x100 + w % 0x100, 0x1_0000);
    QuotientUnique(w, q3, q2 % 0x100 * 0x1_0000 + q1 % 0x100 * 0x100 + w % 0x100, 0x100_0000);
  }

  lemma VersionReadsBack(bits: nat, rest: Bytes)
    requires bits < DOUBLE_LIMIT
    ensures VersionOf(VersionBytes(bits) + rest) == bits
  {
    JoinSplit(bits);
    WordOfBytes(Lo(bits));
    WordOfBytes(Hi(bits));
    var record := VersionBytes(bits) + rest;
    assert PackedWord(record, 0) == Lo(bits);
    assert PackedWord(record, 1) == Hi(bits);
  }

  // ------------------------------------------------------------ instructions

  /** The operations the encoder emits, without the put options that need an order or duplicates. */
  predicate Known(i: Instr) {
    && ValidInstr(i)
    && i.flags.op in {START_BLOCK, BLOCK_END, START_CONDITION_BLOCK, USER_CALLBACK, DROP_DB, DEL, DEL_VALUE, PUT}
    && !i.flags.noDupData && !i.flags.append
  }

  predicate Starts(i: Instr) { i.flags.op == START_BLOCK || i.flags.op == START_CONDITION_BLOCK }

  /** The instruction's own condition, read off the database as it stands. */
  predicate OwnCondition(i: Instr, db: Store)
    requires ValidInstr(i)
  {
    && (i.ifVersion.Some? ==> (i.dbi, i.key) in db && SameDouble(i.ifVersion.value, VersionOf(db[(i.dbi, i.key)])))
    && (i.flags.HasKey() && i.flags.ifNoExists ==> (i.dbi, i.key) !in db)
  }

  function Payload(w: World, i: Instr, db: Store): Bytes
    requires ValidInstr(i) && i.value.Some?
  {
    if i.ifVersion.Some? && (i.dbi, i.key) in db then w.reused(i, db[(i.dbi, i.key)])
    else w.load(i.value.value.address, i.value.value.size)
  }

  function Record(w: World, i: Instr, db: Store): Bytes
    requires ValidInstr(i) && i.value.Some?
  {
    if i.version.Some? then VersionBytes(i.version.value) + Payload(w, i, db) else Payload(w, i, db)
  }

  function Without(db: Store, dbi: word): Store { map k | k in db && k.0 != dbi :: db[k] }

  /** The database after a keyed operation, and whether it reported "not found" or "exists". */
  function Perform(w: World, i: Instr, db: Store): (Store, bool)
    requires Known(i)
  {
    if i.flags.op == PUT then
      if i.version.None? && i.flags.ifNoExists && (i.dbi, i.key) in db then (db, true)
      else (db[(i.dbi, i.key) := Record(w, i, db)], false)
    else if i.flags.op == DEL then (db - {(i.dbi, i.key)}, (i.dbi, i.key) !in db)
    else if i.flags.op == DEL_VALUE then
      if (i.dbi, i.key) in db && db[(i.dbi, i.key)] == Payload(w, i, db) then (db - {(i.dbi, i.key)}, false)
      else (db, true)
    else if i.flags.op == DROP_DB then (Without(db, i.dbi), false)
    else (db, false)
  }

  /** An operation touches its own record only, or the records of the database it empties. */
  lemma OthersUntouched(w: World, i: Instr, db: Store, dbi: word, key: Bytes)
    requires Known(i)
    requires (dbi, key) != (i.dbi, i.key) && (i.flags.op == DROP_DB ==> dbi != i.dbi)
    ensures (dbi, key) in Perform(w, i, db).0 <==> (dbi, key) in db
    ensures (dbi, key) in db ==> Perform(w, i, db).0[(dbi, key)] == db[(dbi, key)]
  {
  }

  /** After a put with a version, a condition on that key holds exactly for that version. */
  lemma VersionPutIsVersionTested(w: World, put: Instr, db: Store, test: Instr)
    requires Known(put) && put.flags.op == PUT && put.version.Some?
    requires Known(test) && test.ifVersion.Some? && !test.flags.ifNoExists
    requires test.dbi == put.dbi && test.key == put.key
    ensures OwnCondition(test, Perform(w, put, db).0) <==> SameDouble(test.ifVersion.value, put.version.value)
  {
    VersionReadsBack(put.version.value, Payload(w, put, db));
  }

  // ------------------------------------------------- the counters of DoWrites

  datatype Machine = Machine(db: Store, conditionDepth: int, validatedDepth: int)

  /** What is or-ed into the flag word: nothing for the end of a block, else finished and perhaps failed. */
  datatype Mark = Unmarked | Finished(failed: bool)

  /** One pass of the executing half of the `DoWrites` loop. */
  function Exec(w: World, i: Instr, s: Machine): (Machine, Mark)
    requires Known(i)
  {
    var validated := s.conditionDepth == s.validatedDepth && OwnCondition(i, s.db);
    if i.flags.Conditional() && !validated then (s, Finished(true))
    else if i.flags.op == BLOCK_END then
      var depth := s.conditionDepth - 1;
      (s.(conditionDepth := depth,
          validatedDepth := if s.validatedDepth > depth then s.validatedDepth - 1 else s.validatedDepth),
       Unmarked)
    else if Starts(i) then
      (s.(conditionDepth := s.conditionDepth + 1,
          validatedDepth := if validated then s.validatedDepth + 1 else s.validatedDepth),
       Finished(!validated))
    else
      var r := Perform(w, i, s.db);
      (s.(db := r.0), Finished(r.1))
  }

  // ------------------------------------------ one instruction, record by record

  /** The blocks around the instruction hold, a version it asks for is the one stored under its key, and a
      key it asks to be absent is absent. */
  predicate Entitled(i: Instr, holding: bool, db: Store) {
    && holding
    && (i.ifVersion.Some? ==>
          (i.dbi, i.key) in db && SameDouble(i.ifVersion.value, VersionOf(db[(i.dbi, i.key)])))
    && (i.flags.HasKey() && i.flags.ifNoExists ==> (i.dbi, i.key) !in db)
  }

  /** The value an instruction brings, unless its own lookup has reused the variable. */
  ghost predicate Brings(w: World, i: Instr, db: Store, value: Bytes) {
    i.value.Some? && (i.ifVersion.None? ==> value == w.load(i.value.value.address, i.value.value.size))
    && (i.ifVersion.Some? && (i.dbi, i.key) in db ==> value == w.reused(i, db[(i.dbi, i.key)]))
  }

  /** A stored record: the bare value, or the value behind eight bytes that read as the version. */
  predicate Holds(record: Bytes, version: Option<nat>, value: Bytes) {
    if version.None? then record == value
    else |record| == 8 + |value| && VersionOf(record) == version.value && record[8..] == value
  }

  /** Nothing but the record under the instruction's own key may differ. */
  predicate Elsewhere(i: Instr, db: Store, db': Store) {
    && (forall k <- db' :: k != (i.dbi, i.key) ==> k in db)
    && (forall k <- db :: k != (i.dbi, i.key) ==> k in db' && db'[k] == db[k])
  }

  /** What an instruction the writer meets makes of the database, looked up record by record, and what it
      reports: `holding` says whether every block around it holds. */
  ghost predicate Obeys(w: World, i: Instr, holding: bool, db: Store, db': Store, mark: Mark) {
    var key := (i.dbi, i.key);
    if i.flags.op == BLOCK_END then db' == db && mark.Unmarked?
    else if !Entitled(i, holding, db) then db' == db && mark == Finished(true)
    else if i.flags.op == PUT then
      && mark == Finished(false) && Elsewhere(i, db, db')
      && key in db' && exists value :: Brings(w, i, db, value) && Holds(db'[key], i.version, value)
    else if i.flags.op == DEL then
      mark == Finished(key !in db) && key !in db' && Elsewhere(i, db, db')
    else if i.flags.op == DEL_VALUE then
      exists value :: Brings(w, i, db, value) &&
        if key in db && db[key] == value then mark == Finished(false) && key !in db' && Elsewhere(i, db, db')
        else mark == Finished(true) && db' == db
    else if i.flags.op == DROP_DB then
      && mark == Finished(false)
      && (forall k <- db' :: k.0 != i.dbi)
      && (forall k :: k in db && k.0 != i.dbi <==> k in db')
      && (forall k <- db' :: db'[k] == db[k])
    else db' == db && mark == Finished(false)
  }

  /** Every pass of the loop obeys that, so in particular a put without version or condition stores exactly
      the bytes it points to, and one with no-overwrite leaves a record that is there alone. */
  lemma ExecObeys(w: World, i: Instr, s: Machine)
    requires Known(i)
    ensures Obeys(w, i, s.conditionDepth == s.validatedDepth, s.db, Exec(w, i, s).0.db, Exec(w, i, s).1)
  {
    hide SameDouble, VersionOf, VersionBytes;
    var holding := s.conditionDepth == s.validatedDepth;
    EntitledOwn(i, holding, s.db);
    if i.flags.op == PUT || i.flags.op == DEL_VALUE {
      var value := Payload(w, i, s.db);
      if Entitled(i, holding, s.db) {
        assert Brings(w, i, s.db, value);
      }
      if i.version.Some? {
        VersionReadsBack(i.version.value, value);
        assert Holds(VersionBytes(i.version.value) + value, i.version, value);
      }
    }
  }

  lemma EntitledOwn(i: Instr, holding: bool, db: Store)
    requires ValidInstr(i)
    ensures Entitled(i, holding, db) == (holding && OwnCondition(i, db))
  {
  }

  function Run(w: World, code: seq<Instr>, s: Machine): (r: (Machine, seq<Mark>))
    requires forall i <- code :: Known(i)
    ensures |r.1| == |code|
  {
    if code == [] then (s, [])
    else
      var one := Exec(w, code[0], s);
      var rest := Run(w, code[1..], one.0);
      (rest.0, [one.1] + rest.1)
  }

  /** In a whole stream every instruction obeys that, on the database its predecessors left. */
  lemma {:induction false} RunObeys(w: World, code: seq<Instr>, s: Machine, k: nat)
    requires (forall i <- code :: Known(i)) && k < |code|
    ensures var before, after := Run(w, code[..k], s).0, Run(w, code[..k + 1], s).0;
            Obeys(w, code[k], before.conditionDepth == before.validatedDepth, before.db, after.db,
                  Run(w, code, s).1[k])
  {
    hide Exec, Known, Obeys;
    if k == 0 {
      assert code[..1][1..] == [];
      ExecObeys(w, code[0], s);
    } else {
      RunObeys(w, code[1..], Exec(w, code[0], s).0, k - 1);
      assert code[..k][1..] == code[1..][..k - 1] && code[..k + 1][1..] == code[1..][..k];
    }
  }

  // --------------------------------------------------- the stack of outcomes

  predicate AllTrue(stack: seq<bool>) { forall k :: 0 <= k < |stack| ==> stack[k] }

  function LongestTruePrefix(stack: seq<bool>): (n: nat)
    ensures n <= |stack|
  {
    if stack == [] || !stack[0] then 0 else 1 + LongestTruePrefix(stack[1..])
  }

  /** The independent meaning of an instruction: blocks push the outcome of their own condition, and an
      operation runs when every outcome on the stack is true and its own condition holds. */
  function Step(w: World, i: Instr, db: Store, stack: seq<bool>): (Store, seq<bool>, Mark)
    requires Known(i) && (i.flags.op == BLOCK_END ==> stack != [])
  {
    if i.flags.op == BLOCK_END then (db, stack[..|stack| - 1], Unmarked)
    else if Starts(i) then
      (db, stack + [OwnCondition(i, db)], Finished(!AllTrue(stack + [OwnCondition(i, db)])))
    else if AllTrue(stack) && OwnCondition(i, db) then
      var r := Perform(w, i, db);
      (r.0, stack, Finished(r.1))
    else (db, stack, Finished(true))
  }

  lemma {:induction false} FullPrefix(stack: seq<bool>)
    ensures LongestTruePrefix(stack) == |stack| <==> AllTrue(stack)
  {
    if stack != [] {
      FullPrefix(stack[1..]);
      if AllTrue(stack[1..]) && stack[0] {
        forall k | 0 <= k < |stack| ensures stack[k] {
          if k > 0 {
            assert stack[k] == stack[1..][k - 1];
          }
        }
      }
    }
  }

  lemma {:induction false} PrefixPush(stack: seq<bool>, b: bool)
    ensures LongestTruePrefix(stack + [b]) == if b && AllTrue(stack) then |stack| + 1 else LongestTruePrefix(stack)
  {
    if stack == [] {
      assert (stack + [b])[1..] == [];
    } else {
      assert (stack + [b])[1..] == stack[1..] + [b];
      PrefixPush(stack[1..], b);
      FullPrefix(stack);
      FullPrefix(stack[1..]);
    }
  }

  /** The counters say: how many blocks are open, and how many of the outermost ones hold. */
  predicate Counts(s: Machine, db: Store, stack: seq<bool>) {
    s == Machine(db, |stack|, LongestTruePrefix(stack))
  }

  /** One instruction: the counters follow the stack, database and mark agree. */
  lemma ExecRefinesStep(w: World, i: Instr, s: Machine, db: Store, stack: seq<bool>)
    requires Known(i) && Counts(s, db, stack) && (i.flags.op == BLOCK_END ==> stack != [])
    ensures var (db', stack', mark) := Step(w, i, db, stack);
            Counts(Exec(w, i, s).0, db', stack') && Exec(w, i, s).1 == mark
  {
    hide OwnCondition, Perform, LongestTruePrefix, ValidInstr;
    FullPrefix(stack);
    if i.flags.op == BLOCK_END {
      var n := |stack| - 1;
      assert stack == stack[..n] + [stack[n]];
      PrefixPush(stack[..n], stack[n]);
      FullPrefix(stack[..n]);
    } else if Starts(i) {
      PrefixPush(stack, OwnCondition(i, db));
      assert AllTrue(stack + [OwnCondition(i, db)]) <==> AllTrue(stack) && OwnCondition(i, db) by {
        AllTruePush(stack, OwnCondition(i, db));
      }
    }
  }

  lemma AllTruePush(stack: seq<bool>, b: bool)
    ensures AllTrue(stack + [b]) <==> AllTrue(stack) && b
  {
    if AllTrue(stack + [b]) {
      assert (stack + [b])[|stack|] == b;
      assert forall k :: 0 <= k < |stack| ==> stack[k] == (stack + [b])[k];
    }
  }

  // ----------------------------------------------------------- whole streams

  /** The nesting never goes below the depth it starts from. */
  predicate Nested(code: seq<Instr>, depth: nat) {
    if code == [] then true
    else if code[0].flags.op == BLOCK_END then depth > 0 && Nested(code[1..], depth - 1)
    else Nested(code[1..], if Starts(code[0]) then depth + 1 else depth)
  }

  function Meaning(w: World, code: seq<Instr>, db: Store, stack: seq<bool>): (Store, seq<bool>, seq<Mark>)
    requires (forall i <- code :: Known(i)) && Nested(code, |stack|)
  {
    if code == [] then (db, stack, [])
    else
      var (db', stack', mark) := Step(w, code[0], db, stack);
      var rest := Meaning(w, code[1..], db', stack');
      (rest.0, rest.1, [mark] + rest.2)
  }

  /** On every well-nested stream the two counters compute what the stack of outcomes means:
      the same database and the same marks, with the counters in step at the end. */
  lemma {:induction false} RunRefinesMeaning(w: World, code: seq<Instr>, s: Machine, db: Store, stack: seq<bool>)
    requires (forall i <- code :: Known(i)) && Nested(code, |stack|) && Counts(s, db, stack)
    ensures var (db', stack', marks) := Meaning(w, code, db, stack);
            Counts(Run(w, code, s).0, db', stack') && Run(w, code, s).1 == marks
    ensures 0 <= Run(w, code, s).0.validatedDepth <= Run(w, code, s).0.conditionDepth
  {
    hide Exec, Step, Known;
    if code == [] {
    } else {
      StepNests(w, code[0], db, stack);
      ExecRefinesStep(w, code[0], s, db, stack);
      var (db', stack', mark) := Step(w, code[0], db, stack);
      RunRefinesMeaning(w, code[1..], Exec(w, code[0], s).0, db', stack');
    }
  }

  lemma StepNests(w: World, i: Instr, db: Store, stack: seq<bool>)
    requires Known(i) && (i.flags.op == BLOCK_END ==> stack != [])
    ensures |Step(w, i, db, stack).1| ==
            if i.flags.op == BLOCK_END then |stack| - 1 else if Starts(i) then |stack| + 1 else |stack|
  {
  }
}
