/** The steps that take a slot keep the invariant; first, how words may change at all. */
module PublishAllocation {
  import opened Options
  import opened FlagWord
  import opened PublishProtocol
  import opened PublishInvariant

  // ------------------------------------------------- how words may change

  /** The only ways a step changes existing words: nothing but the waiting bit is
      ever taken away, an executed instruction keeps its outcome, and a delimiter
      appears only under the cursor. */
  ghost predicate Advances(words: seq<Word>, words': seq<Word>, cursor: nat) {
    && |words'| == |words|
    && (forall j :: 0 <= j < |words| ==>
          && Keeps(words[j], words'[j])
          && (words[j].finished ==> words'[j].failedCondition == words[j].failedCondition)
          && (words'[j].delimiter ==> words[j].delimiter || j == cursor))
  }

  lemma ShapeAdvances(m: Stream, words': seq<Word>)
    requires Shape(m) && |words'| == |m.words|
    ensures Shape(m.(words := words'))
  {
  }

  lemma WalkedAdvances(words: seq<Word>, words': seq<Word>, kinds: seq<Kind>, q: Promises, settling: bool, cursor: nat)
    requires Walked(words, kinds, q, settling) && Advances(words, words', cursor)
    ensures Walked(words', kinds, q, settling)
  {
  }

  lemma SettledAdvances(words: seq<Word>, words': seq<Word>, kinds: seq<Kind>, q: Promises, cursor: nat)
    requires Settled(words, kinds, q, cursor) && Advances(words, words', cursor)
    ensures Settled(words', kinds, q, cursor)
  {
    forall k | 0 <= k < |q.settled|
      ensures SettledBy(words', q.settled[k], q.lost)
    {
      assert SettledBy(words, q.settled[k], q.lost);
    }
  }

  lemma QueueAdvances(words: seq<Word>, words': seq<Word>, q: Promises, cursor: nat)
    requires Queue(words, q, cursor) && Advances(words, words', cursor)
    requires forall j :: 0 <= j < |words| && words'[j].delimiter && words'[j].op.Published? ==>
               words[j].delimiter && words[j].op.Published?
    ensures Queue(words', q, cursor)
  {
  }

  lemma ConsumerAdvances(words: seq<Word>, words': seq<Word>, kinds: seq<Kind>, depths: seq<int>,
                         w: Worker, cursor: nat)
    requires Consumer(words, kinds, depths, w, cursor) && Advances(words, words', cursor)
    ensures Consumer(words', kinds, depths, w, cursor)
  {
  }

  lemma PublishedWordsSame(words: seq<Word>, words': seq<Word>, kinds: seq<Kind>, pending: set<nat>)
    requires PublishedWords(words, kinds, pending) && |words'| == |words|
    requires forall j :: 0 <= j < |words| ==> words'[j].op == words[j].op
    ensures PublishedWords(words', kinds, pending)
  {
  }

  lemma CommitMarksAdvance(words: seq<Word>, words': seq<Word>, lingering: map<nat, bool>, w: Worker, cursor: nat)
    requires CommitMarks(words, lingering, w, cursor) && Advances(words, words', cursor)
    requires forall j :: 0 <= j < |words| ==>
               words'[j].committed == words[j].committed && words'[j].hadError == words[j].hadError
    ensures CommitMarks(words', lingering, w, cursor)
  {
  }

  lemma DelimitersSame(words: seq<Word>, words': seq<Word>, kinds: seq<Kind>, depths: seq<int>, cursor: nat)
    requires Delimiters(words, kinds, depths, cursor) && |words'| == |words|
    requires forall j :: 0 <= j < |words| ==>
               && words'[j].delimiter == words[j].delimiter
               && words'[j].committed == words[j].committed && words'[j].hadError == words[j].hadError
    ensures Delimiters(words', kinds, depths, cursor)
  {
  }

  // -------------------------------------------------- allocating a slot

  lemma OperationsPrefix(kinds: seq<Kind>, kinds': seq<Kind>, n: nat)
    requires n <= |kinds| <= |kinds'| && kinds'[..|kinds|] == kinds
    ensures Operations(kinds', n) == Operations(kinds, n)
  {
    if n > 0 {
      OperationsPrefix(kinds, kinds', n - 1);
      assert kinds'[n - 1] == kinds'[..|kinds|][n - 1];
    }
  }

  /** `m'` is `m` with the slot at `|m.kinds|` taken and fresh words behind it. */
  ghost predicate Grown(m: Stream, m': Stream) {
    && |m.words| == |m.depths| == |m.kinds| + 1
    && |m'.words| == |m'.depths| == |m'.kinds| + 1
    && |m.kinds| < |m'.kinds|
    && m'.kinds[..|m.kinds|] == m.kinds
    && m'.depths[..|m.depths|] == m.depths
    && m'.words[..|m.words|] == m.words
    && (forall j :: |m.words| <= j < |m'.words| ==>
          m'.words[j] == if j < |m'.kinds| then EMPTY.(op := Published(m'.kinds[j])) else EMPTY)
    && (forall j :: |m.words| <= j < |m'.kinds| ==> m'.kinds[j] == Jump)
  }

  lemma AllocateGrows(m: Stream, k: Kind, jump: bool)
    requires Shape(m) && m.depths[|m.kinds|] + Delta(k) >= 0
    ensures var m' := Allocate(m, k, jump);
            Grown(m, m') && Shape(m') && m'.kinds[|m.kinds|] == k
            && m'.depths[|m'.kinds|] == m.depths[|m.kinds|] + Delta(k)
  {
    var m' := Allocate(m, k, jump);
    forall i | 0 <= i < |m'.kinds|
      ensures m'.depths[i + 1] == m'.depths[i] + Delta(m'.kinds[i])
    {
      if i < |m.kinds| {
        assert m.depths[i + 1] == m.depths[i] + Delta(m.kinds[i]);
      }
    }
  }

  lemma GrownIndex(m: Stream, m': Stream, i: nat)
    requires Grown(m, m') && i < |m.words|
    ensures m'.words[i] == m.words[i] && m'.depths[i] == m.depths[i]
    ensures i < |m.kinds| ==> m'.kinds[i] == m.kinds[i]
  {
    assert m'.words[..|m.words|][i] == m.words[i];
    assert m'.depths[..|m.depths|][i] == m.depths[i];
    if i < |m.kinds| {
      assert m'.kinds[..|m.kinds|][i] == m.kinds[i];
    }
  }

  /** What the native side and the promise list know does not depend on slots beyond the free one. */
  lemma GrowKeepsRest(m: Stream, m': Stream, q: Promises, n: Native, p: Producer)
    requires Grown(m, m')
    requires m.words[|m.kinds|].delimiter ==> HasStatus(m'.kinds[|m.kinds|])
    requires Consumer(m.words, m.kinds, m.depths, n.worker, n.cursor)
    requires Delimiters(m.words, m.kinds, m.depths, n.cursor)
    requires Statuses(m.words, m.kinds, n.worker, n.cursor)
    requires HandOff(m.words, p.startAddress, n.spawned, n.worker, n.cursor)
    requires WorkerLocals(m.words, m.kinds, n.worker, n.cursor)
    requires CommitMarks(m.words, n.lingering, n.worker, n.cursor)
    requires History(m.kinds, m.depths, n.worker, n.cursor, n.log, n.commits)
    ensures Consumer(m'.words, m'.kinds, m'.depths, n.worker, n.cursor)
    ensures Delimiters(m'.words, m'.kinds, m'.depths, n.cursor)
    ensures Statuses(m'.words, m'.kinds, n.worker, n.cursor)
    ensures HandOff(m'.words, p.startAddress, n.spawned, n.worker, n.cursor)
    ensures WorkerLocals(m'.words, m'.kinds, n.worker, n.cursor)
    ensures CommitMarks(m'.words, n.lingering, n.worker, n.cursor)
    ensures History(m'.kinds, m'.depths, n.worker, n.cursor, n.log, n.commits)
  {
    forall i | 0 <= i < |m.words|
      ensures m'.words[i] == m.words[i] && m'.depths[i] == m.depths[i]
      ensures i < |m.kinds| ==> m'.kinds[i] == m.kinds[i]
    {
      GrownIndex(m, m', i);
    }
    OperationsPrefix(m.kinds, m'.kinds, n.cursor);
  }

  lemma GrowKeepsPromises(m: Stream, m': Stream, q: Promises, cursor: nat, settling: bool)
    requires Grown(m, m') && cursor <= |m.kinds|
    requires Queue(m.words, q, cursor)
    requires Walked(m.words, m.kinds, q, settling)
    requires Settled(m.words, m.kinds, q, cursor)
    ensures Queue(m'.words, q, cursor)
    ensures Walked(m'.words, m'.kinds, q, settling)
    ensures Settled(m'.words, m'.kinds, q, cursor)
  {
    forall i | 0 <= i < |m.words|
      ensures m'.words[i] == m.words[i]
      ensures i < |m.kinds| ==> m'.kinds[i] == m.kinds[i]
    {
      GrownIndex(m, m', i);
    }
    OperationsPrefix(m.kinds, m'.kinds, if q.uncommitted < 0 then 0 else q.uncommitted);
    forall k | 0 <= k < |q.settled|
      ensures SettledBy(m'.words, q.settled[k], q.lost)
    {
      assert SettledBy(m.words, q.settled[k], q.lost);
    }
  }

  lemma GrowKeepsPublished(m: Stream, m': Stream, pending: set<nat>)
    requires Grown(m, m') && PublishedWords(m.words, m.kinds, pending)
    requires forall i <- pending :: i < |m.kinds|
    ensures PublishedWords(m'.words, m'.kinds, pending + {|m.kinds|})
  {
    forall i | 0 <= i < |m.words|
      ensures m'.words[i] == m.words[i]
      ensures i < |m.kinds| ==> m'.kinds[i] == m.kinds[i]
    {
      GrownIndex(m, m', i);
    }
  }

  /** A slot can be taken for any instruction with a status, and for a block end inside a block. */
  lemma SlotFacts(m: Stream, k: Kind, cursor: nat)
    requires Shape(m) && Delimiters(m.words, m.kinds, m.depths, cursor)
    requires k != Jump && m.depths[|m.kinds|] + Delta(k) >= 0
    ensures m.words[|m.kinds|].delimiter ==> HasStatus(k)
  {
  }

  lemma PendingInRange(m: Stream, p: Producer)
    requires ProducerInv(m.kinds, m.depths, p)
    ensures forall i <- Pending(p) :: i < |m.kinds|
  {
  }

  lemma ProducerFacts(s: State)
    requires Inv(s)
    ensures |s.mem.depths| == |s.mem.kinds| + 1 && |s.prod.frames| == s.mem.depths[|s.mem.kinds|]
    ensures s.prod.pendingStart.Some? ==> s.prod.frames != []
  {
  }

  /** Common part of the five steps that allocate a slot: the producer state `p` after the
      step has the new slot pending and is otherwise in order. */
  lemma KeepAllocate(s: State, k: Kind, jump: bool, p: Producer)
    requires Inv(s) && s.prod.js.Ready? && k != Jump
    requires Shape(s.mem) && s.mem.depths[|s.mem.kinds|] + Delta(k) >= 0
    requires p.startAddress == s.prod.startAddress
    requires Pending(p) == Pending(s.prod) + {|s.mem.kinds|} && !p.js.CheckTxn?
    requires var m' := Allocate(s.mem, k, jump); ProducerInv(m'.kinds, m'.depths, p)
    ensures Inv(s.(mem := Allocate(s.mem, k, jump), prod := p))
  {
    hide Shape, ProducerInv, PublishedWords, Consumer, Delimiters, Statuses, HandOff, WorkerLocals,
         CommitMarks, History, Queue, Walked, Settled;
    ProducerFacts(s);
    var m, n := s.mem, s.native;
    var m' := Allocate(m, k, jump);
    AllocateGrows(m, k, jump);
    SlotFacts(m, k, n.cursor);
    PendingInRange(m, s.prod);
    ConsumerBound(m, n.worker, n.cursor);
    GrowKeepsRest(m, m', s.prom, n, s.prod);
    GrowKeepsPromises(m, m', s.prom, n.cursor, false);
    GrowKeepsPublished(m, m', Pending(s.prod));
  }

  lemma ConsumerBound(m: Stream, w: Worker, cursor: nat)
    requires Consumer(m.words, m.kinds, m.depths, w, cursor)
    ensures cursor <= |m.kinds|
  {
  }

  /** The producer after taking a slot: either it will publish the new word next, or the
      word is a block start whose publication is deferred. */
  lemma ProducerGrows(m: Stream, k: Kind, jump: bool, p: Producer, p': Producer)
    requires Shape(m) && ProducerInv(m.kinds, m.depths, p) && p.js.Ready? && k != Jump
    requires m.depths[|m.kinds|] + Delta(k) >= 0
    requires |p'.frames| == |p.frames| + Delta(k)
    requires var here := |m.kinds|;
      || (p'.js == OrFlags(here, None) && p'.pendingStart == p.pendingStart
          && (m.depths[here] == 0 || k == BlockEnd) && (p.pendingStart.Some? ==> p'.frames != []))
      || (p'.js == ReadStatus(here, None) && p'.pendingStart == p.pendingStart
          && m.depths[here] >= 1 && (p.pendingStart.Some? ==> p'.frames != []))
      || (p'.js == OrFlags(here, p.pendingStart) && p'.pendingStart.None? && k == BlockEnd)
      || (p'.js == ReadStatus(here, p.pendingStart) && p'.pendingStart.None? && m.depths[here] >= 1)
      || (p'.js.Ready? && p.pendingStart.None? && p'.pendingStart == Some(here) && k == StartBlock
          && m.depths[here] == 0)
    ensures var m' := Allocate(m, k, jump);
            ProducerInv(m'.kinds, m'.depths, p') && Pending(p') == Pending(p) + {|m.kinds|}
  {
    var m' := Allocate(m, k, jump);
    AllocateGrows(m, k, jump);
    GrownIndex(m, m', |m.kinds|);
    if p.pendingStart.Some? {
      GrownIndex(m, m', p.pendingStart.value);
    }
  }

  lemma KeepAllot(s: State, kind: Kind, jump: bool)
    requires Inv(s) && InRange(s) && s.prod.js.Ready? && HasStatus(kind) && !kind.StartBlock?
    ensures Inv(DoAllot(s, kind, jump))
  {
    ProducerFacts(s);
    hide Shape, ProducerInv, PublishedWords, Consumer, Delimiters, Statuses, HandOff, WorkerLocals,
         CommitMarks, History, Queue, Walked, Settled;
    var p := DoAllot(s, kind, jump).prod;
    ProducerGrows(s.mem, kind, jump, s.prod, p);
    KeepAllocate(s, kind, jump, p);
  }

  lemma KeepBeginEventTurn(s: State, jump: bool)
    requires Inv(s) && InRange(s) && s.prod.js.Ready? && s.prod.frames == []
    ensures Inv(DoBeginEventTurn(s, jump))
  {
    ProducerFacts(s);
    hide Shape, ProducerInv, PublishedWords, Consumer, Delimiters, Statuses, HandOff, WorkerLocals,
         CommitMarks, History, Queue, Walked, Settled;
    var p := DoBeginEventTurn(s, jump).prod;
    ProducerGrows(s.mem, StartBlock, jump, s.prod, p);
    KeepAllocate(s, StartBlock, jump, p);
  }

  lemma KeepBeginBlock(s: State, jump: bool)
    requires Inv(s) && InRange(s) && s.prod.js.Ready?
    ensures Inv(DoBeginBlock(s, jump))
  {
    ProducerFacts(s);
    hide Shape, ProducerInv, PublishedWords, Consumer, Delimiters, Statuses, HandOff, WorkerLocals,
         CommitMarks, History, Queue, Walked, Settled;
    var p := DoBeginBlock(s, jump).prod;
    ProducerGrows(s.mem, StartBlock, jump, s.prod, p);
    KeepAllocate(s, StartBlock, jump, p);
  }

  lemma KeepEndBlock(s: State)
    requires Inv(s) && InRange(s) && s.prod.js.Ready? && s.prod.frames != []
    ensures Inv(DoEndBlock(s))
  {
    ProducerFacts(s);
    hide Shape, ProducerInv, PublishedWords, Consumer, Delimiters, Statuses, HandOff, WorkerLocals,
         CommitMarks, History, Queue, Walked, Settled;
    var p := DoEndBlock(s).prod;
    ProducerGrows(s.mem, BlockEnd, false, s.prod, p);
    KeepAllocate(s, BlockEnd, false, p);
  }

  lemma KeepEndEventTurn(s: State)
    requires Inv(s) && InRange(s) && s.prod.js.Ready? && |s.prod.frames| == 1
    ensures Inv(DoEndEventTurn(s))
  {
    ProducerFacts(s);
    hide Shape, ProducerInv, PublishedWords, Consumer, Delimiters, Statuses, HandOff, WorkerLocals,
         CommitMarks, History, Queue, Walked, Settled;
    var p := DoEndEventTurn(s).prod;
    ProducerGrows(s.mem, BlockEnd, false, s.prod, p);
    KeepAllocate(s, BlockEnd, false, p);
  }
}
