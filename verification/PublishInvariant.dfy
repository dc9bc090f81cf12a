/** The invariant of the write stream protocol, clause by clause. Each clause names
    only the parts of the state it constrains. */
module PublishInvariant {
  import opened Options
  import opened FlagWord
  import opened PublishProtocol

  // ---------------------------------------------------------- vocabulary

  /** The instructions with a status among the first `n`, in stream order. */
  ghost function Operations(kinds: seq<Kind>, n: nat): seq<nat>
    requires n <= |kinds|
  {
    if n == 0 then []
    else Operations(kinds, n - 1) + if HasStatus(kinds[n - 1]) then [n - 1] else []
  }

  ghost function Indices(ss: seq<Settlement>): seq<nat> {
    seq(|ss|, i requires 0 <= i < |ss| => ss[i].index)
  }

  ghost predicate Running(w: Worker) {
    !w.NoWorker? && !w.Committing?
  }

  ghost predicate Overlapped(w: Worker) {
    (w.Loading? || w.Loaded? || w.AwaitCallbacks? || w.Finishing?) && w.overlapped
  }

  /** The worker has run the instruction under the cursor but not yet moved past it. */
  ghost predicate Executed(w: Worker) {
    w.AwaitCallbacks? || w.Finishing? || w.Merging?
  }

  ghost function Optional(o: Option<nat>): set<nat> {
    if o.Some? then {o.value} else {}
  }

  /** Instructions allocated but not yet published. */
  ghost function Pending(p: Producer): set<nat> {
    Optional(p.pendingStart) + if Publishing(p.js) then {p.js.at} + Optional(p.js.start) else {}
  }

  /** A word that carries nothing but, possibly, the waiting bit. */
  ghost predicate Bare(w: Word) {
    w == EMPTY || w == WAITING_WORD
  }

  // ----------------------------------------------------------- invariant

  ghost predicate Shape(m: Stream) {
    && |m.words| == |m.kinds| + 1 && |m.depths| == |m.kinds| + 1
    && m.depths[0] == 0
    && (forall i :: 0 <= i < |m.kinds| ==> m.depths[i + 1] == m.depths[i] + Delta(m.kinds[i]))
    && (forall i :: 0 <= i < |m.depths| ==> m.depths[i] >= 0)
  }

  ghost predicate DeferredStart(kinds: seq<Kind>, depths: seq<int>, st: nat) {
    st < |kinds| && st < |depths| && kinds[st] == StartBlock && depths[st] == 0
  }

  /** What the producer is about to publish: operations outside a block by an
      atomic or, words inside a block by a plain store. */
  ghost predicate ProducerInv(kinds: seq<Kind>, depths: seq<int>, p: Producer) {
    && |depths| == |kinds| + 1
    && |p.frames| == depths[|kinds|]
    && (p.pendingStart.Some? ==> p.frames != [] && DeferredStart(kinds, depths, p.pendingStart.value))
    && (Publishing(p.js) ==>
          && p.js.at < |kinds| && kinds[p.js.at] != Jump
          && (p.js.OrFlags? ==> depths[p.js.at] == 0 || kinds[p.js.at] == BlockEnd)
          && (!p.js.OrFlags? ==> depths[p.js.at] >= 1)
          && (p.js.start.Some? ==>
                DeferredStart(kinds, depths, p.js.start.value) && p.js.start.value != p.js.at)
          && (p.pendingStart.Some? ==> p.js.at != p.pendingStart.value && p.js.start.None?))
    && (p.js.StoreFlags? ==> Bare(p.js.seen))
  }

  ghost predicate PublishedWords(words: seq<Word>, kinds: seq<Kind>, pending: set<nat>) {
    && |words| == |kinds| + 1
    && words[|kinds|].op == NoInstruction
    && (forall i :: 0 <= i < |kinds| ==>
          words[i].op == if i in pending then NoInstruction else Published(kinds[i]))
  }

  ghost predicate Consumer(words: seq<Word>, kinds: seq<Kind>, depths: seq<int>, w: Worker, cursor: nat) {
    && |words| == |depths| == |kinds| + 1 && cursor <= |kinds|
    && (forall j :: 0 <= j < cursor ==> words[j].op.Published?)
    && (Running(w) ==>
          && w.pos == cursor
          && (Executed(w) ==> cursor < |kinds| && HasStatus(kinds[cursor]) && words[cursor].op.Published?)
          && w.depth == depths[if w.Finishing? || w.Merging? then cursor + 1 else cursor])
    && (w.Committing? ==> w.delim == cursor)
    && (w.AwaitCallbacks? ==> kinds[cursor] == Callback)
  }

  /** Delimiters sit at depth 0, never on a block end or a jump, never ahead of the cursor. */
  ghost predicate Delimiters(words: seq<Word>, kinds: seq<Kind>, depths: seq<int>, cursor: nat) {
    && |words| == |depths| == |kinds| + 1
    && (forall i :: 0 <= i < |words| && words[i].delimiter ==>
          depths[i] == 0 && i <= cursor && (i < |kinds| ==> HasStatus(kinds[i])))
    && (forall i :: 0 <= i < |words| && (words[i].committed || words[i].hadError) ==> words[i].delimiter)
    && (forall i :: 0 <= i < |words| ==> !(words[i].committed && words[i].hadError))
  }

  /** A word is finished exactly when its instruction has been executed, and a
      failure is never recorded without the finished bit. */
  ghost predicate Statuses(words: seq<Word>, kinds: seq<Kind>, w: Worker, cursor: nat) {
    && |words| == |kinds| + 1 && cursor <= |kinds|
    && (forall i :: 0 <= i < |words| && words[i].finished ==>
          && i < |kinds| && HasStatus(kinds[i]) && words[i].op.Published?
          && (i < cursor || (i == cursor && Executed(w))))
    && (forall i :: 0 <= i < cursor && HasStatus(kinds[i]) ==> words[i].finished)
    && (forall i :: 0 <= i < |words| && words[i].failedCondition ==> words[i].finished)
    && (words[cursor].finished ==>
          !words[cursor].failedCondition && (w.Finishing? || w.Merging? ==> !w.failed))
  }

  ghost predicate HandOff(words: seq<Word>, startAddress: Option<nat>, spawned: seq<nat>, w: Worker, cursor: nat) {
    && cursor < |words|
    && (Running(w) ==>
          && startAddress.None? && spawned == []
          && words[cursor].delimiter == Overlapped(w)
          && (Overlapped(w) ==> words[cursor].op.Published?))
    && (!Running(w) ==>
          && words[cursor].delimiter
          && (if words[cursor].op.NoInstruction? then startAddress.None? && spawned == []
              else (startAddress == Some(cursor) && spawned == [])
                   || (startAddress.None? && spawned == [cursor])))
  }

  ghost predicate WorkerLocals(words: seq<Word>, kinds: seq<Kind>, w: Worker, cursor: nat) {
    && cursor < |words|
    && (w.Loaded? ==>
          if w.flags.op.NoInstruction? then Bare(w.flags)
          else cursor < |kinds| && w.flags.op == Published(kinds[cursor]) && words[cursor].op == w.flags.op)
    && (w.Merging? ==> w.seen == words[cursor])
  }

  ghost predicate CommitMarks(words: seq<Word>, lingering: map<nat, bool>, w: Worker, cursor: nat) {
    && (forall d <- lingering ::
          && d <= cursor && d < |words| && words[d].delimiter
          && !words[d].committed && !words[d].hadError)
    && (w.Committing? ==>
          && w.delim < |words| && w.delim !in lingering
          && !words[w.delim].committed && !words[w.delim].hadError)
  }

  ghost predicate History(kinds: seq<Kind>, depths: seq<int>, w: Worker, cursor: nat, log: seq<nat>,
                          commits: seq<nat>)
  {
    && cursor <= |kinds| && |depths| == |kinds| + 1
    && log == Operations(kinds, cursor) + (if Executed(w) then [cursor] else [])
    && (forall i :: 0 <= i < |commits| ==> commits[i] <= cursor && depths[commits[i]] == 0)
  }

  /** The queue of transaction delimiters known to JavaScript. */
  ghost predicate Queue(words: seq<Word>, q: Promises, cursor: nat) {
    && cursor < |words|
    && (forall d <- q.isTxn :: d <= cursor && words[d].delimiter)
    && (forall i :: 0 <= i < |words| && words[i].delimiter && words[i].op.Published? ==> i in q.isTxn)
    && (q.txnResolution.Some? ==> q.txnResolution.value in q.isTxn && q.uncommitted < q.txnResolution.value)
    && (q.txnResolution.None? ==> q.nextTxn.None?)
    && (q.nextTxn.Some? ==> q.nextTxn.value in q.isTxn && q.txnResolution.value < q.nextTxn.value)
    && -1 <= q.uncommitted
    && (q.uncommitted >= 0 ==> q.uncommitted in q.isTxn)
    && (!q.lost ==>
          forall d <- q.isTxn :: d <= q.uncommitted || q.txnResolution == Some(d) || q.nextTxn == Some(d))
  }

  /** The promises already walked have their final status. */
  ghost predicate Walked(words: seq<Word>, kinds: seq<Kind>, q: Promises, settling: bool) {
    && |words| == |kinds| + 1 && q.unwritten <= |kinds|
    && (forall i :: 0 <= i < q.unwritten && HasStatus(kinds[i]) ==> i in q.flag)
    && (forall i <- q.flag ::
          i < q.unwritten && words[i].finished && q.flag[i].failedCondition == words[i].failedCondition)
    && (forall r <- q.released :: r < q.unwritten && r !in q.isTxn && words[r].finished)
    && (settling ==> forall d <- q.isTxn :: d <= q.unwritten)
  }

  ghost predicate NoDelimiterBetween(words: seq<Word>, i: nat, d: nat) {
    forall j :: i < j < d && j < |words| ==> !words[j].delimiter
  }

  ghost predicate SettledBy(words: seq<Word>, e: Settlement, lost: bool) {
    && e.index < e.delim < |words|
    && words[e.index].finished
    && words[e.delim].delimiter
    && (e.outcome.Resolved? ==>
          words[e.delim].committed && e.outcome.ok == !words[e.index].failedCondition)
    && (e.outcome.Rejected? ==> words[e.delim].hadError)
    && (!lost ==> NoDelimiterBetween(words, e.index, e.delim))
  }

  ghost predicate Settled(words: seq<Word>, kinds: seq<Kind>, q: Promises, cursor: nat) {
    && q.uncommitted <= cursor <= |kinds|
    && Indices(q.settled) == Operations(kinds, if q.uncommitted < 0 then 0 else q.uncommitted)
    && (forall k :: 0 <= k < |q.settled| ==>
          q.settled[k].delim <= cursor && SettledBy(words, q.settled[k], q.lost))
  }

  ghost predicate Inv(s: State) {
    var m, p, q, n := s.mem, s.prod, s.prom, s.native;
    && Shape(m)
    && ProducerInv(m.kinds, m.depths, p)
    && PublishedWords(m.words, m.kinds, Pending(p))
    && Consumer(m.words, m.kinds, m.depths, n.worker, n.cursor)
    && Delimiters(m.words, m.kinds, m.depths, n.cursor)
    && Statuses(m.words, m.kinds, n.worker, n.cursor)
    && HandOff(m.words, p.startAddress, n.spawned, n.worker, n.cursor)
    && WorkerLocals(m.words, m.kinds, n.worker, n.cursor)
    && CommitMarks(m.words, n.lingering, n.worker, n.cursor)
    && History(m.kinds, m.depths, n.worker, n.cursor, n.log, n.commits)
    && Queue(m.words, q, n.cursor)
    && Walked(m.words, m.kinds, q, p.js.CheckTxn?)
    && Settled(m.words, m.kinds, q, n.cursor)
  }

  lemma InvInRange(s: State)
    requires Inv(s)
    ensures InRange(s)
  {
  }

  lemma InitProducer()
    ensures var s := Init();
            var m, p := s.mem, s.prod;
            Shape(m) && ProducerInv(m.kinds, m.depths, p) && PublishedWords(m.words, m.kinds, Pending(p))
  {
  }

  lemma InitWorker()
    ensures var s := Init();
            var m, p, n := s.mem, s.prod, s.native;
            && Consumer(m.words, m.kinds, m.depths, n.worker, n.cursor)
            && Delimiters(m.words, m.kinds, m.depths, n.cursor)
            && Statuses(m.words, m.kinds, n.worker, n.cursor)
            && HandOff(m.words, p.startAddress, n.spawned, n.worker, n.cursor)
            && WorkerLocals(m.words, m.kinds, n.worker, n.cursor)
            && CommitMarks(m.words, n.lingering, n.worker, n.cursor)
            && History(m.kinds, m.depths, n.worker, n.cursor, n.log, n.commits)
  {
  }

  lemma InitPromises()
    ensures var s := Init();
            var m, p, q, n := s.mem, s.prod, s.prom, s.native;
            && Queue(m.words, q, n.cursor) && Walked(m.words, m.kinds, q, p.js.CheckTxn?)
            && Settled(m.words, m.kinds, q, n.cursor)
  {
  }

  lemma InitInv()
    ensures Inv(Init())
  {
    hide Init, Shape, ProducerInv, PublishedWords, Consumer, Delimiters, Statuses, HandOff, WorkerLocals, CommitMarks,
         History, Queue, Walked, Settled;
    InitProducer();
    InitWorker();
    InitPromises();
  }
}
