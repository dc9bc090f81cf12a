/** The single-producer write stream shared by JavaScript and the native write
    workers: a state machine whose steps are the individual accesses to the flag
    words (sequentially consistent) together with the thread-local work between
    two accesses. Word `i` heads the i-th instruction in stream order, block ends
    and jump records included. */
module PublishProtocol {
  import opened Options
  import opened FlagWord

  /** The stream. `depths[i]` is the nesting depth in front of word `i`; the last
      word is the next free slot, which has no kind yet. */
  datatype Stream = Stream(words: seq<Word>, kinds: seq<Kind>, depths: seq<int>)

  /** A native worker inside DoWrites. `pos` is the instruction being looked at. */
  datatype Worker =
    | NoWorker
    | Loading(pos: nat, depth: int, overlapped: bool)
    | Loaded(pos: nat, depth: int, overlapped: bool, flags: Word)
    | AwaitCallbacks(pos: nat, depth: int, overlapped: bool)            // strict-order callback
    | Finishing(pos: nat, depth: int, overlapped: bool, failed: bool)   // executed, status not stored
    | Merging(pos: nat, depth: int, seen: Word, failed: bool)           // inside the plain `|=`
    | Waiting(pos: nat, depth: int)                                     // inside WaitForCallbacks
    | Committing(delim: nat)                                            // DoWrites returned

  datatype Native = Native(
    spawned: seq<nat>,         // workers created by startWriting, waiting for the lock
    worker: Worker,
    finishedProgress: bool,
    lingering: map<nat, bool>, // workers past the unlock, about to set COMMITTED / HAD_ERROR
    completions: nat,          // finished workers whose JavaScript callback is still to run
    cursor: nat,               // everything before this word has been consumed
    log: seq<nat>,             // history: instructions executed, in order
    commits: seq<nat>)         // history: positions at which a write transaction was ended

  /** Where the JavaScript thread is between two accesses to shared words. `start`
      is a deferred block start still to be published by the same call. */
  datatype Js =
    | Ready
    | OrFlags(at: nat, start: Option<nat>)
    | ReadStatus(at: nat, start: Option<nat>)
    | StoreFlags(at: nat, start: Option<nat>, seen: Word)
    | CheckDelimiter
    | WalkFinished
    | CheckTxn

  datatype Frame = EventTurn | Block

  datatype Producer = Producer(
    js: Js,
    frames: seq<Frame>,          // open event turn and condition blocks (batchDepth)
    pendingStart: Option<nat>,   // writeBatchStart: allocated but unpublished block start
    startAddress: Option<nat>)

  datatype Outcome = Resolved(ok: bool) | Rejected

  /** One settled promise: the instruction, its outcome, the delimiter it was settled by. */
  datatype Settlement = Settlement(index: nat, outcome: Outcome, delim: nat)

  /** The list of pending promises; a resolution is named by its instruction. */
  datatype Promises = Promises(
    unwritten: nat,              // unwrittenResolution
    uncommitted: int,            // uncommittedResolution, -1 for the initial placeholder
    txnResolution: Option<nat>,
    nextTxn: Option<nat>,        // txnResolution.nextTxn
    isTxn: set<nat>,
    flag: map<nat, Word>,
    released: set<nat>,          // resolutions whose uint32 reference was dropped
    settled: seq<Settlement>,    // history
    lost: bool)                  // history: some nextTxn link has been overwritten

  datatype State = State(mem: Stream, prod: Producer, prom: Promises, native: Native)

  ghost function Init(): State {
    State(Stream([DELIMITER_WORD.(committed := true)], [], [0]),
          Producer(Ready, [], None, None),
          Promises(0, -1, None, None, {}, map[], {}, [], false),
          Native([], NoWorker, true, map[], 0, 0, [], []))
  }

  // ---------------------------------------------------------------- producer

  function FrameDepth(f: Frame): nat {
    match f case EventTurn => 1 case Block => 2
  }

  function BatchDepth(frames: seq<Frame>): (d: nat)
    ensures d == 0 <==> frames == []
    ensures frames != [] && frames[|frames| - 1].Block? ==> (d > 2 <==> |frames| > 1)
  {
    if frames == [] then 0
    else BatchDepth(frames[..|frames| - 1]) + FrameDepth(frames[|frames| - 1])
  }

  /** Take the next slot for an instruction of kind `k`; if the buffer is full a
      jump record is stored behind it at once. */
  ghost function Allocate(m: Stream, k: Kind, jump: bool): Stream
    requires |m.depths| > 0
  {
    var d := m.depths[|m.depths| - 1] + Delta(k);
    if jump then
      Stream(m.words + [EMPTY.(op := Published(Jump)), EMPTY], m.kinds + [k, Jump], m.depths + [d, d])
    else
      Stream(m.words + [EMPTY], m.kinds + [k], m.depths + [d])
  }

  function QueueCommit(q: Promises, r: nat): Promises {
    if r in q.isTxn then q
    else if q.txnResolution.Some? then
      q.(isTxn := q.isTxn + {r}, nextTxn := Some(r), lost := q.lost || q.nextTxn.Some?)
    else q.(isTxn := q.isTxn + {r}, txnResolution := Some(r))
  }

  /** The publish closure looks at the delimiter bit it saw; finishBatch does not. */
  predicate EndsTransaction(k: Kind, status: Word) {
    status.delimiter && k != BlockEnd
  }

  function Continue(start: Option<nat>): Js {
    match start case None => Ready case Some(st) => OrFlags(st, None)
  }

  predicate Publishing(js: Js) {
    js.OrFlags? || js.ReadStatus? || js.StoreFlags?
  }

  function AfterPublish(p: Producer, i: nat, ends: bool): Producer
    requires Publishing(p.js)
  {
    p.(js := Continue(p.js.start),
       startAddress := if ends && p.startAddress.None? then Some(i) else p.startAddress)
  }

  function OutcomeOf(flag: map<nat, Word>, i: nat, committed: bool): Outcome {
    if committed then Resolved(!(i in flag && flag[i].failedCondition)) else Rejected
  }

  /** resolveCommit / rejectCommit: walk the list from `lo` up to the delimiter. */
  function SettleRange(kinds: seq<Kind>, flag: map<nat, Word>, lo: int, hi: nat, d: nat, committed: bool)
    : seq<Settlement>
    requires hi <= |kinds|
  {
    if hi <= lo || hi == 0 then []
    else
      SettleRange(kinds, flag, lo, hi - 1, d, committed)
      + if HasStatus(kinds[hi - 1]) then [Settlement(hi - 1, OutcomeOf(flag, hi - 1, committed), d)] else []
  }

  // ------------------------------------------------------------------- steps

  datatype Step =
    | Allot(kind: Kind, jump: bool)      // writeInstructions for an operation or callback
    | BeginEventTurn(jump: bool)
    | BeginBlock(jump: bool)
    | PublishStartEarly
    | EndBlock
    | EndEventTurn
    | PublishOr
    | PublishRead
    | PublishStore
    | StartWriting
    | WorkerCallback                     // completion callback
    | ProgressCallback                   // HandleProgressCallback
    | ReadDelimiter
    | BeginResolve
    | Walk
    | SettleTxn
    | Acquire
    | Load
    | CasWaiting
    | CasDelimiter
    | Wake
    | Interrupt                          // a synchronous transaction splits the batch here
    | Structural
    | Execute(failed: bool, strict: bool)
    | CallbacksDone
    | StoreStatus
    | MergeStatus
    | Commit(ok: bool)
    | MarkCommitted(delim: nat)

  /** Every index a step uses exists. Reachable states satisfy this (`Inv` implies it). */
  ghost predicate InRange(s: State) {
    var here := |s.mem.kinds|;
    && |s.mem.words| == here + 1 && |s.mem.depths| == here + 1
    && (Publishing(s.prod.js) ==> s.prod.js.at < here)
    && (!s.native.worker.NoWorker? && !s.native.worker.Committing? ==> s.native.worker.pos <= here)
    && (s.native.worker.Committing? ==> s.native.worker.delim <= here)
    && (s.prom.txnResolution.Some? ==> s.prom.txnResolution.value <= here)
    && s.prom.unwritten <= here
    && (forall d <- s.native.lingering :: d <= here)
  }

  ghost predicate Enabled(s: State, step: Step)
    requires InRange(s)
  {
    var js := s.prod.js;
    var w := s.native.worker;
    match step
    case Allot(kind, _) => js.Ready? && (kind.Operation? || kind.Callback?)
    case BeginEventTurn(_) => js.Ready? && BatchDepth(s.prod.frames) == 0
    case BeginBlock(_) => js.Ready?
    case PublishStartEarly => js.Ready? && s.prod.pendingStart.Some?
    case EndBlock => js.Ready? && s.prod.frames != [] && s.prod.frames[|s.prod.frames| - 1].Block?
    case EndEventTurn => js.Ready? && s.prod.frames == [EventTurn]
    case PublishOr => js.OrFlags?
    case PublishRead => js.ReadStatus?
    case PublishStore => js.StoreFlags?
    case StartWriting => js.Ready? && s.prod.startAddress.Some?
    case WorkerCallback => js.Ready? && s.native.completions > 0
    case ProgressCallback =>
      js.Ready? && !s.native.finishedProgress && (w.Waiting? || w.AwaitCallbacks?)
    case ReadDelimiter => js.CheckDelimiter?
    case BeginResolve => js.Ready?
    case Walk => js.WalkFinished?
    case SettleTxn => js.CheckTxn?
    case Acquire => w.NoWorker? && s.native.spawned != []
    case Load => w.Loading?
    case CasWaiting =>
      w.Loaded? && w.flags.op.NoInstruction? && (!s.native.finishedProgress || w.depth != 0)
    case CasDelimiter =>
      w.Loaded? && w.flags.op.NoInstruction? && s.native.finishedProgress && w.depth == 0
    case Wake =>
      w.Waiting? && (s.mem.words[w.pos].op.Published? || (w.depth == 0 && s.native.finishedProgress))
    case Interrupt => (w.Waiting? || w.AwaitCallbacks?) && w.depth == 0
    case Structural => w.Loaded? && w.flags.op.Published? && !HasStatus(w.flags.op.kind)
    case Execute(failed, strict) =>
      && w.Loaded? && w.flags.op.Published? && HasStatus(w.flags.op.kind)
      && (strict ==> w.flags.op.kind.Callback? && !failed)
    case CallbacksDone => w.AwaitCallbacks? && s.native.finishedProgress
    case StoreStatus => w.Finishing?
    case MergeStatus => w.Merging?
    case Commit(_) => w.Committing?
    case MarkCommitted(d) => d in s.native.lingering
  }

  /** Slot allocation by an operation: in a batch it is published by a plain read
      and store, outside one by an atomic or. */
  ghost function DoAllot(s: State, kind: Kind, jump: bool): State
    requires InRange(s)
  {
    var here := |s.mem.kinds|;
    s.(mem := Allocate(s.mem, kind, jump),
       prod := s.prod.(js := if BatchDepth(s.prod.frames) > 0 then ReadStatus(here, None)
                             else OrFlags(here, None)))
  }

  ghost function DoBeginEventTurn(s: State, jump: bool): State
    requires InRange(s)
  {
    s.(mem := Allocate(s.mem, StartBlock, jump),
       prod := s.prod.(frames := [EventTurn], pendingStart := Some(|s.mem.kinds|)))
  }

  ghost function DoBeginBlock(s: State, jump: bool): State
    requires InRange(s)
  {
    var here := |s.mem.kinds|;
    var frames := s.prod.frames + [Block];
    s.(mem := Allocate(s.mem, StartBlock, jump),
       prod := if BatchDepth(frames) > 2 then s.prod.(frames := frames, js := ReadStatus(here, None))
               else s.prod.(frames := frames, pendingStart := Some(here)))
  }

  ghost function DoEndBlock(s: State): State
    requires InRange(s) && s.prod.frames != []
  {
    var here := |s.mem.kinds|;
    var outer := s.prod.frames[..|s.prod.frames| - 1];
    s.(mem := Allocate(s.mem, BlockEnd, false),
       prod := if outer == [] && s.prod.pendingStart.Some? then
                 s.prod.(frames := outer, js := ReadStatus(here, s.prod.pendingStart), pendingStart := None)
               else if BatchDepth(outer) > 0 then s.prod.(frames := outer, js := ReadStatus(here, None))
               else s.prod.(frames := outer, js := OrFlags(here, None)))
  }

  ghost function DoEndEventTurn(s: State): State
    requires InRange(s)
  {
    s.(mem := Allocate(s.mem, BlockEnd, false),
       prod := s.prod.(frames := [], js := OrFlags(|s.mem.kinds|, s.prod.pendingStart), pendingStart := None))
  }

  /** Both ways to publish word `i`, given the status that was read and the word left behind. */
  ghost function DoPublish(s: State, status: Word, word: Word): State
    requires InRange(s) && (s.prod.js.OrFlags? || s.prod.js.StoreFlags?)
  {
    var i := s.prod.js.at;
    var ends := EndsTransaction(s.mem.kinds[i], status);
    s.(mem := s.mem.(words := s.mem.words[i := word]),
       prod := AfterPublish(s.prod, i, ends),
       prom := if ends then QueueCommit(s.prom, i) else s.prom)
  }

  ghost function DoReadDelimiter(s: State): State
    requires InRange(s)
  {
    var here := |s.mem.kinds|;
    s.(prod := s.prod.(js := WalkFinished),
       prom := if s.mem.words[here].delimiter then QueueCommit(s.prom, here) else s.prom)
  }

  ghost function DoWalk(s: State): State
    requires InRange(s)
  {
    var u := s.prom.unwritten;
    if u < |s.mem.kinds| && !HasStatus(s.mem.kinds[u]) then
      s.(prom := s.prom.(unwritten := u + 1))
    else if u < |s.mem.kinds| && s.mem.words[u].finished then
      s.(prom := s.prom.(flag := s.prom.flag[u := s.mem.words[u]], unwritten := u + 1,
                         released := if u in s.prom.isTxn then s.prom.released else s.prom.released + {u}))
    else s.(prod := s.prod.(js := CheckTxn))
  }

  ghost function DoSettleTxn(s: State): State
    requires InRange(s)
  {
    var q := s.prom;
    if q.txnResolution.None? then s.(prod := s.prod.(js := Ready))
    else
      var d := q.txnResolution.value;
      var word := s.mem.words[d];
      if word.hadError || word.committed then
        s.(prom := q.(settled := q.settled
                                 + SettleRange(s.mem.kinds, q.flag, q.uncommitted, d, d, !word.hadError),
                      uncommitted := d, txnResolution := q.nextTxn, nextTxn := None))
      else s.(prod := s.prod.(js := Ready))
  }

  ghost function DoAcquire(n: Native): Native
    requires n.spawned != []
  {
    n.(worker := Loading(n.spawned[0], 0, true), cursor := n.spawned[0],
       spawned := n.spawned[1..], finishedProgress := true)
  }

  /** Compare-and-swap on the word under the cursor; on failure look at it again. */
  ghost function DoCas(s: State, word: Word, next: Worker): State
    requires InRange(s) && s.native.worker.Loaded?
  {
    var w := s.native.worker;
    if s.mem.words[w.pos] == w.flags then
      s.(mem := s.mem.(words := s.mem.words[w.pos := word]), native := s.native.(worker := next))
    else s.(native := s.native.(worker := Loading(w.pos, w.depth, w.overlapped)))
  }

  ghost function DoInterrupt(n: Native): Native
    requires n.worker.Waiting? || n.worker.AwaitCallbacks?
  {
    n.(commits := n.commits + [n.worker.pos],
       worker := if n.worker.Waiting? then Loading(n.worker.pos, n.worker.depth, false) else n.worker)
  }

  ghost function DoStructural(n: Native): Native
    requires n.worker.Loaded? && n.worker.flags.op.Published?
  {
    var w := n.worker;
    n.(worker := Loading(w.pos + 1, w.depth + Delta(w.flags.op.kind), w.overlapped), cursor := w.pos + 1)
  }

  ghost function DoExecute(s: State, failed: bool, strict: bool): State
    requires InRange(s) && s.native.worker.Loaded? && s.native.worker.flags.op.Published?
  {
    var w := s.native.worker;
    var k := w.flags.op.kind;
    var n := s.native.(log := s.native.log + [w.pos],
                       finishedProgress := s.native.finishedProgress && (failed || !k.Callback?));
    if strict then
      s.(mem := s.mem.(words := s.mem.words[w.pos := Or(s.mem.words[w.pos], Status(false))]),
         native := n.(worker := AwaitCallbacks(w.pos, w.depth, w.overlapped)))
    else s.(native := n.(worker := Finishing(w.pos, w.depth + Delta(k), w.overlapped, failed)))
  }

  /** The status store: atomic for the first instruction of a transaction, otherwise a load ... */
  ghost function DoStoreStatus(s: State): State
    requires InRange(s) && s.native.worker.Finishing?
  {
    var w := s.native.worker;
    if w.overlapped then
      s.(mem := s.mem.(words := s.mem.words[w.pos := Or(s.mem.words[w.pos], Status(w.failed))]),
         native := s.native.(worker := Loading(w.pos + 1, w.depth, false), cursor := w.pos + 1))
    else s.(native := s.native.(worker := Merging(w.pos, w.depth, s.mem.words[w.pos], w.failed)))
  }

  /** ... and a separate store. */
  ghost function DoMergeStatus(s: State): State
    requires InRange(s) && s.native.worker.Merging?
  {
    var w := s.native.worker;
    s.(mem := s.mem.(words := s.mem.words[w.pos := Or(w.seen, Status(w.failed))]),
       native := s.native.(worker := Loading(w.pos + 1, w.depth, false), cursor := w.pos + 1))
  }

  ghost function DoCommit(n: Native, ok: bool): Native
    requires n.worker.Committing?
  {
    n.(worker := NoWorker, commits := n.commits + [n.worker.delim],
       lingering := n.lingering[n.worker.delim := ok])
  }

  ghost function DoMarkCommitted(s: State, d: nat): State
    requires InRange(s) && d in s.native.lingering
  {
    var mark := if s.native.lingering[d] then EMPTY.(committed := true) else EMPTY.(hadError := true);
    s.(mem := s.mem.(words := s.mem.words[d := Or(s.mem.words[d], mark)]),
       native := s.native.(lingering := s.native.lingering - {d}, completions := s.native.completions + 1))
  }

  ghost function Apply(s: State, step: Step): State
    requires InRange(s) && Enabled(s, step)
  {
    var js := s.prod.js;
    var w := s.native.worker;
    match step
    case Allot(kind, jump) => DoAllot(s, kind, jump)
    case BeginEventTurn(jump) => DoBeginEventTurn(s, jump)
    case BeginBlock(jump) => DoBeginBlock(s, jump)
    case PublishStartEarly =>
      s.(prod := s.prod.(js := OrFlags(s.prod.pendingStart.value, None), pendingStart := None))
    case EndBlock => DoEndBlock(s)
    case EndEventTurn => DoEndEventTurn(s)
    case PublishOr =>
      var word := s.mem.words[js.at];
      DoPublish(s, word, Or(word, EMPTY.(op := Published(s.mem.kinds[js.at]))))
    case PublishRead =>
      s.(prod := s.prod.(js := StoreFlags(js.at, js.start, s.mem.words[js.at])))
    case PublishStore => DoPublish(s, js.seen, EMPTY.(op := Published(s.mem.kinds[js.at])))
    case StartWriting =>
      s.(native := s.native.(spawned := s.native.spawned + [s.prod.startAddress.value]),
         prod := s.prod.(startAddress := None))
    case WorkerCallback =>
      s.(native := s.native.(completions := s.native.completions - 1), prod := s.prod.(js := CheckDelimiter))
    case ProgressCallback =>
      s.(native := s.native.(finishedProgress := true), prod := s.prod.(js := CheckDelimiter))
    case ReadDelimiter => DoReadDelimiter(s)
    case BeginResolve => s.(prod := s.prod.(js := WalkFinished))
    case Walk => DoWalk(s)
    case SettleTxn => DoSettleTxn(s)
    case Acquire => s.(native := DoAcquire(s.native))
    case Load => s.(native := s.native.(worker := Loaded(w.pos, w.depth, w.overlapped, s.mem.words[w.pos])))
    case CasWaiting => DoCas(s, WAITING_WORD, Waiting(w.pos, w.depth))
    case CasDelimiter => DoCas(s, DELIMITER_WORD, Committing(w.pos))
    case Wake => s.(native := s.native.(worker := Loading(w.pos, w.depth, false)))
    case Interrupt => s.(native := DoInterrupt(s.native))
    case Structural => s.(native := DoStructural(s.native))
    case Execute(failed, strict) => DoExecute(s, failed, strict)
    case CallbacksDone =>
      s.(native := s.native.(worker := Finishing(w.pos, w.depth, w.overlapped, false)))
    case StoreStatus => DoStoreStatus(s)
    case MergeStatus => DoMergeStatus(s)
    case Commit(ok) => s.(native := DoCommit(s.native, ok))
    case MarkCommitted(d) => DoMarkCommitted(s, d)
  }
}
