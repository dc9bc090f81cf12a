/** Which thread compresses a queued value: the compression worker and the write worker
    meet on one 64-bit word by atomic exchange. One value, every interleaving of the
    individual memory accesses, spurious wake-ups included. */
module CompressionHandshake {

  datatype Who = Helper | Writer

  /** The claim word: the Compression object's address, or 0, 1, 2. */
  datatype Claim = Finished | ClaimedByWriter | ClaimedByHelper | Unclaimed

  /** The value's pointer and size slots, each before or after being overwritten. */
  datatype Slot = Raw | Compressed(who: Who)

  /** CompressionWorker::Execute and compressInstruction on the compression thread. */
  datatype HelperPc =
    | HelperStart
    | HelperCompressing
    | HelperStoredSize
    | HelperStoredPointer
    | HelperMustSignal        // saw 1 in the claim word; wants the lock
    | HelperDone

  /** The COMPRESSIBLE branch of DoWrites, run with the writing lock held except in the wait. */
  datatype WriterPc =
    | WriterStart
    | WriterLooked            // pointer not compressed yet
    | WriterWaiting(signalled: bool)
    | WriterWoken
    | WriterCompressing
    | WriterStoredSize
    | WriterStoredPointer
    | WriterReading           // takes the pointer next
    | WriterGotPointer(pointer: Slot)
    | WriterDone(pointer: Slot, size: Slot)

  datatype State = State(
    claim: Claim,
    pointer: Slot,
    size: Slot,
    helper: HelperPc,
    writer: WriterPc,
    compressions: nat)        // history: completed or running calls of compress()

  const INIT := State(Unclaimed, Raw, Raw, HelperStart, WriterStart, 0)

  datatype Step =
    | HelperClaim | HelperStoreSize | HelperStorePointer | HelperRelease | HelperSignal
    | WriterLook | WriterClaim | WriterWake | WriterRecheck
    | WriterStoreSize | WriterStorePointer | WriterRelease | WriterTakePointer | WriterTakeSize

  /** The writing lock is free only while the writer waits (or has left DoWrites' branch). */
  predicate LockFree(s: State) {
    s.writer.WriterWaiting? || s.writer.WriterStart? || s.writer.WriterDone?
  }

  predicate Enabled(s: State, step: Step) {
    match step
    case HelperClaim => s.helper.HelperStart?
    case HelperStoreSize => s.helper.HelperCompressing?
    case HelperStorePointer => s.helper.HelperStoredSize?
    case HelperRelease => s.helper.HelperStoredPointer?
    case HelperSignal => s.helper.HelperMustSignal? && LockFree(s)
    case WriterLook => s.writer.WriterStart?
    case WriterClaim => s.writer.WriterLooked?
    case WriterWake => s.writer.WriterWaiting?            // signalled or spurious
    case WriterRecheck => s.writer.WriterWoken?
    case WriterStoreSize => s.writer.WriterCompressing?
    case WriterStorePointer => s.writer.WriterStoredSize?
    case WriterRelease => s.writer.WriterStoredPointer?
    case WriterTakePointer => s.writer.WriterReading?
    case WriterTakeSize => s.writer.WriterGotPointer?
  }

  function Apply(s: State, step: Step): State
    requires Enabled(s, step)
  {
    match step
    case HelperClaim =>
      if s.claim.Unclaimed?
      then s.(claim := ClaimedByHelper, helper := HelperCompressing, compressions := s.compressions + 1)
      else s.(claim := ClaimedByHelper, helper := HelperDone)
    case HelperStoreSize => s.(size := Compressed(Helper), helper := HelperStoredSize)
    case HelperStorePointer => s.(pointer := Compressed(Helper), helper := HelperStoredPointer)
    case HelperRelease =>
      s.(claim := Finished, helper := if s.claim.ClaimedByWriter? then HelperMustSignal else HelperDone)
    case HelperSignal =>
      s.(helper := HelperDone, writer := if s.writer.WriterWaiting? then WriterWaiting(true) else s.writer)
    case WriterLook => s.(writer := if s.pointer.Raw? then WriterLooked else WriterReading)
    case WriterClaim =>
      s.(claim := ClaimedByWriter,
         compressions := if s.claim.Unclaimed? then s.compressions + 1 else s.compressions,
         writer := match s.claim
           case ClaimedByHelper => WriterWaiting(false)
           case Unclaimed => WriterCompressing
           case _ => WriterReading)
    case WriterWake => s.(writer := WriterWoken)
    case WriterRecheck => s.(writer := if s.pointer.Raw? then WriterWaiting(false) else WriterReading)
    case WriterStoreSize => s.(size := Compressed(Writer), writer := WriterStoredSize)
    case WriterStorePointer => s.(pointer := Compressed(Writer), writer := WriterStoredPointer)
    case WriterRelease => s.(claim := Finished, writer := WriterReading)
    case WriterTakePointer => s.(writer := WriterGotPointer(s.pointer))
    case WriterTakeSize => s.(writer := WriterDone(s.writer.pointer, s.size))
  }

  // ------------------------------------------------------------- invariant

  predicate HelperBusy(h: HelperPc) {
    h.HelperCompressing? || h.HelperStoredSize? || h.HelperStoredPointer?
  }

  predicate WriterBusy(w: WriterPc) {
    w.WriterCompressing? || w.WriterStoredSize? || w.WriterStoredPointer?
  }

  predicate Inv(s: State) {
    && s.compressions == (if s.pointer.Raw? && !HelperBusy(s.helper) && !WriterBusy(s.writer) then 0 else 1)
    && (s.claim.Unclaimed? ==> s.compressions == 0 && s.helper.HelperStart?
                               && (s.writer.WriterStart? || s.writer.WriterLooked?))
    && (s.compressions == 0 ==> s.claim.Unclaimed?)
    && (HelperBusy(s.helper) ==> !WriterBusy(s.writer) && (s.claim.ClaimedByHelper? || s.claim.ClaimedByWriter?))
    && (s.helper.HelperStart? ==> !s.claim.ClaimedByHelper?)
    && (s.writer.WriterStart? || s.writer.WriterLooked? ==>
          !s.claim.ClaimedByWriter? && (s.claim.ClaimedByHelper? ==> HelperBusy(s.helper))
          && (s.helper.HelperStart? ==> s.claim.Unclaimed?))
    && (s.claim.Finished? ==> s.pointer.Compressed? && !HelperBusy(s.helper) && !WriterBusy(s.writer))
    && (s.writer == WriterWaiting(true) ==> s.pointer.Compressed?)
    && (HelperBusy(s.helper) ==>
          && s.pointer == (if s.helper.HelperStoredPointer? then Compressed(Helper) else Raw)
          && s.size == (if s.helper.HelperCompressing? then Raw else Compressed(Helper)))
    && (WriterBusy(s.writer) ==>
          && s.pointer == (if s.writer.WriterStoredPointer? then Compressed(Writer) else Raw)
          && s.size == (if s.writer.WriterCompressing? then Raw else Compressed(Writer)))
    && (!HelperBusy(s.helper) && !WriterBusy(s.writer) ==> s.size == s.pointer)
    && ((s.writer.WriterWaiting? || s.writer.WriterWoken?) && s.pointer.Raw? ==>
          HelperBusy(s.helper) && s.claim.ClaimedByWriter?)
    && (s.writer == WriterWaiting(false) ==>
          (HelperBusy(s.helper) && s.claim.ClaimedByWriter?) || s.helper.HelperMustSignal?)
    && (s.writer.WriterReading? ==> s.pointer.Compressed? && s.size == s.pointer)
    && (s.writer.WriterGotPointer? ==> s.writer.pointer.Compressed? && s.writer.pointer == s.pointer == s.size)
    && (s.writer.WriterDone? ==> s.writer.pointer.Compressed? && s.writer.pointer == s.writer.size == s.pointer)
  }

  lemma Keep(s: State, step: Step)
    requires Inv(s) && Enabled(s, step)
    ensures Inv(Apply(s, step))
  {
  }

  // -------------------------------------------------------------- theorems

  ghost predicate Transition(s: State, s': State) {
    exists step :: Enabled(s, step) && s' == Apply(s, step)
  }

  ghost predicate ValidRun(run: seq<State>) {
    && |run| > 0 && run[0] == INIT
    && (forall i :: 0 <= i < |run| - 1 ==> Transition(run[i], run[i + 1]))
  }

  lemma {:induction false} RunKeepsInv(run: seq<State>, i: nat)
    requires ValidRun(run) && i < |run|
    ensures Inv(run[i])
  {
    hide Apply, Enabled;
    if i > 0 {
      RunKeepsInv(run, i - 1);
      assert Transition(run[i - 1], run[i - 1 + 1]);
      var step :| Enabled(run[i - 1], step) && run[i] == Apply(run[i - 1], step);
      Keep(run[i - 1], step);
    }
  }

  /** The value is never compressed twice, and once the write worker has what it needs it has been
      compressed exactly once and the size it took belongs to the pointer it took. */
  lemma CompressedOnceAndMatching(run: seq<State>, i: nat)
    requires ValidRun(run) && i < |run|
    ensures var s := run[i];
            && s.compressions <= 1
            && (s.writer.WriterDone? ==>
                  s.compressions == 1 && s.writer.pointer.Compressed? && s.writer.size == s.writer.pointer)
  {
    RunKeepsInv(run, i);
  }

  /** A waiting writer always has somebody who will signal it: the helper is still compressing and
      will find 1 in the claim word, or has found it and only needs the lock the waiter gave up. */
  lemma WaiterWillBeSignalled(run: seq<State>, i: nat)
    requires ValidRun(run) && i < |run| && run[i].writer == WriterWaiting(false)
    ensures var s := run[i];
            || (HelperBusy(s.helper) && s.claim.ClaimedByWriter?)
            || (s.helper.HelperMustSignal? && Enabled(s, HelperSignal))
  {
    RunKeepsInv(run, i);
  }

  /** The step that brings the writer nearer to its value without relying on a spurious wake-up. */
  function Driver(s: State): Step {
    match s.writer
    case WriterStart => WriterLook
    case WriterLooked => WriterClaim
    case WriterWaiting(signalled) =>
      if signalled then WriterWake
      else if s.helper.HelperCompressing? then HelperStoreSize
      else if s.helper.HelperStoredSize? then HelperStorePointer
      else if s.helper.HelperStoredPointer? then HelperRelease
      else HelperSignal
    case WriterWoken => WriterRecheck
    case WriterCompressing => WriterStoreSize
    case WriterStoredSize => WriterStorePointer
    case WriterStoredPointer => WriterRelease
    case WriterReading => WriterTakePointer
    case WriterGotPointer(_) => WriterTakeSize
    case WriterDone(_, _) => WriterLook
  }

  function Distance(s: State): nat {
    match s.writer
    case WriterStart => 20
    case WriterLooked => 19
    case WriterWaiting(signalled) =>
      if signalled then 4
      else (match s.helper
            case HelperCompressing => 8
            case HelperStoredSize => 7
            case HelperStoredPointer => 6
            case _ => 5)
    case WriterWoken =>
      if s.pointer.Compressed? then 3 else if s.helper.HelperCompressing? then 9 else 8
    case WriterCompressing => 6
    case WriterStoredSize => 5
    case WriterStoredPointer => 4
    case WriterReading => 2
    case WriterGotPointer(_) => 1
    case WriterDone(_, _) => 0
  }

  /** Until the writer is done, its driving step is enabled and brings it strictly nearer, even
      after a spurious wake-up. */
  lemma WriterFinishes(run: seq<State>, i: nat)
    requires ValidRun(run) && i < |run| && !run[i].writer.WriterDone?
    ensures var s := run[i];
            Enabled(s, Driver(s)) && Distance(Apply(s, Driver(s))) < Distance(s)
  {
    RunKeepsInv(run, i);
  }
}
