/** A laid-out stream of instructions across buffers, and the theorem that parsing from its first
    word visits exactly the instructions that were written. */
module InstructionChain {
  import opened MachineWords
  import opened InstructionCodec

  /** One instruction in place: where it starts, what it is, where the following one starts, whether
      its flag bits have been stored yet, and the status and delimiter bits of its flag word. */
  datatype Entry = Entry(addr: nat, instr: Instr, next: nat, published: bool, status: nat)

  predicate ValidEntry(e: Entry) {
    && ValidInstr(e.instr) && e.instr.flags.op != POINTER_NEXT && e.instr.flags.op != NO_INSTRUCTION
    && e.addr % 2 == 0 && e.status < 0x100 && e.next < 0x8_0000_0000_0000
  }

  function Stop(e: Entry): nat { EndAt(e.addr, e.instr) }

  /** The end of the words an entry occupies, its jump record included. */
  function ExtentEnd(e: Entry): nat { if e.next == Stop(e) then Stop(e) else Stop(e) + 4 }

  predicate Apart(e: Entry, f: Entry) { ExtentEnd(e) <= f.addr || ExtentEnd(f) <= e.addr }

  predicate Laid(m: Memory, e: Entry)
    requires ValidEntry(e)
  {
    && Read(m, e.addr) == (if e.published then FlagBits(e.instr.flags) else 0) + e.status * 0x100_0000
    && BodyLaid(m, e.addr, e.instr)
    && (e.next != Stop(e) ==> JumpLaid(m, Stop(e), e.next))
  }

  lemma LaidPreserved(m: Memory, m': Memory, e: Entry)
    requires ValidEntry(e) && Laid(m, e)
    requires forall x: nat :: e.addr <= x < ExtentEnd(e) ==> Read(m', x) == Read(m, x)
    ensures Laid(m', e)
  {
    assert Stop(e) > e.addr;
    BodyPreserved(m, m', e.addr, e.instr);
  }

  lemma OthersPreserved(m: Memory, m': Memory, log: seq<Entry>, k: nat, e: Entry)
    requires ChainLaid(m, log) && AllApart(log) && k < |log|
    requires e.addr == log[k].addr && e.instr == log[k].instr && e.next == log[k].next
    requires Same(m, m', e.addr, e.addr + 1) && ValidEntry(e) && Laid(m', e)
    ensures ChainLaid(m', log[k := e]) && AllApart(log[k := e])
  {
    hide Laid, ValidEntry, ValidInstr, ExtentEnd, Read;
    assert ExtentEnd(e) == ExtentEnd(log[k]) && ExtentEnd(e) > e.addr by {
      ExtentAlike(e, log[k]);
    }
    var after := log[k := e];
    forall j | 0 <= j < |log| ensures ValidEntry(after[j]) && Laid(m', after[j]) {
      if j != k {
        assert Apart(log[if j < k then j else k], log[if j < k then k else j]);
        LaidPreserved(m, m', log[j]);
      }
    }
  }

  lemma ExtentAlike(e: Entry, f: Entry)
    requires e.addr == f.addr && e.instr == f.instr && e.next == f.next
    ensures ExtentEnd(e) == ExtentEnd(f) && ExtentEnd(e) > e.addr
  {
  }

  ghost predicate Linked(log: seq<Entry>, start: nat, end: nat) {
    if log == [] then start == end
    else log[0].addr == start && Linked(log[1..], log[0].next, end)
  }

  lemma {:induction false} LinkedAppend(log: seq<Entry>, start: nat, e: Entry)
    requires Linked(log, start, e.addr)
    ensures Linked(log + [e], start, e.next)
  {
    if log == [] {
      assert (log + [e])[1..] == [];
    } else {
      LinkedAppend(log[1..], log[0].next, e);
      assert (log + [e])[1..] == log[1..] + [e];
    }
  }

  /** Updating an entry's published and status fields leaves the links alone. */
  lemma {:induction false} LinkedUpdate(log: seq<Entry>, start: nat, end: nat, k: nat, e: Entry)
    requires k < |log| && Linked(log, start, end) && e.addr == log[k].addr && e.next == log[k].next
    ensures Linked(log[k := e], start, end)
  {
    if k == 0 {
      assert log[0 := e][1..] == log[1..];
    } else {
      LinkedUpdate(log[1..], log[0].next, end, k - 1, e);
      assert log[k := e][1..] == log[1..][k - 1 := e];
    }
  }

  ghost predicate ChainLaid(m: Memory, log: seq<Entry>) {
    forall k :: 0 <= k < |log| ==> ValidEntry(log[k]) && Laid(m, log[k])
  }

  ghost predicate AllApart(log: seq<Entry>) {
    forall j, k :: 0 <= j < k < |log| ==> Apart(log[j], log[k])
  }

  /** Nothing that parses as a pointer instruction is waiting at `end`. */
  predicate QuietAt(m: Memory, end: nat) { Read(m, end) % 0x100_0000 == 0 }

  // ------------------------------------------------------- parsing the chain

  /** One more step of the `DoWrites` loop over addresses: a pointer instruction is followed. */
  function Follow(m: Memory, a: nat): nat {
    if ParseFlags(Read(m, a)).op == POINTER_NEXT then JumpTarget(m, a) else a
  }

  /** The first `n` instructions the parser meets from address `a`, and where it then stands. */
  function Parse(m: Memory, a: nat, n: nat): (seq<Instr>, nat)
    decreases n
  {
    if n == 0 then ([], a)
    else
      var d := Decode(m, a);
      var rest := Parse(m, Follow(m, d.next), n - 1);
      ([d.instr] + rest.0, rest.1)
  }

  function Instrs(log: seq<Entry>): seq<Instr> { seq(|log|, k requires 0 <= k < |log| => log[k].instr) }

  predicate AllPublished(log: seq<Entry>) { forall k :: 0 <= k < |log| ==> log[k].published }

  lemma QuietOp(m: Memory, a: nat)
    requires QuietAt(m, a)
    ensures ParseFlags(Read(m, a)).op == 0
  {
  }

  lemma EntryOp(m: Memory, e: Entry)
    requires ValidEntry(e) && Laid(m, e)
    ensures ParseFlags(Read(m, e.addr)).op == if e.published then e.instr.flags.op else 0
  {
    hide BodyLaid, JumpLaid, Stop, FlagBits;
    if e.published {
      FlagsRoundTrip(e.instr.flags, e.status);
    } else {
      QuietOp(m, e.addr);
    }
  }

  /** From the end of an entry the parser arrives at the start of the following one. */
  lemma FollowsLink(m: Memory, e: Entry)
    requires ValidEntry(e) && Laid(m, e)
    requires e.next == Stop(e) ==> ParseFlags(Read(m, e.next)).op != POINTER_NEXT
    ensures Follow(m, Stop(e)) == e.next
  {
    hide BodyLaid, FlagBits, ParseFlags, Stop, DoubleBits, DoubleToInt;
    if e.next != Stop(e) {
      JumpRoundTrip(m, Stop(e), e.next);
      JumpOp(m, Stop(e), e.next);
    }
  }

  lemma JumpOp(m: Memory, a: nat, target: nat)
    requires target < 0x8_0000_0000_0000 && JumpLaid(m, a, target)
    ensures ParseFlags(Read(m, a)).op == POINTER_NEXT
  {
  }

  /** Parsing a published stream gives back the instructions written, in order, and stops at the
      word the encoder will write next. */
  lemma {:induction false} ParseInvertsWriting(m: Memory, log: seq<Entry>, start: nat, end: nat)
    requires ChainLaid(m, log) && Linked(log, start, end) && AllPublished(log) && QuietAt(m, end)
    ensures Parse(m, start, |log|) == (Instrs(log), end)
  {
    hide BodyLaid, FlagBits, ParseFlags, Stop, Decode, Laid, Read, Follow;
    if log == [] {
    } else {
      var e := log[0];
      assert ValidEntry(e) && Laid(m, e) by {
        assert log[0] == e;
      }
      DecodesEntry(m, e);
      assert ChainLaid(m, log[1..]) by {
        forall k | 0 <= k < |log[1..]| ensures ValidEntry(log[1..][k]) && Laid(m, log[1..][k]) {
          assert log[1..][k] == log[k + 1];
        }
      }
      ParseInvertsWriting(m, log[1..], e.next, end);
      NextIsNoPointer(m, log, start, end);
      FollowsLink(m, e);
      assert Instrs(log) == [e.instr] + Instrs(log[1..]);
    }
  }

  lemma DecodesEntry(m: Memory, e: Entry)
    requires ValidEntry(e) && Laid(m, e) && e.published
    ensures Decode(m, e.addr) == Parsed(e.instr, Stop(e))
  {
    hide BodyLaid, JumpLaid, FlagBits, Decode;
    RoundTrip(m, e.addr, e.instr, e.status);
  }

  lemma NextIsNoPointer(m: Memory, log: seq<Entry>, start: nat, end: nat)
    requires ChainLaid(m, log) && Linked(log, start, end) && QuietAt(m, end) && log != []
    ensures ParseFlags(Read(m, log[0].next)).op != POINTER_NEXT
  {
    hide Laid, ParseFlags;
    if |log| == 1 {
      QuietOp(m, end);
    } else {
      assert Linked(log[1..], log[0].next, end);
      EntryOp(m, log[1]);
    }
  }
}
