/** The checker's page accounting: the traversal marks every page a tree uses, the scan of the
    garbage-collection records marks every page listed as free, and two totals decide. */
module PageAccounting {
  import MachineWords

  const NUM_METAS := 3
  const MAX_PAGENO := 0x7FFF_FFFF

  /** One call of the traversal visitor: `number` pages from `pgno`, none for a sub-page. The remaining
      checks of a page, its depth, kind and sizes, are summed up in `sound`. */
  datatype Visit = Visit(pgno: nat, number: nat, dbi: nat, isGc: bool, sound: bool)

  /** One record of the garbage-collection tree: whether its key is a transaction number in range, the
      length of its data in bytes, and the 32-bit words of the data. */
  datatype Record = Record(keyOk: bool, bytes: nat, words: seq<nat>)

  predicate ValidRecord(r: Record) { |r.words| == r.bytes / 4 }

  predicate ValidVisit(v: Visit) { v.dbi < 32768 }

  // ---------------------------------------------------------- specification

  predicate Distinct(s: seq<nat>) { forall j, k :: 0 <= j < k < |s| ==> s[j] != s[k] }

  predicate Below(s: seq<nat>, n: nat) { forall p <- s :: p < n }

  predicate Disjoint(s: seq<nat>, t: seq<nat>) { forall p <- s :: p !in t }

  /** Every page a visit covers. */
  function Span(pgno: nat, number: nat): (s: seq<nat>)
    ensures |s| == number
  {
    seq(number, k => pgno + k)
  }

  function Walked(visits: seq<Visit>): seq<nat> {
    if visits == [] then []
    else Walked(visits[..|visits| - 1]) + Span(visits[|visits| - 1].pgno, visits[|visits| - 1].number)
  }

  predicate AllSound(visits: seq<Visit>) { forall v <- visits :: v.sound }

  /** How many page numbers a record is taken to hold. */
  function Count(r: Record): nat
    requires ValidRecord(r)
  {
    if r.bytes < 4 then 0
    else if 1 <= r.words[0] <= MAX_PAGENO && (r.words[0] + 1) * 4 > r.bytes then r.bytes / 4 - 1
    else r.words[0]
  }

  /** The entries of a record that lie inside its data. */
  function List(r: Record): seq<nat>
    requires ValidRecord(r)
  {
    if r.bytes < 4 then [] else r.words[1..if Count(r) < |r.words| then Count(r) + 1 else |r.words|]
  }

  function Listed(records: seq<Record>): seq<nat>
    requires forall r <- records :: ValidRecord(r)
  {
    if records == [] then []
    else
      var r := records[|records| - 1];
      Listed(records[..|records| - 1]) + if r.keyOk then List(r) else []
  }

  predicate Descending(s: seq<nat>, top: nat) {
    (s != [] ==> s[0] < top) && forall k :: 0 < k < |s| ==> s[k] < s[k - 1]
  }

  /** A record as the writer produces it: a sized, strictly descending list of pages that are not meta
      pages, with less than a page to spare. */
  predicate WellFormed(r: Record, top: nat, pageSize: nat)
    requires ValidRecord(r)
  {
    && r.keyOk && r.bytes >= 4 && r.bytes % 4 == 0
    && 1 <= r.words[0] <= MAX_PAGENO && (r.words[0] + 1) * 4 <= r.bytes < (r.words[0] + 1) * 4 + pageSize
    && Descending(List(r), top)
    && (forall p <- List(r) :: p >= NUM_METAS)
  }

  /** The pages the trees use and the pages listed as free split [0, allocated) between them. */
  ghost predicate Partition(walked: seq<nat>, listed: seq<nat>, bound: nat) {
    && Distinct(walked) && Distinct(listed) && Disjoint(walked, listed)
    && forall p: nat :: p in walked || p in listed <==> p < bound
  }

  // ------------------------------------------------------- counting arguments

  function Range(n: nat): (s: set<nat>)
    ensures forall p: nat :: p in s <==> p < n
    ensures |s| == n
  {
    if n == 0 then {} else Range(n - 1) + {n - 1}
  }

  function Elements(s: seq<nat>): (e: set<nat>)
    ensures forall p: nat :: p in e <==> p in s
    ensures |e| <= |s|
  {
    if s == [] then {}
    else
      assert s == s[..|s| - 1] + [s[|s| - 1]];
      Elements(s[..|s| - 1]) + {s[|s| - 1]}
  }

  lemma {:induction false} DistinctCount(s: seq<nat>)
    requires Distinct(s)
    ensures |Elements(s)| == |s|
  {
    if s != [] {
      DistinctCount(s[..|s| - 1]);
      assert s[|s| - 1] !in s[..|s| - 1];
    }
  }

  lemma SubsetSize<T>(a: set<T>, b: set<T>)
    requires a <= b
    ensures |a| <= |b| && (|a| == |b| ==> a == b)
  {
    assert b == a + (b - a);
  }

  lemma CoverIsRange(walked: seq<nat>, listed: seq<nat>, n: nat)
    ensures Elements(walked) + Elements(listed) == Range(n)
            <==> forall p: nat :: p in walked || p in listed <==> p < n
  {
    var all := Elements(walked) + Elements(listed);
    assert forall p: nat :: p in all <==> p in walked || p in listed;
    if forall p: nat :: p in walked || p in listed <==> p < n {
      assert forall p: nat :: p in all <==> p in Range(n);
    } else {
      var p: nat :| !(p in walked || p in listed <==> p < n);
      assert p in all <==> p !in Range(n);
    }
  }

  lemma DisjointUnion(a: set<nat>, b: set<nat>, r: set<nat>)
    requires a !! b && a + b <= r
    ensures |a| + |b| <= |r| && (|a| + |b| == |r| <==> a + b == r)
  {
    assert |a + b| == |a| + |b|;
    SubsetSize(a + b, r);
  }

  /** Distinct pages below the bound, in two disjoint lists as long together as the range, are all of it. */
  lemma CountingGivesPartition(walked: seq<nat>, listed: seq<nat>, n: nat)
    requires Distinct(walked) && Distinct(listed) && Disjoint(walked, listed) && Below(walked, n) && Below(listed, n)
    ensures |walked| + |listed| == n <==> Partition(walked, listed, n)
    ensures |walked| + |listed| <= n
  {
    hide Distinct;
    DistinctCount(walked);
    DistinctCount(listed);
    var a, b := Elements(walked), Elements(listed);
    DisjointUnion(a, b, Range(n));
    CoverIsRange(walked, listed, n);
  }

  // ---------------------------------------------------------- the page map

  /** A database index is stored in sixteen bits; the last one wraps, but never to zero. */
  function Short(x: nat): (r: int)
    requires x < 65536
    ensures x > 0 ==> r != 0
  {
    if x < 32768 then x else x - 65536
  }

  /** The limits after the checks on file size and geometry at start-up. */
  method ClampPages(allocated0: nat, backed0: nat, filePages: nat, exclusiveOrWriter: bool)
    returns (allocPages: nat, backedPages: nat)
    ensures allocPages <= backedPages <= filePages && backedPages <= MAX_PAGENO
    ensures backedPages <= backed0 && backedPages in {backed0, MAX_PAGENO, filePages}
    ensures allocPages <= allocated0 && allocPages in {allocated0, backedPages}
  {
    allocPages, backedPages := allocated0, backed0;
    if backedPages > MAX_PAGENO {
      backedPages := MAX_PAGENO;
    }
    if exclusiveOrWriter {
      if backedPages > filePages {
        backedPages := filePages;
      }
      if allocPages > backedPages {
        allocPages := backedPages;
      }
    } else {
      if allocPages > backedPages {
        allocPages := backedPages;
      }
      if allocPages > filePages {
        allocPages := filePages;
      }
      if backedPages > filePages {
        backedPages := filePages;
      }
    }
  }

  function Wrap64(x: int): nat { x % 0x1_0000_0000_0000_0000 }

  // ----------------------------------------------------- runs of free pages

  /** `n` entries from the i-th on are consecutive page numbers, going down. */
  predicate IsRun(s: seq<nat>, i: nat, n: nat) {
    i + n <= |s| && forall j :: i <= j < i + n ==> s[j] == s[i] - (j - i)
  }

  ghost predicate LongestRun(s: seq<nat>, n: nat) {
    && (exists i: nat :: i < |s| && IsRun(s, i, n))
    && forall i: nat, m: nat :: IsRun(s, i, m) ==> m <= n
  }

  /** `pgno_sub`: subtraction that stops at the first page after the meta pages; below it the unsigned
      difference wraps. */
  function PgnoSub(base: nat, subtrahend: nat): nat {
    if subtrahend < (base - NUM_METAS) % 0x1_0000_0000 then (base - subtrahend) % 0x1_0000_0000 else NUM_METAS
  }

  /** A free list the writer produced. */
  predicate Proper(s: seq<nat>, top: nat) {
    Descending(s, top) && top <= 0x8000_0000 && forall p <- s :: p >= NUM_METAS
  }

  lemma {:induction false} DescendingGap(s: seq<nat>, top: nat, i: nat, k: nat)
    requires Descending(s, top) && i + k < |s|
    ensures s[i + k] <= s[i] - k && s[i] < top
  {
    if k > 0 {
      DescendingGap(s, top, i, k - 1);
    } else if i > 0 {
      DescendingGap(s, top, i - 1, 0);
      assert s[i] < s[i - 1];
    } else {
      assert s[0] < top;
    }
  }

  /** In a proper list the saturated test is the exact one, and one hit means a whole run. */
  lemma HitMeansRun(s: seq<nat>, top: nat, i: nat, k: nat)
    requires Proper(s, top) && i + k < |s|
    ensures s[i + k] == PgnoSub(s[i], k) <==> IsRun(s, i, k + 1)
  {
    DescendingGap(s, top, i, k);
    assert s[i] in s && s[i + k] in s;
    if s[i + k] == PgnoSub(s[i], k) {
      assert s[i + k] == s[i] - k;
      forall j | i <= j < i + (k + 1) ensures s[j] == s[i] - (j - i) {
        DescendingGap(s, top, i, j - i);
        DescendingGap(s, top, j, i + k - j);
      }
    }
  }

  lemma NoLongerRun(s: seq<nat>, top: nat, i: nat, span: nat)
    requires Proper(s, top) && i < |s|
    requires i + span < |s| ==> s[i + span] != PgnoSub(s[i], span)
    ensures forall m: nat :: IsRun(s, i, m) ==> m <= span
  {
    forall m: nat | IsRun(s, i, m) ensures m <= span {
      if m > span {
        assert IsRun(s, i, span + 1);
        HitMeansRun(s, top, i, span);
      }
    }
  }

  class Checker {
    const pagemap: array<int>    // backed pages
    const allocPages: nat
    const nextPgno: nat          // where the free lists start from
    const pageSize: nat
    var pgcount: nat
    var dataTreeProblems: nat
    var gcTreeProblems: nat
    var recordProblems: nat
    var gcPages: nat
    var unusedPages: nat

    constructor (backedPages: nat, allocPages: nat, nextPgno: nat, pageSize: nat)
      requires allocPages <= backedPages && allocPages <= nextPgno
      ensures this.allocPages == allocPages && this.nextPgno == nextPgno && this.pageSize == pageSize
      ensures pagemap.Length == backedPages && fresh(pagemap) && Marked([], [])
      ensures pgcount == dataTreeProblems == gcTreeProblems == recordProblems == gcPages == unusedPages == 0
    {
      pagemap := new int[backedPages](_ => 0);
      this.allocPages, this.nextPgno, this.pageSize := allocPages, nextPgno, pageSize;
      pgcount, dataTreeProblems, gcTreeProblems, recordProblems, gcPages, unusedPages := 0, 0, 0, 0, 0, 0;
    }

    /** A mark is a page met so far: walked, or listed and not a meta page. */
    ghost predicate Marked(walked: seq<nat>, listed: seq<nat>)
      reads pagemap
    {
      && allocPages <= pagemap.Length && allocPages <= nextPgno
      && forall p :: 0 <= p < allocPages ==>
           (pagemap[p] != 0 <==> p in walked || (p in listed && p >= NUM_METAS))
    }

    function TreeProblems(): nat
      reads this
    {
      dataTreeProblems + gcTreeProblems
    }

    method TreeProblem(isGc: bool)
      modifies `dataTreeProblems, `gcTreeProblems
      ensures dataTreeProblems == old(dataTreeProblems) + (if isGc then 0 else 1)
      ensures gcTreeProblems == old(gcTreeProblems) + (if isGc then 1 else 0)
    {
      if isGc {
        gcTreeProblems := gcTreeProblems + 1;
      } else {
        dataTreeProblems := dataTreeProblems + 1;
      }
    }

    /** `pgvisitor`: counts the pages of one visit and marks those that are in range and unmarked. */
    method PgVisitor(v: Visit, ghost walked: seq<nat>)
      requires ValidVisit(v) && Marked(walked, [])
      modifies `pgcount, `dataTreeProblems, `gcTreeProblems, pagemap
      ensures Marked(walked + Span(v.pgno, v.number), [])
      ensures pgcount == Wrap64(old(pgcount) + v.number)
      ensures TreeProblems() >= old(TreeProblems())
      ensures Distinct(walked) ==>
                (TreeProblems() == old(TreeProblems()) <==>
                 v.sound && Distinct(walked + Span(v.pgno, v.number)) && Below(Span(v.pgno, v.number), allocPages))
    {
      hide Span, Distinct, Below, Wrap64;
      SpanNone(walked, v.pgno, allocPages);
      pgcount := Wrap64(pgcount + v.number);
      if !v.sound {
        TreeProblem(v.isGc);
      }
      var n := 0;
      while n < v.number
        invariant 0 <= n <= v.number
        invariant Marked(walked + Span(v.pgno, n), [])
        invariant pgcount == Wrap64(old(pgcount) + v.number) && TreeProblems() >= old(TreeProblems())
        invariant Distinct(walked) ==>
                    (TreeProblems() == old(TreeProblems()) <==>
                     v.sound && Distinct(walked + Span(v.pgno, n)) && Below(Span(v.pgno, n), allocPages))
      {
        var p := v.pgno + n;
        SpanNext(walked, v.pgno, n, allocPages);
        if p >= allocPages {
          TreeProblem(v.isGc);
        } else if pagemap[p] != 0 {
          TreeProblem(v.isGc);
        } else {
          pagemap[p] := Short(v.dbi + 1);
        }
        n := n + 1;
      }
    }

    method CountUnused(ghost walked: seq<nat>)
      requires Marked(walked, [])
      modifies `unusedPages
      ensures Below(walked, allocPages) && Distinct(walked) ==> unusedPages == old(unusedPages) + allocPages - |walked|
    {
      ghost var marked: set<nat> := {};
      var n := 0;
      while n < allocPages
        invariant 0 <= n <= allocPages
        invariant forall p: nat :: p in marked <==> p < n && p in walked
        invariant unusedPages == old(unusedPages) + n - |marked|
      {
        if pagemap[n] == 0 {
          unusedPages := unusedPages + 1;
        } else {
          marked := marked + {n};
        }
        n := n + 1;
      }
      if Below(walked, allocPages) && Distinct(walked) {
        DistinctCount(walked);
        assert marked == Elements(walked);
      }
    }

    /** An entry that is in range, in order and not met before. */
    ghost predicate FreshEntry(list: seq<nat>, k: nat, walked: seq<nat>, listed: seq<nat>)
      requires k < |list|
    {
      && NUM_METAS <= list[k] < allocPages && list[k] < (if k == 0 then nextPgno else list[k - 1])
      && list[k] !in walked && list[k] !in listed && list[k] !in list[..k]
    }

    ghost predicate FreshEntries(list: seq<nat>, n: nat, walked: seq<nat>, listed: seq<nat>)
      requires n <= |list|
    {
      forall k :: 0 <= k < n ==> FreshEntry(list, k, walked, listed)
    }

    /** The loop over one free list: checks and marks each entry, and stretches `span` as it goes. */
    method ScanList(list: seq<nat>, ghost walked: seq<nat>, ghost listed: seq<nat>) returns (span: nat)
      requires Marked(walked, listed)
      modifies `recordProblems, pagemap
      ensures Marked(walked, listed + list)
      ensures recordProblems >= old(recordProblems)
      ensures recordProblems == old(recordProblems) <==> FreshEntries(list, |list|, walked, listed)
      ensures Proper(list, nextPgno) && list != [] ==> LongestRun(list, span)
    {
      var prev := nextPgno;
      span := 1;
      var i := 0;
      assert listed + list[..0] == listed;
      assert list != [] ==> IsRun(list, 0, 1);
      while i < |list|
        invariant 0 <= i <= |list|
        invariant prev == if i == 0 then nextPgno else list[i - 1]
        invariant Marked(walked, listed + list[..i])
        invariant recordProblems >= old(recordProblems)
        invariant recordProblems == old(recordProblems) <==> FreshEntries(list, i, walked, listed)
        invariant span > 0 && Proper(list, nextPgno) && list != [] ==>
                    exists j: nat :: j < |list| && IsRun(list, j, span)
        invariant span > 0
        invariant Proper(list, nextPgno) ==> forall j: nat, m: nat :: j < i && IsRun(list, j, m) ==> m <= span
      {
        var pgno := list[i];
        assert listed + list[..i + 1] == (listed + list[..i]) + [pgno];
        assert FreshEntries(list, i + 1, walked, listed) <==>
               FreshEntries(list, i, walked, listed) && FreshEntry(list, i, walked, listed);
        if pgno < NUM_METAS {
          recordProblems := recordProblems + 1;
        } else if pgno >= pagemap.Length {
          recordProblems := recordProblems + 1;
        } else if pgno >= allocPages {
          recordProblems := recordProblems + 1;
        } else {
          if prev <= pgno {
            recordProblems := recordProblems + 1;
          }
          var idx := pagemap[pgno];
          if idx == 0 {
            pagemap[pgno] := -1;
          } else {
            recordProblems := recordProblems + 1;
          }
        }
        prev := pgno;
        span := Stretch(list, nextPgno, i, span);
        i := i + 1;
      }
    }

    /** What the record and its entries must be for the scan to stay silent. */
    ghost predicate Accepts(r: Record, walked: seq<nat>, listed: seq<nat>)
      requires ValidRecord(r)
    {
      && WellFormed(r, nextPgno, pageSize) && Below(List(r), allocPages)
      && Distinct(listed + List(r)) && Disjoint(walked, List(r))
    }

    lemma FreshIsAccepted(list: seq<nat>, walked: seq<nat>, listed: seq<nat>)
      requires Distinct(listed)
      ensures FreshEntries(list, |list|, walked, listed) <==>
                && Descending(list, nextPgno) && (forall p <- list :: p >= NUM_METAS) && Below(list, allocPages)
                && Distinct(listed + list) && Disjoint(walked, list)
    {
      if FreshEntries(list, |list|, walked, listed) {
        forall k | 0 <= k < |list|
          ensures NUM_METAS <= list[k] < allocPages && list[k] !in walked && list[k] !in listed && list[k] !in list[..k]
          ensures list[k] < if k == 0 then nextPgno else list[k - 1]
        {
          assert FreshEntry(list, k, walked, listed);
        }
        DistinctConcat(listed, list);
        assert Disjoint(walked, list);
        assert list != [] ==> FreshEntry(list, 0, walked, listed);
      } else if Distinct(listed + list) && Disjoint(walked, list) {
        var k :| 0 <= k < |list| && !FreshEntry(list, k, walked, listed);
        assert list[k] in list;
        DistinctParts(listed, list, k);
      }
    }

    /** `handle_freedb`: one record of the free list. */
    method HandleFreedb(r: Record, ghost walked: seq<nat>, ghost listed: seq<nat>) returns (span: nat)
      requires ValidRecord(r) && Marked(walked, listed)
      modifies `recordProblems, `gcPages, pagemap
      ensures Marked(walked, listed + if r.keyOk then List(r) else [])
      ensures gcPages == if r.keyOk then Wrap64(old(gcPages) + Count(r)) else old(gcPages)
      ensures recordProblems >= old(recordProblems)
      ensures Distinct(listed) ==> (recordProblems == old(recordProblems) <==> Accepts(r, walked, listed))
      ensures r.keyOk && Proper(List(r), nextPgno) && List(r) != [] ==> LongestRun(List(r), span)
    {
      span := 1;
      if !r.keyOk {
        recordProblems := recordProblems + 1;
        assert listed + [] == listed;
        return;
      }
      if r.bytes < 4 || r.bytes % 4 != 0 {
        recordProblems := recordProblems + 1;
      }
      var number := if r.bytes >= 4 then r.words[0] else 0;
      if number < 1 || number > MAX_PAGENO {
        recordProblems := recordProblems + 1;
      } else if (number + 1) * 4 > r.bytes {
        recordProblems := recordProblems + 1;
        number := r.bytes / 4 - 1;
      } else if r.bytes - (number + 1) * 4 >= pageSize {
        recordProblems := recordProblems + 1;
      }
      gcPages := Wrap64(gcPages + number);
      if Distinct(listed) {
        FreshIsAccepted(List(r), walked, listed);
      }
      span := ScanList(List(r), walked, listed);
    }

    method Walk(visits: seq<Visit>)
      requires (forall v <- visits :: ValidVisit(v)) && Marked([], []) && pgcount == 0 && TreeProblems() == 0
      modifies `pgcount, `dataTreeProblems, `gcTreeProblems, pagemap
      ensures Marked(Walked(visits), [])
      ensures pgcount == Wrap64(|Walked(visits)|)
      ensures TreeProblems() == 0 <==>
              AllSound(visits) && Distinct(Walked(visits)) && Below(Walked(visits), allocPages)
    {
      hide Walked, Distinct, Below, AllSound, Span, Wrap64;
      WalkNone(allocPages);
      var k := 0;
      while k < |visits|
        invariant 0 <= k <= |visits|
        invariant Marked(Walked(visits[..k]), [])
        invariant pgcount == Wrap64(|Walked(visits[..k])|)
        invariant TreeProblems() == 0 <==>
                  AllSound(visits[..k]) && Distinct(Walked(visits[..k])) && Below(Walked(visits[..k]), allocPages)
      {
        WalkedNext(visits, k, allocPages);
        WrapAdds(|Walked(visits[..k])|, visits[k].number);
        PgVisitor(visits[k], Walked(visits[..k]));
        k := k + 1;
      }
      assert visits[..|visits|] == visits;
    }

    /** The silence of the whole scan. */
    ghost predicate AllAccepted(records: seq<Record>, walked: seq<nat>)
      requires forall r <- records :: ValidRecord(r)
    {
      && (forall r <- records :: WellFormed(r, nextPgno, pageSize)) && Below(Listed(records), allocPages)
      && Distinct(Listed(records)) && Disjoint(walked, Listed(records))
    }

    lemma ListedNext(records: seq<Record>, k: nat, walked: seq<nat>)
      requires (forall r <- records :: ValidRecord(r)) && k < |records|
      ensures var now, r := Listed(records[..k]), records[k];
              && Listed(records[..k + 1]) == now + (if r.keyOk then List(r) else [])
              && (AllAccepted(records[..k + 1], walked) <==>
                    AllAccepted(records[..k], walked) && Accepts(r, walked, now))
              && (Accepts(r, walked, now) ==> r.keyOk && |List(r)| == Count(r))
              && (AllAccepted(records[..k], walked) ==> Distinct(now))
    {
      hide Distinct, List, WellFormed;
      assert records[k] in records[..k + 1];
      assert records[..k + 1][..k] == records[..k];
      assert records[..k + 1] == records[..k] + [records[k]];
      var now, r := Listed(records[..k]), records[k];
      var next := Listed(records[..k + 1]);
      if r.keyOk {
        if Distinct(next) {
          DistinctPrefix(now, List(r));
        }
        assert forall p: nat :: p in next <==> p in now || p in List(r);
      }
      if WellFormed(r, nextPgno, pageSize) {
        WellFormedCount(r, nextPgno, pageSize);
      }
    }

    lemma ScanNone(records: seq<Record>, walked: seq<nat>)
      requires forall r <- records :: ValidRecord(r)
      ensures Listed(records[..0]) == [] && AllAccepted(records[..0], walked) && Wrap64(0) == 0
    {
    }

    method Scan(records: seq<Record>, ghost walked: seq<nat>)
      requires (forall r <- records :: ValidRecord(r)) && Marked(walked, []) && recordProblems == gcPages == 0
      modifies `recordProblems, `gcPages, pagemap
      ensures recordProblems == 0 <==> AllAccepted(records, walked)
      ensures recordProblems == 0 ==> gcPages == Wrap64(|Listed(records)|)
    {
      hide Listed, AllAccepted, Wrap64, List, Accepts, Distinct, Count;
      ScanNone(records, walked);
      var k := 0;
      while k < |records|
        invariant 0 <= k <= |records|
        invariant Marked(walked, Listed(records[..k]))
        invariant recordProblems == 0 <==> AllAccepted(records[..k], walked)
        invariant recordProblems == 0 ==> gcPages == Wrap64(|Listed(records[..k])|)
      {
        ListedNext(records, k, walked);
        WrapAdds(|Listed(records[..k])|, Count(records[k]));
        var span := HandleFreedb(records[k], walked, Listed(records[..k]));
        k := k + 1;
      }
      assert records[..|records|] == records;
    }

    /** The traversal, the count of unmarked pages, the scan of the free lists and the two totals. It
        reports nothing exactly when everything met is sound and the walked and listed pages partition
        the allocated ones. */
    method Check(visits: seq<Visit>, records: seq<Record>, mainProblems: nat) returns (clean: bool)
      requires (forall v <- visits :: ValidVisit(v)) && (forall r <- records :: ValidRecord(r))
      requires Marked([], []) && allocPages <= MAX_PAGENO
      requires pgcount == dataTreeProblems == gcTreeProblems == recordProblems == gcPages == unusedPages == 0
      modifies this, pagemap
      ensures clean <==>
                && mainProblems == 0 && AllSound(visits) && (forall r <- records :: WellFormed(r, nextPgno, pageSize))
                && Partition(Walked(visits), Listed(records), allocPages)
    {
      Walk(visits);
      ghost var walked := Walked(visits);
      CountUnused(walked);
      var maindb := if dataTreeProblems > 0 then dataTreeProblems else mainProblems;
      var freedb := gcTreeProblems;
      if gcTreeProblems == 0 {
        Scan(records, walked);
        freedb := recordProblems;
      }
      clean := maindb == 0 && freedb == 0
               && pgcount == Wrap64(allocPages - gcPages) && unusedPages == gcPages;
      ghost var listed := Listed(records);
      if maindb == 0 && freedb == 0 {
        TotalsDecide(walked, listed, allocPages, pgcount, gcPages, unusedPages);
      } else if Partition(walked, listed, allocPages) {
        assert Below(walked, allocPages) && Below(listed, allocPages);
      }
    }
  }

  /** Without a problem on either side, the totals agree exactly when there is a partition. */
  lemma TotalsDecide(walked: seq<nat>, listed: seq<nat>, n: nat, pgcount: nat, gcPages: nat, unused: nat)
    requires Distinct(walked) && Distinct(listed) && Disjoint(walked, listed) && Below(walked, n) && Below(listed, n)
    requires n <= MAX_PAGENO && pgcount == Wrap64(|walked|) && gcPages == Wrap64(|listed|) && unused == n - |walked|
    ensures pgcount == Wrap64(n - gcPages) && unused == gcPages <==> Partition(walked, listed, n)
  {
    hide Partition, Distinct, Disjoint, Below;
    CountingGivesPartition(walked, listed, n);
  }

  lemma DistinctConcat(s: seq<nat>, t: seq<nat>)
    requires Distinct(s) && forall k :: 0 <= k < |t| ==> t[k] !in s && t[k] !in t[..k]
    ensures Distinct(s + t)
  {
    forall j, k | 0 <= j < k < |s + t| ensures (s + t)[j] != (s + t)[k] {
      if j >= |s| {
        assert t[j - |s|] in t[..k - |s|];
      } else if k >= |s| {
        assert s[j] in s;
      }
    }
  }

  /** The inner loop: `span` only grows, and only to the length of the run starting here. */
  method Stretch(list: seq<nat>, top: nat, i: nat, span0: nat) returns (span: nat)
    requires i < |list| && span0 > 0
    ensures span >= span0
    ensures Proper(list, top) ==>
              (span == span0 || IsRun(list, i, span)) && forall m: nat :: IsRun(list, i, m) ==> m <= span
  {
    span := span0;
    while i + span < |list| && list[i + span] == PgnoSub(list[i], span)
      invariant span >= span0
      invariant Proper(list, top) ==> span == span0 || IsRun(list, i, span)
    {
      if Proper(list, top) {
        HitMeansRun(list, top, i, span);
      }
      span := span + 1;
    }
    if Proper(list, top) {
      NoLongerRun(list, top, i, span);
    }
  }

  lemma WellFormedCount(r: Record, top: nat, pageSize: nat)
    requires ValidRecord(r) && WellFormed(r, top, pageSize)
    ensures r.keyOk && |List(r)| == Count(r)
  {
  }

  lemma WalkNone(n: nat)
    ensures Walked([]) == [] && AllSound([]) && Distinct([]) && Below([], n) && Wrap64(0) == 0
  {
  }

  lemma WrapAdds(a: nat, b: nat)
    ensures Wrap64(Wrap64(a) + b) == Wrap64(a + b)
  {
    var x := Wrap64(a) + b;
    MachineWords.QuotientUnique(a + b, a / 0x1_0000_0000_0000_0000 + x / 0x1_0000_0000_0000_0000, Wrap64(x),
                                0x1_0000_0000_0000_0000);
  }

  lemma WalkedNext(visits: seq<Visit>, k: nat, n: nat)
    requires k < |visits|
    ensures var now, next, v := Walked(visits[..k]), Walked(visits[..k + 1]), visits[k];
            && next == now + Span(v.pgno, v.number)
            && (Distinct(next) ==> Distinct(now))
            && (Below(next, n) <==> Below(now, n) && Below(Span(v.pgno, v.number), n))
            && (AllSound(visits[..k + 1]) <==> AllSound(visits[..k]) && v.sound)
  {
    assert visits[..k + 1][..k] == visits[..k];
    assert visits[..k + 1] == visits[..k] + [visits[k]];
    var now, more := Walked(visits[..k]), Span(visits[k].pgno, visits[k].number);
    if Distinct(now + more) {
      DistinctPrefix(now, more);
    }
    assert forall p: nat :: p in now + more <==> p in now || p in more;
  }

  lemma DistinctParts(s: seq<nat>, t: seq<nat>, k: nat)
    requires Distinct(s + t) && k < |t|
    ensures t[k] !in s && t[k] !in t[..k]
  {
    assert (s + t)[|s| + k] == t[k];
    forall j | 0 <= j < |s| ensures s[j] != t[k] {
      assert (s + t)[j] == s[j];
    }
    forall j | 0 <= j < k ensures t[j] != t[k] {
      assert (s + t)[|s| + j] == t[j];
    }
  }

  lemma DistinctPrefix(s: seq<nat>, t: seq<nat>)
    requires Distinct(s + t)
    ensures Distinct(s)
  {
    assert forall k :: 0 <= k < |s| ==> (s + t)[k] == s[k];
  }

  lemma SpanNone(walked: seq<nat>, pgno: nat, n: nat)
    ensures walked + Span(pgno, 0) == walked && Below(Span(pgno, 0), n)
  {
  }

  lemma BelowAppend(s: seq<nat>, p: nat, n: nat)
    ensures Below(s + [p], n) <==> Below(s, n) && p < n
  {
    if Below(s + [p], n) {
      assert (s + [p])[|s|] in s + [p];
      forall q | q in s ensures q < n {
        assert q in s + [p];
      }
    }
  }

  lemma SpanNext(walked: seq<nat>, pgno: nat, k: nat, n: nat)
    ensures var before, p := walked + Span(pgno, k), pgno + k;
            && walked + Span(pgno, k + 1) == before + [p]
            && (Distinct(before + [p]) <==> Distinct(before) && p !in before)
            && (Below(Span(pgno, k + 1), n) <==> Below(Span(pgno, k), n) && p < n)
  {
    hide Distinct;
    assert Span(pgno, k + 1) == Span(pgno, k) + [pgno + k];
    assert walked + Span(pgno, k + 1) == walked + Span(pgno, k) + [pgno + k];
    BelowAppend(Span(pgno, k), pgno + k, n);
    DistinctAppend(walked + Span(pgno, k), pgno + k);
  }

  lemma DistinctAppend(s: seq<nat>, p: nat)
    ensures Distinct(s + [p]) <==> Distinct(s) && p !in s
  {
    if Distinct(s + [p]) {
      assert forall k :: 0 <= k < |s| ==> (s + [p])[k] == s[k];
      assert (s + [p])[|s|] == p;
    }
  }
}
