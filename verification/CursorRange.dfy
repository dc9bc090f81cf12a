/** Ranges: the cursor code that positions by flags, steps, tests the end and counts, against slicing
    the sorted rows. */
module CursorRange {
  import opened Options
  import opened MachineWords
  import opened KeyOrder

  datatype Row = Row(key: Bytes, val: Bytes)

  /** A snapshot in store order: by key, and by value among the values of one key. */
  ghost predicate Sorted(rows: seq<Row>) {
    && (forall i, j :: 0 <= i < j < |rows| ==>
          Lex(rows[i].key, rows[j].key) <= 0 && (rows[i].key == rows[j].key ==> Lex(rows[i].val, rows[j].val) < 0))
    && (forall i :: 0 <= i < |rows| ==> rows[i].key != [])
  }

  predicate UniqueKeys(rows: seq<Row>) { forall i, j :: 0 <= i < j < |rows| ==> rows[i].key != rows[j].key }

  // -------------------------------------------------------- cursor operations

  /** The first row from `i` on with the property, as an index. */
  function Find(rows: seq<Row>, i: nat, p: Row -> bool): (r: Option<nat>)
    requires i <= |rows|
    ensures r.None? ==> forall k :: i <= k < |rows| ==> !p(rows[k])
    ensures r.Some? ==> i <= r.value < |rows| && p(rows[r.value]) && forall k :: i <= k < r.value ==> !p(rows[k])
    decreases |rows| - i
  {
    if i == |rows| then None else if p(rows[i]) then Some(i) else Find(rows, i + 1, p)
  }

  /** The last row before `i` with the property. */
  function FindBack(rows: seq<Row>, i: nat, p: Row -> bool): (r: Option<nat>)
    requires i <= |rows|
    ensures r.None? ==> forall k :: 0 <= k < i ==> !p(rows[k])
    ensures r.Some? ==> r.value < i && p(rows[r.value]) && forall k :: r.value < k < i ==> !p(rows[k])
  {
    if i == 0 then None else if p(rows[i - 1]) then Some(i - 1) else FindBack(rows, i - 1, p)
  }

  function First(rows: seq<Row>): Option<nat> { if rows == [] then None else Some(0) }

  function Last(rows: seq<Row>): Option<nat> { if rows == [] then None else Some(|rows| - 1) }

  function SetKey(rows: seq<Row>, key: Bytes): Option<nat> { Find(rows, 0, (r: Row) => r.key == key) }

  function SetRange(rows: seq<Row>, key: Bytes): Option<nat> { Find(rows, 0, (r: Row) => Lex(r.key, key) >= 0) }

  function GetBoth(rows: seq<Row>, key: Bytes, val: Bytes): Option<nat> {
    Find(rows, 0, (r: Row) => r.key == key && r.val == val)
  }

  function GetBothRange(rows: seq<Row>, key: Bytes, val: Bytes): Option<nat> {
    Find(rows, 0, (r: Row) => r.key == key && Lex(r.val, val) >= 0)
  }

  function LastDup(rows: seq<Row>, i: nat): Option<nat>
    requires i < |rows|
  {
    FindBack(rows, |rows|, (r: Row) => r.key == rows[i].key)
  }

  datatype MoveOp = Next | NextNodup | NextDup | Prev | PrevNodup | PrevDup

  predicate Forward(op: MoveOp) { op.Next? || op.NextNodup? || op.NextDup? }

  function Move(rows: seq<Row>, op: MoveOp, i: nat): (r: Option<nat>)
    requires i < |rows|
    ensures r.Some? ==> r.value < |rows| && if Forward(op) then r.value > i else r.value < i
  {
    match op
    case Next => if i + 1 < |rows| then Some(i + 1) else None
    case NextNodup => Find(rows, i + 1, (r: Row) => r.key != rows[i].key)
    case NextDup => if i + 1 < |rows| && rows[i + 1].key == rows[i].key then Some(i + 1) else None
    case Prev => if i > 0 then Some(i - 1) else None
    case PrevNodup => FindBack(rows, i, (r: Row) => r.key != rows[i].key)
    case PrevDup => if i > 0 && rows[i - 1].key == rows[i].key then Some(i - 1) else None
  }

  /** `mdbx_cursor_count`: how many values the key at `i` has. */
  function CountDup(rows: seq<Row>, i: nat): nat
    requires i < |rows|
  {
    |Filter(rows, (r: Row) => r.key == rows[i].key)|
  }

  function Filter(rows: seq<Row>, p: Row -> bool): (s: seq<Row>) {
    if rows == [] then [] else (if p(rows[0]) then [rows[0]] else []) + Filter(rows[1..], p)
  }

  // ---------------------------------------------------------------- queries

  /** The options of a range: bounds on keys, or, for one key, bounds on its values. An absent bound is
      empty; `bounded` says whether any bound on values was given. */
  datatype Query = Query(
    values: bool, reverse: bool, valuesForKey: bool, exactMatch: bool,
    key: Bytes, startValue: Bytes, end: Bytes, bounded: bool, offset: nat)

  predicate WellPosed(q: Query) {
    && (if q.valuesForKey then q.key != [] else q.startValue == [])
    && (!q.bounded ==> q.startValue == [] && q.end == [])
  }

  /** The end test, made on the value inside one key and on the key otherwise. */
  predicate Ended(q: Query, r: Row) {
    && q.end != []
    && var comparison := Lex(q.end, if q.valuesForKey then r.val else r.key);
       if q.reverse then comparison >= 0 else comparison <= 0
  }

  function IteratingOp(q: Query): MoveOp {
    if q.reverse then
      if q.values then if q.valuesForKey then PrevDup else Prev else PrevNodup
    else
      if q.values then if q.valuesForKey then NextDup else Next else NextNodup
  }

  /** The rows a cursor passes from a position on, the position included. */
  function Trail(rows: seq<Row>, op: MoveOp, at: Option<nat>): seq<Row>
    requires at.Some? ==> at.value < |rows|
    decreases if at.None? then 0 else if Forward(op) then |rows| - at.value + 1 else at.value + 1
  {
    if at.None? then [] else [rows[at.value]] + Trail(rows, op, Move(rows, op, at.value))
  }

  /** The rows before the first one that fails the end test. */
  function Until(q: Query, s: seq<Row>): seq<Row> {
    if s == [] || Ended(q, s[0]) then [] else [s[0]] + Until(q, s[1..])
  }

  function Drop(s: seq<Row>, n: nat): seq<Row> { if n <= |s| then s[n..] else [] }

  function Take(s: seq<Row>, limit: Option<nat>): seq<Row> {
    if limit.Some? && limit.value < |s| then s[..limit.value] else s
  }

  // ----------------------------------------------------------- where to start

  /** The position before the offset is applied, branch by branch. */
  function StartAt(rows: seq<Row>, q: Query): (r: Option<nat>)
    ensures r.Some? ==> r.value < |rows|
  {
    if q.key == [] then if q.reverse then Last(rows) else First(rows)
    else if q.valuesForKey then
      if q.reverse then
        if q.startValue == [] then
          var found := SetKey(rows, q.key);
          if found.None? then None else LastDup(rows, found.value)
        else
          var found := GetBothRange(rows, q.key, q.startValue);
          if found.None? then
            var again := SetKey(rows, q.key);
            if again.None? then None else LastDup(rows, again.value)
          else if Lex(q.startValue, rows[found.value].val) != 0 then Move(rows, PrevDup, found.value)
          else found
      else if q.startValue != [] then
        if q.exactMatch then GetBoth(rows, q.key, q.startValue) else GetBothRange(rows, q.key, q.startValue)
      else SetKey(rows, q.key)
    else if q.reverse then
      var found := SetRange(rows, q.key);
      if found.None? then Last(rows)
      else if Lex(q.key, rows[found.value].key) != 0 then Move(rows, Prev, found.value)
      else found
    else if q.exactMatch then SetKey(rows, q.key)
    else SetRange(rows, q.key)
  }

  /** What iterating without a limit yields. */
  function Yields(rows: seq<Row>, q: Query): seq<Row> {
    Until(q, Drop(Trail(rows, IteratingOp(q), StartAt(rows, q)), q.offset))
  }

  /** Counting a key's values outright, when no bound on them was given or one is to match exactly. */
  predicate CountsWholeKey(q: Query) { q.valuesForKey && (!q.bounded || q.exactMatch) }

  /** Counting jumps key by key in a dup-sorted store when every value is to be counted. */
  predicate Jumps(dupSort: bool, q: Query) { dupSort && q.values && !q.valuesForKey }

  // ---------------------------------------------------------- filters, slices

  lemma {:induction false} FilterNone(s: seq<Row>, p: Row -> bool)
    requires forall k :: 0 <= k < |s| ==> !p(s[k])
    ensures Filter(s, p) == []
  {
    if s != [] {
      FilterNone(s[1..], p);
    }
  }

  lemma {:induction false} FilterAll(s: seq<Row>, p: Row -> bool)
    requires forall k :: 0 <= k < |s| ==> p(s[k])
    ensures Filter(s, p) == s
  {
    if s != [] {
      FilterAll(s[1..], p);
    }
  }

  lemma {:induction false} FilterConcat(s: seq<Row>, t: seq<Row>, p: Row -> bool)
    ensures Filter(s + t, p) == Filter(s, p) + Filter(t, p)
  {
    if s == [] {
      assert s + t == t;
    } else {
      assert (s + t)[1..] == s[1..] + t;
      FilterConcat(s[1..], t, p);
      var head := if p(s[0]) then [s[0]] else [];
      assert head + (Filter(s[1..], p) + Filter(t, p)) == head + Filter(s[1..], p) + Filter(t, p);
    }
  }

  /** Rows without the property, on both sides, do not count. */
  lemma FilterAround(a: seq<Row>, b: seq<Row>, c: seq<Row>, p: Row -> bool)
    requires (forall k :: 0 <= k < |a| ==> !p(a[k])) && (forall k :: 0 <= k < |c| ==> !p(c[k]))
    ensures Filter(a + b + c, p) == Filter(b, p)
  {
    hide Filter;
    FilterConcat(a + b, c, p);
    FilterConcat(a, b, p);
    FilterNone(a, p);
    FilterNone(c, p);
    assert [] + Filter(b, p) + [] == Filter(b, p);
  }

  lemma FilterMiddle(v: seq<Row>, p: Row -> bool, s: nat, e: nat)
    requires s <= e <= |v| && forall k :: 0 <= k < |v| && p(v[k]) ==> s <= k < e
    ensures Filter(v, p) == Filter(v[s..e], p)
  {
    hide Filter;
    assert v == v[..s] + v[s..e] + v[e..];
    FilterAround(v[..s], v[s..e], v[e..], p);
  }

  lemma FilterIsSlice(s: seq<Row>, p: Row -> bool, lo: nat, hi: nat)
    requires lo <= hi <= |s| && forall k :: 0 <= k < |s| ==> (p(s[k]) <==> lo <= k < hi)
    ensures Filter(s, p) == s[lo..hi]
  {
    hide Filter;
    FilterMiddle(s, p, lo, hi);
    FilterAll(s[lo..hi], p);
  }

  /** Past the start, the rows before the end test fails are those satisfying both bounds, if the end
      test, once failed, keeps failing. */
  lemma {:induction false} UntilIsFilter(q: Query, s: seq<Row>, p: Row -> bool)
    requires forall k :: 0 <= k < |s| ==> (p(s[k]) <==> !Ended(q, s[k]))
    requires forall j, k :: 0 <= j < k < |s| && Ended(q, s[j]) ==> Ended(q, s[k])
    ensures Until(q, s) == Filter(s, p)
  {
    hide Ended;
    if s != [] {
      if Ended(q, s[0]) {
        FilterNone(s, p);
      } else {
        UntilIsFilter(q, s[1..], p);
      }
    }
  }

  lemma {:induction false} UntilDrop(q: Query, s: seq<Row>, n: nat)
    requires forall j, k :: 0 <= j < k < |s| && Ended(q, s[j]) ==> Ended(q, s[k])
    ensures Until(q, Drop(s, n)) == Drop(Until(q, s), n)
  {
    hide Ended;
    if s == [] || n == 0 {
      assert n == 0 ==> Drop(s, n) == s;
    } else if Ended(q, s[0]) {
      if n < |s| {
        assert Drop(s, n)[0] == s[n];
      }
    } else {
      assert Drop(s, n) == Drop(s[1..], n - 1);
      UntilDrop(q, s[1..], n - 1);
      assert Drop([s[0]] + Until(q, s[1..]), n) == Drop(Until(q, s[1..]), n - 1);
    }
  }

  lemma {:induction false} UntilPasses(q: Query, s: seq<Row>, k: nat)
    requires k <= |s| && forall i :: 0 <= i < k ==> !Ended(q, s[i])
    ensures Until(q, s) == s[..k] + Until(q, s[k..])
  {
    hide Ended;
    if k > 0 {
      UntilPasses(q, s[1..], k - 1);
      assert s[1..][k - 1..] == s[k..];
      assert [s[0]] + s[1..][..k - 1] == s[..k];
    } else {
      assert s[0..] == s;
    }
  }

  // ----------------------------------------------------------------- trails

  lemma {:induction false} TrailNext(rows: seq<Row>, i: nat)
    requires i < |rows|
    ensures Trail(rows, Next, Some(i)) == rows[i..]
    decreases |rows| - i
  {
    if i + 1 < |rows| {
      TrailNext(rows, i + 1);
    } else {
      assert Trail(rows, Next, None) == [];
    }
  }

  function Reversed(s: seq<Row>): (r: seq<Row>)
    ensures |r| == |s| && forall k :: 0 <= k < |s| ==> r[k] == s[|s| - 1 - k]
  {
    seq(|s|, k requires 0 <= k < |s| => s[|s| - 1 - k])
  }

  lemma {:induction false} TrailPrev(rows: seq<Row>, i: nat)
    requires i < |rows|
    ensures Trail(rows, Prev, Some(i)) == Reversed(rows)[|rows| - 1 - i..]
  {
    if i > 0 {
      TrailPrev(rows, i - 1);
    } else {
      assert Trail(rows, Prev, None) == [];
    }
  }

  /** When no key repeats, stepping key by key is stepping row by row. */
  lemma {:induction false} TrailUnique(rows: seq<Row>, at: Option<nat>, reverse: bool)
    requires UniqueKeys(rows) && (at.Some? ==> at.value < |rows|)
    ensures Trail(rows, if reverse then PrevNodup else NextNodup, at) == Trail(rows, if reverse then Prev else Next, at)
    decreases if at.None? then 0 else if reverse then at.value + 1 else |rows| - at.value + 1
  {
    if at.Some? {
      var op, simple := if reverse then PrevNodup else NextNodup, if reverse then Prev else Next;
      assert Move(rows, op, at.value) == Move(rows, simple, at.value);
      TrailUnique(rows, Move(rows, op, at.value), reverse);
    }
  }

  // -------------------------------------------------------- order of the rows

  lemma KeysAscend(rows: seq<Row>, i: nat, j: nat)
    requires Sorted(rows) && i <= j < |rows|
    ensures Lex(rows[i].key, rows[j].key) <= 0
    ensures rows[i].key == rows[j].key ==> Lex(rows[i].val, rows[j].val) <= 0
  {
    LexZero(rows[i].key, rows[i].key);
    LexZero(rows[i].val, rows[i].val);
  }

  /** The rows of one key are contiguous. */
  lemma KeysContiguous(rows: seq<Row>, i: nat, j: nat, k: nat)
    requires Sorted(rows) && i <= j <= k < |rows| && rows[i].key == rows[k].key
    ensures rows[j].key == rows[i].key
  {
    KeysAscend(rows, i, j);
    KeysAscend(rows, j, k);
    LexAntisymmetric(rows[i].key, rows[j].key);
    LexZero(rows[i].key, rows[j].key);
  }

  // ------------------------------------------------------------------ ranges

  /** Between the start, included, and the end, excluded, in the direction of the range. */
  predicate InRange(q: Query, r: Row) {
    && (q.key != [] ==> if q.reverse then Lex(r.key, q.key) <= 0 else Lex(r.key, q.key) >= 0)
    && (q.end != [] ==> if q.reverse then Lex(r.key, q.end) > 0 else Lex(r.key, q.end) < 0)
  }

  function Within(q: Query): Row -> bool { (r: Row) => InRange(q, r) }

  predicate AfterStart(q: Query, r: Row) {
    q.key != [] ==> if q.reverse then Lex(r.key, q.key) <= 0 else Lex(r.key, q.key) >= 0
  }

  function Facing(rows: seq<Row>, reverse: bool): (r: seq<Row>)
    ensures |r| == |rows|
  {
    if reverse then Reversed(rows) else rows
  }

  lemma InRangeParts(q: Query, r: Row)
    requires !q.valuesForKey
    ensures InRange(q, r) <==> AfterStart(q, r) && !Ended(q, r)
  {
    LexAntisymmetric(r.key, q.end);
  }

  /** Along the direction of the range both bounds are crossed once. */
  lemma BoundsCross(rows: seq<Row>, q: Query, j: nat, k: nat)
    requires Sorted(rows) && j <= k < |rows| && !q.valuesForKey
    ensures var v := Facing(rows, q.reverse);
            (AfterStart(q, v[j]) ==> AfterStart(q, v[k])) && (Ended(q, v[j]) ==> Ended(q, v[k]))
  {
    var v := Facing(rows, q.reverse);
    if q.reverse {
      KeysAscend(rows, |rows| - 1 - k, |rows| - 1 - j);
      CrossDown(v[j].key, v[k].key, q.key);
      CrossDown(v[j].key, v[k].key, q.end);
    } else {
      KeysAscend(rows, j, k);
      CrossUp(v[j].key, v[k].key, q.key);
      CrossUp(v[j].key, v[k].key, q.end);
    }
  }

  lemma CrossUp(a: Bytes, b: Bytes, bound: Bytes)
    requires Lex(a, b) <= 0
    ensures Lex(a, bound) >= 0 ==> Lex(b, bound) >= 0
    ensures Lex(bound, a) <= 0 ==> Lex(bound, b) <= 0
  {
    hide Lex;
    LexAntisymmetric(a, bound);
    LexAntisymmetric(b, bound);
    if Lex(bound, a) <= 0 {
      LexTransitive(bound, a, b);
    }
  }

  lemma CrossDown(a: Bytes, b: Bytes, bound: Bytes)
    requires Lex(b, a) <= 0
    ensures Lex(a, bound) <= 0 ==> Lex(b, bound) <= 0
    ensures Lex(bound, a) >= 0 ==> Lex(bound, b) >= 0
  {
    hide Lex;
    LexAntisymmetric(a, bound);
    LexAntisymmetric(b, bound);
    if Lex(a, bound) <= 0 {
      LexTransitive(b, a, bound);
    }
  }

  /** The starting position splits the rows at the start bound. */
  lemma StartSplits(rows: seq<Row>, q: Query) returns (s: nat)
    requires Sorted(rows) && (UniqueKeys(rows) || !q.reverse) && !q.valuesForKey && !q.exactMatch
    ensures s <= |rows| && forall k :: 0 <= k < |rows| ==> (AfterStart(q, Facing(rows, q.reverse)[k]) <==> s <= k)
    ensures StartAt(rows, q) == if s == |rows| then None
                                else Some(if q.reverse then |rows| - 1 - s else s)
  {
    hide Lex, UniqueKeys;
    var v, at := Facing(rows, q.reverse), StartAt(rows, q);
    s := if at.None? then |rows| else if q.reverse then |rows| - 1 - at.value else at.value;
    if q.key != [] {
      if q.reverse {
        StartsBackward(rows, q, at);
      }
      forall k | 0 <= k < |rows| ensures AfterStart(q, v[k]) <==> s <= k {
        if k < s {
          if !q.reverse {
            assert v[k] == rows[k];
          }
        } else {
          BoundsCross(rows, q, s, k);
        }
      }
    }
  }

  lemma StartsBackward(rows: seq<Row>, q: Query, at: Option<nat>)
    requires Sorted(rows) && UniqueKeys(rows) && !q.valuesForKey && q.reverse && q.key != [] && at == StartAt(rows, q)
    ensures forall k :: 0 <= k < |rows| && (at.None? || k > at.value) ==> Lex(rows[k].key, q.key) > 0
    ensures at.Some? ==> Lex(rows[at.value].key, q.key) <= 0
  {
    hide Lex;
    var found := SetRange(rows, q.key);
    if found.Some? {
      var f := found.value;
      LexZero(q.key, rows[f].key);
      LexAntisymmetric(q.key, rows[f].key);
      forall k | f < k < |rows| ensures Lex(rows[k].key, q.key) > 0 {
        KeysAscend(rows, f, k);
        LexZero(rows[f].key, rows[k].key);
        LexAntisymmetric(rows[k].key, rows[f].key);
        LexAntisymmetric(rows[k].key, q.key);
        LexTransitive(q.key, rows[f].key, rows[k].key);
      }
    }
  }

  /** On a snapshot with unique keys, iteration yields exactly the rows in range, in the direction of
      the range, without the first `offset`; forward over entries it does so with repeated keys too. */
  lemma RangeYieldsExactly(rows: seq<Row>, q: Query)
    requires Sorted(rows) && (UniqueKeys(rows) || (q.values && !q.reverse)) && !q.valuesForKey && !q.exactMatch
    ensures Yields(rows, q) == Drop(Filter(Facing(rows, q.reverse), Within(q)), q.offset)
  {
    hide Lex, UniqueKeys, Sorted, InRange, Ended, AfterStart, Until, Filter, Drop, StartAt, Trail, IteratingOp;
    var v, p := Facing(rows, q.reverse), Within(q);
    var s := StartSplits(rows, q);
    TrailFacing(rows, q, s);
    assert v[s..] == v[s..|v|];
    forall j, k | s <= j < k < |v| && Ended(q, v[j]) ensures Ended(q, v[k]) {
      BoundsCross(rows, q, j, k);
    }
    forall k | 0 <= k < |v| ensures p(v[k]) <==> s <= k && !Ended(q, v[k]) {
      InRangeParts(q, v[k]);
    }
    StretchYields(q, v, p, s, |v|);
  }

  /** A trail that is a stretch of the rows as faced yields the rows of the stretch before the end. */
  lemma StretchYields(q: Query, v: seq<Row>, p: Row -> bool, s: nat, e: nat)
    requires s <= e <= |v|
    requires forall j, k :: s <= j < k < e && Ended(q, v[j]) ==> Ended(q, v[k])
    requires forall k :: 0 <= k < |v| ==> (p(v[k]) <==> s <= k < e && !Ended(q, v[k]))
    ensures Until(q, Drop(v[s..e], q.offset)) == Drop(Filter(v, p), q.offset)
  {
    hide Ended, Until, Filter, Drop;
    var trail := v[s..e];
    assert forall k :: 0 <= k < |trail| ==> trail[k] == v[s + k];
    UntilDrop(q, trail, q.offset);
    UntilIsFilter(q, trail, p);
    FilterMiddle(v, p, s, e);
  }

  lemma TrailFacing(rows: seq<Row>, q: Query, s: nat)
    requires (UniqueKeys(rows) || (q.values && !q.reverse)) && !q.valuesForKey && s <= |rows|
    requires StartAt(rows, q) == if s == |rows| then None else Some(if q.reverse then |rows| - 1 - s else s)
    ensures Trail(rows, IteratingOp(q), StartAt(rows, q)) == Facing(rows, q.reverse)[s..]
  {
    hide UniqueKeys, StartAt, Trail, Move;
    if !q.values || q.reverse {
      TrailUnique(rows, StartAt(rows, q), q.reverse);
    }
    if s == |rows| {
      TrailNothing(rows, IteratingOp(q));
    } else if q.reverse {
      TrailPrev(rows, |rows| - 1 - s);
    } else {
      TrailNext(rows, s);
    }
  }

  // ------------------------------------------------------- values of one key

  predicate AfterStartValue(q: Query, r: Row) {
    q.startValue != [] ==> if q.reverse then Lex(r.val, q.startValue) <= 0 else Lex(r.val, q.startValue) >= 0
  }

  predicate InValues(q: Query, r: Row) {
    && r.key == q.key && AfterStartValue(q, r)
    && (q.end != [] ==> if q.reverse then Lex(r.val, q.end) > 0 else Lex(r.val, q.end) < 0)
  }

  function WithinValues(q: Query): Row -> bool { (r: Row) => InValues(q, r) }

  lemma InValuesParts(q: Query, r: Row)
    requires q.valuesForKey
    ensures InValues(q, r) <==> r.key == q.key && AfterStartValue(q, r) && !Ended(q, r)
  {
    LexAntisymmetric(r.val, q.end);
  }

  /** Among the values of one key both bounds are crossed once. */
  lemma ValueBoundsCross(rows: seq<Row>, q: Query, j: nat, k: nat)
    requires Sorted(rows) && j <= k < |rows| && q.valuesForKey
    requires Facing(rows, q.reverse)[j].key == Facing(rows, q.reverse)[k].key
    ensures var v := Facing(rows, q.reverse);
            (AfterStartValue(q, v[j]) ==> AfterStartValue(q, v[k])) && (Ended(q, v[j]) ==> Ended(q, v[k]))
  {
    var v := Facing(rows, q.reverse);
    if q.reverse {
      KeysAscend(rows, |rows| - 1 - k, |rows| - 1 - j);
      CrossDown(v[j].val, v[k].val, q.startValue);
      CrossDown(v[j].val, v[k].val, q.end);
    } else {
      KeysAscend(rows, j, k);
      CrossUp(v[j].val, v[k].val, q.startValue);
      CrossUp(v[j].val, v[k].val, q.end);
    }
  }

  predicate Candidate(q: Query, r: Row) { r.key == q.key && AfterStartValue(q, r) }

  lemma ValuesStartForward(rows: seq<Row>, q: Query)
    requires q.valuesForKey && q.key != [] && !q.exactMatch && !q.reverse
    ensures var at := StartAt(rows, q);
            (forall k :: 0 <= k < |rows| && (at.None? || k < at.value) ==> !Candidate(q, rows[k]))
            && (at.Some? ==> Candidate(q, rows[at.value]))
  {
    hide Lex;
  }

  /** Backwards: the last candidate, found by looking for the first value not before the start. */
  lemma ValuesStartBackward(rows: seq<Row>, q: Query)
    requires Sorted(rows) && q.valuesForKey && q.key != [] && q.reverse
    ensures var at := StartAt(rows, q);
            (forall k :: 0 <= k < |rows| && (at.None? || k > at.value) ==> !Candidate(q, rows[k]))
            && (at.Some? ==> Candidate(q, rows[at.value]))
  {
    hide Lex, Sorted;
    if q.startValue != [] {
      var found := GetBothRange(rows, q.key, q.startValue);
      forall k | 0 <= k < |rows| && rows[k].key == q.key && (found.None? || k < found.value)
        ensures Lex(rows[k].val, q.startValue) <= 0
      {
      }
      if found.Some? {
        var f := found.value;
        LexAntisymmetric(q.startValue, rows[f].val);
        forall k | f < k < |rows| && rows[k].key == q.key ensures Lex(rows[k].val, q.startValue) > 0 {
          ValueBeyond(rows, q.startValue, f, k);
        }
        forall k | 0 <= k < f && rows[k].key == q.key && f > 0 ensures rows[f - 1].key == q.key {
          KeysContiguous(rows, k, f - 1, f);
        }
      }
    }
  }

  lemma ValueBeyond(rows: seq<Row>, bound: Bytes, f: nat, k: nat)
    requires Sorted(rows) && f < k < |rows| && rows[k].key == rows[f].key && Lex(rows[f].val, bound) >= 0
    ensures Lex(rows[k].val, bound) > 0
  {
    hide Lex;
    LexAntisymmetric(rows[k].val, bound);
    LexAntisymmetric(rows[f].val, bound);
    LexTransitive(bound, rows[f].val, rows[k].val);
  }

  lemma TrailOnward(rows: seq<Row>, op: MoveOp, i: nat)
    requires i < |rows|
    ensures Trail(rows, op, Some(i)) == [rows[i]] + Trail(rows, op, Move(rows, op, i))
  {
  }

  lemma FirstOfStretch(v: seq<Row>, s: nat, e: nat)
    requires s < e <= |v|
    ensures v[s..e] == [v[s]] + v[s + 1..e] && (s + 1 == e ==> v[s..e] == [v[s]] + [])
  {
  }

  lemma {:induction false} TrailDup(rows: seq<Row>, reverse: bool, s: nat, e: nat)
    requires s < e <= |rows|
    requires var v := Facing(rows, reverse);
             (forall k :: s <= k < e ==> v[k].key == v[s].key) && (e < |rows| ==> v[e].key != v[s].key)
    ensures Trail(rows, if reverse then PrevDup else NextDup, Some(if reverse then |rows| - 1 - s else s))
            == Facing(rows, reverse)[s..e]
    decreases e - s
  {
    hide Move, Facing, Trail;
    var v, op, i := Facing(rows, reverse), if reverse then PrevDup else NextDup, if reverse then |rows| - 1 - s else s;
    DupStep(rows, reverse, s, e);
    TrailOnward(rows, op, i);
    FirstOfStretch(v, s, e);
    if s + 1 < e {
      TrailDup(rows, reverse, s + 1, e);
    } else {
      TrailNothing(rows, op);
    }
  }

  /** Inside one key a step goes to the next row as faced, and from its last row nowhere. */
  lemma DupStep(rows: seq<Row>, reverse: bool, s: nat, e: nat)
    requires s < e <= |rows|
    requires var v := Facing(rows, reverse);
             (forall k :: s <= k < e ==> v[k].key == v[s].key) && (e < |rows| ==> v[e].key != v[s].key)
    ensures var i := if reverse then |rows| - 1 - s else s;
            && Facing(rows, reverse)[s] == rows[i]
            && (s + 1 < e ==> Facing(rows, reverse)[s + 1].key == Facing(rows, reverse)[s].key)
            && Move(rows, if reverse then PrevDup else NextDup, i)
               == if s + 1 < e then Some(if reverse then i - 1 else i + 1) else None
  {
    var v := Facing(rows, reverse);
    if s + 1 < e {
      assert v[s + 1].key == v[s].key;
    }
  }

  lemma FacingContiguous(rows: seq<Row>, reverse: bool, i: nat, j: nat, k: nat)
    requires Sorted(rows) && i <= j <= k < |rows|
    requires Facing(rows, reverse)[i].key == Facing(rows, reverse)[k].key
    ensures Facing(rows, reverse)[j].key == Facing(rows, reverse)[i].key
  {
    if reverse {
      KeysContiguous(rows, |rows| - 1 - k, |rows| - 1 - j, |rows| - 1 - i);
    } else {
      KeysContiguous(rows, i, j, k);
    }
  }

  /** The candidates are one stretch of the rows as faced, and the cursor starts at its beginning. */
  lemma CandidatesStretch(rows: seq<Row>, q: Query) returns (s: nat, e: nat)
    requires Sorted(rows) && q.valuesForKey && q.key != [] && !q.exactMatch
    ensures s <= e <= |rows|
    ensures forall k :: 0 <= k < |rows| ==> (Candidate(q, Facing(rows, q.reverse)[k]) <==> s <= k < e)
    ensures s < e && e < |rows| ==> Facing(rows, q.reverse)[e].key != q.key
    ensures StartAt(rows, q) == if s == e then None else Some(if q.reverse then |rows| - 1 - s else s)
  {
    hide Lex, Sorted, AfterStartValue, StartAt;
    var v, at := Facing(rows, q.reverse), StartAt(rows, q);
    if q.reverse {
      ValuesStartBackward(rows, q);
    } else {
      ValuesStartForward(rows, q);
    }
    if at.None? {
      s, e := 0, 0;
      forall k | 0 <= k < |rows| ensures !Candidate(q, v[k]) {
        assert v[k] == rows[if q.reverse then |rows| - 1 - k else k];
      }
    } else {
      s := if q.reverse then |rows| - 1 - at.value else at.value;
      var stop := Find(v, s, (r: Row) => r.key != q.key);
      e := if stop.Some? then stop.value else |rows|;
      assert Candidate(q, v[s]);
      forall k | 0 <= k < |rows| ensures Candidate(q, v[k]) <==> s <= k < e {
        if k < s {
          assert v[k] == rows[if q.reverse then |rows| - 1 - k else k];
        } else if k < e {
          ValueBoundsCross(rows, q, s, k);
        } else if v[k].key == q.key {
          FacingContiguous(rows, q.reverse, s, e, k);
        }
      }
    }
  }

  /** Iterating the values of one key yields exactly those between the value bounds, in order. */
  lemma ValuesYieldExactly(rows: seq<Row>, q: Query)
    requires Sorted(rows) && q.valuesForKey && q.key != [] && !q.exactMatch && q.values
    ensures Yields(rows, q) == Drop(Filter(Facing(rows, q.reverse), WithinValues(q)), q.offset)
  {
    hide Lex, Sorted, InValues, Ended, AfterStartValue, Until, Filter, Drop, StartAt, Trail;
    var v, p := Facing(rows, q.reverse), WithinValues(q);
    var s, e := CandidatesStretch(rows, q);
    if s < e {
      assert forall k :: s <= k < e ==> v[k].key == q.key by {
        assert forall k :: s <= k < e ==> Candidate(q, v[k]);
      }
      TrailDup(rows, q.reverse, s, e);
    } else {
      TrailNothing(rows, IteratingOp(q));
    }
    assert Trail(rows, IteratingOp(q), StartAt(rows, q)) == v[s..e];
    forall j, k | s <= j < k < e && Ended(q, v[j]) ensures Ended(q, v[k]) {
      assert Candidate(q, v[j]) && Candidate(q, v[k]);
      ValueBoundsCross(rows, q, j, k);
    }
    forall k | 0 <= k < |v| ensures p(v[k]) <==> s <= k < e && !Ended(q, v[k]) {
      InValuesParts(q, v[k]);
    }
    StretchYields(q, v, p, s, e);
  }

  lemma TrailNothing(rows: seq<Row>, op: MoveOp)
    ensures Trail(rows, op, None) == []
  {
  }

  /** Looking a pair up exactly finds a key to count precisely when the pair is there. */
  lemma ExactMatchFinds(rows: seq<Row>, q: Query)
    requires q.valuesForKey && q.key != [] && q.startValue != [] && q.exactMatch && !q.reverse
    ensures StartAt(rows, q).Some? <==> Row(q.key, q.startValue) in rows
  {
    if Row(q.key, q.startValue) in rows {
      var k :| 0 <= k < |rows| && rows[k] == Row(q.key, q.startValue);
    }
  }

  /** Where an exact match starts a range, if it does, is where the range would have started anyway. */
  lemma ExactStart(rows: seq<Row>, q: Query)
    requires Sorted(rows) && q.key != [] && q.exactMatch && !q.reverse && (q.valuesForKey ==> q.startValue != [])
    ensures StartAt(rows, q).Some? <==>
              exists r <- rows :: r.key == q.key && (q.valuesForKey ==> r.val == q.startValue)
    ensures StartAt(rows, q).Some? ==> StartAt(rows, q.(exactMatch := false)) == StartAt(rows, q)
  {
    hide Lex;
    var at, loose := StartAt(rows, q), StartAt(rows, q.(exactMatch := false));
    if at.Some? {
      var i := at.value;
      assert rows[i] in rows;
      LexZero(q.key, rows[i].key);
      LexZero(q.startValue, rows[i].val);
      LexZero(rows[i].key, q.key);
      LexZero(rows[i].val, q.startValue);
      assert loose.Some? && loose.value <= i;
      var k := loose.value;
      if k < i {
        LexZero(rows[k].key, rows[i].key);
      }
    } else {
      forall r | r in rows ensures !(r.key == q.key && (q.valuesForKey ==> r.val == q.startValue)) {
        var k :| 0 <= k < |rows| && rows[k] == r;
      }
    }
  }

  lemma {:induction false} UntilLoose(q: Query, s: seq<Row>)
    ensures Until(q.(exactMatch := false), s) == Until(q, s)
  {
    hide Lex;
    if s != [] {
      UntilLoose(q, s[1..]);
    }
  }

  /** Asking for an exact match changes nothing else: a range starts only if its key, or the pair, is there,
      and then yields what it would have without. */
  lemma ExactMatchYields(rows: seq<Row>, q: Query)
    requires Sorted(rows) && q.key != [] && q.exactMatch && !q.reverse && (q.valuesForKey ==> q.startValue != [])
    ensures Yields(rows, q) ==
            if exists r <- rows :: r.key == q.key && (q.valuesForKey ==> r.val == q.startValue)
            then Yields(rows, q.(exactMatch := false)) else []
  {
    hide Until, Trail, Drop, Lex, Sorted, StartAt;
    ExactStart(rows, q);
    if StartAt(rows, q).None? {
      NothingYields(rows, q);
    } else {
      UntilLoose(q, Drop(Trail(rows, IteratingOp(q), StartAt(rows, q)), q.offset));
    }
  }

  lemma NothingYields(rows: seq<Row>, q: Query)
    requires StartAt(rows, q).None?
    ensures Yields(rows, q) == []
  {
    TrailNothing(rows, IteratingOp(q));
  }

  // ---------------------------------------------------------------- counting

  lemma {:induction false} FilterCongruent(s: seq<Row>, p: Row -> bool, p': Row -> bool)
    requires forall r <- s :: p(r) == p'(r)
    ensures Filter(s, p) == Filter(s, p')
  {
    if s != [] {
      assert s[0] in s;
      FilterCongruent(s[1..], p, p');
    }
  }

  lemma {:induction false} FilterReversedSize(s: seq<Row>, p: Row -> bool)
    ensures |Filter(Reversed(s), p)| == |Filter(s, p)|
  {
    if s != [] {
      assert Reversed(s) == Reversed(s[1..]) + [s[0]];
      FilterConcat(Reversed(s[1..]), [s[0]], p);
      FilterReversedSize(s[1..], p);
      assert [s[0]][1..] == [];
    } else {
      assert Reversed(s) == [];
    }
  }

  /** Counting a key's values outright is counting what iterating over all of them yields, in either
      direction. */
  lemma WholeKeyCountIsYields(rows: seq<Row>, q: Query)
    requires Sorted(rows) && WellPosed(q) && q.valuesForKey && q.values && !q.bounded && !q.exactMatch && q.offset == 0
    ensures |Yields(rows, q)| == match StartAt(rows, q) case None => 0 case Some(i) => CountDup(rows, i)
  {
    hide Sorted, Filter, Lex, Until, Trail, Yields;
    match StartAt(rows, q)
    case None => NothingYields(rows, q);
    case Some(i) =>
      ValuesYieldExactly(rows, q);
      assert rows[i].key == q.key by {
        StartsOnKey(rows, q);
      }
      var facing := Facing(rows, q.reverse);
      FilterCongruent(facing, WithinValues(q), (r: Row) => r.key == rows[i].key);
      if q.reverse {
        FilterReversedSize(rows, (r: Row) => r.key == rows[i].key);
      }
  }

  lemma StartsOnKey(rows: seq<Row>, q: Query)
    requires q.valuesForKey && q.key != [] && StartAt(rows, q).Some?
    ensures rows[StartAt(rows, q).value].key == q.key
  {
    hide Lex;
  }

  lemma CountsOwnRow(rows: seq<Row>, i: nat)
    requires i < |rows|
    ensures CountDup(rows, i) > 0
  {
    FilterHas(rows, (r: Row) => r.key == rows[i].key, i);
  }

  lemma FilterHas(s: seq<Row>, p: Row -> bool, i: nat)
    requires i < |s| && p(s[i])
    ensures Filter(s, p) != []
  {
    if i > 0 {
      FilterHas(s[1..], p, i - 1);
    }
  }

  predicate FirstOfKey(rows: seq<Row>, at: Option<nat>) {
    at.Some? ==> at.value < |rows| && forall k :: 0 <= k < at.value ==> rows[k].key != rows[at.value].key
  }

  lemma StartsAtFirstOfKey(rows: seq<Row>, q: Query)
    requires Sorted(rows) && !q.valuesForKey && !q.reverse
    ensures FirstOfKey(rows, StartAt(rows, q))
  {
    hide Lex;
    var at := StartAt(rows, q);
    if at.Some? && q.key != [] {
      forall k | 0 <= k < at.value ensures rows[k].key != rows[at.value].key {
      }
    }
  }

  /** From the first row of a key, the rows of that key are as many as the cursor counts, and the jump
      leads to the first row of the next key. */
  lemma GroupIsCounted(rows: seq<Row>, i: nat) returns (e: nat)
    requires Sorted(rows) && i < |rows| && FirstOfKey(rows, Some(i))
    ensures i < e <= |rows| && e == i + CountDup(rows, i) && forall k :: i <= k < e ==> rows[k].key == rows[i].key
    ensures Move(rows, NextNodup, i) == (if e < |rows| then Some(e) else None)
    ensures FirstOfKey(rows, Move(rows, NextNodup, i))
  {
    hide Sorted, Filter;
    var jump := Move(rows, NextNodup, i);
    e := if jump.Some? then jump.value else |rows|;
    forall k | 0 <= k < |rows| ensures rows[k].key == rows[i].key <==> i <= k < e {
      if k >= e && rows[k].key == rows[i].key {
        KeysContiguous(rows, i, e, k);
      }
    }
    FilterIsSlice(rows, (r: Row) => r.key == rows[i].key, i, e);
    if e < |rows| {
      forall k | 0 <= k < e ensures rows[k].key != rows[e].key {
        if rows[k].key == rows[e].key {
          KeysContiguous(rows, k, if k < i then i else k, e);
        }
      }
    }
  }

  /** One jump of the counting loop accounts for all values of its key. */
  lemma JumpCounts(rows: seq<Row>, q: Query, i: nat)
    requires Sorted(rows) && i < |rows| && FirstOfKey(rows, Some(i)) && !q.valuesForKey && !Ended(q, rows[i])
    ensures |Until(q, Trail(rows, Next, Some(i)))|
            == CountDup(rows, i) + |Until(q, Trail(rows, Next, Move(rows, NextNodup, i)))|
    ensures FirstOfKey(rows, Move(rows, NextNodup, i))
  {
    hide Sorted, Until, Trail, CountDup, FirstOfKey;
    var e := GroupIsCounted(rows, i);
    TrailNext(rows, i);
    forall k | 0 <= k < e - i ensures !Ended(q, rows[i..][k]) {
    }
    UntilPasses(q, rows[i..], e - i);
    assert rows[i..][e - i..] == rows[e..];
    if e < |rows| {
      TrailNext(rows, e);
    } else {
      TrailNothing(rows, Next);
    }
  }

  function Keys(s: seq<Row>): set<Bytes> { set r <- s :: r.key }

  /** Stepping key by key passes each key in range once: their number is the number of distinct keys
      among all the rows in range. */
  lemma {:induction false} KeyStepsAreDistinctKeys(rows: seq<Row>, q: Query, at: Option<nat>)
    requires Sorted(rows) && FirstOfKey(rows, at) && !q.valuesForKey
    ensures |Until(q, Trail(rows, NextNodup, at))| == |Keys(Until(q, Trail(rows, Next, at)))|
    decreases if at.None? then 0 else |rows| - at.value + 1
  {
    hide Sorted, CountDup, Ended, Keys, Until, Trail, Filter;
    if at.None? {
      TrailNothing(rows, Next);
      TrailNothing(rows, NextNodup);
      NoKeys(q);
    } else {
      var i := at.value;
      var jump := Move(rows, NextNodup, i);
      UntilStep(q, rows, NextNodup, i);
      if Ended(q, rows[i]) {
        UntilStep(q, rows, Next, i);
        NoKeys(q);
      } else {
        var e := GroupIsCounted(rows, i);
        KeyStepsAreDistinctKeys(rows, q, jump);
        GroupKeys(rows, q, i, e);
      }
    }
  }

  lemma NoKeys(q: Query)
    ensures Until(q, []) == [] && Keys([]) == {}
  {
  }

  lemma UntilStep(q: Query, rows: seq<Row>, op: MoveOp, i: nat)
    requires i < |rows|
    ensures Until(q, Trail(rows, op, Some(i))) ==
            if Ended(q, rows[i]) then [] else [rows[i]] + Until(q, Trail(rows, op, Move(rows, op, i)))
  {
    hide Ended;
    var rest := Trail(rows, op, Move(rows, op, i));
    assert ([rows[i]] + rest)[1..] == rest;
  }

  lemma UntilPrefix(q: Query, s: seq<Row>)
    ensures Until(q, s) <= s
  {
    hide Ended;
  }

  /** The key of a group is new to the rows after it. */
  lemma GroupKeys(rows: seq<Row>, q: Query, i: nat, e: nat)
    requires Sorted(rows) && i < e <= |rows| && !q.valuesForKey && !Ended(q, rows[i])
    requires forall k :: i <= k < e ==> rows[k].key == rows[i].key
    requires Move(rows, NextNodup, i) == (if e < |rows| then Some(e) else None)
    ensures |Keys(Until(q, Trail(rows, Next, Some(i))))|
            == 1 + |Keys(Until(q, Trail(rows, Next, Move(rows, NextNodup, i))))|
  {
    hide Sorted, Until, Trail, Filter, Lex, Keys;
    TrailNext(rows, i);
    if e < |rows| {
      TrailNext(rows, e);
    } else {
      TrailNothing(rows, Next);
    }
    UntilPasses(q, rows[i..], e - i);
    assert rows[i..][e - i..] == rows[e..] && rows[i..][..e - i] == rows[i..e];
    assert e == |rows| ==> rows[e..] == [];
    var after := Until(q, rows[e..]);
    KeysOfGroup(rows[i..e], after, rows[i].key);
    NewKey(rows, q, i, e);
  }

  lemma NewKey(rows: seq<Row>, q: Query, i: nat, e: nat)
    requires Sorted(rows) && i < e <= |rows| && (e < |rows| ==> rows[e].key != rows[i].key)
    ensures rows[i].key !in Keys(Until(q, rows[e..]))
  {
    hide Sorted, Until, Lex, Ended;
    var after := Until(q, rows[e..]);
    UntilPrefix(q, rows[e..]);
    forall k | 0 <= k < |after| ensures after[k].key != rows[i].key {
      assert after[k] == rows[e + k];
      if rows[e + k].key == rows[i].key {
        KeysContiguous(rows, i, e, e + k);
      }
    }
  }

  lemma KeysOfGroup(group: seq<Row>, after: seq<Row>, key: Bytes)
    requires group != [] && forall r <- group :: r.key == key
    ensures Keys(group + after) == Keys(after) + {key}
  {
    assert group[0] in group + after;
    forall k ensures k in Keys(group + after) <==> k in Keys(after) + {key} {
      if k in Keys(after) {
        var r :| r in after && r.key == k;
        assert r in group + after;
      }
    }
  }

  /** Counting keys forward counts the distinct keys among the rows in range, repeated keys or not. */
  lemma KeyCountIsDistinctKeys(rows: seq<Row>, q: Query)
    requires Sorted(rows) && !q.valuesForKey && !q.exactMatch && !q.reverse && !q.values && q.offset == 0
    ensures |Yields(rows, q)| == |Keys(Filter(rows, Within(q)))|
  {
    hide Sorted, Trail, Filter, Lex, Keys, Until, StartAt;
    var at, entries := StartAt(rows, q), q.(values := true);
    RangeYieldsExactly(rows, entries);
    StartsAtFirstOfKey(rows, q);
    KeyStepsAreDistinctKeys(rows, q, at);
    SameBounds(rows, q, entries, Trail(rows, Next, at));
  }

  lemma {:induction false} SameBounds(rows: seq<Row>, q: Query, q': Query, s: seq<Row>)
    requires q' == q.(values := q'.values)
    ensures Until(q, s) == Until(q', s) && StartAt(rows, q) == StartAt(rows, q')
    ensures Filter(rows, Within(q)) == Filter(rows, Within(q'))
  {
    UntilAlike(q, q', s);
    FilterAlike(rows, q, q');
  }

  lemma {:induction false} UntilAlike(q: Query, q': Query, s: seq<Row>)
    requires q' == q.(values := q'.values)
    ensures Until(q, s) == Until(q', s)
  {
    if s != [] {
      UntilAlike(q, q', s[1..]);
    }
  }

  lemma {:induction false} FilterAlike(s: seq<Row>, q: Query, q': Query)
    requires q' == q.(values := q'.values)
    ensures Filter(s, Within(q)) == Filter(s, Within(q'))
  {
    if s != [] {
      FilterAlike(s[1..], q, q');
    }
  }

  // -------------------------------------------------------------- the cursor

  class Cursor {
    const rows: seq<Row>
    const dupSort: bool
    var query: Query
    var iteratingOp: MoveOp
    var at: Option<nat>

    constructor (rows: seq<Row>, dupSort: bool)
      ensures this.rows == rows && this.dupSort == dupSort
    {
      this.rows, this.dupSort := rows, dupSort;
      query := Query(true, false, false, false, [], [], [], true, 0);
      iteratingOp, at := Next, None;
    }

    ghost predicate Valid()
      reads this
    {
      (at.Some? ==> at.value < |rows|) && forall i :: 0 <= i < |rows| ==> rows[i].key != []
    }

    /** What the cursor has still to yield, its own position included. */
    ghost function Ahead(): seq<Row>
      requires Valid()
      reads this
    {
      Until(query, Trail(rows, iteratingOp, at))
    }

    method ReturnEntry() returns (keySize: nat)
      requires Valid()
      ensures keySize > 0 <==> Ahead() != []
      ensures keySize > 0 ==> at.Some? && Ahead()[0] == rows[at.value]
    {
      if at.None? || Ended(query, rows[at.value]) {
        return 0;
      }
      return |rows[at.value].key|;
    }

    /** One step with the operation chosen when positioning. */
    method Iterate() returns (keySize: nat)
      requires Valid() && Ahead() != []
      modifies `at
      ensures Valid() && Ahead() == old(Ahead())[1..]
      ensures keySize > 0 <==> Ahead() != []
      ensures keySize > 0 ==> at.Some? && Ahead()[0] == rows[at.value]
    {
      at := Move(rows, iteratingOp, at.value);
      keySize := ReturnEntry();
    }

    /** The position before the offset, by the branches of the code. */
    method Seek(q: Query) returns (found: Option<nat>)
      requires WellPosed(q)
      ensures found == StartAt(rows, q)
    {
      if q.key == [] {
        return if q.reverse then Last(rows) else First(rows);
      }
      if q.valuesForKey {
        if q.reverse {
          found := if q.startValue != [] then GetBothRange(rows, q.key, q.startValue) else SetKey(rows, q.key);
          if found.None? {
            if q.startValue != [] {
              found := SetKey(rows, q.key);
              if found.Some? {
                found := LastDup(rows, found.value);
              }
            }
          } else if q.startValue == [] {
            found := LastDup(rows, found.value);
          } else if Lex(q.startValue, rows[found.value].val) != 0 {
            found := Move(rows, PrevDup, found.value);
          }
        } else {
          found := if q.startValue != [] then
                     if q.exactMatch then GetBoth(rows, q.key, q.startValue)
                     else GetBothRange(rows, q.key, q.startValue)
                   else SetKey(rows, q.key);
        }
      } else if q.reverse {
        found := SetRange(rows, q.key);
        if found.None? {
          found := Last(rows);
        } else if Lex(q.key, rows[found.value].key) != 0 {
          found := Move(rows, Prev, found.value);
        }
      } else {
        found := if q.exactMatch then SetKey(rows, q.key) else SetRange(rows, q.key);
      }
    }

    /** `doPosition` without the counting flag: goes to the first row to yield. */
    method Position(q: Query) returns (keySize: nat)
      requires Valid() && WellPosed(q)
      modifies this
      ensures Valid() && Ahead() == Yields(rows, q)
      ensures keySize > 0 <==> Ahead() != []
      ensures keySize > 0 ==> at.Some? && Ahead()[0] == rows[at.value]
    {
      hide Until, Trail, StartAt, Drop, IteratingOp, Ended, WellPosed;
      query := q;
      iteratingOp := IteratingOp(q);
      at := Seek(q);
      Skip(q.offset);
      keySize := ReturnEntry();
    }

    /** The loop that applies the offset. */
    method Skip(n: nat)
      requires Valid()
      modifies `at
      ensures Valid() && Trail(rows, iteratingOp, at) == Drop(old(Trail(rows, iteratingOp, at)), n)
      ensures n == 0 ==> at == old(at)
    {
      hide Ended, Until, Move;
      var offset: nat := n;
      ghost var whole := Trail(rows, iteratingOp, at);
      while offset > 0 && at.Some?
        invariant offset <= n && Valid() && (offset == n ==> at == old(at))
        invariant Drop(whole, n) == Drop(Trail(rows, iteratingOp, at), offset)
      {
        at := Move(rows, iteratingOp, at.value);
        offset := offset - 1;
      }
      assert offset == 0 ==> Drop(Trail(rows, iteratingOp, at), offset) == Trail(rows, iteratingOp, at);
    }

    /** `doPosition` with the counting flag. Values of one key without bounds are counted outright; else
        the loop counts what iteration would yield, jumping key by key where every value is wanted. */
    method Count(q: Query) returns (count: nat)
      requires Valid() && WellPosed(q)
      modifies this
      ensures CountsWholeKey(q) ==>
                count == match StartAt(rows, q) case None => 0 case Some(i) => CountDup(rows, i)
      ensures Sorted(rows) && CountsWholeKey(q) && q.values && !q.exactMatch && q.offset == 0 ==>
                count == |Yields(rows, q)|
      ensures q.valuesForKey && q.exactMatch && !q.reverse && q.startValue != [] ==>
                (count > 0 <==> Row(q.key, q.startValue) in rows)
      ensures !CountsWholeKey(q) && !Jumps(dupSort, q) ==> count == |Yields(rows, q)|
      ensures Jumps(dupSort, q) && Sorted(rows) && !q.reverse && q.offset == 0 ==> count == |Yields(rows, q)|
    {
      hide Sorted, Ended, StartAt, Lex, CountDup, Trail, Until, Drop, Move, Filter, FirstOfKey;
      query := q;
      iteratingOp := IteratingOp(q);
      at := Seek(q);
      if Sorted(rows) && q.valuesForKey && q.values && !q.bounded && !q.exactMatch && q.offset == 0 {
        WholeKeyCountIsYields(rows, q);
      }
      if q.valuesForKey && q.exactMatch && !q.reverse && q.startValue != [] {
        ExactMatchFinds(rows, q);
      }
      if q.valuesForKey {
        if at.None? {
          NothingYields(rows, q);
          return 0;
        }
        if CountsWholeKey(q) {
          CountsOwnRow(rows, at.value);
          return CountDup(rows, at.value);
        }
      }
      Skip(q.offset);
      if dupSort && (iteratingOp == Prev || iteratingOp == Next) {
        ghost var exact := iteratingOp == Next && Sorted(rows) && q.offset == 0;
        if exact {
          StartsAtFirstOfKey(rows, q);
        }
        iteratingOp := if iteratingOp == Prev then PrevNodup else NextNodup;
        count := CountJumping(exact);
      } else {
        count := CountEach();
      }
    }

    method CountEach() returns (count: nat)
      requires Valid()
      modifies `at
      ensures count == |old(Ahead())|
    {
      hide Ended;
      count := 0;
      while at.Some? && !Ended(query, rows[at.value])
        invariant Valid() && count + |Ahead()| == |old(Ahead())|
        decreases if at.None? then 0 else if Forward(iteratingOp) then |rows| - at.value + 1 else at.value + 1
      {
        UntilStep(query, rows, iteratingOp, at.value);
        count := count + 1;
        at := Move(rows, iteratingOp, at.value);
      }
    }

    /** With `exact`, the cursor stands on the first row of a key and moves forward. */
    method CountJumping(ghost exact: bool) returns (count: nat)
      requires Valid() && !query.valuesForKey && iteratingOp in {PrevNodup, NextNodup}
      requires exact ==> iteratingOp == NextNodup && Sorted(rows) && FirstOfKey(rows, at)
      modifies `at
      ensures exact ==> count == |Until(query, Trail(rows, Next, old(at)))|
    {
      hide Sorted, Ended, Lex, CountDup, FirstOfKey, Until, Trail;
      count := 0;
      while at.Some? && !Ended(query, rows[at.value])
        invariant Valid()
        invariant exact ==>
                    && FirstOfKey(rows, at)
                    && |Until(query, Trail(rows, Next, old(at)))| == count + |Until(query, Trail(rows, Next, at))|
        decreases if at.None? then 0 else if Forward(iteratingOp) then |rows| - at.value + 1 else at.value + 1
      {
        if exact {
          JumpCounts(rows, query, at.value);
        }
        count := count + CountDup(rows, at.value);
        at := Move(rows, iteratingOp, at.value);
      }
      if at.Some? {
        UntilStep(query, rows, Next, at.value);
      } else {
        TrailNothing(rows, Next);
        NoKeys(query);
      }
    }

    /** The iterator of `getRange`: positions on the first call, steps on the others, and stops at the
        end or at the limit. */
    method GetRange(q: Query, limit: Option<nat>) returns (results: seq<Row>)
      requires Valid() && WellPosed(q)
      modifies this
      ensures results == Take(Yields(rows, q), limit)
    {
      hide Until, Trail, StartAt, IteratingOp, Drop;
      ghost var all := Yields(rows, q);
      results := [];
      var count, keySize := 0, 0;
      while true
        invariant count == |results| <= |all| && results == all[..count] && Valid()
        invariant count > 0 ==> Ahead() == all[count - 1..]
        invariant limit.Some? ==> count <= limit.value
        decreases |all| - count
      {
        if count == 0 {
          keySize := Position(q);
        } else {
          keySize := Iterate();
        }
        if keySize == 0 || (limit.Some? && count >= limit.value) {
          return;
        }
        count := count + 1;
        results := results + [rows[at.value]];
      }
    }
  }
}
