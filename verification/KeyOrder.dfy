/** Key comparison: four bytes at a time in the code, byte by byte and shorter first in meaning. */
module KeyOrder {
  import opened MachineWords

  /** Lexicographic order of byte strings, a proper prefix first: negative, zero or positive. */
  function Lex(a: Bytes, b: Bytes): (r: int)
    ensures -1 <= r <= 1
  {
    if a == [] then if b == [] then 0 else -1
    else if b == [] then 1
    else if a[0] < b[0] then -1
    else if a[0] > b[0] then 1
    else Lex(a[1..], b[1..])
  }

  // ------------------------------------------------------------ a total order

  lemma {:induction false} LexZero(a: Bytes, b: Bytes)
    ensures Lex(a, b) == 0 <==> a == b
  {
    if a != [] && b != [] && a[0] == b[0] {
      LexZero(a[1..], b[1..]);
      assert a == [a[0]] + a[1..] && b == [b[0]] + b[1..];
    }
  }

  lemma {:induction false} LexAntisymmetric(a: Bytes, b: Bytes)
    ensures Lex(a, b) == -Lex(b, a)
  {
    if a != [] && b != [] && a[0] == b[0] {
      LexAntisymmetric(a[1..], b[1..]);
    }
  }

  lemma {:induction false} LexTransitive(a: Bytes, b: Bytes, c: Bytes)
    requires Lex(a, b) <= 0 && Lex(b, c) <= 0
    ensures Lex(a, c) <= 0
    ensures Lex(a, b) < 0 || Lex(b, c) < 0 ==> Lex(a, c) < 0
  {
    if a != [] && b != [] && c != [] && a[0] == b[0] == c[0] {
      LexTransitive(a[1..], b[1..], c[1..]);
    }
  }

  // ----------------------------------------------------- how a difference decides

  /** Byte `i` of a string in zero-filled memory. */
  function Padded(a: Bytes, i: nat): int { if i < |a| then a[i] as int else 0 }

  /** The first position where the padded strings differ decides, if it lies inside `b`. */
  lemma {:induction false} FirstDifference(a: Bytes, b: Bytes, i: nat)
    requires i < |b| && (forall k :: 0 <= k < i ==> Padded(a, k) == b[k] as int) && Padded(a, i) != b[i] as int
    ensures Lex(a, b) == if Padded(a, i) > b[i] as int then 1 else -1
  {
    if a == [] {
    } else if i > 0 {
      assert Padded(a, 0) == b[0] as int;
      forall k | 0 <= k < i - 1 ensures Padded(a[1..], k) == b[1..][k] as int {
        assert Padded(a, k + 1) == b[k + 1] as int;
      }
      FirstDifference(a[1..], b[1..], i - 1);
    }
  }

  /** Without a difference inside `b` the lengths decide. */
  lemma {:induction false} NoDifference(a: Bytes, b: Bytes)
    requires forall k :: 0 <= k < |b| ==> Padded(a, k) == b[k] as int
    ensures Lex(a, b) == if |a| < |b| then -1 else if |a| > |b| then 1 else 0
  {
    if a != [] && b != [] {
      assert Padded(a, 0) == b[0] as int;
      forall k | 0 <= k < |b[1..]| ensures Padded(a[1..], k) == b[1..][k] as int {
        assert Padded(a, k + 1) == b[k + 1] as int;
      }
      NoDifference(a[1..], b[1..]);
    }
  }

  // ------------------------------------------------------------ words of bytes

  /** A 32-bit load on a little-endian machine. */
  function Load(m: Bytes, i: nat): word
    requires i + 4 <= |m|
  {
    m[i] as int + 0x100 * m[i + 1] as int + 0x1_0000 * m[i + 2] as int + 0x100_0000 * m[i + 3] as int
  }

  /** `ntohl`: the bytes in reverse. */
  function Ntohl(w: word): word {
    0x100_0000 * ByteOf(w, 0) as int + 0x1_0000 * ByteOf(w, 1) as int + 0x100 * ByteOf(w, 2) as int
    + ByteOf(w, 3) as int
  }

  /** The mask that keeps the first one, two or three bytes of a loaded word. */
  function FirstBytes(w: word, n: nat): word
    requires 1 <= n <= 3
  {
    if n == 2 then w % 0x1_0000 else if n == 1 then w % 0x100 else w % 0x100_0000
  }

  function BigEndian(b0: int, b1: int, b2: int, b3: int): int {
    0x100_0000 * b0 + 0x1_0000 * b1 + 0x100 * b2 + b3
  }

  lemma NtohlBytes(b0: int, b1: int, b2: int, b3: int)
    requires 0 <= b0 < 256 && 0 <= b1 < 256 && 0 <= b2 < 256 && 0 <= b3 < 256
    ensures Ntohl(b0 + 0x100 * b1 + 0x1_0000 * b2 + 0x100_0000 * b3) == BigEndian(b0, b1, b2, b3)
  {
    BytesOfWord(b0, b1, b2, b3);
  }

  lemma NtohlLoad(m: Bytes, i: nat)
    requires i + 4 <= |m|
    ensures Ntohl(Load(m, i)) == BigEndian(m[i] as int, m[i + 1] as int, m[i + 2] as int, m[i + 3] as int)
  {
    hide Ntohl, BigEndian;
    NtohlBytes(m[i] as int, m[i + 1] as int, m[i + 2] as int, m[i + 3] as int);
  }

  lemma NtohlMasked(m: Bytes, i: nat, n: nat)
    requires i + 4 <= |m| && 1 <= n <= 3
    ensures Ntohl(FirstBytes(Load(m, i), n)) ==
            BigEndian(m[i] as int, if n > 1 then m[i + 1] as int else 0, if n > 2 then m[i + 2] as int else 0, 0)
  {
    hide Ntohl, BigEndian;
    var b0, b1, b2, b3 := m[i] as int, m[i + 1] as int, m[i + 2] as int, m[i + 3] as int;
    MaskedWord(b0, b1, b2, b3);
    NtohlBytes(b0, if n > 1 then b1 else 0, if n > 2 then b2 else 0, 0);
  }

  lemma MaskedWord(b0: int, b1: int, b2: int, b3: int)
    requires 0 <= b0 < 256 && 0 <= b1 < 256 && 0 <= b2 < 256 && 0 <= b3 < 256
    ensures var w := b0 + 0x100 * b1 + 0x1_0000 * b2 + 0x100_0000 * b3;
            w % 0x100 == b0 && w % 0x1_0000 == b0 + 0x100 * b1 && w % 0x100_0000 == b0 + 0x100 * b1 + 0x1_0000 * b2
  {
    var w := b0 + 0x100 * b1 + 0x1_0000 * b2 + 0x100_0000 * b3;
    QuotientUnique(w, b1 + 0x100 * b2 + 0x1_0000 * b3, b0, 0x100);
    QuotientUnique(w, b2 + 0x100 * b3, b0 + 0x100 * b1, 0x1_0000);
    QuotientUnique(w, b3, b0 + 0x100 * b1 + 0x1_0000 * b2, 0x100_0000);
  }

  /** Big-endian words compare by their first differing byte. */
  lemma WordOrder(x: seq<int>, y: seq<int>) returns (j: nat)
    requires |x| == |y| == 4
    requires forall k :: 0 <= k < 4 ==> 0 <= x[k] < 256 && 0 <= y[k] < 256
    requires BigEndian(x[0], x[1], x[2], x[3]) != BigEndian(y[0], y[1], y[2], y[3])
    ensures j < 4 && x[..j] == y[..j] && x[j] != y[j]
    ensures BigEndian(x[0], x[1], x[2], x[3]) > BigEndian(y[0], y[1], y[2], y[3]) <==> x[j] > y[j]
  {
    j := if x[0] != y[0] then 0 else if x[1] != y[1] then 1 else if x[2] != y[2] then 2 else 3;
  }

  lemma WordEqual(x: seq<int>, y: seq<int>)
    requires |x| == |y| == 4
    requires forall k :: 0 <= k < 4 ==> 0 <= x[k] < 256 && 0 <= y[k] < 256
    requires BigEndian(x[0], x[1], x[2], x[3]) == BigEndian(y[0], y[1], y[2], y[3])
    ensures x == y
  {
    BytesOfWord(x[3], x[2], x[1], x[0]);
    BytesOfWord(y[3], y[2], y[1], y[0]);
  }

  // ------------------------------------------------------------- compareFast

  /** The memory around a user's key: the key, then zeros as far as the loop will read. */
  predicate ZeroPadded(m: Bytes, a: Bytes, upTo: nat) {
    |a| <= |m| && upTo <= |m| && a == m[..|a|] && forall k :: |a| <= k < upTo ==> m[k] == 0
  }

  /** A whole number of words, at least as long as a key. */
  function RoundUp(n: nat): nat { (n + 3) / 4 * 4 }

  lemma WordDecides(a: Bytes, b: Bytes, at: nat, x: seq<int>, y: seq<int>)
    requires at < |b| && forall k :: 0 <= k < at ==> Padded(a, k) == b[k] as int
    requires |x| == |y| == 4
    requires forall k :: 0 <= k < 4 ==> x[k] == Padded(a, at + k) && y[k] == Padded(b, at + k)
    ensures BigEndian(x[0], x[1], x[2], x[3]) > BigEndian(y[0], y[1], y[2], y[3]) ==> Lex(a, b) == 1
    ensures BigEndian(x[0], x[1], x[2], x[3]) < BigEndian(y[0], y[1], y[2], y[3]) ==> Lex(a, b) == -1
    ensures BigEndian(x[0], x[1], x[2], x[3]) == BigEndian(y[0], y[1], y[2], y[3]) ==>
              forall k :: 0 <= k < at + 4 && k < |b| ==> Padded(a, k) == b[k] as int
  {
    if BigEndian(x[0], x[1], x[2], x[3]) == BigEndian(y[0], y[1], y[2], y[3]) {
      WordEqual(x, y);
      forall k | at <= k < at + 4 && k < |b| ensures Padded(a, k) == b[k] as int {
        assert x[k - at] == y[k - at];
      }
    } else {
      var j := WordOrder(x, y);
      forall k | at <= k < at + j && k < |b| ensures Padded(a, k) == b[k] as int {
        assert x[..j][k - at] == y[..j][k - at];
      }
      if at + j < |b| {
        FirstDifference(a, b, at + j);
      } else {
        NoDifference(a, b);
      }
    }
  }

  /** A 64-bit difference returned as a 32-bit int. */
  function ToInt32(x: int): (r: int)
    ensures -0x8000_0000 <= x < 0x8000_0000 ==> r == x
  {
    var low := x % 0x1_0000_0000;
    if low < 0x8000_0000 then low else low - 0x1_0000_0000
  }

  /** The comparison used for keys: its sign is that of the lexicographic order, for all byte strings,
      whatever follows `b` in memory. */
  method CompareFast(memA: Bytes, memB: Bytes, ghost a: Bytes, lenA: nat, ghost b: Bytes, lenB: nat) returns (r: int)
    requires lenA == |a| && lenB == |b| && -0x8000_0000 <= lenA - lenB < 0x8000_0000
    requires ZeroPadded(memA, a, RoundUp(lenB))
    requires RoundUp(lenB) <= |memB| && b == memB[..lenB]
    ensures r < 0 <==> Lex(a, b) < 0
    ensures r > 0 <==> Lex(a, b) > 0
  {
    hide Load, Ntohl, FirstBytes, BigEndian;
    var at, remaining := 0, lenB;
    while remaining >= 4
      invariant at + remaining == lenB && at % 4 == 0
      invariant forall k :: 0 <= k < at ==> Padded(a, k) == b[k] as int
    {
      WordAtFull(memA, memB, a, b, at);
      var aVal, bVal := Ntohl(Load(memA, at)), Ntohl(Load(memB, at));
      if aVal > bVal {
        return 1;
      }
      if aVal < bVal {
        return -1;
      }
      at, remaining := at + 4, remaining - 4;
    }
    if remaining > 0 {
      WordAtEnd(memA, memB, a, b, at);
      var aVal, bVal := Ntohl(Load(memA, at)), Ntohl(FirstBytes(Load(memB, at), remaining));
      if aVal > bVal {
        return 1;
      }
      if aVal < bVal {
        return -1;
      }
    }
    NoDifference(a, b);
    return ToInt32(lenA - lenB);
  }

  lemma WordAtFull(memA: Bytes, memB: Bytes, a: Bytes, b: Bytes, at: nat)
    requires at + 4 <= |b| && forall k :: 0 <= k < at ==> Padded(a, k) == b[k] as int
    requires ZeroPadded(memA, a, RoundUp(|b|)) && RoundUp(|b|) <= |memB| && b == memB[..|b|]
    ensures at + 4 <= |memA| && at + 4 <= |memB|
    ensures Ntohl(Load(memA, at)) > Ntohl(Load(memB, at)) ==> Lex(a, b) == 1
    ensures Ntohl(Load(memA, at)) < Ntohl(Load(memB, at)) ==> Lex(a, b) == -1
    ensures Ntohl(Load(memA, at)) == Ntohl(Load(memB, at)) ==>
              forall k :: 0 <= k < at + 4 ==> Padded(a, k) == b[k] as int
  {
    hide Lex, BigEndian, Ntohl, Load;
    NtohlLoad(memA, at);
    NtohlLoad(memB, at);
    var x := [memA[at] as int, memA[at + 1] as int, memA[at + 2] as int, memA[at + 3] as int];
    var y := [memB[at] as int, memB[at + 1] as int, memB[at + 2] as int, memB[at + 3] as int];
    forall k | 0 <= k < 4 ensures x[k] == Padded(a, at + k) && y[k] == Padded(b, at + k) {
      assert x[k] == memA[at + k] as int && y[k] == memB[at + k] as int;
    }
    WordDecides(a, b, at, x, y);
  }

  lemma WordAtEnd(memA: Bytes, memB: Bytes, a: Bytes, b: Bytes, at: nat)
    requires at < |b| < at + 4 && at % 4 == 0 && forall k :: 0 <= k < at ==> Padded(a, k) == b[k] as int
    requires ZeroPadded(memA, a, RoundUp(|b|)) && RoundUp(|b|) <= |memB| && b == memB[..|b|]
    ensures at + 4 <= |memA| && at + 4 <= |memB|
    ensures var bVal := Ntohl(FirstBytes(Load(memB, at), |b| - at));
            && (Ntohl(Load(memA, at)) > bVal ==> Lex(a, b) == 1)
            && (Ntohl(Load(memA, at)) < bVal ==> Lex(a, b) == -1)
            && (Ntohl(Load(memA, at)) == bVal ==> forall k :: 0 <= k < |b| ==> Padded(a, k) == b[k] as int)
  {
    hide Lex, BigEndian, Ntohl, Load, FirstBytes;
    var n := |b| - at;
    NtohlLoad(memA, at);
    NtohlMasked(memB, at, n);
    var x := [memA[at] as int, memA[at + 1] as int, memA[at + 2] as int, memA[at + 3] as int];
    var y := [memB[at] as int, if n > 1 then memB[at + 1] as int else 0, if n > 2 then memB[at + 2] as int else 0, 0];
    forall k | 0 <= k < 4 ensures x[k] == Padded(a, at + k) && y[k] == Padded(b, at + k) {
      assert x[k] == memA[at + k] as int;
    }
    WordDecides(a, b, at, x, y);
  }
}
