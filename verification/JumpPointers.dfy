/** The owner-local ancestor search: every node keeps a jump to its ancestor at
    depth `d & (d - 1)`, and a search takes the jump whenever it does not overshoot. */
module JumpPointers {
  import opened Wrappers
  import opened Bits

  datatype Record = Record(id: nat, kind: nat, parent: Option<nat>, depth: nat, jump: nat)

  // ----- Forests -----

  /** A parent is one level up; only depth 0 has none. */
  predicate LinkedAt(r: seq<Record>, i: nat)
    requires i < |r|
  {
    match r[i].parent
    case None => r[i].depth == 0
    case Some(p) => p < |r| && r[i].depth == r[p].depth + 1
  }

  ghost predicate Linked(r: seq<Record>)
  {
    forall i :: 0 <= i < |r| ==> LinkedAt(r, i)
  }

  /** The node `k` parent links above `i`. */
  function Walk(r: seq<Record>, i: nat, k: nat): (a: nat)
    requires Linked(r) && i < |r| && k <= r[i].depth
    ensures a < |r| && r[a].depth == r[i].depth - k
    decreases k
  {
    assert LinkedAt(r, i);
    if k == 0 then i else Walk(r, r[i].parent.value, k - 1)
  }

  /** The ancestor of `i` at depth `t`, found by parent links alone. */
  function Up(r: seq<Record>, i: nat, t: nat): (a: nat)
    requires Linked(r) && i < |r| && t <= r[i].depth
    ensures a < |r| && r[a].depth == t
  {
    Walk(r, i, r[i].depth - t)
  }

  ghost predicate Above(r: seq<Record>, a: nat, i: nat)
    requires Linked(r) && i < |r|
  {
    exists k :: 0 <= k <= r[i].depth && Walk(r, i, k) == a
  }

  /** The depth a jump lands on. */
  function ClearLow(d: nat): (r: nat)
    requires d > 0
    ensures r < d
  {
    And(d, d - 1)
  }

  ghost predicate JumpAt(r: seq<Record>, i: nat)
    requires Linked(r) && i < |r|
  {
    if r[i].depth == 0 then r[i].jump == i else r[i].jump == Up(r, i, ClearLow(r[i].depth))
  }

  ghost predicate Jumps(r: seq<Record>)
    requires Linked(r)
  {
    forall i :: 0 <= i < |r| ==> JumpAt(r, i)
  }

  lemma {:induction false} WalkAdd(r: seq<Record>, i: nat, j: nat, k: nat)
    requires Linked(r) && i < |r| && j + k <= r[i].depth
    ensures Walk(r, Walk(r, i, j), k) == Walk(r, i, j + k)
    decreases j
  {
    assert LinkedAt(r, i);
    if j > 0 {
      WalkAdd(r, r[i].parent.value, j - 1, k);
    }
  }

  /** Going up in two stages is going up. */
  lemma {:induction false} UpUp(r: seq<Record>, i: nat, s: nat, t: nat)
    requires Linked(r) && i < |r| && t <= s <= r[i].depth
    ensures Up(r, Up(r, i, s), t) == Up(r, i, t)
  {
    WalkAdd(r, i, r[i].depth - s, s - t);
  }

  // ----- The number of iterations -----

  /** Iterations of the search from depth `d` to depth `t`. */
  function Iterations(d: nat, t: nat): (n: nat)
  {
    if d <= t then 0
    else if ClearLow(d) >= t then 1 + Iterations(ClearLow(d), t)
    else 1 + Iterations(d - 1, t)
  }

  function Triangle(b: nat): (r: nat) { if b == 0 then 0 else b + Triangle(b - 1) }

  lemma {:induction false} TriangleIs(b: nat)
    ensures Triangle(b) == b * (b + 1) / 2
  {
    if b > 0 {
      TriangleIs(b - 1);
      assert b * (b + 1) == (b - 1) * b + 2 * b;
    }
  }

  function BitLength(d: nat): (b: nat)
    ensures d < Pow2(b) && (b > 0 ==> Pow2(b - 1) <= d)
  {
    if d == 0 then 0 else 1 + BitLength(d / 2)
  }

  predicate Multiple(x: nat, m: nat) { x % Pow2(m) == 0 }

  lemma {:induction false} MultipleDown(x: nat, m: nat, n: nat)
    requires Multiple(x, m) && n <= m
    ensures Multiple(x, n)
  {
    if n < m {
      var h, q := Pow2(m - 1), x / Pow2(m);
      assert x == (2 * h) * q;
      assert x == h * (2 * q) + 0;
      DivModUnique(x, h, 2 * q, 0);
      MultipleDown(x, m - 1, n);
    }
  }

  /** A number between a multiple of `h` and the next one that is itself a multiple. */
  lemma {:induction false} NextMultiple(x: nat, y: nat, h: nat)
    requires h > 0 && x % h == 0 && y % h == 0 && x <= y
    ensures y == x || y >= x + h
  {
    var p, q := x / h, y / h;
    assert x == h * p && y == h * q;
    assert q > p ==> h * q >= h * (p + 1);
    assert q < p ==> h * p >= h * (q + 1);
  }

  /** An odd multiple of `h` loses `h` to become a multiple of `2h`. */
  lemma {:induction false} OddMultiple(x: nat, h: nat)
    requires h > 0 && x % h == 0 && x % (2 * h) != 0
    ensures x >= h && (x - h) % (2 * h) == 0 && x % (2 * h) == h
  {
    var p := x / h;
    assert x == h * p;
    if p % 2 == 0 {
      SplitQuotient(x, h, p / 2, 0);
    } else {
      SplitQuotient(x, h, p / 2, 1);
    }
  }

  lemma {:induction false} SplitQuotient(x: nat, h: nat, q: nat, odd: nat)
    requires h > 0 && odd <= 1 && x == h * (2 * q + odd)
    ensures x % (2 * h) == h * odd && x >= h * odd && (x - h * odd) % (2 * h) == 0
  {
    assert x == (2 * h) * q + h * odd;
    DivModUnique(x, 2 * h, q, h * odd);
    DivModUnique(x - h * odd, 2 * h, q, 0);
  }

  lemma {:induction false} AndSelf(x: nat)
    ensures And(x, x) == x
  {
    if x > 0 {
      AndSelf(x / 2);
    }
  }

  lemma {:induction false} HalfMultiple(x: nat, h: nat)
    requires h > 0 && x % 2 == 0
    ensures x % (2 * h) == 2 * ((x / 2) % h)
  {
    ModDouble(x, h);
  }

  /** A jump clears the lowest set bit. */
  lemma {:induction false} ClearsLowestBit(d: nat, m: nat)
    requires d > 0 && Multiple(d, m) && !Multiple(d, m + 1)
    ensures ClearLow(d) == d - Pow2(m) && Multiple(ClearLow(d), m + 1)
  {
    hide And;
    OddMultiple(d, Pow2(m));
    if m == 0 {
      ClearOdd(d);
    } else {
      MultipleDown(d, m, 1);
      assert d % 2 == 0;
      HalfMultiple(d, Pow2(m - 1));
      HalfMultiple(d, Pow2(m));
      ClearsLowestBit(d / 2, m - 1);
      ClearEven(d);
    }
  }

  lemma {:induction false} ClearOdd(d: nat)
    requires d % 2 == 1
    ensures And(d, d - 1) == d - 1
  {
    assert (d - 1) / 2 == d / 2 && (d - 1) % 2 == 0;
    AndSelf(d / 2);
  }

  lemma {:induction false} ClearEven(d: nat)
    requires d > 0 && d % 2 == 0
    ensures And(d, d - 1) == 2 * And(d / 2, d / 2 - 1)
  {
    assert (d - 1) / 2 == d / 2 - 1;
  }

  /** Both depths lie in one block of length `2^b`. */
  lemma {:induction false} IterationsInBlock(d: nat, t: nat, b: nat, base: nat)
    requires Multiple(base, b) && base <= t <= d < base + Pow2(b)
    ensures Iterations(d, t) <= Triangle(b)
    decreases b, 0, 0
  {
    if b > 0 {
      var h := Pow2(b - 1);
      MultipleDown(base, b, b - 1);
      if d < base + h {
        IterationsInBlock(d, t, b - 1, base);
      } else if t >= base + h {
        MultipleShift(base, b - 1);
        IterationsInBlock(d, t, b - 1, base + h);
      } else {
        assert Multiple(d, 0);
        IterationsAcross(d, t, b, base, b - 1);
      }
    }
  }

  lemma {:induction false} MultipleShift(x: nat, m: nat)
    requires Multiple(x, m)
    ensures Multiple(x + Pow2(m), m)
  {
    var h := Pow2(m);
    assert x + h == h * (x / h + 1) + 0;
    DivModUnique(x + h, h, x / h + 1, 0);
  }

  /** The target lies in the lower half of the block and the source in the upper:
      at most `k` bits of the source remain to be cleared before it drops. */
  lemma {:induction false} IterationsAcross(d: nat, t: nat, b: nat, base: nat, k: nat)
    requires b > 0 && k <= b - 1 && Multiple(base, b) && Multiple(d, b - 1 - k)
    requires base <= t < base + Pow2(b - 1) <= d < base + Pow2(b)
    ensures Iterations(d, t) <= k + 1 + Triangle(b - 1)
    decreases b - 1, 1, k
  {
    hide And; hide Pow2; hide Multiple; hide Triangle;
    var h, m := Pow2(b - 1), b - 1 - k;
    assert Pow2(b) == 2 * h by { Pow2Unfolds(b); }
    MultipleDown(base, b, b - 1);
    MultipleShift(base, b - 1);
    if k == 0 {
      NextOf(base + h, d, b - 1);
      assert d == base + h;
      TopBit(base, b);
      ClearsLowestBit(d, b - 1);
      if base < t {
        IterationsInBlock(d - 1, t, b - 1, base);
      }
    } else if Multiple(d, m + 1) {
      IterationsAcross(d, t, b, base, k - 1);
    } else {
      ClearsLowestBit(d, m);
      MultipleDown(base + h, b - 1, m);
      MultipleDown(base + h, b - 1, m + 1);
      NextOf(base + h, d, m);
      IterationsAcross(ClearLow(d), t, b, base, k - 1);
    }
  }

  lemma {:induction false} NextOf(x: nat, y: nat, m: nat)
    requires Multiple(x, m) && Multiple(y, m) && x <= y
    ensures y == x || y >= x + Pow2(m)
  {
    NextMultiple(x, y, Pow2(m));
  }

  lemma {:induction false} TopBit(base: nat, b: nat)
    requires b > 0 && Multiple(base, b)
    ensures !Multiple(base + Pow2(b - 1), b)
  {
    var h, q := Pow2(b - 1), base / Pow2(b);
    assert base + h == Pow2(b) * q + h;
    DivModUnique(base + h, Pow2(b), q, h);
  }

  /** A search from depth `d` takes at most `b(b+1)/2` iterations, `b` the bit length of `d`. */
  lemma {:induction false} IterationBound(d: nat, t: nat)
    requires t <= d
    ensures var b := BitLength(d); Iterations(d, t) <= b * (b + 1) / 2
  {
    var b := BitLength(d);
    IterationsInBlock(d, t, b, 0);
    TriangleIs(b);
  }

  // ----- The search -----

  /** The search terminates at the only ancestor with the wanted depth, within the
      bound; a node that is already shallow enough is returned as it is. */
  method Ancestor(records: seq<Record>, i: nat, t: nat) returns (a: nat, ghost iterations: nat)
    requires Linked(records) && Jumps(records) && i < |records|
    ensures a < |records| && (records[i].depth <= t ==> a == i && iterations == 0)
    ensures t <= records[i].depth ==> a == Up(records, i, t) && Above(records, a, i)
    ensures forall x :: 0 <= x < |records| && Above(records, x, i) && records[x].depth == t ==> x == a
    ensures var b := BitLength(records[i].depth); iterations <= b * (b + 1) / 2
  {
    hide Linked; hide Jumps; hide Iterations; hide ClearLow; hide BitLength;
    a, iterations := i, 0;
    if records[i].depth < t {
      Shallow(records, i);
      return;
    }
    while records[a].depth > t
      invariant a < |records| && t <= records[a].depth <= records[i].depth
      invariant Up(records, a, t) == Up(records, i, t)
      invariant iterations + Iterations(records[a].depth, t) == Iterations(records[i].depth, t)
      decreases records[a].depth
    {
      SearchStep(records, a, t);
      var node := records[a];
      a := if records[node.jump].depth >= t then node.jump else node.parent.value;
      iterations := iterations + 1;
    }
    SearchEnd(records, i, t);
    IterationBound(records[i].depth, t);
  }

  lemma {:induction false} Shallow(r: seq<Record>, i: nat)
    requires Linked(r) && i < |r|
    ensures forall x :: 0 <= x < |r| && Above(r, x, i) ==> r[x].depth <= r[i].depth
    ensures var b := BitLength(r[i].depth); 0 <= b * (b + 1) / 2
  {
  }

  lemma {:induction false} SearchStep(r: seq<Record>, a: nat, t: nat)
    requires Linked(r) && Jumps(r) && a < |r| && t < r[a].depth
    ensures r[a].jump < |r| && r[r[a].jump].depth == ClearLow(r[a].depth)
    ensures r[r[a].jump].depth >= t ==> Up(r, r[a].jump, t) == Up(r, a, t)
    ensures r[a].parent.Some? && r[a].parent.value < |r| && r[r[a].parent.value].depth == r[a].depth - 1
    ensures Up(r, r[a].parent.value, t) == Up(r, a, t)
    ensures Iterations(r[a].depth, t) ==
      1 + Iterations(if ClearLow(r[a].depth) >= t then ClearLow(r[a].depth) else r[a].depth - 1, t)
  {
    hide ClearLow;
    assert LinkedAt(r, a) && JumpAt(r, a);
    if ClearLow(r[a].depth) >= t {
      UpUp(r, a, ClearLow(r[a].depth), t);
    }
  }

  lemma {:induction false} SearchEnd(r: seq<Record>, i: nat, t: nat)
    requires Linked(r) && i < |r| && t <= r[i].depth
    ensures Iterations(t, t) == 0 && forall x :: 0 <= x < |r| && r[x].depth == t ==> Up(r, x, t) == x
    ensures Above(r, Up(r, i, t), i)
    ensures forall x :: 0 <= x < |r| && Above(r, x, i) && r[x].depth == t ==> x == Up(r, i, t)
  {
  }
}
