/** The order in which a measurement pair runs its engines: a rotation that advances
    every second pair, reversed on the odd ones. */
module EngineOrder {
  import opened Wrappers
  import opened Bits
  import opened Lcg

  function Reverse<T>(s: seq<T>): (r: seq<T>)
    ensures |r| == |s|
    ensures forall i :: 0 <= i < |s| ==> r[i] == s[|s| - 1 - i]
  {
    if s == [] then [] else Reverse(s[1..]) + [s[0]]
  }

  /** The engines of a pair; no engines, no order. */
  method OrderForPair<T>(names: seq<T>, pair: nat) returns (r: Result<seq<T>>)
    ensures if names == [] then r.Failure? else r == Success(Order(names, pair))
  {
    if names == [] {
      return Failure("engine order requires at least one approved engine");
    }
    var start := pair / 2 % |names|;
    var order := names[start..] + names[..start];
    if pair % 2 == 1 {
      var k, reversed := |order|, [];
      while k > 0
        invariant 0 <= k <= |order| && reversed == Reverse(order[k..])
      {
        k := k - 1;
        assert order[k..][1..] == order[k + 1..];
        reversed := reversed + [order[k]];
      }
      assert order[0..] == order;
      order := reversed;
    }
    r := Success(order);
  }

  function Order<T>(names: seq<T>, pair: nat): (r: seq<T>)
    requires names != []
    ensures |r| == |names|
  {
    var start := pair / 2 % |names|;
    var order := names[start..] + names[..start];
    if pair % 2 == 1 then Reverse(order) else order
  }

  // ----- Every order is a permutation -----

  lemma {:induction false} ReversePermutes<T>(s: seq<T>)
    ensures multiset(Reverse(s)) == multiset(s)
  {
    if s != [] {
      ReversePermutes(s[1..]);
      assert s == [s[0]] + s[1..];
    }
  }

  lemma {:induction false} OrderPermutes<T>(names: seq<T>, pair: nat)
    requires names != []
    ensures multiset(Order(names, pair)) == multiset(names)
  {
    var start := pair / 2 % |names|;
    assert names == names[..start] + names[start..];
    ReversePermutes(names[start..] + names[..start]);
  }

  // ----- Positions are balanced -----

  /** Which engine stands at position `k`. */
  function Standing(n: nat, pair: nat, k: nat): (e: nat)
    requires k < n
    ensures e < n
  {
    (pair / 2 + if pair % 2 == 1 then n - 1 - k else k) % n
  }

  lemma {:induction false} OrderAt<T>(names: seq<T>, pair: nat, k: nat)
    requires k < |names|
    ensures Order(names, pair)[k] == names[Standing(|names|, pair, k)]
  {
    var n, p := |names|, pair / 2;
    var j := if pair % 2 == 1 then n - 1 - k else k;
    var start := p % n;
    ModAdd(p, j, n);
  }

  lemma {:induction false} ModAdd(p: nat, j: nat, n: nat)
    requires j < n
    ensures (p + j) % n == if p % n + j < n then p % n + j else p % n + j - n
  {
    var q, r := p / n, p % n;
    assert p == n * q + r;
    if r + j < n {
      DivModUnique(p + j, n, q, r + j);
    } else {
      assert p + j == n * (q + 1) + (r + j - n);
      DivModUnique(p + j, n, q + 1, r + j - n);
    }
  }

  /** The only `h` among `n` consecutive numbers for which `h + j` leaves remainder `e`. */
  function Solution(a: nat, j: nat, e: nat, n: nat): (h: nat)
    requires e < n && j < n
    ensures a <= h < a + n
  {
    a + (e - j - a) % n
  }

  lemma {:induction false} SolutionIff(a: nat, j: nat, e: nat, n: nat, h: nat)
    requires e < n && j < n && a <= h < a + n
    ensures (h + j) % n == e <==> h == Solution(a, j, e, n)
  {
    var x := e - j - a;
    var q, r := x / n, x % n;
    assert x == n * q + r;
    if h == a + r {
      assert h + j == n * (-q) + e;
      DivModUnique(h + j, n, -q, e);
    }
    if (h + j) % n == e {
      var p := (h + j) / n;
      assert h + j == n * p + e;
      assert h - a == n * p + n * q + r;
      assert n * p + n * q == n * (p + q);
      DivModUnique(h - a, n, p + q, r);
      DivModUnique(h - a, n, 0, h - a);
    }
  }

  /** The even pair of the window in which engine `e` stands at position `k`. */
  function ForwardTurn(n: nat, first: nat, k: nat, e: nat): (pair: nat)
    requires k < n && e < n
    ensures first <= pair < first + 2 * n && pair % 2 == 0
  {
    2 * Solution((first + 1) / 2, k, e, n)
  }

  /** The odd one. */
  function ReversedTurn(n: nat, first: nat, k: nat, e: nat): (pair: nat)
    requires k < n && e < n
    ensures first <= pair < first + 2 * n && pair % 2 == 1
  {
    2 * Solution(first / 2, n - 1 - k, e, n) + 1
  }

  lemma {:induction false} StandsIff(n: nat, first: nat, k: nat, e: nat, pair: nat)
    requires k < n && e < n && first <= pair < first + 2 * n
    ensures Standing(n, pair, k) == e <==> pair == ForwardTurn(n, first, k, e) || pair == ReversedTurn(n, first, k, e)
  {
    hide Solution;
    if pair % 2 == 0 {
      SolutionIff((first + 1) / 2, k, e, n, pair / 2);
    } else {
      SolutionIff(first / 2, n - 1 - k, e, n, pair / 2);
    }
  }

  /** The pairs of a window of `2n` in which engine `e` stands at position `k`. */
  function Turns(n: nat, first: nat, k: nat, e: nat): (s: set<nat>)
    requires k < n
  {
    set pair | first <= pair < first + 2 * n && Standing(n, pair, k) == e
  }

  /** In any window each engine takes each position exactly twice: once in a forward pair,
      once in a reversed one. */
  lemma {:induction false} Balanced(n: nat, first: nat, k: nat, e: nat)
    requires k < n && e < n
    ensures |Turns(n, first, k, e)| == 2
    ensures exists even, odd :: even % 2 == 0 && odd % 2 == 1 && Turns(n, first, k, e) == {even, odd}
  {
    hide Standing; hide ForwardTurn; hide ReversedTurn;
    var even, odd := ForwardTurn(n, first, k, e), ReversedTurn(n, first, k, e);
    forall pair | first <= pair < first + 2 * n
      ensures Standing(n, pair, k) == e <==> pair == even || pair == odd
    {
      StandsIff(n, first, k, e, pair);
    }
    assert Turns(n, first, k, e) == {even, odd};
  }

  /** The same for the orders themselves, when the engines are distinct. */
  lemma {:induction false} EnginesBalanced<T>(names: seq<T>, first: nat, k: nat, e: nat)
    requires k < |names| && e < |names|
    requires forall i, j :: 0 <= i < j < |names| ==> names[i] != names[j]
    ensures |set pair | first <= pair < first + 2 * |names| && Order(names, pair)[k] == names[e]| == 2
  {
    hide Standing; hide Order;
    forall pair | first <= pair < first + 2 * |names|
      ensures Order(names, pair)[k] == names[e] <==> Standing(|names|, pair, k) == e
    {
      OrderAt(names, pair, k);
    }
    Balanced(|names|, first, k, e);
    assert (set pair | first <= pair < first + 2 * |names| && Order(names, pair)[k] == names[e])
      == Turns(|names|, first, k, e);
  }
}
