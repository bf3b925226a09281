/** The round-robin choice of a service instance in RPCClient.Call. */
module RoundRobin {
  import opened Common

  /** The counters kept per service name; a missing entry reads as zero. */
  class Selector {
    var nextInstance: map<string, nat>

    constructor ()
      ensures nextInstance == map[]
    {
      nextInstance := map[];
    }

    function Counter(service: string): nat
      reads this
    {
      if service in nextInstance then nextInstance[service] else 0
    }

    /** The index picked among `n` instances. Other services' counters are untouched. */
    method Select(service: string, n: nat) returns (index: nat)
      requires n > 0
      modifies this
      ensures index == Pick(old(Counter(service)), n) < n
      ensures Counter(service) == (old(Counter(service)) + 1) % U64
      ensures forall other | other != service :: Counter(other) == old(Counter(other))
    {
      var currentIndex := Counter(service);
      index := currentIndex % n;
      nextInstance := nextInstance[service := (currentIndex + 1) % U64];
    }

    /** `k` consecutive calls for one service with a fixed list of instances. */
    method SelectMany(service: string, n: nat, k: nat) returns (picks: seq<nat>)
      requires n > 0 && Counter(service) + k <= U64
      modifies this
      ensures |picks| == k
      ensures forall i | 0 <= i < n :: k / n <= Count(picks, i) <= (k + n - 1) / n
    {
      picks := [];
      ghost var start := Counter(service);
      for j := 0 to k
        invariant |picks| == j && (j < k ==> Counter(service) == start + j)
        invariant picks == Window(start, j, n)
      {
        var p := Select(service, n);
        picks := picks + [p];
      }
      forall i | 0 <= i < n ensures k / n <= Count(picks, i) <= (k + n - 1) / n {
        WindowIsFair(start, k, n, i);
      }
    }
  }

  function Pick(counter: nat, n: nat): nat
    requires n > 0
  {
    counter % n
  }

  /** The picks of `k` consecutive calls from counter value `start` on. */
  function Window(start: nat, k: nat, n: nat): (w: seq<nat>)
    requires n > 0
    ensures |w| == k
  {
    if k == 0 then [] else Window(start, k - 1, n) + [Pick(start + k - 1, n)]
  }

  function Count(picks: seq<nat>, i: nat): nat {
    if picks == [] then 0
    else Count(picks[..|picks| - 1], i) + (if picks[|picks| - 1] == i then 1 else 0)
  }

  /** How often instance `i` has been picked when the counter stands at `x`. */
  function Passed(x: nat, n: nat, i: nat): nat
    requires n > 0 && i < n
  {
    (x + n - 1 - i) / n
  }

  lemma PassedIs(x: nat, n: nat, i: nat, q: nat, r: nat)
    requires n > 0 && i < n && r < n && x + n - 1 - i == q * n + r
    ensures Passed(x, n, i) == q
  {
    DivUnique(x + n - 1 - i, n, q, r);
  }

  /** Going from `x` to `x + 1` moves the quotient of `x + n - 1 - i` exactly when `x` picks `i`. */
  lemma QuotientStep(x: nat, n: nat, i: nat)
    requires n > 0 && i < n
    ensures Passed(x + 1, n, i) == Passed(x, n, i) + (if x % n == i then 1 else 0)
  {
    hide Passed;
    var q, r := x / n, x % n;
    assert x == q * n + r;
    if r > i {
      PassedIs(x, n, i, q + 1, r - 1 - i);
      PassedIs(x + 1, n, i, q + 1, r - i);
    } else {
      PassedIs(x, n, i, q, n - 1 - i + r);
      if r == i {
        PassedIs(x + 1, n, i, q + 1, 0);
      } else {
        PassedIs(x + 1, n, i, q, n - i + r);
      }
    }
  }

  /** How often instance `i` is picked in a window, in closed form. */
  lemma {:induction false} WindowCount(start: nat, k: nat, n: nat, i: nat)
    requires n > 0 && i < n
    ensures Count(Window(start, k, n), i) == Passed(start + k, n, i) - Passed(start, n, i)
  {
    hide Passed;
    if k > 0 {
      WindowCount(start, k - 1, n, i);
      var w := Window(start, k, n);
      assert w[..k - 1] == Window(start, k - 1, n);
      QuotientStep(start + k - 1, n, i);
    }
  }

  lemma QuotientGap(x: nat, k: nat, n: nat)
    requires n > 0
    ensures k / n <= (x + k) / n - x / n <= (k + n - 1) / n
  {
    var q, r := x / n, x % n;
    var a, b := k / n, k % n;
    if r + b < n {
      Carry(x, k, n, q, a, r, b);
    } else {
      CarryOver(x, k, n, q, a, r, b);
    }
    RoundUp(k, n, a, b);
  }

  lemma Carry(x: nat, k: nat, n: nat, q: nat, a: nat, r: nat, b: nat)
    requires n > 0 && x == q * n + r && k == a * n + b && r + b < n
    ensures (x + k) / n == q + a
  {
    assert (q + a) * n == q * n + a * n;
    DivUnique(x + k, n, q + a, r + b);
  }

  lemma CarryOver(x: nat, k: nat, n: nat, q: nat, a: nat, r: nat, b: nat)
    requires n > 0 && x == q * n + r && k == a * n + b && r < n && b < n && n <= r + b
    ensures (x + k) / n == q + a + 1
  {
    assert (q + a + 1) * n == q * n + a * n + n;
    DivUnique(x + k, n, q + a + 1, r + b - n);
  }

  lemma RoundUp(k: nat, n: nat, a: nat, b: nat)
    requires n > 0 && k == a * n + b && b < n
    ensures (k + n - 1) / n == if b > 0 then a + 1 else a
  {
    if b > 0 {
      assert (a + 1) * n == a * n + n;
      DivUnique(k + n - 1, n, a + 1, b - 1);
    } else {
      DivUnique(k + n - 1, n, a, n - 1);
    }
  }

  /** Every window of `k` calls picks each of the `n` instances floor(k/n) or ceil(k/n)
      times. */
  lemma WindowIsFair(start: nat, k: nat, n: nat, i: nat)
    requires n > 0 && i < n
    ensures k / n <= Count(Window(start, k, n), i) <= (k + n - 1) / n
  {
    WindowCount(start, k, n, i);
    QuotientGap(start + n - 1 - i, k, n);
  }
}
