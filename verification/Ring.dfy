/** The circular-buffer view every queue of the driver uses: Count slots from Head, wrapping. */
module Ring {
  /** The logical contents of a ring of |a| slots. */
  function Window<T>(a: seq<T>, head: nat, count: nat): (w: seq<T>)
    requires head < |a| && count <= |a|
    ensures |w| == count
    ensures forall i :: 0 <= i < count ==> w[i] == a[Slot(|a|, head, i)]
  {
    seq(count, i requires 0 <= i < count => a[Slot(|a|, head, i)])
  }

  function Slot(n: nat, head: nat, i: nat): (k: nat)
    requires head < n && i <= n
    ensures k < n
  {
    if head + i < n then head + i else head + i - n
  }

  lemma Multiples(n: nat, k: int)
    ensures k >= 1 ==> n * k >= n
    ensures k <= -1 ==> n * k + n <= 0
  {
  }

  lemma QuotientIsOne(n: int, q: int, m: int, r: int)
    requires 0 <= m < n && 0 <= r < n && n * q + m == n + r
    ensures m == r
  {
    assert n * (q - 1) == r - m;
    Multiples(n, q - 1);
  }

  /** The remainder the code computes. */
  lemma SlotIsRemainder(n: nat, head: nat, i: nat)
    requires head < n && i <= n
    ensures (head + i) % n == Slot(n, head, i)
  {
    var x := head + i;
    if x >= n {
      QuotientIsOne(n, x / n, x % n, x - n);
    }
  }

  lemma SlotNext(n: nat, head: nat, i: nat)
    requires head < n && i < n
    ensures Slot(n, head, i + 1) == Slot(n, Slot(n, head, i), 1)
  {
  }

  /** Writing the slot after the last one appends. */
  lemma WindowPush<T>(a: seq<T>, head: nat, count: nat, x: T)
    requires head < |a| && count < |a|
    ensures Window(a[Slot(|a|, head, count) := x], head, count + 1) == Window(a, head, count) + [x]
  {
  }

  /** Advancing the head drops the oldest element. */
  lemma WindowPop<T>(a: seq<T>, head: nat, count: nat)
    requires head < |a| && 0 < count <= |a|
    ensures Window(a, Slot(|a|, head, 1), count - 1) == Window(a, head, count)[1..]
  {
  }
}
