/** A ring of cells that is read at one end and written at the other. */
module RingBuffer {

  /** Index of the `k`-th cell of a ring, counted from `head`. */
  function Index(head: nat, k: nat, cap: nat): nat { if head + k < cap then head + k else head + k - cap }

  /** The `n` cells of a ring from `head` on. */
  function Ring<T>(cells: seq<T>, head: nat, n: nat): (r: seq<T>)
    requires head < |cells| && n <= |cells|
    ensures |r| == n
  {
    seq(n, k requires 0 <= k < n => cells[Index(head, k, |cells|)])
  }

  lemma PopRing<T>(cells: seq<T>, head: nat, n: nat)
    requires head < |cells| && 0 < n <= |cells|
    ensures Ring(cells, head, n)[1..] == Ring(cells, if head + 1 >= |cells| then 0 else head + 1, n - 1)
    ensures Ring(cells, head, n)[0] == cells[head]
  {
  }

  /** Writing the first free cell appends to the ring. */
  lemma PushRing<T>(cells: seq<T>, head: nat, n: nat, m: T)
    requires head < |cells| && n < |cells|
    ensures Ring(cells[Index(head, n, |cells|) := m], head, n + 1) == Ring(cells, head, n) + [m]
  {
  }

  lemma IndexIsMod(head: nat, k: nat, cap: nat)
    requires head < cap && k <= cap
    ensures (head + k) % cap == Index(head, k, cap)
  {
    var x := head + k;
    assert x == cap * (x / cap) + x % cap;
    Scale(cap, x / cap);
  }

  lemma Scale(c: nat, d: nat)
    ensures d == 0 ==> c * d == 0
    ensures d == 1 ==> c * d == c
    ensures d >= 2 ==> c * d >= 2 * c
  {
  }
}
