/** `fixedlen` is exact: it finds a length exactly for the patterns whose shape allows only one. */
module LpLength {
  import opened Peg
  import opened LpAnalysis

  /** The shape of `t` allows a match of `k` characters: alternatives are taken freely, a repetition runs any number of
      times, and a call beyond the budget may do anything. */
  ghost predicate Spans(g: seq<Tree>, t: Tree, k: nat, d: nat)
    decreases d, t
  {
    match t
    case Char(_) => k == 1
    case Set(_) => k == 1
    case Any => k == 1
    case Rep(_) => true
    case Capture(p) => Spans(g, p, k, d)
    case Grammar(rs) => if rs == [] then k == 0 else Spans(rs, rs[0], k, d)
    case Call(r) => d > 0 && r < |g| ==> Spans(g, g[r], k, d - 1)
    case Seq(p, q) => exists i: nat, j: nat :: i + j == k && Spans(g, p, i, d) && Spans(g, q, j, d)
    case Choice(p, q) => Spans(g, p, k, d) || Spans(g, q, k, d)
    case _ => k == 0
  }

  /** Two lengths that the shape allows, which differ if the length is not fixed. */
  lemma {:induction false} TwoSpans(g: seq<Tree>, t: Tree, d: nat) returns (i: nat, j: nat)
    ensures Spans(g, t, i, d) && Spans(g, t, j, d)
    ensures if FixedLen(g, t, d) < 0 then i != j else i == j == FixedLen(g, t, d)
    decreases d, t
  {
    match t
    case Char(_) => i, j := 1, 1;
    case Set(_) => i, j := 1, 1;
    case Any => i, j := 1, 1;
    case Rep(_) => i, j := 0, 1;
    case Capture(p) => i, j := TwoSpans(g, p, d);
    case Grammar(rs) => if rs == [] { i, j := 0, 0; } else { i, j := TwoSpans(rs, rs[0], d); }
    case Call(r) => if d == 0 || r >= |g| { i, j := 0, 1; } else { i, j := TwoSpans(g, g[r], d - 1); }
    case Seq(p, q) =>
      var a, b := TwoSpans(g, p, d);
      var x, y := TwoSpans(g, q, d);
      i := a + x;
      j := if FixedLen(g, p, d) < 0 then b + x else a + y;
    case Choice(p, q) =>
      var a, b := TwoSpans(g, p, d);
      var x, y := TwoSpans(g, q, d);
      if FixedLen(g, p, d) < 0 { i, j := a, b; } else if FixedLen(g, q, d) < 0 { i, j := x, y; } else { i, j := a, x; }
    case _ => i, j := 0, 0;
  }

  lemma {:induction false} OnlySpan(g: seq<Tree>, t: Tree, k: nat, d: nat)
    requires FixedLen(g, t, d) >= 0 && Spans(g, t, k, d)
    ensures k == FixedLen(g, t, d)
    decreases d, t
  {
    match t
    case Capture(p) => OnlySpan(g, p, k, d);
    case Grammar(rs) => if rs != [] { OnlySpan(rs, rs[0], k, d); }
    case Call(r) => OnlySpan(g, g[r], k, d - 1);
    case Seq(p, q) =>
      var i: nat, j: nat :| i + j == k && Spans(g, p, i, d) && Spans(g, q, j, d);
      OnlySpan(g, p, i, d);
      OnlySpan(g, q, j, d);
    case Choice(p, q) => if Spans(g, p, k, d) { OnlySpan(g, p, k, d); } else { OnlySpan(g, q, k, d); }
    case _ =>
  }

  ghost predicate SpansOnly(g: seq<Tree>, t: Tree, n: nat, d: nat) { forall k: nat :: Spans(g, t, k, d) <==> k == n }

  /** A pattern has fixed length `n` exactly if `n` is the only length its shape allows. */
  lemma FixedLenExact(g: seq<Tree>, t: Tree, n: nat, d: nat)
    ensures FixedLen(g, t, d) == n <==> SpansOnly(g, t, n, d)
  {
    var i, j := TwoSpans(g, t, d);
    if FixedLen(g, t, d) == n {
      forall k: nat ensures Spans(g, t, k, d) <==> k == n {
        if Spans(g, t, k, d) { OnlySpan(g, t, k, d); }
      }
    } else {
      assert Spans(g, t, i, d) && Spans(g, t, j, d) && (i != n || j != n);
    }
  }
}
