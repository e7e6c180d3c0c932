/** Chains of jumps: `finaltarget` comes to an end or goes round for ever. */
module LpChains {
  import opened Peg
  import opened LpVm
  import opened LpCodegen
  import opened LpLayout
  import opened LpPeephole

  predicate JumpsOn(code: Code, x: int) {
    0 <= x < |code| && code[x] == IJmp && HasLabel(code, x)
  }

  /** The chain of jumps from `x` ends. */
  ghost predicate Ends(code: Code, x: int) {
    exists f: nat :: !JumpsOn(code, FinalTarget(code, x, f))
  }

  ghost predicate AllEnd(code: Code) { forall x: int :: Ends(code, x) }

  lemma EndsHere(code: Code, x: int)
    requires !JumpsOn(code, x)
    ensures Ends(code, x)
  {
    assert FinalTarget(code, x, 0) == x;
  }

  lemma EndsBack(code: Code, x: int)
    requires JumpsOn(code, x) && Ends(code, Label(code, x))
    ensures Ends(code, x)
  {
    var f: nat :| !JumpsOn(code, FinalTarget(code, Label(code, x), f));
    assert FinalTarget(code, x, f + 1) == FinalTarget(code, Label(code, x), f);
  }

  lemma {:induction false} TargetAdd(code: Code, x: int, f: nat, h: nat)
    ensures FinalTarget(code, x, f + h) == FinalTarget(code, FinalTarget(code, x, f), h)
    decreases f
  {
    if f > 0 && JumpsOn(code, x) { TargetAdd(code, Label(code, x), f - 1, h); }
    else if f > 0 { TargetStays(code, x, f + h); TargetStays(code, x, h); }
  }

  lemma TargetStays(code: Code, x: int, f: nat)
    requires !JumpsOn(code, x)
    ensures FinalTarget(code, x, f) == x
  {
  }

  /** A machine that stops cannot be caught in jumps. */
  lemma {:induction false} HaltsEnds(code: Code, s: Subject, x: int, i: nat, k: Stack, n: nat, a: Answer)
    requires RunFor(code, s, Run(x, i, k), n) == Done(a)
    ensures Ends(code, x)
    decreases n
  {
    if JumpsOn(code, x) {
      HaltsEnds(code, s, Label(code, x), i, k, n - 1, a);
      EndsBack(code, x);
    } else {
      EndsHere(code, x);
    }
  }

  // ---------- the bound |code| suffices ----------

  /** Distinct numbers below `n` are at most `n` many. */
  lemma {:induction false} Pigeons(q: seq<int>, n: nat)
    requires forall i :: 0 <= i < |q| ==> 0 <= q[i] < n
    requires forall i, j :: 0 <= i < j < |q| ==> q[i] != q[j]
    ensures |q| <= n
    decreases n
  {
    assert |q| > 0 ==> 0 <= q[0] < n;
    if n > 0 {
      if i :| 0 <= i < |q| && q[i] == n - 1 {
        Pigeons(q[..i] + q[i + 1..], n - 1);
      } else {
        Pigeons(q, n - 1);
      }
    }
  }

  /** The addresses of a chain that is still jumping are distinct. */
  lemma {:induction false} ChainDistinct(code: Code, x: int, e: nat, f: nat, h: nat)
    requires h < f < e && !JumpsOn(code, FinalTarget(code, x, e)) && JumpsOn(code, FinalTarget(code, x, h + (e - f)))
    ensures FinalTarget(code, x, h) != FinalTarget(code, x, f)
  {
    TargetAdd(code, x, h, e - f);
    TargetAdd(code, x, f, e - f);
  }

  lemma {:induction false} FirstEnd(code: Code, x: int, f: nat) returns (e: nat)
    requires !JumpsOn(code, FinalTarget(code, x, f))
    ensures e <= f && !JumpsOn(code, FinalTarget(code, x, e))
    ensures forall h: nat :: h < e ==> JumpsOn(code, FinalTarget(code, x, h))
    decreases f
  {
    if h: nat :| h < f && !JumpsOn(code, FinalTarget(code, x, h)) {
      e := FirstEnd(code, x, h);
    } else {
      e := f;
    }
  }

  /** A chain that ends does so within `|code|` jumps. */
  lemma TargetReached(code: Code, x: int)
    requires Ends(code, x)
    ensures !JumpsOn(code, FinalTarget(code, x, |code|))
  {
    var f: nat :| !JumpsOn(code, FinalTarget(code, x, f));
    var e := FirstEnd(code, x, f);
    var q := seq(e, h requires h >= 0 => FinalTarget(code, x, h));
    forall h, f | 0 <= h < f < |q| ensures q[h] != q[f] {
      assert JumpsOn(code, FinalTarget(code, x, h + (e - f)));
      ChainDistinct(code, x, e, f, h);
    }
    Pigeons(q, |code|);
    TargetAdd(code, x, e, |code| - e);
    TargetStays(code, FinalTarget(code, x, e), |code| - e);
  }

  // ---------- where chains lead ----------

  lemma LeadsTrans(code: Code, x: int, y: int, z: int)
    requires Leads(code, x, y) && Leads(code, y, z)
    ensures Leads(code, x, z)
  {
    var f: nat :| FinalTarget(code, x, f) == y;
    var h: nat :| FinalTarget(code, y, h) == z;
    TargetAdd(code, x, f, h);
  }

  lemma LeadsJump(code: Code, x: int)
    requires JumpsOn(code, x)
    ensures Leads(code, x, Label(code, x))
  {
    assert FinalTarget(code, x, 1) == FinalTarget(code, Label(code, x), 0);
  }

  /** A chain that comes to a word other than a jump ends. */
  lemma LeadsEnds(code: Code, x: int, z: int)
    requires Leads(code, x, z) && !JumpsOn(code, z)
    ensures Ends(code, x) && FinalTarget(code, x, |code|) == z
  {
    var f: nat :| FinalTarget(code, x, f) == z;
    TargetReached(code, x);
    if f <= |code| {
      TargetAdd(code, x, f, |code| - f);
      TargetStays(code, z, |code| - f);
    } else {
      TargetAdd(code, x, |code|, f - |code|);
      TargetStays(code, FinalTarget(code, x, |code|), f - |code|);
    }
  }

  /** Chains are the same where the code is embedded. */
  lemma {:induction false} TargetEmbeds(code: Code, a: int, w: Code, x: int, f: nat)
    requires Embeds(code, a, w)
    ensures Leads(code, a + x, a + FinalTarget(w, x, f))
    decreases f
  {
    LeadsSelf(code, a + x);
    if f > 0 && JumpsOn(w, x) {
      TargetEmbeds(code, a, w, Label(w, x), f - 1);
      LeadsJump(code, a + x);
      LeadsTrans(code, a + x, a + Label(w, x), a + FinalTarget(w, x, f));
    }
  }

  lemma LeadsEmbeds(code: Code, a: int, w: Code, x: int, y: int)
    requires Embeds(code, a, w) && Leads(w, x, y)
    ensures Leads(code, a + x, a + y)
  {
    var f: nat :| FinalTarget(w, x, f) == y;
    TargetEmbeds(code, a, w, x, f);
  }

  /** An infinite chain goes on from every address it comes to. */
  lemma EndsAlong(code: Code, x: int, y: int)
    requires Leads(code, x, y)
    ensures Ends(code, x) <==> Ends(code, y)
  {
    var f: nat :| FinalTarget(code, x, f) == y;
    if Ends(code, y) {
      var h: nat :| !JumpsOn(code, FinalTarget(code, y, h));
      TargetAdd(code, x, f, h);
    }
    if Ends(code, x) {
      var h: nat :| !JumpsOn(code, FinalTarget(code, x, h));
      TargetStays(code, FinalTarget(code, x, h), f);
      TargetAdd(code, x, h, f);
      TargetAdd(code, x, f, h);
    }
  }
}
