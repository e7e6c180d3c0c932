/** When `peephole` comes to an end: exactly if every chain of jumps of the code it is given does. */
module LpReturns {
  import opened LpVm
  import opened LpCodegen
  import opened LpLayout
  import opened LpPeephole
  import opened LpChains

  // ---------- chains stay finite ----------

  lemma {:induction false} RewriteEnds(code: Code, code2: Code, i: nat, x: int, f: nat)
    requires Rewrites(code, code2, i) && !JumpsOn(code, FinalTarget(code, x, f))
    ensures Ends(code2, x)
    decreases f
  {
    if !JumpsOn(code2, x) {
      EndsHere(code2, x);
    } else if x != i {
      assert x != i + 1;
      assert JumpsOn(code, x) && Label(code2, x) == Label(code, x);
      RewriteEnds(code, code2, i, Label(code, x), f - 1);
      EndsBack(code2, x);
    } else {
      assert code[i] == IJmp;
      var l := Label(code, i);
      var h: nat :| FinalTarget(code, l, h) == Label(code2, i);
      if h <= f - 1 {
        TargetAdd(code, l, h, f - 1 - h);
        RewriteEnds(code, code2, i, Label(code2, i), f - 1 - h);
      } else {
        TargetAdd(code, l, f - 1, h - (f - 1));
        TargetStays(code, FinalTarget(code, l, f - 1), h - (f - 1));
        RewriteEnds(code, code2, i, Label(code2, i), 0);
      }
      EndsBack(code2, x);
    }
  }

  lemma RewriteAllEnd(code: Code, code2: Code, i: nat)
    requires Rewrites(code, code2, i) && AllEnd(code)
    ensures AllEnd(code2)
  {
    forall x: int ensures Ends(code2, x) {
      assert Ends(code, x);
      var f: nat :| !JumpsOn(code, FinalTarget(code, x, f));
      RewriteEnds(code, code2, i, x, f);
    }
  }

  lemma PeepAtAllEnd(code: Code, i: nat)
    requires i < |code| && AllEnd(code)
    ensures AllEnd(PeepAt(code, i))
  {
    var code1 := PeepFirst(code, i);
    PeepFirstRewrites(code, i);
    if code1 != code { RewriteAllEnd(code, code1, i); }
    if PeepAt(code, i) != code1 {
      PeepFirstRewrites(code1, i);
      RewriteAllEnd(code1, PeepAt(code, i), i);
    }
  }

  /** A rewrite makes no chain finite that was not, if the chain of the rewritten jump ends. */
  lemma {:induction false} RewriteEndsBack(code: Code, code2: Code, i: nat, x: int, f: nat)
    requires Rewrites(code, code2, i) && (code[i] == IJmp ==> Ends(code, i)) && !JumpsOn(code2, FinalTarget(code2, x, f))
    ensures Ends(code, x)
    decreases f
  {
    if !JumpsOn(code, x) {
      EndsHere(code, x);
    } else if x != i {
      assert x != i + 1 && x + 1 != i;
      assert JumpsOn(code2, x) && Label(code2, x) == Label(code, x);
      RewriteEndsBack(code, code2, i, Label(code, x), f - 1);
      EndsBack(code, x);
    }
  }

  // ---------- the visits of the pass ----------

  /** The calls of `finaltarget` in one visit to the instruction at `i` come to an end. */
  ghost predicate VisitEnds(code: Code, i: nat)
    requires i < |code|
  {
    HasLabel(code, i) ==>
      && (Labelled(code[i]) ==> Ends(code, Label(code, i)))
      && (code[i] == IJmp ==> Ends(code, i) && TargetEnds(code, FinalTarget(code, i, |code|)))
  }

  ghost predicate TargetEnds(code: Code, ft: int) {
    0 <= ft < |code| && Leaving(code[ft]) && HasLabel(code, ft) ==> Ends(code, Label(code, ft))
  }

  /** One round: a jump that became a commit is visited again. */
  ghost predicate RoundEnds(code: Code, i: nat)
    requires i < |code|
  {
    VisitEnds(code, i) && (code[i] == IJmp && Leaving(PeepFirst(code, i)[i]) ==> VisitEnds(PeepFirst(code, i), i))
  }

  /** `peephole` returns, from instruction `i` on. */
  ghost predicate PassReturns(code: Code, i: nat)
    decreases |code| - i
  {
    i < |code| ==> RoundEnds(code, i) && PassReturns(PeepAt(code, i), i + SizeI(PeepAt(code, i)[i]))
  }

  lemma AllEndVisit(code: Code, i: nat)
    requires i < |code| && AllEnd(code)
    ensures VisitEnds(code, i)
  {
    if HasLabel(code, i) {
      assert Ends(code, Label(code, i)) && Ends(code, i);
      var ft := FinalTarget(code, i, |code|);
      if 0 <= ft < |code| && HasLabel(code, ft) { assert Ends(code, Label(code, ft)); }
    }
  }

  lemma PeepFirstAllEnd(code: Code, i: nat)
    requires i < |code| && AllEnd(code)
    ensures AllEnd(PeepFirst(code, i))
  {
    PeepFirstRewrites(code, i);
    if PeepFirst(code, i) != code { RewriteAllEnd(code, PeepFirst(code, i), i); }
  }

  lemma {:induction false} AllEndReturns(code: Code, i: nat)
    requires AllEnd(code)
    ensures PassReturns(code, i)
    decreases |code| - i
  {
    if i < |code| {
      AllEndVisit(code, i);
      PeepFirstAllEnd(code, i);
      AllEndVisit(PeepFirst(code, i), i);
      PeepAtAllEnd(code, i);
      AllEndReturns(PeepAt(code, i), i + SizeI(PeepAt(code, i)[i]));
    }
  }

  // ---------- a chain that goes round is visited ----------

  /** What one round changes: the instruction at `i` keeps its size or becomes one word and another that is no jump. */
  ghost predicate Rounded(code: Code, code2: Code, i: nat)
    requires i < |code|
  {
    && |code2| == |code| && (forall x :: 0 <= x < |code| && x != i && x != i + 1 ==> code2[x] == code[x])
    && (code2 == code || (i + 1 < |code| && code2[i + 1] != IJmp && HasLabel(code, i) && (Labelled(code[i]) || code[i] == IJmp)))
    && (SizeI(code2[i]) == SizeI(code[i]) || (i + 1 < |code| && SizeI(code[i]) == 2 && SizeI(code2[i]) == 1 && code2[i + 1] == IAny))
  }

  lemma PeepFirstRounded(code: Code, i: nat)
    requires i < |code|
    ensures Rounded(code, PeepFirst(code, i), i)
  {
  }

  lemma RoundTwice(code: Code, code1: Code, code2: Code, i: nat)
    requires i < |code| && |code1| == |code| && Rounded(code, code1, i) && Rounded(code1, code2, i)
    requires HasLabel(code, i) && code[i] == IJmp && SizeI(code1[i]) == 2
    ensures Rounded(code, code2, i)
  {
  }

  lemma PeepAtRounded(code: Code, i: nat)
    requires i < |code|
    ensures Rounded(code, PeepAt(code, i), i)
  {
    PeepFirstRounded(code, i);
    var code1 := PeepFirst(code, i);
    if code[i] == IJmp && Leaving(code1[i]) {
      PeepFirstRounded(code1, i);
      if code1 != code { RoundTwice(code, code1, PeepFirst(code1, i), i); }
    }
  }

  lemma {:induction false} ParsesSame(code: Code, code2: Code, i: nat)
    requires |code2| == |code| && Parses(code, i) && forall x :: i <= x < |code| ==> code2[x] == code[x]
    ensures Parses(code2, i)
    decreases |code| - i
  {
    if i < |code| { ParsesSame(code, code2, i + SizeI(code[i])); }
  }

  /** The next round begins on a boundary. */
  lemma RoundParses(code: Code, code2: Code, i: nat)
    requires i < |code| && Parses(code, i) && Rounded(code, code2, i)
    ensures Parses(code2, i + SizeI(code2[i]))
    ensures forall x :: i + SizeI(code2[i]) <= x < |code| && code[x] == IJmp ==> x >= i + SizeI(code[i])
  {
    ParsesSame(code, code2, i + SizeI(code[i]));
  }

  lemma PeepAtEndsBack(code: Code, i: nat, x: int)
    requires i < |code| && RoundEnds(code, i) && Ends(PeepAt(code, i), x)
    ensures Ends(code, x)
  {
    var code1 := PeepFirst(code, i);
    if PeepAt(code, i) != code1 { VisitEndsBack(code1, i, x); }
    VisitEndsBack(code, i, x);
  }

  lemma VisitEndsBack(code: Code, i: nat, x: int)
    requires i < |code| && VisitEnds(code, i) && Ends(PeepFirst(code, i), x)
    ensures Ends(code, x)
  {
    PeepFirstRewrites(code, i);
    if PeepFirst(code, i) != code {
      var f: nat :| !JumpsOn(PeepFirst(code, i), FinalTarget(PeepFirst(code, i), x, f));
      RewriteEndsBack(code, PeepFirst(code, i), i, x, f);
    }
  }

  /** A pass that returns has seen the end of the chain of every jump from `i` on. */
  lemma {:induction false} ReturnsEnd(code: Code, i: nat, x: int)
    requires PassReturns(code, i) && Parses(code, i) && i <= x && JumpsOn(code, x)
    ensures Ends(code, x)
    decreases |code| - i
  {
    if x != i {
      var code2 := PeepAt(code, i);
      PeepAtRounded(code, i);
      RoundParses(code, code2, i);
      JumpStays(code, code2, i, x);
      ReturnsEnd(code2, i + SizeI(code2[i]), x);
      PeepAtEndsBack(code, i, x);
    }
  }

  /** A jump behind the instruction at `i` stays as it is. */
  lemma JumpStays(code: Code, code2: Code, i: nat, x: int)
    requires i < x && Parses(code, i) && i < |code| && Rounded(code, code2, i) && JumpsOn(code, x)
    ensures i + SizeI(code2[i]) <= x && JumpsOn(code2, x)
  {
    assert x >= i + SizeI(code[i]);
  }

  /** On code made of whole instructions `peephole` returns exactly if every chain of jumps ends. */
  lemma PassReturnsIff(code: Code)
    requires Parses(code, 0)
    ensures PassReturns(code, 0) <==> AllEnd(code)
  {
    if AllEnd(code) { AllEndReturns(code, 0); }
    if PassReturns(code, 0) {
      forall x: int ensures Ends(code, x) {
        if JumpsOn(code, x) { ReturnsEnd(code, 0, x); } else { EndsHere(code, x); }
      }
    }
  }
}
