/** The static analyses of lpcode.c (`checkaux`, `fixedlen`, `getfirst`, `headfail`,
    `hascaptures`, `needfollow`) and their soundness against the PEG semantics.

    Each analysis follows a call into the called rule.  `d` bounds how many calls may
    be pending at once; when it is used up the analysis gives its least informative
    answer, so soundness holds for every `d`.
 */
module LpAnalysis {
  import opened Peg

  datatype Pred = PEnullable | PEnofail

  /** `checkaux`: is the pattern nullable, respectively nofail? */
  function CheckAux(g: seq<Tree>, t: Tree, pred: Pred, d: nat): bool
    decreases d, t
  {
    match t
    case Char(_) => false
    case Set(_) => false
    case Any => false
    case False => false
    case Rep(_) => true
    case True => true
    case Not(_) => pred == PEnullable
    case Behind(_, _) => pred == PEnullable
    case And(p) => pred == PEnullable || CheckAux(g, p, pred, d)
    case Seq(p, q) => CheckAux(g, p, pred, d) && CheckAux(g, q, pred, d)
    case Choice(p, q) => CheckAux(g, q, pred, d) || CheckAux(g, p, pred, d)
    case Capture(p) => CheckAux(g, p, pred, d)
    case Grammar(rs) => rs != [] && CheckAux(rs, rs[0], pred, d)
    case Call(r) =>
      if d == 0 then pred == PEnullable
      else r < |g| && CheckAux(g, g[r], pred, d - 1)
  }

  predicate Nullable(g: seq<Tree>, t: Tree, d: nat) { CheckAux(g, t, PEnullable, d) }

  predicate NoFail(g: seq<Tree>, t: Tree, d: nat) { CheckAux(g, t, PEnofail, d) }

  /** `hascaptures` */
  predicate HasCaptures(g: seq<Tree>, t: Tree, d: nat)
    decreases d, t
  {
    match t
    case Capture(_) => true
    case Call(r) => d > 0 && r < |g| && HasCaptures(g, g[r], d - 1)
    case Rep(p) => HasCaptures(g, p, d)
    case Not(p) => HasCaptures(g, p, d)
    case And(p) => HasCaptures(g, p, d)
    case Behind(_, p) => HasCaptures(g, p, d)
    case Seq(p, q) => HasCaptures(g, p, d) || HasCaptures(g, q, d)
    case Choice(p, q) => HasCaptures(g, p, d) || HasCaptures(g, q, d)
    case Grammar(rs) => rs != [] && HasCaptures(rs, rs[0], d)
    case _ => false
  }

  /** `fixedlen`: the number of characters every match consumes, or -1 if not fixed. */
  function FixedLen(g: seq<Tree>, t: Tree, d: nat): (len: int)
    ensures len >= -1
    decreases d, t
  {
    match t
    case Char(_) => 1
    case Set(_) => 1
    case Any => 1
    case False => 0
    case True => 0
    case Not(_) => 0
    case And(_) => 0
    case Behind(_, _) => 0
    case Rep(_) => -1
    case Capture(p) => FixedLen(g, p, d)
    case Grammar(rs) => if rs == [] then 0 else FixedLen(rs, rs[0], d)
    case Call(r) => if d == 0 || r >= |g| then -1 else FixedLen(g, g[r], d - 1)
    case Seq(p, q) =>
      var n1 := FixedLen(g, p, d);
      var n2 := FixedLen(g, q, d);
      if n1 < 0 || n2 < 0 then -1 else n1 + n2
    case Choice(p, q) =>
      var n1 := FixedLen(g, p, d);
      var n2 := FixedLen(g, q, d);
      if n1 != n2 || n1 < 0 then -1 else n1
  }

  /** Result of `getfirst`: the first set, and whether the empty subject may be accepted. */
  datatype First = First(cs: Charset, e: bool)

  /** `getfirst` for a pattern followed by something whose first set is `fl`. */
  function GetFirst(g: seq<Tree>, t: Tree, fl: Charset, d: nat): First
    decreases d, t
  {
    match t
    case Char(c) => First({c}, false)
    case Set(cs) => First(cs, false)
    case Any => First(FULL, false)
    case True => First(fl, true)
    case False => First({}, false)
    case Choice(p, q) =>
      var f1 := GetFirst(g, p, fl, d);
      var f2 := GetFirst(g, q, fl, d);
      First(f1.cs + f2.cs, f1.e || f2.e)
    case Seq(p, q) =>
      if !Nullable(g, p, d) then GetFirst(g, p, FULL, d)
      else
        var f2 := GetFirst(g, q, fl, d);
        var f1 := GetFirst(g, p, f2.cs, d);
        First(f1.cs, f1.e && f2.e)
    case Rep(p) => First(GetFirst(g, p, fl, d).cs + fl, true)
    case Capture(p) => GetFirst(g, p, fl, d)
    case Grammar(rs) => if rs == [] then First({}, false) else GetFirst(rs, rs[0], fl, d)
    case Call(r) =>
      if d == 0 then First(FULL, true)
      else if r >= |g| then First({}, false)
      else GetFirst(g, g[r], fl, d - 1)
    case And(p) =>
      var f := GetFirst(g, p, fl, d);
      First(f.cs * fl, f.e)
    case Not(p) =>
      var (one, cs) := ToCharset(p);
      if one then First(FULL - cs, true) else First(fl, true)
    case Behind(_, _) => First(fl, true)
  }

  /** `headfail`: the pattern can only fail on the next character. */
  predicate HeadFail(g: seq<Tree>, t: Tree, d: nat)
    decreases d, t
  {
    match t
    case Char(_) => true
    case Set(_) => true
    case Any => true
    case False => true
    case Capture(p) => HeadFail(g, p, d)
    case And(p) => HeadFail(g, p, d)
    case Grammar(rs) => rs != [] && HeadFail(rs, rs[0], d)
    case Call(r) => d > 0 && r < |g| && HeadFail(g, g[r], d - 1)
    case Seq(p, q) => NoFail(g, q, d) && HeadFail(g, p, d)
    case Choice(p, q) => HeadFail(g, p, d) && HeadFail(g, q, d)
    case _ => false
  }

  /** `needfollow`: does code generation for the tree use a follow set? */
  predicate NeedFollow(t: Tree) {
    match t
    case Choice(_, _) => true
    case Rep(_) => true
    case Capture(p) => NeedFollow(p)
    case Seq(_, q) => NeedFollow(q)
    case _ => false
  }

  // ---------- soundness ----------

  /** A nofail pattern never fails, and a pattern that can match without consuming
      is nullable. */
  lemma {:induction false} CheckAuxSound(g: seq<Tree>, t: Tree, d: nat, s: Subject, i: nat, n: nat)
    requires i <= |s|
    ensures NoFail(g, t, d) ==> Match(g, t, s, i, n) != Fail
    ensures Match(g, t, s, i, n) == Ok(i) ==> Nullable(g, t, d)
    decreases n
  {
    if n > 0 {
      match t
      case Rep(p) =>
        MatchRange(g, p, s, i, n - 1);
        var r := Match(g, p, s, i, n - 1);
        if r.Ok? { CheckAuxSound(g, t, d, s, r.pos, n - 1); }
      case Seq(p, q) =>
        MatchRange(g, p, s, i, n - 1);
        CheckAuxSound(g, p, d, s, i, n - 1);
        var r := Match(g, p, s, i, n - 1);
        if r.Ok? {
          MatchRange(g, q, s, r.pos, n - 1);
          CheckAuxSound(g, q, d, s, r.pos, n - 1);
        }
      case Choice(p, q) =>
        CheckAuxSound(g, p, d, s, i, n - 1);
        CheckAuxSound(g, q, d, s, i, n - 1);
      case And(p) => CheckAuxSound(g, p, d, s, i, n - 1);
      case Capture(p) => CheckAuxSound(g, p, d, s, i, n - 1);
      case Call(r) => if r < |g| && d > 0 { CheckAuxSound(g, g[r], d - 1, s, i, n - 1); }
      case Grammar(rs) => if rs != [] { CheckAuxSound(rs, rs[0], d, s, i, n - 1); }
      case _ =>
    }
  }

  /** A pattern of fixed length consumes exactly that many characters. */
  lemma {:induction false} FixedLenSound(g: seq<Tree>, t: Tree, d: nat, s: Subject, i: nat, n: nat)
    requires i <= |s| && FixedLen(g, t, d) >= 0
    ensures var r := Match(g, t, s, i, n); r.Ok? ==> r.pos == i + FixedLen(g, t, d)
    decreases n
  {
    if n > 0 {
      match t
      case Seq(p, q) =>
        MatchRange(g, p, s, i, n - 1);
        FixedLenSound(g, p, d, s, i, n - 1);
        var r := Match(g, p, s, i, n - 1);
        if r.Ok? { FixedLenSound(g, q, d, s, r.pos, n - 1); }
      case Choice(p, q) =>
        FixedLenSound(g, p, d, s, i, n - 1);
        FixedLenSound(g, q, d, s, i, n - 1);
      case Capture(p) => FixedLenSound(g, p, d, s, i, n - 1);
      case Call(r) => FixedLenSound(g, g[r], d - 1, s, i, n - 1);
      case Grammar(rs) => if rs != [] { FixedLenSound(rs, rs[0], d, s, i, n - 1); }
      case _ =>
    }
  }

  /** What a first set promises about one match of `t` at `i`: a consumed character, or
      a character the follow set admits, is in it; and a match at the end of the subject
      is announced by `e`. */
  ghost predicate FirstAdmits(f: First, fl: Charset, s: Subject, i: nat, r: Result)
    requires i <= |s|
  {
    r.Ok? ==>
      && (i < |s| && (r.pos > i || s[i] in fl) ==> s[i] in f.cs)
      && (i == |s| ==> f.e)
  }

  lemma {:induction false} GetFirstSound(g: seq<Tree>, t: Tree, fl: Charset, d: nat, s: Subject, i: nat, n: nat)
    requires i <= |s|
    ensures FirstAdmits(GetFirst(g, t, fl, d), fl, s, i, Match(g, t, s, i, n))
    decreases n
  {
    if n > 0 {
      MatchRange(g, t, s, i, n);
      match t
      case Rep(p) =>
        MatchRange(g, p, s, i, n - 1);
        GetFirstSound(g, p, fl, d, s, i, n - 1);
        if Match(g, p, s, i, n - 1) == Ok(i) { GetFirstSound(g, t, fl, d, s, i, n - 1); }
      case Seq(p, q) => GetFirstSoundSeq(g, p, q, fl, d, s, i, n);
      case Choice(p, q) =>
        GetFirstSound(g, p, fl, d, s, i, n - 1);
        GetFirstSound(g, q, fl, d, s, i, n - 1);
      case And(p) => GetFirstSound(g, p, fl, d, s, i, n - 1);
      case Capture(p) => GetFirstSound(g, p, fl, d, s, i, n - 1);
      case Call(r) => if r < |g| && d > 0 { GetFirstSound(g, g[r], fl, d - 1, s, i, n - 1); }
      case Grammar(rs) => if rs != [] { GetFirstSound(rs, rs[0], fl, d, s, i, n - 1); }
      case _ =>
    }
  }

  lemma {:induction false} GetFirstSoundSeq(g: seq<Tree>, p: Tree, q: Tree, fl: Charset, d: nat, s: Subject, i: nat, n: nat)
    requires i <= |s| && n > 0
    ensures FirstAdmits(GetFirst(g, Seq(p, q), fl, d), fl, s, i, Match(g, Seq(p, q), s, i, n))
    decreases n, 0
  {
    var r := Match(g, p, s, i, n - 1);
    if r.Ok? {
      MatchRange(g, p, s, i, n - 1);
      MatchRange(g, q, s, r.pos, n - 1);
      if !Nullable(g, p, d) {
        GetFirstSound(g, p, FULL, d, s, i, n - 1);
      } else {
        var f2 := GetFirst(g, q, fl, d);
        GetFirstSound(g, p, f2.cs, d, s, i, n - 1);
        GetFirstSound(g, q, fl, d, s, r.pos, n - 1);
      }
    }
  }

  /** A headfail pattern never accepts the end of the subject, and cannot fail on a
      character of its first set, whatever follows it. */
  lemma {:induction false} HeadFailProgress(g: seq<Tree>, t: Tree, fl: Charset, d: nat, s: Subject, i: nat, n: nat)
    requires HeadFail(g, t, d) && i <= |s|
    ensures !GetFirst(g, t, fl, d).e
    ensures Has(s, i, GetFirst(g, t, fl, d).cs) ==> Match(g, t, s, i, n) != Fail
    decreases d, t
  {
    match t
    case Capture(p) => HeadFailProgress(g, p, fl, d, s, i, if n > 0 then n - 1 else 0);
    case And(p) => HeadFailProgress(g, p, fl, d, s, i, if n > 0 then n - 1 else 0);
    case Grammar(rs) => HeadFailProgress(rs, rs[0], fl, d, s, i, if n > 0 then n - 1 else 0);
    case Call(r) => HeadFailProgress(g, g[r], fl, d - 1, s, i, if n > 0 then n - 1 else 0);
    case Seq(p, q) =>
      var f := if Nullable(g, p, d) then GetFirst(g, q, fl, d).cs else FULL;
      HeadFailProgress(g, p, f, d, s, i, if n > 0 then n - 1 else 0);
      if n > 0 {
        MatchRange(g, p, s, i, n - 1);
        var r := Match(g, p, s, i, n - 1);
        if r.Ok? { CheckAuxSound(g, q, d, s, r.pos, n - 1); }
      }
    case Choice(p, q) =>
      HeadFailProgress(g, p, fl, d, s, i, if n > 0 then n - 1 else 0);
      HeadFailProgress(g, q, fl, d, s, i, if n > 0 then n - 1 else 0);
    case _ =>
  }

  /** A headfail pattern fails exactly when the next character is absent or outside its
      first set. */
  lemma HeadFailExact(g: seq<Tree>, t: Tree, d: nat, s: Subject, i: nat, n: nat)
    requires HeadFail(g, t, d) && i <= |s| && Match(g, t, s, i, n) != Out
    ensures Match(g, t, s, i, n) == Fail <==> !Has(s, i, GetFirst(g, t, FULL, d).cs)
  {
    HeadFailProgress(g, t, FULL, d, s, i, n);
    GetFirstSound(g, t, FULL, d, s, i, n);
  }
}
