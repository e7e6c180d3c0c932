/** Calls that `correctcalls` closes as jumps, and rules that come back to themselves by jumps alone. */
module LpTails {
  import opened Peg
  import opened LpAnalysis
  import opened LpVm
  import opened LpCodegen
  import opened LpLayout
  import opened LpPeephole
  import opened LpChains
  import opened LpFlow

  // ---------- which calls become jumps ----------

  /** A chain that comes to rest at `z` behind the call at `y`: at a return or a word that stops. */
  ghost predicate Rests(w: Code, y: int, z: int) {
    0 <= z < |w| && (w[z].IRet? || Still(w, y, z))
  }

  ghost predicate CallRests(w: Code, y: int) { exists z :: Leads(w, y + 2, z) && Rests(w, y, z) }

  /** Behind every open call the chain of jumps comes to rest. */
  ghost predicate CallsRest(w: Code) {
    forall y :: 0 <= y < |w| && w[y].IOpenCall? ==> CallRests(w, y)
  }

  lemma RestsIn(w: Code, o: nat, u: Code, y: nat)
    requires Part(w, o, u) && CallRests(u, y)
    ensures CallRests(w, o + y)
  {
    var z :| Leads(u, y + 2, z) && Rests(u, y, z);
    LeadsIn(w, o, u, y + 2, z);
    assert w[o + z] == u[z];
    assert Leads(w, o + y + 2, o + z) && Rests(w, o + y, o + z);
  }

  lemma CallsRestThen(u: Code, v: Code)
    requires CallsRest(u) && CallsRest(v)
    ensures CallsRest(u + v)
  {
    var w := u + v;
    assert Part(w, 0, u) && Part(w, |u|, v);
    forall y | 0 <= y < |w| && w[y].IOpenCall? ensures CallRests(w, y) {
      if y < |u| {
        assert w[y] == u[y];
        RestsIn(w, 0, u, y);
      } else {
        assert w[y] == v[y - |u|];
        RestsIn(w, |u|, v, y - |u|);
      }
    }
  }

  /** The body of a rule, closed by a return. */
  lemma BodyRests(body: Code)
    requires CallsOut(body)
    ensures CallsRest(body + [IRet])
  {
    var w := body + [IRet];
    assert Part(w, 0, body);
    forall y | 0 <= y < |w| && w[y].IOpenCall? ensures CallRests(w, y) {
      assert w[y] == body[y];
      var z := Exit(body, y + 2, y);
      LeadsIn(w, 0, body, y + 2, z);
      assert Rests(w, y, z) by {
        if z < |body| { assert w[z] == body[z]; }
      }
    }
  }

  lemma {:induction false} RulesRest(t: Tree, d: nat, k: nat)
    requires t.Grammar? && WellFormed([], d, t) && k <= |t.rules|
    ensures CallsRest(GenRules(t, d, k))
    decreases |t.rules| - k
  {
    if k < |t.rules| {
      GenFlows(t.rules, d, t.rules[k], false, NoTest, FULL);
      BodyRests(RuleCode(t, d, k));
      RulesRest(t, d, k + 1);
      CallsRestThen(RuleCode(t, d, k) + [IRet], GenRules(t, d, k + 1));
    }
  }

  lemma GrammarRests(t: Tree, d: nat)
    requires t.Grammar? && WellFormed([], d, t)
    ensures CallsRest(RawGrammar(t, d))
  {
    RulesRest(t, d, 0);
    var head := GrammarHead(t, d);
    assert forall y :: 0 <= y < |head| ==> !head[y].IOpenCall?;
    CallsRestThen(head, GenRules(t, d, 0));
  }

  /** `cur` is what `correctcalls` has made of `raw` on its way to `j`. */
  ghost predicate Midway(raw: Code, cur: Code, j: int) {
    |cur| == |raw| && Embeds(cur, 0, raw) && forall x :: 0 <= x < |raw| && j <= x ==> cur[x] == raw[x]
  }

  /** A chain at rest rests at the same place while calls are being closed. */
  lemma RestLands(raw: Code, cur: Code, j: nat, z: int)
    requires Midway(raw, cur, j) && Leads(raw, j + 2, z) && Rests(raw, j, z)
    ensures Ends(cur, j + 2) && (LandsOn(cur, j + 2, IRet) <==> raw[z].IRet?)
  {
    LeadsEmbeds(cur, 0, raw, j + 2, z);
    assert cur[z] == raw[z];
    LeadsEnds(cur, j + 2, z);
  }

  ghost predicate CallsKnown(code: Code, t: Tree, j: int)
    requires t.Grammar?
  {
    forall x :: 0 <= x < |code| && j <= x && code[x].IOpenCall? ==> code[x].key < |t.rules|
  }

  lemma SkipClosing(raw: Code, cur: Code, t: Tree, j: nat)
    requires t.Grammar? && Midway(raw, cur, j) && Parses(cur, j) && CallsKnown(cur, t, j) && j < |raw| && !cur[j].IOpenCall?
    ensures var k := j + SizeI(cur[j]);
      Midway(raw, cur, k) && Parses(cur, k) && CallsKnown(cur, t, k) && forall y :: j <= y < k && y < |raw| ==> !raw[y].IOpenCall?
  {
    forall y | j <= y < j + SizeI(cur[j]) && y < |raw| ensures !raw[y].IOpenCall? { assert raw[y] == cur[y]; }
  }

  lemma NextClosing(raw: Code, cur: Code, t: Tree, j: nat, target: int)
    requires t.Grammar? && Midway(raw, cur, j) && Parses(cur, j) && CallsKnown(cur, t, j) && j < |raw| && cur[j].IOpenCall?
    ensures j + 1 < |raw| && raw[j] == cur[j] && raw[j + 1].Hole?
    ensures var code' := CloseCall(cur, j, target);
      Midway(raw, code', j + 2) && Parses(code', j + 2) && CallsKnown(code', t, j + 2)
  {
    assert raw[j + 1] == cur[j + 1];
    ParsesUpdate(cur, CloseCall(cur, j, target), j + 2);
  }

  /** A call is closed as a jump exactly if the chain behind it comes to rest at a return. */
  lemma {:induction false} CallClosed(raw: Code, cur: Code, t: Tree, d: nat, j: nat, y: nat, z: int)
    requires t.Grammar? && Midway(raw, cur, j) && j <= y < |raw| && Parses(cur, j) && CallsKnown(cur, t, j)
    requires raw[y].IOpenCall? && Leads(raw, y + 2, z) && Rests(raw, y, z)
    ensures var cc := CorrectCalls(cur, t, d, j);
      |cc| == |raw| && cc[y] == if raw[z].IRet? then IJmp else ICall
    decreases |raw| - j
  {
    if cur[j].IOpenCall? {
      var target := RulePos(t, d, cur[j].key);
      NextClosing(raw, cur, t, j, target);
      if j == y {
        CallClosedHere(raw, cur, t, d, j, target, z);
      } else {
        CallClosed(raw, CloseCall(cur, j, target), t, d, j + 2, y, z);
      }
    } else {
      assert cur[y] == raw[y];
      SkipClosing(raw, cur, t, j);
      CallClosed(raw, cur, t, d, j + SizeI(cur[j]), y, z);
    }
  }

  lemma CallClosedHere(raw: Code, cur: Code, t: Tree, d: nat, j: nat, target: int, z: int)
    requires t.Grammar? && Midway(raw, cur, j) && j + 1 < |raw| && Leads(raw, j + 2, z) && Rests(raw, j, z)
    requires var code' := CloseCall(cur, j, target); Parses(code', j + 2) && CallsKnown(code', t, j + 2)
    ensures var cc := CorrectCalls(CloseCall(cur, j, target), t, d, j + 2);
      |cc| == |raw| && cc[j] == if raw[z].IRet? then IJmp else ICall
  {
    RestLands(raw, cur, j, z);
    CorrectFits(CloseCall(cur, j, target), t, d, j + 2);
  }

  // ---------- the entry of a rule ----------

  /** From `x`, jumps lead to a jump to `l`. */
  ghost predicate JumpsTo(code: Code, x: int, l: int) {
    exists y :: Leads(code, x, y) && JumpsOn(code, y) && Label(code, y) == l
  }

  predicate Halting(w: Word) { w.ICall? || w.IRet? || Solid(w) }

  ghost predicate HaltsAt(code: Code, x: int, z: int) { Leads(code, x, z) && 0 <= z < |code| && Halting(code[z]) }

  /** From `x`, jumps lead to an instruction other than a jump. */
  ghost predicate ComesToRest(code: Code, x: int) { exists z :: HaltsAt(code, x, z) }

  /** From the entry of a rule whose code comes to rule `e.rule` and then to its end, jumps lead to that rule;
      otherwise they come to rest. */
  ghost predicate EntryDone(code: Code, x: int, e: Course, l: int) {
    if e.Enter? && e.exits then JumpsTo(code, x, l) else ComesToRest(code, x)
  }

  /** The body of a rule in open code and in what closing calls makes of it. */
  ghost predicate BodyIn(raw: Code, cc: Code, p: nat, body: Code) {
    Part(raw, p, body + [IRet]) && Embeds(cc, 0, raw)
  }

  /** A grammar's open and closed code. */
  ghost predicate BothCodes(t: Tree, d: nat, raw: Code, cc: Code)
    requires t.Grammar?
  {
    && Closed(raw, cc, RelPos(t, d), 4) && cc == CorrectCalls(raw, t, d, 4) && Embeds(cc, 0, raw)
    && Parses(raw, 4) && CallsKnown(raw, t, 4)
  }

  lemma GrammarSetting(t: Tree, d: nat)
    requires t.Grammar? && WellFormed([], d, t)
    ensures BothCodes(t, d, RawGrammar(t, d), CorrectCalls(RawGrammar(t, d), t, d, 4))
  {
    GrammarClosed(t, d);
    GoodRules(t, d, 0);
    ParsesShift(GrammarHead(t, d), GenRules(t, d, 0), 0);
    ClosedEmbeds(RawGrammar(t, d), CorrectCalls(RawGrammar(t, d), t, d, 4), RelPos(t, d));
  }

  lemma RuleSetting(t: Tree, d: nat, r: nat)
    requires t.Grammar? && WellFormed([], d, t) && r < |t.rules|
    ensures BothCodes(t, d, RawGrammar(t, d), CorrectCalls(RawGrammar(t, d), t, d, 4)) && RulePos(t, d, r) >= 4
    ensures BodyIn(RawGrammar(t, d), CorrectCalls(RawGrammar(t, d), t, d, 4), RulePos(t, d, r), RuleCode(t, d, r))
  {
    GrammarSetting(t, d);
    RuleSlice(t, d, r);
    RulePosLow(t, d, r);
  }

  lemma ClosedEmbeds(raw: Code, cc: Code, pos: seq<int>)
    requires Closed(raw, cc, pos, 4)
    ensures Embeds(cc, 0, raw)
  {
    forall z | 0 <= z < |raw| && !raw[z].IOpenCall? && !raw[z].Hole? ensures cc[z] == raw[z] {
      if z >= 4 { assert Fits(cc, z, raw[z], pos); }
    }
  }

  /** A chain in the body of a rule, in the closed code. */
  lemma BodyLeads(raw: Code, cc: Code, p: nat, body: Code, x: int, z: int)
    requires BodyIn(raw, cc, p, body) && Leads(body, x, z)
    ensures Leads(raw, p + x, p + z) && Leads(cc, p + x, p + z)
  {
    PartSplit(raw, p, body, [IRet]);
    LeadsIn(raw, p, body, x, z);
    LeadsEmbeds(cc, 0, raw, p + x, p + z);
  }

  lemma BodyWord(raw: Code, cc: Code, p: nat, body: Code, z: nat)
    requires BodyIn(raw, cc, p, body) && z < |body|
    ensures p + z < |raw| && raw[p + z] == body[z]
    ensures Solid(body[z]) ==> p + z < |cc| && cc[p + z] == body[z]
  {
    assert raw[p + z] == (body + [IRet])[z];
  }

  lemma BodyEnd(raw: Code, cc: Code, p: nat, body: Code)
    requires BodyIn(raw, cc, p, body)
    ensures p + |body| < |raw| && raw[p + |body|] == IRet && p + |body| < |cc| && cc[p + |body|] == IRet
  {
    assert raw[p + |body|] == (body + [IRet])[|body|];
  }

  lemma RuleStops(raw: Code, cc: Code, p: nat, body: Code, e: Course)
    requires BodyIn(raw, cc, p, body) && Shape(body, e) && !e.Enter?
    ensures ComesToRest(cc, p)
  {
    match e
    case Through =>
      BodyLeads(raw, cc, p, body, 0, |body|);
      BodyEnd(raw, cc, p, body);
      assert HaltsAt(cc, p, p + |body|);
    case Stop =>
      var z :| Leads(body, 0, z) && 0 <= z < |body| && Solid(body[z]);
      BodyLeads(raw, cc, p, body, 0, z);
      BodyWord(raw, cc, p, body, z);
      assert HaltsAt(cc, p, p + z);
  }

  lemma RuleEnters(t: Tree, d: nat, raw: Code, cc: Code, p: nat, body: Code, q: nat, exits: bool, y: nat)
    requires t.Grammar? && BothCodes(t, d, raw, cc) && BodyIn(raw, cc, p, body) && p >= 4 && Enters(body, q, exits, y)
    ensures q < |t.rules| && EntryDone(cc, p, Enter(q, exits), RulePos(t, d, q))
  {
    RuleCall(t, d, raw, cc, p, body, q, exits, y);
    EntersDone(raw, cc, p, body, q, exits, y, RulePos(t, d, q));
  }

  lemma EntersDone(raw: Code, cc: Code, p: nat, body: Code, q: nat, exits: bool, y: nat, l: int)
    requires BodyIn(raw, cc, p, body) && Leads(body, 0, y) && p + y < |cc|
    requires if exits then JumpsOn(cc, p + y) && Label(cc, p + y) == l else cc[p + y] == ICall
    ensures EntryDone(cc, p, Enter(q, exits), l)
  {
    BodyLeads(raw, cc, p, body, 0, y);
    if exits {
      assert JumpsTo(cc, p, l);
    } else {
      assert HaltsAt(cc, p, p + y);
    }
  }

  lemma EntersExit(body: Code, q: nat, exits: bool, y: nat) returns (z: int)
    requires Enters(body, q, exits, y)
    ensures Leads(body, y + 2, z) && if exits then z == |body| else Still(body, y, z)
  {
    if exits { z := |body|; } else { z :| Leads(body, y + 2, z) && Still(body, y, z); }
  }

  /** The call that the body comes to, in the closed code. */
  lemma RuleCall(t: Tree, d: nat, raw: Code, cc: Code, p: nat, body: Code, q: nat, exits: bool, y: nat)
    requires t.Grammar? && BothCodes(t, d, raw, cc) && BodyIn(raw, cc, p, body) && p >= 4 && Enters(body, q, exits, y)
    ensures q < |t.rules| && p + y < |cc|
    ensures if exits then JumpsOn(cc, p + y) && Label(cc, p + y) == RulePos(t, d, q) else cc[p + y] == ICall
  {
    var z := EntersExit(body, q, exits, y);
    BodyWord(raw, cc, p, body, y);
    BodyRest(raw, cc, p, body, exits, y, z);
    BodyClosed(t, d, raw, cc, p + y, p + z, q, exits);
  }

  lemma BodyRest(raw: Code, cc: Code, p: nat, body: Code, exits: bool, y: nat, z: int)
    requires BodyIn(raw, cc, p, body) && Leads(body, y + 2, z) && if exits then z == |body| else Still(body, y, z)
    ensures Leads(raw, p + y + 2, p + z) && Rests(raw, p + y, p + z) && (raw[p + z].IRet? <==> exits)
  {
    BodyLeads(raw, cc, p, body, y + 2, z);
    if exits { BodyEnd(raw, cc, p, body); } else { BodyWord(raw, cc, p, body, z); }
  }

  lemma BodyClosed(t: Tree, d: nat, raw: Code, cc: Code, y: nat, z: int, q: nat, exits: bool)
    requires t.Grammar? && BothCodes(t, d, raw, cc)
    requires 4 <= y < |raw| && raw[y] == IOpenCall(q) && Leads(raw, y + 2, z) && Rests(raw, y, z) && (raw[z].IRet? <==> exits)
    ensures q < |t.rules| && y < |cc|
    ensures if exits then JumpsOn(cc, y) && Label(cc, y) == RulePos(t, d, q) else cc[y] == ICall
  {
    CallClosed(raw, raw, t, d, 4, y, z);
    assert Fits(cc, y, raw[y], RelPos(t, d));
  }

  /** What jumps make of the entry of a rule in its grammar's code. */
  lemma RuleEntry(t: Tree, d: nat, r: nat)
    requires t.Grammar? && WellFormed([], d, t) && r < |t.rules|
    ensures var e, cc := CourseOf(t.rules, d, t.rules[r]), CorrectCalls(RawGrammar(t, d), t, d, 4);
      && (e.Enter? ==> e.rule < |t.rules|)
      && EntryDone(cc, RulePos(t, d, r), e, if e.Enter? then RulePos(t, d, e.rule) else 0)
  {
    var e, cc := CourseOf(t.rules, d, t.rules[r]), CorrectCalls(RawGrammar(t, d), t, d, 4);
    var body := RuleCode(t, d, r);
    RuleSetting(t, d, r);
    GenFlows(t.rules, d, t.rules[r], false, NoTest, FULL);
    if e.Enter? {
      var y: nat :| Enters(body, e.rule, e.exits, y);
      RuleEnters(t, d, RawGrammar(t, d), cc, RulePos(t, d, r), body, e.rule, e.exits, y);
    } else {
      RuleStops(RawGrammar(t, d), cc, RulePos(t, d, r), body, e);
    }
  }

  /** The same where the grammar's code is embedded. */
  lemma EntryEmbeds(code: Code, a: int, cc: Code, x: int, e: Course, l: int)
    requires Embeds(code, a, cc) && EntryDone(cc, x, e, l)
    ensures EntryDone(code, a + x, e, a + l)
  {
    if e.Enter? && e.exits {
      var y :| Leads(cc, x, y) && JumpsOn(cc, y) && Label(cc, y) == l;
      LeadsEmbeds(code, a, cc, x, y);
      assert code[a + y] == cc[y] && code[a + (y + 1)] == cc[y + 1];
      assert JumpsTo(code, a + x, a + l);
    } else {
      var z :| HaltsAt(cc, x, z);
      LeadsEmbeds(code, a, cc, x, z);
      assert HaltsAt(code, a + x, a + z);
    }
  }

  // ---------- from rule to rule ----------

  /** The rule that `r` turns into by jumps, if any. */
  predicate TurnsInto(rs: seq<Tree>, d: nat, r: nat)
    requires r < |rs|
  {
    CourseOf(rs, d, rs[r]).Enter? && CourseOf(rs, d, rs[r]).exits
  }

  /** Going from rule to rule by jumps comes to rest after at most `n` rules. */
  predicate Settles(rs: seq<Tree>, d: nat, r: nat, n: nat)
    decreases n
  {
    r < |rs| && TurnsInto(rs, d, r) ==> n > 0 && Settles(rs, d, CourseOf(rs, d, rs[r]).rule, n - 1)
  }

  lemma SettlesStep(rs: seq<Tree>, d: nat, r: nat, n: nat)
    requires r < |rs| && TurnsInto(rs, d, r) ==> n > 0 && Settles(rs, d, CourseOf(rs, d, rs[r]).rule, n - 1)
    ensures Settles(rs, d, r, n)
  {
  }

  /** No rule comes back to itself by jumps. */
  predicate NoLoop(rs: seq<Tree>, d: nat) {
    forall r: nat :: r < |rs| ==> Settles(rs, d, r, |rs|)
  }

  lemma {:induction false} SettlesLonger(rs: seq<Tree>, d: nat, r: nat, n: nat, m: nat)
    requires Settles(rs, d, r, n) && n <= m
    ensures Settles(rs, d, r, m)
    decreases n
  {
    if r < |rs| && TurnsInto(rs, d, r) { SettlesLonger(rs, d, CourseOf(rs, d, rs[r]).rule, n - 1, m - 1); }
  }

  /** After `n` rules and no fewer. */
  ghost predicate SettlesIn(rs: seq<Tree>, d: nat, r: nat, n: nat) {
    r < |rs| && Settles(rs, d, r, n) && (n > 0 ==> !Settles(rs, d, r, n - 1))
  }

  lemma {:induction false} FirstSettles(rs: seq<Tree>, d: nat, r: nat, n: nat) returns (m: nat)
    requires r < |rs| && Settles(rs, d, r, n)
    ensures m <= n && SettlesIn(rs, d, r, m)
    decreases n
  {
    if n > 0 && Settles(rs, d, r, n - 1) { m := FirstSettles(rs, d, r, n - 1); } else { m := n; }
  }

  ghost predicate Ranged(rs: seq<Tree>, d: nat) {
    forall r: nat :: r < |rs| && TurnsInto(rs, d, r) ==> CourseOf(rs, d, rs[r]).rule < |rs|
  }

  /** Rules that settle after 0 to `n` steps. */
  lemma {:induction false} RulesPassed(rs: seq<Tree>, d: nat, r: nat, n: nat) returns (q: seq<int>)
    requires Ranged(rs, d) && SettlesIn(rs, d, r, n)
    ensures |q| == n + 1 && forall k: nat :: k <= n ==> 0 <= q[k] < |rs| && SettlesIn(rs, d, q[k], k)
    decreases n
  {
    if n == 0 {
      q := [r];
    } else {
      assert TurnsInto(rs, d, r);
      q := RulesPassed(rs, d, CourseOf(rs, d, rs[r]).rule, n - 1);
      q := q + [r];
    }
  }

  /** If going from rule to rule comes to rest at all, then before any rule comes again. */
  lemma SettlesSoon(rs: seq<Tree>, d: nat, r: nat, n: nat)
    requires Ranged(rs, d) && r < |rs| && Settles(rs, d, r, n)
    ensures Settles(rs, d, r, |rs|)
  {
    var m := FirstSettles(rs, d, r, n);
    var q := RulesPassed(rs, d, r, m);
    forall i, j | 0 <= i < j < |q| ensures q[i] != q[j] {
      assert SettlesIn(rs, d, q[i], i) && SettlesIn(rs, d, q[j], j);
      SettlesLonger(rs, d, q[i], i, j - 1);
    }
    Pigeons(q, |rs|);
    SettlesLonger(rs, d, r, m, |rs|);
  }

  /** The closed code of grammar `t` stands at `a`. */
  ghost predicate GrammarIn(code: Code, a: int, t: Tree, d: nat) {
    t.Grammar? && WellFormed([], d, t) && Embeds(code, a, CorrectCalls(RawGrammar(t, d), t, d, 4))
  }

  lemma RuleEntryIn(code: Code, a: int, t: Tree, d: nat, r: nat)
    requires GrammarIn(code, a, t, d) && r < |t.rules|
    ensures var e := CourseOf(t.rules, d, t.rules[r]);
      && (e.Enter? ==> e.rule < |t.rules|)
      && EntryDone(code, a + RulePos(t, d, r), e, a + if e.Enter? then RulePos(t, d, e.rule) else 0)
  {
    var e := CourseOf(t.rules, d, t.rules[r]);
    RuleEntry(t, d, r);
    EntryEmbeds(code, a, CorrectCalls(RawGrammar(t, d), t, d, 4), RulePos(t, d, r), e, if e.Enter? then RulePos(t, d, e.rule) else 0);
  }

  lemma {:induction false} SettlesEnds(code: Code, a: int, t: Tree, d: nat, r: nat, n: nat)
    requires GrammarIn(code, a, t, d) && r < |t.rules| && Settles(t.rules, d, r, n)
    ensures Ends(code, a + RulePos(t, d, r))
    decreases n
  {
    var x, e := a + RulePos(t, d, r), CourseOf(t.rules, d, t.rules[r]);
    RuleEntryIn(code, a, t, d, r);
    if TurnsInto(t.rules, d, r) {
      SettlesEnds(code, a, t, d, e.rule, n - 1);
      var y :| Leads(code, x, y) && JumpsOn(code, y) && Label(code, y) == a + RulePos(t, d, e.rule);
      EndsBack(code, y);
      EndsAlong(code, x, y);
    } else {
      var z :| HaltsAt(code, x, z);
      LeadsEnds(code, x, z);
    }
  }

  /** A chain of jumps through `y` that ends after `f` jumps ends earlier from behind `y`. */
  lemma EndsSooner(code: Code, x: int, y: int, f: nat) returns (h: nat)
    requires Leads(code, x, y) && JumpsOn(code, y) && !JumpsOn(code, FinalTarget(code, x, f))
    ensures h < f && !JumpsOn(code, FinalTarget(code, Label(code, y), h))
  {
    var k: nat :| FinalTarget(code, x, k) == y;
    if k < f {
      TargetAdd(code, x, k, f - k);
      h := f - k - 1;
    } else {
      TargetKept(code, x, f, k);
      assert false;
    }
  }

  lemma TargetKept(code: Code, x: int, f: nat, k: nat)
    requires f <= k && !JumpsOn(code, FinalTarget(code, x, f))
    ensures FinalTarget(code, x, k) == FinalTarget(code, x, f)
  {
    TargetAdd(code, x, f, k - f);
    TargetStays(code, FinalTarget(code, x, f), k - f);
  }

  lemma {:induction false} EndsSettles(code: Code, a: int, t: Tree, d: nat, r: nat, f: nat)
    requires GrammarIn(code, a, t, d) && r < |t.rules| && !JumpsOn(code, FinalTarget(code, a + RulePos(t, d, r), f))
    ensures Settles(t.rules, d, r, f)
    decreases f
  {
    var x, e := a + RulePos(t, d, r), CourseOf(t.rules, d, t.rules[r]);
    RuleEntryIn(code, a, t, d, r);
    if TurnsInto(t.rules, d, r) {
      var y :| Leads(code, x, y) && JumpsOn(code, y) && Label(code, y) == a + RulePos(t, d, e.rule);
      var h := EndsSooner(code, x, y, f);
      EndsSettles(code, a, t, d, e.rule, h);
      SettlesLonger(t.rules, d, e.rule, h, f - 1);
    }
    SettlesStep(t.rules, d, r, f);
  }

  lemma RulesRanged(t: Tree, d: nat)
    requires t.Grammar? && WellFormed([], d, t)
    ensures Ranged(t.rules, d)
  {
    forall r: nat | r < |t.rules| && TurnsInto(t.rules, d, r) ensures CourseOf(t.rules, d, t.rules[r]).rule < |t.rules| {
      RuleEntry(t, d, r);
    }
  }

  ghost predicate RuleEnds(code: Code, a: int, t: Tree, d: nat, r: nat)
    requires t.Grammar? && r < |t.rules|
  {
    Ends(code, a + RulePos(t, d, r))
  }

  ghost predicate RulesEnd(code: Code, a: int, t: Tree, d: nat)
    requires t.Grammar?
  {
    forall r: nat :: r < |t.rules| ==> RuleEnds(code, a, t, d, r)
  }

  /** In code that holds a grammar, the chains from all its rules end exactly if no rule comes back to itself. */
  lemma RulesEndIff(code: Code, a: int, t: Tree, d: nat)
    requires GrammarIn(code, a, t, d)
    ensures RulesEnd(code, a, t, d) <==> NoLoop(t.rules, d)
  {
    if NoLoop(t.rules, d) {
      forall r: nat | r < |t.rules| ensures RuleEnds(code, a, t, d, r) { SettlesEnds(code, a, t, d, r, |t.rules|); }
    }
    if RulesEnd(code, a, t, d) {
      forall r: nat | r < |t.rules| ensures Settles(t.rules, d, r, |t.rules|) { EndingSettles(code, a, t, d, r); }
    }
  }

  lemma EndingSettles(code: Code, a: int, t: Tree, d: nat, r: nat)
    requires GrammarIn(code, a, t, d) && r < |t.rules| && RuleEnds(code, a, t, d, r)
    ensures Settles(t.rules, d, r, |t.rules|)
  {
    RulesRanged(t, d);
    var f: nat :| !JumpsOn(code, FinalTarget(code, a + RulePos(t, d, r), f));
    EndsSettles(code, a, t, d, r, f);
    SettlesSoon(t.rules, d, r, f);
  }

  // ---------- the condition ----------

  /** In no grammar that is coded does a rule come back to itself by jumps; the body of a headfail predicate is
      replaced by its test. */
  predicate JumpFree(g: seq<Tree>, d: nat, t: Tree)
    decreases t, d
  {
    match t
    case Rep(p) => JumpFree(g, d, p)
    case Not(p) => HeadFail(g, p, d) || JumpFree(g, d, p)
    case And(p) => JumpFree(g, d, p)
    case Capture(p) => JumpFree(g, d, p)
    case Behind(_, p) => JumpFree(g, d, p)
    case Seq(p, q) => JumpFree(g, d, p) && JumpFree(g, d, q)
    case Choice(p, q) => JumpFree(g, d, p) && JumpFree(g, d, q)
    case Grammar(rs) => NoLoop(rs, d) && forall k :: 0 <= k < |rs| ==> JumpFree(rs, d, rs[k])
    case _ => true
  }
}
