/** Where generated code leads by jumps alone: to its end, to a call, or to another instruction. */
module LpFlow {
  import opened Peg
  import opened LpAnalysis
  import opened LpVm
  import opened LpCodegen
  import opened LpLayout
  import opened LpPeephole
  import opened LpChains

  /** What code comes to by jumps from its start: an instruction of its own, its end, or a call, behind which it
      again comes to its end or not. */
  datatype Course = Stop | Through | Enter(rule: nat, exits: bool)

  /** One code behind another. */
  function Then(e1: Course, e2: Course): Course {
    match e1
    case Stop => Stop
    case Through => e2
    case Enter(r, exits) => Enter(r, exits && e2.Through?)
  }

  /** What the code of `t` comes to. */
  function CourseOf(g: seq<Tree>, d: nat, t: Tree): Course
    decreases t, d
  {
    match t
    case True => Through
    case Seq(p, q) => Then(CourseOf(g, d, p), CourseOf(g, d, q))
    case Choice(p, q) => if Guard(g, d, p).TestJmp? then CourseOf(g, d, q) else Stop
    case Rep(p) => if !ToCharset(p).0 && Guard(g, d, p).TestJmp? then Through else Stop
    case Not(p) => if Guard(g, d, p).TestJmp? then Through else Stop
    case And(p) =>
      if ShortBody(g, d, p, MAXBEHIND) then Then(CourseOf(g, d, p), if FixedLen(g, p, d) > 0 then Stop else Through)
      else Stop
    case Capture(p) => if ShortBody(g, d, p, MAXOFF) then Then(CourseOf(g, d, p), Stop) else Stop
    case Behind(n, p) => if n > 0 then Stop else CourseOf(g, d, p)
    case Call(r) => Enter(r, true)
    case _ => Stop
  }

  // ---------- the shape of code ----------

  predicate Solid(w: Word) { !w.IJmp? && !w.IRet? && !w.IOpenCall? && !w.Hole? }

  /** The word at `z` stops a chain, also after the calls up to `y` have been closed, and is no return. */
  predicate Still(w: Code, y: int, z: int) {
    0 <= z < |w| && (Solid(w[z]) || (w[z].IOpenCall? && z > y))
  }

  /** From `x`, code leads to its end, or to such a word. */
  ghost predicate Leaves(w: Code, x: int, y: int) {
    exists z: int :: Leads(w, x, z) && (z == |w| || Still(w, y, z))
  }

  /** The open call of rule `r` at `y` is what the code comes to. */
  ghost predicate Enters(w: Code, r: nat, exits: bool, y: nat) {
    && y + 1 < |w| && w[y] == IOpenCall(r) && Leads(w, 0, y)
    && if exits then Leads(w, y + 2, |w|) else exists z :: Leads(w, y + 2, z) && Still(w, y, z)
  }

  ghost predicate Shape(w: Code, e: Course) {
    match e
    case Through => Leads(w, 0, |w|)
    case Stop => exists z :: Leads(w, 0, z) && 0 <= z < |w| && Solid(w[z])
    case Enter(r, exits) => exists y: nat :: Enters(w, r, exits, y)
  }

  /** Behind every open call, code leads to its end or to a word that is no return. */
  ghost predicate CallsOut(w: Code) {
    forall y :: 0 <= y < |w| && w[y].IOpenCall? ==> Leaves(w, y + 2, y)
  }

  predicate NoCalls(w: Code) { forall k :: 0 <= k < |w| ==> !w[k].IOpenCall? }

  /** The words of `u` stand in `w` at `o`. */
  predicate Part(w: Code, o: nat, u: Code) {
    o + |u| <= |w| && forall k :: 0 <= k < |u| ==> w[o + k] == u[k]
  }

  lemma LeadsIn(w: Code, o: nat, u: Code, x: int, y: int)
    requires Part(w, o, u) && Leads(u, x, y)
    ensures Leads(w, o + x, o + y)
  {
    LeadsEmbeds(w, o, u, x, y);
  }

  lemma SolidShape(w: Code)
    requires w != [] && Solid(w[0])
    ensures Shape(w, Stop)
  {
    LeadsSelf(w, 0);
  }

  /** Code that leads from its start to its last part has that part's shape. */
  lemma ShapeLast(w: Code, o: nat, v: Code, e: Course)
    requires Part(w, o, v) && o + |v| == |w| && Leads(w, 0, o) && Shape(v, e)
    ensures Shape(w, e)
  {
    match e
    case Through =>
      LeadsIn(w, o, v, 0, |v|);
      LeadsTrans(w, 0, o, |w|);
    case Stop =>
      var z :| Leads(v, 0, z) && 0 <= z < |v| && Solid(v[z]);
      LeadsIn(w, o, v, 0, z);
      LeadsTrans(w, 0, o, o + z);
      assert w[o + z] == v[z];
    case Enter(r, exits) =>
      var y: nat :| Enters(v, r, exits, y);
      EntersLast(w, o, v, r, exits, y);
  }

  lemma EntersLast(w: Code, o: nat, v: Code, r: nat, exits: bool, y: nat)
    requires Part(w, o, v) && o + |v| == |w| && Leads(w, 0, o) && Enters(v, r, exits, y)
    ensures Enters(w, r, exits, o + y)
  {
    LeadsIn(w, o, v, 0, y);
    LeadsTrans(w, 0, o, o + y);
    assert w[o + y] == v[y];
    if exits {
      LeadsIn(w, o, v, y + 2, |v|);
    } else {
      var z :| Leads(v, y + 2, z) && Still(v, y, z);
      LeadsIn(w, o, v, y + 2, z);
      assert w[o + z] == v[z];
      assert Leads(w, o + y + 2, o + z) && Still(w, o + y, o + z);
    }
  }

  /** From the start of its last part, code leads to its end or to a word of that part that stops. */
  lemma LastLeaves(w: Code, o: nat, v: Code, e: Course)
    requires Part(w, o, v) && o + |v| == |w| && Shape(v, e)
    ensures if e.Through? then Leads(w, o, |w|) else exists z :: Leads(w, o, z) && Still(w, o - 1, z)
  {
    match e
    case Through => LeadsIn(w, o, v, 0, |v|);
    case Stop =>
      var z :| Leads(v, 0, z) && 0 <= z < |v| && Solid(v[z]);
      LeadsIn(w, o, v, 0, z);
      assert w[o + z] == v[z] && Still(w, o - 1, o + z);
    case Enter(r, exits) =>
      var y: nat :| Enters(v, r, exits, y);
      LeadsIn(w, o, v, 0, y);
      assert w[o + y] == v[y] && Still(w, o - 1, o + y);
  }

  /** The shape of two codes, one behind the other. */
  lemma ShapeThen(u: Code, v: Code, e1: Course, e2: Course)
    requires Shape(u, e1) && Shape(v, e2)
    ensures Shape(u + v, Then(e1, e2))
  {
    var w := u + v;
    assert Part(w, 0, u) && Part(w, |u|, v);
    match e1
    case Stop =>
      var z :| Leads(u, 0, z) && 0 <= z < |u| && Solid(u[z]);
      LeadsIn(w, 0, u, 0, z);
      assert w[z] == u[z];
    case Through =>
      LeadsIn(w, 0, u, 0, |u|);
      ShapeLast(w, |u|, v, e2);
    case Enter(r, exits) =>
      var y: nat :| Enters(u, r, exits, y);
      EntersThen(u, v, r, exits, y, e2);
  }

  lemma EntersThen(u: Code, v: Code, r: nat, exits: bool, y: nat, e2: Course)
    requires Enters(u, r, exits, y) && Shape(v, e2)
    ensures Enters(u + v, r, exits && e2.Through?, y)
  {
    var w := u + v;
    assert Part(w, 0, u) && Part(w, |u|, v);
    LeadsIn(w, 0, u, 0, y);
    assert w[y] == u[y];
    if exits {
      LeadsIn(w, 0, u, y + 2, |u|);
      LastLeaves(w, |u|, v, e2);
      if e2.Through? {
        LeadsTrans(w, y + 2, |u|, |w|);
      } else {
        var z :| Leads(w, |u|, z) && Still(w, |u| - 1, z);
        LeadsTrans(w, y + 2, |u|, z);
        assert Still(w, y, z);
      }
    } else {
      var z :| Leads(u, y + 2, z) && Still(u, y, z);
      LeadsIn(w, 0, u, y + 2, z);
      assert w[z] == u[z] && Still(w, y, z);
    }
  }

  // ---------- behind the calls ----------

  lemma SolidLeaves(w: Code, x: int, y: int)
    requires 0 <= x < |w| && Solid(w[x])
    ensures Leaves(w, x, y)
  {
    LeadsSelf(w, x);
    assert Still(w, y, x);
  }

  lemma EndLeaves(w: Code, y: int)
    ensures Leaves(w, |w|, y)
  {
    LeadsSelf(w, |w|);
  }

  lemma JumpLeaves(w: Code, x: int, y: int)
    requires JumpsOn(w, x) && Leaves(w, Label(w, x), y)
    ensures Leaves(w, x, y)
  {
    var z := Exit(w, Label(w, x), y);
    LeadsJump(w, x);
    LeadsTrans(w, x, Label(w, x), z);
  }

  lemma StartLeaves(w: Code, o: nat, v: Code, e: Course)
    requires Part(w, o, v) && o + |v| == |w| && Shape(v, e)
    ensures Leaves(w, o, o - 1)
  {
    LastLeaves(w, o, v, e);
  }

  lemma Exit(w: Code, x: int, y: int) returns (z: int)
    requires Leaves(w, x, y)
    ensures Leads(w, x, z) && (z == |w| || Still(w, y, z))
  {
    z :| Leads(w, x, z) && (z == |w| || Still(w, y, z));
  }

  /** A call of a part leaves the code if the end of the part does. */
  lemma CallLeaves(w: Code, o: nat, u: Code, y: nat)
    requires Part(w, o, u) && CallsOut(u) && y < |u| && u[y].IOpenCall?
    requires Leaves(w, o + |u|, o + |u| - 1)
    ensures Leaves(w, o + y + 2, o + y)
  {
    var z := Exit(u, y + 2, y);
    LeadsIn(w, o, u, y + 2, z);
    if z == |u| {
      var x := Exit(w, o + |u|, o + |u| - 1);
      LeadsTrans(w, o + y + 2, o + |u|, x);
      assert x == |w| || Still(w, o + y, x);
    } else {
      assert w[o + z] == u[z] && Still(w, o + y, o + z);
    }
  }

  /** The calls of code all stand in one part. */
  lemma PartCalls(w: Code, o: nat, u: Code)
    requires Part(w, o, u) && CallsOut(u) && Leaves(w, o + |u|, o + |u| - 1)
    requires forall k :: 0 <= k < |w| && !(o <= k < o + |u|) ==> !w[k].IOpenCall?
    ensures CallsOut(w)
  {
    forall y | 0 <= y < |w| && w[y].IOpenCall? ensures Leaves(w, y + 2, y) {
      assert u[y - o] == w[o + (y - o)];
      CallLeaves(w, o, u, y - o);
    }
  }

  /** Or in two. */
  lemma PartsCalls(w: Code, o1: nat, u: Code, o2: nat, v: Code)
    requires Part(w, o1, u) && CallsOut(u) && Leaves(w, o1 + |u|, o1 + |u| - 1)
    requires Part(w, o2, v) && CallsOut(v) && o2 + |v| == |w|
    requires forall k :: 0 <= k < o2 && !(o1 <= k < o1 + |u|) ==> !w[k].IOpenCall?
    ensures CallsOut(w)
  {
    EndLeaves(w, |w| - 1);
    forall y | 0 <= y < |w| && w[y].IOpenCall? ensures Leaves(w, y + 2, y) {
      if y >= o2 {
        assert v[y - o2] == w[o2 + (y - o2)];
        CallLeaves(w, o2, v, y - o2);
      } else {
        assert u[y - o1] == w[o1 + (y - o1)];
        CallLeaves(w, o1, u, y - o1);
      }
    }
  }

  lemma CallsThen(u: Code, v: Code, e2: Course)
    requires CallsOut(u) && CallsOut(v) && Shape(v, e2)
    ensures CallsOut(u + v)
  {
    var w := u + v;
    assert Part(w, 0, u) && Part(w, |u|, v);
    StartLeaves(w, |u|, v, e2);
    PartsCalls(w, 0, u, |u|, v);
  }

  lemma NoCallsOut(w: Code)
    requires NoCalls(w)
    ensures CallsOut(w)
  {
  }

  // ---------- templates ----------

  /** Four codes, one behind the other, end at `o1`, `o2`, `o3` and the end. */
  lemma PartsOf(a: Code, b: Code, c: Code, e: Code, o1: nat, o2: nat, o3: nat)
    requires o1 == |a| && o2 == o1 + |b| && o3 == o2 + |c|
    ensures var w := a + b + c + e;
      |w| == o3 + |e| && Part(w, 0, a) && Part(w, o1, b) && Part(w, o2, c) && Part(w, o3, e)
  {
  }

  lemma PartSplit(w: Code, o: nat, u: Code, v: Code)
    requires Part(w, o, u + v)
    ensures Part(w, o, u) && Part(w, o + |u|, v)
  {
    forall k | 0 <= k < |u| ensures w[o + k] == u[k] { assert (u + v)[k] == u[k]; }
    forall k | 0 <= k < |v| ensures w[o + |u| + k] == v[k] { assert (u + v)[|u| + k] == v[k]; }
  }

  /** The two words of an instruction with a label. */
  lemma LabelPart(w: Code, o: nat, i: Word, delta: int)
    requires Part(w, o, [i, Off(delta)])
    ensures w[o] == i && w[o + 1] == Off(delta)
  {
    assert w[o + 0] == [i, Off(delta)][0] && w[o + 1] == [i, Off(delta)][1];
  }

  lemma WordPart(w: Code, o: nat, i: Word)
    requires Part(w, o, [i])
    ensures w[o] == i
  {
    assert w[o + 0] == [i][0];
  }

  /** The test at the start of code jumps to its label, or stops. */
  lemma TestShape(w: Code, test: Test, l: nat)
    requires test != NoTest && Part(w, 0, TestCode(test, l))
    ensures NoCalls(TestCode(test, l))
    ensures if test.TestJmp? then JumpsOn(w, 0) && Label(w, 0) == l && Leads(w, 0, l) else Shape(w, Stop) && Solid(w[0])
  {
    var tc := TestCode(test, l);
    assert w[0] == tc[0] && w[1] == tc[1];
    if test.TestJmp? { LeadsJump(w, 0); } else { SolidShape(w); }
  }

  lemma TestedChoiceFlow(test: Test, c1: Code, c2: Code, empty2: bool, e2: Course)
    requires test != NoTest && CallsOut(c1) && CallsOut(c2) && Shape(c2, e2)
    ensures Shape(TestedChoice(test, c1, c2, empty2), if test.TestJmp? then e2 else Stop)
    ensures CallsOut(TestedChoice(test, c1, c2, empty2))
  {
    if empty2 {
      TestedEmptyFlow(TestedChoice(test, c1, c2, empty2), test, c1, c2, e2);
    } else {
      TestedBothFlow(TestedChoice(test, c1, c2, empty2), test, c1, c2, e2);
    }
  }

  lemma TestedEmptyFlow(w: Code, test: Test, c1: Code, c2: Code, e2: Course)
    requires test != NoTest && CallsOut(c1) && CallsOut(c2) && Shape(c2, e2)
    requires w == TestCode(test, TestSize(test) + |c1|) + c1 + [] + c2
    ensures Shape(w, if test.TestJmp? then e2 else Stop) && CallsOut(w)
  {
    var o, e := TestSize(test), TestSize(test) + |c1|;
    TestedParts(w, TestCode(test, e), c1, [], c2, o, e, e);
    StartLeaves(w, e, c2, e2);
    TestedPartsFlow(w, test, c1, c2, e, e2);
  }

  lemma TestedBothFlow(w: Code, test: Test, c1: Code, c2: Code, e2: Course)
    requires test != NoTest && CallsOut(c1) && CallsOut(c2) && Shape(c2, e2)
    requires w == TestCode(test, TestSize(test) + |c1| + 2) + c1 + [IJmp, Off(2 + |c2|)] + c2
    ensures Shape(w, if test.TestJmp? then e2 else Stop) && CallsOut(w)
  {
    var o, e := TestSize(test), TestSize(test) + |c1|;
    TestedBothParts(w, TestCode(test, e + 2), c1, c2, o, e);
    JumpedFlow(w, test, c1, c2, o, e, e2);
  }

  lemma JumpedFlow(w: Code, test: Test, c1: Code, c2: Code, o: nat, e: nat, e2: Course)
    requires test != NoTest && CallsOut(c1) && CallsOut(c2) && Shape(c2, e2)
    requires o == TestSize(test) && e == o + |c1| && |w| == e + 2 + |c2|
    requires Part(w, 0, TestCode(test, e + 2)) && Part(w, o, c1) && Part(w, e + 2, c2)
    requires JumpsOn(w, e) && Label(w, e) == |w| && !w[e].IOpenCall? && !w[e + 1].IOpenCall?
    ensures Shape(w, if test.TestJmp? then e2 else Stop) && CallsOut(w)
  {
    EndLeaves(w, e - 1);
    JumpLeaves(w, e, e - 1);
    TestedPartsFlow(w, test, c1, c2, e + 2, e2);
  }

  lemma TestedBothParts(w: Code, tc: Code, c1: Code, c2: Code, o: nat, e: nat)
    requires w == tc + c1 + [IJmp, Off(2 + |c2|)] + c2 && o == |tc| && e == o + |c1|
    ensures |w| == e + 2 + |c2| && Part(w, 0, tc) && Part(w, o, c1) && Part(w, e + 2, c2)
    ensures JumpsOn(w, e) && Label(w, e) == |w| && !w[e].IOpenCall? && !w[e + 1].IOpenCall?
  {
    TestedParts(w, tc, c1, [IJmp, Off(2 + |c2|)], c2, o, e, e + 2);
    LabelPart(w, e, IJmp, 2 + |c2|);
  }

  lemma TestedPartsFlow(w: Code, test: Test, c1: Code, c2: Code, l: nat, e2: Course)
    requires test != NoTest && CallsOut(c1) && CallsOut(c2) && Shape(c2, e2)
    requires var e := TestSize(test) + |c1|;
      && e <= l && |w| == l + |c2| && Part(w, 0, TestCode(test, l)) && Part(w, TestSize(test), c1) && Part(w, l, c2)
      && Leaves(w, e, e - 1) && forall k :: e <= k < l ==> !w[k].IOpenCall?
    ensures Shape(w, if test.TestJmp? then e2 else Stop) && CallsOut(w)
  {
    TestShape(w, test, l);
    if test.TestJmp? { ShapeLast(w, l, c2, e2); }
    assert forall k :: 0 <= k < TestSize(test) ==> w[k] == TestCode(test, l)[k];
    PartsCalls(w, TestSize(test), c1, l, c2);
  }

  lemma TestedParts(w: Code, tc: Code, c1: Code, jmp: Code, c2: Code, o: nat, e: nat, l: nat)
    requires w == tc + c1 + jmp + c2 && o == |tc| && e == o + |c1| && l == e + |jmp|
    ensures |w| == l + |c2| && Part(w, 0, tc) && Part(w, o, c1) && Part(w, e, jmp) && Part(w, l, c2)
  {
    PartsOf(tc, c1, jmp, c2, o, e, l);
  }

  lemma FullChoiceFlow(test: Test, c1: Code, c2: Code, e2: Course)
    requires !test.TestJmp? && CallsOut(c1) && CallsOut(c2) && Shape(c2, e2)
    ensures Shape(FullChoice(test, c1, c2), Stop) && CallsOut(FullChoice(test, c1, c2))
  {
    FullChoiceParts(test, c1, c2);
    FullPartsFlow(FullChoice(test, c1, c2), test, c1, c2);
  }

  lemma FullPartsFlow(w: Code, test: Test, c1: Code, c2: Code)
    requires !test.TestJmp? && CallsOut(c1) && CallsOut(c2)
    requires var o := TestSize(test) + 2;
      var l := o + |c1| + 2;
      && |w| == l + |c2| && Part(w, 0, TestCode(test, l)) && Part(w, o, c1) && Part(w, l, c2)
      && w[o - 2] == IChoice && w[o - 1].Off? && w[o + |c1|] == ICommit && w[o + |c1| + 1].Off?
    ensures Shape(w, Stop) && CallsOut(w)
  {
    var o := TestSize(test) + 2;
    var l := o + |c1| + 2;
    if test.NoTest? { SolidShape(w); } else { TestShape(w, test, l); }
    SolidLeaves(w, o + |c1|, o + |c1| - 1);
    assert forall k :: 0 <= k < TestSize(test) ==> w[k] == TestCode(test, l)[k];
    PartsCalls(w, o, c1, l, c2);
  }

  lemma FullChoiceParts(test: Test, c1: Code, c2: Code)
    ensures var w, o := FullChoice(test, c1, c2), TestSize(test) + 2;
      var l := o + |c1| + 2;
      && |w| == l + |c2| && Part(w, 0, TestCode(test, l)) && Part(w, o, c1) && Part(w, l, c2)
      && w[o - 2] == IChoice && w[o - 1].Off? && w[o + |c1|] == ICommit && w[o + |c1| + 1].Off?
  {
    var l := TestSize(test) + 2 + |c1| + 2;
    EnteredThen(FullChoice(test, c1, c2), TestCode(test, l), IChoice, 2 + |c1| + 2, c1, ICommit, 2 + |c2|, c2);
  }

  lemma EnteredThen(w: Code, tc: Code, i1: Word, d1: int, c: Code, i2: Word, d2: int, v: Code)
    requires w == tc + [i1, Off(d1)] + c + [i2, Off(d2)] + v
    ensures var o := |tc| + 2;
      && |w| == o + |c| + 2 + |v| && Part(w, 0, tc) && Part(w, o, c) && Part(w, o + |c| + 2, v)
      && w[o - 2] == i1 && w[o - 1] == Off(d1) && w[o + |c|] == i2 && w[o + |c| + 1] == Off(d2)
  {
    var u := tc + [i1, Off(d1)] + c + [i2, Off(d2)];
    EnteredParts(u, tc, i1, d1, c, i2, d2);
    Extended(u, v, w);
    EnteredKeeps(u, w, tc, c, |tc| + 2);
  }

  lemma EnteredKeeps(u: Code, w: Code, tc: Code, c: Code, o: nat)
    requires |u| <= |w| && forall k :: 0 <= k < |u| ==> w[k] == u[k]
    requires o >= 2 && |u| == o + |c| + 2 && Part(u, 0, tc) && Part(u, o, c)
    ensures Part(w, 0, tc) && Part(w, o, c) && w[o - 2] == u[o - 2] && w[o - 1] == u[o - 1]
    ensures w[o + |c|] == u[o + |c|] && w[o + |c| + 1] == u[o + |c| + 1]
  {
    PartExtended(u, w, 0, tc);
    PartExtended(u, w, o, c);
  }

  lemma Extended(u: Code, v: Code, w: Code)
    requires w == u + v
    ensures |u| <= |w| && Part(w, |u|, v) && forall k :: 0 <= k < |u| ==> w[k] == u[k]
  {
  }

  lemma PartExtended(u: Code, w: Code, o: nat, x: Code)
    requires Part(u, o, x) && |u| <= |w| && forall k :: 0 <= k < |u| ==> w[k] == u[k]
    ensures Part(w, o, x)
  {
  }

  lemma OptionalFlow(c: Code)
    requires CallsOut(c)
    ensures Shape(Optional(c), Stop) && CallsOut(Optional(c))
  {
    var w := Optional(c);
    SolidShape(w);
    EndLeaves(w, |w| - 1);
    PartCalls(w, 2, c);
  }

  lemma TestedLoopFlow(test: Test, c: Code)
    requires test != NoTest && CallsOut(c)
    ensures var w := TestedLoop(test, c); Shape(w, if test.TestJmp? then Through else Stop) && CallsOut(w)
  {
    var w, e := TestedLoop(test, c), TestSize(test) + |c|;
    TestedLoopParts(test, c);
    TestShape(w, test, e + 2);
    if test.TestJmp? {
      EndLeaves(w, e - 1);
      JumpLeaves(w, 0, e - 1);
    } else {
      SolidLeaves(w, 0, e - 1);
    }
    JumpLeaves(w, e, e - 1);
    assert forall k :: 0 <= k < TestSize(test) ==> w[k] == TestCode(test, e + 2)[k];
    PartCalls(w, TestSize(test), c);
  }

  lemma TestedLoopParts(test: Test, c: Code)
    ensures var w, e := TestedLoop(test, c), TestSize(test) + |c|;
      && |w| == e + 2 && Part(w, 0, TestCode(test, e + 2)) && Part(w, TestSize(test), c)
      && JumpsOn(w, e) && Label(w, e) == 0 && w[e + 1].Off?
  {
    var e := TestSize(test) + |c|;
    LoopParts(TestedLoop(test, c), TestCode(test, e + 2), c, -e);
  }

  lemma LoopParts(w: Code, tc: Code, c: Code, delta: int)
    requires w == tc + c + [IJmp, Off(delta)]
    ensures var e := |tc| + |c|;
      && |w| == e + 2 && Part(w, 0, tc) && Part(w, |tc|, c) && JumpsOn(w, e) && Label(w, e) == e + delta && w[e + 1].Off?
  {
    var e := |tc| + |c|;
    PartsOf(tc, c, [IJmp, Off(delta)], [], |tc|, e, e + 2);
    assert w + [] == w;
    LabelPart(w, e, IJmp, delta);
  }

  /** `test L; enter; c; leave; L:`, the common form of loops and predicates with a backtrack entry. */
  lemma EnteredFlow(w: Code, test: Test, c: Code, n: nat)
    requires |w| == TestSize(test) + 2 + |c| + n && n > 0
    requires Part(w, 0, TestCode(test, |w|)) && Part(w, TestSize(test) + 2, c)
    requires Solid(w[TestSize(test)]) && Solid(w[TestSize(test) + 1]) && Solid(w[TestSize(test) + 2 + |c|])
    requires forall k :: TestSize(test) + 2 + |c| <= k < |w| ==> !w[k].IOpenCall?
    ensures Shape(w, if test.TestJmp? then Through else Stop) && (CallsOut(c) ==> CallsOut(w))
  {
    var e := TestSize(test) + 2 + |c|;
    if test.NoTest? { SolidShape(w); } else { TestShape(w, test, |w|); }
    SolidLeaves(w, e, e - 1);
    assert forall k :: 0 <= k < TestSize(test) ==> w[k] == TestCode(test, |w|)[k];
    if CallsOut(c) { PartCalls(w, TestSize(test) + 2, c); }
  }

  lemma FullLoopFlow(test: Test, c: Code, opt: bool)
    requires CallsOut(c)
    ensures var w := FullLoop(test, c, opt); Shape(w, if test.TestJmp? then Through else Stop) && CallsOut(w)
  {
    FullLoopParts(test, c, opt);
    EnteredFlow(FullLoop(test, c, opt), test, c, 2);
  }

  lemma FullLoopParts(test: Test, c: Code, opt: bool)
    ensures var w, o := FullLoop(test, c, opt), TestSize(test) + 2;
      && |w| == o + |c| + 2 && Part(w, 0, TestCode(test, |w|)) && Part(w, o, c)
      && Solid(w[o - 2]) && w[o - 1].Off? && w[o + |c|] == IPartialCommit && w[o + |c| + 1].Off?
  {
    var l := TestSize(test) + 2 + |c| + 2;
    if opt {
      EnteredParts(FullLoop(test, c, opt), TestCode(test, l), IPartialCommit, 2, c, IPartialCommit, -|c|);
    } else {
      EnteredParts(FullLoop(test, c, opt), TestCode(test, l), IChoice, 2 + |c| + 2, c, IPartialCommit, -|c|);
    }
  }

  lemma EnteredParts(w: Code, tc: Code, i1: Word, d1: int, c: Code, i2: Word, d2: int)
    requires w == tc + [i1, Off(d1)] + c + [i2, Off(d2)]
    ensures var o := |tc| + 2;
      && |w| == o + |c| + 2 && Part(w, 0, tc) && Part(w, o, c)
      && w[o - 2] == i1 && w[o - 1] == Off(d1) && w[o + |c|] == i2 && w[o + |c| + 1] == Off(d2)
  {
    var o := |tc| + 2;
    PartsOf(tc, [i1, Off(d1)], c, [i2, Off(d2)], o - 2, o, o + |c|);
    LabelPart(w, o - 2, i1, d1);
    LabelPart(w, o + |c|, i2, d2);
  }

  lemma FullNotFlow(test: Test, c: Code)
    requires CallsOut(c)
    ensures var w := FullNot(test, c); Shape(w, if test.TestJmp? then Through else Stop) && CallsOut(w)
  {
    FullNotParts(test, c);
    EnteredFlow(FullNot(test, c), test, c, 1);
  }

  lemma FullNotParts(test: Test, c: Code)
    ensures var w, o := FullNot(test, c), TestSize(test) + 2;
      && |w| == o + |c| + 1 && Part(w, 0, TestCode(test, |w|)) && Part(w, o, c)
      && w[o - 2] == IChoice && w[o - 1].Off? && w[o + |c|] == IFailTwice
  {
    var w, o := FullNot(test, c), TestSize(test) + 2;
    PartsOf(TestCode(test, o + |c| + 1), [IChoice, Off(2 + |c| + 1)], c, [IFailTwice], o - 2, o, o + |c|);
    LabelPart(w, o - 2, IChoice, 2 + |c| + 1);
    WordPart(w, o + |c|, IFailTwice);
  }

  lemma TestedNotFlow(test: Test)
    ensures var w := TestedNot(test); Shape(w, if test.TestJmp? then Through else Stop) && CallsOut(w)
  {
    var w := TestedNot(test);
    if test.NoTest? { SolidShape(w); } else { TestShape(w, test, |w|); }
    assert forall k :: 0 <= k < TestSize(test) ==> w[k] == TestCode(test, |w|)[k];
    NoCallsOut(w);
  }

  lemma FullAndFlow(c: Code)
    requires CallsOut(c)
    ensures Shape(FullAnd(c), Stop) && CallsOut(FullAnd(c))
  {
    FullAndParts(FullAnd(c), c, 2 + |c| + 2);
    AndPartsFlow(FullAnd(c), c);
  }

  lemma FullAndParts(w: Code, c: Code, l: int)
    requires w == [IChoice, Off(l)] + c + [IBackCommit, Off(3)] + [IFail]
    ensures |w| == |c| + 5 && w[0] == IChoice && w[1].Off? && Part(w, 2, c)
    ensures w[2 + |c|] == IBackCommit && w[2 + |c| + 1].Off? && w[2 + |c| + 2] == IFail
  {
    PartsOf([IChoice, Off(l)], c, [IBackCommit, Off(3)], [IFail], 2, 2 + |c|, 2 + |c| + 2);
    LabelPart(w, 0, IChoice, l);
    LabelPart(w, 2 + |c|, IBackCommit, 3);
    WordPart(w, 2 + |c| + 2, IFail);
  }

  lemma AndPartsFlow(w: Code, c: Code)
    requires CallsOut(c) && |w| == |c| + 5 && w[0] == IChoice && w[1].Off? && Part(w, 2, c)
    requires w[2 + |c|] == IBackCommit && w[2 + |c| + 1].Off? && w[2 + |c| + 2] == IFail
    ensures Shape(w, Stop) && CallsOut(w)
  {
    SolidShape(w);
    SolidLeaves(w, 2 + |c|, 2 + |c| - 1);
    PartCalls(w, 2, c);
  }

  lemma OpenCaptureFlow(c: Code)
    requires CallsOut(c)
    ensures Shape([IOpenCapture] + c + [ICloseCapture], Stop) && CallsOut([IOpenCapture] + c + [ICloseCapture])
  {
    CapturePartsFlow([IOpenCapture] + c + [ICloseCapture], c);
  }

  lemma CapturePartsFlow(w: Code, c: Code)
    requires CallsOut(c) && |w| == |c| + 2 && w[0] == IOpenCapture && Part(w, 1, c) && w[|c| + 1] == ICloseCapture
    ensures Shape(w, Stop) && CallsOut(w)
  {
    SolidShape(w);
    SolidLeaves(w, 1 + |c|, |c|);
    PartCalls(w, 1, c);
  }

  // ---------- generated code ----------

  /** A test that always fails replaces the backtrack entry: headfail patterns do not accept the empty subject. */
  lemma GuardSkips(g: seq<Tree>, d: nat, p: Tree, next: Charset)
    ensures Guard(g, d, p).TestJmp? ==> SkipsChoice(g, d, p, next)
    ensures HeadFail(g, p, d) || SkipsChoice(g, d, p, next) ==> HardGuard(g, d, p) == Guard(g, d, p) != NoTest
  {
    if HeadFail(g, p, d) { HeadFailProgress(g, p, FULL, d, [], 0, 0); }
  }

  ghost predicate Flows(w: Code, e: Course) { Shape(w, e) && CallsOut(w) }

  lemma WordFlows(w: Word)
    requires Solid(w)
    ensures Flows([w], Stop)
  {
    SolidShape([w]);
  }

  lemma CharsetFlows(cs: Charset, tt: Test)
    ensures Flows(CodeCharset(cs, tt), Stop)
  {
    SolidShape(CodeCharset(cs, tt));
    NoCallsOut(CodeCharset(cs, tt));
  }

  lemma EmptyFlows(w: Code)
    requires w == []
    ensures Flows(w, Through)
  {
    LeadsSelf(w, 0);
  }

  lemma BehindFlows(n: int)
    ensures Flows(BehindCode(n), if n > 0 then Stop else Through)
  {
    if n > 0 { WordFlows(IBehind(n)); } else { EmptyFlows(BehindCode(n)); }
  }

  lemma ThenFlows(u: Code, v: Code, e1: Course, e2: Course)
    requires Flows(u, e1) && Flows(v, e2)
    ensures Flows(u + v, Then(e1, e2))
  {
    ShapeThen(u, v, e1, e2);
    CallsThen(u, v, e2);
  }

  lemma CallFlows(r: nat)
    ensures Flows([IOpenCall(r), Hole], Enter(r, true))
  {
    var w := [IOpenCall(r), Hole];
    LeadsSelf(w, 0);
    LeadsSelf(w, 2);
    assert Enters(w, r, true, 0);
    EndLeaves(w, 0);
  }

  lemma GrammarFlows(t: Tree, d: nat)
    requires t.Grammar? && WellFormed([], d, t)
    ensures Flows(CorrectCalls(RawGrammar(t, d), t, d, 4), Stop)
  {
    GrammarClosed(t, d);
    ClosedFlows(RawGrammar(t, d), CorrectCalls(RawGrammar(t, d), t, d, 4), RelPos(t, d), |GenRules(t, d, 0)|);
  }

  lemma ClosedFlows(raw: Code, cc: Code, pos: seq<int>, n: nat)
    requires |raw| >= 4 && Closed(raw, cc, pos, 4) && cc[..4] == [ICall, Off(4), IJmp, Off(2 + n)]
    ensures Flows(cc, Stop)
  {
    FirstWords(cc);
    SolidShape(cc);
    NoCallsOut(cc);
  }

  /** Generated code comes to what the tree says, whatever its context. */
  lemma {:induction false} GenFlows(g: seq<Tree>, d: nat, t: Tree, opt: bool, tt: Test, fl: Charset)
    requires WellFormed(g, d, t)
    ensures Flows(Gen(g, d, t, opt, tt, fl), CourseOf(g, d, t))
    decreases t, 1
  {
    match t
    case Char(c) => WordFlows(CodeChar(c, tt)[0]);
    case Set(cs) => CharsetFlows(cs, tt);
    case Any => WordFlows(IAny);
    case False => WordFlows(IFail);
    case True => EmptyFlows(Gen(g, d, t, opt, tt, fl));
    case Choice(_, _) => ChoiceFlows(g, d, t, opt, tt, fl);
    case Rep(_) => RepFlows(g, d, t, opt, tt, fl);
    case Not(_) => NotFlows(g, d, t, opt, tt, fl);
    case And(_) => AndFlows(g, d, t, opt, tt, fl);
    case Behind(n, p) =>
      GenFlows(g, d, p, false, NoTest, FULL);
      BehindFlows(n);
      ThenFlows(BehindCode(n), Gen(g, d, p, false, NoTest, FULL), if n > 0 then Stop else Through, CourseOf(g, d, p));
    case Capture(_) => CaptureFlows(g, d, t, opt, tt, fl);
    case Seq(p, q) =>
      GenCase(g, d, t, opt, tt, fl);
      var fl1, tt2 := FollowOfFirst(g, d, p, q, fl), TestAfter(g, d, p, tt);
      GenFlows(g, d, p, false, tt, fl1);
      GenFlows(g, d, q, opt, tt2, fl);
      ThenFlows(Gen(g, d, p, false, tt, fl1), Gen(g, d, q, opt, tt2, fl), CourseOf(g, d, p), CourseOf(g, d, q));
    case Call(r) => CallFlows(r);
    case Grammar(_) =>
      assert WellFormed([], d, t);
      GrammarFlows(t, d);
  }

  lemma {:induction false} ChoiceFlows(g: seq<Tree>, d: nat, t: Tree, opt: bool, tt: Test, fl: Charset)
    requires t.Choice? && WellFormed(g, d, t)
    ensures Flows(Gen(g, d, t, opt, tt, fl), CourseOf(g, d, t))
    decreases t, 0
  {
    GenCase(g, d, t, opt, tt, fl);
    var p, q := t.p1, t.p2;
    GuardSkips(g, d, p, GetFirst(g, q, fl, d).cs);
    GenFlows(g, d, q, opt, NoTest, fl);
    var c2 := Gen(g, d, q, opt, NoTest, fl);
    if SkipsChoice(g, d, p, GetFirst(g, q, fl, d).cs) {
      var test := HardGuard(g, d, p);
      GenFlows(g, d, p, false, test, fl);
      TestedChoiceFlow(test, Gen(g, d, p, false, test, fl), c2, q.True?, CourseOf(g, d, q));
    } else if opt && q.True? {
      GenFlows(g, d, p, true, NoTest, FULL);
      OptionalFlow(Gen(g, d, p, true, NoTest, FULL));
    } else {
      var test := Guard(g, d, p);
      GenFlows(g, d, p, q.True?, test, FULL);
      FullChoiceFlow(test, Gen(g, d, p, q.True?, test, FULL), c2, CourseOf(g, d, q));
    }
  }

  lemma {:induction false} RepFlows(g: seq<Tree>, d: nat, t: Tree, opt: bool, tt: Test, fl: Charset)
    requires t.Rep? && WellFormed(g, d, t)
    ensures Flows(Gen(g, d, t, opt, tt, fl), CourseOf(g, d, t))
    decreases t, 0
  {
    GenCase(g, d, t, opt, tt, fl);
    var p := t.body;
    GuardSkips(g, d, p, fl);
    if ToCharset(p).0 {
      var w := [ISpan] + Buffer(ToCharset(p).1);
      SolidShape(w);
      NoCallsOut(w);
    } else if SkipsChoice(g, d, p, fl) {
      GenFlows(g, d, p, false, HardGuard(g, d, p), FULL);
      TestedLoopFlow(HardGuard(g, d, p), Gen(g, d, p, false, HardGuard(g, d, p), FULL));
    } else {
      GenFlows(g, d, p, false, NoTest, FULL);
      FullLoopFlow(Guard(g, d, p), Gen(g, d, p, false, NoTest, FULL), opt);
    }
  }

  lemma {:induction false} NotFlows(g: seq<Tree>, d: nat, t: Tree, opt: bool, tt: Test, fl: Charset)
    requires t.Not? && WellFormed(g, d, t)
    ensures Flows(Gen(g, d, t, opt, tt, fl), CourseOf(g, d, t))
    decreases t, 0
  {
    GenCase(g, d, t, opt, tt, fl);
    var p := t.body;
    TestedNotFlow(Guard(g, d, p));
    GenFlows(g, d, p, false, NoTest, FULL);
    FullNotFlow(Guard(g, d, p), Gen(g, d, p, false, NoTest, FULL));
  }

  lemma {:induction false} AndFlows(g: seq<Tree>, d: nat, t: Tree, opt: bool, tt: Test, fl: Charset)
    requires t.And? && WellFormed(g, d, t)
    ensures Flows(Gen(g, d, t, opt, tt, fl), CourseOf(g, d, t))
    decreases t, 0
  {
    GenCase(g, d, t, opt, tt, fl);
    var p := t.body;
    var c, len := Gen(g, d, p, false, tt, FULL), FixedLen(g, p, d);
    GenFlows(g, d, p, false, tt, FULL);
    if ShortBody(g, d, p, MAXBEHIND) {
      BehindFlows(len);
      ThenFlows(c, BehindCode(len), CourseOf(g, d, p), if len > 0 then Stop else Through);
    } else {
      FullAndFlow(c);
    }
  }

  lemma {:induction false} CaptureFlows(g: seq<Tree>, d: nat, t: Tree, opt: bool, tt: Test, fl: Charset)
    requires t.Capture? && WellFormed(g, d, t)
    ensures Flows(Gen(g, d, t, opt, tt, fl), CourseOf(g, d, t))
    decreases t, 0
  {
    GenCase(g, d, t, opt, tt, fl);
    var p := t.body;
    var c := Gen(g, d, p, false, tt, fl);
    GenFlows(g, d, p, false, tt, fl);
    if ShortBody(g, d, p, MAXOFF) {
      WordFlows(IFullCapture(FixedLen(g, p, d)));
      ThenFlows(c, [IFullCapture(FixedLen(g, p, d))], CourseOf(g, d, p), Stop);
    } else {
      OpenCaptureFlow(c);
    }
  }
}
