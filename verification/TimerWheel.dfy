/** The hierarchical timing wheel of skynet_timer.c.

    The wheel stores 32-bit expiry times.  Its specification is a plain table from absolute
    due times to the events added for them, in the order they were added.  Times are
    unbounded naturals in the specification, so wrap-around of the 32-bit clock is part of
    what is proved.
 */
module TimerWheel {

  const TIME_NEAR := 256
  const TIME_LEVEL := 64
  const WRAP := 0x1_0000_0000
  const MAX_DELAY := 0x8000_0000

  /** `timer_event` */
  datatype Event = Event(handle: nat, session: int)

  /** `timer_node`; `due` is the absolute time its 32-bit expiry time stands for. */
  datatype Node = Node(expire: nat, event: Event, ghost due: nat)

  datatype Place = Near(k: nat) | Level(i: nat, k: nat)

  type Slot = s: Place | ValidSlot(s) witness Near(0)

  /** Number of ticks covered by one slot of level `i`. */
  function Span(i: nat): nat {
    if i == 0 then 256 else if i == 1 then 16384 else if i == 2 then 1048576 else 67108864
  }

  /** Where `add_node` puts a node: `x | (2^k - 1) == y | (2^k - 1)` says that the two
      words agree above their low `k` bits. */
  function SlotFor(x: nat, current: nat): Slot {
    if x / 256 == current / 256 then Near(x % 256)
    else if x / 16384 == current / 16384 then Level(0, x / 256 % 64)
    else if x / 1048576 == current / 1048576 then Level(1, x / 16384 % 64)
    else if x / 67108864 == current / 67108864 then Level(2, x / 1048576 % 64)
    else Level(3, x / 67108864 % 64)
  }

  predicate ValidSlot(s: Place) {
    match s
    case Near(k) => k < 256
    case Level(i, k) => i < 4 && k < 64
  }

  /** The digits of a time: the near slot, one slot per level, and what lies above. */
  datatype Digits = Digits(n: nat, l0: nat, l1: nat, l2: nat, top: nat)

  function DigitsOf(x: nat): Digits {
    Digits(x % 256, x / 256 % 64, x / 16384 % 64, x / 1048576 % 64, x / 67108864)
  }

  lemma DigitsExact(x: nat)
    ensures var a := DigitsOf(x);
      && x / 256 == a.l0 + 64 * a.l1 + 4096 * a.l2 + 262144 * a.top
      && x / 16384 == a.l1 + 64 * a.l2 + 4096 * a.top
      && x / 1048576 == a.l2 + 64 * a.top
      && x == a.n + 256 * a.l0 + 16384 * a.l1 + 1048576 * a.l2 + 67108864 * a.top
  {
    Nested(x);
  }

  lemma Nested(x: nat)
    ensures x / 16384 == x / 256 / 64
    ensures x / 1048576 == x / 16384 / 64
    ensures x / 67108864 == x / 1048576 / 64
  {
  }

  /** `SlotFor` by digits: the first digit from the top in which the two times differ. */
  function SlotOfDigits(x: Digits, c: Digits): Place {
    if x.top != c.top then Level(3, x.top % 64)
    else if x.l2 != c.l2 then Level(2, x.l2)
    else if x.l1 != c.l1 then Level(1, x.l1)
    else if x.l0 != c.l0 then Level(0, x.l0)
    else Near(x.n)
  }

  lemma SlotByDigits(x: nat, c: nat)
    ensures SlotFor(x, c) == SlotOfDigits(DigitsOf(x), DigitsOf(c))
  {
    var a, b := DigitsOf(x), DigitsOf(c);
    DigitsExact(x);
    DigitsExact(c);
    assert x / 256 == c / 256 <==> a.l0 == b.l0 && a.l1 == b.l1 && a.l2 == b.l2 && a.top == b.top;
    assert x / 16384 == c / 16384 <==> a.l1 == b.l1 && a.l2 == b.l2 && a.top == b.top;
    assert x / 1048576 == c / 1048576 <==> a.l2 == b.l2 && a.top == b.top;
  }

  predicate InRange(a: Digits) { a.n < 256 && a.l0 < 64 && a.l1 < 64 && a.l2 < 64 }

  /** The time with the given digits. */
  function TimeOf(a: Digits): nat {
    a.n + 256 * (a.l0 + 64 * (a.l1 + 64 * (a.l2 + 64 * a.top)))
  }

  lemma DivStep(x: nat, q: nat, r: nat, b: nat)
    requires b == 64 || b == 256
    requires x == r + b * q && r < b
    ensures x / b == q && x % b == r
  {
  }

  lemma DigitsUnique(a: Digits)
    requires InRange(a)
    ensures DigitsOf(TimeOf(a)) == a
  {
    var y2 := a.l2 + 64 * a.top;
    var y1 := a.l1 + 64 * y2;
    var y0 := a.l0 + 64 * y1;
    DivStep(TimeOf(a), y0, a.n, 256);
    DivStep(y0, y1, a.l0, 64);
    DivStep(y1, y2, a.l1, 64);
    DivStep(y2, a.top, a.l2, 64);
    Nested(TimeOf(a));
  }

  lemma DigitsTime(x: nat)
    ensures InRange(DigitsOf(x)) && TimeOf(DigitsOf(x)) == x
  {
    DigitsExact(x);
  }

  lemma DigitsWrap(x: nat)
    ensures DigitsOf(x % WRAP) == DigitsOf(x).(top := DigitsOf(x).top % 64)
  {
    var a := DigitsOf(x);
    var b := a.(top := a.top % 64);
    DigitsTime(x);
    DigitsUnique(b);
    assert TimeOf(b) < WRAP;
    assert a.top == b.top + 64 * (a.top / 64);
    assert x == TimeOf(b) + WRAP * (a.top / 64);
    WrapStep(x, a.top / 64, TimeOf(b));
  }

  lemma WrapStep(x: nat, q: nat, r: nat)
    requires x == r + WRAP * q && r < WRAP
    ensures x % WRAP == r
  {
  }

  /** 32-bit words and absolute times choose the same slot. */
  lemma SlotWraps(due: nat, now: nat)
    requires now <= due < now + MAX_DELAY
    ensures SlotFor(due % WRAP, now % WRAP) == SlotFor(due, now)
  {
    SlotByDigits(due, now);
    SlotByDigits(due % WRAP, now % WRAP);
    DigitsWrap(due);
    DigitsWrap(now);
    TopClose(due, now);
    SmallMod(DigitsOf(due).top, DigitsOf(now).top);
  }

  lemma TopClose(due: nat, now: nat)
    requires now <= due < now + MAX_DELAY
    ensures now / 67108864 <= due / 67108864 <= now / 67108864 + 32
  {
  }

  lemma SmallMod(x: nat, y: nat)
    requires y <= x <= y + 32
    ensures x % 64 == y % 64 <==> x == y
    ensures x > y + 1 ==> x % 64 != (y + 1) % 64
  {
  }

  /** The slot that is emptied when the clock arrives at `now`, if any. */
  function Cascade(now: nat): (r: (int, nat))
    ensures -1 <= r.0 < 4 && r.1 < 64
  {
    if now % 256 != 0 then (-1, 0)
    else if now / 256 % 64 != 0 then (0, now / 256 % 64)
    else if now / 16384 % 64 != 0 then (1, now / 16384 % 64)
    else if now / 1048576 % 64 != 0 then (2, now / 1048576 % 64)
    else (3, now / 67108864 % 64)
  }

  /** One tick on digits: add one with carry. */
  lemma DigitsTick(x: nat)
    ensures DigitsOf(x + 1) == Carried(DigitsOf(x))
  {
    var a := DigitsOf(x);
    DigitsTime(x);
    DigitsUnique(Carried(a));
  }

  function Carried(a: Digits): Digits {
    if a.n < 255 then a.(n := a.n + 1)
    else if a.l0 < 63 then a.(n := 0, l0 := a.l0 + 1)
    else if a.l1 < 63 then a.(n := 0, l0 := 0, l1 := a.l1 + 1)
    else if a.l2 < 63 then a.(n := 0, l0 := 0, l1 := 0, l2 := a.l2 + 1)
    else Digits(0, 0, 0, 0, a.top + 1)
  }

  lemma DigitsOrder(x: nat, y: nat)
    requires x <= y
    ensures NotLater(DigitsOf(x), DigitsOf(y))
  {
    DigitsExact(x);
    DigitsExact(y);
  }

  function CascadeOf(c: Digits): (int, nat) {
    if c.n != 0 then (-1, 0)
    else if c.l0 != 0 then (0, c.l0)
    else if c.l1 != 0 then (1, c.l1)
    else if c.l2 != 0 then (2, c.l2)
    else (3, c.top % 64)
  }

  /** The first time is not later than the second. */
  predicate NotLater(a: Digits, b: Digits) {
    && a.top <= b.top
    && (a.top == b.top ==> a.l2 <= b.l2)
    && (a.top == b.top && a.l2 == b.l2 ==> a.l1 <= b.l1)
    && (a.top == b.top && a.l2 == b.l2 && a.l1 == b.l1 ==> a.l0 <= b.l0)
    && (a.top == b.top && a.l2 == b.l2 && a.l1 == b.l1 && a.l0 == b.l0 ==> a.n <= b.n)
  }

  /** A tick on digits: a slot stays as it is unless it is the one that is emptied. */
  lemma KeptByDigits(x: Digits, c: Digits)
    requires InRange(x) && InRange(c) && NotLater(Carried(c), x) && x.top <= c.top + 32
    ensures var (i, k) := CascadeOf(Carried(c));
      if i >= 0 && SlotOfDigits(x, c) == Level(i, k) then SlotOfDigits(x, Carried(c)) != Level(i, k)
      else SlotOfDigits(x, Carried(c)) == SlotOfDigits(x, c)
  {
    SmallMod(x.top, c.top);
  }

  /** A tick leaves every pending node in its slot, except those of the emptied slot. */
  lemma SlotKept(due: nat, now: nat)
    requires now + 1 <= due < now + MAX_DELAY
    ensures var (i, k) := Cascade(now + 1);
      if i >= 0 && SlotFor(due, now) == Level(i, k) then SlotFor(due, now + 1) != Level(i, k)
      else SlotFor(due, now + 1) == SlotFor(due, now)
  {
    SlotByDigits(due, now);
    SlotByDigits(due, now + 1);
    DigitsTick(now);
    DigitsOrder(now + 1, due);
    TopClose(due, now);
    DigitsTime(due);
    DigitsTime(now);
    assert Cascade(now + 1) == CascadeOf(DigitsOf(now + 1));
    KeptByDigits(DigitsOf(due), DigitsOf(now));
  }

  // ---------- the wheel refines a table of due times ----------

  datatype Wheel = Wheel(near: seq<seq<Node>>, t: seq<seq<seq<Node>>>)

  ghost predicate Shape(w: Wheel) {
    |w.near| == 256 && |w.t| == 4 && forall i :: 0 <= i < 4 ==> |w.t[i]| == 64
  }

  function At(w: Wheel, s: Slot): seq<Node>
    requires Shape(w)
  {
    match s
    case Near(k) => w.near[k]
    case Level(i, k) => w.t[i][k]
  }

  function Put(w: Wheel, s: Slot, list: seq<Node>): (r: Wheel)
    requires Shape(w)
    ensures Shape(r) && At(r, s) == list
    ensures forall s': Slot :: s' != s ==> At(r, s') == At(w, s')
  {
    match s
    case Near(k) => w.(near := w.near[k := list])
    case Level(i, k) => w.(t := w.t[i := w.t[i][k := list]])
  }

  /** The events of a list due at `x`, in order. */
  ghost function Select(list: seq<Node>, x: nat): seq<Event> {
    if list == [] then []
    else
      var last := list[|list| - 1];
      Select(list[..|list| - 1], x) + if last.due == x then [last.event] else []
  }

  lemma SelectLink(list: seq<Node>, node: Node, x: nat)
    ensures Select(list + [node], x) == Select(list, x) + if node.due == x then [node.event] else []
  {
    assert (list + [node])[..|list|] == list;
  }

  lemma {:induction false} SelectNone(list: seq<Node>, x: nat)
    requires forall k :: 0 <= k < |list| ==> list[k].due != x
    ensures Select(list, x) == []
    decreases |list|
  {
    if list != [] { SelectNone(list[..|list| - 1], x); }
  }

  lemma {:induction false} SelectSome(list: seq<Node>, k: nat)
    requires k < |list|
    ensures Select(list, list[k].due) != []
    decreases |list|
  {
    if k < |list| - 1 {
      assert list[..|list| - 1][k] == list[k];
      SelectSome(list[..|list| - 1], k);
    }
  }

  lemma {:induction false} SelectHead(list: seq<Node>, x: nat)
    requires list != []
    ensures Select(list, x) == (if list[0].due == x then [list[0].event] else []) + Select(list[1..], x)
    decreases |list|
  {
    if |list| > 1 {
      var init := list[..|list| - 1];
      SelectHead(init, x);
      assert init[1..] == list[1..][..|list| - 2];
      assert list[1..][|list| - 2] == list[|list| - 1];
    }
  }

  lemma {:induction false} SelectAll(list: seq<Node>, x: nat)
    requires forall k :: 0 <= k < |list| ==> list[k].due == x
    ensures Select(list, x) == Events(list)
    decreases |list|
  {
    if list != [] {
      SelectAll(list[..|list| - 1], x);
      assert Events(list) == Events(list[..|list| - 1]) + [list[|list| - 1].event];
    }
  }

  function Events(list: seq<Node>): seq<Event> {
    seq(|list|, k requires 0 <= k < |list| => list[k].event)
  }

  /** A table from due times to events. */
  type Table = map<nat, seq<Event>>

  function Lookup(p: Table, due: nat): seq<Event> { if due in p then p[due] else [] }

  /** The node is due between `lo` and `hi`, and its expiry time is the 32-bit form. */
  ghost predicate Bound(node: Node, lo: nat, hi: nat) {
    lo <= node.due < hi && node.expire == node.due % WRAP
  }

  /** Every node of a list belongs into slot `s`, where `loc` maps due times to slots. */
  ghost predicate Home(list: seq<Node>, s: Slot, loc: nat -> Slot, lo: nat, hi: nat) {
    forall k :: 0 <= k < |list| ==> Bound(list[k], lo, hi) && loc(list[k].due) == s
  }

  /** The wheel together with nodes `rest` still to be linked holds exactly the table. */
  ghost predicate Holds(w: Wheel, rest: seq<Node>, loc: nat -> Slot, lo: nat, hi: nat, p: Table) {
    && Shape(w)
    && (forall s: Slot :: Home(At(w, s), s, loc, lo, hi))
    && (forall k :: 0 <= k < |rest| ==> Bound(rest[k], lo, hi))
    && (forall due: nat :: HoldsAt(w, rest, loc, p, due))
    && (forall due :: due in p ==> lo <= due < hi)
  }

  ghost predicate HoldsAt(w: Wheel, rest: seq<Node>, loc: nat -> Slot, p: Table, due: nat)
    requires Shape(w)
  {
    Select(At(w, loc(due)), due) + Select(rest, due) == Lookup(p, due)
  }

  /** `link`: a node appended to the list of its slot. */
  function Link(w: Wheel, s: Slot, node: Node): (r: Wheel)
    requires Shape(w)
    ensures Shape(r)
  {
    Put(w, s, At(w, s) + [node])
  }

  /** A node appended to the list of its slot is where it belongs. */
  lemma LinkHome(w: Wheel, loc: nat -> Slot, lo: nat, hi: nat, node: Node)
    requires Shape(w) && Bound(node, lo, hi) && forall s: Slot :: Home(At(w, s), s, loc, lo, hi)
    ensures forall s: Slot :: Home(At(Link(w, loc(node.due), node), s), s, loc, lo, hi)
  {
    var s0 := loc(node.due);
    forall s: Slot ensures Home(At(Link(w, s0, node), s), s, loc, lo, hi) {
      assert Home(At(w, s), s, loc, lo, hi);
    }
  }

  /** What linking does to the nodes due at one time. */
  lemma LinkSelect(w: Wheel, loc: nat -> Slot, node: Node, due: nat)
    requires Shape(w)
    ensures Select(At(Link(w, loc(node.due), node), loc(due)), due)
         == Select(At(w, loc(due)), due) + if node.due == due then [node.event] else []
  {
    var s := loc(node.due);
    if loc(due) == s {
      SelectLink(At(w, s), node, due);
    } else {
      var list := Select(At(w, loc(due)), due);
      assert list + [] == list;
    }
  }

  /** Linking the first of the remaining nodes. */
  lemma LinkRest(w: Wheel, rest: seq<Node>, loc: nat -> Slot, lo: nat, hi: nat, p: Table)
    requires rest != [] && Holds(w, rest, loc, lo, hi, p)
    ensures Holds(Link(w, loc(rest[0].due), rest[0]), rest[1..], loc, lo, hi, p)
  {
    var w' := Link(w, loc(rest[0].due), rest[0]);
    LinkHome(w, loc, lo, hi, rest[0]);
    forall due: nat ensures HoldsAt(w', rest[1..], loc, p, due) {
      assert HoldsAt(w, rest, loc, p, due);
      SelectHead(rest, due);
      LinkSelect(w, loc, rest[0], due);
      Regroup(Select(At(w, loc(due)), due), if rest[0].due == due then [rest[0].event] else [], Select(rest[1..], due));
    }
  }

  lemma Regroup<T>(a: seq<T>, b: seq<T>, c: seq<T>)
    ensures (a + b) + c == a + (b + c)
  {
  }

  /** Adding a new node. */
  lemma LinkNew(w: Wheel, loc: nat -> Slot, lo: nat, hi: nat, p: Table, node: Node)
    requires Holds(w, [], loc, lo, hi, p) && Bound(node, lo, hi)
    ensures Holds(Link(w, loc(node.due), node), [], loc, lo, hi, p[node.due := Lookup(p, node.due) + [node.event]])
  {
    var w', p' := Link(w, loc(node.due), node), p[node.due := Lookup(p, node.due) + [node.event]];
    LinkHome(w, loc, lo, hi, node);
    forall due: nat ensures HoldsAt(w', [], loc, p', due) {
      assert HoldsAt(w, [], loc, p, due);
      LinkSelect(w, loc, node, due);
      NoRest(w, loc, p, due);
      NoRest(w', loc, p', due);
    }
  }

  lemma NoRest(w: Wheel, loc: nat -> Slot, p: Table, due: nat)
    requires Shape(w)
    ensures HoldsAt(w, [], loc, p, due) <==> Select(At(w, loc(due)), due) == Lookup(p, due)
  {
    var list := Select(At(w, loc(due)), due);
    assert list + [] == list;
  }

  /** A slot that only the due time `now` maps to holds exactly the events due now. */
  lemma CurrentSlot(w: Wheel, loc: nat -> Slot, now: nat, hi: nat, p: Table)
    requires Holds(w, [], loc, now, hi, p)
    requires forall due: nat :: now <= due < hi && loc(due) == loc(now) ==> due == now
    ensures Events(At(w, loc(now))) == Lookup(p, now)
    ensures Holds(Put(w, loc(now), []), [], loc, now, hi, p - {now})
  {
    var s := loc(now);
    var list := At(w, s);
    assert Home(list, s, loc, now, hi);
    SelectAll(list, now);
    assert HoldsAt(w, [], loc, p, now);
    var w', p' := Put(w, s, []), p - {now};
    forall due: nat ensures HoldsAt(w', [], loc, p', due) {
      assert HoldsAt(w, [], loc, p, due);
      if loc(due) == s && due != now { Elsewhere(list, s, loc, now, hi, due); }
    }
  }

  /** The table may drop an empty entry. */
  lemma NothingNow(w: Wheel, loc: nat -> Slot, now: nat, hi: nat, p: Table)
    requires Holds(w, [], loc, now, hi, p) && Lookup(p, now) == []
    ensures Holds(w, [], loc, now, hi, p - {now})
  {
    forall due: nat ensures HoldsAt(w, [], loc, p - {now}, due) {
      assert HoldsAt(w, [], loc, p, due);
    }
  }

  /** A list has no node for a due time that belongs elsewhere. */
  lemma Elsewhere(list: seq<Node>, s: Slot, loc: nat -> Slot, lo: nat, hi: nat, due: nat)
    requires Home(list, s, loc, lo, hi) && (loc(due) != s || !(lo <= due < hi))
    ensures Select(list, due) == []
  {
    SelectNone(list, due);
  }

  /** No node is due now if the table has no event for now. */
  lemma NothingDue(w: Wheel, loc: nat -> Slot, now: nat, hi: nat, p: Table, s: Slot, k: nat)
    requires Holds(w, [], loc, now, hi, p) && now !in p && k < |At(w, s)|
    ensures At(w, s)[k].due > now
  {
    assert Home(At(w, s), s, loc, now, hi);
    if At(w, s)[k].due == now {
      assert HoldsAt(w, [], loc, p, now);
      SelectSome(At(w, s), k);
    }
  }

  /** From one clock value to the next, only the nodes of one slot `c` change their slot. */
  ghost predicate Moves(loc: nat -> Slot, loc': nat -> Slot, c: Slot, lo: nat, hi: nat) {
    forall due: nat :: lo <= due < hi ==> if loc(due) == c then loc'(due) != c else loc'(due) == loc(due)
  }

  /** The clock arrives at the next tick: clearing the slot to be cascaded leaves exactly its
      nodes to be linked again. */
  lemma TickHolds(w: Wheel, loc: nat -> Slot, loc': nat -> Slot, c: Slot, now: nat, next: nat, hi: nat, p: Table)
    requires Holds(w, [], loc, now, hi, p) && now !in p && next == now + 1 && Moves(loc, loc', c, next, hi)
    ensures Holds(Put(w, c, []), At(w, c), loc', next, hi + 1, p)
  {
    var w', rest := Put(w, c, []), At(w, c);
    forall s: Slot ensures Home(At(w', s), s, loc', next, hi + 1) {
      assert Home(At(w, s), s, loc, now, hi);
      forall z | 0 <= z < |At(w', s)| ensures Bound(At(w', s)[z], next, hi + 1) && loc'(At(w', s)[z].due) == s {
        NothingDue(w, loc, now, hi, p, s, z);
      }
    }
    assert Home(rest, c, loc, now, hi);
    forall z | 0 <= z < |rest| ensures Bound(rest[z], next, hi + 1) {
      NothingDue(w, loc, now, hi, p, c, z);
    }
    forall due: nat ensures HoldsAt(w', rest, loc', p, due) {
      TickHoldsAt(w, loc, loc', c, now, next, hi, p, due);
    }
  }

  lemma TickHoldsAt(w: Wheel, loc: nat -> Slot, loc': nat -> Slot, c: Slot, now: nat, next: nat, hi: nat, p: Table, due: nat)
    requires Holds(w, [], loc, now, hi, p) && now !in p && next == now + 1 && Moves(loc, loc', c, next, hi)
    ensures HoldsAt(Put(w, c, []), At(w, c), loc', p, due)
  {
    assert HoldsAt(w, [], loc, p, due);
    var there := loc'(due);
    assert Home(At(w, there), there, loc, now, hi) && Home(At(w, c), c, loc, now, hi);
    if next <= due < hi {
      if loc(due) == c {
        Elsewhere(At(w, there), there, loc, now, hi, due);
      } else {
        Elsewhere(At(w, c), c, loc, now, hi, due);
      }
    } else {
      NotPending(w, loc, now, hi, p, there, due);
      NotPending(w, loc, now, hi, p, c, due);
    }
  }

  /** No list has a node for a time outside the range of pending events. */
  lemma NotPending(w: Wheel, loc: nat -> Slot, now: nat, hi: nat, p: Table, s: Slot, due: nat)
    requires Holds(w, [], loc, now, hi, p) && now !in p && !(now < due < hi)
    ensures Select(At(w, s), due) == []
  {
    assert Home(At(w, s), s, loc, now, hi);
    forall k | 0 <= k < |At(w, s)| ensures At(w, s)[k].due != due {
      NothingDue(w, loc, now, hi, p, s, k);
    }
    SelectNone(At(w, s), due);
  }

  /** If no slot changes, the next tick needs nothing. */
  lemma QuietTick(w: Wheel, loc: nat -> Slot, loc': nat -> Slot, now: nat, next: nat, hi: nat, p: Table)
    requires Holds(w, [], loc, now, hi, p) && now !in p && next == now + 1
    requires forall due: nat :: next <= due < hi ==> loc'(due) == loc(due)
    ensures Holds(w, [], loc', next, hi + 1, p)
  {
    forall s: Slot ensures Home(At(w, s), s, loc', next, hi + 1) {
      assert Home(At(w, s), s, loc, now, hi);
      forall z | 0 <= z < |At(w, s)| ensures Bound(At(w, s)[z], next, hi + 1) && loc'(At(w, s)[z].due) == s {
        NothingDue(w, loc, now, hi, p, s, z);
      }
    }
    forall due: nat ensures HoldsAt(w, [], loc', p, due) {
      assert HoldsAt(w, [], loc, p, due);
      if !(next <= due < hi) {
        NotPending(w, loc, now, hi, p, loc(due), due);
        NotPending(w, loc, now, hi, p, loc'(due), due);
      }
    }
  }

  /** Slots by due time when the clock shows `now`. */
  function SlotsAt(now: nat): nat -> Slot { (due: nat) => SlotFor(due, now) }

  lemma NearIsNow(now: nat)
    ensures SlotsAt(now)(now) == Near(now % 256)
    ensures forall due: nat :: SlotsAt(now)(due) == SlotsAt(now)(now) ==> due == now
  {
  }

  lemma TickMoves(now: nat)
    ensures var (i, k) := Cascade(now + 1);
      if i < 0 then forall due: nat :: now + 1 <= due < now + MAX_DELAY ==> SlotsAt(now + 1)(due) == SlotsAt(now)(due)
      else Moves(SlotsAt(now), SlotsAt(now + 1), Level(i, k), now + 1, now + MAX_DELAY)
  {
    forall due: nat | now + 1 <= due < now + MAX_DELAY
      ensures var (i, k) := Cascade(now + 1);
        if i >= 0 && SlotsAt(now)(due) == Level(i, k) then SlotsAt(now + 1)(due) != Level(i, k)
        else SlotsAt(now + 1)(due) == SlotsAt(now)(due)
    {
      SlotKept(due, now);
    }
  }

  lemma AdvanceHolds(w: Wheel, now: nat, p: Table)
    requires Holds(w, [], SlotsAt(now), now, now + MAX_DELAY, p) && now !in p
    ensures var (i, k) := Cascade(now + 1);
      if i < 0 then Holds(w, [], SlotsAt(now + 1), now + 1, now + 1 + MAX_DELAY, p)
      else Holds(Put(w, Level(i, k), []), w.t[i][k], SlotsAt(now + 1), now + 1, now + 1 + MAX_DELAY, p)
  {
    var (i, k) := Cascade(now + 1);
    TickMoves(now);
    if i < 0 {
      QuietTick(w, SlotsAt(now), SlotsAt(now + 1), now, now + 1, now + MAX_DELAY, p);
    } else {
      TickHolds(w, SlotsAt(now), SlotsAt(now + 1), Level(i, k), now, now + 1, now + MAX_DELAY, p);
    }
  }

  /** A request for a timer, with a delay of at least one tick. */
  datatype Request = Request(event: Event, delay: nat)

  ghost predicate Proper(rs: seq<Request>) {
    forall k :: 0 <= k < |rs| ==> 1 <= rs[k].delay < MAX_DELAY
  }

  function Insert(p: Table, due: nat, event: Event): Table { p[due := Lookup(p, due) + [event]] }

  function InsertAll(p: Table, now: nat, rs: seq<Request>): Table {
    if rs == [] then p
    else
      var r := rs[|rs| - 1];
      Insert(InsertAll(p, now, rs[..|rs| - 1]), now + r.delay, r.event)
  }

  // ---------- runs ----------

  /** What happens to a timer: `skynet_timeout` calls, and updates during which other
      threads add timers. */
  datatype Op = Timeout(event: Event, delay: int) | Tick(arrivals: seq<Request>)

  ghost predicate Runnable(ops: seq<Op>) {
    forall k :: 0 <= k < |ops| ==>
      match ops[k]
      case Timeout(_, delay) => delay < MAX_DELAY
      case Tick(arrivals) => Proper(arrivals)
  }

  /** An event and the tick it is asked for. */
  datatype Call = Call(event: Event, due: nat)

  /** The calls made by one step that ends when the clock shows `now`. */
  ghost function CallsOf(now: nat, op: Op): seq<Call> {
    match op
    case Timeout(event, delay) => if delay <= 0 then [] else [Call(event, now + delay)]
    case Tick(arrivals) => Arrived(now, arrivals)
  }

  ghost function Arrived(now: nat, rs: seq<Request>): seq<Call> {
    if rs == [] then []
    else
      var r := rs[|rs| - 1];
      Arrived(now, rs[..|rs| - 1]) + [Call(r.event, now + r.delay)]
  }

  ghost function Ticks(ops: seq<Op>): nat {
    if ops == [] then 0
    else Ticks(ops[..|ops| - 1]) + if ops[|ops| - 1].Tick? then 1 else 0
  }

  /** All calls of a run, in order. */
  ghost function Calls(ops: seq<Op>): seq<Call> {
    if ops == [] then [] else Calls(ops[..|ops| - 1]) + CallsOf(Ticks(ops), ops[|ops| - 1])
  }

  /** The events asked for tick `n`, in order of the calls. */
  ghost function Due(calls: seq<Call>, n: nat): seq<Event> {
    if calls == [] then []
    else
      var last := calls[|calls| - 1];
      Due(calls[..|calls| - 1], n) + if last.due == n then [last.event] else []
  }

  lemma {:induction false} DueAppend(a: seq<Call>, b: seq<Call>, n: nat)
    ensures Due(a + b, n) == Due(a, n) + Due(b, n)
    decreases |b|
  {
    if b == [] {
      assert a + b == a;
    } else {
      assert (a + b)[..|a + b| - 1] == a + b[..|b| - 1];
      DueAppend(a, b[..|b| - 1], n);
    }
  }

  /** Every call has its own place among the events of its tick, after those of the earlier
      calls for that tick. */
  lemma {:induction false} OwnPlace(calls: seq<Call>, k: nat)
    requires k < |calls|
    ensures var n := calls[k].due;
      && |Due(calls[..k], n)| < |Due(calls, n)|
      && Due(calls, n)[|Due(calls[..k], n)|] == calls[k].event
  {
    var n := calls[k].due;
    assert calls == calls[..k] + [calls[k]] + calls[k + 1..];
    DueAppend(calls[..k] + [calls[k]], calls[k + 1..], n);
    assert (calls[..k] + [calls[k]])[..k] == calls[..k];
  }

  /** The table holds exactly the calls for later ticks. */
  ghost predicate Tracks(p: Table, now: nat, calls: seq<Call>) {
    forall n: nat :: n > now ==> Lookup(p, n) == Due(calls, n)
  }

  lemma InsertTracks(p: Table, now: nat, calls: seq<Call>, due: nat, event: Event)
    requires Tracks(p, now, calls)
    ensures Tracks(Insert(p, due, event), now, calls + [Call(event, due)])
  {
    assert (calls + [Call(event, due)])[..|calls|] == calls;
  }

  lemma {:induction false} InsertAllTracks(p: Table, now: nat, calls: seq<Call>, rs: seq<Request>)
    requires Tracks(p, now, calls)
    ensures Tracks(InsertAll(p, now, rs), now, calls + Arrived(now, rs))
  {
    if |rs| == 0 {
      assert calls + [] == calls;
    } else {
      var init, r := rs[..|rs| - 1], rs[|rs| - 1];
      InsertAllTracks(p, now, calls, init);
      InsertTracks(InsertAll(p, now, init), now, calls + Arrived(now, init), now + r.delay, r.event);
      ArrivedLast(now, rs);
      Regroup(calls, Arrived(now, init), [Call(r.event, now + r.delay)]);
    }
  }

  lemma {:induction false} ArrivedLast(now: nat, rs: seq<Request>)
    requires rs != []
    ensures Arrived(now, rs) == Arrived(now, rs[..|rs| - 1]) + [Call(rs[|rs| - 1].event, now + rs[|rs| - 1].delay)]
  {
  }

  /** Calls for ticks after `now` only. */
  ghost predicate After(calls: seq<Call>, now: nat) {
    forall k :: 0 <= k < |calls| ==> calls[k].due > now
  }

  lemma {:induction false} NoneDue(calls: seq<Call>, n: nat)
    requires After(calls, n)
    ensures Due(calls, n) == []
    decreases |calls|
  {
    if calls != [] { NoneDue(calls[..|calls| - 1], n); }
  }

  lemma {:induction false} ArrivedAfter(now: nat, rs: seq<Request>)
    requires Proper(rs)
    ensures After(Arrived(now, rs), now)
  {
    if rs != [] { ArrivedAfter(now, rs[..|rs| - 1]); }
  }

  /** `fired[n]` is what the calls asked for tick `n + 1`, for every tick up to `now`. */
  ghost predicate Exact(fired: seq<seq<Event>>, now: nat, calls: seq<Call>) {
    |fired| == now && forall n :: 0 <= n < now ==> fired[n] == Due(calls, n + 1)
  }

  lemma LaterCalls(fired: seq<seq<Event>>, now: nat, before: seq<Call>, calls: seq<Call>)
    requires Exact(fired, now, before) && After(calls, now)
    ensures Exact(fired, now, before + calls)
  {
    forall n | 0 <= n < now ensures fired[n] == Due(before + calls, n + 1) {
      DueAppend(before, calls, n + 1);
      NoneDue(calls, n + 1);
    }
  }

  /** After the given calls: what is pending and what has been fired. */
  ghost predicate Recorded(p: Table, now: nat, calls: seq<Call>, fired: seq<seq<Event>>) {
    Tracks(p, now, calls) && Exact(fired, now, calls)
  }

  lemma TickRecorded(p: Table, now: nat, next: nat, calls: seq<Call>, rs: seq<Request>, fired: seq<seq<Event>>)
    requires next == now + 1 && Recorded(p, now, calls, fired) && Proper(rs)
    ensures Recorded(InsertAll(p - {next}, next, rs), next, calls + CallsOf(next, Tick(rs)), fired + [Lookup(p, next)])
  {
    InsertAllTracks(p - {next}, next, calls, rs);
    ArrivedAfter(next, rs);
    LaterCalls(fired + [Lookup(p, next)], next, calls, Arrived(next, rs));
  }

  lemma TimeoutRecorded(p: Table, now: nat, calls: seq<Call>, event: Event, delay: int, fired: seq<seq<Event>>)
    requires Recorded(p, now, calls, fired)
    ensures Recorded(if delay <= 0 then p else Insert(p, now + delay, event), now, calls + CallsOf(now, Timeout(event, delay)), fired)
  {
    if delay <= 0 {
      assert calls + [] == calls;
    } else {
      InsertTracks(p, now, calls, now + delay, event);
      LaterCalls(fired, now, calls, [Call(event, now + delay)]);
    }
  }

  lemma RunNext(ops: seq<Op>, k: nat)
    requires k < |ops| && Runnable(ops)
    ensures Runnable([ops[k]])
    ensures Ticks(ops[..k + 1]) == Ticks(ops[..k]) + if ops[k].Tick? then 1 else 0
    ensures Calls(ops[..k + 1]) == Calls(ops[..k]) + CallsOf(Ticks(ops[..k + 1]), ops[k])
  {
    assert ops[..k + 1][..k] == ops[..k];
  }

  // ---------- the timer ----------

  class Timer {
    var near: seq<seq<Node>>
    var t: seq<seq<seq<Node>>>
    var time: nat                // 32-bit
    ghost var now: nat           // ticks since creation
    ghost var pending: Table

    ghost function Content(): Wheel
      reads this
    {
      Wheel(near, t)
    }

    /** With nodes `rest` still to be linked, the wheel holds the pending events. */
    ghost predicate Filling(rest: seq<Node>)
      reads this
    {
      time == now % WRAP && Holds(Content(), rest, SlotsAt(now), now, now + MAX_DELAY, pending)
    }

    /** The state while the lock is held: the wheel holds the pending events. */
    ghost predicate Consistent()
      reads this
    {
      Filling([])
    }

    /** The state whenever the lock is free: nothing is overdue. */
    ghost predicate Valid()
      reads this
    {
      Consistent() && now !in pending
    }

    /** `timer_create_timer` */
    constructor ()
      ensures Valid() && now == 0 && pending == map[]
    {
      near := seq(256, _ => []);
      t := seq(4, _ => seq(64, _ => []));
      time, now, pending := 0, 0, map[];
    }

    /** `add_node`: the loop looks for the first level whose block is the current one. */
    method AddNode(node: Node)
      requires Shape(Content())
      modifies this`near, this`t
      ensures Content() == Link(old(Content()), SlotFor(node.expire, time), node)
    {
      if node.expire / TIME_NEAR == time / TIME_NEAR {
        var k := node.expire % TIME_NEAR;
        near := near[k := near[k] + [node]];
      } else {
        var i, mask := 0, TIME_NEAR * TIME_LEVEL;
        while i < 3 && node.expire / mask != time / mask
          invariant 0 <= i <= 3 && mask == Span(i) * 64
          invariant forall z :: 0 <= z < i ==> node.expire / (Span(z) * 64) != time / (Span(z) * 64)
        {
          mask := mask * TIME_LEVEL;
          i := i + 1;
        }
        assert Span(0) * 64 == 16384 && Span(1) * 64 == 1048576 && Span(2) * 64 == 67108864;
        var k := node.expire / Span(i) % TIME_LEVEL;
        t := t[i := t[i][k := t[i][k] + [node]]];
      }
    }

    /** `timer_add` */
    method Add(event: Event, delay: nat)
      requires Valid() && 1 <= delay < MAX_DELAY
      modifies this`near, this`t, this`pending
      ensures Valid()
      ensures pending == Insert(old(pending), now + delay, event)
    {
      var node := Node((delay + time) % WRAP, event, now + delay);
      ModAdd(now, delay);
      SlotWraps(node.due, now);
      LinkNew(Content(), SlotsAt(now), now, now + MAX_DELAY, pending, node);
      AddNode(node);
      pending := pending[node.due := Lookup(pending, node.due) + [event]];
    }

    /** `move_list` */
    method MoveList(level: nat, idx: nat)
      requires level < 4 && idx < 64 && Cascading(level, idx)
      modifies this`near, this`t
      ensures Consistent()
    {
      var current := t[level][idx];
      ghost var was := Content();
      t := t[level := t[level][idx := []]];
      assert Content() == Put(was, Level(level, idx), []);
      while current != []
        invariant Filling(current)
        decreases |current|
      {
        SlotWraps(current[0].due, now);
        LinkRest(Content(), current, SlotsAt(now), now, now + MAX_DELAY, pending);
        AddNode(current[0]);
        current := current[1..];
      }
    }

    /** The clock has moved on and the slot to be cascaded still holds its nodes. */
    ghost predicate Cascading(i: nat, k: nat)
      requires i < 4 && k < 64
      reads this
    {
      && time == now % WRAP && Shape(Content())
      && Holds(Put(Content(), Level(i, k), []), t[i][k], SlotsAt(now), now, now + MAX_DELAY, pending)
    }

    /** `timer_shift` */
    method Shift()
      requires Valid()
      modifies this`near, this`t, this`time, this`now
      ensures Consistent() && now == old(now) + 1
    {
      Advance();
      var ct := time;
      if ct == 0 {
        MoveList(3, 0);
      } else {
        ShiftLevels(ct);
      }
    }

    /** The loop of `timer_shift` over the levels. */
    method ShiftLevels(ct: nat)
      requires 0 < ct < WRAP && ToCascade(Cascade(ct))
      modifies this`near, this`t
      ensures Consistent()
    {
      ghost var c := Cascade(ct);
      var mask, tt, i := TIME_NEAR, ct / TIME_NEAR, 0;
      while ct % mask == 0
        invariant Carry(ct, i, mask, tt, c) && ToCascade(c)
        decreases 3 - i
      {
        var idx := tt % TIME_LEVEL;
        CarryStep(ct, i, mask, tt, c);
        if idx != 0 {
          MoveList(i, idx);
          return;
        }
        mask := mask * TIME_LEVEL;
        tt := tt / TIME_LEVEL;
        i := i + 1;
      }
      CarryStops(ct, i, mask, tt, c);
    }

    ghost predicate ToCascade(c: (int, nat))
      requires -1 <= c.0 < 4 && c.1 < 64
      reads this
    {
      if c.0 < 0 then Consistent() else Cascading(c.0, c.1)
    }

    /** `++T->time` */
    method Advance()
      requires Valid()
      modifies this`time, this`now
      ensures now == old(now) + 1 && time == now % WRAP && ToCascade(Cascade(time))
    {
      CascadeWraps(now + 1);
      AdvanceHolds(Content(), now, pending);
      ModAdd(now, 1);
      time := (time + 1) % WRAP;
      now := now + 1;
    }

    /** Other threads' `timer_add` calls. */
    method AddAll(arrivals: seq<Request>)
      requires Valid() && Proper(arrivals)
      modifies this`near, this`t, this`pending
      ensures Valid() && pending == InsertAll(old(pending), now, arrivals)
    {
      for k := 0 to |arrivals|
        invariant Valid() && pending == InsertAll(old(pending), now, arrivals[..k])
      {
        assert arrivals[..k + 1][..k] == arrivals[..k];
        Add(arrivals[k].event, arrivals[k].delay);
      }
      assert arrivals[..|arrivals|] == arrivals;
    }

    /** `link_clear` of the current slot */
    method TakeSlot() returns (list: seq<Node>)
      requires Consistent()
      modifies this`near, this`pending
      ensures Valid() && pending == old(pending) - {now}
      ensures Events(list) == Lookup(old(pending), now) && list == old(At(Content(), SlotsAt(now)(now)))
    {
      var idx := time % TIME_NEAR;
      NearIsNow(now);
      NearWraps(now);
      CurrentSlot(Content(), SlotsAt(now), now, now + MAX_DELAY, pending);
      list := near[idx];
      near := near[idx := []];
      pending := pending - {now};
    }

    /** While `timer_execute` dispatches: nothing has happened yet, or the events due now are out and the waiting
        threads have added `arrivals`. */
    ghost predicate Dispatching(out: seq<Event>, was: Table, arrivals: seq<Request>)
      reads this
    {
      && Consistent() && near[time % TIME_NEAR] == At(Content(), SlotsAt(now)(now))
      && |near[time % TIME_NEAR]| == |Lookup(pending, now)|
      && if out == [] then pending == was
         else Valid() && out == Lookup(was, now) && pending == InsertAll(was - {now}, now, arrivals)
    }

    /** One list taken and dispatched. */
    method Dispatch(arrivals: seq<Request>, ghost was: Table, out: seq<Event>) returns (more: seq<Event>)
      requires Dispatching(out, was, arrivals) && Proper(arrivals) && near[time % TIME_NEAR] != []
      modifies this`near, this`t, this`pending
      ensures Dispatching(more, was, arrivals) && |near[time % TIME_NEAR]| < |old(near[time % TIME_NEAR])|
    {
      var current := TakeSlot();
      AddAll(arrivals);
      SlotNow();
      more := out + Events(current);
    }

    /** `timer_execute`: takes and dispatches the list of the current slot.  While it
        dispatches, the lock is free and waiting threads add `arrivals`. */
    method Execute(arrivals: seq<Request>) returns (out: seq<Event>)
      requires Consistent() && Proper(arrivals)
      modifies this`near, this`t, this`pending
      ensures Valid() && out == Lookup(old(pending), now)
      ensures pending == InsertAll(old(pending) - {now}, now, if out == [] then [] else arrivals)
    {
      var idx := time % TIME_NEAR;
      out := [];
      SlotNow();
      while near[idx] != []
        invariant Dispatching(out, old(pending), arrivals)
        decreases |near[idx]|
      {
        out := Dispatch(arrivals, old(pending), out);
      }
      NothingNow(Content(), SlotsAt(now), now, now + MAX_DELAY, pending);
      pending := pending - {now};
    }

    /** `timer_update`.  Threads that call `timer_add` meanwhile get the lock while events
        are dispatched, or else at the end. */
    method Update(arrivals: seq<Request>) returns (out: seq<Event>)
      requires Valid() && Proper(arrivals)
      modifies this`near, this`t, this`time, this`now, this`pending
      ensures Valid() && now == old(now) + 1
      ensures out == Lookup(old(pending), now)
      ensures pending == InsertAll(old(pending) - {now}, now, arrivals)
    {
      var early := Execute(arrivals);
      assert early == [] && pending == old(pending) - {now} == old(pending);
      Shift();
      out := Execute(arrivals);
      if out == [] { AddAll(arrivals); }
    }

    /** `skynet_timeout`: a delay of zero or less is answered at once. */
    method Timeout(event: Event, delay: int) returns (direct: bool)
      requires Valid() && delay < MAX_DELAY
      modifies this`near, this`t, this`pending
      ensures Valid() && (direct <==> delay <= 0)
      ensures pending == if direct then old(pending) else Insert(old(pending), now + delay, event)
    {
      direct := delay <= 0;
      if !direct { Add(event, delay); }
    }

    /** Any run of a new timer: `fired[n]` is what update number `n + 1` dispatches. */
    method Drive(ops: seq<Op>) returns (fired: seq<seq<Event>>)
      requires now == 0 && pending == map[] && Valid() && Runnable(ops)
      modifies this
      ensures |fired| == Ticks(ops)
      ensures forall n :: 0 <= n < |fired| ==> fired[n] == Due(Calls(ops), n + 1)
    {
      fired := [];
      ghost var calls := [];
      for k := 0 to |ops|
        invariant Valid() && now == Ticks(ops[..k]) && calls == Calls(ops[..k])
        invariant Recorded(pending, now, calls, fired)
      {
        RunNext(ops, k);
        fired := Apply(ops[k], fired, calls);
        calls := calls + CallsOf(now, ops[k]);
      }
      assert ops[..|ops|] == ops;
    }

    /** One step of a run. */
    method Apply(op: Op, fired: seq<seq<Event>>, ghost calls: seq<Call>) returns (fired': seq<seq<Event>>)
      requires Valid() && Recorded(pending, now, calls, fired) && Runnable([op])
      modifies this
      ensures Valid() && now == old(now) + (if op.Tick? then 1 else 0)
      ensures Recorded(pending, now, calls + CallsOf(now, op), fired')
    {
      fired' := fired;
      assert [op][0] == op;
      match op {
        case Timeout(event, delay) =>
          TimeoutRecorded(pending, now, calls, event, delay, fired);
          var _ := Timeout(event, delay);
        case Tick(arrivals) =>
          TickRecorded(pending, now, now + 1, calls, arrivals, fired);
          var out := Update(arrivals);
          fired' := fired + [out];
      }
    }

    /** The current slot is where the events due now are. */
    lemma SlotNow()
      requires Consistent()
      ensures near[time % TIME_NEAR] == At(Content(), SlotsAt(now)(now))
      ensures |near[time % TIME_NEAR]| == |Lookup(pending, now)|
    {
      NearIsNow(now);
      NearWraps(now);
      CurrentSlot(Content(), SlotsAt(now), now, now + MAX_DELAY, pending);
    }
  }

  /** Levels below `i` have a zero digit in `ct`. */
  ghost predicate NothingBelow(ct: nat, i: nat) {
    && (i >= 1 ==> ct % 256 == 0 && ct / 256 % 64 == 0)
    && (i >= 2 ==> ct / 16384 % 64 == 0)
    && (i >= 3 ==> ct / 1048576 % 64 == 0)
  }

  /** The loop of `timer_shift` has passed `i` zero digits. */
  ghost predicate Carry(ct: nat, i: int, mask: int, tt: int, c: (int, nat)) {
    && 0 < ct < WRAP && 0 <= i <= 3 && mask == Span(i) && mask > 0 && tt >= 0 && tt == ct / mask
    && NothingBelow(ct, i) && c == Cascade(ct)
  }

  lemma CarryStep(ct: nat, i: int, mask: int, tt: int, c: (int, nat))
    requires Carry(ct, i, mask, tt, c) && ct % mask == 0
    ensures tt % TIME_LEVEL != 0 ==> c == (i, tt % TIME_LEVEL)
    ensures tt % TIME_LEVEL == 0 ==> Carry(ct, i + 1, mask * TIME_LEVEL, tt / TIME_LEVEL, c)
  {
    DigitsExact(ct);
    Nested(ct);
  }

  lemma CarryStops(ct: nat, i: int, mask: int, tt: int, c: (int, nat))
    requires Carry(ct, i, mask, tt, c) && ct % mask != 0
    ensures c.0 < 0
  {
    DigitsExact(ct);
  }

  lemma CascadeWraps(now: nat)
    ensures Cascade(now % WRAP) == Cascade(now)
  {
    DigitsWrap(now);
    Mod64(now / 67108864);
  }

  lemma Mod64(x: nat)
    ensures x % 64 % 64 == x % 64
  {
  }

  lemma ModAdd(x: nat, y: nat)
    ensures (y + x % WRAP) % WRAP == (x + y) % WRAP
    ensures (x % WRAP + y) % WRAP == (x + y) % WRAP
  {
  }

  lemma NearWraps(now: nat)
    ensures now % WRAP % 256 == now % 256
  {
    DigitsWrap(now);
  }
}
