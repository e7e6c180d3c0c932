/** Hash tables with coalesced chains, map.c of pbc: all entries live in one array of slots, and a slot
    names the next slot of its chain.  A chain may pass through the home slots of other keys.

    The invariant is first order: every used slot has the chain it belongs to (named by the chain's first
    slot) and a rank in it, and `next` is the successor by rank.  Splicing takes a rank in between. */
module ChainTable {

  datatype Option<T> = None | Some(value: T)

  datatype Slot<K, V> = Slot(key: Option<K>, hash: nat, value: V, next: nat)

  predicate Used<K, V>(s: Slot<K, V>) { s.key.Some? }

  /** The slot where the search for a key begins. */
  function Home(hash: nat, n: nat): (h: nat)
    requires n > 0
    ensures h < n
  {
    hash % n
  }

  datatype Shape<!K> = Shape(chain: seq<int>, rank: seq<real>, place: map<K, int>)

  ghost predicate Fits<K, V>(t: seq<Slot<K, V>>, g: Shape<K>) { |g.chain| == |g.rank| == |t| }

  ghost predicate At<K, V>(t: seq<Slot<K, V>>, i: int) { 0 <= i < |t| && Used(t[i]) }

  /** An unused slot has no successor, a used one leads on in its own chain. */
  ghost predicate LinkOk<K, V>(t: seq<Slot<K, V>>, g: Shape<K>, i: int)
    requires Fits(t, g) && 0 <= i < |t|
  {
    if !Used(t[i]) then t[i].next == 0
    else
      && At(t, g.chain[i])
      && (t[i].next > 0 ==>
            var n := t[i].next - 1;
            At(t, n) && g.chain[n] == g.chain[i] && g.rank[i] < g.rank[n])
  }

  ghost predicate SameChain<K, V>(t: seq<Slot<K, V>>, g: Shape<K>, i: int, j: int)
    requires Fits(t, g)
  {
    At(t, i) && At(t, j) && g.chain[i] == g.chain[j]
  }

  /** Nothing of the chain lies between a slot and its successor, and ranks tell slots apart. */
  ghost predicate OrderOk<K, V>(t: seq<Slot<K, V>>, g: Shape<K>, i: int, j: int)
    requires Fits(t, g)
  {
    SameChain(t, g, i, j) ==>
      && (g.rank[i] < g.rank[j] ==> 0 < t[i].next <= |t| && g.rank[t[i].next - 1] <= g.rank[j])
      && (g.rank[i] == g.rank[j] ==> i == j)
  }

  /** A key lies in the chain through its home slot, at that slot or after it. */
  ghost predicate HomeOk<K, V>(t: seq<Slot<K, V>>, g: Shape<K>, hash: K -> nat, i: int)
    requires Fits(t, g)
  {
    At(t, i) ==>
      && t[i].hash == hash(t[i].key.value)
      && SameChain(t, g, Home(t[i].hash, |t|), i)
      && g.rank[Home(t[i].hash, |t|)] <= g.rank[i]
  }

  ghost predicate Links<K, V>(t: seq<Slot<K, V>>, g: Shape<K>)
    requires Fits(t, g)
  {
    forall i :: 0 <= i < |t| ==> LinkOk(t, g, i)
  }

  ghost predicate Ordered<K, V>(t: seq<Slot<K, V>>, g: Shape<K>)
    requires Fits(t, g)
  {
    forall i, j :: OrderOk(t, g, i, j)
  }

  ghost predicate Homed<K, V>(t: seq<Slot<K, V>>, g: Shape<K>, hash: K -> nat)
    requires Fits(t, g)
  {
    forall i :: HomeOk(t, g, hash, i)
  }

  /** `place` is where the keys are. */
  ghost predicate Placed<K, V>(t: seq<Slot<K, V>>, g: Shape<K>) {
    && (forall k :: k in g.place ==> 0 <= g.place[k] < |t| && t[g.place[k]].key == Some(k))
    && (forall i :: 0 <= i < |t| && Used(t[i]) ==> t[i].key.value in g.place && g.place[t[i].key.value] == i)
  }

  ghost predicate Valid<K, V>(t: seq<Slot<K, V>>, g: Shape<K>, hash: K -> nat) {
    Fits(t, g) && Links(t, g) && Ordered(t, g) && Homed(t, g, hash) && Placed(t, g)
  }

  /** The finite map that a table stands for. */
  ghost function Contents<K, V>(t: seq<Slot<K, V>>, g: Shape<K>): map<K, V>
    requires Placed(t, g)
  {
    map k | k in g.place :: t[g.place[k]].value
  }

  // ---------- a new key ----------

  /** In its unused home slot. */
  function Filled<K, V>(t: seq<Slot<K, V>>, e: nat, key: K, hash: nat, v: V): seq<Slot<K, V>>
    requires e < |t|
  {
    t[e := t[e].(key := Some(key), hash := hash, value := v)]
  }

  /** In the unused slot `e`, spliced into a chain behind `p`. */
  function Spliced<K, V>(t: seq<Slot<K, V>>, p: nat, e: nat, key: K, hash: nat, v: V): seq<Slot<K, V>>
    requires p < |t| && e < |t|
  {
    t[e := Slot(Some(key), hash, v, t[p].next)][p := t[p].(next := e + 1)]
  }

  ghost function FilledShape<K>(g: Shape<K>, e: nat, key: K): Shape<K>
    requires e < |g.chain| == |g.rank|
  {
    Shape(g.chain[e := e], g.rank[e := 0.0], g.place[key := e])
  }

  /** A rank behind `p` and before `p`'s successor. */
  ghost function Between<K, V>(t: seq<Slot<K, V>>, g: Shape<K>, p: nat): real
    requires Fits(t, g) && p < |t|
  {
    if 0 < t[p].next <= |t| then (g.rank[p] + g.rank[t[p].next - 1]) / 2.0 else g.rank[p] + 1.0
  }

  ghost function SplicedShape<K, V>(t: seq<Slot<K, V>>, g: Shape<K>, p: nat, e: nat, key: K): Shape<K>
    requires Fits(t, g) && p < |t| && e < |t|
  {
    Shape(g.chain[e := g.chain[p]], g.rank[e := Between(t, g, p)], g.place[key := e])
  }

  ghost predicate CanFill<K, V>(t: seq<Slot<K, V>>, g: Shape<K>, hash: K -> nat, e: nat, key: K) {
    Valid(t, g, hash) && e < |t| && !Used(t[e]) && key !in g.place && Home(hash(key), |t|) == e
  }

  ghost predicate CanSplice<K, V>(t: seq<Slot<K, V>>, g: Shape<K>, hash: K -> nat, p: nat, e: nat, key: K) {
    && Valid(t, g, hash) && p < |t| && e < |t| && !Used(t[e]) && key !in g.place
    && SameChain(t, g, Home(hash(key), |t|), p) && g.rank[Home(hash(key), |t|)] <= g.rank[p]
  }

  lemma FillLinks<K, V>(t: seq<Slot<K, V>>, g: Shape<K>, hash: K -> nat, e: nat, key: K, v: V)
    requires CanFill(t, g, hash, e, key)
    ensures Links(Filled(t, e, key, hash(key), v), FilledShape(g, e, key))
  {
    var t', g' := Filled(t, e, key, hash(key), v), FilledShape(g, e, key);
    forall i | 0 <= i < |t'| ensures LinkOk(t', g', i) { assert LinkOk(t, g, i); }
  }

  lemma FillOrdered<K, V>(t: seq<Slot<K, V>>, g: Shape<K>, hash: K -> nat, e: nat, key: K, v: V)
    requires CanFill(t, g, hash, e, key)
    ensures Ordered(Filled(t, e, key, hash(key), v), FilledShape(g, e, key))
  {
    var t', g' := Filled(t, e, key, hash(key), v), FilledShape(g, e, key);
    forall i, j ensures OrderOk(t', g', i, j) {
      assert OrderOk(t, g, i, j);
      if 0 <= i < |t| { assert LinkOk(t, g, i); }
      if 0 <= j < |t| { assert LinkOk(t, g, j); }
    }
  }

  lemma FillHomed<K, V>(t: seq<Slot<K, V>>, g: Shape<K>, hash: K -> nat, e: nat, key: K, v: V)
    requires CanFill(t, g, hash, e, key)
    ensures Homed(Filled(t, e, key, hash(key), v), FilledShape(g, e, key), hash)
  {
    var t', g' := Filled(t, e, key, hash(key), v), FilledShape(g, e, key);
    forall i ensures HomeOk(t', g', hash, i) { assert HomeOk(t, g, hash, i); }
  }

  lemma FillValid<K, V>(t: seq<Slot<K, V>>, g: Shape<K>, hash: K -> nat, e: nat, key: K, v: V)
    requires CanFill(t, g, hash, e, key)
    ensures Valid(Filled(t, e, key, hash(key), v), FilledShape(g, e, key), hash)
    ensures Contents(Filled(t, e, key, hash(key), v), FilledShape(g, e, key)) == Contents(t, g)[key := v]
  {
    FillLinks(t, g, hash, e, key, v);
    FillOrdered(t, g, hash, e, key, v);
    FillHomed(t, g, hash, e, key, v);
  }

  lemma SpliceLinks<K, V>(t: seq<Slot<K, V>>, g: Shape<K>, hash: K -> nat, p: nat, e: nat, key: K, v: V)
    requires CanSplice(t, g, hash, p, e, key)
    ensures Links(Spliced(t, p, e, key, hash(key), v), SplicedShape(t, g, p, e, key))
  {
    var t', g' := Spliced(t, p, e, key, hash(key), v), SplicedShape(t, g, p, e, key);
    assert LinkOk(t, g, p);
    forall i | 0 <= i < |t'| ensures LinkOk(t', g', i) { assert LinkOk(t, g, i); }
  }

  lemma SpliceOrdered<K, V>(t: seq<Slot<K, V>>, g: Shape<K>, hash: K -> nat, p: nat, e: nat, key: K, v: V)
    requires CanSplice(t, g, hash, p, e, key)
    ensures Ordered(Spliced(t, p, e, key, hash(key), v), SplicedShape(t, g, p, e, key))
  {
    var t', g' := Spliced(t, p, e, key, hash(key), v), SplicedShape(t, g, p, e, key);
    assert LinkOk(t, g, p);
    forall i, j ensures OrderOk(t', g', i, j) {
      assert OrderOk(t, g, i, j) && OrderOk(t, g, p, j) && OrderOk(t, g, i, p) && OrderOk(t, g, p, i);
      if 0 <= i < |t| { assert LinkOk(t, g, i); }
    }
  }

  lemma SpliceHomed<K, V>(t: seq<Slot<K, V>>, g: Shape<K>, hash: K -> nat, p: nat, e: nat, key: K, v: V)
    requires CanSplice(t, g, hash, p, e, key)
    ensures Homed(Spliced(t, p, e, key, hash(key), v), SplicedShape(t, g, p, e, key), hash)
  {
    var t', g' := Spliced(t, p, e, key, hash(key), v), SplicedShape(t, g, p, e, key);
    assert LinkOk(t, g, p);
    forall i ensures HomeOk(t', g', hash, i) { assert HomeOk(t, g, hash, i); }
  }

  /** Behind a slot of its home's chain a new key can be found, and so can all the others. */
  lemma SpliceValid<K, V>(t: seq<Slot<K, V>>, g: Shape<K>, hash: K -> nat, p: nat, e: nat, key: K, v: V)
    requires CanSplice(t, g, hash, p, e, key)
    ensures Valid(Spliced(t, p, e, key, hash(key), v), SplicedShape(t, g, p, e, key), hash)
    ensures Contents(Spliced(t, p, e, key, hash(key), v), SplicedShape(t, g, p, e, key)) == Contents(t, g)[key := v]
  {
    SpliceLinks(t, g, hash, p, e, key, v);
    SpliceOrdered(t, g, hash, p, e, key, v);
    SpliceHomed(t, g, hash, p, e, key, v);
  }

  // ---------- a new value ----------

  function Written<K, V>(t: seq<Slot<K, V>>, i: nat, v: V): seq<Slot<K, V>>
    requires i < |t|
  {
    t[i := t[i].(value := v)]
  }

  lemma WriteValid<K, V>(t: seq<Slot<K, V>>, g: Shape<K>, hash: K -> nat, i: nat, v: V)
    requires Valid(t, g, hash) && At(t, i)
    ensures Valid(Written(t, i, v), g, hash)
    ensures Contents(Written(t, i, v), g) == Contents(t, g)[t[i].key.value := v]
  {
    var t' := Written(t, i, v);
    forall j | 0 <= j < |t'| ensures LinkOk(t', g, j) { assert LinkOk(t, g, j); }
    forall j, h ensures OrderOk(t', g, j, h) { assert OrderOk(t, g, j, h); }
    forall j ensures HomeOk(t', g, hash, j) { assert HomeOk(t, g, hash, j); }
  }

  // ---------- following a chain ----------

  /** The slot after `n` steps along `next` from slot `i`; -1 past the end. */
  ghost function Follow<K, V>(t: seq<Slot<K, V>>, i: int, n: nat): int
    decreases n
  {
    if n == 0 || !(0 <= i < |t|) then i
    else Follow(t, t[i].next - 1, n - 1)
  }

  /** The slots of higher rank: what a search may still see. */
  ghost function Ahead<K, V>(t: seq<Slot<K, V>>, g: Shape<K>, i: int): set<int>
    requires Fits(t, g) && At(t, i)
  {
    set j | 0 <= j < |t| && g.rank[j] > g.rank[i]
  }

  /** One step forward leaves fewer slots ahead. */
  lemma StepAhead<K, V>(t: seq<Slot<K, V>>, g: Shape<K>, hash: K -> nat, i: int)
    requires Valid(t, g, hash) && At(t, i) && t[i].next > 0
    ensures At(t, t[i].next - 1) && g.rank[i] < g.rank[t[i].next - 1] && g.chain[i] == g.chain[t[i].next - 1]
    ensures |Ahead(t, g, t[i].next - 1)| < |Ahead(t, g, i)|
  {
    assert LinkOk(t, g, i);
    var n := t[i].next - 1;
    assert n in Ahead(t, g, i) - Ahead(t, g, n);
    Smaller(Ahead(t, g, n), Ahead(t, g, i), n);
  }

  lemma Smaller(a: set<int>, b: set<int>, x: int)
    requires a <= b && x in b && x !in a
    ensures |a| < |b|
  {
    assert |b - a| + |a| == |b|;
  }

  ghost function Numbers(n: nat): (r: set<int>)
    ensures forall x :: x in r <==> 0 <= x < n
    ensures |r| == n
  {
    if n == 0 then {} else Numbers(n - 1) + {n - 1}
  }

  lemma InRange(a: set<int>, n: nat)
    requires forall x :: x in a ==> 0 <= x < n
    ensures |a| <= n
    ensures |a| == n ==> forall x :: 0 <= x < n ==> x in a
  {
    var all := Numbers(n);
    assert |all - a| + |a| == |all|;
    forall x | |a| == n && 0 <= x < n ensures x in a { assert x in all && x !in all - a; }
  }

  /** A search that has not reached its key goes on, and not past it. */
  lemma Onward<K, V>(t: seq<Slot<K, V>>, g: Shape<K>, hash: K -> nat, i: int, j: int)
    requires Valid(t, g, hash) && SameChain(t, g, i, j) && g.rank[i] <= g.rank[j] && i != j
    ensures 0 < t[i].next <= |t| && SameChain(t, g, t[i].next - 1, j) && g.rank[t[i].next - 1] <= g.rank[j]
  {
    assert OrderOk(t, g, i, j) && LinkOk(t, g, i);
  }

  lemma AtHome<K, V>(t: seq<Slot<K, V>>, g: Shape<K>, hash: K -> nat, key: K)
    requires Valid(t, g, hash) && key in g.place
    ensures SameChain(t, g, Home(hash(key), |t|), g.place[key])
    ensures g.rank[Home(hash(key), |t|)] <= g.rank[g.place[key]]
    ensures t[g.place[key]].hash == hash(key)
  {
    assert HomeOk(t, g, hash, g.place[key]);
  }

  /** Along a chain the rank rises, so no slot comes back. */
  lemma {:induction false} Acyclic<K, V>(t: seq<Slot<K, V>>, g: Shape<K>, hash: K -> nat, i: int, n: nat)
    requires Valid(t, g, hash) && At(t, i) && n > 0
    ensures Follow(t, i, n) >= 0 ==> At(t, Follow(t, i, n)) && g.rank[Follow(t, i, n)] > g.rank[i]
    ensures Follow(t, i, n) != i
    decreases n
  {
    if t[i].next > 0 {
      StepAhead(t, g, hash, i);
      if n > 1 { Acyclic(t, g, hash, t[i].next - 1, n - 1); }
    }
  }

  /** Every chain ends within as many steps as there are slots. */
  lemma {:induction false} Ends<K, V>(t: seq<Slot<K, V>>, g: Shape<K>, hash: K -> nat, i: int, n: nat)
    requires Valid(t, g, hash) && At(t, i) && n > |Ahead(t, g, i)|
    ensures Follow(t, i, n) == -1
    decreases n
  {
    if t[i].next > 0 {
      StepAhead(t, g, hash, i);
      Ends(t, g, hash, t[i].next - 1, n - 1);
    }
  }

  lemma {:induction false} ReachedFrom<K, V>(t: seq<Slot<K, V>>, g: Shape<K>, hash: K -> nat, i: int, j: int)
      returns (n: nat)
    requires Valid(t, g, hash) && SameChain(t, g, i, j) && g.rank[i] <= g.rank[j]
    ensures n <= |Ahead(t, g, i)| && Follow(t, i, n) == j
    decreases |Ahead(t, g, i)|
  {
    if i == j {
      n := 0;
    } else {
      Onward(t, g, hash, i, j);
      StepAhead(t, g, hash, i);
      n := ReachedFrom(t, g, hash, t[i].next - 1, j);
      n := n + 1;
    }
  }

  /** Every key of the map is reached from its home slot, and no slot is met twice on the way. */
  lemma Reachable<K, V>(t: seq<Slot<K, V>>, g: Shape<K>, hash: K -> nat, key: K)
    requires Valid(t, g, hash) && key in Contents(t, g)
    ensures exists n: nat :: n < |t| && Follow(t, Home(hash(key), |t|), n) == g.place[key]
    ensures t[g.place[key]].key == Some(key) && t[g.place[key]].value == Contents(t, g)[key]
    ensures Follow(t, Home(hash(key), |t|), |t|) == -1
  {
    AtHome(t, g, hash, key);
    var h := Home(hash(key), |t|);
    var n := ReachedFrom(t, g, hash, h, g.place[key]);
    InRange(Ahead(t, g, h), |t|);
    assert h !in Ahead(t, g, h);
    Ends(t, g, hash, h, |t|);
  }

  /** The search of all the queries: along the chain from `at`, a used slot where the key may still come. */
  method Search<K(==), V>(slot: array<Slot<K, V>>, key: K, full: nat, start: nat, ghost g: Shape<K>, ghost hash: K -> nat)
    returns (found: bool, at: nat)
    requires Valid(slot[..], g, hash) && full == hash(key)
    requires slot.Length > 0 && start == Home(full, slot.Length) && Used(slot[start])
    ensures found <==> key in g.place
    ensures found ==> at == g.place[key]
    ensures SameChain(slot[..], g, start, at) && g.rank[start] <= g.rank[at]
    ensures !found ==> slot[at].next == 0
  {
    ghost var t := slot[..];
    if key in g.place { AtHome(t, g, hash, key); }
    at := start;
    while true
      invariant at < slot.Length && SameChain(t, g, start, at) && g.rank[start] <= g.rank[at]
      invariant key in g.place ==> SameChain(t, g, at, g.place[key]) && g.rank[at] <= g.rank[g.place[key]]
      decreases |Ahead(t, g, at)|
    {
      if slot[at].hash == full && slot[at].key == Some(key) { return true, at; }
      if key in g.place { Onward(t, g, hash, at, g.place[key]); }
      if slot[at].next == 0 { return false, at; }
      StepAhead(t, g, hash, at);
      at := slot[at].next - 1;
    }
  }

  // ---------- writing the slots ----------

  method FillSlot<K, V>(slot: array<Slot<K, V>>, e: nat, key: K, full: nat, value: V)
    requires e < slot.Length
    modifies slot
    ensures slot[..] == Filled(old(slot[..]), e, key, full, value)
  {
    slot[e] := slot[e].(key := Some(key), hash := full, value := value);
  }

  method SpliceSlot<K, V>(slot: array<Slot<K, V>>, p: nat, e: nat, key: K, full: nat, value: V)
    requires p < slot.Length && e < slot.Length && p != e
    modifies slot
    ensures slot[..] == Spliced(old(slot[..]), p, e, key, full, value)
  {
    slot[e] := Slot(Some(key), full, value, slot[p].next);
    slot[p] := slot[p].(next := e + 1);
  }

  // ---------- counting the used slots ----------

  ghost function Usage<K, V>(t: seq<Slot<K, V>>): set<int> { set i | 0 <= i < |t| && Used(t[i]) }

  lemma Room<K, V>(t: seq<Slot<K, V>>)
    ensures |Usage(t)| <= |t|
    ensures |Usage(t)| < |t| ==> exists i :: 0 <= i < |t| && !Used(t[i])
    ensures |Usage(t)| == |t| ==> forall i :: 0 <= i < |t| ==> Used(t[i])
  {
    InRange(Usage(t), |t|);
    if forall i :: 0 <= i < |t| ==> Used(t[i]) {
      assert Usage(t) == Numbers(|t|);
    }
    forall i | |Usage(t)| == |t| && 0 <= i < |t| ensures Used(t[i]) { assert i in Usage(t); }
  }

  lemma OneMore<K, V>(t: seq<Slot<K, V>>, t': seq<Slot<K, V>>, e: nat)
    requires |t'| == |t| && e < |t| && !Used(t[e]) && Used(t'[e])
    requires forall i :: 0 <= i < |t| && i != e ==> t'[i].key == t[i].key
    ensures |Usage(t')| == |Usage(t)| + 1
  {
    assert Usage(t') == Usage(t) + {e};
  }

  // ---------- an empty table ----------

  function Nothing<K, V>(v: V): Slot<K, V> { Slot(None, 0, v, 0) }

  function Fresh<K>(n: nat): Shape<K> { Shape(seq(n, _ => 0), seq(n, _ => 0.0), map[]) }

  lemma FreshValid<K, V>(t: seq<Slot<K, V>>, v: V, hash: K -> nat)
    requires forall i :: 0 <= i < |t| ==> t[i] == Nothing(v)
    ensures Valid(t, Fresh(|t|), hash) && Contents(t, Fresh(|t|)) == map[] && |Usage(t)| == 0
  {
    var g := Fresh<K>(|t|);
    forall i | 0 <= i < |t| ensures LinkOk(t, g, i) { assert t[i] == Nothing(v); }
    assert Usage(t) == {};
  }

  // ---------- copying slot by slot ----------

  /** The entries of the first `n` slots. */
  ghost function Front<K, V>(t: seq<Slot<K, V>>, g: Shape<K>, n: nat): map<K, V>
    requires Placed(t, g)
  {
    map k | k in g.place && g.place[k] < n :: t[g.place[k]].value
  }

  lemma FrontStep<K, V>(t: seq<Slot<K, V>>, g: Shape<K>, n: nat)
    requires Placed(t, g) && n < |t| && Used(t[n])
    ensures t[n].key.value !in Front(t, g, n)
    ensures Front(t, g, n + 1) == Front(t, g, n)[t[n].key.value := t[n].value]
  {
  }

  lemma FrontEnds<K, V>(t: seq<Slot<K, V>>, g: Shape<K>)
    requires Placed(t, g)
    ensures Front(t, g, 0) == map[] && Front(t, g, |t|) == Contents(t, g)
  {
  }

  // ---------- tables given row by row ----------

  /** `map_kv` */
  datatype Row<K, V> = Row(key: K, value: V)

  ghost predicate Distinct<K, V>(rows: seq<Row<K, V>>) {
    forall i, j :: 0 <= i < |rows| && 0 <= j < |rows| && rows[i].key == rows[j].key ==> i == j
  }

  /** The map that the first `n` rows give. */
  ghost function RowsTo<K, V>(rows: seq<Row<K, V>>, n: nat): map<K, V>
    requires Distinct(rows) && n <= |rows|
  {
    map i | 0 <= i < n :: rows[i].key := rows[i].value
  }

  ghost function Rows<K, V>(rows: seq<Row<K, V>>): map<K, V>
    requires Distinct(rows)
  {
    RowsTo(rows, |rows|)
  }

  lemma RowsStep<K, V>(rows: seq<Row<K, V>>, n: nat)
    requires Distinct(rows) && n < |rows|
    ensures rows[n].key !in RowsTo(rows, n)
    ensures RowsTo(rows, n + 1) == RowsTo(rows, n)[rows[n].key := rows[n].value]
  {
    var m := RowsTo(rows, n);
    assert forall k :: k in m <==> exists i :: 0 <= i < n && rows[i].key == k;
  }

  // ---------- the table and its invariant together ----------

  method PutHome<K, V>(slot: array<Slot<K, V>>, e: nat, key: K, full: nat, v: V, ghost g: Shape<K>, ghost hash: K -> nat)
    returns (ghost g': Shape<K>)
    requires CanFill(slot[..], g, hash, e, key) && full == hash(key)
    modifies slot
    ensures slot[..] == Filled(old(slot[..]), e, key, full, v) && Valid(slot[..], g', hash)
    ensures Contents(slot[..], g') == Contents(old(slot[..]), g)[key := v]
    ensures |Usage(slot[..])| == |Usage(old(slot[..]))| + 1
  {
    ghost var t := slot[..];
    FillValid(t, g, hash, e, key, v);
    FillSlot(slot, e, key, full, v);
    g' := FilledShape(g, e, key);
    OneMore(t, slot[..], e);
  }

  method PutBehind<K, V>(slot: array<Slot<K, V>>, p: nat, e: nat, key: K, full: nat, v: V,
                         ghost g: Shape<K>, ghost hash: K -> nat)
    returns (ghost g': Shape<K>)
    requires CanSplice(slot[..], g, hash, p, e, key) && full == hash(key)
    modifies slot
    ensures slot[..] == Spliced(old(slot[..]), p, e, key, full, v) && Valid(slot[..], g', hash)
    ensures Contents(slot[..], g') == Contents(old(slot[..]), g)[key := v]
    ensures |Usage(slot[..])| == |Usage(old(slot[..]))| + 1
  {
    ghost var t := slot[..];
    SpliceValid(t, g, hash, p, e, key, v);
    SpliceSlot(slot, p, e, key, full, v);
    g' := SplicedShape(t, g, p, e, key);
    OneMore(t, slot[..], e);
  }
}
