/** The fixed table from numbers to pointers, `map_ip` of map.c.  If the numbers are small it is a plain
    array, otherwise a table of coalesced chains with as many slots as rows; both answer alike. */
module MapIp {
  import opened ChainTable
  import opened MapSi

  /** `int` */
  type Id = x: int | -0x8000_0000 <= x < 0x8000_0000

  function Unsigned(id: Id): nat { if id >= 0 then id else id + 0x1_0000_0000 }

  /** A slot is unused while its pointer is null. */
  datatype IpSlot<V> = IpSlot(id: Id, pointer: Option<V>, next: nat)

  function AsSlot<V>(s: IpSlot<V>): Slot<Id, Option<V>> {
    Slot(if s.pointer.Some? then Some(s.id) else None, Unsigned(s.id), s.pointer, s.next)
  }

  ghost function View<V>(t: seq<IpSlot<V>>): (r: seq<Slot<Id, Option<V>>>)
    ensures |r| == |t|
  {
    seq(|t|, i requires 0 <= i < |t| => AsSlot(t[i]))
  }

  ghost predicate NonNull<V>(rows: seq<Row<Id, Option<V>>>) {
    forall i :: 0 <= i < |rows| ==> rows[i].value.Some?
  }

  ghost predicate Chained<V>(t: seq<IpSlot<V>>, g: Shape<Id>, m: map<Id, Option<V>>) {
    Valid(View(t), g, Unsigned) && Contents(View(t), g) == m && |Usage(View(t))| == |m|
  }

  /** The array form: position `id` holds the pointer of `id`, or null. */
  ghost predicate Direct<V>(cells: seq<Option<V>>, m: map<Id, Option<V>>) {
    && (forall id: Id :: id in m ==> 0 <= id < |cells| && m[id] == cells[id])
    && (forall i :: 0 <= i < |cells| && cells[i].Some? ==> i < 0x8000_0000 && i in m)
  }

  // ---------- the chained form ----------

  method PutAtHome<V>(slot: array<IpSlot<V>>, home: nat, id: Id, v: Option<V>, ghost g: Shape<Id>, ghost m: map<Id, Option<V>>)
    returns (ghost g': Shape<Id>)
    requires Chained(slot[..], g, m) && CanFill(View(slot[..]), g, Unsigned, home, id) && v.Some?
    modifies slot
    ensures Chained(slot[..], g', m[id := v])
    ensures View(slot[..]) == Filled(View(old(slot[..])), home, id, Unsigned(id), v)
  {
    ghost var t := View(slot[..]);
    FillValid(t, g, Unsigned, home, id, v);
    slot[home] := slot[home].(pointer := v, id := id);
    assert View(slot[..]) == Filled(t, home, id, Unsigned(id), v);
    g' := FilledShape(g, home, id);
    OneMore(t, View(slot[..]), home);
  }

  lemma ViewSpliced<V>(t: seq<IpSlot<V>>, home: nat, e: nat, id: Id, v: Option<V>)
    requires home < |t| && e < |t| && home != e && v.Some?
    ensures View(t[e := IpSlot(id, v, t[home].next)][home := t[home].(next := e + 1)])
         == Spliced(View(t), home, e, id, Unsigned(id), v)
  {
  }

  method WriteAfter<V>(slot: array<IpSlot<V>>, home: nat, e: nat, id: Id, v: Option<V>)
    requires home < slot.Length && e < slot.Length && home != e
    modifies slot
    ensures var t := old(slot[..]); slot[..] == t[e := IpSlot(id, v, t[home].next)][home := t[home].(next := e + 1)]
  {
    slot[e] := IpSlot(id, v, slot[home].next);
    slot[home] := slot[home].(next := e + 1);
  }

  method PutAfter<V>(slot: array<IpSlot<V>>, home: nat, e: nat, id: Id, v: Option<V>, ghost g: Shape<Id>,
                     ghost m: map<Id, Option<V>>)
    returns (ghost g': Shape<Id>)
    requires Chained(slot[..], g, m) && CanSplice(View(slot[..]), g, Unsigned, home, e, id) && v.Some?
    modifies slot
    ensures Chained(slot[..], g', m[id := v])
    ensures View(slot[..]) == Spliced(View(old(slot[..])), home, e, id, Unsigned(id), v)
  {
    ghost var t := View(slot[..]);
    SpliceValid(t, g, Unsigned, home, e, id, v);
    ViewSpliced(slot[..], home, e, id, v);
    WriteAfter(slot, home, e, id, v);
    g' := SplicedShape(t, g, home, e, id);
    OneMore(t, View(slot[..]), e);
  }

  method FirstUnused<V>(slot: array<IpSlot<V>>, empty: nat) returns (e: nat)
    requires UsedTo(View(slot[..]), empty) && |Usage(View(slot[..]))| < slot.Length
    ensures e < slot.Length && UsedTo(View(slot[..]), e) && !Used(View(slot[..])[e])
  {
    ghost var t := View(slot[..]);
    Room(t);
    ghost var some :| 0 <= some < |t| && !Used(t[some]);
    e := empty;
    while slot[e].pointer.Some?
      invariant e <= some && UsedTo(t, e)
      decreases some - e
    {
      e := e + 1;
    }
  }

  /** One row of `_pbcM_ip_new_hash` */
  method PutRow<V>(slot: array<IpSlot<V>>, id: Id, v: Option<V>, empty: nat, ghost g: Shape<Id>, ghost m: map<Id, Option<V>>)
    returns (e: nat, ghost g': Shape<Id>)
    requires Chained(slot[..], g, m) && |m| < slot.Length && id !in m && v.Some?
    requires UsedTo(View(slot[..]), empty)
    modifies slot
    ensures Chained(slot[..], g', m[id := v]) && UsedTo(View(slot[..]), e)
  {
    e := empty;
    var home := Home(Unsigned(id), slot.Length);
    if slot[home].pointer.None? {
      g' := PutAtHome(slot, home, id, v, g, m);
    } else {
      e := FirstUnused(slot, empty);
      g' := PutAfter(slot, home, e, id, v, g, m);
    }
  }

  lemma {:induction false} RowsCount<K, V>(rows: seq<Row<K, V>>, n: nat)
    requires Distinct(rows) && n <= |rows|
    ensures |RowsTo(rows, n)| == n
  {
    if n > 0 {
      RowsCount(rows, n - 1);
      RowsStep(rows, n - 1);
    }
  }

  /** `_pbcM_ip_new_hash` */
  method PutRows<V>(rows: seq<Row<Id, Option<V>>>) returns (slot: array<IpSlot<V>>, ghost g: Shape<Id>)
    requires Distinct(rows) && NonNull(rows)
    ensures fresh(slot) && slot.Length == |rows| && Chained(slot[..], g, Rows(rows))
  {
    slot := new IpSlot<V>[|rows|](_ => IpSlot(0, None, 0));
    g := Fresh(|rows|);
    FreshValid(View(slot[..]), None, Unsigned);
    var empty := 0;
    for i := 0 to |rows|
      invariant Chained(slot[..], g, RowsTo(rows, i)) && UsedTo(View(slot[..]), empty)
    {
      RowsCount(rows, i);
      RowsStep(rows, i);
      empty, g := PutRow(slot, rows[i].key, rows[i].value, empty, g, RowsTo(rows, i));
    }
  }

  /** The search of `_pbcM_ip_query` in a table with no slot left unused. */
  method SearchId<V>(slot: array<IpSlot<V>>, id: Id, ghost g: Shape<Id>, ghost m: map<Id, Option<V>>)
    returns (r: Option<V>)
    requires Chained(slot[..], g, m) && |m| == slot.Length > 0
    ensures r == if id in m then m[id] else None
  {
    ghost var t := View(slot[..]);
    Room(t);
    if id in m { AtHome(t, g, Unsigned, id); }
    var at := Home(Unsigned(id), slot.Length);
    while true
      invariant at < slot.Length && At(t, at)
      invariant id in m ==> SameChain(t, g, at, g.place[id]) && g.rank[at] <= g.rank[g.place[id]]
      decreases |Ahead(t, g, at)|
    {
      assert t[at] == AsSlot(slot[at]);
      if slot[at].id == id { return slot[at].pointer; }
      if id in m { Onward(t, g, Unsigned, at, g.place[id]); }
      if slot[at].next == 0 { return None; }
      StepAhead(t, g, Unsigned, at);
      at := slot[at].next - 1;
    }
  }

  // ---------- the array form ----------

  method PutDirect<V>(rows: seq<Row<Id, Option<V>>>, max: nat) returns (cells: array<Option<V>>)
    requires Distinct(rows) && NonNull(rows)
    requires forall i :: 0 <= i < |rows| ==> 0 <= rows[i].key <= max
    ensures fresh(cells) && cells.Length == max + 1 && Direct(cells[..], Rows(rows))
  {
    cells := new Option<V>[max + 1](_ => None);
    for i := 0 to |rows|
      invariant Direct(cells[..], RowsTo(rows, i))
    {
      RowsStep(rows, i);
      ghost var before := cells[..];
      cells[rows[i].key] := rows[i].value;
      DirectStep(before, RowsTo(rows, i), rows[i].key, rows[i].value);
      assert cells[..] == before[rows[i].key := rows[i].value];
    }
  }

  lemma DirectStep<V>(cells: seq<Option<V>>, m: map<Id, Option<V>>, id: Id, v: Option<V>)
    requires Direct(cells, m) && 0 <= id < |cells| && v.Some?
    ensures Direct(cells[id := v], m[id := v])
  {
  }

  // ---------- both ----------

  class Map<V> {
    var arraySize: nat
    var cells: array?<Option<V>>
    var hashSize: nat
    var slot: array?<IpSlot<V>>
    ghost var shape: Shape<Id>
    ghost var entries: map<Id, Option<V>>

    ghost predicate Sound()
      reads this, cells, slot
    {
      && |entries| == hashSize > 0
      && (forall id :: id in entries ==> entries[id].Some?)
      && (if cells != null then arraySize == cells.Length && Direct(cells[..], entries)
          else slot != null && slot.Length == hashSize && Chained(slot[..], shape, entries))
    }

    constructor (ghost m: map<Id, Option<V>>, n: nat, a: array?<Option<V>>, s: array?<IpSlot<V>>, ghost g: Shape<Id>)
      ensures entries == m && hashSize == n && cells == a && slot == s && shape == g
      ensures arraySize == if a == null then 0 else a.Length
    {
      entries, hashSize, cells, slot, shape := m, n, a, s, g;
      arraySize := if a == null then 0 else a.Length;
    }
  }

  /** The scan of `_pbcM_ip_new`: whether the numbers are few enough for an array, and the greatest. */
  method Largest<V>(rows: seq<Row<Id, Option<V>>>) returns (small: bool, max: int)
    requires |rows| > 0
    ensures small <==> forall i :: 0 <= i < |rows| ==> 0 <= rows[i].key <= 2 * |rows|
    ensures small ==> forall i :: 0 <= i < |rows| ==> rows[i].key <= max
    ensures small ==> exists i :: 0 <= i < |rows| && rows[i].key == max
  {
    max := rows[0].key;
    if max > |rows| * 2 || max < 0 { return false, max; }
    for i := 1 to |rows|
      invariant forall j :: 0 <= j < i ==> 0 <= rows[j].key <= max
      invariant max <= 2 * |rows| && exists j :: 0 <= j < i && rows[j].key == max
    {
      if rows[i].key < 0 { return false, max; }
      if rows[i].key > max {
        max := rows[i].key;
        if max > |rows| * 2 { return false, max; }
      }
    }
    small := true;
  }

  /** `_pbcM_ip_new` */
  method New<V>(rows: seq<Row<Id, Option<V>>>) returns (m: Map<V>)
    requires |rows| > 0 && Distinct(rows) && NonNull(rows)
    ensures fresh(m) && m.Sound() && m.entries == Rows(rows)
    ensures m.cells != null <==> forall i :: 0 <= i < |rows| ==> 0 <= rows[i].key <= 2 * |rows|
  {
    RowsCount(rows, |rows|);
    var small, max := Largest(rows);
    if small {
      var cells := PutDirect(rows, max);
      m := new Map(Rows(rows), |rows|, cells, null, Fresh(0));
    } else {
      var slot, g := PutRows(rows);
      m := new Map(Rows(rows), |rows|, null, slot, g);
    }
  }

  /** `_pbcM_ip_query`: the same answer from both forms. */
  method Query<V>(m: Map?<V>, id: Id) returns (r: Option<V>)
    requires m != null ==> m.Sound()
    ensures r == if m != null && id in m.entries then m.entries[id] else None
  {
    if m == null { return None; }
    if m.cells != null {
      if id >= 0 && id < m.arraySize { return m.cells[id]; }
      return None;
    }
    r := SearchId(m.slot, id, m.shape, m.entries);
  }

  // ---------- two tables in one ----------

  /** The rows are those of the map, each once. */
  ghost predicate Lists<V>(rows: seq<Row<Id, Option<V>>>, m: map<Id, Option<V>>) {
    && |rows| == |m|
    && (forall i :: 0 <= i < |rows| ==> rows[i].key in m && m[rows[i].key] == rows[i].value)
    && (forall i, j :: 0 <= i < j < |rows| ==> rows[i].key != rows[j].key)
  }

  lemma ListsSnoc<V>(rows: seq<Row<Id, Option<V>>>, m: map<Id, Option<V>>, row: Row<Id, Option<V>>)
    requires Lists(rows, m) && row.key !in m
    ensures Lists(rows + [row], m[row.key := row.value])
  {
  }

  lemma ListsBoth<V>(a: seq<Row<Id, Option<V>>>, b: seq<Row<Id, Option<V>>>, m: map<Id, Option<V>>, n: map<Id, Option<V>>)
    requires Lists(a, m) && Lists(b, n) && m.Keys !! n.Keys
    ensures Lists(a + b, m + n)
  {
    assert (m + n).Keys == m.Keys + n.Keys;
    assert |(m + n).Keys| == |m.Keys| + |n.Keys|;
  }

  lemma ListsRows<V>(rows: seq<Row<Id, Option<V>>>, m: map<Id, Option<V>>)
    requires Lists(rows, m)
    ensures Distinct(rows) && Rows(rows) == m
  {
    RowsCount(rows, |rows|);
    var r := Rows(rows);
    SameSize(r.Keys, m.Keys);
  }

  lemma SameSize<T>(a: set<T>, b: set<T>)
    requires a <= b && |a| == |b|
    ensures a == b
  {
    assert |b - a| + |a| == |b|;
    assert b - a == {};
  }

  /** The entries whose number is below `n`. */
  ghost function Below<V>(m: map<Id, Option<V>>, n: nat): map<Id, Option<V>> { map id | id in m && id < n :: m[id] }

  lemma BelowStep<V>(cells: seq<Option<V>>, m: map<Id, Option<V>>, n: nat)
    requires Direct(cells, m) && n < |cells| && forall id :: id in m ==> m[id].Some?
    ensures cells[n].None? ==> Below(m, n + 1) == Below(m, n)
    ensures cells[n].Some? ==> n < 0x8000_0000 && n !in Below(m, n) && Below(m, n + 1) == Below(m, n)[n := cells[n]]
    ensures cells[n].Some? ==> |Below(m, n)| < |m|
  {
    if cells[n].Some? {
      assert n in m.Keys && n !in Below(m, n).Keys;
      assert Below(m, n).Keys <= m.Keys - {n};
      Subset(Below(m, n).Keys, m.Keys - {n});
    }
  }

  lemma Subset<T>(a: set<T>, b: set<T>)
    requires a <= b
    ensures |a| <= |b|
  {
    assert |b - a| + |a| == |b|;
  }

  method WriteRow<V>(table: array<Row<Id, Option<V>>>, off: nat, n: nat, row: Row<Id, Option<V>>, ghost m: map<Id, Option<V>>)
    requires off + n < table.Length && Lists(table[off..off + n], m) && row.key !in m
    modifies table
    ensures Lists(table[off..off + n + 1], m[row.key := row.value])
    ensures table[..off] == old(table[..off])
  {
    ghost var front := table[off..off + n];
    ListsSnoc(front, m, row);
    table[off + n] := row;
    assert table[off..off + n + 1] == front + [row];
  }

  /** `_inject` of an array form. */
  method InjectDirect<V>(table: array<Row<Id, Option<V>>>, off: nat, cells: array<Option<V>>, ghost m: map<Id, Option<V>>)
    requires Direct(cells[..], m) && off + |m| <= table.Length && forall id :: id in m ==> m[id].Some?
    modifies table
    ensures Lists(table[off..off + |m|], m)
    ensures table[..off] == old(table[..off])
  {
    var n := 0;
    for i := 0 to cells.Length
      invariant n == |Below(m, i)| <= |m| && Lists(table[off..off + n], Below(m, i))
      invariant table[..off] == old(table[..off])
    {
      BelowStep(cells[..], m, i);
      if cells[i].Some? {
        WriteRow(table, off, n, Row(i, cells[i]), Below(m, i));
        n := n + 1;
      }
    }
    assert Below(m, cells.Length) == m;
  }

  /** `_inject` of a chained form. */
  method InjectSlots<V>(table: array<Row<Id, Option<V>>>, off: nat, slot: array<IpSlot<V>>, ghost g: Shape<Id>,
                        ghost m: map<Id, Option<V>>)
    requires Chained(slot[..], g, m) && |m| == slot.Length && off + |m| <= table.Length
    modifies table
    ensures Lists(table[off..off + |m|], m)
    ensures table[..off] == old(table[..off])
  {
    ghost var t := View(slot[..]);
    Room(t);
    FrontEnds(t, g);
    for i := 0 to slot.Length
      invariant Lists(table[off..off + i], Front(t, g, i))
      invariant table[..off] == old(table[..off])
    {
      FrontStep(t, g, i);
      assert t[i] == AsSlot(slot[i]);
      WriteRow(table, off, i, Row(slot[i].id, slot[i].pointer), Front(t, g, i));
      assert off + i + 1 == off + (i + 1);
    }
  }

  method Inject<V>(table: array<Row<Id, Option<V>>>, off: nat, a: Map<V>)
    requires a.Sound() && off + a.hashSize <= table.Length
    modifies table
    ensures Lists(table[off..off + a.hashSize], a.entries)
    ensures table[..off] == old(table[..off])
  {
    if a.cells != null {
      InjectDirect(table, off, a.cells, a.entries);
    } else {
      InjectSlots(table, off, a.slot, a.shape, a.entries);
    }
  }

  lemma ListsNonNull<V>(rows: seq<Row<Id, Option<V>>>, m: map<Id, Option<V>>)
    requires Lists(rows, m) && forall id :: id in m ==> m[id].Some?
    ensures NonNull(rows)
  {
  }

  lemma SecondPart<T>(s: seq<T>, n: nat)
    requires n <= |s|
    ensures s == s[..n] + s[n..]
  {
  }

  /** The rows of both maps. */
  method Gather<V>(a: Map<V>, b: Map<V>) returns (table: array<Row<Id, Option<V>>>)
    requires a.Sound() && b.Sound() && a.entries.Keys !! b.entries.Keys
    ensures fresh(table) && Lists(table[..], a.entries + b.entries)
  {
    table := new Row<Id, Option<V>>[a.hashSize + b.hashSize](_ => Row(0, None));
    GatherFirst(table, a);
    GatherSecond(table, a.hashSize, a.entries, b);
  }

  method GatherFirst<V>(table: array<Row<Id, Option<V>>>, a: Map<V>)
    requires a.Sound() && a.hashSize <= table.Length
    modifies table
    ensures Lists(table[..a.hashSize], a.entries)
  {
    Inject(table, 0, a);
    assert table[..a.hashSize] == table[0..0 + a.hashSize];
  }

  method GatherSecond<V>(table: array<Row<Id, Option<V>>>, n: nat, ghost m: map<Id, Option<V>>, b: Map<V>)
    requires b.Sound() && n + b.hashSize == table.Length && Lists(table[..n], m) && m.Keys !! b.entries.Keys
    modifies table
    ensures Lists(table[..], m + b.entries)
  {
    Inject(table, n, b);
    assert table[n..] == table[n..n + b.hashSize];
    ListsBoth(table[..n], table[n..], m, b.entries);
    SecondPart(table[..], n);
    assert table[..][..n] == table[..n] && table[..][n..] == table[n..];
  }

  /** `_pbcM_ip_combine`, of maps with no number in common. */
  method Combine<V>(a: Map<V>, b: Map<V>) returns (r: Map<V>)
    requires a.Sound() && b.Sound() && a.entries.Keys !! b.entries.Keys
    ensures fresh(r) && r.Sound() && r.entries == a.entries + b.entries
  {
    var table := Gather(a, b);
    ghost var m := a.entries + b.entries;
    ListsNonNull(table[..], m);
    ListsRows(table[..], m);
    assert |m| >= |a.entries| by { Subset(a.entries.Keys, m.Keys); }
    r := New(table[..]);
  }
}
