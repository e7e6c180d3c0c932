/** The growing table from names to pointers, `map_sp` of map.c. */
module MapSp {
  import opened ChainTable
  import opened RingBuffer

  type Cell<V> = Slot<string, Option<V>>

  /** `cap` doubles from 1. */
  ghost predicate PowerOfTwo(n: nat)
    decreases n
  {
    n == 1 || (n > 1 && n % 2 == 0 && PowerOfTwo(n / 2))
  }

  /** Unused slots hold null. */
  ghost predicate Clean<V>(t: seq<Cell<V>>) {
    forall i :: 0 <= i < |t| && !Used(t[i]) ==> t[i].value == None
  }

  /** The first slot from `i` on that holds a pointer; -1 if there is none. */
  function NextFull<V>(t: seq<Cell<V>>, i: nat): (r: int)
    ensures r == -1 || (i <= r < |t| && t[r].value.Some?)
    ensures forall j :: i <= j < (if r < 0 then |t| else r) ==> t[j].value.None?
    decreases |t| - i
  {
    if i >= |t| then -1 else if t[i].value.Some? then i else NextFull(t, i + 1)
  }

  /** What an iteration from slot `i` on delivers: the pointers that are not null, with their keys. */
  ghost function Visits<V>(t: seq<Cell<V>>, i: nat): seq<(string, V)>
    requires Clean(t)
    decreases |t| - i
  {
    if i >= |t| then []
    else if t[i].value.Some? then [(t[i].key.value, t[i].value.value)] + Visits(t, i + 1)
    else Visits(t, i + 1)
  }

  lemma {:induction false} VisitsJump<V>(t: seq<Cell<V>>, i: nat)
    requires Clean(t)
    ensures Visits(t, i) == if NextFull(t, i) < 0 then [] else
              var n := NextFull(t, i); [(t[n].key.value, t[n].value.value)] + Visits(t, n + 1)
    decreases |t| - i
  {
    if i < |t| && t[i].value.None? { VisitsJump(t, i + 1); }
  }

  /** What has been delivered before slot `i`. */
  ghost predicate Seen<V>(t: seq<Cell<V>>, seen: seq<(string, V)>, i: nat) {
    Clean(t) && Visits(t, 0) == seen + Visits(t, i)
  }

  lemma {:induction false} VisitsBegin<V>(t: seq<Cell<V>>)
    requires Clean(t)
    ensures Seen(t, [], 0)
  {
    assert [] + Visits(t, 0) == Visits(t, 0);
  }

  lemma {:induction false} VisitsStep<V>(t: seq<Cell<V>>, seen: seq<(string, V)>, i: nat)
    requires Seen(t, seen, i)
    ensures var n := NextFull(t, i);
      if n < 0 then Visits(t, 0) == seen
      else Seen(t, seen + [(t[n].key.value, t[n].value.value)], n + 1)
  {
    VisitsJump(t, i);
    var n := NextFull(t, i);
    if n < 0 { assert seen + [] == seen; }
    else { Grouped(seen, [(t[n].key.value, t[n].value.value)], Visits(t, n + 1)); }
  }

  lemma Grouped<T>(a: seq<T>, b: seq<T>, c: seq<T>)
    ensures a + b + c == a + (b + c)
  {
  }

  /** An iteration stands before the entry at the first full slot from `i` on. */
  ghost predicate Stands<V>(t: seq<Cell<V>>, i: nat, key: Option<string>, value: Option<V>) {
    var n := NextFull(t, i);
    if n < 0 then key == None else key == t[n].key && key.Some? && value == t[n].value
  }

  lemma {:induction false} VisitsFrom<V>(t: seq<Cell<V>>, g: Shape<string>, i: nat, k: string, v: V)
    requires Clean(t) && Placed(t, g)
    ensures (k, v) in Visits(t, i) <==> k in g.place && i <= g.place[k] && t[g.place[k]].value == Some(v)
    decreases |t| - i
  {
    if i < |t| { VisitsFrom(t, g, i + 1, k, v); }
  }

  lemma {:induction false} VisitsDistinct<V>(t: seq<Cell<V>>, g: Shape<string>, i: nat)
    requires Clean(t) && Placed(t, g)
    ensures forall a, b :: 0 <= a < b < |Visits(t, i)| ==> Visits(t, i)[a].0 != Visits(t, i)[b].0
    decreases |t| - i
  {
    if i < |t| {
      VisitsDistinct(t, g, i + 1);
      var rest := Visits(t, i + 1);
      forall b | t[i].value.Some? && 0 <= b < |rest| ensures rest[b].0 != t[i].key.value {
        VisitsFrom(t, g, i + 1, rest[b].0, rest[b].1);
        assert rest[b] in rest;
      }
    }
  }

  /** Every entry that is not null comes exactly once, and nothing else. */
  ghost predicate EachOnce<V(!new)>(seen: seq<(string, V)>, m: map<string, Option<V>>) {
    && (forall k, v :: (k, v) in seen <==> k in m && m[k] == Some(v))
    && (forall a, b :: 0 <= a < b < |seen| ==> seen[a].0 != seen[b].0)
  }

  lemma VisitsAll<V(!new)>(t: seq<Cell<V>>, g: Shape<string>)
    requires Clean(t) && Placed(t, g)
    ensures EachOnce(Visits(t, 0), Contents(t, g))
  {
    forall k, v ensures (k, v) in Visits(t, 0) <==> k in Contents(t, g) && Contents(t, g)[k] == Some(v) {
      VisitsFrom(t, g, 0, k, v);
    }
    VisitsDistinct(t, g, 0);
  }

  class Map<V(!new)> {
    const hash: string -> nat
    var cap: nat
    var size: nat
    var slot: array<Cell<V>>
    ghost var shape: Shape<string>

    ghost predicate Sound()
      reads this, slot
    {
      cap == slot.Length && PowerOfTwo(cap) && size == |Usage(slot[..])| 
      && Valid(slot[..], shape, hash) && Clean(slot[..])
    }

    ghost function Entries(): map<string, Option<V>>
      requires Sound()
      reads this, slot
    {
      Contents(slot[..], shape)
    }

    /** `_pbcM_sp_new` */
    constructor (max: int, calcHash: string -> nat)
      ensures Sound() && fresh(slot) && Entries() == map[] && hash == calcHash
      ensures cap >= max && (cap == 1 || cap < 2 * max)
    {
      var c := 1;
      while c < max
        invariant PowerOfTwo(c) && (c == 1 || c < 2 * max)
      {
        c := c * 2;
      }
      hash, cap, size := calcHash, c, 0;
      slot := new Cell<V>[c](_ => Nothing(None));
      shape := Fresh(c);
      new;
      FreshValid(slot[..], None, hash);
    }

    /** The probe for an unused slot, going round from `start`. */
    method FindEmpty(start: nat) returns (empty: nat)
      requires Sound() && size < cap && start < cap
      ensures empty < cap && !Used(slot[empty])
    {
      Room(slot[..]);
      ghost var goal :| 0 <= goal < cap && !Used(slot[..][goal]);
      empty := start;
      while Used(slot[empty])
        invariant empty < cap
        decreases if empty <= goal then goal - empty else goal + cap - empty
      {
        IndexIsMod(empty, 1, cap);
        empty := (empty + 1) % cap;
      }
    }

    /** Puts a new key into an unused slot behind `p`. */
    method Splice(p: nat, empty: nat, key: string, full: nat, value: Option<V>)
      requires Sound() && full == hash(key) && CanSplice(slot[..], shape, hash, p, empty, key)
      modifies this, slot
      ensures Sound() && slot == old(slot) && cap == old(cap) && size == old(size) + 1
      ensures Entries() == old(Entries())[key := value]
      ensures slot[empty].key == Some(key)
    {
      shape := PutBehind(slot, p, empty, key, full, value, shape, hash);
      size := size + 1;
    }

    /** Puts a new key into its unused home slot. */
    method Fill(home: nat, key: string, full: nat, value: Option<V>)
      requires Sound() && full == hash(key) && CanFill(slot[..], shape, hash, home, key)
      modifies this, slot
      ensures Sound() && slot == old(slot) && cap == old(cap) && size == old(size) + 1
      ensures Entries() == old(Entries())[key := value]
      ensures slot[home].key == Some(key)
    {
      shape := PutHome(slot, home, key, full, value, shape, hash);
      size := size + 1;
    }

    /** `_pbcM_sp_insert_hash`, of a key that is not there. */
    method InsertHash(key: string, full: nat, value: Option<V>)
      requires Sound() && full == hash(key) && key !in Entries()
      modifies this, slot
      ensures Sound() && (slot == old(slot) || fresh(slot)) && cap >= old(cap) && size == old(size) + 1
      ensures old(cap > size) ==> cap == old(cap) && slot == old(slot)
      ensures Entries() == old(Entries())[key := value]
      decreases if cap > size then 0 else 2
    {
      if cap > size {
        var home := Home(full, cap);
        if !Used(slot[home]) {
          Fill(home, key, full, value);
        } else {
          var empty := FindEmpty((home + 1) % cap);
          Splice(home, empty, key, full, value);
        }
        return;
      }
      Rehash();
      InsertHash(key, full, value);
    }

    /** `_pbcM_sp_rehash`, of a full table. */
    method Rehash()
      requires Sound() && size >= cap
      modifies this
      ensures Sound() && fresh(slot) && cap == 2 * old(cap) && size == old(size) && size < cap
      ensures Entries() == old(Entries())
      decreases 1
    {
      Room(slot[..]);
      var oldSlot, n := slot, size;
      ghost var t, g := slot[..], shape;
      Grow();
      FrontEnds(t, g);
      for i := 0 to n
        invariant Sound() && fresh(slot) && cap == 2 * old(cap) && size == i && oldSlot[..] == t
        invariant Entries() == Front(t, g, i)
      {
        FrontStep(t, g, i);
        assert HomeOk(t, g, hash, i);
        InsertHash(oldSlot[i].key.value, oldSlot[i].hash, oldSlot[i].value);
      }
    }

    /** An empty table of twice the size. */
    method Grow()
      requires Sound()
      modifies this
      ensures Sound() && fresh(slot) && cap == 2 * old(cap) && size == 0 && Entries() == map[]
    {
      size := 0;
      cap := cap * 2;
      slot := new Cell<V>[cap](_ => Nothing(None));
      shape := Fresh(cap);
      FreshValid(slot[..], None, hash);
    }
  
    /** `_pbcM_sp_insert` */
    method Insert(key: string, value: Option<V>)
      requires Sound() && key !in Entries()
      modifies this, slot
      ensures Sound() && (slot == old(slot) || fresh(slot))
      ensures Entries() == old(Entries())[key := value]
    {
      InsertHash(key, hash(key), value);
    }

    /** `_pbcM_sp_query_insert_hash`: the slot whose pointer the caller may read and write. */
    method QueryInsertHash(key: string, full: nat) returns (at: nat)
      requires Sound() && full == hash(key)
      modifies this, slot
      ensures Sound() && (slot == old(slot) || fresh(slot))
      ensures at < slot.Length && slot[at].key == Some(key)
      ensures Entries() == if key in old(Entries()) then old(Entries()) else old(Entries())[key := None]
      decreases if cap > size then 0 else 2
    {
      Room(slot[..]);
      var home := Home(full, cap);
      if !Used(slot[home]) {
        if key in shape.place { AtHome(slot[..], shape, hash, key); }
        Fill(home, key, full, None);
        return home;
      }
      var found, tail := Search(slot, key, full, home, shape, hash);
      if found { return tail; }
      if cap <= size {
        Rehash();
        at := QueryInsertHash(key, full);
        return;
      }
      at := FindEmpty((home + 1) % cap);
      Splice(tail, at, key, full, None);
    }

    /** `_pbcM_sp_query_insert` */
    method QueryInsert(key: string) returns (at: nat)
      requires Sound()
      modifies this, slot
      ensures Sound() && (slot == old(slot) || fresh(slot))
      ensures at < slot.Length && slot[at].key == Some(key)
      ensures Entries() == if key in old(Entries()) then old(Entries()) else old(Entries())[key := None]
    {
      at := QueryInsertHash(key, hash(key));
    }

    /** The caller's assignment through the pointer that `QueryInsert` gave. */
    method Assign(at: nat, value: Option<V>)
      requires Sound() && at < slot.Length && Used(slot[at])
      modifies slot
      ensures Sound() && Entries() == old(Entries())[old(slot[at].key.value) := value]
    {
      WriteValid(slot[..], shape, hash, at, value);
      ghost var t := slot[..];
      slot[at] := slot[at].(value := value);
      assert slot[..] == Written(t, at, value);
      assert Usage(slot[..]) == Usage(t);
    }

    /** `_pbcM_sp_query` */
    method Query(key: string) returns (r: Option<V>)
      requires Sound()
      ensures r == if key in Entries() then Entries()[key] else None
    {
      var home := Home(hash(key), cap);
      if !Used(slot[home]) {
        if key in shape.place { AtHome(slot[..], shape, hash, key); }
        return None;
      }
      var found, at := Search(slot, key, hash(key), home, shape, hash);
      r := if found then slot[at].value else None;
    }

    /** `_find_first`, and the loop of `_find_next`. */
    method FirstFull(from: nat) returns (r: int)
      requires Sound()
      ensures r == NextFull(slot[..], from)
    {
      var i := from;
      while i < cap
        invariant NextFull(slot[..], from) == NextFull(slot[..], i)
      {
        if slot[i].value.Some? { return i; }
        i := i + 1;
      }
      r := -1;
    }

    /** `_find_next` */
    method FindNext(key: string) returns (r: int)
      requires Sound()
      ensures r == if key in Entries() then NextFull(slot[..], shape.place[key] + 1) else -1
    {
      var home := Home(hash(key), cap);
      if !Used(slot[home]) {
        if key in shape.place { AtHome(slot[..], shape, hash, key); }
        return -1;
      }
      var found, at := Search(slot, key, hash(key), home, shape, hash);
      if !found { return -1; }
      r := FirstFull(at + 1);
    }

    /** `_pbcM_sp_next`: the entry after `key`, or the first one. */
    method Next(key: Option<string>) returns (next: Option<string>, value: Option<V>)
      requires Sound()
      ensures var n := if key.None? then NextFull(slot[..], 0)
                       else if key.value in Entries() then NextFull(slot[..], shape.place[key.value] + 1) else -1;
              if n < 0 then next == None && value == None
              else next == slot[n].key && next.Some? && value == slot[n].value && value.Some?
    {
      var n;
      if key.None? { n := FirstFull(0); } else { n := FindNext(key.value); }
      if n < 0 { return None, None; }
      return slot[n].key, slot[n].value;
    }

    /** A caller's loop over `_pbcM_sp_next`: it sees every entry that is not null exactly once. */
    method Iterate() returns (seen: seq<(string, V)>)
      requires Sound()
      ensures EachOnce(seen, Entries())
    {
      ghost var t := slot[..];
      ghost var i := 0;
      VisitsBegin(t);
      seen := [];
      var key, value := Next(None);
      while key.Some?
        invariant i <= |t| && Seen(t, seen, i) && Stands(t, i, key, value)
        decreases |t| - i
      {
        VisitsStep(t, seen, i);
        seen := seen + [(key.value, value.value)];
        i := NextFull(t, i) + 1;
        key, value := Next(key);
      }
      VisitsStep(t, seen, i);
      assert seen == Visits(t, 0);
      VisitsAll(t, shape);
    }
  }
}
