/** The fixed table from names to numbers, `map_si` of map.c: as many slots as rows. */
module MapSi {
  import opened ChainTable

  /** The slots before `e` are all used. */
  ghost predicate UsedTo<K, V>(t: seq<Slot<K, V>>, e: nat) {
    e <= |t| && forall j :: 0 <= j < e ==> Used(t[j])
  }

  class Map {
    const hash: string -> nat
    var size: nat
    var slot: array<Slot<string, int>>
    ghost var shape: Shape<string>

    ghost predicate Sound()
      reads this, slot
    {
      size == slot.Length && Valid(slot[..], shape, hash)
    }

    ghost function Entries(): map<string, int>
      requires Sound()
      reads this, slot
    {
      Contents(slot[..], shape)
    }

    /** `_pbcM_si_new` */
    constructor (rows: seq<Row<string, int>>, calcHash: string -> nat)
      requires Distinct(rows)
      ensures Sound() && fresh(slot) && Entries() == Rows(rows) && size == |rows| && hash == calcHash
    {
      hash, size := calcHash, |rows|;
      slot := new Slot<string, int>[|rows|](_ => Nothing(0));
      shape := Fresh(|rows|);
      new;
      FreshValid(slot[..], 0, hash);
      AddAll(rows);
    }

    method AddAll(rows: seq<Row<string, int>>)
      requires Distinct(rows) && Sound() && size == |rows| && Entries() == map[] && |Usage(slot[..])| == 0
      modifies this`shape, slot
      ensures Sound() && Entries() == Rows(rows)
    {
      var empty := 0;
      for i := 0 to |rows|
        invariant Sound() && Entries() == RowsTo(rows, i) && |Usage(slot[..])| == i
        invariant UsedTo(slot[..], empty)
      {
        RowsStep(rows, i);
        empty := Add(rows[i].key, rows[i].value, empty);
      }
    }

    /** One row: into its home slot, or into the first unused slot and the chain behind its home. */
    method Add(key: string, id: int, empty: nat) returns (e: nat)
      requires Sound() && key !in Entries() && |Usage(slot[..])| < size && UsedTo(slot[..], empty)
      modifies this`shape, slot
      ensures Sound() && Entries() == old(Entries())[key := id]
      ensures |Usage(slot[..])| == old(|Usage(slot[..])|) + 1 && UsedTo(slot[..], e)
    {
      e := empty;
      var full := hash(key);
      Room(slot[..]);
      var home := Home(full, size);
      if !Used(slot[home]) {
        shape := PutHome(slot, home, key, full, id, shape, hash);
      } else {
        ghost var some :| 0 <= some < |slot[..]| && !Used(slot[..][some]);
        while Used(slot[e])
          invariant e <= some && UsedTo(slot[..], e)
          decreases some - e
        {
          e := e + 1;
        }
        shape := PutBehind(slot, home, e, key, full, id, shape, hash);
      }
    }

    /** `_pbcM_si_query` */
    method Query(key: string) returns (r: Option<int>)
      requires Sound() && size > 0
      ensures r == if key in Entries() then Some(Entries()[key]) else None
    {
      var home := Home(hash(key), size);
      if !Used(slot[home]) {
        if key in shape.place { AtHome(slot[..], shape, hash, key); }
        return None;
      }
      var found, at := Search(slot, key, hash(key), home, shape, hash);
      r := if found then Some(slot[at].value) else None;
    }
  }
}
