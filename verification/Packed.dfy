/** Packed fields of varints: the writer of wmessage.c, which guesses the length of the payload and
    patches it afterwards, and the reading loops of pattern.c. */
module Packed {
  import opened Varints

  const WMESSAGE_SIZE := 64

  datatype Ptype = Int64Type | Uint64Type | Int32Type | BoolType | Uint32Type | EnumType | Sint32Type | Sint64Type
                 | OtherType

  predicate Wide(t: Ptype) { t.Int64Type? || t.Uint64Type? }
  predicate Narrow(t: Ptype) { t.Int32Type? || t.BoolType? || t.Uint32Type? || t.EnumType? }

  // ---------- one element ----------

  function Words(w: Word64): Longlong { Longlong(w % Two32, w / Two32) }

  /** `(n << 1) ^ (n >> 31)` of the 32-bit word `w` */
  function Zigzag32(w: Word32): Word32 {
    var twice := 2 * w % Two32;
    if w >= 0x8000_0000 then Two32 - 1 - twice else twice
  }

  /** `_pbcV_dezigzag32` */
  function Dezigzag32(v: Longlong): Longlong {
    Longlong(Xored(v.low / 2, v.low % 2), if v.low >= 0x8000_0000 then Two32 - 1 else 0)
  }

  /** The number that is written for a value. */
  function Coded(t: Ptype, v: Longlong): Word64 {
    if Wide(t) then Whole(v)
    else if Narrow(t) then v.low
    else if t.Sint32Type? then Zigzag32(v.low)
    else if t.Sint64Type? then Zigzag(Signed(Whole(v)))
    else 0
  }

  /** The value that a reader makes of a decoded number. */
  function Undone(t: Ptype, v: Longlong): Longlong {
    if t.Sint32Type? then Dezigzag32(v) else if t.Sint64Type? then Dezigzag(v) else v
  }

  /** The values of a field type that the field can carry: for the 32-bit types the high word is not sent. */
  predicate Carried(t: Ptype, v: Longlong) {
    if Narrow(t) then v.hi == 0
    else if t.Sint32Type? then v.hi == (if Zigzag32(v.low) >= 0x8000_0000 then Two32 - 1 else 0)
    else if t.OtherType? then v == Longlong(0, 0)
    else true
  }

  lemma WholeWords(v: Longlong)
    ensures Words(Whole(v)) == v
  {
  }

  lemma UndoneSint64(v: Longlong)
    ensures Undone(Sint64Type, Words(Coded(Sint64Type, v))) == v
  {
    var n := Signed(Whole(v));
    var u := Dezigzag(Words(Zigzag(n)));
    DezigzagZigzag(n, Words(Zigzag(n)));
    assert Bits(n) == Whole(v);
    WholeWords(u);
    WholeWords(v);
  }

  lemma Dezigzag32Zigzag32(w: Word32)
    ensures Dezigzag32(Longlong(Zigzag32(w), 0)).low == w
  {
    if w >= 0x8000_0000 { assert 2 * w % Two32 == 2 * w - Two32; }
  }

  /** A value comes back from its number exactly if the field type can carry it. */
  lemma UndoneCoded(t: Ptype, v: Longlong)
    ensures Undone(t, Words(Coded(t, v))) == v <==> Carried(t, v)
    ensures !t.OtherType? ==> Undone(t, Words(Coded(t, v))).low == v.low
  {
    if t.Sint64Type? { UndoneSint64(v); }
    if t.Sint32Type? { Dezigzag32Zigzag32(v.low); }
    WholeWords(v);
  }

  // ---------- a list of values ----------

  /** The bytes for the values from `i` on. */
  function Payload(t: Ptype, data: seq<Longlong>, i: nat): (s: seq<Byte>)
    requires i <= |data|
    decreases |data| - i
  {
    if i == |data| then [] else Varint(Coded(t, data[i])) + Payload(t, data, i + 1)
  }

  lemma {:induction false} VarintSize(w: Word64)
    ensures |Varint(w)| <= 10
  {
    Powers();
    VarintShape(w, 9);
  }

  lemma {:induction false} PayloadSize(t: Ptype, data: seq<Longlong>, i: nat)
    requires i <= |data|
    ensures |Payload(t, data, i)| <= 10 * (|data| - i)
    decreases |data| - i
  {
    if i < |data| {
      PayloadSize(t, data, i + 1);
      VarintSize(Coded(t, data[i]));
    }
  }

  lemma {:induction false} PayloadStep(before: seq<Byte>, t: Ptype, data: seq<Longlong>, i: nat)
    requires i < |data|
    ensures before + Payload(t, data, i) == before + Varint(Coded(t, data[i])) + Payload(t, data, i + 1)
  {
  }

  datatype Outcome = Values(list: seq<Longlong>) | Malformed

  /** What is read from the payload `s`, with the bytes `behind` after it in memory. */
  function Parse(t: Ptype, s: seq<Byte>, behind: seq<Byte>): Outcome
    requires |behind| >= 10
    decreases |s|
  {
    if |s| == 0 then Values([]) else
    var n := Length(s + behind, 0);
    if n > |s| then Malformed else
    match Parse(t, s[n..], behind)
    case Values(list) => Values([Undone(t, Words(Decoded(s + behind)))] + list)
    case Malformed => Malformed
  }

  function Back(t: Ptype, data: seq<Longlong>, i: nat): seq<Longlong>
    requires i <= |data|
    decreases |data| - i
  {
    if i == |data| then [] else [Undone(t, Words(Coded(t, data[i])))] + Back(t, data, i + 1)
  }

  lemma {:induction false} ParseStep(t: Ptype, w: Word64, rest: seq<Byte>, behind: seq<Byte>)
    requires |behind| >= 10
    ensures Parse(t, Varint(w) + rest, behind) ==
      match Parse(t, rest, behind)
      case Values(list) => Values([Undone(t, Words(w))] + list)
      case Malformed => Malformed
  {
    var s := Varint(w) + rest;
    assert s + behind == Varint(w) + (rest + behind);
    DecodeEncode(w, rest + behind);
    assert s[|Varint(w)|..] == rest;
  }

  /** Reading the payload gives the values that the numbers stand for, whatever lies behind it. */
  lemma {:induction false} ParsePayload(t: Ptype, data: seq<Longlong>, i: nat, behind: seq<Byte>)
    requires i <= |data| && |behind| >= 10
    ensures Parse(t, Payload(t, data, i), behind) == Values(Back(t, data, i))
    decreases |data| - i
  {
    if i < |data| {
      ParsePayload(t, data, i + 1, behind);
      ParseStep(t, Coded(t, data[i]), Payload(t, data, i + 1), behind);
    }
  }

  lemma {:induction false} BackAll(t: Ptype, data: seq<Longlong>, i: nat)
    requires i <= |data|
    ensures Back(t, data, i) == data[i..] <==> forall j :: i <= j < |data| ==> Carried(t, data[j])
    decreases |data| - i
  {
    if i < |data| {
      BackAll(t, data, i + 1);
      UndoneCoded(t, data[i]);
      assert data[i..] == [data[i]] + data[i + 1..];
      var b := Back(t, data, i);
      assert b[0] == Undone(t, Words(Coded(t, data[i]))) && b[1..] == Back(t, data, i + 1);
    }
  }

  /** The list comes back exactly if its field type carries every value of it; the types of 64 bits do. */
  lemma RoundTrip(t: Ptype, data: seq<Longlong>, behind: seq<Byte>)
    requires |behind| >= 10
    ensures Parse(t, Payload(t, data, 0), behind) == Values(data) <==> forall j :: 0 <= j < |data| ==> Carried(t, data[j])
    ensures Wide(t) || t.Sint64Type? ==> Parse(t, Payload(t, data, 0), behind) == Values(data)
  {
    ParsePayload(t, data, 0, behind);
    BackAll(t, data, 0);
    assert data[0..] == data;
  }

  // ---------- reading ----------

  lemma {:induction false} SameLength(a: seq<Byte>, b: seq<Byte>, i: nat)
    requires i < 10 <= |a| && 10 <= |b|
    requires forall j :: i <= j < Length(a, i) ==> a[j] == b[j]
    ensures Length(b, i) == Length(a, i)
    decreases 10 - i
  {
    if i < 9 && a[i] >= 128 { SameLength(a, b, i + 1); }
  }

  lemma {:induction false} LengthWithin(s: seq<Byte>, a: seq<Byte>, b: seq<Byte>)
    requires |a| >= 10 && |b| >= 10
    ensures Length(s + a, 0) <= |s| ==>
      Length(s + b, 0) == Length(s + a, 0) && Decoded(s + b) == Decoded(s + a)
  {
    var m := Length(s + a, 0);
    if m <= |s| {
      SameLength(s + a, s + b, 0);
      GroupsFront(s + a, s + b, m);
    }
  }

  /** What lies behind the payload does not matter, though the reader may look at it. */
  lemma {:induction false} ParseBehind(t: Ptype, s: seq<Byte>, a: seq<Byte>, b: seq<Byte>)
    requires |a| >= 10 && |b| >= 10
    ensures Parse(t, s, a) == Parse(t, s, b)
    decreases |s|
  {
    if |s| > 0 {
      LengthWithin(s, a, b);
      LengthWithin(s, b, a);
      var m := Length(s + a, 0);
      if m <= |s| { ParseBehind(t, s[m..], a, b); }
    }
  }

  /** The values read so far lead to the outcome: the state of the loop at `at`. */
  ghost predicate Reads(t: Ptype, s: seq<Byte>, behind: seq<Byte>, values: seq<Longlong>, at: nat, all: Outcome)
    requires |behind| >= 10
  {
    at <= |s| && all == Prefixed(values, Parse(t, s[at..], behind))
  }

  lemma {:induction false} ReadsStep(t: Ptype, s: seq<Byte>, behind: seq<Byte>, values: seq<Longlong>, at: nat,
                                     all: Outcome, v: Longlong, n: nat)
    requires |behind| >= 10 && Reads(t, s, behind, values, at, all) && at < |s|
    requires n == Length(s[at..] + behind, 0) && v == Words(Decoded(s[at..] + behind))
    ensures if at + n > |s| then all == Malformed else Reads(t, s, behind, values + [Undone(t, v)], at + n, all)
  {
    if at + n <= |s| {
      assert s[at..][n..] == s[at + n..];
      var rest := Parse(t, s[at + n..], behind);
      if rest.Values? { assert values + ([Undone(t, v)] + rest.list) == values + [Undone(t, v)] + rest.list; }
    }
  }

  lemma {:induction false} ReadsEnds(t: Ptype, s: seq<Byte>, behind: seq<Byte>, values: seq<Longlong>, all: Outcome)
    requires |behind| >= 10
    ensures Reads(t, s, behind, [], 0, Parse(t, s, behind))
    ensures Reads(t, s, behind, values, |s|, all) ==> all == Values(values)
  {
    assert s[0..] == s;
  }

  function Prefixed(values: seq<Longlong>, r: Outcome): Outcome {
    if r.Values? then Values(values + r.list) else Malformed
  }

  method DecodeAt(buffer: seq<Byte>, at: nat, behind: seq<Byte>) returns (v: Longlong, len: nat)
    requires |behind| >= 10 && at < |buffer|
    ensures len == Length(buffer[at..] + behind, 0) && v == Words(Decoded(buffer[at..] + behind))
  {
    v, len := Decode(buffer[at..] + behind);
    WholeWords(v);
  }

  /** The varint cases of `_pbcP_unpack_packed`; -1 for a malformed payload or another type.  `behind` is
      what follows the payload in memory: near its end the code decodes from the payload itself, not from
      the copy it makes. */
  method UnpackPacked(buffer: seq<Byte>, t: Ptype, behind: seq<Byte>) returns (out: seq<Longlong>, n: int)
    requires |behind| >= 10
    ensures t.OtherType? ==> n == -1
    ensures !t.OtherType? ==> (n == -1 <==> Parse(t, buffer, behind).Malformed?)
    ensures n != -1 ==> Parse(t, buffer, behind) == Values(out) && n == |out|
  {
    out, n := [], 0;
    if t.OtherType? { return out, -1; }
    ghost var all := Parse(t, buffer, behind);
    ReadsEnds(t, buffer, behind, [], all);
    var at := 0;
    while at < |buffer|
      invariant Reads(t, buffer, behind, out, at, all) && n == |out|
      decreases |buffer| - at
    {
      var v, len := DecodeAt(buffer, at, behind);
      ReadsStep(t, buffer, behind, out, at, all, v, len);
      if |buffer| - at < 10 {
        if len > |buffer| - at { return out, -1; }
      }
      out := out + [Undone(t, v)];
      at := at + len;
      n := n + 1;
    }
    ReadsEnds(t, buffer, behind, out, all);
  }

  // ---------- writing ----------

  /** `_pbcV_encode`, `_pbcV_encode32`, `_pbcV_zigzag32` or `_pbcV_zigzag`, as the type wants it. */
  method EncodeElement(t: Ptype, v: Longlong, buffer: array<Byte>, p: nat) returns (len: nat)
    requires p + 10 <= buffer.Length && !t.OtherType?
    modifies buffer
    ensures len <= 10 && buffer[..p + len] == old(buffer[..p]) + Varint(Coded(t, v))
  {
    if Wide(t) {
      len := Encode(Whole(v), buffer, p);
    } else if Narrow(t) {
      len := Encode32(v.low, buffer, p);
    } else if t.Sint32Type? {
      len := Encode32(Zigzag32(v.low), buffer, p);
    } else {
      len := Encode(Zigzag(Signed(Whole(v))), buffer, p);
    }
  }

  /** `memmove` within an array */
  method Move(a: array<Byte>, to: nat, from: nat, n: nat)
    requires to + n <= a.Length && from + n <= a.Length
    modifies a
    ensures forall i :: to <= i < to + n ==> a[i] == old(a[..])[from + (i - to)]
    ensures forall i :: 0 <= i < to ==> a[i] == old(a[i])
  {
    forall i | 0 <= i < n { a[to + i] := a[from + i]; }
  }

  /** `memcpy` from another array */
  method Copy(a: array<Byte>, to: nat, b: array<Byte>, n: nat)
    requires a != b && to + n <= a.Length && n <= b.Length
    modifies a
    ensures forall i :: 0 <= i < n ==> a[to + i] == b[i]
    ensures forall i :: 0 <= i < to || to + n <= i < a.Length ==> a[i] == old(a[i])
  {
    forall i | 0 <= i < n { a[to + i] := b[i]; }
  }

  class WMessage {
    var buffer: array<Byte>
    var ptr: nat

    ghost predicate Sound()
      reads this
    {
      ptr <= buffer.Length && buffer.Length > 0
    }

    ghost function Content(): seq<Byte>
      requires Sound()
      reads this, buffer
    {
      buffer[..ptr]
    }

    constructor ()
      ensures Sound() && fresh(buffer) && Content() == []
    {
      buffer := new Byte[WMESSAGE_SIZE](_ => 0);
      ptr := 0;
    }

    /** `_expand_message`: room for `sz` bytes more; the capacity doubles. */
    method Expand(sz: nat)
      requires Sound()
      modifies this`buffer
      ensures Sound() && ptr + sz <= buffer.Length && Content() == old(Content())
      ensures buffer == old(buffer) || fresh(buffer)
      ensures buffer.Length == old(buffer.Length) || buffer.Length < 2 * (ptr + sz)
    {
      if ptr + sz > buffer.Length {
        var cap := buffer.Length * 2;
        while ptr + sz > cap
          invariant cap >= 2 * buffer.Length && (cap == 2 * buffer.Length || cap < 2 * (ptr + sz))
          decreases ptr + sz - cap
        {
          cap := cap * 2;
        }
        var larger := new Byte[cap](_ => 0);
        Copy(larger, 0, buffer, ptr);
        buffer := larger;
      }
    }

    /** The loop over the values. */
    method PackElements(t: Ptype, data: seq<Longlong>)
      requires Sound() && !t.OtherType?
      modifies this, buffer
      ensures Sound() && (buffer == old(buffer) || fresh(buffer))
      ensures Content() == old(Content()) + Payload(t, data, 0)
    {
      for i := 0 to |data|
        invariant Sound() && (buffer == old(buffer) || fresh(buffer))
        invariant Content() + Payload(t, data, i) == old(Content()) + Payload(t, data, 0)
      {
        PayloadStep(Content(), t, data, i);
        PackElement(t, data[i]);
      }
    }

    method PackElement(t: Ptype, v: Longlong)
      requires Sound() && !t.OtherType?
      modifies this, buffer
      ensures Sound() && (buffer == old(buffer) || fresh(buffer))
      ensures Content() == old(Content()) + Varint(Coded(t, v))
    {
      Expand(10);
      var len := EncodeElement(t, v, buffer, ptr);
      ptr := ptr + len;
    }

    /** The default case: one zero byte for each value, which the guess has made room for. */
    method PackZeros(data: seq<Longlong>)
      requires Sound() && ptr + |data| <= buffer.Length
      modifies this`ptr, buffer
      ensures Sound() && Content() == old(Content()) + Payload(OtherType, data, 0)
    {
      for i := 0 to |data|
        invariant ptr == old(ptr) && buffer[..ptr] == old(buffer[..ptr])
        invariant forall j :: ptr <= j < ptr + i ==> buffer[j] == 0
      {
        buffer[ptr + i] := 0;
      }
      ZeroPayload(data, 0);
      ptr := ptr + |data|;
    }

    /** Moves the payload, so that it has `w` bytes before it instead of `width`. */
    method Shift(offset: nat, width: nat, w: nat, ghost payload: seq<Byte>)
      requires Sound() && offset + width + |payload| == ptr
      requires buffer[offset + width..ptr] == payload
      modifies this, buffer
      ensures Sound() && (buffer == old(buffer) || fresh(buffer)) && ptr == offset + w + |payload|
      ensures buffer[..offset] == old(buffer[..offset]) && buffer[offset + w..ptr] == payload
    {
      ghost var content := Content();
      Expand(w);
      assert forall i :: 0 <= i < ptr ==> buffer[i] == content[i];
      assert forall i :: 0 <= i < |payload| ==> content[offset + width + i] == payload[i];
      MovePayload(offset, width, w, ptr - (offset + width), payload);
      ptr := ptr + w - width;
    }

    method MovePayload(offset: nat, width: nat, w: nat, n: nat, ghost payload: seq<Byte>)
      requires n == |payload| && offset + width + n <= buffer.Length && offset + w + n <= buffer.Length
      requires forall i :: 0 <= i < n ==> buffer[..][offset + width + i] == payload[i]
      modifies buffer
      ensures buffer[..offset] == old(buffer[..offset]) && buffer[offset + w..offset + w + n] == payload
    {
      Move(buffer, offset + w, offset + width, n);
      assert forall i :: offset + w <= i < offset + w + n ==> buffer[i] == payload[i - (offset + w)];
    }

    /** The length at `offset`, of `width` bytes, is replaced by that of the payload behind it. */
    method Patch(offset: nat, width: nat, ghost payload: seq<Byte>)
      requires Sound() && offset + width + |payload| == ptr && |payload| < Two32
      requires buffer[offset + width..ptr] == payload
      modifies this, buffer
      ensures Sound() && (buffer == old(buffer) || fresh(buffer))
      ensures Content() == old(buffer[..offset]) + Varint(|payload|) + payload
    {
      ghost var front := buffer[..offset];
      var temp := new Byte[10](_ => 0);
      var w := Encode32(ptr - (offset + width), temp, 0);
      assert temp[..w] == Varint(|payload|);
      if w != width {
        Shift(offset, width, w, payload);
      }
      PutHeader(offset, w, temp, front, payload);
    }

    method PutHeader(offset: nat, w: nat, temp: array<Byte>, ghost front: seq<Byte>, ghost payload: seq<Byte>)
      requires Sound() && temp != buffer && w <= temp.Length && offset + w + |payload| == ptr
      requires buffer[..offset] == front && buffer[offset + w..ptr] == payload
      modifies buffer
      ensures Sound() && Content() == front + temp[..w] + payload
    {
      ghost var before := buffer[..];
      assert forall i :: 0 <= i < |payload| ==> before[offset + w + i] == payload[i];
      Copy(buffer, offset, temp, w);
      assert buffer[..offset] == front;
      assert buffer[offset..offset + w] == temp[..w];
      assert buffer[offset + w..ptr] == payload;
    }

    /** `_pack_packed_varint`: whatever the guess, the length of the payload and the payload are appended. */
    method PackVarint(t: Ptype, data: seq<Longlong>)
      requires Sound() && 10 * |data| < 0x8000_0000
      modifies this, buffer
      ensures Sound() && (buffer == old(buffer) || fresh(buffer))
      ensures Content() == old(Content()) + Varint(|Payload(t, data, 0)|) + Payload(t, data, 0)
    {
      var offset := ptr;
      ghost var front, payload := Content(), Payload(t, data, 0);
      PayloadSize(t, data, 0);
      var guess := if t.BoolType? then |data| else 2 * |data|;
      var width := PackGuess(guess, t, data);
      ghost var header := Varint(guess);
      CutThree(front, header, payload);
      assert Content() == front + header + payload && |header| == width;
      assert buffer[..offset] == Content()[..offset] && buffer[offset + width..ptr] == Content()[offset + width..];
      if ptr - (offset + width) != guess {
        Patch(offset, width, payload);
      }
    }

    /** The guessed length, and the payload. */
    method PackGuess(guess: nat, t: Ptype, data: seq<Longlong>) returns (width: nat)
      requires Sound() && |data| <= guess < Two32
      modifies this, buffer
      ensures Sound() && (buffer == old(buffer) || fresh(buffer)) && width == |Varint(guess)|
      ensures Content() == old(Content()) + Varint(guess) + Payload(t, data, 0)
    {
      Expand(10 + guess);
      width := Encode32(guess, buffer, ptr);
      ptr := ptr + width;
      if t.OtherType? { PackZeros(data); } else { PackElements(t, data); }
    }
  }

  lemma CutThree(a: seq<Byte>, b: seq<Byte>, c: seq<Byte>)
    ensures (a + b + c)[..|a|] == a && (a + b + c)[|a| + |b|..] == c
  {
  }

  lemma {:induction false} ZeroPayload(data: seq<Longlong>, i: nat)
    requires i <= |data|
    ensures |Payload(OtherType, data, i)| == |data| - i
    ensures forall j :: 0 <= j < |data| - i ==> Payload(OtherType, data, i)[j] == 0
    decreases |data| - i
  {
    if i < |data| { ZeroPayload(data, i + 1); }
  }
}
