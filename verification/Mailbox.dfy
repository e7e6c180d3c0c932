/** The mailbox of a service, skynet_mq.c: a growing ring of messages with the two flags that
    tie it to the global queue.  A mailbox refines the plain record `Queue`, which is what
    the scheduler's state machine works on. */
module Mailbox {
  import opened RingBuffer

  const DEFAULT_QUEUE_SIZE := 64
  const MQ_OVERLOAD := 1024

  /** `skynet_message`; `data` stands for the payload. */
  datatype Message = Message(source: nat, session: int, data: nat)

  /** A mailbox as its users see it. */
  datatype Queue = Queue(handle: nat, msgs: seq<Message>, inGlobal: bool, release: bool)

  function Created(handle: nat): Queue { Queue(handle, [], true, false) }

  function Pushed(q: Queue, m: Message): Queue { q.(msgs := q.msgs + [m], inGlobal := true) }

  function Popped(q: Queue): Queue {
    if q.msgs == [] then q.(inGlobal := false) else q.(msgs := q.msgs[1..])
  }

  function Marked(q: Queue): Queue { q.(release := true) }

  /** The least doubling of `threshold` that is not below `length`. */
  function Raised(threshold: nat, length: nat): (r: nat)
    requires threshold > 0
    ensures r >= length && r >= threshold
    ensures r > threshold ==> r < 2 * length
    decreases length - threshold
  {
    if length > threshold then Raised(2 * threshold, length) else threshold
  }

  /** How a pop changes the overload threshold and the recorded overload. */
  ghost predicate Watched(found: bool, length: nat, threshold: nat, overload: nat, threshold': nat, overload': nat)
    requires threshold > 0
  {
    if found then
      && threshold' == Raised(threshold, length)
      && overload' == if length > threshold then length else overload
    else threshold' == MQ_OVERLOAD && overload' == overload
  }

  class MessageQueue {
    var handle: nat
    var cap: nat
    var head: nat
    var tail: nat
    var release: bool
    var inGlobal: bool
    var overload: nat
    var overloadThreshold: nat
    var queue: array<Message>

    ghost predicate Valid()
      reads this, queue
    {
      0 < cap == queue.Length && head < cap && tail < cap && overloadThreshold > 0
    }

    function Length(): nat
      requires Valid()
      reads this, queue
    {
      if head <= tail then tail - head else tail + cap - head
    }

    ghost function Content(): Queue
      requires Valid()
      reads this, queue
    {
      Queue(handle, Ring(queue[..], head, Length()), inGlobal, release)
    }

    /** `skynet_mq_create` */
    constructor (h: nat)
      ensures Valid() && fresh(queue) && Content() == Created(h)
      ensures overload == 0 && overloadThreshold == MQ_OVERLOAD
    {
      handle, cap, head, tail := h, DEFAULT_QUEUE_SIZE, 0, 0;
      inGlobal, release, overload, overloadThreshold := true, false, 0, MQ_OVERLOAD;
      queue := new Message[DEFAULT_QUEUE_SIZE](_ => Message(0, 0, 0));
    }

    /** `skynet_mq_length` */
    method MqLength() returns (n: nat)
      requires Valid()
      ensures n == |Content().msgs|
    {
      if head <= tail {
        return tail - head;
      }
      return tail + cap - head;
    }

    /** `skynet_mq_overload`: reports a recorded overload once. */
    method MqOverload() returns (n: nat)
      requires Valid()
      modifies this`overload
      ensures Valid() && n == old(overload) && overload == 0
    {
      n := 0;
      if overload != 0 {
        n := overload;
        overload := 0;
      }
    }

    /** The end of `skynet_mq_pop`: records an overload when the length passes the threshold,
        and raises the threshold. */
    method Watch(length: nat)
      requires overloadThreshold > 0
      modifies this`overload, this`overloadThreshold
      ensures overloadThreshold == Raised(old(overloadThreshold), length)
      ensures overload == if length > old(overloadThreshold) then length else old(overload)
    {
      while length > overloadThreshold
        invariant overloadThreshold > 0
        invariant Raised(overloadThreshold, length) == Raised(old(overloadThreshold), length)
        invariant overloadThreshold >= old(overloadThreshold)
        invariant overload == if overloadThreshold > old(overloadThreshold) then length else old(overload)
        decreases length - overloadThreshold
      {
        overload := length;
        overloadThreshold := overloadThreshold * 2;
      }
    }

    /** `skynet_mq_pop`; an empty mailbox leaves the global queue. */
    method Pop() returns (m: Option)
      requires Valid()
      modifies this`head, this`inGlobal, this`overload, this`overloadThreshold
      ensures Valid() && Content() == Popped(old(Content()))
      ensures m == First(old(Content()))
      ensures Watched(m.Some?, |Content().msgs|, old(overloadThreshold), old(overload), overloadThreshold, overload)
    {
      m := None;
      if head != tail {
        m := Some(queue[head]);
        var length := PopHead();
        Watch(length);
      } else {
        overloadThreshold := MQ_OVERLOAD;
        inGlobal := false;
      }
    }

    method PopHead() returns (length: int)
      requires Valid() && head != tail
      modifies this`head
      ensures Valid() && length == |Content().msgs| && Content().msgs == old(Content().msgs)[1..]
      ensures old(Content().msgs) != [] && old(Content().msgs)[0] == queue[old(head)]
    {
      PopRing(queue[..], head, Length());
      head := head + 1;
      if head >= cap {
        head := 0;
      }
      length := tail - head;
      if length < 0 {
        length := length + cap;
      }
    }

    /** `expand_queue`, called when a push has made the ring full: `head == tail`. */
    method Expand()
      requires Valid() && head == tail
      modifies this`head, this`tail, this`cap, this`queue
      ensures Valid() && fresh(queue)
      ensures Content().msgs == old(Ring(queue[..], head, cap))
    {
      ghost var was := Ring(queue[..], head, cap);
      var cells := new Message[cap * 2](_ => Message(0, 0, 0));
      for i := 0 to cap
        invariant forall k :: 0 <= k < i ==> cells[k] == was[k]
        modifies cells
      {
        IndexIsMod(head, i, cap);
        cells[i] := queue[(head + i) % cap];
      }
      assert Ring(cells[..], 0, cap) == was;
      head := 0;
      tail := cap;
      cap := cap * 2;
      queue := cells;
    }

    /** `skynet_mq_push`; `wake` tells that the mailbox goes to the global queue. */
    method Push(m: Message) returns (wake: bool)
      requires Valid()
      modifies this`head, this`tail, this`cap, this`queue, this`inGlobal, queue
      ensures Valid() && (queue == old(queue) || fresh(queue))
      ensures Content() == Pushed(old(Content()), m) && wake == !old(inGlobal)
    {
      PushRing(queue[..], head, Length(), m);
      queue[tail] := m;
      tail := tail + 1;
      if tail >= cap {
        tail := 0;
      }
      if head == tail {
        Expand();
      }
      wake := !inGlobal;
      inGlobal := true;
    }

    /** `skynet_mq_mark_release` */
    method MarkRelease() returns (wake: bool)
      requires Valid() && !release
      modifies this`release
      ensures Valid() && Content() == Marked(old(Content())) && wake == !inGlobal
    {
      release := true;
      wake := !inGlobal;
    }

    /** Any run of pushes and pops is first-in first-out, through every expansion. */
    method Serve(ops: seq<Op>) returns (got: seq<Message>)
      requires Valid()
      modifies this, queue
      ensures Valid()
      ensures Fifo(old(Content().msgs), Puts(ops), got, Content().msgs)
    {
      got := [];
      for k := 0 to |ops|
        invariant Valid() && (queue == old(queue) || fresh(queue))
        invariant Fifo(old(Content().msgs), Puts(ops[..k]), got, Content().msgs)
      {
        assert ops[..k + 1][..k] == ops[..k];
        ghost var was, puts := Content(), Puts(ops[..k]);
        match ops[k] {
          case Put(m) =>
            PutKeepsFifo(old(Content().msgs), puts, got, was, m);
            var _ := Push(m);
          case Get =>
            GetKeepsFifo(old(Content().msgs), puts, got, was);
            var m := Pop();
            got := got + Entry(m);
        }
      }
      assert ops[..|ops|] == ops;
    }

    /** `_drop_queue`: every message left is handed to the drop function, in order. */
    method DropQueue() returns (dropped: seq<Message>)
      requires Valid()
      modifies this`head, this`inGlobal, this`overload, this`overloadThreshold
      ensures Valid() && dropped == old(Content()).msgs
      ensures Content() == old(Content()).(msgs := [], inGlobal := false)
    {
      ghost var was := Content();
      dropped := [];
      var m := Pop();
      while m.Some?
        invariant Valid() && Draining(was, dropped, m, Content())
        decreases m.Some?, |Content().msgs|
      {
        DrainStep(was, dropped, m.value, Content());
        dropped := dropped + [m.value];
        m := Pop();
      }
    }
  }

  /** The uses of a mailbox. */
  datatype Op = Put(m: Message) | Get

  function Puts(ops: seq<Op>): seq<Message> {
    if ops == [] then []
    else Puts(ops[..|ops| - 1]) + match ops[|ops| - 1] case Put(m) => [m] case Get => []
  }

  function Entry(m: Option): seq<Message> { if m.Some? then [m.value] else [] }

  /** What has been got and what is left are the messages put, in order. */
  ghost predicate Fifo(start: seq<Message>, puts: seq<Message>, got: seq<Message>, left: seq<Message>) {
    got + left == start + puts
  }

  lemma GetKeepsFifo(start: seq<Message>, puts: seq<Message>, got: seq<Message>, q: Queue)
    requires Fifo(start, puts, got, q.msgs)
    ensures Fifo(start, puts + [], got + Entry(First(q)), Popped(q).msgs)
  {
    assert q.msgs == Entry(First(q)) + Popped(q).msgs;
    assert puts + [] == puts;
  }

  lemma PutKeepsFifo(start: seq<Message>, puts: seq<Message>, got: seq<Message>, q: Queue, m: Message)
    requires Fifo(start, puts, got, q.msgs)
    ensures Fifo(start, puts + [m], got, Pushed(q, m).msgs)
  {
    assert got + (q.msgs + [m]) == got + q.msgs + [m];
    assert start + (puts + [m]) == start + puts + [m];
  }

  /** What a pop returns. */
  function First(q: Queue): Option { if q.msgs == [] then None else Some(q.msgs[0]) }

  /** `dropped` and `m` have been popped, and `q` is left. */
  ghost predicate Draining(was: Queue, dropped: seq<Message>, m: Option, q: Queue) {
    match m
    case Some(v) => was.msgs == dropped + [v] + q.msgs && q == was.(msgs := q.msgs)
    case None => was.msgs == dropped && q == was.(msgs := [], inGlobal := false)
  }

  lemma DrainStep(was: Queue, dropped: seq<Message>, v: Message, q: Queue)
    requires Draining(was, dropped, Some(v), q)
    ensures Draining(was, dropped + [v], First(q), Popped(q))
  {
  }

  datatype Option = None | Some(value: Message)
}
