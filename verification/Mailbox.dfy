/** The actor mailbox: a slice with a head index and in-place compaction that refines a
    bounded FIFO with a one-token notify channel. */
module Mailbox {
  import opened Basics

  datatype SubmitResult = SubmitAccepted | SubmitRejectedFull | SubmitRejectedStop

  // --- the abstract mailbox ---

  datatype Box<T> = Box(queue: seq<T>, token: bool, closed: bool, max: nat)

  function EnqueueSpec<T>(b: Box<T>, msg: T): (r: (Box<T>, SubmitResult))
  {
    if b.closed then (b, SubmitRejectedStop)
    else if |b.queue| >= b.max then (b, SubmitRejectedFull)
    else (b.(queue := b.queue + [msg], token := b.token || b.queue == []), SubmitAccepted)
  }

  function DequeueSpec<T>(b: Box<T>): (r: (Box<T>, Option<T>))
  {
    if b.queue == [] then (b, None)
    else (b.(queue := b.queue[1..], token := b.token || |b.queue| > 1), Some(b.queue[0]))
  }

  /** How many messages DequeueBatch(limit) takes. */
  function BatchSize(limit: int, depth: nat): nat { Min(Max(limit, 1), depth) }

  function DequeueBatchSpec<T>(b: Box<T>, limit: int): (r: (Box<T>, seq<T>))
  {
    var n := BatchSize(limit, |b.queue|);
    (b.(queue := b.queue[n..], token := b.token || |b.queue| > n), b.queue[..n])
  }

  /** n successive Dequeue calls and what they return. */
  function DequeueTimes<T>(b: Box<T>, n: nat): (r: (Box<T>, seq<T>))
    requires n <= |b.queue|
    decreases n
  {
    if n == 0 then (b, [])
    else
      var (b1, m) := DequeueSpec(b);
      var (b2, ms) := DequeueTimes(b1, n - 1);
      (b2, [m.value] + ms)
  }

  lemma {:induction false} DequeueTimesTakes<T>(b: Box<T>, n: nat)
    requires n <= |b.queue|
    ensures DequeueTimes(b, n).1 == b.queue[..n]
    ensures DequeueTimes(b, n).0 == b.(queue := b.queue[n..], token := b.token || (n > 0 && |b.queue| > 1))
    decreases n
  {
    if n > 0 {
      DequeueTimesTakes(DequeueSpec(b).0, n - 1);
      assert b.queue[1..][n - 1..] == b.queue[n..];
      assert [b.queue[0]] + b.queue[1..][..n - 1] == b.queue[..n];
    }
  }

  /** A batch returns and leaves what the same number of single calls do; the notify
      token is the same too, except that draining two or more messages one by one leaves
      a token behind. */
  lemma BatchIsDequeues<T>(b: Box<T>, limit: int)
    ensures var n := BatchSize(limit, |b.queue|);
            var batch, single := DequeueBatchSpec(b, limit), DequeueTimes(b, n);
            && batch.1 == single.1 && batch.0.(token := single.0.token) == single.0
            && (batch.0.token == single.0.token <==> b.token || |b.queue| != n || n <= 1)
  {
    DequeueTimesTakes(b, BatchSize(limit, |b.queue|));
  }

  // --- what the history of a mailbox says ---

  datatype Op<T> = Put(msg: T) | Take | TakeBatch(limit: int) | Wake | Shut

  /** What the caller gets; Wake takes the notify token. */
  datatype Answer<T> = Told(result: SubmitResult) | Got(msgs: seq<T>) | Nothing

  function Do<T>(b: Box<T>, op: Op<T>): (Box<T>, Answer<T>)
  {
    match op
    case Put(m) => var (b', r) := EnqueueSpec(b, m); (b', Told(r))
    case Take => var (b', m) := DequeueSpec(b); (b', Got(if m.Some? then [m.value] else []))
    case TakeBatch(limit) => var (b', ms) := DequeueBatchSpec(b, limit); (b', Got(ms))
    case Wake => (b.(token := false), Nothing)
    case Shut => (b.(closed := true), Nothing)
  }

  /** A new mailbox of capacity max after the operations. */
  function BoxAfter<T>(max: nat, ops: seq<Op<T>>): Box<T>
  {
    if ops == [] then Box([], false, false, max) else Do(BoxAfter(max, ops[..|ops| - 1]), ops[|ops| - 1]).0
  }

  /** The answer to op after the operations. */
  function AnswerTo<T>(max: nat, ops: seq<Op<T>>, op: Op<T>): Answer<T> { Do(BoxAfter(max, ops), op).1 }

  /** Everything that was accepted, in order. */
  function Accepted<T>(max: nat, ops: seq<Op<T>>): seq<T>
  {
    if ops == [] then []
    else
      var init, op := ops[..|ops| - 1], ops[|ops| - 1];
      Accepted(max, init) + if op.Put? && AnswerTo(max, init, op).result == SubmitAccepted then [op.msg] else []
  }

  /** Everything that was taken, in order. */
  function Taken<T>(max: nat, ops: seq<Op<T>>): seq<T>
  {
    if ops == [] then []
    else
      var init, op := ops[..|ops| - 1], ops[|ops| - 1];
      Taken(max, init) + if AnswerTo(max, init, op).Got? then AnswerTo(max, init, op).msgs else []
  }

  /** One operation moves messages from the queue to its caller, or into the queue. */
  lemma DoConserves<T>(b: Box<T>, op: Op<T>)
    ensures var (b', answer) := Do(b, op);
            && (if answer.Got? then answer.msgs else []) + b'.queue
               == b.queue + (if op.Put? && answer.result == SubmitAccepted then [op.msg] else [])
            && (|b.queue| <= b.max ==> |b'.queue| <= b.max) && b'.max == b.max && (b'.closed <==> b.closed || op == Shut)
  {
    match op
    case Take => if b.queue != [] { TakeDrop(b.queue, 1); }
    case TakeBatch(limit) => TakeDrop(b.queue, BatchSize(limit, |b.queue|));
    case _ =>
  }

  lemma Moved<T>(taken: seq<T>, queue: seq<T>, accepted: seq<T>, got: seq<T>, queue': seq<T>, put: seq<T>)
    requires taken + queue == accepted && got + queue' == queue + put
    ensures taken + got + queue' == accepted + put
  {
    assert taken + got + queue' == taken + (got + queue') == taken + (queue + put) == taken + queue + put;
  }

  /** What was taken and what is queued is what was accepted, and the queue keeps its bound. */
  lemma {:induction false} HistoryTells<T>(max: nat, ops: seq<Op<T>>)
    ensures var b := BoxAfter(max, ops);
            && Taken(max, ops) + b.queue == Accepted(max, ops) && |b.queue| <= max && b.max == max
            && (b.closed <==> Shut in ops)
  {
    if ops != [] {
      var init, op := ops[..|ops| - 1], ops[|ops| - 1];
      HistoryTells(max, init);
      assert ops == init + [op];
      var b, answer := BoxAfter(max, init), AnswerTo(max, init, op);
      DoConserves(b, op);
      Moved(Taken(max, init), b.queue, Accepted(max, init), if answer.Got? then answer.msgs else [], BoxAfter(max, ops).queue,
            if op.Put? && answer.result == SubmitAccepted then [op.msg] else []);
    }
  }

  /** The messages accepted and not yet taken. */
  function Unread<T>(max: nat, ops: seq<Op<T>>): (waiting: seq<T>)
  {
    var a, t := Accepted(max, ops), Taken(max, ops);
    if |t| <= |a| then a[|t|..] else []
  }

  /** The answer to every operation after every history: a message is refused just when the
      mailbox was shut, or when as many as its capacity are accepted and not yet taken; a
      dequeue gets the oldest of those, and a batch as many of them as it asks for. */
  lemma AnswersExact<T>(max: nat, ops: seq<Op<T>>, op: Op<T>)
    ensures var waiting, answer := Unread(max, ops), AnswerTo(max, ops, op);
            match op
            case Put(_) => answer == Told(if Shut in ops then SubmitRejectedStop
                                          else if |waiting| >= max then SubmitRejectedFull else SubmitAccepted)
            case Take => answer == Got(if waiting == [] then [] else [waiting[0]])
            case TakeBatch(limit) =>
              answer.Got? && answer.msgs <= waiting
              && |answer.msgs| == if |waiting| <= limit then |waiting| else if limit >= 1 then limit else Min(1, |waiting|)
            case _ => answer == Nothing
  {
    HistoryTells(max, ops);
    assert Accepted(max, ops)[|Taken(max, ops)|..] == BoxAfter(max, ops).queue;
  }

  /** A token comes just with a message put into an empty mailbox, or with a dequeue that takes
      something and leaves something; it goes just when it is taken. */
  lemma TokenExact<T>(max: nat, ops: seq<Op<T>>, op: Op<T>)
    ensures var waiting, answer := |Unread(max, ops)|, AnswerTo(max, ops, op);
            var before, after := BoxAfter(max, ops).token, BoxAfter(max, ops + [op]).token;
            && (after && !before <==>
                !before && ((answer == Told(SubmitAccepted) && waiting == 0) || (answer.Got? && 0 < |answer.msgs| < waiting)))
            && (before && !after <==> before && op == Wake)
  {
    HistoryTells(max, ops);
    assert Accepted(max, ops)[|Taken(max, ops)|..] == BoxAfter(max, ops).queue;
    assert (ops + [op])[..|ops|] == ops && (ops + [op])[|ops|] == op;
  }

  // --- the implementation ---

  class Mailbox<T(0)> {
    var data: array<T>  // backing array; the slice is data[..len]
    var len: nat
    var head: nat
    const max: nat
    const zero: T
    var notify: bool
    var closed: bool

    ghost predicate Valid()
      reads this, data
    {
      && max >= 1 && head <= len <= data.Length && len - head <= max
      && (head <= 64 || head < len - head)
      && (len == head ==> head == 0)
    }

    ghost function View(): Box<T>
      reads this, data
      requires Valid()
    {
      Box(data[head..len], notify, closed, max)
    }

    constructor (capacity: int, zero: T)
      ensures Valid() && fresh(data)
      ensures View() == Box([], false, false, if capacity <= 0 then 16 else capacity)
    {
      max := if capacity <= 0 then 16 else capacity;
      this.zero := zero;
      data := new T[if 0 < capacity < 16 then capacity else 16];
      len, head, notify, closed := 0, 0, false, false;
    }

    /** The backing slice never exceeds twice the capacity plus the compaction slack. */
    lemma StorageBound()
      requires Valid()
      ensures len <= 2 * max + 64
    {}

    method Signal()
      modifies this`notify
      ensures notify
    {
      notify := true;
    }

    /** Go's append: in place while there is room, otherwise into a larger array. */
    method Append(msg: T)
      requires head <= len <= data.Length
      modifies this`data, this`len, data
      ensures len == old(len) + 1 && head <= len <= data.Length
      ensures data[..len] == old(data[..len]) + [msg]
      ensures data == old(data) || fresh(data)
    {
      if len == data.Length {
        var bigger := new T[2 * len + 1];
        forall i | 0 <= i < len { bigger[i] := data[i]; }
        data := bigger;
        assert data[..len] == old(data[..len]);
      }
      data[len] := msg;
      len := len + 1;
    }

    method Enqueue(msg: T) returns (res: SubmitResult)
      requires Valid()
      modifies this, data
      ensures Valid() && (data == old(data) || fresh(data))
      ensures (View(), res) == EnqueueSpec(old(View()), msg)
    {
      if closed { return SubmitRejectedStop; }
      if len - head >= max { return SubmitRejectedFull; }
      var wasEmpty := len - head == 0;
      ghost var before := data[..len];
      Append(msg);
      assert data[head..len] == data[..len][head..] == before[head..] + [msg];
      assert before[head..] == old(data[head..len]);
      if wasEmpty { Signal(); }
      res := SubmitAccepted;
    }

    /** Shifts the live part to the front; the source lies behind the destination. */
    method Compact()
      requires head <= len <= data.Length
      modifies this`len, this`head, data
      ensures head == 0 && len == old(len - head)
      ensures data[..len] == old(data[head..len])
    {
      var remaining := len - head;
      ghost var live := data[head..len];
      var i := 0;
      while i < remaining
        invariant 0 <= i <= remaining
        invariant forall k :: 0 <= k < i ==> data[k] == live[k]
        invariant forall k :: i + head <= k < len ==> data[k] == live[k - head]
        modifies data
      {
        data[i] := data[i + head];
        i := i + 1;
      }
      len, head := remaining, 0;
      assert data[..len] == live;
    }

    /** The tail shared by both dequeues: n messages have been taken from the front. */
    method Advance(n: nat)
      requires Valid() && 1 <= n <= len - head
      modifies this`len, this`head, this`notify, data
      ensures Valid()
      ensures View() == old(View()).(queue := old(View()).queue[n..], token := old(notify) || old(View().queue[n..]) != [])
    {
      ghost var rest := data[head + n..len];
      assert rest == data[head..len][n..];
      for i := 0 to n
        invariant data[head + n..len] == rest
        modifies data
      {
        data[head + i] := zero;
      }
      head := head + n;
      if head >= len {
        len, head := 0, 0;
      } else if head > 64 && head * 2 >= len {
        Compact();
        assert data[head..len] == data[..len];
      }
      assert data[head..len] == rest;
      if len - head > 0 { Signal(); }
    }

    method Dequeue() returns (msg: Option<T>)
      requires Valid()
      modifies this`len, this`head, this`notify, data
      ensures Valid()
      ensures (View(), msg) == DequeueSpec(old(View()))
    {
      if len - head == 0 { return None; }
      msg := Some(data[head]);
      Advance(1);
    }

    method DequeueBatch(limit: int) returns (out: seq<T>)
      requires Valid()
      modifies this`len, this`head, this`notify, data
      ensures Valid()
      ensures (View(), out) == DequeueBatchSpec(old(View()), limit)
    {
      var n := if limit <= 0 then 1 else limit;
      var available := len - head;
      ghost var b := View();
      if available <= 0 {
        assert b.queue[0..] == b.queue == [];
        return [];
      }
      if n > available { n := available; }
      out := data[head..head + n];
      assert out == b.queue[..n];
      Advance(n);
    }

    method Depth() returns (d: nat)
      requires Valid()
      ensures d == |View().queue|
    {
      d := len - head;
    }

    method Close()
      requires Valid()
      modifies this`closed
      ensures Valid() && View() == old(View()).(closed := true)
    {
      closed := true;
    }
  }
}
