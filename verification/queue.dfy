/** The command queue: Python's `queue.Queue` as the core uses it, and the
    drain-on-shutdown `clear` added by `ClearableQueue` (src/f_fee_tui/_queue.py). */
module ClearableQueue {
  import opened Wrappers

  /** A queue's pending items, oldest first, and its `unfinished_tasks`
      counter, which `put` increments and `task_done` decrements. */
  datatype Queue<T> = Queue(items: seq<T>, unfinished: nat)

  /** A freshly constructed queue. */
  function EmptyQueue<T>(): (q: Queue<T>)
    ensures q.items == [] && Balanced(q) && JoinReturns(q)
  {
    Queue([], 0)
  }

  /** Every pending item is an unfinished task and nothing else is: the
      state a queue is in when each consumer calls `task_done` right after
      `get`, as the dispatcher does. */
  predicate Balanced<T>(q: Queue<T>)
  {
    q.unfinished == |q.items|
  }

  /** `join()` returns only once every task is done. */
  predicate JoinReturns<T>(q: Queue<T>)
  {
    q.unfinished == 0
  }

  /** `put_nowait(x)` on an unbounded queue. */
  function Put<T>(q: Queue<T>, x: T): (q': Queue<T>)
    ensures q'.items == q.items + [x]
    ensures q'.unfinished == q.unfinished + 1
    ensures Balanced(q) ==> Balanced(q')
  {
    Queue(q.items + [x], q.unfinished + 1)
  }

  /** Putting several items in order, as several `put_nowait` calls do. */
  function PutAll<T>(q: Queue<T>, xs: seq<T>): (q': Queue<T>)
    ensures q'.items == q.items + xs
    ensures q'.unfinished == q.unfinished + |xs|
    ensures Balanced(q) ==> Balanced(q')
    decreases |xs|
  {
    if |xs| == 0 then q
    else
      var q1 := PutAll(Put(q, xs[0]), xs[1..]);
      assert q.items + [xs[0]] + xs[1..] == q.items + xs;
      q1
  }

  /** `get_nowait()`: the oldest item and the rest of the queue, or `None`
      for the `queue.Empty` exception. The unfinished count is untouched. */
  function GetNoWait<T>(q: Queue<T>): (r: Option<(T, Queue<T>)>)
    ensures r.None? <==> q.items == []
    ensures r.Some? ==> [r.value.0] + r.value.1.items == q.items
    ensures r.Some? ==> r.value.1.unfinished == q.unfinished
  {
    if q.items == [] then None else Some((q.items[0], Queue(q.items[1..], q.unfinished)))
  }

  /** `task_done()`: `Failure` stands for the ValueError raised when it is
      called more times than there were items put. */
  function TaskDone<T>(q: Queue<T>): (r: Result<Queue<T>, ()>)
    ensures r.Failure? <==> q.unfinished == 0
    ensures r.Success? ==> r.value.items == q.items && r.value.unfinished + 1 == q.unfinished
  {
    if q.unfinished == 0 then Failure(()) else Success(Queue(q.items, q.unfinished - 1))
  }

  /** The end of `clear()`: it either returns, having printed a report of
      the drained items (`str()` of each, in queue order), or lets the
      ValueError of a surplus `task_done` escape. */
  datatype ClearOutcome<T> =
    | Cleared(queue: Queue<T>, drained: seq<string>)
    | TaskDoneRaised(queue: Queue<T>)

  /** The lines `clear()` prints: nothing for an empty drain, otherwise a
      header followed by the drained items joined by newlines. */
  function Report(drained: seq<string>): seq<string>
  {
    if drained == [] then [] else ["Queue not empty at exit:", JoinLines(drained)]
  }

  /** `"\n".join(lines)`. */
  function JoinLines(lines: seq<string>): string
    decreases |lines|
  {
    if |lines| == 0 then ""
    else if |lines| == 1 then lines[0]
    else lines[0] + "\n" + JoinLines(lines[1..])
  }

  /** Joining lines that hold no newline of their own puts exactly one
      newline between each two of them, so the report can be split back into
      one line per drained item. */
  lemma {:induction false} JoinLinesNewlines(lines: seq<string>)
    requires |lines| >= 1
    requires forall i :: 0 <= i < |lines| ==> multiset(lines[i])['\n'] == 0
    ensures multiset(JoinLines(lines))['\n'] == |lines| - 1
    decreases |lines|
  {
    if |lines| > 1 {
      JoinLinesNewlines(lines[1..]);
      assert multiset(lines[0] + "\n" + JoinLines(lines[1..]))
          == multiset(lines[0]) + multiset("\n") + multiset(JoinLines(lines[1..]));
    }
  }

  /** What `clear()` prints once it returns: nothing exactly when the queue
      held no item, and otherwise the header followed by the drained items,
      one line each when their `str()` is a single line. */
  lemma ClearReport<T>(q: Queue<T>, show: T -> string)
    requires Drain(q, show).Cleared?
    ensures Report(Drain(q, show).drained) == [] <==> q.items == []
    ensures q.items != [] ==>
      && |Report(Drain(q, show).drained)| == 2
      && Report(Drain(q, show).drained)[0] == "Queue not empty at exit:"
      && ((forall i :: 0 <= i < |q.items| ==> multiset(show(q.items[i]))['\n'] == 0) ==>
            multiset(Report(Drain(q, show).drained)[1])['\n'] == |q.items| - 1)
  {
    DrainOutcome(q, show);
    var d := Drain(q, show).drained;
    if q.items != [] && forall i :: 0 <= i < |q.items| ==> multiset(show(q.items[i]))['\n'] == 0 {
      JoinLinesNewlines(d);
    }
  }

  /** `clear()` as a recursive definition: get one item, record it, mark it
      done, and go on until the queue reports Empty. */
  function Drain<T>(q: Queue<T>, show: T -> string): (r: ClearOutcome<T>)
    ensures |r.queue.items| <= |q.items|
    ensures r.Cleared? ==> r.queue.items == [] && |r.drained| == |q.items|
    ensures r.TaskDoneRaised? ==> JoinReturns(r.queue) && |r.queue.items| < |q.items|
    decreases |q.items|
  {
    match GetNoWait(q)
    case None => Cleared(q, [])
    case Some((x, rest)) =>
      match TaskDone(rest)
      case Failure(_) => TaskDoneRaised(rest)
      case Success(q2) =>
        match Drain(q2, show)
        case Cleared(q3, msgs) => Cleared(q3, [show(x)] + msgs)
        case TaskDoneRaised(q3) => TaskDoneRaised(q3)
  }

  /** What `Drain` leaves behind: every item drained in FIFO order with one
      `task_done` each when there are enough unfinished tasks, otherwise the
      ValueError after exactly `unfinished + 1` items were taken off. */
  lemma {:induction false} DrainOutcome<T>(q: Queue<T>, show: T -> string)
    ensures Drain(q, show).Cleared? <==> |q.items| <= q.unfinished
    ensures Drain(q, show).Cleared? ==>
      && Drain(q, show).queue == Queue([], q.unfinished - |q.items|)
      && |Drain(q, show).drained| == |q.items|
      && forall i :: 0 <= i < |q.items| ==> Drain(q, show).drained[i] == show(q.items[i])
    ensures Drain(q, show).TaskDoneRaised? ==>
      Drain(q, show).queue == Queue(q.items[q.unfinished + 1..], 0)
    decreases |q.items|
  {
    if q.items != [] && q.unfinished > 0 {
      var rest := Queue(q.items[1..], q.unfinished - 1);
      DrainOutcome(rest, show);
      if q.unfinished + 1 <= |q.items| {
        assert q.items[1..][rest.unfinished + 1..] == q.items[q.unfinished + 1..];
      }
    }
  }

  /** Clearing a queue that is already empty returns it unchanged with no
      report, so clearing twice is clearing once. */
  lemma ClearTwiceIsClearOnce<T>(q: Queue<T>, show: T -> string)
    requires Drain(q, show).Cleared?
    ensures Drain(Drain(q, show).queue, show) == Cleared(Drain(q, show).queue, [])
  {
    DrainOutcome(q, show);
  }

  /** On a balanced queue `clear()` always returns, leaves no unfinished
      task behind, and so a following `join()` returns at once. */
  lemma ClearBalanced<T>(q: Queue<T>, show: T -> string)
    requires Balanced(q)
    ensures Drain(q, show).Cleared?
    ensures JoinReturns(Drain(q, show).queue) && Drain(q, show).queue.items == []
  {
    DrainOutcome(q, show);
  }

  /** `ClearableQueue.clear()`: the drain loop that calls `get_nowait` until
      `queue.Empty`, calling `task_done` after each item. */
  method Clear<T>(q: Queue<T>, show: T -> string) returns (r: ClearOutcome<T>)
    ensures r.Cleared? <==> |q.items| <= q.unfinished
    ensures r.Cleared? ==> r.queue.items == [] && r.queue.unfinished == q.unfinished - |q.items|
    ensures r.Cleared? ==> |r.drained| == |q.items|
    ensures r.Cleared? ==> forall i :: 0 <= i < |q.items| ==> r.drained[i] == show(q.items[i])
    ensures r.TaskDoneRaised? ==> r.queue == Queue(q.items[q.unfinished + 1..], 0)
    ensures q.items == [] ==> r == Cleared(q, [])
    ensures r == Drain(q, show)
  {
    var cur := q;
    var msg: seq<string> := [];
    ghost var done := 0;
    PrefixDrainEmpty(Drain(q, show));
    while true
      invariant 0 <= done <= |q.items| && done <= q.unfinished
      invariant cur == Queue(q.items[done..], q.unfinished - done)
      invariant Drain(q, show) == PrefixDrain(msg, Drain(cur, show))
      decreases |cur.items|
    {
      match GetNoWait(cur)
      case None =>
        DrainEmptyTail(msg, cur, show);
        r := Cleared(cur, msg);
        DrainOutcome(q, show);
        return;
      case Some((x, rest)) =>
        match TaskDone(rest)
        case Failure(_) =>
          r := TaskDoneRaised(rest);
          DrainOutcome(q, show);
          return;
        case Success(q2) =>
          DrainTake(msg, cur, show);
          msg := msg + [show(x)];
          cur := q2;
          done := done + 1;
    }
  }

  /** The outcome of draining a queue after some messages were recorded. */
  function PrefixDrain<T>(msgs: seq<string>, tail: ClearOutcome<T>): ClearOutcome<T>
  {
    match tail
    case Cleared(q, rest) => Cleared(q, msgs + rest)
    case TaskDoneRaised(q) => TaskDoneRaised(q)
  }

  lemma PrefixDrainEmpty<T>(tail: ClearOutcome<T>)
    ensures PrefixDrain([], tail) == tail
  {
    if tail.Cleared? {
      assert [] + tail.drained == tail.drained;
    }
  }

  /** The loop's exit on `queue.Empty`: what was recorded is the report. */
  lemma DrainEmptyTail<T>(msgs: seq<string>, cur: Queue<T>, show: T -> string)
    requires cur.items == []
    ensures PrefixDrain(msgs, Drain(cur, show)) == Cleared(cur, msgs)
  {
    assert msgs + [] == msgs;
  }

  /** One turn of the loop: taking an item and marking it done moves its
      line from the rest of the drain to the recorded report. */
  lemma DrainTake<T>(msgs: seq<string>, cur: Queue<T>, show: T -> string)
    requires cur.items != [] && cur.unfinished > 0
    ensures PrefixDrain(msgs, Drain(cur, show))
         == PrefixDrain(msgs + [show(cur.items[0])], Drain(Queue(cur.items[1..], cur.unfinished - 1), show))
  {
    var tail := Drain(Queue(cur.items[1..], cur.unfinished - 1), show);
    if tail.Cleared? {
      assert msgs + ([show(cur.items[0])] + tail.drained) == (msgs + [show(cur.items[0])]) + tail.drained;
    }
  }
}
