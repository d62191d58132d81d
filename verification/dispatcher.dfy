/** The command dispatcher thread (`Command` in src/f_fee_tui/workers.py):
    it takes commands off the queue one at a time, runs each on the DPU or
    configuration-manager proxy it names, and reconnects after a 10 s
    back-off when the proxies cannot connect. The proxies are functions
    given as inputs; cancellation is observed through a flag per check. */
module Dispatcher {
  import opened Wrappers
  import opened Messages
  import opened Commands
  import opened ClearableQueue

  /** The endpoints a command target can name. */
  datatype Endpoint = Dpu | ConfigurationManager

  /** Target routing: "DPU" and "CM_CS" select a proxy, anything else none. */
  function Route(target: string): (e: Option<Endpoint>)
    ensures e == Some(Dpu) <==> target == "DPU"
    ensures e == Some(ConfigurationManager) <==> target == "CM_CS"
    ensures e.None? <==> target != "DPU" && target != "CM_CS"
  {
    if target == "DPU" then Some(Dpu)
    else if target == "CM_CS" then Some(ConfigurationManager)
    else None
  }

  /** What calling `getattr(proxy, op)(*args, **kwargs)` does: return a
      value (given by its `repr`) or raise. */
  datatype CallResult = Returned(repr: string) | Raised(exc: Exception)

  /** A connected proxy. */
  type Proxy = (string, seq<Arg>, map<string, Arg>) -> CallResult

  datatype Proxies = Proxies(dpu: Proxy, cmCs: Proxy)

  function ProxyFor(p: Proxies, e: Endpoint): Proxy
  {
    match e
    case Dpu => p.dpu
    case ConfigurationManager => p.cmCs
  }

  /** The end of `execute_command`: a return value (`None` included) or an
      exception that escapes to the caller. */
  datatype Execution = Completed(rc: Option<string>) | Escaped(exc: Exception)

  /** `execute_command(target, command, args, kwargs)`. An AttributeError
      (no such operation on the proxy) is logged and turned into `None`. */
  function ExecuteCommand(p: Proxies, c: Command): (r: Execution)
    ensures Route(c.target).None? ==> r == Completed(None)
    ensures r.Escaped? ==> r.exc.cls != AttributeError && Route(c.target).Some?
    ensures Route(c.target).Some? ==>
      var call := ProxyFor(p, Route(c.target).value)(c.op, c.args, c.kwargs);
      && (r == Completed(None) <==> call.Raised? && call.exc.cls == AttributeError)
      && (call.Returned? ==> r == Completed(Some(call.repr)))
  {
    match Route(c.target)
    case None => Completed(None)
    case Some(e) =>
      match ProxyFor(p, e)(c.op, c.args, c.kwargs)
      case Returned(v) => Completed(Some(v))
      case Raised(exc) => if exc.cls == AttributeError then Completed(None) else Escaped(exc)
  }

  function ExecutingText(op: string): string
  {
    "Executing command '" + op + "'"
  }

  /** `f"Command '{command}' executed: {rc = }"`. */
  function ExecutedText(op: string, rc: Option<string>): string
  {
    "Command '" + op + "' executed: rc = " + (match rc case None => "None" case Some(v) => v)
  }

  /** The events for one command taken off the queue: a LogRetrieved before
      and after it runs, or an ExceptionCaught in place of the second when it
      raises. */
  function CommandEvents(p: Proxies, traceOf: Exception -> string, c: Command): (es: seq<Event>)
    ensures |es| == 2 && es[0] == LogRetrieved(ExecutingText(c.op))
    ensures es[1].LogRetrieved? <==> ExecuteCommand(p, c).Completed?
    ensures es[1].ExceptionCaught? <==> ExecuteCommand(p, c).Escaped?
  {
    match ExecuteCommand(p, c)
    case Completed(rc) => [LogRetrieved(ExecutingText(c.op)), LogRetrieved(ExecutedText(c.op, rc))]
    case Escaped(exc) => [LogRetrieved(ExecutingText(c.op)), ExceptionCaught(exc, traceOf(exc))]
  }

  // ----- the inner loop -------------------------------------------------------

  /** What one pass of the inner loop observes: the commands the
      presentation thread put since the last pass, and the cancel flag. */
  datatype Tick = Tick(arrivals: seq<Command>, cancelled: bool)

  /** The queue after a pass, the command taken off it (if any), the events
      posted, and whether the loop was left. */
  datatype Pass = Pass(queue: Queue<Command>, taken: seq<Command>, events: seq<Event>, stopped: bool)

  /** One pass of the inner `while True` loop. */
  function InnerStep(p: Proxies, traceOf: Exception -> string, q: Queue<Command>, t: Tick): (r: Pass)
    ensures |r.taken| <= 1
    ensures r.taken + r.queue.items == q.items + t.arrivals
    ensures r.stopped <==> t.cancelled
    ensures r.stopped ==> r.taken == [] && r.events == []
  {
    var q0 := PutAll(q, t.arrivals);
    if t.cancelled then Pass(q0, [], [], true)
    else
      match GetNoWait(q0)
      case None => Pass(q0, [], [], false)    // queue.Empty: sleep 0.1 s and go on
      case Some((c, q1)) =>
        match TaskDone(q1)
        case Failure(_) =>
          var exc := Exception(ValueError, "task_done() called too many times");
          Pass(q1, [c], [ExceptionCaught(exc, traceOf(exc))], false)
        case Success(q2) => Pass(q2, [c], CommandEvents(p, traceOf, c), false)
  }

  /** On a balanced queue a pass keeps the queue balanced, and a command
      taken off yields exactly its two events; an empty queue yields none. */
  lemma InnerStepBalanced(p: Proxies, traceOf: Exception -> string, q: Queue<Command>, t: Tick)
    requires Balanced(q)
    ensures Balanced(InnerStep(p, traceOf, q, t).queue)
    ensures InnerStep(p, traceOf, q, t).events ==
      if InnerStep(p, traceOf, q, t).taken == [] then [] else CommandEvents(p, traceOf, InnerStep(p, traceOf, q, t).taken[0])
  {
  }

  /** All commands put over a sequence of passes, in order. */
  function Arrivals(ticks: seq<Tick>): seq<Command>
    decreases |ticks|
  {
    if |ticks| == 0 then [] else ticks[0].arrivals + Arrivals(ticks[1..])
  }

  /** The concatenated events of a sequence of commands. */
  function AllCommandEvents(p: Proxies, traceOf: Exception -> string, cs: seq<Command>): seq<Event>
    decreases |cs|
  {
    if |cs| == 0 then [] else CommandEvents(p, traceOf, cs[0]) + AllCommandEvents(p, traceOf, cs[1..])
  }

  /** Some pass sees the cancel flag. */
  predicate SomeCancelled(ticks: seq<Tick>)
  {
    exists i :: 0 <= i < |ticks| && ticks[i].cancelled
  }

  /** The inner loop over a sequence of passes, until cancellation. */
  function InnerRun(p: Proxies, traceOf: Exception -> string, q: Queue<Command>, ticks: seq<Tick>): (r: Pass)
    ensures r.stopped <==> SomeCancelled(ticks)
    decreases |ticks|
  {
    if |ticks| == 0 then Pass(q, [], [], false)
    else
      var a := InnerStep(p, traceOf, q, ticks[0]);
      if a.stopped then a
      else
        var b := InnerRun(p, traceOf, a.queue, ticks[1..]);
        assert SomeCancelled(ticks) <==> SomeCancelled(ticks[1..]) by {
          if SomeCancelled(ticks) {
            var i :| 0 <= i < |ticks| && ticks[i].cancelled;
            assert ticks[1..][i - 1] == ticks[i];
          }
          if SomeCancelled(ticks[1..]) {
            var i :| 0 <= i < |ticks| - 1 && ticks[1..][i].cancelled;
            assert ticks[i + 1] == ticks[1..][i];
          }
        }
        Pass(b.queue, a.taken + b.taken, a.events + b.events, b.stopped)
  }

  /** FIFO: the commands are taken off in exactly the order they were
      queued, none skipped, and what is not taken is still queued behind
      them; when the loop is not cancelled everything put is accounted for. */
  lemma {:induction false} InnerRunFifo(p: Proxies, traceOf: Exception -> string, q: Queue<Command>, ticks: seq<Tick>)
    ensures var r := InnerRun(p, traceOf, q, ticks);
      r.taken + r.queue.items <= q.items + Arrivals(ticks)
    ensures var r := InnerRun(p, traceOf, q, ticks);
      !r.stopped ==> r.taken + r.queue.items == q.items + Arrivals(ticks)
    decreases |ticks|
  {
    if |ticks| > 0 {
      var a := InnerStep(p, traceOf, q, ticks[0]);
      var rest := Arrivals(ticks[1..]);
      assert Arrivals(ticks) == ticks[0].arrivals + rest;
      if a.stopped {
        StoppedPrefix(a.taken + a.queue.items, q.items, ticks[0].arrivals, rest);
      } else {
        var b := InnerRun(p, traceOf, a.queue, ticks[1..]);
        InnerRunFifo(p, traceOf, a.queue, ticks[1..]);
        StepPrefix(a.taken, a.queue.items, b.taken, b.queue.items, q.items, ticks[0].arrivals, rest, !b.stopped);
      }
    }
  }

  /** A stopped pass accounts for what was queued and put in it, a prefix
      of everything put over the run. */
  lemma StoppedPrefix<T>(x: seq<T>, qi: seq<T>, a0: seq<T>, rest: seq<T>)
    requires x == qi + a0
    ensures x <= qi + (a0 + rest)
  {
    assert qi + (a0 + rest) == x + rest;
  }

  /** Chaining one pass with the passes after it. */
  lemma StepPrefix<T>(at: seq<T>, aq: seq<T>, bt: seq<T>, bq: seq<T>, qi: seq<T>, a0: seq<T>, rest: seq<T>, whole: bool)
    requires at + aq == qi + a0
    requires bt + bq <= aq + rest
    requires whole ==> bt + bq == aq + rest
    ensures (at + bt) + bq <= qi + (a0 + rest)
    ensures whole ==> (at + bt) + bq == qi + (a0 + rest)
  {
    calc {
      qi + (a0 + rest);
      (qi + a0) + rest;
      (at + aq) + rest;
      at + (aq + rest);
    }
    assert (at + bt) + bq == at + (bt + bq);
  }

  /** On a balanced queue each command taken off yields exactly its two
      events, in the order the commands were taken, and the queue stays
      balanced. */
  lemma {:induction false} InnerRunEvents(p: Proxies, traceOf: Exception -> string, q: Queue<Command>, ticks: seq<Tick>)
    requires Balanced(q)
    ensures Balanced(InnerRun(p, traceOf, q, ticks).queue)
    ensures InnerRun(p, traceOf, q, ticks).events ==
      AllCommandEvents(p, traceOf, InnerRun(p, traceOf, q, ticks).taken)
    decreases |ticks|
  {
    if |ticks| > 0 {
      var a := InnerStep(p, traceOf, q, ticks[0]);
      InnerStepBalanced(p, traceOf, q, ticks[0]);
      if !a.stopped {
        InnerRunEvents(p, traceOf, a.queue, ticks[1..]);
        var b := InnerRun(p, traceOf, a.queue, ticks[1..]);
        AllCommandEventsAppend(p, traceOf, a.taken, b.taken);
        if a.taken != [] {
          assert AllCommandEvents(p, traceOf, a.taken) == CommandEvents(p, traceOf, a.taken[0]) + [];
        }
      }
    }
  }

  /** Passes in which nothing new is put and the flag stays clear. */
  predicate Quiet(ticks: seq<Tick>)
  {
    forall i :: 0 <= i < |ticks| ==> ticks[i].arrivals == [] && !ticks[i].cancelled
  }

  /** Without new commands or a cancel, each pass takes the oldest pending
      command off a balanced queue until none is left: the loop never stops,
      and after n passes the first min(n, pending) commands are taken and
      the rest are still queued. */
  lemma {:induction false} InnerRunQuiet(p: Proxies, traceOf: Exception -> string, q: Queue<Command>, ticks: seq<Tick>)
    requires Balanced(q) && Quiet(ticks)
    ensures var r := InnerRun(p, traceOf, q, ticks);
      && !r.stopped
      && r.taken + r.queue.items == q.items
      && |r.taken| == if |ticks| < |q.items| then |ticks| else |q.items|
    decreases |ticks|
  {
    if |ticks| > 0 {
      var a := InnerStep(p, traceOf, q, ticks[0]);
      assert q.items + ticks[0].arrivals == q.items;
      InnerStepBalanced(p, traceOf, q, ticks[0]);
      assert Quiet(ticks[1..]) by {
        forall i | 0 <= i < |ticks| - 1 ensures ticks[1..][i].arrivals == [] && !ticks[1..][i].cancelled {
          assert ticks[1..][i] == ticks[i + 1];
        }
      }
      InnerRunQuiet(p, traceOf, a.queue, ticks[1..]);
      var b := InnerRun(p, traceOf, a.queue, ticks[1..]);
      assert (a.taken + b.taken) + b.queue.items == a.taken + (b.taken + b.queue.items);
    }
  }

  lemma {:induction false} AllCommandEventsAppend(p: Proxies, traceOf: Exception -> string, a: seq<Command>, b: seq<Command>)
    ensures AllCommandEvents(p, traceOf, a + b) == AllCommandEvents(p, traceOf, a) + AllCommandEvents(p, traceOf, b)
    decreases |a|
  {
    if |a| > 0 {
      assert (a + b)[0] == a[0];
      assert (a + b)[1..] == a[1..] + b;
      AllCommandEventsAppend(p, traceOf, a[1..], b);
    } else {
      assert a + b == b;
    }
  }

  // ----- the back-off ---------------------------------------------------------

  /** `int(10.0 * 10)`: the checks of `sleep_or_break(10.0)`. */
  const BackoffChecks: int := 100

  /** The first check in [from, n) that sees the cancel flag set, or n when
      none does (n below `from` counts as `from`). */
  function FirstSet(cancelledAt: nat -> bool, from: nat, n: int): (k: nat)
    ensures from <= k && (k <= n || k == from)
    ensures forall j :: from <= j < k ==> !cancelledAt(j)
    ensures k < n ==> cancelledAt(k)
    decreases n - from
  {
    if n <= from then from
    else if cancelledAt(from) then from
    else FirstSet(cancelledAt, from + 1, n)
  }

  /** `sleep_or_break(timeout)` with `checks = int(timeout * 10)`: before
      each 0.1 s sleep look at the cancel flag; return True as soon as it is
      set, False after all checks. Also returns the number of sleeps taken. */
  method SleepOrBreak(checks: int, cancelledAt: nat -> bool) returns (cancelled: bool, sleeps: nat)
    ensures cancelled <==> exists k :: 0 <= k < checks && cancelledAt(k)
    ensures cancelled ==> sleeps < checks && cancelledAt(sleeps)
    ensures !cancelled ==> sleeps == (if checks < 0 then 0 else checks)
    ensures forall j :: 0 <= j < sleeps ==> !cancelledAt(j)
    ensures sleeps == FirstSet(cancelledAt, 0, checks)
  {
    sleeps := 0;
    cancelled := false;
    while sleeps < checks
      invariant 0 <= sleeps && (checks >= 0 ==> sleeps <= checks)
      invariant forall j :: 0 <= j < sleeps ==> !cancelledAt(j)
      invariant FirstSet(cancelledAt, 0, checks) == FirstSet(cancelledAt, sleeps, checks)
      decreases checks - sleeps
    {
      if cancelledAt(sleeps) {
        cancelled := true;
        return;
      }
      sleeps := sleeps + 1;
    }
  }

  // ----- the outer loop -------------------------------------------------------

  /** Entering `with FastCameraDPUProxy() ..., ConfigurationManagerProxy() ...`. */
  datatype Connection = Connected | ConnectFailed(exc: Exception)

  /** One round of the outer loop: the connection attempt, the inner
      passes while connected, and the cancel flag at each back-off check. */
  datatype Round = Round(connection: Connection, ticks: seq<Tick>, cancelledAt: nat -> bool)

  /** How a round ends. */
  datatype Next =
    | Retry            // back-off finished without cancellation: connect again
    | Finished         // cancellation observed: `run` returns
    | Died(exc: Exception)  // a non-ConnectionError escaped `run`: the thread ends
    | StillRunning     // the inner loop is still serving commands

  datatype RoundResult = RoundResult(queue: Queue<Command>, taken: seq<Command>, events: seq<Event>, next: Next, backoffSleeps: nat)

  /** One round of the outer `while True` loop of `Command.run`. */
  function RunRound(p: Proxies, traceOf: Exception -> string, q: Queue<Command>, r: Round): (res: RoundResult)
    ensures res.backoffSleeps <= BackoffChecks
  {
    match r.connection
    case ConnectFailed(exc) =>
      if exc.cls != ConnectionError then RoundResult(q, [], [], Died(exc), 0)
      else
        var k := FirstSet(r.cancelledAt, 0, BackoffChecks);
        RoundResult(q, [], [CommandThreadCrashed(exc)], if k < BackoffChecks then Finished else Retry, k)
    case Connected =>
      var inner := InnerRun(p, traceOf, q, r.ticks);
      // the flag stays set, so the following sleep_or_break(10.0) returns
      // True at its first check
      RoundResult(inner.queue, inner.taken, inner.events, if inner.stopped then Finished else StillRunning, 0)
  }

  /** A connection failure posts one CommandThreadCrashed and waits out the
      10 s back-off, unless cancellation is seen at one of its 100 checks:
      then the thread ends after only as many 0.1 s sleeps as checks passed. */
  lemma ConnectionFailureBackoff(p: Proxies, traceOf: Exception -> string, q: Queue<Command>, r: Round)
    requires r.connection.ConnectFailed? && r.connection.exc.cls == ConnectionError
    ensures RunRound(p, traceOf, q, r).events == [CommandThreadCrashed(r.connection.exc)]
    ensures RunRound(p, traceOf, q, r).queue == q
    ensures RunRound(p, traceOf, q, r).next == Finished <==>
      exists k :: 0 <= k < BackoffChecks && r.cancelledAt(k)
    ensures RunRound(p, traceOf, q, r).next == Retry <==>
      forall k :: 0 <= k < BackoffChecks ==> !r.cancelledAt(k)
    ensures RunRound(p, traceOf, q, r).next == Finished ==>
      r.cancelledAt(RunRound(p, traceOf, q, r).backoffSleeps)
    ensures RunRound(p, traceOf, q, r).next == Retry ==> RunRound(p, traceOf, q, r).backoffSleeps == BackoffChecks
  {
    var k := FirstSet(r.cancelledAt, 0, BackoffChecks);
    if k == BackoffChecks {
      assert forall j :: 0 <= j < BackoffChecks ==> !r.cancelledAt(j);
    }
  }
}
