/** The bookkeeping of `poll_services` on the main screen
    (src/f_fee_tui/_master_screen.py): per service, whether a message
    arrived in this cycle, when one last did, and whether the service is
    flagged as timed out. The sockets and the poller are replaced by what
    each service's socket gives in a cycle. */
module Polling {
  import opened Wrappers
  import opened Services

  /** What the loop does besides updating the table: call the service's
      callback (`log_message`) with the sync id and the timed-out flag, and
      set the service's light on the info bar. */
  datatype Effect =
    | Callback(service: Service, syncId: Option<nat>, timedOut: bool)
    | SetActive(service: Service, active: bool)

  /** What a service's socket gave in a cycle: nothing, a message with its
      sync id, or a message whose decoding raised (see `Services.Receive`). */
  datatype Arrival = Silent | Heard(syncId: nat) | Undecodable

  /** The arrival a completed receive hands the loop. */
  function ArrivalOf<P, E>(r: Result<Received<P>, E>): (a: Arrival)
    ensures a.Undecodable? <==> r.Failure?
    ensures a.Heard? ==> a.syncId == r.value.id
  {
    match r
    case Success(m) => Heard(m.id)
    case Failure(_) => Undecodable
  }

  /** One service in one cycle: the entry afterwards, the effects, whether
      the info bar lookup raised NoMatches, which ends the cycle, and
      whether an exception escaped the loop, which ends `poll_services`. */
  datatype Outcome = Outcome(entry: Entry, effects: seq<Effect>, aborted: bool, raised: bool)

  /** Whether a service that sent nothing is overdue: more than `interval`
      seconds since its last message (`now` in tenths of a second). */
  predicate Overdue(e: Entry, now: int)
  {
    now - e.lastReceived > e.interval * 10
  }

  /** The loop body for one service. `arrived` is what its socket gave in
      this cycle; `mounted` is whether the info bar can be found, without
      which `query_one` raises NoMatches right after the callback. The
      `UnpicklingError` of an undecodable message is not caught by the
      loop's `try`, which catches NoMatches only. */
  function PollOne(e: Entry, now: int, arrived: Arrival, mounted: bool): (o: Outcome)
    ensures o.entry.service == e.service && o.entry.interval == e.interval
    ensures o.aborted ==> !mounted
    ensures o.raised <==> arrived.Undecodable?
    ensures o.raised ==> o.entry == e && o.effects == [] && !o.aborted
  {
    match arrived
    case Undecodable => Outcome(e, [], false, true)
    case Heard(id) =>
      if mounted then
        Outcome(e.(lastReceived := now, timedOut := false),
                [Callback(e.service, Some(id), false), SetActive(e.service, false)], false, false)
      else
        Outcome(e, [Callback(e.service, Some(id), false)], true, false)
    case Silent =>
      if !e.timedOut && Overdue(e, now) then
        if mounted then
          Outcome(e.(timedOut := true), [Callback(e.service, None, true), SetActive(e.service, true)], false, false)
        else
          Outcome(e.(timedOut := true), [Callback(e.service, None, true)], true, false)
      else
        Outcome(e, [], false, false)
  }

  /** The effects that report a time-out. */
  function Timeouts(effects: seq<Effect>): (n: nat)
    ensures n <= |effects|
  {
    if effects == [] then 0
    else (if effects[0].Callback? && effects[0].timedOut then 1 else 0) + Timeouts(effects[1..])
  }

  lemma {:induction false} TimeoutsAppend(a: seq<Effect>, b: seq<Effect>)
    ensures Timeouts(a + b) == Timeouts(a) + Timeouts(b)
  {
    if a == [] {
      assert a + b == b;
    } else {
      assert (a + b)[0] == a[0];
      assert (a + b)[1..] == a[1..] + b;
      TimeoutsAppend(a[1..], b);
    }
  }

  /** With the info bar present: a message sets the last-received time to
      now and clears the flag; without one, the service is flagged, with
      one time-out callback, exactly when it is not flagged yet and
      overdue; otherwise nothing happens. */
  lemma PollOneMounted(e: Entry, now: int, arrived: Arrival)
    ensures var o := PollOne(e, now, arrived, true);
      && !o.aborted
      && (arrived.Heard? ==>
            o.entry.lastReceived == now && !o.entry.timedOut
            && o.effects == [Callback(e.service, Some(arrived.syncId), false), SetActive(e.service, false)])
      && (arrived.Silent? ==> o.entry.lastReceived == e.lastReceived)
      && (arrived.Silent? ==> (o.entry.timedOut <==> e.timedOut || Overdue(e, now)))
      && (Timeouts(o.effects) == 1 <==> arrived.Silent? && !e.timedOut && Overdue(e, now))
      && (Timeouts(o.effects) == 0 <==> !(arrived.Silent? && !e.timedOut && Overdue(e, now)))
  {
    var o := PollOne(e, now, arrived, true);
    assert Timeouts([SetActive(e.service, false)]) == 0;
    assert Timeouts([SetActive(e.service, true)]) == 0;
  }

  /** Without the info bar the callback still runs, but the entry keeps
      its last-received time; a message does not clear the flag, while a
      new time-out is flagged before the lookup fails. */
  lemma PollOneUnmounted(e: Entry, now: int, arrived: Arrival)
    ensures var o := PollOne(e, now, arrived, false);
      && o.entry.lastReceived == e.lastReceived
      && (arrived.Heard? ==> o.aborted && o.entry == e)
      && (o.aborted <==> arrived.Heard? || (arrived.Silent? && !e.timedOut && Overdue(e, now)))
      && (o.aborted ==> |o.effects| == 1 && o.effects[0].Callback?)
  {
  }

  /** One cycle of `poll_services` over the table, in table order.
      `arrivals[i]` is what the i-th service's socket gave. A NoMatches ends
      the pass over the table and is swallowed; an undecodable message ends
      `poll_services` itself (the third component). Either way the later
      services are left untouched. */
  function Cycle(entries: seq<Entry>, now: int, arrivals: seq<Arrival>, mounted: bool): (r: (seq<Entry>, seq<Effect>, bool))
    requires |arrivals| == |entries|
    ensures |r.0| == |entries|
    decreases |entries|
  {
    if entries == [] then ([], [], false)
    else
      var o := PollOne(entries[0], now, arrivals[0], mounted);
      if o.aborted || o.raised then ([o.entry] + entries[1..], o.effects, o.raised)
      else
        var rest := Cycle(entries[1..], now, arrivals[1..], mounted);
        ([o.entry] + rest.0, o.effects + rest.1, rest.2)
  }

  /** No message before index `k` failed to decode. */
  predicate DecodedBefore(arrivals: seq<Arrival>, k: int)
    requires k <= |arrivals|
  {
    forall j :: 0 <= j < k ==> !arrivals[j].Undecodable?
  }

  /** With the info bar present, a cycle treats every service on its own up
      to the first undecodable message: each entry before it is updated as
      `PollOne` says, and `poll_services` ends exactly when there is one. */
  lemma {:induction false} CycleMounted(entries: seq<Entry>, now: int, arrivals: seq<Arrival>)
    requires |arrivals| == |entries|
    ensures forall i :: 0 <= i < |entries| && DecodedBefore(arrivals, i) ==>
      Cycle(entries, now, arrivals, true).0[i] == PollOne(entries[i], now, arrivals[i], true).entry
    ensures Cycle(entries, now, arrivals, true).2 <==> !DecodedBefore(arrivals, |arrivals|)
    decreases |entries|
  {
    if entries != [] {
      CycleMounted(entries[1..], now, arrivals[1..]);
      var r := Cycle(entries, now, arrivals, true);
      var rest := Cycle(entries[1..], now, arrivals[1..], true);
      forall i | 0 <= i < |entries| && DecodedBefore(arrivals, i)
        ensures r.0[i] == PollOne(entries[i], now, arrivals[i], true).entry
      {
        if i > 0 {
          assert !arrivals[0].Undecodable?;
          assert DecodedBefore(arrivals[1..], i - 1) by {
            forall j | 0 <= j < i - 1 ensures !arrivals[1..][j].Undecodable? {
              assert arrivals[1..][j] == arrivals[j + 1];
            }
          }
          assert r.0[i] == rest.0[i - 1];
        }
      }
      if !arrivals[0].Undecodable? {
        if !DecodedBefore(arrivals, |arrivals|) {
          var j :| 0 <= j < |arrivals| && arrivals[j].Undecodable?;
          assert arrivals[1..][j - 1] == arrivals[j];
        }
        if !DecodedBefore(arrivals[1..], |arrivals| - 1) {
          var j :| 0 <= j < |arrivals| - 1 && arrivals[1..][j].Undecodable?;
          assert arrivals[j + 1] == arrivals[1..][j];
        }
      }
    }
  }

  /** Once one service ends the pass, by a missing info bar or by an
      undecodable message, every service after it is left as it was, and
      `poll_services` ends exactly when that service's message did not
      decode. */
  lemma {:induction false} CycleStops(entries: seq<Entry>, now: int, arrivals: seq<Arrival>, mounted: bool, k: nat)
    requires |arrivals| == |entries| && k < |entries|
    requires PollOne(entries[k], now, arrivals[k], mounted).aborted || arrivals[k].Undecodable?
    requires forall i :: 0 <= i < k ==>
      !PollOne(entries[i], now, arrivals[i], mounted).aborted && !arrivals[i].Undecodable?
    ensures forall i :: k < i < |entries| ==> Cycle(entries, now, arrivals, mounted).0[i] == entries[i]
    ensures Cycle(entries, now, arrivals, mounted).2 <==> arrivals[k].Undecodable?
    decreases k
  {
    var r := Cycle(entries, now, arrivals, mounted);
    if k > 0 {
      CycleStops(entries[1..], now, arrivals[1..], mounted, k - 1);
      var rest := Cycle(entries[1..], now, arrivals[1..], mounted);
      forall i | k < i < |entries| ensures r.0[i] == entries[i] {
        assert r.0[i] == rest.0[i - 1];
      }
    }
  }

  /** One service over a run of cycles with the info bar present, given the
      time and the arrival of each cycle. */
  function Run(e: Entry, cycles: seq<(int, Arrival)>): (r: (Entry, seq<Effect>))
    ensures r.0.service == e.service
    decreases |cycles|
  {
    if cycles == [] then (e, [])
    else
      var o := PollOne(e, cycles[0].0, cycles[0].1, true);
      if o.raised then (o.entry, o.effects)
      else
        var rest := Run(o.entry, cycles[1..]);
        (rest.0, o.effects + rest.1)
  }

  /** An undecodable message ends the run: the cycles after it change
      nothing and report nothing. */
  lemma {:induction false} UndecodableEndsRun(e: Entry, cycles: seq<(int, Arrival)>, k: nat)
    requires k < |cycles| && cycles[k].1.Undecodable?
    ensures Run(e, cycles) == Run(e, cycles[..k + 1])
    decreases k
  {
    var o := PollOne(e, cycles[0].0, cycles[0].1, true);
    if k > 0 && !o.raised {
      UndecodableEndsRun(o.entry, cycles[1..], k - 1);
      assert cycles[..k + 1][1..] == cycles[1..][..k];
    }
  }

  /** While a service stays silent it is reported timed out at most once,
      and not at all if it is already flagged; it stays flagged once
      flagged. */
  lemma {:induction false} SilenceReportsOnce(e: Entry, cycles: seq<(int, Arrival)>)
    requires forall i :: 0 <= i < |cycles| ==> cycles[i].1.Silent?
    ensures Timeouts(Run(e, cycles).1) <= 1
    ensures e.timedOut ==> Timeouts(Run(e, cycles).1) == 0 && Run(e, cycles).0.timedOut
    ensures Timeouts(Run(e, cycles).1) == 1 ==> Run(e, cycles).0.timedOut
    decreases |cycles|
  {
    if cycles != [] {
      var o := PollOne(e, cycles[0].0, cycles[0].1, true);
      PollOneMounted(e, cycles[0].0, cycles[0].1);
      SilenceReportsOnce(o.entry, cycles[1..]);
      TimeoutsAppend(o.effects, Run(o.entry, cycles[1..]).1);
    }
  }

  /** A service that is heard from in every cycle is never reported timed
      out and ends not flagged. */
  lemma {:induction false} HeardNeverTimesOut(e: Entry, cycles: seq<(int, Arrival)>)
    requires |cycles| > 0
    requires forall i :: 0 <= i < |cycles| ==> cycles[i].1.Heard?
    ensures Timeouts(Run(e, cycles).1) == 0
    ensures !Run(e, cycles).0.timedOut
    decreases |cycles|
  {
    var o := PollOne(e, cycles[0].0, cycles[0].1, true);
    PollOneMounted(e, cycles[0].0, cycles[0].1);
    TimeoutsAppend(o.effects, Run(o.entry, cycles[1..]).1);
    if |cycles| > 1 {
      HeardNeverTimesOut(o.entry, cycles[1..]);
    }
  }
}
