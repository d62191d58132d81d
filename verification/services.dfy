/** The services the main screen listens to and the collection of their
    messages (src/f_fee_tui/services.py). Sockets are replaced by the list
    of frames they deliver; `pickle.loads` is a parameter that either returns
    a value or raises. */
module Services {
  import opened Wrappers
  import opened Bytes

  /** One frame off a socket: its bytes and the socket's RCVMORE flag
      after reading it. */
  datatype Frame = Frame(data: seq<Byte>, more: bool)

  /** What a message handler returns: the sync id and the decoded parts. */
  datatype Received<P> = Received(id: nat, parts: seq<P>)

  /** The index of the first frame with RCVMORE unset: the last frame of
      the message. `None` when every frame says more is coming. */
  function LastFrame(frames: seq<Frame>): (r: Option<nat>)
    ensures r.Some? ==> r.value < |frames| && !frames[r.value].more
    ensures r.Some? ==> forall i :: 0 <= i < r.value ==> frames[i].more
    ensures r.None? ==> forall i :: 0 <= i < |frames| ==> frames[i].more
  {
    if frames == [] then None
    else if !frames[0].more then Some(0)
    else match LastFrame(frames[1..])
      case None => None
      case Some(k) => Some(k + 1)
  }

  /** The parts of a multi-part message as a definition: each frame is
      decoded as it is read, the first frame that does not decode raises at
      once, and the frame with RCVMORE unset ends the message. `None` when
      the frames run out first, where `recv()` would wait. */
  function CollectParts<P, E>(frames: seq<Frame>, unpickle: seq<Byte> -> Result<P, E>): (r: Option<Result<seq<P>, E>>)
    ensures r.Some? && r.value.Success? ==> 1 <= |r.value.value| <= |frames|
    decreases |frames|
  {
    if frames == [] then None
    else
      match unpickle(frames[0].data)
      case Failure(e) => Some(Failure(e))
      case Success(p) =>
        if !frames[0].more then Some(Success([p]))
        else PrefixParts([p], CollectParts(frames[1..], unpickle))
  }

  /** The outcome of collecting the rest of a message after `ps` were
      decoded. */
  function PrefixParts<P, E>(ps: seq<P>, tail: Option<Result<seq<P>, E>>): Option<Result<seq<P>, E>>
  {
    match tail
    case None => None
    case Some(Failure(e)) => Some(Failure(e))
    case Some(Success(qs)) => Some(Success(ps + qs))
  }

  lemma PrefixPartsAppend<P, E>(ps: seq<P>, qs: seq<P>, tail: Option<Result<seq<P>, E>>)
    ensures PrefixParts(ps, PrefixParts(qs, tail)) == PrefixParts(ps + qs, tail)
  {
    if tail.Some? && tail.value.Success? {
      assert ps + (qs + tail.value.value) == (ps + qs) + tail.value.value;
    }
  }

  lemma PrefixPartsEmpty<P, E>(tail: Option<Result<seq<P>, E>>)
    ensures PrefixParts([], tail) == tail
  {
    if tail.Some? && tail.value.Success? {
      assert [] + tail.value.value == tail.value.value;
    }
  }

  /** Every frame before index `n` decodes. */
  predicate DecodesUpTo<P, E>(frames: seq<Frame>, unpickle: seq<Byte> -> Result<P, E>, n: int)
    requires n <= |frames|
  {
    forall i :: 0 <= i < n ==> unpickle(frames[i].data).Success?
  }

  /** `frames[j]` is the first frame that fails to decode, and every frame
      before it said more was coming. */
  predicate FirstUndecodable<P, E>(frames: seq<Frame>, unpickle: seq<Byte> -> Result<P, E>, j: int)
  {
    && 0 <= j < |frames| && unpickle(frames[j].data).Failure?
    && forall i :: 0 <= i < j ==> frames[i].more && unpickle(frames[i].data).Success?
  }

  /** What collecting a message gives, for every sequence of frames: the
      decoded parts exactly when the frames up to the last one all decode;
      the error of the first frame that does not, when it comes no later
      than the last frame; and `None` when every frame decodes and says
      more is coming. */
  lemma CollectPartsOutcome<P, E>(frames: seq<Frame>, unpickle: seq<Byte> -> Result<P, E>)
    ensures var r := CollectParts(frames, unpickle);
      r.None? <==> forall i :: 0 <= i < |frames| ==> frames[i].more && unpickle(frames[i].data).Success?
    ensures var r := CollectParts(frames, unpickle);
      (r.Some? && r.value.Success?) <==>
        LastFrame(frames).Some? && DecodesUpTo(frames, unpickle, LastFrame(frames).value + 1)
    ensures var r := CollectParts(frames, unpickle);
      r.Some? && r.value.Success? ==>
        && |r.value.value| == LastFrame(frames).value + 1
        && forall i :: 0 <= i < |r.value.value| ==> r.value.value[i] == unpickle(frames[i].data).value
    ensures var r := CollectParts(frames, unpickle);
      r.Some? && r.value.Failure? ==>
        exists j :: FirstUndecodable(frames, unpickle, j) && unpickle(frames[j].data).error == r.value.error
  {
    CollectPartsWaits(frames, unpickle);
    CollectPartsDecoded(frames, unpickle);
    CollectPartsRaised(frames, unpickle);
  }

  /** Collecting waits exactly when every frame decodes and says more is
      coming. */
  lemma {:induction false} CollectPartsWaits<P, E>(frames: seq<Frame>, unpickle: seq<Byte> -> Result<P, E>)
    ensures CollectParts(frames, unpickle).None? <==>
      forall i :: 0 <= i < |frames| ==> frames[i].more && unpickle(frames[i].data).Success?
    decreases |frames|
  {
    if frames != [] && unpickle(frames[0].data).Success? && frames[0].more {
      var rest := frames[1..];
      CollectPartsWaits(rest, unpickle);
      if CollectParts(frames, unpickle).None? {
        forall i | 0 <= i < |frames| ensures frames[i].more && unpickle(frames[i].data).Success? {
          if i > 0 { assert frames[i] == rest[i - 1]; }
        }
      } else {
        var i :| 0 <= i < |rest| && !(rest[i].more && unpickle(rest[i].data).Success?);
        assert frames[i + 1] == rest[i];
      }
    }
  }

  /** Collecting succeeds exactly when there is a last frame and every frame
      up to it decodes, and then the parts are the decoded frames. */
  lemma {:induction false} CollectPartsDecoded<P, E>(frames: seq<Frame>, unpickle: seq<Byte> -> Result<P, E>)
    ensures var r := CollectParts(frames, unpickle);
      (r.Some? && r.value.Success?) <==>
        LastFrame(frames).Some? && DecodesUpTo(frames, unpickle, LastFrame(frames).value + 1)
    ensures var r := CollectParts(frames, unpickle);
      r.Some? && r.value.Success? ==>
        && |r.value.value| == LastFrame(frames).value + 1
        && forall i :: 0 <= i < |r.value.value| ==> r.value.value[i] == unpickle(frames[i].data).value
    decreases |frames|
  {
    if frames != [] && unpickle(frames[0].data).Success? && frames[0].more {
      var rest := frames[1..];
      CollectPartsDecoded(rest, unpickle);
      var r := CollectParts(frames, unpickle);
      var t := CollectParts(rest, unpickle);
      if LastFrame(rest).Some? {
        assert LastFrame(frames) == Some(LastFrame(rest).value + 1);
        if !DecodesUpTo(rest, unpickle, LastFrame(rest).value + 1) {
          var i :| 0 <= i < LastFrame(rest).value + 1 && unpickle(rest[i].data).Failure?;
          assert frames[i + 1] == rest[i];
        } else {
          forall i | 0 <= i < LastFrame(frames).value + 1 ensures unpickle(frames[i].data).Success? {
            if i > 0 { assert frames[i] == rest[i - 1]; }
          }
        }
      }
      if t.Some? && t.value.Success? {
        assert r.value.value == [unpickle(frames[0].data).value] + t.value.value;
        forall i | 0 <= i < |r.value.value| ensures r.value.value[i] == unpickle(frames[i].data).value {
          if i > 0 { assert frames[i] == rest[i - 1]; }
        }
      }
    }
  }

  /** A failed collection carries the error of the first frame that did not
      decode, every frame before which said more was coming. */
  lemma {:induction false} CollectPartsRaised<P, E>(frames: seq<Frame>, unpickle: seq<Byte> -> Result<P, E>)
    ensures var r := CollectParts(frames, unpickle);
      r.Some? && r.value.Failure? ==>
        exists j :: FirstUndecodable(frames, unpickle, j) && unpickle(frames[j].data).error == r.value.error
    decreases |frames|
  {
    if frames != [] && unpickle(frames[0].data).Failure? {
      assert FirstUndecodable(frames, unpickle, 0);
    } else if frames != [] && frames[0].more {
      var rest := frames[1..];
      CollectPartsRaised(rest, unpickle);
      var t := CollectParts(rest, unpickle);
      if t.Some? && t.value.Failure? {
        var j :| FirstUndecodable(rest, unpickle, j) && unpickle(rest[j].data).error == t.value.error;
        assert FirstUndecodable(frames, unpickle, j + 1);
      }
    }
  }

  /** `handle_multi_part` as a definition: the id frame read big-endian and
      the collected parts. */
  function Collect<P, E>(first: seq<Byte>, frames: seq<Frame>, unpickle: seq<Byte> -> Result<P, E>): (r: Option<Result<Received<P>, E>>)
    ensures r.None? <==> LastFrame(frames).None? && DecodesUpTo(frames, unpickle, |frames|)
    ensures r.Some? && r.value.Success? ==> r.value.value.id == FromBigEndian(first) && |r.value.value.parts| >= 1
  {
    CollectPartsOutcome(frames, unpickle);
    match CollectParts(frames, unpickle)
    case None => None
    case Some(Failure(e)) => Some(Failure(e))
    case Some(Success(ps)) => Some(Success(Received(FromBigEndian(first), ps)))
  }

  /** `handle_multi_part`: the loop that receives and decodes parts until
      RCVMORE is unset. `used` is the number of frames it took off. An
      `UnpicklingError` ends the loop at the frame that raised it. */
  method HandleMultiPart<P, E>(first: seq<Byte>, frames: seq<Frame>, unpickle: seq<Byte> -> Result<P, E>)
    returns (r: Option<Result<Received<P>, E>>, used: nat)
    ensures r.None? <==> forall i :: 0 <= i < |frames| ==> frames[i].more && unpickle(frames[i].data).Success?
    ensures r.Some? ==>
      && 1 <= used <= |frames|
      && forall i :: 0 <= i < used - 1 ==> frames[i].more && unpickle(frames[i].data).Success?
    ensures r.Some? && r.value.Success? ==>
      && r.value.value.id == FromBigEndian(first)
      && |r.value.value.parts| == used && !frames[used - 1].more
      && forall i :: 0 <= i < used ==>
           unpickle(frames[i].data).Success? && r.value.value.parts[i] == unpickle(frames[i].data).value
    ensures r.Some? && r.value.Failure? ==> unpickle(frames[used - 1].data) == Failure(r.value.error)
    ensures r == Collect(first, frames, unpickle)
  {
    var id := FromBigEndian(first);
    var parts: seq<P> := [];
    var i := 0;
    assert frames[0..] == frames;
    PrefixPartsEmpty(CollectParts(frames, unpickle));
    while i < |frames|
      invariant 0 <= i <= |frames|
      invariant |parts| == i
      invariant forall j :: 0 <= j < i ==>
        frames[j].more && unpickle(frames[j].data).Success? && parts[j] == unpickle(frames[j].data).value
      invariant CollectParts(frames, unpickle) == PrefixParts(parts, CollectParts(frames[i..], unpickle))
    {
      assert frames[i..][0] == frames[i] && frames[i..][1..] == frames[i + 1..];
      match unpickle(frames[i].data)
      case Failure(e) =>
        return Some(Failure(e)), i + 1;
      case Success(p) =>
        if !frames[i].more {
          return Some(Success(Received(id, parts + [p]))), i + 1;
        }
        PrefixPartsAppend(parts, [p], CollectParts(frames[i + 1..], unpickle));
        parts := parts + [p];
        i := i + 1;
    }
    assert frames[i..] == [];
    return None, |frames|;
  }

  /** A message whose id frame is the one-byte encoding of an identifier
      comes back with that identifier, and always with at least one part. */
  lemma MultiPartId<P, E>(id: int, frames: seq<Frame>, unpickle: seq<Byte> -> Result<P, E>)
    requires ToBigEndian(id, 1).Some?
    requires Collect(ToBigEndian(id, 1).value, frames, unpickle).Some?
    requires Collect(ToBigEndian(id, 1).value, frames, unpickle).value.Success?
    ensures Collect(ToBigEndian(id, 1).value, frames, unpickle).value.value.id == id
    ensures |Collect(ToBigEndian(id, 1).value, frames, unpickle).value.value.parts| >= 1
  {
    ToBigEndianRoundTrip(id, 1);
    CollectPartsOutcome(frames, unpickle);
  }

  /** `handle_single_part`: the id `ALL` (passed in, it is defined outside
      this repository) and the one decoded frame, whatever it holds; or the
      decoder's error. */
  function HandleSinglePart<P, E>(message: seq<Byte>, allId: nat, unpickle: seq<Byte> -> Result<P, E>): (r: Result<Received<P>, E>)
    ensures r.Success? <==> unpickle(message).Success?
    ensures r.Success? ==> r.value.id == allId && r.value.parts == [unpickle(message).value]
    ensures r.Failure? ==> r.error == unpickle(message).error
  {
    match unpickle(message)
    case Success(p) => Success(Received(allId, [p]))
    case Failure(e) => Failure(e)
  }

  /** The receive branch of `poll_services`: the first frame's RCVMORE
      decides between the multi-part and the single-part handler. */
  function Receive<P, E>(frames: seq<Frame>, allId: nat, unpickle: seq<Byte> -> Result<P, E>): (r: Option<Result<Received<P>, E>>)
    ensures frames == [] ==> r.None?
    ensures frames != [] && !frames[0].more ==> r.Some? && (r.value.Success? ==> r.value.value.id == allId)
    ensures frames != [] && frames[0].more && r.Some? && r.value.Success? ==>
      r.value.value.id == FromBigEndian(frames[0].data)
    ensures r.Some? && r.value.Success? ==> |r.value.value.parts| >= 1
  {
    if frames == [] then None
    else if frames[0].more then Collect(frames[0].data, frames[1..], unpickle)
    else Some(HandleSinglePart(frames[0].data, allId, unpickle))
  }

  /** Whatever the socket delivers, a received message has at least one
      part; a single frame gives the `ALL` id or the decoder's error; and a
      multi-part message waits exactly when every later frame decodes and
      says more is coming. */
  lemma ReceiveParts<P, E>(frames: seq<Frame>, allId: nat, unpickle: seq<Byte> -> Result<P, E>)
    ensures var r := Receive(frames, allId, unpickle);
      r.Some? && r.value.Success? ==> |r.value.value.parts| >= 1
    ensures frames != [] && !frames[0].more ==>
      Receive(frames, allId, unpickle) == Some(HandleSinglePart(frames[0].data, allId, unpickle))
    ensures frames != [] && frames[0].more ==>
      (Receive(frames, allId, unpickle).None? <==>
         forall i :: 1 <= i < |frames| ==> frames[i].more && unpickle(frames[i].data).Success?)
  {
    if frames != [] && frames[0].more {
      var rest := frames[1..];
      CollectPartsOutcome(rest, unpickle);
      if forall i :: 1 <= i < |frames| ==> frames[i].more && unpickle(frames[i].data).Success? {
        forall i | 0 <= i < |rest| ensures rest[i].more && unpickle(rest[i].data).Success? {
          assert rest[i] == frames[i + 1];
        }
      } else {
        var i :| 1 <= i < |frames| && !(frames[i].more && unpickle(frames[i].data).Success?);
        assert rest[i - 1] == frames[i];
      }
    }
  }

  // ---------------------------------------------------------------------
  // The registry

  /** The seven services, in the order the table lists them. */
  datatype Service = CmCs | SmCs | PmCs | SynCs | DataDump | DpuCs | Data

  /** The table key of a service. */
  function Key(s: Service): string
  {
    match s
    case CmCs => "cm_cs"
    case SmCs => "sm_cs"
    case PmCs => "pm_cs"
    case SynCs => "syn_cs"
    case DataDump => "data_dump"
    case DpuCs => "dpu_cs"
    case Data => "data"
  }

  /** An entry of the table: the fields the core reads or writes. All
      sockets are SUB sockets on localhost; `sock` stands for the socket
      once `poll_services` has made it. Times are in tenths of a second,
      intervals in seconds as in the table. */
  datatype Entry = Entry(
    service: Service,
    port: nat,
    subscribe: Option<seq<Byte>>,
    multipart: bool,
    interval: nat,
    lastReceived: int,
    timedOut: bool,
    sock: Option<nat>)

  /** An entry as the table initialises it. */
  function Fresh(s: Service, port: nat, subscribe: Option<seq<Byte>>, multipart: bool, interval: nat, t0: int): Entry
  {
    Entry(s, port, subscribe, multipart, interval, t0, false, None)
  }

  /** The `services` table, built at import time at monotonic time `t0`.
      The identifiers STATUS and SYNC_TIMECODE are defined outside this
      repository; `to_bytes(1, byteorder='big')` raises OverflowError for
      one that does not fit a byte, which fails the import (`None`). */
  function Registry(statusId: int, syncTimecodeId: int, t0: int): (r: Option<seq<Entry>>)
    ensures r.Some? <==> 0 <= statusId < 256 && 0 <= syncTimecodeId < 256
    ensures r.Some? ==> |r.value| == 7
  {
    match (ToBigEndian(statusId, 1), ToBigEndian(syncTimecodeId, 1))
    case (Some(status), Some(sync)) =>
      Some([Fresh(CmCs, 6001, None, false, 3, t0),
            Fresh(SmCs, 6101, None, false, 3, t0),
            Fresh(PmCs, 6201, None, false, 3, t0),
            Fresh(SynCs, 6205, None, false, 3, t0),
            Fresh(DataDump, 30304, Some(status), true, 3, t0),
            Fresh(DpuCs, 6601, None, false, 3, t0),
            Fresh(Data, 30103, Some(sync), true, 5, t0)])
    case _ => None
  }

  /** Every entry starts not timed out, without a socket, with a positive
      interval and last heard of at `t0`; each service appears once; and
      each subscription filter is one byte that decodes back to its
      identifier. */
  lemma RegistryInvariants(statusId: int, syncTimecodeId: int, t0: int)
    requires Registry(statusId, syncTimecodeId, t0).Some?
    ensures var es := Registry(statusId, syncTimecodeId, t0).value;
      && (forall i :: 0 <= i < |es| ==>
            !es[i].timedOut && es[i].sock.None? && es[i].interval > 0 && es[i].lastReceived == t0)
      && (forall i, j :: 0 <= i < j < |es| ==> es[i].service != es[j].service)
      && (forall s: Service :: es[Position(s)].service == s)
    ensures var es := Registry(statusId, syncTimecodeId, t0).value;
      && es[4].service == DataDump && es[4].subscribe.Some? && |es[4].subscribe.value| == 1
      && FromBigEndian(es[4].subscribe.value) == statusId
      && es[6].service == Data && es[6].subscribe.Some? && |es[6].subscribe.value| == 1
      && FromBigEndian(es[6].subscribe.value) == syncTimecodeId
    ensures var es := Registry(statusId, syncTimecodeId, t0).value;
      forall i :: 0 <= i < |es| ==> (es[i].subscribe.Some? <==> es[i].multipart)
  {
    var es := Registry(statusId, syncTimecodeId, t0).value;
    ToBigEndianRoundTrip(statusId, 1);
    ToBigEndianRoundTrip(syncTimecodeId, 1);
  }

  /** The place of a service in the table. */
  function Position(s: Service): (i: nat)
    ensures i < 7
  {
    match s
    case CmCs => 0
    case SmCs => 1
    case PmCs => 2
    case SynCs => 3
    case DataDump => 4
    case DpuCs => 5
    case Data => 6
  }

  /** The service a table key names, if any. */
  function ServiceOfKey(k: string): Option<Service>
  {
    if k == "cm_cs" then Some(CmCs)
    else if k == "sm_cs" then Some(SmCs)
    else if k == "pm_cs" then Some(PmCs)
    else if k == "syn_cs" then Some(SynCs)
    else if k == "data_dump" then Some(DataDump)
    else if k == "dpu_cs" then Some(DpuCs)
    else if k == "data" then Some(Data)
    else None
  }

  /** Each key names its own service, so different services have
      different keys. */
  lemma KeyInverse(s: Service, t: Service)
    ensures ServiceOfKey(Key(s)) == Some(s)
    ensures Key(s) == Key(t) <==> s == t
  {
    assert ServiceOfKey(Key(t)) == Some(t);
  }
}
