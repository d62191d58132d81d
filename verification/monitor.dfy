/** The telemetry monitor thread (`Monitor` in src/f_fee_tui/workers.py) as a
    pure step function: one call of `Step` is one pass of its `run` loop.
    Time is counted in ticks of 0.1 s; the socket, the decoders of the
    external `egse` package and `pickle` are inputs. */
module Monitor {
  import opened Wrappers
  import opened Bytes
  import opened Messages

  /** 6.0 s of silence before TimeoutReached, in ticks. */
  const TimeoutTicks: int := 60
  /** 10.0 s of silence before ShutdownReached, in ticks. */
  const ShutdownTicks: int := 100

  const TimeoutText: string := "Timeout reached after 6s on data distribution channel."
  const ShutdownText: string := "Resetting the monitoring panels after 10s of inactivity."
  const FinishedText: string := "Monitor Thread finished ..."

  /** An index into the eight OUTBUFF slots. */
  type Slot = i: int | 0 <= i < 8

  /** `outbuff_mapping`: slot i of the accumulator takes OUTBUFF flag
      `OutbuffMapping[i]` (0-based), the DTC_IN_MOD channel order. */
  const OutbuffMapping: seq<Slot> := [0, 2, 1, 3, 4, 6, 5, 7]

  /** The accumulator right after construction or a reset. */
  const NoErrors: seq<int> := [0, 0, 0, 0, 0, 0, 0, 0]

  /** Decoded register or housekeeping values, keyed by (block, field). */
  type Registers = map<(string, string), int>

  /** The shapes `pickle.loads` can give the monitor: the 2-tuple
      `(memory_map, _)` of a register-map frame, the 4-tuple
      `(cmd, aeb_id, data, timestamp)` of a housekeeping frame, or anything
      else (which fails to unpack). */
  datatype Payload =
    | Pair(memoryMap: seq<Byte>)
    | Quad(cmd: string, unitIds: seq<string>, raw: seq<Byte>)
    | OtherShape

  /** The members of the external `aeb_state` enumeration the monitor tests
      for; `OtherStatus` is any further member. */
  datatype AebStatus = Off | Init | PowerUp | PowerDown | Config | Image | Pattern | OtherStatus

  /** Everything the monitor calls but does not define. Each decoder either
      returns a value or raises. */
  datatype Env = Env(
    registerMapId: int,                      // MessageIdentifier.F_FEE_REGISTER_MAP
    hkDataId: int,                           // MessageIdentifier.SYNC_HK_DATA
    unpickle: seq<Byte> -> Result<Payload, Exception>,
    registerMap: seq<Byte> -> Result<Registers, Exception>,           // RegisterMap("F-FEE", ...)
    housekeeping: (string, seq<Byte>) -> Result<Registers, Exception>, // HousekeepingData(name, data, setup)
    isDebMode: int -> bool,                  // f_fee_mode(x) succeeds
    aebStatusOf: int -> Option<AebStatus>,   // aeb_state(x), None when it raises
    traceOf: Exception -> string)            // traceback.format_exc()

  /** The thread's state between two passes of its loop. */
  datatype MonitorState = MonitorState(
    resetRequested: bool,     // the `_reset_frame_errors` event
    accumulated: seq<int>,    // `accumulated_outbuff`
    startTime: int,           // tick of the last received frame
    timeoutReported: bool,
    shutdownReported: bool)

  /** The accumulator always has eight slots. */
  predicate Valid(s: MonitorState)
  {
    |s.accumulated| == 8
  }

  /** The state when `run` starts at tick `now`. */
  function Start(now: int): (s: MonitorState)
    ensures Valid(s) && !s.timeoutReported && !s.shutdownReported
    ensures !s.resetRequested && s.startTime == now
    ensures forall i :: 0 <= i < 8 ==> s.accumulated[i] == 0
  {
    MonitorState(false, NoErrors, now, false, false)
  }

  /** `reset_frame_errors()`, called from the presentation thread. */
  function RequestReset(s: MonitorState): (s': MonitorState)
    ensures s'.resetRequested
    ensures s' == s.(resetRequested := true)
  {
    s.(resetRequested := true)
  }

  // ----- decoding one frame -------------------------------------------------

  /** What decoding one frame produced: the events posted, the accumulator
      afterwards, and the exception that interrupted decoding, if any. */
  datatype Handled = Handled(events: seq<Event>, accumulated: seq<int>, raised: Option<Exception>)

  /** `regs[key]`, with the KeyError of a missing key. */
  function Lookup(regs: Registers, key: (string, string)): (r: Result<int, Exception>)
    ensures r.Success? <==> key in regs
    ensures r.Success? ==> r.value == regs[key]
  {
    if key in regs then Success(regs[key]) else Failure(Exception(KeyError, key.1))
  }

  /** Looking several keys up in order; the first missing one raises. */
  function LookupAll(regs: Registers, keys: seq<(string, string)>): (r: Result<seq<int>, Exception>)
    ensures r.Success? <==> forall i :: 0 <= i < |keys| ==> keys[i] in regs
    ensures r.Success? ==> |r.value| == |keys| && forall i :: 0 <= i < |keys| ==> r.value[i] == regs[keys[i]]
    ensures r.Failure? ==> exists j :: FirstMissing(regs, keys, j) && r.error == Exception(KeyError, keys[j].1)
    decreases |keys|
  {
    if |keys| == 0 then Success([])
    else
      match Lookup(regs, keys[0])
      case Failure(e) => Failure(e)
      case Success(v) =>
        match LookupAll(regs, keys[1..])
        case Failure(e) =>
          var j :| FirstMissing(regs, keys[1..], j) && e == Exception(KeyError, keys[1..][j].1);
          assert FirstMissing(regs, keys, j + 1);
          Failure(e)
        case Success(vs) =>
          assert forall i :: 1 <= i < |keys| ==> keys[i] == keys[1..][i - 1];
          Success([v] + vs)
  }

  /** `keys[j]` is the first of `keys` that `regs` lacks. */
  predicate FirstMissing(regs: Registers, keys: seq<(string, string)>, j: int)
  {
    0 <= j < |keys| && keys[j] !in regs && forall i :: 0 <= i < j ==> keys[i] in regs
  }

  /** The eight IN_MOD fields, T0 to T7, in the order they are read. */
  const DtcKeys: seq<(string, string)> := [
    ("DEB_DTC_IN_MOD_2", "T0_IN_MOD"), ("DEB_DTC_IN_MOD_2", "T1_IN_MOD"),
    ("DEB_DTC_IN_MOD_2", "T2_IN_MOD"), ("DEB_DTC_IN_MOD_2", "T3_IN_MOD"),
    ("DEB_DTC_IN_MOD_1", "T4_IN_MOD"), ("DEB_DTC_IN_MOD_1", "T5_IN_MOD"),
    ("DEB_DTC_IN_MOD_1", "T6_IN_MOD"), ("DEB_DTC_IN_MOD_1", "T7_IN_MOD")]

  /** The eight OUTBUFF overflow flags, OUTBUFF_1 to OUTBUFF_8. */
  const OutbuffKeys: seq<(string, string)> := [
    ("OVF", "OUTBUFF_1"), ("OVF", "OUTBUFF_2"), ("OVF", "OUTBUFF_3"), ("OVF", "OUTBUFF_4"),
    ("OVF", "OUTBUFF_5"), ("OVF", "OUTBUFF_6"), ("OVF", "OUTBUFF_7"), ("OVF", "OUTBUFF_8")]

  const OperModKey: (string, string) := ("STATUS", "OPER_MOD")
  const AebStatusKey: (string, string) := ("STATUS", "AEB_STATUS")

  /** Python's `any(flags)` on integers. */
  predicate AnyNonZero(flags: seq<int>)
  {
    exists i :: 0 <= i < |flags| && flags[i] != 0
  }

  /** The flags re-ordered into DTC_IN_MOD order:
      `[flags[idx] for idx in outbuff_mapping]`. */
  function Reorder(flags: seq<int>): (r: seq<int>)
    requires |flags| == 8
    ensures |r| == 8
  {
    seq(8, i requires 0 <= i < 8 => flags[OutbuffMapping[i]])
  }

  /** `[x + y for x, y in zip(accumulated, reordered)]`. */
  function Accumulate(acc: seq<int>, flags: seq<int>): (r: seq<int>)
    requires |acc| == 8 && |flags| == 8
    ensures |r| == 8
  {
    var moved := Reorder(flags);
    seq(8, i requires 0 <= i < 8 => acc[i] + moved[i])
  }

  /** The events decoding can post: the four state-change messages. */
  predicate IsDecodeEvent(e: Event)
  {
    e.DebModeChanged? || e.OutbuffChanged? || e.DtcInModChanged? || e.AebStateChanged?
  }

  /** A register-map frame: read the eight IN_MOD fields and post them. */
  function HandleRegisterMap(env: Env, acc: seq<int>, data: Payload): (r: Handled)
    ensures r.accumulated == acc
    ensures r.raised.None? <==> |r.events| == 1
    ensures |r.events| <= 1 && (|r.events| == 1 ==> r.events[0].DtcInModChanged?)
    ensures r.raised.None? <==> RegisterMapDecodes(env, data)
  {
    match data
    case Pair(memoryMap) =>
      (match env.registerMap(memoryMap)
       case Failure(e) => Handled([], acc, Some(e))
       case Success(regs) =>
         match LookupAll(regs, DtcKeys)
         case Failure(e) => Handled([], acc, Some(e))
         case Success(t) =>
           Handled([DtcInModChanged(t[0], t[1], t[2], t[3], t[4], t[5], t[6], t[7])], acc, None))
    case _ => Handled([], acc, Some(Exception(ValueError, "cannot unpack register map frame")))
  }

  /** A register-map frame unpacks into a memory map that `RegisterMap`
      decodes, and the decoded map holds all eight IN_MOD fields. */
  predicate RegisterMapDecodes(env: Env, data: Payload)
  {
    && data.Pair?
    && env.registerMap(data.memoryMap).Success?
    && forall i :: 0 <= i < 8 ==> DtcKeys[i] in env.registerMap(data.memoryMap).value
  }

  /** A decodable register map posts exactly one DtcInModChanged carrying
      the fields T0 to T7 in that order, and leaves the accumulator alone. */
  lemma RegisterMapPosted(env: Env, acc: seq<int>, data: Payload)
    requires RegisterMapDecodes(env, data)
    ensures var regs := env.registerMap(data.memoryMap).value;
      HandleRegisterMap(env, acc, data) == Handled(
        [DtcInModChanged(regs[DtcKeys[0]], regs[DtcKeys[1]], regs[DtcKeys[2]], regs[DtcKeys[3]],
                         regs[DtcKeys[4]], regs[DtcKeys[5]], regs[DtcKeys[6]], regs[DtcKeys[7]])],
        acc, None)
  {
  }

  /** Every way decoding a register map fails posts nothing: a frame that
      is not a 2-tuple fails to unpack, the decoder's own exception passes
      through, and otherwise the first missing IN_MOD field raises KeyError. */
  lemma RegisterMapRaised(env: Env, acc: seq<int>, data: Payload)
    requires !RegisterMapDecodes(env, data)
    ensures var r := HandleRegisterMap(env, acc, data);
      && r.events == [] && r.accumulated == acc && r.raised.Some?
      && (!data.Pair? ==> r.raised.value.cls == ValueError)
      && (data.Pair? && env.registerMap(data.memoryMap).Failure? ==>
            r.raised.value == env.registerMap(data.memoryMap).error)
      && (data.Pair? && env.registerMap(data.memoryMap).Success? ==>
            exists j :: FirstMissing(env.registerMap(data.memoryMap).value, DtcKeys, j) &&
              r.raised.value == Exception(KeyError, DtcKeys[j].1))
  {
  }

  /** A DEB housekeeping frame: post the operating mode, then fold the
      OUTBUFF flags into the accumulator when any of them is set. */
  function HandleDebHousekeeping(env: Env, acc: seq<int>, raw: seq<Byte>): (r: Handled)
    requires |acc| == 8
    ensures |r.accumulated| == 8
    // DebModeChanged comes first whenever anything is posted; OutbuffChanged
    // follows it exactly when the accumulator changed, carrying the new value
    ensures |r.events| <= 2
    ensures r.events != [] ==> r.events[0].DebModeChanged?
    ensures |r.events| == 2 <==> r.accumulated != acc
    ensures |r.events| == 2 ==> r.events[1] == OutbuffChanged(r.accumulated) && r.raised.None?
    ensures r.raised.None? <==> DebDecodes(env, raw)
  {
    match env.housekeeping("DEB", raw)
    case Failure(e) => Handled([], acc, Some(e))
    case Success(hk) =>
      match Lookup(hk, OperModKey)
      case Failure(e) => Handled([], acc, Some(e))
      case Success(mode) =>
        if !env.isDebMode(mode) then Handled([], acc, Some(Exception(ValueError, "not a valid f_fee_mode")))
        else
          match LookupAll(hk, OutbuffKeys)
          case Failure(e) => Handled([DebModeChanged(mode)], acc, Some(e))
          case Success(flags) =>
            if AnyNonZero(flags) then
              var acc' := Accumulate(acc, flags);
              AccumulateChanges(acc, flags);
              Handled([DebModeChanged(mode), OutbuffChanged(acc')], acc', None)
            else
              Handled([DebModeChanged(mode)], acc, None)
  }

  /** A DEB housekeeping frame decodes, carries a valid `f_fee_mode` under
      OPER_MOD and all eight OUTBUFF flags. */
  predicate DebDecodes(env: Env, raw: seq<Byte>)
  {
    && env.housekeeping("DEB", raw).Success?
    && OperModKey in env.housekeeping("DEB", raw).value
    && env.isDebMode(env.housekeeping("DEB", raw).value[OperModKey])
    && forall i :: 0 <= i < 8 ==> OutbuffKeys[i] in env.housekeeping("DEB", raw).value
  }

  /** The OUTBUFF_1..OUTBUFF_8 flags of decoded housekeeping, in that order. */
  function OutbuffFlags(hk: Registers): (flags: seq<int>)
    requires forall i :: 0 <= i < 8 ==> OutbuffKeys[i] in hk
    ensures |flags| == 8 && forall i :: 0 <= i < 8 ==> flags[i] == hk[OutbuffKeys[i]]
  {
    seq(8, i requires 0 <= i < 8 => hk[OutbuffKeys[i]])
  }

  /** Every decodable DEB frame posts DebModeChanged with its mode. When
      some OUTBUFF flag is set, the re-ordered flags are added to the
      accumulator and the new totals are posted after the mode; otherwise
      the accumulator is kept and nothing else is posted. */
  lemma DebHousekeepingPosted(env: Env, acc: seq<int>, raw: seq<Byte>)
    requires |acc| == 8 && DebDecodes(env, raw)
    ensures var hk := env.housekeeping("DEB", raw).value;
      var flags := OutbuffFlags(hk);
      var acc' := if AnyNonZero(flags) then Accumulate(acc, flags) else acc;
      HandleDebHousekeeping(env, acc, raw) == Handled(
        [DebModeChanged(hk[OperModKey])] + (if AnyNonZero(flags) then [OutbuffChanged(acc')] else []),
        acc', None)
  {
    var hk := env.housekeeping("DEB", raw).value;
    assert Lookup(hk, OperModKey) == Success(hk[OperModKey]);
    OutbuffFound(hk);
  }

  /** With all eight OUTBUFF keys present, looking them up gives the flags. */
  lemma OutbuffFound(hk: Registers)
    requires forall i :: 0 <= i < 8 ==> OutbuffKeys[i] in hk
    ensures LookupAll(hk, OutbuffKeys) == Success(OutbuffFlags(hk))
  {
    var found := LookupAll(hk, OutbuffKeys);
    assert found.Success?;
    assert found.value == OutbuffFlags(hk);
  }

  /** Every way decoding a DEB frame fails: the decoder's exception or a
      missing or invalid OPER_MOD posts nothing, and a missing OUTBUFF flag
      raises KeyError after the mode was posted. The accumulator is kept. */
  lemma DebHousekeepingRaised(env: Env, acc: seq<int>, raw: seq<Byte>)
    requires |acc| == 8 && !DebDecodes(env, raw)
    ensures var r := HandleDebHousekeeping(env, acc, raw);
      var hk := env.housekeeping("DEB", raw);
      && r.accumulated == acc && r.raised.Some?
      && (hk.Failure? ==> r.events == [] && r.raised.value == hk.error)
      && (hk.Success? && OperModKey !in hk.value ==>
            r.events == [] && r.raised.value == Exception(KeyError, "OPER_MOD"))
      && (hk.Success? && OperModKey in hk.value && !env.isDebMode(hk.value[OperModKey]) ==>
            r.events == [] && r.raised.value.cls == ValueError)
      && (hk.Success? && OperModKey in hk.value && env.isDebMode(hk.value[OperModKey]) ==>
            && r.events == [DebModeChanged(hk.value[OperModKey])]
            && exists j :: FirstMissing(hk.value, OutbuffKeys, j) &&
                 r.raised.value == Exception(KeyError, OutbuffKeys[j].1))
  {
  }

  /** When a DEB housekeeping frame changes the accumulator, the frame
      decoded, some OUTBUFF flag is nonzero, and each slot i grows by the
      OUTBUFF flag `OutbuffMapping[i]`. */
  lemma DebAccumulatorUpdate(env: Env, acc: seq<int>, raw: seq<Byte>)
    requires |acc| == 8
    ensures var r := HandleDebHousekeeping(env, acc, raw);
      r.accumulated != acc ==>
        && env.housekeeping("DEB", raw).Success?
        && (forall i :: 0 <= i < 8 ==> OutbuffKeys[i] in env.housekeeping("DEB", raw).value)
        && AnyNonZero(seq(8, i requires 0 <= i < 8 => env.housekeeping("DEB", raw).value[OutbuffKeys[i]]))
        && forall i :: 0 <= i < 8 ==>
             r.accumulated[i] == acc[i] + env.housekeeping("DEB", raw).value[OutbuffKeys[OutbuffMapping[i]]]
  {
    if env.housekeeping("DEB", raw).Success? {
      var hk := env.housekeeping("DEB", raw).value;
      var flags := LookupAll(hk, OutbuffKeys);
      if flags.Success? {
        assert flags.value == seq(8, i requires 0 <= i < 8 => hk[OutbuffKeys[i]]);
      }
    }
  }

  /** With non-negative housekeeping values no accumulator slot ever
      decreases. */
  lemma DebAccumulatorMonotone(env: Env, acc: seq<int>, raw: seq<Byte>)
    requires |acc| == 8
    requires env.housekeeping("DEB", raw).Success?
    requires forall k :: k in env.housekeeping("DEB", raw).value ==> env.housekeeping("DEB", raw).value[k] >= 0
    ensures forall i :: 0 <= i < 8 ==> HandleDebHousekeeping(env, acc, raw).accumulated[i] >= acc[i]
  {
    DebAccumulatorUpdate(env, acc, raw);
  }

  /** Adding a set of flags of which one is nonzero always changes the
      accumulator: the re-ordering loses no flag. */
  lemma AccumulateChanges(acc: seq<int>, flags: seq<int>)
    requires |acc| == 8 && |flags| == 8 && AnyNonZero(flags)
    ensures Accumulate(acc, flags) != acc
  {
    var j :| 0 <= j < 8 && flags[j] != 0;
    MappingSelfInverse();
    var i := OutbuffMapping[j];
    assert Reorder(flags)[i] == flags[j];
    assert Accumulate(acc, flags)[i] != acc[i];
  }

  /** The key under which an AEB status is reported, and the LED value. */
  function StateKey(st: AebStatus): (r: Option<(string, bool)>)
    ensures r.None? <==> st == OtherStatus
    ensures r.Some? ==> (r.value.1 <==> st != Off)
  {
    match st
    case Off => Some(("_onoff", false))
    case Init => Some(("_init", true))
    case PowerUp => Some(("_power_up", true))
    case PowerDown => Some(("_power_down", true))
    case Config => Some(("_config", true))
    case Image => Some(("_image", true))
    case Pattern => Some(("_pattern", true))
    case OtherStatus => None
  }

  /** Python's `str.lower()` on the ASCII letters. */
  function Lower(s: string): (r: string)
    ensures |r| == |s|
  {
    seq(|s|, i requires 0 <= i < |s| => if 'A' <= s[i] <= 'Z' then (s[i] as int + 32) as char else s[i])
  }

  /** An AEB housekeeping frame: report the unit's status under the key
      `<lower-cased unit id><suffix>`. */
  function HandleAebHousekeeping(env: Env, acc: seq<int>, unitIds: seq<string>, raw: seq<Byte>): (r: Handled)
    ensures r.accumulated == acc
    ensures |r.events| <= 1 && (r.events != [] ==> r.raised.None?)
    ensures unitIds == [] ==> r.raised.Some? && r.raised.value.cls == IndexError
    ensures r.events != [] ==>
      && unitIds != []
      && exists st :: StateKey(st).Some? &&
           r.events[0] == AebStateChanged(Lower(unitIds[0]) + StateKey(st).value.0, StateKey(st).value.1)
  {
    if |unitIds| == 0 then Handled([], acc, Some(Exception(IndexError, "list index out of range")))
    else
      var unit := unitIds[0];
      match env.housekeeping(unit, raw)
      case Failure(e) => Handled([], acc, Some(e))
      case Success(hk) =>
        match Lookup(hk, AebStatusKey)
        case Failure(e) => Handled([], acc, Some(e))
        case Success(code) =>
          match env.aebStatusOf(code)
          case None => Handled([], acc, Some(Exception(ValueError, "not a valid aeb_state")))
          case Some(st) =>
            match StateKey(st)
            case None => Handled([], acc, None)
            case Some((suffix, on)) => Handled([AebStateChanged(Lower(unit) + suffix, on)], acc, None)
  }

  /** Exactly one AebStateChanged is posted for each recognised status of a
      decodable AEB frame, and none for any other member of `aeb_state`. */
  lemma AebStatusReported(env: Env, acc: seq<int>, unitIds: seq<string>, raw: seq<Byte>, hk: Registers)
    requires unitIds != [] && env.housekeeping(unitIds[0], raw) == Success(hk)
    requires AebStatusKey in hk && env.aebStatusOf(hk[AebStatusKey]).Some?
    ensures var st := env.aebStatusOf(hk[AebStatusKey]).value;
      var r := HandleAebHousekeeping(env, acc, unitIds, raw);
      && r.raised.None?
      && (|r.events| == 1 <==> st != OtherStatus)
      && (st != OtherStatus ==>
            r.events[0] == AebStateChanged(Lower(unitIds[0]) + StateKey(st).value.0, st != Off))
  {
  }

  /** `handle_messages(sync_id, data, setup)`. */
  function HandleMessages(env: Env, acc: seq<int>, syncId: int, data: Payload): (r: Handled)
    requires |acc| == 8
    ensures |r.accumulated| == 8
    ensures r.accumulated != acc ==> syncId != env.registerMapId && syncId == env.hkDataId
    ensures syncId != env.registerMapId && syncId != env.hkDataId ==> r == Handled([], acc, None)
    ensures forall i :: 0 <= i < |r.events| ==> IsDecodeEvent(r.events[i])
  {
    if syncId == env.registerMapId then
      HandleRegisterMap(env, acc, data)
    else if syncId == env.hkDataId then
      match data
      case Quad(cmd, unitIds, raw) =>
        if cmd == "command_deb_read_hk" then HandleDebHousekeeping(env, acc, raw)
        else if cmd == "command_aeb_read_hk" then HandleAebHousekeeping(env, acc, unitIds, raw)
        else Handled([], acc, None)
      case _ => Handled([], acc, Some(Exception(ValueError, "cannot unpack housekeeping frame")))
    else
      Handled([], acc, None)
  }

  /** Receiving one multipart frame: unpack `(sync_id, pickle_string)`,
      decode the id big-endian, unpickle and dispatch. */
  function ReceiveFrame(env: Env, acc: seq<int>, parts: seq<seq<Byte>>): (r: Handled)
    requires |acc| == 8
    ensures |r.accumulated| == 8
    ensures |parts| != 2 ==> r == Handled([], acc, Some(Exception(ValueError, "cannot unpack frame")))
    ensures forall i :: 0 <= i < |r.events| ==> IsDecodeEvent(r.events[i])
  {
    if |parts| != 2 then Handled([], acc, Some(Exception(ValueError, "cannot unpack frame")))
    else
      match env.unpickle(parts[1])
      case Failure(e) => Handled([], acc, Some(e))
      case Success(data) => HandleMessages(env, acc, FromBigEndian(parts[0]), data)
  }

  /** The events one frame yields: those posted while decoding, then one
      ExceptionCaught if decoding raised. */
  function FrameEvents(env: Env, h: Handled): seq<Event>
  {
    match h.raised
    case None => h.events
    case Some(e) => h.events + [ExceptionCaught(e, env.traceOf(e))]
  }

  /** A frame posts one ExceptionCaught if its decoding raised and none
      otherwise, and never a silence report. */
  lemma FrameEventCounts(env: Env, h: Handled)
    requires forall i :: 0 <= i < |h.events| ==> IsDecodeEvent(h.events[i])
    ensures Count(FrameEvents(env, h), KException) == (if h.raised.Some? then 1 else 0)
    ensures Count(FrameEvents(env, h), KTimeout) == 0 && Count(FrameEvents(env, h), KShutdown) == 0
  {
    CountZero(h.events, KException);
    CountZero(h.events, KTimeout);
    CountZero(h.events, KShutdown);
    if h.raised.Some? {
      var x := [ExceptionCaught(h.raised.value, env.traceOf(h.raised.value))];
      CountAppend(h.events, x, KException);
      CountAppend(h.events, x, KTimeout);
      CountAppend(h.events, x, KShutdown);
    }
  }

  // ----- one pass of the loop -------------------------------------------------

  /** What one pass observes: the tick, the cancellation flag, and the
      frame the 0.1 s `select` delivered, as its list of parts. */
  datatype CycleInput = CycleInput(now: int, cancelled: bool, frame: Option<seq<seq<Byte>>>)

  /** The state after a pass, the events it posted in order, and whether
      the loop goes on. */
  datatype Cycle = Cycle(state: MonitorState, events: seq<Event>, running: bool)

  /** The accumulator reset at the top of a pass. */
  function ApplyReset(s: MonitorState): (r: (MonitorState, seq<Event>))
    ensures !r.0.resetRequested
    ensures r.1 != [] <==> s.resetRequested
    ensures s.resetRequested ==> r.0.accumulated == NoErrors && r.1 == [OutbuffChanged(NoErrors)]
    ensures r.0.(resetRequested := s.resetRequested, accumulated := s.accumulated) == s
  {
    if s.resetRequested then (s.(resetRequested := false, accumulated := NoErrors), [OutbuffChanged(NoErrors)])
    else (s, [])
  }

  /** Frame receipt: restart the silence timer, clear both flags, decode. */
  function ApplyFrame(env: Env, s: MonitorState, now: int, frame: Option<seq<seq<Byte>>>): (r: (MonitorState, seq<Event>))
    requires Valid(s)
    ensures Valid(r.0)
    ensures frame.None? ==> r == (s, [])
    ensures frame.Some? ==> r.0.startTime == now && !r.0.timeoutReported && !r.0.shutdownReported
    ensures r.0.resetRequested == s.resetRequested
    ensures forall i :: 0 <= i < |r.1| ==> r.1[i].ExceptionCaught? || IsDecodeEvent(r.1[i])
  {
    match frame
    case None => (s, [])
    case Some(parts) =>
      var h := ReceiveFrame(env, s.accumulated, parts);
      (s.(startTime := now, timeoutReported := false, shutdownReported := false, accumulated := h.accumulated),
       FrameEvents(env, h))
  }

  /** The silence checks at the bottom of a pass. */
  function CheckSilence(s: MonitorState, now: int): (r: (MonitorState, seq<Event>))
    ensures r.0.timeoutReported <==> s.timeoutReported || now - s.startTime > TimeoutTicks
    ensures r.0.shutdownReported <==> s.shutdownReported || now - s.startTime > ShutdownTicks
    ensures r.0.(timeoutReported := s.timeoutReported, shutdownReported := s.shutdownReported) == s
  {
    var elapsed := now - s.startTime;
    var timeout := elapsed > TimeoutTicks && !s.timeoutReported;
    var shutdown := elapsed > ShutdownTicks && !s.shutdownReported;
    (s.(timeoutReported := s.timeoutReported || timeout, shutdownReported := s.shutdownReported || shutdown),
     (if timeout then [TimeoutReached(TimeoutText)] else []) + (if shutdown then [ShutdownReached(ShutdownText)] else []))
  }

  /** One pass of `Monitor.run`. */
  function Step(env: Env, s: MonitorState, inp: CycleInput): (c: Cycle)
    requires Valid(s)
    ensures Valid(c.state)
    ensures c.running <==> !inp.cancelled
    ensures inp.cancelled ==> c == Cycle(s, [LogRetrieved(FinishedText)], false)
    // the reset request is consumed before the frame
    ensures !inp.cancelled && s.resetRequested ==>
      !c.state.resetRequested && |c.events| > 0 && c.events[0] == OutbuffChanged(NoErrors) &&
      (inp.frame.None? ==> c.state.accumulated == NoErrors)
    // a received frame restarts the silence timer and re-arms both reports
    ensures !inp.cancelled && inp.frame.Some? ==>
      c.state.startTime == inp.now && !c.state.timeoutReported && !c.state.shutdownReported
    // without a frame the timer keeps running and a raised flag stays raised
    ensures !inp.cancelled && inp.frame.None? ==>
      && c.state.startTime == s.startTime
      && (c.state.timeoutReported <==> s.timeoutReported || inp.now - s.startTime > TimeoutTicks)
      && (c.state.shutdownReported <==> s.shutdownReported || inp.now - s.startTime > ShutdownTicks)
  {
    if inp.cancelled then Cycle(s, [LogRetrieved(FinishedText)], false)
    else
      var (s1, e1) := ApplyReset(s);
      var (s2, e2) := ApplyFrame(env, s1, inp.now, inp.frame);
      var (s3, e3) := CheckSilence(s2, inp.now);
      Cycle(s3, e1 + e2 + e3, true)
  }

  /** Passes of the loop over a sequence of inputs, until one is cancelled. */
  function Run(env: Env, s: MonitorState, inputs: seq<CycleInput>): (c: Cycle)
    requires Valid(s)
    ensures Valid(c.state)
    ensures c.running <==> forall i :: 0 <= i < |inputs| ==> !inputs[i].cancelled
    ensures !c.running ==> c.events != [] && c.events[|c.events| - 1] == LogRetrieved(FinishedText)
    decreases |inputs|
  {
    if |inputs| == 0 then Cycle(s, [], true)
    else
      var c := Step(env, s, inputs[0]);
      if !c.running then c
      else
        var rest := Run(env, c.state, inputs[1..]);
        Cycle(rest.state, c.events + rest.events, rest.running)
  }

  // ----- properties ---------------------------------------------------------

  /** `outbuff_mapping` is a permutation of 0..7 that is its own inverse. */
  lemma MappingSelfInverse()
    ensures forall i :: 0 <= i < 8 ==> OutbuffMapping[OutbuffMapping[i]] == i
    ensures forall i, j :: 0 <= i < j < 8 ==> OutbuffMapping[i] != OutbuffMapping[j]
  {
  }

  /** Re-ordering twice gives the flags back, and re-ordering only permutes. */
  lemma ReorderInvolution(flags: seq<int>)
    requires |flags| == 8
    ensures Reorder(Reorder(flags)) == flags
    ensures multiset(Reorder(flags)) == multiset(flags)
  {
    ReorderPermutes(flags);
  }

  lemma ReorderPermutes(flags: seq<int>)
    requires |flags| == 8
    ensures multiset(Reorder(flags)) == multiset(flags)
  {
    var r := Reorder(flags);
    assert r[1] == flags[2] && r[2] == flags[1] && r[5] == flags[6] && r[6] == flags[5];
    assert r == flags[..1] + [flags[2], flags[1]] + flags[3..5] + [flags[6], flags[5]] + flags[7..];
    assert flags == flags[..1] + [flags[1], flags[2]] + flags[3..5] + [flags[5], flags[6]] + flags[7..];
    assert multiset([flags[2], flags[1]]) == multiset([flags[1], flags[2]]);
    assert multiset([flags[6], flags[5]]) == multiset([flags[5], flags[6]]);
  }

  /** Which of the two silence reports a kind refers to. */
  function Reported(s: MonitorState, k: EventKind): bool
    requires k == KTimeout || k == KShutdown
  {
    if k == KTimeout then s.timeoutReported else s.shutdownReported
  }

  function Threshold(k: EventKind): int
    requires k == KTimeout || k == KShutdown
  {
    if k == KTimeout then TimeoutTicks else ShutdownTicks
  }

  /** One pass posts a silence report only when the silence exceeds its
      threshold and it was not reported yet in this silence episode. */
  lemma StepReport(env: Env, s: MonitorState, inp: CycleInput, k: EventKind)
    requires Valid(s) && (k == KTimeout || k == KShutdown)
    ensures Count(Step(env, s, inp).events, k) <= 1
    ensures Count(Step(env, s, inp).events, k) == 1 <==>
      !inp.cancelled && inp.frame.None? && !Reported(s, k) && inp.now - s.startTime > Threshold(k)
  {
    if !inp.cancelled {
      var (s1, e1) := ApplyReset(s);
      var (s2, e2) := ApplyFrame(env, s1, inp.now, inp.frame);
      var (s3, e3) := CheckSilence(s2, inp.now);
      FrameNoSilenceReport(env, s1, inp.now, inp.frame, k);
      SilenceCount(s2, inp.now, k);
      CountAppend(e1, e2, k);
      CountAppend(e1 + e2, e3, k);
    }
  }

  /** Frame receipt posts no silence report. */
  lemma FrameNoSilenceReport(env: Env, s: MonitorState, now: int, frame: Option<seq<seq<Byte>>>, k: EventKind)
    requires Valid(s) && (k == KTimeout || k == KShutdown)
    ensures Count(ApplyFrame(env, s, now, frame).1, k) == 0
  {
    if frame.Some? {
      FrameEventCounts(env, ReceiveFrame(env, s.accumulated, frame.value));
    }
  }

  /** The silence checks post a report exactly when it is due and not yet made. */
  lemma SilenceCount(s: MonitorState, now: int, k: EventKind)
    requires k == KTimeout || k == KShutdown
    ensures Count(CheckSilence(s, now).1, k) == (if !Reported(s, k) && now - s.startTime > Threshold(k) then 1 else 0)
  {
    var timeout := now - s.startTime > TimeoutTicks && !s.timeoutReported;
    var shutdown := now - s.startTime > ShutdownTicks && !s.shutdownReported;
    var t: seq<Event> := if timeout then [TimeoutReached(TimeoutText)] else [];
    var d: seq<Event> := if shutdown then [ShutdownReached(ShutdownText)] else [];
    CountAppend(t, d, k);
  }

  /** The number of inputs that carry a frame. */
  function Frames(inputs: seq<CycleInput>): nat
    decreases |inputs|
  {
    if |inputs| == 0 then 0 else (if inputs[0].frame.Some? then 1 else 0) + Frames(inputs[1..])
  }

  /** Over any run, each silence report is posted at most once per silence
      episode: at most once before the first frame (none if it was already
      reported) and at most once after each frame. */
  lemma {:induction false} ReportsPerEpisode(env: Env, s: MonitorState, inputs: seq<CycleInput>, k: EventKind)
    requires Valid(s) && (k == KTimeout || k == KShutdown)
    ensures Count(Run(env, s, inputs).events, k) <= (if Reported(s, k) then 0 else 1) + Frames(inputs)
    decreases |inputs|
  {
    if |inputs| > 0 {
      var c := Step(env, s, inputs[0]);
      StepReport(env, s, inputs[0], k);
      if c.running {
        ReportsPerEpisode(env, c.state, inputs[1..], k);
        CountAppend(c.events, Run(env, c.state, inputs[1..]).events, k);
      }
    }
  }

  /** Whether some input of a silent run is past the threshold. */
  predicate SilenceExceeds(s: MonitorState, inputs: seq<CycleInput>, k: EventKind)
    requires k == KTimeout || k == KShutdown
  {
    exists i :: 0 <= i < |inputs| && inputs[i].now - s.startTime > Threshold(k)
  }

  /** In a run without frames or cancellation, each silence report is
      posted exactly once if the silence ever exceeds its threshold and it
      was not yet reported, and never otherwise. */
  lemma {:induction false} SilentRunReportsOnce(env: Env, s: MonitorState, inputs: seq<CycleInput>, k: EventKind)
    requires Valid(s) && (k == KTimeout || k == KShutdown)
    requires forall i :: 0 <= i < |inputs| ==> !inputs[i].cancelled && inputs[i].frame.None?
    ensures Count(Run(env, s, inputs).events, k) ==
      (if !Reported(s, k) && SilenceExceeds(s, inputs, k) then 1 else 0)
    ensures Run(env, s, inputs).state.startTime == s.startTime
    ensures Reported(Run(env, s, inputs).state, k) <==> Reported(s, k) || SilenceExceeds(s, inputs, k)
    decreases |inputs|
  {
    if |inputs| > 0 {
      var c := Step(env, s, inputs[0]);
      StepReport(env, s, inputs[0], k);
      SilentRunReportsOnce(env, c.state, inputs[1..], k);
      CountAppend(c.events, Run(env, c.state, inputs[1..]).events, k);
      SilenceExceedsCons(s, c.state, inputs, k);
    }
  }

  /** A silent run exceeds the threshold when its first input does or the
      rest of it does, measured from the same start. */
  lemma SilenceExceedsCons(s: MonitorState, s': MonitorState, inputs: seq<CycleInput>, k: EventKind)
    requires |inputs| > 0 && s'.startTime == s.startTime && (k == KTimeout || k == KShutdown)
    ensures SilenceExceeds(s, inputs, k) <==>
      inputs[0].now - s.startTime > Threshold(k) || SilenceExceeds(s', inputs[1..], k)
  {
    if SilenceExceeds(s, inputs, k) {
      var i :| 0 <= i < |inputs| && inputs[i].now - s.startTime > Threshold(k);
      if i > 0 {
        assert inputs[1..][i - 1] == inputs[i];
      }
    }
    if SilenceExceeds(s', inputs[1..], k) {
      var i :| 0 <= i < |inputs[1..]| && inputs[1..][i].now - s'.startTime > Threshold(k);
      assert inputs[i + 1] == inputs[1..][i];
    }
  }

  /** A frame whose decoding raises still counts as activity: the loop goes
      on, the timer restarts, and exactly one ExceptionCaught is posted for it. */
  lemma FaultyFrameContained(env: Env, s: MonitorState, inp: CycleInput)
    requires Valid(s) && !inp.cancelled && inp.frame.Some?
    requires ReceiveFrame(env, ApplyReset(s).0.accumulated, inp.frame.value).raised.Some?
    ensures Step(env, s, inp).running
    ensures Step(env, s, inp).state.startTime == inp.now
    ensures Count(Step(env, s, inp).events, KException) == 1
  {
    var (s1, e1) := ApplyReset(s);
    var (s2, e2) := ApplyFrame(env, s1, inp.now, inp.frame);
    var (s3, e3) := CheckSilence(s2, inp.now);
    var h := ReceiveFrame(env, s1.accumulated, inp.frame.value);
    assert e2 == FrameEvents(env, h);
    FrameEventCounts(env, h);
    assert e3 == [];
    assert Step(env, s, inp).events == e1 + e2 + e3;
    CountAppend(e1, e2, KException);
    CountAppend(e1 + e2, e3, KException);
  }

  /** Two reset requests separated by a pass, with no frames, leave the
      accumulator at zero and post two OutbuffChanged, one per pass; two
      requests before the same pass are one request. */
  lemma ResetTwice(env: Env, s: MonitorState, now1: int, now2: int)
    requires Valid(s)
    ensures RequestReset(RequestReset(s)) == RequestReset(s)
    ensures
      var c1 := Step(env, RequestReset(s), CycleInput(now1, false, None));
      var c2 := Step(env, RequestReset(c1.state), CycleInput(now2, false, None));
      && c2.state.accumulated == NoErrors
      && Count(c1.events + c2.events, KOutbuff) == 2
  {
    var c1 := Step(env, RequestReset(s), CycleInput(now1, false, None));
    var c2 := Step(env, RequestReset(c1.state), CycleInput(now2, false, None));
    OutbuffOnlyFromReset(env, RequestReset(s), now1);
    OutbuffOnlyFromReset(env, RequestReset(c1.state), now2);
    CountAppend(c1.events, c2.events, KOutbuff);
  }

  /** A pass without a frame posts OutbuffChanged only for a pending reset. */
  lemma OutbuffOnlyFromReset(env: Env, s: MonitorState, now: int)
    requires Valid(s)
    ensures Count(Step(env, s, CycleInput(now, false, None)).events, KOutbuff) == (if s.resetRequested then 1 else 0)
  {
    var (s1, e1) := ApplyReset(s);
    var (s3, e3) := CheckSilence(s1, now);
    assert Count(e3, KOutbuff) == 0 by {
      CountZero(e3, KOutbuff);
    }
    CountAppend(e1, [], KOutbuff);
    CountAppend(e1 + [], e3, KOutbuff);
  }

  /** The AEB state key names its unit and its status: two statuses that
      give the same key for a unit are the same status. */
  lemma AebKeyInjective(unit: string, a: AebStatus, b: AebStatus)
    requires StateKey(a).Some? && StateKey(b).Some?
    requires Lower(unit) + StateKey(a).value.0 == Lower(unit) + StateKey(b).value.0
    ensures a == b
  {
    var ka := StateKey(a).value.0;
    var kb := StateKey(b).value.0;
    assert ka == (Lower(unit) + ka)[|Lower(unit)|..];
    assert kb == (Lower(unit) + kb)[|Lower(unit)|..];
  }
}
