/** The command side of the main screen (src/f_fee_tui/_master_screen.py):
    what each button handler puts on the command queue, the timed command
    sequences, the commanding on/off toggle and the shutdown order. A
    handler is modelled as the list of actions it performs, in order. */
module MasterScreen {
  import opened Wrappers
  import opened Commands
  import opened ClearableQueue
  import DebPanel
  import Dispatcher

  /** The severity of a notification. */
  datatype Severity = Information | Warning | Error

  /** The three commanding panels that can be disabled as a whole. */
  datatype Widget = DebCommandWidget | AebCommandWidget | GeneralCommandWidget

  /** One thing a handler does: put a command on the queue, show a
      notification, wait (in tenths of a second), or disable or enable a
      commanding panel. */
  datatype Action =
    | Enqueue(cmd: Command)
    | Notify(text: string, severity: Severity)
    | Sleep(tenths: nat)
    | SetDisabled(widget: Widget, disabled: bool)

  /** The commands a list of actions puts on the queue, in order. */
  function Enqueued(actions: seq<Action>): (cs: seq<Command>)
    ensures |cs| <= |actions|
  {
    if actions == [] then []
    else (if actions[0].Enqueue? then [actions[0].cmd] else []) + Enqueued(actions[1..])
  }

  lemma {:induction false} EnqueuedAppend(a: seq<Action>, b: seq<Action>)
    ensures Enqueued(a + b) == Enqueued(a) + Enqueued(b)
  {
    if a != [] {
      assert (a + b)[0] == a[0];
      assert (a + b)[1..] == a[1..] + b;
      EnqueuedAppend(a[1..], b);
    } else {
      assert a + b == b;
    }
  }

  // ---------------------------------------------------------------------
  // AEB buttons

  /** The message shown when no unit number can be read from a button id. */
  function NoUnitText(buttonId: string): string
  {
    "Couldn't match AEB number in " + buttonId
  }

  /** `[1 if aeb_nr == x else 0 for x in (1, 2, 3, 4)]`. */
  function OneHot(n: AebNr): (args: seq<Arg>)
    ensures |args| == 4
  {
    seq(4, i requires 0 <= i < 4 => IntArg(if n == i + 1 then 1 else 0))
  }

  /** The unit a power argument list selects: the position of its single
      1 among four 0/1 integers. */
  function DecodeOneHot(args: seq<Arg>): (r: Option<AebNr>)
  {
    if |args| != 4 then None
    else if forall i :: 0 <= i < 4 ==> args[i] == IntArg(0) || args[i] == IntArg(1) then
      if args == OneHot(1) then Some(1)
      else if args == OneHot(2) then Some(2)
      else if args == OneHot(3) then Some(3)
      else if args == OneHot(4) then Some(4)
      else None
    else None
  }

  /** The power argument list has exactly one 1, at the unit's position,
      and decodes back to the unit. */
  lemma OneHotRoundTrip(n: AebNr)
    ensures forall i :: 0 <= i < 4 ==> (OneHot(n)[i] == IntArg(1) <==> i == n - 1)
    ensures DecodeOneHot(OneHot(n)) == Some(n)
  {
    assert OneHot(1)[0] != OneHot(2)[0];
    assert OneHot(1)[0] != OneHot(3)[0] && OneHot(2)[1] != OneHot(3)[1];
    assert OneHot(1)[0] != OneHot(4)[0] && OneHot(2)[1] != OneHot(4)[1] && OneHot(3)[2] != OneHot(4)[2];
  }

  /** The power operation a power button names: on for an id ending in
      `-on`, off otherwise. */
  function PowerOp(buttonId: string): string
  {
    if EndsWith(buttonId, "-on") then "deb_set_aeb_power_on" else "deb_set_aeb_power_off"
  }

  /** `command_aeb_power`. `getAebNr` is `get_aeb_nr`, which is not part of
      this model: it reads a unit number from a button id or gives `None`. */
  function AebPowerPressed(buttonId: string, getAebNr: string -> Option<AebNr>): (r: seq<Action>)
    ensures |r| == 1
    ensures r[0].Enqueue? <==> getAebNr(buttonId).Some?
    ensures r[0].Enqueue? ==>
      && r[0].cmd.target == "DPU"
      && (r[0].cmd.op == "deb_set_aeb_power_on" <==> EndsWith(buttonId, "-on"))
      && DecodeOneHot(r[0].cmd.args) == getAebNr(buttonId)
    ensures r[0].Notify? ==> r[0].severity == Error
  {
    match getAebNr(buttonId)
    case None => [Notify(NoUnitText(buttonId), Error)]
    case Some(n) =>
      OneHotRoundTrip(n);
      [Enqueue(DpuCommand(PowerOp(buttonId), OneHot(n)))]
  }

  /** The four AEB mode buttons. */
  datatype AebMode = InitMode | ConfigMode | ImageMode | PatternMode

  /** The DPU operation of a mode button; the pattern button has none. */
  function ModeOp(m: AebMode): Option<string>
  {
    match m
    case InitMode => Some("aeb_set_init_mode")
    case ConfigMode => Some("aeb_set_config_mode")
    case ImageMode => Some("aeb_set_image_mode")
    case PatternMode => None
  }

  const PatternText: string := "AEB Pattern mode not yet implemented."

  /** The handlers of the INIT, CONFIG, IMAGE and PATTERN buttons. The first
      three enqueue `("DPU", op, ["AEB<n>"], {})`; the pattern handler only
      warns, without looking at the button id. */
  function AebModePressed(mode: AebMode, buttonId: string, getAebNr: string -> Option<AebNr>): (r: seq<Action>)
    ensures |r| == 1
    ensures r[0].Enqueue? <==> mode != PatternMode && getAebNr(buttonId).Some?
    ensures r[0].Enqueue? ==>
      && r[0].cmd.target == "DPU" && Some(r[0].cmd.op) == ModeOp(mode)
      && |r[0].cmd.args| == 1 && r[0].cmd.args[0].StrArg?
      && ParseAebName(r[0].cmd.args[0].s) == getAebNr(buttonId)
    ensures mode == PatternMode ==> r == [Notify(PatternText, Warning)]
  {
    match ModeOp(mode)
    case None => [Notify(PatternText, Warning)]
    case Some(op) =>
      match getAebNr(buttonId)
      case None => [Notify(NoUnitText(buttonId), Error)]
      case Some(n) =>
        AebNameRoundTrip(n);
        [Enqueue(DpuCommand(op, [StrArg(AebName(n))]))]
  }

  // ---------------------------------------------------------------------
  // DEB buttons and the timed sequences

  /** `[True, True, True, True]`. */
  const AllTrue: seq<Arg> := [BoolArg(true), BoolArg(true), BoolArg(true), BoolArg(true)]

  /** `aeb_set_init_mode` for each unit in `units`, in order. */
  function InitUnits(units: seq<string>): (r: seq<Action>)
    ensures |r| == |units|
    ensures forall i :: 0 <= i < |units| ==> r[i] == Enqueue(DpuCommand("aeb_set_init_mode", [StrArg(units[i])]))
  {
    if units == [] then [] else [Enqueue(DpuCommand("aeb_set_init_mode", [StrArg(units[0])]))] + InitUnits(units[1..])
  }

  lemma {:induction false} InitCommands(units: seq<string>)
    ensures |Enqueued(InitUnits(units))| == |units|
    ensures forall i :: 0 <= i < |units| ==>
      Enqueued(InitUnits(units))[i] == DpuCommand("aeb_set_init_mode", [StrArg(units[i])])
  {
    if units != [] {
      assert InitUnits(units)[1..] == InitUnits(units[1..]);
      InitCommands(units[1..]);
    }
  }

  /** `command_deb_to_immediate_on`: the DEB to ON at once, every unit to
      INIT, then after six seconds every unit's power off. */
  function ImmediateOn(): (r: seq<Action>)
    ensures forall i :: 0 <= i < |r| ==> r[i].Enqueue? || r[i] == Sleep(60)
  {
    [Enqueue(DpuCommand("deb_set_immediate_on", []))]
    + InitUnits(AebNames)
    + [Sleep(60), Enqueue(DpuCommand("deb_set_aeb_power_off", AllTrue))]
  }

  /** The immediate-on sequence enqueues six commands: the DEB command
      first, the four units' INIT commands in unit order, and the power-off
      of all four units last, and only that last one waits for the six
      second pause. */
  lemma ImmediateOnCommands()
    ensures |Enqueued(ImmediateOn())| == 6
    ensures Enqueued(ImmediateOn())[0] == DpuCommand("deb_set_immediate_on", [])
    ensures forall n: AebNr :: Enqueued(ImmediateOn())[n] == DpuCommand("aeb_set_init_mode", [StrArg(AebName(n))])
    ensures Enqueued(ImmediateOn())[5] == DpuCommand("deb_set_aeb_power_off", AllTrue)
    ensures forall i :: 0 <= i < |ImmediateOn()| && ImmediateOn()[i].Sleep? ==> i == |ImmediateOn()| - 2
  {
    var units := InitUnits(AebNames);
    var tail: seq<Action> := [Sleep(60), Enqueue(DpuCommand("deb_set_aeb_power_off", AllTrue))];
    var head: seq<Action> := [Enqueue(DpuCommand("deb_set_immediate_on", []))];
    assert ImmediateOn() == head + units + tail;
    EnqueuedAppend(head + units, tail);
    EnqueuedAppend(head, units);
    InitCommands(AebNames);
    assert Enqueued(tail) == [DpuCommand("deb_set_aeb_power_off", AllTrue)] by {
      assert tail[1..][1..] == [];
    }
    assert Enqueued(head) == [DpuCommand("deb_set_immediate_on", [])] by {
      assert head[1..] == [];
    }
    forall n: AebNr ensures Enqueued(ImmediateOn())[n] == DpuCommand("aeb_set_init_mode", [StrArg(AebName(n))]) {
      AebNamesAgree(n);
    }
  }

  /** A DEB button on this screen: the immediate-on button runs its
      sequence, the other four enqueue their single command. */
  function DebButtonPressed(b: DebPanel.DebButton): (r: seq<Action>)
    ensures b != DebPanel.BtnImmediateOn ==> Enqueued(r) == [DebPanel.ButtonCommand(b)]
  {
    if b == DebPanel.BtnImmediateOn then ImmediateOn() else [Enqueue(DebPanel.ButtonCommand(b))]
  }

  /** The power-on flags list after its first k entries were set. */
  function PowerOnList(k: nat): (flags: seq<bool>)
    requires k <= 4
    ensures |flags| == 4
    ensures forall i :: 0 <= i < 4 ==> (flags[i] <==> i < k)
  {
    seq(4, i requires 0 <= i < 4 => i < k)
  }

  /** The k-th power-on command, with the list as it stands after the k-th
      flag is set. */
  function PowerOnCommand(k: nat): Command
    requires 1 <= k <= 4
  {
    DpuCommand("deb_set_aeb_power_on", BoolArgs(PowerOnList(k)))
  }

  /** The defaults command of one unit. */
  function DefaultsCommand(unit: string): Command
  {
    DpuCommand("set_fpga_defaults", [StrArg(unit)])
  }

  function BoolArgs(bs: seq<bool>): (args: seq<Arg>)
    ensures |args| == |bs|
    ensures forall i :: 0 <= i < |bs| ==> args[i] == BoolArg(bs[i])
  {
    seq(|bs|, i requires 0 <= i < |bs| => BoolArg(bs[i]))
  }

  /** The power-on loop of `set_fpga_defaults` from unit k+1 on: set the
      unit's flag, enqueue the list as it stands, wait 2.5 s. */
  function PowerOnSteps(k: nat): (r: seq<Action>)
    requires k <= 4
    ensures |r| == 2 * (4 - k)
    ensures forall i :: 0 <= i < |r| ==> r[i].Enqueue? || r[i].Sleep?
    decreases 4 - k
  {
    if k == 4 then []
    else [Enqueue(PowerOnCommand(k + 1)), Sleep(25)] + PowerOnSteps(k + 1)
  }

  /** The defaults loop of `set_fpga_defaults`: a notification and a
      `set_fpga_defaults` command per unit. */
  function UnitDefaults(units: seq<string>): (r: seq<Action>)
    ensures |r| == 2 * |units|
    ensures forall i :: 0 <= i < |r| ==> r[i].Notify? || r[i].Enqueue?
  {
    if units == [] then []
    else [Notify("Set FPGA defaults for the " + units[0], Information),
          Enqueue(DefaultsCommand(units[0]))] + UnitDefaults(units[1..])
  }

  /** Disabling or enabling the three commanding panels. */
  function SetPanels(disabled: bool): seq<Action>
  {
    [SetDisabled(DebCommandWidget, disabled), SetDisabled(AebCommandWidget, disabled),
     SetDisabled(GeneralCommandWidget, disabled)]
  }

  /** What `set_fpga_defaults` does between disabling and re-enabling the
      commanding panels. */
  function FpgaDefaultsBody(units: seq<string>): (r: seq<Action>)
    ensures forall i :: 0 <= i < |r| ==> !r[i].SetDisabled?
  {
    DebDefaultsSteps() + PowerOnSteps(0) + UnitDefaults(units)
  }

  /** The DEB part of `set_fpga_defaults`, up to the power-on loop. */
  function DebDefaultsSteps(): (r: seq<Action>)
    ensures forall i :: 0 <= i < |r| ==> !r[i].SetDisabled?
  {
    [Notify("Set FPGA defaults for the DEB", Information),
     Enqueue(DefaultsCommand("DEB")),
     Sleep(25),
     Notify("Power ON all AEBs", Information)]
  }

  /** `set_fpga_defaults`. */
  function SetFpgaDefaults(units: seq<string>): (r: seq<Action>)
    ensures Enqueued(r) == Enqueued(FpgaDefaultsBody(units))
    ensures forall i :: 0 <= i < |r| && r[i].SetDisabled? ==> (i < 3 <==> r[i].disabled) && (i < 3 || i >= |r| - 3)
  {
    var body := FpgaDefaultsBody(units);
    EnqueuedAppend(SetPanels(true), body);
    EnqueuedAppend(SetPanels(true) + body, SetPanels(false));
    assert Enqueued(SetPanels(true)) == [] && Enqueued(SetPanels(false)) == [];
    SetPanels(true) + body + SetPanels(false)
  }

  /** The defaults command of each unit, in order. */
  function DefaultsCommandsOf(units: seq<string>): (cs: seq<Command>)
    ensures |cs| == |units|
    ensures forall i :: 0 <= i < |units| ==> cs[i] == DefaultsCommand(units[i])
  {
    seq(|units|, i requires 0 <= i < |units| => DefaultsCommand(units[i]))
  }

  /** `set_fpga_defaults` enqueues the DEB defaults first; then four
      power-on commands, the k-th with exactly its first k flags set when
      it is enqueued; then the defaults of each unit in turn. With the
      handler's units that is nine commands. */
  lemma FpgaDefaultsCommands(units: seq<string>)
    ensures Enqueued(SetFpgaDefaults(units)) ==
      [DefaultsCommand("DEB"), PowerOnCommand(1), PowerOnCommand(2), PowerOnCommand(3), PowerOnCommand(4)]
      + DefaultsCommandsOf(units)
    ensures units == AebNames ==> |Enqueued(SetFpgaDefaults(units))| == 9
  {
    PanelsEnqueueNothing(units);
    FpgaBodyEnqueued(units);
    PowerOnAll();
    DefaultsCommands(units);
  }

  /** Disabling and enabling the panels puts nothing on the queue. */
  lemma PanelsEnqueueNothing(units: seq<string>)
    ensures Enqueued(SetFpgaDefaults(units)) == Enqueued(FpgaDefaultsBody(units))
  {
    var a := SetPanels(true);
    var e := SetPanels(false);
    EnqueuedAppend(a + FpgaDefaultsBody(units), e);
    EnqueuedAppend(a, FpgaDefaultsBody(units));
    NothingEnqueued(a);
    NothingEnqueued(e);
  }

  /** Actions without an `Enqueue` put nothing on the queue. */
  lemma {:induction false} NothingEnqueued(a: seq<Action>)
    requires forall i :: 0 <= i < |a| ==> !a[i].Enqueue?
    ensures Enqueued(a) == []
  {
    if a != [] {
      NothingEnqueued(a[1..]);
    }
  }

  lemma PowerOnAll()
    ensures Enqueued(PowerOnSteps(0)) == [PowerOnCommand(1), PowerOnCommand(2), PowerOnCommand(3), PowerOnCommand(4)]
  {
    PowerOnCommands(0);
  }

  lemma FpgaBodyEnqueued(units: seq<string>)
    ensures Enqueued(FpgaDefaultsBody(units)) ==
      [DefaultsCommand("DEB")] + Enqueued(PowerOnSteps(0)) + Enqueued(UnitDefaults(units))
  {
    var b := DebDefaultsSteps();
    var c := PowerOnSteps(0);
    var d := UnitDefaults(units);
    EnqueuedAppend(b + c, d);
    EnqueuedAppend(b, c);
    DebDefaultsEnqueued();
  }

  lemma DebDefaultsEnqueued()
    ensures Enqueued(DebDefaultsSteps()) == [DefaultsCommand("DEB")]
  {
    var b := DebDefaultsSteps();
    assert b[1..][1..] == [Sleep(25), Notify("Power ON all AEBs", Information)];
    NothingEnqueued(b[1..][1..]);
  }

  lemma {:induction false} PowerOnCommands(k: nat)
    requires k <= 4
    ensures |Enqueued(PowerOnSteps(k))| == 4 - k
    ensures forall j :: 0 <= j < 4 - k ==> Enqueued(PowerOnSteps(k))[j] == PowerOnCommand(k + j + 1)
    decreases 4 - k
  {
    if k < 4 {
      var step: seq<Action> := [Enqueue(PowerOnCommand(k + 1)), Sleep(25)];
      assert Enqueued(step) == [PowerOnCommand(k + 1)] by {
        assert step[1..][1..] == [];
      }
      EnqueuedAppend(step, PowerOnSteps(k + 1));
      PowerOnCommands(k + 1);
      var r := Enqueued(PowerOnSteps(k));
      assert r == [PowerOnCommand(k + 1)] + Enqueued(PowerOnSteps(k + 1));
      forall j | 0 <= j < 4 - k ensures r[j] == PowerOnCommand(k + j + 1) {
        if j > 0 {
          assert r[j] == Enqueued(PowerOnSteps(k + 1))[j - 1];
        }
      }
    }
  }

  lemma {:induction false} DefaultsCommands(units: seq<string>)
    ensures Enqueued(UnitDefaults(units)) == DefaultsCommandsOf(units)
  {
    if units != [] {
      var step: seq<Action> := [Notify("Set FPGA defaults for the " + units[0], Information),
                                Enqueue(DefaultsCommand(units[0]))];
      assert Enqueued(step) == [DefaultsCommand(units[0])] by {
        assert step[1..][1..] == [];
      }
      EnqueuedAppend(step, UnitDefaults(units[1..]));
      DefaultsCommands(units[1..]);
      assert DefaultsCommandsOf(units) == [DefaultsCommand(units[0])] + DefaultsCommandsOf(units[1..]);
    }
  }

  /** The power-on list is one object that the loop keeps changing after
      putting it on the queue, so the dispatcher sees it as it is when the
      command is taken off. Flags are only ever set, so whenever the k-th
      power-on command is executed, its first k flags are set. */
  lemma PowerOnListGrows(k: nat, later: nat)
    requires 1 <= k <= later <= 4
    ensures forall i :: 0 <= i < k ==> PowerOnList(later)[i]
  {
  }

  /** Whether a panel is disabled after some actions, starting from
      `initially`. */
  function DisabledAfter(initially: bool, actions: seq<Action>, w: Widget): bool
    decreases |actions|
  {
    if actions == [] then initially
    else
      var last := actions[|actions| - 1];
      if last.SetDisabled? && last.widget == w then last.disabled
      else DisabledAfter(initially, actions[..|actions| - 1], w)
  }

  /** Setting all three panels leaves each in the state set, whatever came
      before. */
  lemma PanelsSet(initially: bool, before: seq<Action>, d: bool, w: Widget)
    ensures DisabledAfter(initially, before + SetPanels(d), w) == d
  {
    var s := before + SetPanels(d);
    var s1 := before + [SetDisabled(DebCommandWidget, d), SetDisabled(AebCommandWidget, d)];
    var s2 := before + [SetDisabled(DebCommandWidget, d)];
    assert s[|s| - 1] == SetDisabled(GeneralCommandWidget, d);
    assert s[..|s| - 1] == s1;
    assert s1[|s1| - 1] == SetDisabled(AebCommandWidget, d);
    assert s1[..|s1| - 1] == s2;
    assert s2[|s2| - 1] == SetDisabled(DebCommandWidget, d);
    if w != GeneralCommandWidget {
      assert DisabledAfter(initially, s, w) == DisabledAfter(initially, s1, w);
      if w != AebCommandWidget {
        assert DisabledAfter(initially, s1, w) == DisabledAfter(initially, s2, w);
      }
    }
  }

  /** Actions that touch no panel leave every panel as it was. */
  lemma {:induction false} NoPanelActions(initially: bool, before: seq<Action>, body: seq<Action>, w: Widget)
    requires forall i :: 0 <= i < |body| ==> !body[i].SetDisabled?
    ensures DisabledAfter(initially, before + body, w) == DisabledAfter(initially, before, w)
    decreases |body|
  {
    if body != [] {
      var s := before + body;
      var front := body[..|body| - 1];
      assert s[|s| - 1] == body[|body| - 1];
      assert !s[|s| - 1].SetDisabled?;
      assert s[..|s| - 1] == before + front;
      assert DisabledAfter(initially, s, w) == DisabledAfter(initially, before + front, w);
      assert forall i :: 0 <= i < |front| ==> !front[i].SetDisabled? by {
        forall i | 0 <= i < |front| ensures !front[i].SetDisabled? {
          assert front[i] == body[i];
        }
      }
      NoPanelActions(initially, before, front, w);
    } else {
      assert before + body == before;
    }
  }

  /** While `set_fpga_defaults` enqueues, all three commanding panels are
      disabled, whatever their state before; at the end all three are
      enabled again. */
  lemma FpgaDefaultsLocksPanels(initially: bool, units: seq<string>, w: Widget)
    ensures forall i :: 0 <= i < |SetFpgaDefaults(units)| && SetFpgaDefaults(units)[i].Enqueue? ==>
      DisabledAfter(initially, SetFpgaDefaults(units)[..i], w)
    ensures !DisabledAfter(initially, SetFpgaDefaults(units), w)
  {
    var s := SetFpgaDefaults(units);
    var body := FpgaDefaultsBody(units);
    PanelsSet(initially, SetPanels(true) + body, false, w);
    forall i | 0 <= i < |s| && s[i].Enqueue?
      ensures DisabledAfter(initially, s[..i], w)
    {
      assert 3 <= i < 3 + |body|;
      assert s[..i] == SetPanels(true) + body[..i - 3];
      PanelsSet(initially, [], true, w);
      assert [] + SetPanels(true) == SetPanels(true);
      NoPanelActions(initially, SetPanels(true), body[..i - 3], w);
    }
  }

  // ---------------------------------------------------------------------
  // General commanding

  /** `end_observation` on the general commanding panel: a notification and
      one command for the configuration manager. */
  function EndObservation(): (r: seq<Action>)
    ensures Enqueued(r) == [Command("CM_CS", "end_observation", [], map[])]
    ensures Dispatcher.Route(Enqueued(r)[0].target) == Some(Dispatcher.ConfigurationManager)
  {
    [Notify("Ending the current observation", Information), Enqueue(Command("CM_CS", "end_observation", [], map[]))]
  }

  // ---------------------------------------------------------------------
  // Commanding on and off (ctrl+k)

  /** The screen's `_commanding_disabled` flag, its `_commanding_widgets`
      list, and the `disabled` attribute of each panel that has one. */
  datatype Commanding = Commanding(disabled: bool, widgets: seq<Widget>, panel: map<Widget, bool>)

  /** The state `__init__` leaves: commanding enabled, no widgets listed. */
  function Created(): (c: Commanding)
    ensures !c.disabled && c.widgets == []
  {
    Commanding(false, [], map[])
  }

  /** The flag and every listed panel agree. */
  predicate Consistent(c: Commanding)
  {
    forall w :: w in c.widgets ==> w in c.panel && c.panel[w] == c.disabled
  }

  /** Sets `disabled` to d on each of the widgets. */
  function SetAll(panel: map<Widget, bool>, widgets: seq<Widget>, d: bool): (m: map<Widget, bool>)
    ensures forall w :: w in m <==> w in panel || w in widgets
    ensures forall w :: w in widgets ==> m[w] == d
    ensures forall w :: w in panel && w !in widgets ==> m[w] == panel[w]
    decreases |widgets|
  {
    if widgets == [] then panel else SetAll(panel[widgets[0] := d], widgets[1..], d)
  }

  /** `action_toggle_commanding`: flip the flag, then copy it onto every
      listed widget. */
  function Toggle(c: Commanding): (r: Commanding)
    ensures r.disabled == !c.disabled && r.widgets == c.widgets
    ensures Consistent(r)
    ensures forall w :: w in c.panel && w !in c.widgets ==> w in r.panel && r.panel[w] == c.panel[w]
  {
    Commanding(!c.disabled, c.widgets, SetAll(c.panel, c.widgets, !c.disabled))
  }

  /** Toggling twice from a consistent state gives the same state back. */
  lemma ToggleTwice(c: Commanding)
    requires Consistent(c)
    ensures Toggle(Toggle(c)) == c
  {
    var r := Toggle(Toggle(c));
    assert r.panel.Keys == c.panel.Keys;
    assert r.panel == c.panel;
  }

  /** `on_mount` lists the three panels and toggles once, so commanding
      starts out disabled with all three panels disabled. */
  function OnMount(c: Commanding): (r: Commanding)
    ensures r.widgets == [DebCommandWidget, AebCommandWidget, GeneralCommandWidget]
    ensures r.disabled == !c.disabled
  {
    Toggle(c.(widgets := [DebCommandWidget, AebCommandWidget, GeneralCommandWidget]))
  }

  lemma MountDisablesCommanding(w: Widget)
    ensures OnMount(Created()).disabled
    ensures w in OnMount(Created()).panel && OnMount(Created()).panel[w]
  {
    assert w in OnMount(Created()).widgets;
  }

  /** The panel states after some actions of a handler; the flag is left
      alone. */
  function ApplyPanels(c: Commanding, actions: seq<Action>): (r: Commanding)
    ensures r.disabled == c.disabled && r.widgets == c.widgets
    ensures r.panel.Keys >= c.panel.Keys
    decreases |actions|
  {
    if actions == [] then c
    else
      var front := ApplyPanels(c, actions[..|actions| - 1]);
      var last := actions[|actions| - 1];
      if last.SetDisabled? then front.(panel := front.panel[last.widget := last.disabled]) else front
  }

  /** Applying actions to the panels agrees with `DisabledAfter` for every
      panel that has a state. */
  lemma {:induction false} ApplyPanelsAgrees(c: Commanding, actions: seq<Action>, w: Widget)
    requires w in c.panel
    ensures ApplyPanels(c, actions).panel[w] == DisabledAfter(c.panel[w], actions, w)
    decreases |actions|
  {
    if actions != [] {
      ApplyPanelsAgrees(c, actions[..|actions| - 1], w);
    }
  }

  /** `set_fpga_defaults` writes the panels directly and ignores the flag:
      toggling commanding off while it sleeps leaves the flag saying
      disabled while all three panels end up enabled. */
  lemma ToggleDuringDefaults(units: seq<string>)
    ensures var c0 := Toggle(OnMount(Created()));
            var c1 := Toggle(ApplyPanels(c0, SetPanels(true) + FpgaDefaultsBody(units)));
            var c2 := ApplyPanels(c1, SetPanels(false));
            c0.disabled == false && Consistent(c0) && c2.disabled && !Consistent(c2)
  {
    var c0 := Toggle(OnMount(Created()));
    var c1 := Toggle(ApplyPanels(c0, SetPanels(true) + FpgaDefaultsBody(units)));
    var c2 := ApplyPanels(c1, SetPanels(false));
    assert GeneralCommandWidget in c1.widgets;
    ApplyPanelsAgrees(c1, SetPanels(false), GeneralCommandWidget);
    PanelsSet(c1.panel[GeneralCommandWidget], [], false, GeneralCommandWidget);
    assert [] + SetPanels(false) == SetPanels(false);
    assert GeneralCommandWidget in c2.widgets && !c2.panel[GeneralCommandWidget];
  }

  // ---------------------------------------------------------------------
  // Unmount

  /** The steps of `on_unmount`, with `ClearRaised` for the ValueError a
      surplus `task_done` in `clear()` lets escape, which ends the handler. */
  datatype ShutdownStep =
    | CancelMonitor | JoinMonitor | ClearQueue | ClearRaised | JoinQueue | CancelCommander | JoinCommander

  /** Where each step stands in the shutdown order. A raising clear ends
      the handler, so `ClearRaised` and `JoinQueue` never occur together and
      may share a place. */
  function Rank(step: ShutdownStep): nat
  {
    match step
    case CancelMonitor => 0
    case JoinMonitor => 1
    case ClearQueue => 2
    case ClearRaised => 3
    case JoinQueue => 3
    case CancelCommander => 4
    case JoinCommander => 5
  }

  /** Every step stands strictly later in the shutdown order than the one
      before it. */
  predicate InOrder(r: seq<ShutdownStep>)
    decreases |r|
  {
    |r| <= 1 || (Rank(r[0]) < Rank(r[1]) && InOrder(r[1..]))
  }

  /** Steps in order stand in order at any distance, not only next to each
      other. */
  lemma {:induction false} InOrderRanks(r: seq<ShutdownStep>, i: nat, j: nat)
    requires InOrder(r) && i < j < |r|
    ensures Rank(r[i]) < Rank(r[j])
    decreases |r|
  {
    if 0 < i {
      InOrderRanks(r[1..], i - 1, j - 1);
    } else if 1 < j {
      InOrderRanks(r[1..], 0, j - 1);
    }
  }

  /** What steps in order imply for any two of them: each thread is stopped
      before it is joined, the monitor before the queue is touched, and the
      queue before the command thread. */
  lemma OrderedSteps(r: seq<ShutdownStep>, i: nat, j: nat)
    requires InOrder(r) && i < |r| && j < |r|
    ensures r[i] in {CancelMonitor, JoinMonitor} && r[j] in {ClearQueue, JoinQueue} ==> i < j
    ensures r[i] == ClearQueue && r[j] in {JoinQueue, CancelCommander, JoinCommander} ==> i < j
    ensures r[i] == JoinQueue && r[j] in {CancelCommander, JoinCommander} ==> i < j
    ensures r[i] == CancelMonitor && r[j] == JoinMonitor ==> i < j
    ensures r[i] == CancelCommander && r[j] == JoinCommander ==> i < j
  {
    if j < i {
      InOrderRanks(r, j, i);
    }
  }

  /** `on_unmount`, given the command queue and whether each worker thread
      is still alive when checked. */
  function UnmountSteps<T>(q: Queue<T>, show: T -> string, monitorAlive: bool, commanderAlive: bool): (r: seq<ShutdownStep>)
    ensures |r| >= 3 && r[0] == CancelMonitor
    ensures JoinMonitor in r <==> monitorAlive
    ensures ClearQueue in r
    ensures ClearRaised in r <==> Drain(q, show).TaskDoneRaised?
    ensures JoinQueue in r <==> Drain(q, show).Cleared?
    ensures CancelCommander in r <==> Drain(q, show).Cleared?
    ensures JoinCommander in r <==> Drain(q, show).Cleared? && commanderAlive
  {
    ShutdownSteps(monitorAlive, Drain(q, show).Cleared?, commanderAlive)
  }

  /** The steps of `on_unmount` once it is known whether the clear returned. */
  function ShutdownSteps(monitorAlive: bool, cleared: bool, commanderAlive: bool): seq<ShutdownStep>
  {
    var stopMonitor := if monitorAlive then [CancelMonitor, JoinMonitor] else [CancelMonitor];
    if !cleared then stopMonitor + [ClearQueue, ClearRaised]
    else if commanderAlive then stopMonitor + [ClearQueue, JoinQueue, CancelCommander, JoinCommander]
    else stopMonitor + [ClearQueue, JoinQueue, CancelCommander]
  }

  /** Each step of `on_unmount` comes later in the shutdown order than the
      one before it, whatever the clear does and whichever threads are alive. */
  lemma ShutdownStepsInOrder(monitorAlive: bool, cleared: bool, commanderAlive: bool)
    ensures InOrder(ShutdownSteps(monitorAlive, cleared, commanderAlive))
  {
    var t: seq<ShutdownStep> := [];
    if cleared {
      if commanderAlive {
        InOrderCons(JoinCommander, t);
        t := [JoinCommander] + t;
      }
      InOrderCons(CancelCommander, t);
      t := [CancelCommander] + t;
      InOrderCons(JoinQueue, t);
      t := [JoinQueue] + t;
    } else {
      InOrderCons(ClearRaised, t);
      t := [ClearRaised] + t;
    }
    InOrderCons(ClearQueue, t);
    t := [ClearQueue] + t;
    if monitorAlive {
      InOrderCons(JoinMonitor, t);
      t := [JoinMonitor] + t;
    }
    InOrderCons(CancelMonitor, t);
    t := [CancelMonitor] + t;
    assert t == ShutdownSteps(monitorAlive, cleared, commanderAlive);
  }

  /** A step placed before steps in order keeps them in order when it comes
      earlier than the first of them. */
  lemma InOrderCons(x: ShutdownStep, r: seq<ShutdownStep>)
    requires InOrder(r) && (r != [] ==> Rank(x) < Rank(r[0]))
    ensures InOrder([x] + r)
  {
    assert ([x] + r)[1..] == r;
  }

  /** The monitor is stopped before the queue is cleared, and the queue is
      joined before the command thread is cancelled, so that a command the
      thread already took can still call `task_done`. Each thread is
      cancelled before it is joined. */
  lemma UnmountOrder<T>(q: Queue<T>, show: T -> string, monitorAlive: bool, commanderAlive: bool, i: nat, j: nat)
    requires i < |UnmountSteps(q, show, monitorAlive, commanderAlive)|
    requires j < |UnmountSteps(q, show, monitorAlive, commanderAlive)|
    ensures var r := UnmountSteps(q, show, monitorAlive, commanderAlive);
      (r[i] in {CancelMonitor, JoinMonitor} && r[j] == ClearQueue ==> i < j)
      && (r[i] == ClearQueue && r[j] in {JoinQueue, CancelCommander, JoinCommander} ==> i < j)
      && (r[i] == JoinQueue && r[j] in {CancelCommander, JoinCommander} ==> i < j)
      && (r[i] == CancelMonitor && r[j] == JoinMonitor ==> i < j)
      && (r[i] == CancelCommander && r[j] == JoinCommander ==> i < j)
  {
    ShutdownStepsInOrder(monitorAlive, Drain(q, show).Cleared?, commanderAlive);
    OrderedSteps(UnmountSteps(q, show, monitorAlive, commanderAlive), i, j);
  }

  /** With no more items pending than unfinished tasks the clear succeeds
      and the handler goes on to stop the command thread; `join()` waits for
      exactly the commands the thread has taken off but not yet marked
      done, so on a balanced queue it returns at once. */
  lemma UnmountJoin<T>(q: Queue<T>, show: T -> string, monitorAlive: bool, commanderAlive: bool)
    requires |q.items| <= q.unfinished
    ensures CancelCommander in UnmountSteps(q, show, monitorAlive, commanderAlive)
    ensures Drain(q, show).Cleared?
    ensures Drain(q, show).queue.unfinished == q.unfinished - |q.items|
    ensures Balanced(q) ==> JoinReturns(Drain(q, show).queue)
  {
    DrainOutcome(q, show);
  }

  /** With more items pending than unfinished tasks `clear()` raises and
      the handler never cancels the command thread. */
  lemma UnmountClearRaises<T>(q: Queue<T>, show: T -> string, monitorAlive: bool, commanderAlive: bool)
    requires |q.items| > q.unfinished
    ensures ClearRaised in UnmountSteps(q, show, monitorAlive, commanderAlive)
    ensures CancelCommander !in UnmountSteps(q, show, monitorAlive, commanderAlive)
  {
    DrainOutcome(q, show);
  }
}
