/** The DEB mode indicators and the five DEB mode buttons, which the main
    screen (src/f_fee_tui/_master_screen.py) and the stand-alone app
    (src/f_fee_tui/app.py) implement identically. */
module DebPanel {
  import opened Wrappers
  import opened Commands

  /** The six DEB mode indicators. */
  datatype Led = FullImage | FullImagePattern | Windowing | WindowingPattern | Standby | On

  /** The widget id of an indicator. */
  function LedId(l: Led): string
  {
    match l
    case FullImage => "deb-full-image"
    case FullImagePattern => "deb-full-image-pattern"
    case Windowing => "deb-windowing"
    case WindowingPattern => "deb-windowing-pattern"
    case Standby => "deb-standby"
    case On => "deb-on"
  }

  /** The six indicators are all there are. */
  lemma EveryLed(l: Led)
    ensures l in {FullImage, FullImagePattern, Windowing, WindowingPattern, Standby, On}
  {
  }

  /** The DEB mode value an indicator stands for. */
  function ModeOf(l: Led): (mode: int)
    ensures 0 <= mode <= 7
  {
    match l
    case FullImage => 0
    case FullImagePattern => 1
    case Windowing => 2
    case WindowingPattern => 3
    case Standby => 6
    case On => 7
  }

  /** The DEB mode values that have an indicator. */
  predicate KnownMode(mode: int)
  {
    mode == 0 || mode == 1 || mode == 2 || mode == 3 || mode == 6 || mode == 7
  }

  /** The `if`/`elif` chain of `on_deb_mode_changed`: the indicator a mode
      value switches on, if any. */
  function ModeLed(mode: int): (r: Option<Led>)
  {
    if mode == 0 then Some(FullImage)
    else if mode == 1 then Some(FullImagePattern)
    else if mode == 2 then Some(Windowing)
    else if mode == 3 then Some(WindowingPattern)
    else if mode == 6 then Some(Standby)
    else if mode == 7 then Some(On)
    else None
  }

  /** `on_deb_mode_changed`: the set of lit indicators after the handler,
      given those lit before. All six are switched off first, then the
      chain switches on at most one. */
  function OnDebModeChanged(lit: set<Led>, mode: int): (r: set<Led>)
    ensures |r| <= 1
  {
    // All six are switched off, in this order.
    var cleared := lit - {FullImage, FullImagePattern, Windowing, WindowingPattern, Standby, On};
    assert cleared == {} by {
      forall l | l in cleared ensures false {
        EveryLed(l);
      }
    }
    match ModeLed(mode)
    case None => cleared
    case Some(l) => cleared + {l}
  }

  /** An indicator is lit after the handler exactly when it stands for the
      reported mode, whatever was lit before. */
  lemma OnDebModeChangedLights(lit: set<Led>, mode: int, l: Led)
    ensures l in OnDebModeChanged(lit, mode) <==> ModeOf(l) == mode
  {
  }

  /** Exactly one indicator is lit for the modes 0, 1, 2, 3, 6 and 7, and
      none for any other value. */
  lemma OnDebModeChangedOneHot(lit: set<Led>, mode: int)
    ensures KnownMode(mode) ==> |OnDebModeChanged(lit, mode)| == 1
    ensures !KnownMode(mode) ==> OnDebModeChanged(lit, mode) == {}
  {
    var r := OnDebModeChanged(lit, mode);
    if KnownMode(mode) {
      assert ModeLed(mode).Some?;
      assert ModeLed(mode).value in r;
    } else {
      forall l | l in r ensures false {
        OnDebModeChangedLights(lit, mode, l);
      }
    }
  }

  /** `ModeOf` and the handler's chain are inverse to each other. */
  lemma ModeLedInverse(l: Led, mode: int)
    ensures ModeLed(ModeOf(l)) == Some(l)
    ensures ModeLed(mode).Some? <==> KnownMode(mode)
    ensures ModeLed(mode).Some? ==> ModeOf(ModeLed(mode).value) == mode
  {
  }

  /** The five DEB mode buttons. */
  datatype DebButton = BtnOn | BtnImmediateOn | BtnStandby | BtnFullImage | BtnFullImagePattern

  /** The DPU operation a button's handler names. */
  function ButtonOp(b: DebButton): string
  {
    match b
    case BtnOn => "deb_set_on_mode"
    case BtnImmediateOn => "deb_set_immediate_on"
    case BtnStandby => "deb_set_standby_mode"
    case BtnFullImage => "deb_set_full_image_mode"
    case BtnFullImagePattern => "deb_set_full_image_pattern_mode"
  }

  /** The button whose handler names an operation, if any. */
  function ButtonOfOp(op: string): (r: Option<DebButton>)
  {
    if op == "deb_set_on_mode" then Some(BtnOn)
    else if op == "deb_set_immediate_on" then Some(BtnImmediateOn)
    else if op == "deb_set_standby_mode" then Some(BtnStandby)
    else if op == "deb_set_full_image_mode" then Some(BtnFullImage)
    else if op == "deb_set_full_image_pattern_mode" then Some(BtnFullImagePattern)
    else None
  }

  /** The command a DEB button enqueues: `("DPU", op, [], {})`. */
  function ButtonCommand(b: DebButton): (c: Command)
    ensures c.target == "DPU" && c.args == [] && c.kwargs == map[]
  {
    DpuCommand(ButtonOp(b), [])
  }

  /** Each button names a different operation, so the command on the
      queue tells which button was pressed. */
  lemma ButtonOpInverse(b: DebButton)
    ensures ButtonOfOp(ButtonOp(b)) == Some(b)
  {
  }

  lemma ButtonCommandInjective(a: DebButton, b: DebButton)
    ensures ButtonCommand(a) == ButtonCommand(b) <==> a == b
  {
    if ButtonCommand(a) == ButtonCommand(b) {
      ButtonOpInverse(a);
      ButtonOpInverse(b);
    }
  }
}
