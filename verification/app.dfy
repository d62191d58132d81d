/** The stand-alone app (src/f_fee_tui/app.py): the DEB mode indicators,
    the five DEB buttons and the shutdown order. Unlike the main screen it
    uses a plain queue, its immediate-on button sends one command, and its
    mode handler also shows the new F-FEE mode by name. */
module App {
  import opened Wrappers
  import opened Commands
  import opened ClearableQueue
  import DebPanel
  import MasterScreen
  import Dispatcher
  import opened Messages

  /** A DEB button of the app: its one command is put on the queue. */
  function ButtonPressed(q: Queue<Command>, b: DebPanel.DebButton): (q': Queue<Command>)
    ensures |q'.items| == |q.items| + 1 && q'.items[..|q.items|] == q.items
    ensures Balanced(q) ==> Balanced(q')
  {
    Put(q, DebPanel.ButtonCommand(b))
  }

  /** The command a press leaves at the back of the queue is the button's
      own `("DPU", op, [], {})`, and it tells which button was pressed. */
  lemma ButtonPressedEnqueues(q: Queue<Command>, b: DebPanel.DebButton)
    ensures var last := ButtonPressed(q, b).items[|q.items|];
      && last.target == "DPU" && last.args == [] && last.kwargs == map[]
      && DebPanel.ButtonOfOp(last.op) == Some(b)
  {
    DebPanel.ButtonOpInverse(b);
  }

  /** The app's immediate-on button sends one command, where the main
      screen's sends six. */
  lemma ImmediateOnDiffers(q: Queue<Command>)
    ensures |ButtonPressed(q, DebPanel.BtnImmediateOn).items| - |q.items| == 1
    ensures |MasterScreen.Enqueued(MasterScreen.DebButtonPressed(DebPanel.BtnImmediateOn))| == 6
  {
    MasterScreen.ImmediateOnCommands();
  }

  /** `on_deb_mode_changed` of the app: the indicators as on the main
      screen, then the notification `F-FEE set to <name>`. `modeName` is
      `f_fee_mode(mode).name`, which is defined outside this repository
      and raises for a value that is not a mode (`None`); the exception
      escapes the handler after the indicators were set. */
  function OnDebModeChanged(lit: set<DebPanel.Led>, mode: int, modeName: int -> Option<string>): (r: (set<DebPanel.Led>, Option<string>))
    ensures r.1.Some? <==> modeName(mode).Some?
    ensures r.1.Some? ==> r.1.value == "F-FEE set to " + modeName(mode).value
  {
    var lit' := DebPanel.OnDebModeChanged(lit, mode);
    match modeName(mode)
    case None => (lit', None)
    case Some(name) => (lit', Some("F-FEE set to " + name))
  }

  /** Whatever was lit before and whether or not the mode has a name, one
      indicator is lit for the modes 0, 1, 2, 3, 6 and 7 — the one that
      stands for it — and none for any other value. */
  lemma OnDebModeChangedOneHot(lit: set<DebPanel.Led>, mode: int, modeName: int -> Option<string>)
    ensures DebPanel.KnownMode(mode) ==> |OnDebModeChanged(lit, mode, modeName).0| == 1
    ensures !DebPanel.KnownMode(mode) ==> OnDebModeChanged(lit, mode, modeName).0 == {}
    ensures forall l :: l in OnDebModeChanged(lit, mode, modeName).0 <==> DebPanel.ModeOf(l) == mode
  {
    DebPanel.OnDebModeChangedOneHot(lit, mode);
    forall l ensures l in OnDebModeChanged(lit, mode, modeName).0 <==> DebPanel.ModeOf(l) == mode {
      DebPanel.OnDebModeChangedLights(lit, mode, l);
    }
  }

  /** `on_unmount` of the app: the monitor is stopped, then the queue is
      joined without being cleared, then the command thread is stopped. */
  function UnmountSteps(monitorAlive: bool, commanderAlive: bool): (r: seq<MasterScreen.ShutdownStep>)
    ensures |r| >= 3 && r[0] == MasterScreen.CancelMonitor
    ensures MasterScreen.ClearQueue !in r && MasterScreen.ClearRaised !in r
    ensures MasterScreen.JoinMonitor in r <==> monitorAlive
    ensures MasterScreen.JoinCommander in r <==> commanderAlive
    ensures MasterScreen.JoinQueue in r && MasterScreen.CancelCommander in r
  {
    [MasterScreen.CancelMonitor] + (if monitorAlive then [MasterScreen.JoinMonitor] else [])
    + [MasterScreen.JoinQueue, MasterScreen.CancelCommander]
    + (if commanderAlive then [MasterScreen.JoinCommander] else [])
  }

  /** The queue is joined after the monitor is stopped and before the
      command thread is cancelled, and each thread is cancelled before it
      is joined. */
  lemma UnmountOrder(monitorAlive: bool, commanderAlive: bool, i: nat, j: nat)
    requires i < |UnmountSteps(monitorAlive, commanderAlive)|
    requires j < |UnmountSteps(monitorAlive, commanderAlive)|
    ensures var r := UnmountSteps(monitorAlive, commanderAlive);
      (r[i] in {MasterScreen.CancelMonitor, MasterScreen.JoinMonitor} && r[j] == MasterScreen.JoinQueue ==> i < j)
      && (r[i] == MasterScreen.JoinQueue && r[j] in {MasterScreen.CancelCommander, MasterScreen.JoinCommander} ==> i < j)
      && (r[i] == MasterScreen.CancelMonitor && r[j] == MasterScreen.JoinMonitor ==> i < j)
      && (r[i] == MasterScreen.CancelCommander && r[j] == MasterScreen.JoinCommander ==> i < j)
  {
  }

  /** Since nothing is cleared, `join()` returns only once the command
      thread has taken off every command pending at unmount; it marks each
      one done as soon as it takes it. The thread is cancelled only after
      the join, so the passes it makes meanwhile are quiet. Over such passes
      from a balanced queue, the queue becomes joinable exactly when all the
      pending commands were taken, in order, which takes one pass per
      command; each of them posts its two events. */
  lemma UnmountJoin(p: Dispatcher.Proxies, traceOf: Exception -> string, q: Queue<Command>, ticks: seq<Dispatcher.Tick>)
    requires Balanced(q) && Dispatcher.Quiet(ticks)
    ensures var r := Dispatcher.InnerRun(p, traceOf, q, ticks);
      && (JoinReturns(r.queue) <==> r.taken == q.items)
      && (JoinReturns(r.queue) <==> |ticks| >= |q.items|)
      && r.events == Dispatcher.AllCommandEvents(p, traceOf, r.taken)
  {
    Dispatcher.InnerRunQuiet(p, traceOf, q, ticks);
    Dispatcher.InnerRunEvents(p, traceOf, q, ticks);
    var r := Dispatcher.InnerRun(p, traceOf, q, ticks);
    if r.queue.items == [] {
      assert r.taken + r.queue.items == r.taken;
    }
  }
}
