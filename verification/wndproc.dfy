/** The message router (`WSI_WndProc`) and the decision the main loop takes
    after draining the queue each tick: stop once the window is destroyed,
    otherwise present while it is visible and has a backbuffer. */
module WndProc {
  import opened Machine
  import opened Wrappers
  import opened Flags
  import opened Platform
  import opened Window

  /** What the monitor reports when a handler asks the entry-point table for
      its effective DPI: `native` is the answer of the system's
      `GetDpiForMonitor`, `deviceCaps` that of the screen device context. */
  datatype DpiReading = DpiReading(native: Dpi, deviceCaps: Dpi) {
    /** Both possible answers can divide. */
    predicate Usable() {
      native.Usable() && deviceCaps.Usable()
    }
  }

  /** The DPI a handler obtains through the window's entry-point table. */
  function HandlerDpi(ws: WindowState, reading: DpiReading): (dpi: Dpi)
    ensures reading.Usable() ==> dpi.Usable()
    ensures ws.api.getDpiForMonitor == Native ==> dpi == reading.native
    ensures ws.api.getDpiForMonitor == Stub ==> dpi == reading.deviceCaps
  {
    QueryEffectiveDpi(ws.api, reading.native, reading.deviceCaps)
  }

  /** A window message together with what the window system reports while it
      is handled (see the handlers for each field). */
  datatype Message =
    | Create(reading: DpiReading, adjust: Rect -> Rect, allocOk: bool)
    | Close
    | Activate(wparam: WParam)
    | DpiChanged(wparam: WParam, suggested: Rect, style: U32, adjust: Rect -> Rect,
                 monitor: Rect, allocOk: bool)
    | Move(reading: DpiReading, windowRect: Rect)
    | Size(wparam: WParam, lparam: LParam, reading: DpiReading, windowRect: Rect, allocOk: bool)
    | ShowWindow(wparam: WParam, reading: DpiReading, windowRect: Rect, clientRect: Rect,
                 allocOk: bool)
    | SysCommand(wparam: WParam, lparam: LParam, current: Placement, monitor: Rect)
    | Paint
    | Other(id: nat)

  /** Every DPI a handler divides by is non-zero. */
  predicate WellFormed(m: Message) {
    match m
    case Create(reading, _, _) => reading.Usable()
    case DpiChanged(wparam, _, _, _, _, _) => LoWord(wparam) > 0 && HiWord(wparam) > 0
    case Move(reading, _) => reading.Usable()
    case Size(_, _, reading, _, _) => reading.Usable()
    case ShowWindow(_, reading, _, _, _) => reading.Usable()
    case _ => true
  }

  /** `DefWindowProc` also sees the message, or the handler's 0 is returned. */
  datatype Reply = Handled | Default

  /** What the window system is asked to do besides the state change. */
  datatype Effect = NoEffect | Present(blit: Blit) | Place(placement: Placement)

  datatype Outcome = Outcome(state: WindowState, reply: Reply, effect: Effect)

  /** `WSI_WndProc` for a window whose state is attached. */
  function Dispatch(ws: WindowState, m: Message): (r: Outcome)
    requires WellFormed(m)
    ensures Valid(ws) ==> Valid(r.state)
    ensures r.reply == Default <==>
      || m.Activate? || m.ShowWindow? || m.Other?
      || (m.SysCommand? && !IsAltEnter(m.wparam, m.lparam))
      || (m.Paint? && ws.buffer.memory.None?)
    ensures r.effect.Present? <==> m.Paint? && ws.buffer.memory.Some?
    ensures r.effect.Place? <==> m.SysCommand? && IsAltEnter(m.wparam, m.lparam)
    ensures !m.Create? && Destroyed in ws.events ==> Destroyed in r.state.events
    ensures !m.Create? && !m.Close? ==> ws.events <= r.state.events
    ensures !m.SysCommand? ==> r.state.restore == ws.restore
    ensures ws.buffer.memory.Some? ==> r.state.buffer.memory.Some?
    ensures r.state.api == ws.api
    ensures (m.Create? || m.Move?) ==> r.state.dpi == HandlerDpi(ws, m.reading)
    ensures m.ShowWindow? && m.wparam != 0 ==> r.state.dpi == HandlerDpi(ws, m.reading)
    ensures m.Size? && SizeReallocates(ws, m.wparam, m.lparam, HandlerDpi(ws, m.reading)) ==>
      r.state.dpi == HandlerDpi(ws, m.reading)
  {
    match m
    case Create(reading, adjust, allocOk) =>
      Outcome(OnCreate(ws, HandlerDpi(ws, reading), adjust, allocOk), Handled, NoEffect)
    case Close =>
      Outcome(OnClose(ws), Handled, NoEffect)
    case Activate(wparam) =>
      Outcome(OnActivate(ws, wparam), Default, NoEffect)
    case DpiChanged(wparam, suggested, style, adjust, monitor, allocOk) =>
      Outcome(OnDpiChanged(ws, wparam, suggested, style, adjust, monitor, allocOk), Handled, NoEffect)
    case Move(reading, windowRect) =>
      Outcome(OnMove(ws, HandlerDpi(ws, reading), windowRect), Handled, NoEffect)
    case Size(wparam, lparam, reading, windowRect, allocOk) =>
      Outcome(OnSize(ws, wparam, lparam, HandlerDpi(ws, reading), windowRect, allocOk),
              Handled, NoEffect)
    case ShowWindow(wparam, reading, windowRect, clientRect, allocOk) =>
      Outcome(OnShowWindow(ws, wparam, HandlerDpi(ws, reading), windowRect, clientRect, allocOk),
              Default, NoEffect)
    case SysCommand(wparam, lparam, current, monitor) =>
      var t := OnSysCommand(ws, wparam, lparam, current, monitor);
      if t.applied.Some? then Outcome(t.state, Handled, Place(t.applied.value))
      else Outcome(t.state, Default, NoEffect)
    case Paint =>
      var p := OnPaint(ws);
      if p.Some? then Outcome(ws, Handled, Present(p.value)) else Outcome(ws, Default, NoEffect)
    case Other(_) =>
      Outcome(ws, Default, NoEffect)
  }

  /** The messages drained in order (the `PeekMessage`/`DispatchMessage` loop).
      The entry-point table resolved at start-up is never replaced. */
  function Run(ws: WindowState, msgs: seq<Message>): (r: WindowState)
    requires forall i :: 0 <= i < |msgs| ==> WellFormed(msgs[i])
    ensures r.api == ws.api
    decreases |msgs|
  {
    if |msgs| == 0 then ws else Run(Dispatch(ws, msgs[0]).state, msgs[1..])
  }

  /** What the main loop does after draining the queue. */
  datatype Tick = Terminate | PresentFrame(blit: Blit) | Idle

  /** The checks after the drain: `EventFlags & DESTROYED` ends the loop,
      otherwise `StatusFlags & VISIBLE` with a backbuffer presents. */
  function LoopDecision(ws: WindowState): (t: Tick)
    ensures t.Terminate? <==> Destroyed in ws.events
    ensures t.PresentFrame? <==>
      Destroyed !in ws.events && Visible in ws.status && ws.buffer.memory.Some?
    ensures t.PresentFrame? ==> t.blit == PresentBackBuffer(ws)
  {
    if EventMask(ws.events) & EventBit(Destroyed) != 0 then
      Terminate
    else if StatusMask(ws.status) & StatusBit(Visible) != 0 && ws.buffer.memory.Some? then
      PresentFrame(PresentBackBuffer(ws))
    else
      Idle
  }

  /** Draining a queue keeps the backbuffer the only committed memory, in
      agreement with its size: no buffer is leaked and none is lost. */
  lemma {:induction false} RunKeepsValid(ws: WindowState, msgs: seq<Message>)
    requires forall i :: 0 <= i < |msgs| ==> WellFormed(msgs[i])
    requires Valid(ws)
    ensures Valid(Run(ws, msgs))
    decreases |msgs|
  {
    if |msgs| > 0 {
      var next := Dispatch(ws, msgs[0]).state;
      assert Run(ws, msgs) == Run(next, msgs[1..]);
      RunKeepsValid(next, msgs[1..]);
    }
  }

  /** Once a backbuffer exists no message sequence takes it away. */
  lemma {:induction false} RunKeepsBuffer(ws: WindowState, msgs: seq<Message>)
    requires forall i :: 0 <= i < |msgs| ==> WellFormed(msgs[i])
    requires ws.buffer.memory.Some?
    ensures Run(ws, msgs).buffer.memory.Some?
    decreases |msgs|
  {
    if |msgs| > 0 {
      var next := Dispatch(ws, msgs[0]).state;
      assert Run(ws, msgs) == Run(next, msgs[1..]);
      RunKeepsBuffer(next, msgs[1..]);
    }
  }

  /** A pending `Destroyed` survives every message but `WM_CREATE`. */
  lemma {:induction false} DestroyedPersists(ws: WindowState, msgs: seq<Message>)
    requires forall i :: 0 <= i < |msgs| ==> WellFormed(msgs[i])
    requires forall i :: 0 <= i < |msgs| ==> !msgs[i].Create?
    requires Destroyed in ws.events
    ensures Destroyed in Run(ws, msgs).events
    decreases |msgs|
  {
    if |msgs| > 0 {
      var next := Dispatch(ws, msgs[0]).state;
      assert Run(ws, msgs) == Run(next, msgs[1..]);
      DestroyedPersists(next, msgs[1..]);
    }
  }

  /** A tick whose queue holds `WM_CLOSE`, with no `WM_CREATE` after it, ends
      the loop. */
  lemma {:induction false} CloseEndsLoop(ws: WindowState, msgs: seq<Message>, k: nat)
    requires forall i :: 0 <= i < |msgs| ==> WellFormed(msgs[i])
    requires k < |msgs| && msgs[k].Close?
    requires forall i :: k < i < |msgs| ==> !msgs[i].Create?
    ensures LoopDecision(Run(ws, msgs)).Terminate?
    decreases |msgs|
  {
    if k == 0 {
      var next := Dispatch(ws, msgs[0]).state;
      assert Run(ws, msgs) == Run(next, msgs[1..]);
      DestroyedPersists(next, msgs[1..]);
    } else {
      CloseEndsLoop(Dispatch(ws, msgs[0]).state, msgs[1..], k - 1);
    }
  }

  /** The windowed placement saved on entering fullscreen is untouched by any
      message other than `WM_SYSCOMMAND`. */
  lemma {:induction false} RestoreSurvives(ws: WindowState, msgs: seq<Message>)
    requires forall i :: 0 <= i < |msgs| ==> WellFormed(msgs[i])
    requires forall i :: 0 <= i < |msgs| ==> !msgs[i].SysCommand?
    ensures Run(ws, msgs).restore == ws.restore
    decreases |msgs|
  {
    if |msgs| > 0 {
      var next := Dispatch(ws, msgs[0]).state;
      assert Run(ws, msgs) == Run(next, msgs[1..]);
      RestoreSurvives(next, msgs[1..]);
    }
  }

  /** A minimizing `WM_SIZE` stops presentation whatever size it carries and
      leaves the backbuffer alone. */
  lemma MinimizeStopsPresenting(ws: WindowState, lparam: LParam, reading: DpiReading,
                                windowRect: Rect, allocOk: bool)
    requires reading.Usable()
    ensures var r := Dispatch(ws, Size(SizeMinimized, lparam, reading, windowRect, allocOk)).state;
      && !LoopDecision(r).PresentFrame?
      && r.buffer == ws.buffer && r.heap == ws.heap
      && r.events == ws.events
  {
  }

  /** Draining a queue in two portions, as two ticks of the loop do, leaves
      the same state as draining it at once. */
  lemma {:induction false} RunConcat(ws: WindowState, a: seq<Message>, b: seq<Message>)
    requires forall i :: 0 <= i < |a| ==> WellFormed(a[i])
    requires forall i :: 0 <= i < |b| ==> WellFormed(b[i])
    ensures forall i :: 0 <= i < |a + b| ==> WellFormed((a + b)[i])
    ensures Run(ws, a + b) == Run(Run(ws, a), b)
    decreases |a|
  {
    if |a| > 0 {
      var next := Dispatch(ws, a[0]).state;
      assert (a + b)[0] == a[0];
      assert (a + b)[1..] == a[1..] + b;
      assert Run(ws, a + b) == Run(next, a[1..] + b);
      assert Run(ws, a) == Run(next, a[1..]);
      RunConcat(next, a[1..], b);
    } else {
      assert a + b == b;
    }
  }

  /** Without Shcore.dll's `GetDpiForMonitor`, a created window adopts the DPI
      the screen device context reports, whatever the native call would say. */
  lemma CreateWithoutShcore(shcore: Option<set<string>>, ws: WindowState, reading: DpiReading,
                            adjust: Rect -> Rect, allocOk: bool)
    requires !Exports(shcore, "GetDpiForMonitor")
    requires ws.api == ResolveDispatch(shcore) && reading.Usable()
    ensures Dispatch(ws, Create(reading, adjust, allocOk)).state.dpi == reading.deviceCaps
  {
    FallbackQueriesScreen(shcore, reading.native, reading.deviceCaps);
  }

  /** The entry points resolved at start-up decide, for the whole life of the
      window, which DPI a created window adopts: the native reading when
      Shcore.dll exports `GetDpiForMonitor`, the screen's reading otherwise,
      whatever messages came before. */
  lemma CreateUsesStartupTable(shcore: Option<set<string>>, x: I32, y: I32, w: U32, h: U32,
                               msgs: seq<Message>, reading: DpiReading,
                               adjust: Rect -> Rect, allocOk: bool)
    requires forall i :: 0 <= i < |msgs| ==> WellFormed(msgs[i])
    requires reading.Usable()
    ensures var ws := Run(Initial(ResolveDispatch(shcore), x, y, w, h), msgs);
      var dpi := Dispatch(ws, Create(reading, adjust, allocOk)).state.dpi;
      && (Exports(shcore, "GetDpiForMonitor") ==> dpi == reading.native)
      && (!Exports(shcore, "GetDpiForMonitor") ==> dpi == reading.deviceCaps)
  {
  }
}
