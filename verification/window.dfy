/** `WSI_WINDOW_STATE` and one pure transition per handled window message
    (`WSI_WndProc_WM_*`). Everything a handler learns from the window system
    (the monitor's DPI, `GetWindowRect`, `GetClientRect`, the style words,
    what `AdjustWindowRectEx` makes of a rectangle, the monitor rectangle,
    whether `VirtualAlloc` succeeds) is a parameter; what a handler asks of
    the window system (`SetWindowPos`, `SetWindowLong`, `ShowWindow`) is
    not state of this model, except the placement the fullscreen toggle
    applies, which it returns. */
module Window {
  import opened Machine
  import opened Wrappers
  import opened Pixels
  import opened Flags
  import opened Backbuffer
  import opened Platform

  /** `RECT`, in physical pixels of the virtual screen. */
  datatype Rect = Rect(left: I32, top: I32, right: I32, bottom: I32)

  /** `(uint32_t)(rc.right - rc.left)`. */
  function RectWidth(rc: Rect): (w: U32)
    ensures rc.left <= rc.right ==> w == rc.right - rc.left
  {
    WrapU32(rc.right - rc.left)
  }

  /** `(uint32_t)(rc.bottom - rc.top)`. */
  function RectHeight(rc: Rect): (h: U32)
    ensures rc.top <= rc.bottom ==> h == rc.bottom - rc.top
  {
    WrapU32(rc.bottom - rc.top)
  }

  /** A window's rectangle with its `GWL_STYLE` and `GWL_EXSTYLE` words. */
  datatype Placement = Placement(rect: Rect, style: U32, exStyle: U32)

  /** `WS_POPUP`: a borderless window. */
  const WsPopup: U32 := 0x8000_0000

  /** `WS_OVERLAPPEDWINDOW | WS_CLIPCHILDREN | WS_CLIPSIBLINGS`: the style the window is created with. */
  const CreationStyle: U32 := 0x06CF_0000

  /** `(style & WS_POPUP) != 0`. */
  predicate IsPopup(style: U32) {
    (style as bv32) & (WsPopup as bv32) != 0
  }

  /** `WSI_WINDOW_STATE`: logical sizes are in DPI-independent pixels, the
      restore placement is the windowed geometry saved on entering fullscreen. */
  datatype WindowState = WindowState(
    status: set<Status>,
    events: set<Event>,
    dpi: Dpi,
    posX: I32,
    posY: I32,
    windowW: U32,
    windowH: U32,
    clientW: U32,
    clientH: U32,
    restore: Placement,
    buffer: Buffer,
    heap: Heap,
    api: ApiTable)

  /** The backbuffer is the only committed memory and agrees with its size. */
  predicate Valid(ws: WindowState) {
    HeapValid(ws.heap) && Owns(ws.buffer, ws.heap)
  }

  /** The state `wWinMain` builds before `CreateWindowEx`: zeroed, baseline
      DPI, the centred position and client size, and the creation style as
      the restore style. */
  function Initial(api: ApiTable, x: I32, y: I32, w: U32, h: U32): (ws: WindowState)
    ensures Valid(ws)
    ensures ws.status == {} && ws.events == {}
    ensures ws.buffer.memory.None? && ws.heap.committed == map[]
    ensures ws.clientW == w && ws.clientH == h && ws.dpi == Baseline
    ensures ws.posX == x && ws.posY == y && ws.windowW == w && ws.windowH == h
    ensures ws.restore == Placement(Rect(0, 0, 0, 0), CreationStyle, 0)
    ensures ws.api == api
  {
    WindowState(
      {}, {}, Baseline, x, y, w, h, w, h,
      Placement(Rect(0, 0, 0, 0), CreationStyle, 0),
      NoBuffer, EmptyHeap, api)
  }

  /** `ResizeBackBuffer(window, w, h)` applied to the window, result code ignored
      (no handler looks at it). */
  function ResizeWindowBuffer(ws: WindowState, w: U32, h: U32, allocOk: bool): (r: WindowState)
    ensures r.(buffer := ws.buffer, heap := ws.heap) == ws
    ensures Allocates(w, h, allocOk) || SameSize(ws.buffer, w, h) ==>
      r.buffer.memory.Some? && r.buffer.width == w && r.buffer.height == h
    ensures !Allocates(w, h, allocOk) ==>
      && r.buffer.memory == ws.buffer.memory && r.heap == ws.heap
      && r.buffer.width == ws.buffer.width && r.buffer.height == ws.buffer.height
    ensures ws.buffer.memory.Some? ==> r.buffer.memory.Some?
    ensures Valid(ws) ==> Valid(r)
  {
    var rz := Resize(ws.buffer, ws.heap, w, h, allocOk);
    ws.(buffer := rz.buffer, heap := rz.heap)
  }

  /** The client rectangle `WM_CREATE` hands to `AdjustWindowRectEx`. */
  function CreateClientRect(physW: U32, physH: U32): (rc: Rect)
    ensures rc.left == 0 && rc.top == 0
    ensures physW < 0x8000_0000 && physH < 0x8000_0000 ==>
      RectWidth(rc) == physW && RectHeight(rc) == physH
  {
    Rect(0, 0, WrapI32(physW), WrapI32(physH))
  }

  /** `WM_CREATE`: adopts the monitor's DPI, sizes the outer window around the
      physical client area (`adjust` is `AdjustWindowRectEx` for the window's
      styles), overwrites both flag words, and allocates the backbuffer at
      the physical client size. */
  function OnCreate(ws: WindowState, dpi: Dpi, adjust: Rect -> Rect, allocOk: bool): (r: WindowState)
    requires dpi.Usable()
    ensures r.status == {Status.Created}
    ensures r.events == {Event.Created, SizeChanged, PositionChanged}
    ensures r.dpi == dpi
    ensures var outer := adjust(CreateClientRect(
                LogicalToPhysical(ws.clientW, dpi.x), LogicalToPhysical(ws.clientH, dpi.y)));
      r.windowW == PhysicalToLogical(RectWidth(outer), dpi.x)
      && r.windowH == PhysicalToLogical(RectHeight(outer), dpi.y)
    ensures var physW := LogicalToPhysical(ws.clientW, dpi.x);
      var physH := LogicalToPhysical(ws.clientH, dpi.y);
      && (Allocates(physW, physH, allocOk) ==>
            r.buffer.memory.Some? && r.buffer.width == physW && r.buffer.height == physH)
      && (!Allocates(physW, physH, allocOk) ==>
            r.buffer.memory == ws.buffer.memory && r.heap == ws.heap)
    ensures r.(status := ws.status, events := ws.events, dpi := ws.dpi, windowW := ws.windowW,
               windowH := ws.windowH, buffer := ws.buffer, heap := ws.heap) == ws
    ensures Valid(ws) ==> Valid(r)
  {
    var physW := LogicalToPhysical(ws.clientW, dpi.x);
    var physH := LogicalToPhysical(ws.clientH, dpi.y);
    var outer := adjust(CreateClientRect(physW, physH));
    var created := ws.(
      status := {Status.Created},
      events := {Event.Created, SizeChanged, PositionChanged},
      dpi := dpi,
      windowW := PhysicalToLogical(RectWidth(outer), dpi.x),
      windowH := PhysicalToLogical(RectHeight(outer), dpi.y));
    ResizeWindowBuffer(created, physW, physH, allocOk)
  }

  /** `WM_CLOSE`: hides the window, clears every status tag and replaces all
      pending events with `Destroyed`. */
  function OnClose(ws: WindowState): (r: WindowState)
    ensures r.status == {}
    ensures r.events == {Destroyed}
    ensures r.(status := ws.status, events := ws.events) == ws
  {
    ws.(status := {}, events := {Destroyed})
  }

  /** `WM_ACTIVATE`: `LOWORD(wparam)` is the activation state, `HIWORD(wparam)`
      the minimized state. Only the named tags move. */
  function OnActivate(ws: WindowState, wparam: WParam): (r: WindowState)
    ensures r.status - {Active, Visible} == ws.status - {Active, Visible}
    ensures Active in r.status <==> LoWord(wparam) != 0
    ensures Visible in r.status <==>
      HiWord(wparam) == 0 && (LoWord(wparam) != 0 || Visible in ws.status)
    ensures forall e :: e in r.events <==>
      || e in ws.events
      || (e == Activated && LoWord(wparam) != 0)
      || (e == Deactivated && LoWord(wparam) == 0)
      || (e == Hidden && HiWord(wparam) != 0)
    ensures r.(status := ws.status, events := ws.events) == ws
  {
    var active := LoWord(wparam) != 0;
    var minimized := HiWord(wparam) != 0;
    var status := if active then ws.status + {Active, Visible} else ws.status - {Active};
    var events := ws.events + (if active then {Activated} else {Deactivated});
    if minimized then
      ws.(status := status - {Visible}, events := events + {Hidden})
    else
      ws.(status := status, events := events)
  }

  /** The rectangle `WM_DPICHANGED` hands to `AdjustWindowRectEx` for a
      decorated window: the suggested origin with the physical client size. */
  function SuggestedClientRect(suggested: Rect, physW: U32, physH: U32): (rc: Rect)
    ensures rc.left == suggested.left && rc.top == suggested.top
    ensures -0x8000_0000 <= suggested.left + physW < 0x8000_0000 ==> RectWidth(rc) == physW
    ensures -0x8000_0000 <= suggested.top + physH < 0x8000_0000 ==> RectHeight(rc) == physH
  {
    Rect(suggested.left, suggested.top,
         WrapI32(suggested.left + physW), WrapI32(suggested.top + physH))
  }

  /** The outer rectangle `WM_DPICHANGED` settles on: for a decorated window
      the suggested origin around the physical client size, for a popup
      (fullscreen) window the monitor's full rectangle. */
  function DpiChangedRect(ws: WindowState, dpi: Dpi, suggested: Rect, style: U32,
                          adjust: Rect -> Rect, monitor: Rect): (rc: Rect)
    ensures IsPopup(style) ==> rc == monitor
    ensures !IsPopup(style) ==> rc == adjust(SuggestedClientRect(suggested,
      LogicalToPhysical(ws.clientW, dpi.x), LogicalToPhysical(ws.clientH, dpi.y)))
  {
    if !IsPopup(style) then
      adjust(SuggestedClientRect(suggested,
        LogicalToPhysical(ws.clientW, dpi.x), LogicalToPhysical(ws.clientH, dpi.y)))
    else
      monitor
  }

  /** `WM_DPICHANGED`: the new DPI is `LOWORD`/`HIWORD` of `wparam`. The
      logical client size is kept; the outer window follows `DpiChangedRect`;
      the backbuffer is resized to the client size at the new DPI. */
  function OnDpiChanged(ws: WindowState, wparam: WParam, suggested: Rect, style: U32,
                        adjust: Rect -> Rect, monitor: Rect, allocOk: bool): (r: WindowState)
    requires LoWord(wparam) > 0 && HiWord(wparam) > 0
    ensures r.dpi == Dpi(LoWord(wparam), HiWord(wparam))
    ensures SizeChanged in r.events
    ensures PositionChanged in r.events <==>
      PositionChanged in ws.events
      || (!IsPopup(style) && (suggested.left != ws.posX || suggested.top != ws.posY))
    ensures r.events - {SizeChanged, PositionChanged} == ws.events - {SizeChanged, PositionChanged}
    ensures var rc := DpiChangedRect(ws, r.dpi, suggested, style, adjust, monitor);
      && r.posX == rc.left && r.posY == rc.top
      && r.windowW == PhysicalToLogical(RectWidth(rc), r.dpi.x)
      && r.windowH == PhysicalToLogical(RectHeight(rc), r.dpi.y)
    ensures var physW := LogicalToPhysical(ws.clientW, r.dpi.x);
      var physH := LogicalToPhysical(ws.clientH, r.dpi.y);
      && (Allocates(physW, physH, allocOk) ==>
            r.buffer.memory.Some? && r.buffer.width == physW && r.buffer.height == physH)
      && (!Allocates(physW, physH, allocOk) ==>
            r.buffer.memory == ws.buffer.memory && r.heap == ws.heap)
    ensures r.(dpi := ws.dpi, posX := ws.posX, posY := ws.posY, windowW := ws.windowW,
               windowH := ws.windowH, events := ws.events, buffer := ws.buffer,
               heap := ws.heap) == ws
    ensures Valid(ws) ==> Valid(r)
  {
    var dpi := Dpi(LoWord(wparam), HiWord(wparam));
    var moved := !IsPopup(style) && (suggested.left != ws.posX || suggested.top != ws.posY);
    var rc := DpiChangedRect(ws, dpi, suggested, style, adjust, monitor);
    var updated := ws.(
      dpi := dpi,
      posX := rc.left,
      posY := rc.top,
      windowW := PhysicalToLogical(RectWidth(rc), dpi.x),
      windowH := PhysicalToLogical(RectHeight(rc), dpi.y),
      events := ws.events + {SizeChanged} + (if moved then {PositionChanged} else {}));
    ResizeWindowBuffer(updated, LogicalToPhysical(ws.clientW, dpi.x),
                       LogicalToPhysical(ws.clientH, dpi.y), allocOk)
  }

  /** `WM_MOVE`: re-reads the DPI (the window may have crossed monitors) and
      the window rectangle. */
  function OnMove(ws: WindowState, dpi: Dpi, windowRect: Rect): (r: WindowState)
    requires dpi.Usable()
    ensures r.events == ws.events + {PositionChanged}
    ensures r.posX == windowRect.left && r.posY == windowRect.top
    ensures r.windowW == PhysicalToLogical(RectWidth(windowRect), dpi.x)
    ensures r.windowH == PhysicalToLogical(RectHeight(windowRect), dpi.y)
    ensures r.dpi == dpi
    ensures r.(events := ws.events, posX := ws.posX, posY := ws.posY, windowW := ws.windowW,
               windowH := ws.windowH, dpi := ws.dpi) == ws
  {
    ws.(
      events := ws.events + {PositionChanged},
      posX := windowRect.left,
      posY := windowRect.top,
      windowW := PhysicalToLogical(RectWidth(windowRect), dpi.x),
      windowH := PhysicalToLogical(RectHeight(windowRect), dpi.y),
      dpi := dpi)
  }

  /** `WM_SIZE` request types. */
  const SizeRestored: WParam := 0
  const SizeMinimized: WParam := 1
  const SizeMaxHide: WParam := 4

  /** The request hides the window. */
  predicate SizeHides(wparam: WParam) {
    wparam == SizeMinimized || wparam == SizeMaxHide
  }

  /** `WM_SIZE` reallocates only when the window stays visible and its
      logical client size (from `LOWORD`/`HIWORD` of `lparam`) changed. */
  predicate SizeReallocates(ws: WindowState, wparam: WParam, lparam: LParam, dpi: Dpi)
    requires dpi.Usable()
  {
    && !SizeHides(wparam)
    && (PhysicalToLogical(LoWord(lparam), dpi.x) != ws.clientW
        || PhysicalToLogical(HiWord(lparam), dpi.y) != ws.clientH)
  }

  /** `WM_SIZE`. The visibility tag always follows the request; everything
      else, including the pending events and the stored client size, is
      written only when `SizeReallocates`. The fullscreen tag is never
      changed. */
  function OnSize(ws: WindowState, wparam: WParam, lparam: LParam, dpi: Dpi,
                  windowRect: Rect, allocOk: bool): (r: WindowState)
    requires dpi.Usable()
    ensures Visible in r.status <==> !SizeHides(wparam)
    ensures r.status - {Visible} == ws.status - {Visible}
    ensures !SizeReallocates(ws, wparam, lparam, dpi) ==> r == ws.(status := r.status)
    ensures SizeReallocates(ws, wparam, lparam, dpi) ==>
      && SizeChanged in r.events
      && (Shown in r.events <==> Shown in ws.events || wparam == SizeRestored)
      && r.events - {SizeChanged, Shown} == ws.events - {SizeChanged, Shown}
      && r.clientW == PhysicalToLogical(LoWord(lparam), dpi.x)
      && r.clientH == PhysicalToLogical(HiWord(lparam), dpi.y)
      && r.posX == windowRect.left && r.posY == windowRect.top
      && r.windowW == PhysicalToLogical(RectWidth(windowRect), dpi.x)
      && r.windowH == PhysicalToLogical(RectHeight(windowRect), dpi.y)
      && r.dpi == dpi
      && (Allocates(LoWord(lparam), HiWord(lparam), allocOk) ==>
            r.buffer.memory.Some? && r.buffer.width == LoWord(lparam) && r.buffer.height == HiWord(lparam))
      && (!Allocates(LoWord(lparam), HiWord(lparam), allocOk) ==>
            r.buffer.memory == ws.buffer.memory && r.heap == ws.heap)
    ensures r.restore == ws.restore && r.api == ws.api
    ensures Valid(ws) ==> Valid(r)
  {
    var physW := LoWord(lparam);
    var physH := HiWord(lparam);
    var status := if SizeHides(wparam) then ws.status - {Visible} else ws.status + {Visible};
    if !SizeReallocates(ws, wparam, lparam, dpi) then
      ws.(status := status)
    else
      var flags := {SizeChanged} + (if wparam == SizeRestored then {Shown} else {});
      var fullscreen := Fullscreen in ws.status;
      var resized := ResizeWindowBuffer(ws, physW, physH, allocOk);
      resized.(
        status := if fullscreen then status + {Fullscreen} else status - {Fullscreen},
        events := ws.events + flags,
        posX := windowRect.left,
        posY := windowRect.top,
        windowW := PhysicalToLogical(RectWidth(windowRect), dpi.x),
        windowH := PhysicalToLogical(RectHeight(windowRect), dpi.y),
        clientW := PhysicalToLogical(physW, dpi.x),
        clientH := PhysicalToLogical(physH, dpi.y),
        dpi := dpi)
  }

  /** `WM_SHOWWINDOW`: `wparam != 0` shows the window, re-reading its geometry
      and DPI and resizing the backbuffer to the physical client rectangle;
      `wparam == 0` hides and deactivates it. */
  function OnShowWindow(ws: WindowState, wparam: WParam, dpi: Dpi, windowRect: Rect,
                        clientRect: Rect, allocOk: bool): (r: WindowState)
    requires dpi.Usable()
    ensures wparam != 0 ==>
      && r.status == ws.status + {Visible}
      && r.events == ws.events + {Shown}
      && r.posX == windowRect.left && r.posY == windowRect.top
      && r.windowW == PhysicalToLogical(RectWidth(windowRect), dpi.x)
      && r.windowH == PhysicalToLogical(RectHeight(windowRect), dpi.y)
      && r.clientW == PhysicalToLogical(RectWidth(clientRect), dpi.x)
      && r.clientH == PhysicalToLogical(RectHeight(clientRect), dpi.y)
      && r.dpi == dpi
      && (Allocates(RectWidth(clientRect), RectHeight(clientRect), allocOk) ==>
            r.buffer.memory.Some? && r.buffer.width == RectWidth(clientRect)
            && r.buffer.height == RectHeight(clientRect))
      && (!Allocates(RectWidth(clientRect), RectHeight(clientRect), allocOk) ==>
            r.buffer.memory == ws.buffer.memory && r.heap == ws.heap)
    ensures wparam == 0 ==>
      && r.status == ws.status - {Visible, Active}
      && r.events == ws.events + {Hidden, Deactivated}
      && r == ws.(status := r.status, events := r.events)
    ensures r.restore == ws.restore && r.api == ws.api
    ensures Valid(ws) ==> Valid(r)
  {
    if wparam != 0 then
      var physW := RectWidth(clientRect);
      var physH := RectHeight(clientRect);
      var shown := ws.(
        status := ws.status + {Visible},
        events := ws.events + {Shown},
        posX := windowRect.left,
        posY := windowRect.top,
        windowW := PhysicalToLogical(RectWidth(windowRect), dpi.x),
        windowH := PhysicalToLogical(RectHeight(windowRect), dpi.y),
        clientW := PhysicalToLogical(physW, dpi.x),
        clientH := PhysicalToLogical(physH, dpi.y),
        dpi := dpi);
      ResizeWindowBuffer(shown, physW, physH, allocOk)
    else
      ws.(status := ws.status - {Visible} - {Active},
          events := ws.events + {Hidden, Deactivated})
  }

  /** `SC_KEYMENU` and `VK_RETURN`. */
  const ScKeyMenu: bv64 := 0xF100
  const VkReturn: LParam := 0x0D

  /** `(wparam & 0xFFF0) == SC_KEYMENU && lparam == VK_RETURN`: Alt+Enter. */
  predicate IsAltEnter(wparam: WParam, lparam: LParam) {
    (wparam as bv64) & 0xFFF0 == ScKeyMenu && lparam == VkReturn
  }

  /** The state after `WM_SYSCOMMAND`, and the placement it applies to the
      window (`None` when the command goes to `DefWindowProc`). */
  datatype Toggled = Toggled(state: WindowState, applied: Option<Placement>)

  /** `WM_SYSCOMMAND`: Alt+Enter toggles fullscreen. Entering saves the
      `current` placement (from `GetWindowRect`/`GetWindowLong`) and covers
      the `monitor` rectangle with a popup window (the extended style is left
      as it is); leaving re-applies the saved placement. */
  function OnSysCommand(ws: WindowState, wparam: WParam, lparam: LParam,
                        current: Placement, monitor: Rect): (r: Toggled)
    ensures !IsAltEnter(wparam, lparam) ==> r == Toggled(ws, None)
    ensures IsAltEnter(wparam, lparam) ==>
      && r.applied.Some?
      && (Fullscreen in r.state.status <==> Fullscreen !in ws.status)
      && r.state.status - {Fullscreen} == ws.status - {Fullscreen}
    ensures IsAltEnter(wparam, lparam) && Fullscreen !in ws.status ==>
      && r.state.restore == current
      && r.applied == Some(Placement(monitor, WsPopup, current.exStyle))
      && IsPopup(r.applied.value.style)
    ensures IsAltEnter(wparam, lparam) && Fullscreen in ws.status ==>
      && r.state.restore == ws.restore
      && r.applied == Some(ws.restore)
    ensures r.state.(status := ws.status, restore := ws.restore) == ws
  {
    if !IsAltEnter(wparam, lparam) then
      Toggled(ws, None)
    else if Fullscreen in ws.status then
      Toggled(ws.(status := ws.status - {Fullscreen}), Some(ws.restore))
    else
      Toggled(ws.(restore := current, status := ws.status + {Fullscreen}),
              Some(Placement(monitor, WsPopup, current.exStyle)))
  }

  /** Alt+Enter twice from windowed mode puts back the placement the window
      had and the state it had, apart from the saved snapshot. */
  lemma FullscreenRoundTrip(ws: WindowState, wparam: WParam, lparam: LParam,
                            current: Placement, monitor: Rect,
                            later: Placement, laterMonitor: Rect)
    requires IsAltEnter(wparam, lparam) && Fullscreen !in ws.status
    ensures var enter := OnSysCommand(ws, wparam, lparam, current, monitor);
      var leave := OnSysCommand(enter.state, wparam, lparam, later, laterMonitor);
      && Fullscreen in enter.state.status
      && leave.applied == Some(current)
      && leave.state == ws.(restore := current)
  {
    var enter := OnSysCommand(ws, wparam, lparam, current, monitor);
    var leave := OnSysCommand(enter.state, wparam, lparam, later, laterMonitor);
    assert leave.state.status == ws.status;
  }

  /** `StretchDIBits` arguments: destination and source extents, the pixels
      and the header describing them. */
  datatype Blit = Blit(dstW: I32, dstH: I32, srcW: I32, srcH: I32,
                       memory: Option<Handle>, header: BitmapHeader)

  /** `PresentBackBuffer`: stretches the whole backbuffer over the client area
      at its physical size (the `int32_t` locals truncate). */
  function PresentBackBuffer(ws: WindowState): (b: Blit)
    ensures b.memory == ws.buffer.memory && b.header == ws.buffer.header
    ensures ws.buffer.width < 0x8000_0000 ==> b.srcW == ws.buffer.width
    ensures ws.buffer.height < 0x8000_0000 ==> b.srcH == ws.buffer.height
    ensures var w := LogicalToPhysical(ws.clientW, ws.dpi.x);
      w < 0x8000_0000 ==> b.dstW == w
    ensures var h := LogicalToPhysical(ws.clientH, ws.dpi.y);
      h < 0x8000_0000 ==> b.dstH == h
  {
    Blit(WrapI32(LogicalToPhysical(ws.clientW, ws.dpi.x)),
         WrapI32(LogicalToPhysical(ws.clientH, ws.dpi.y)),
         WrapI32(ws.buffer.width), WrapI32(ws.buffer.height),
         ws.buffer.memory, ws.buffer.header)
  }

  /** `WM_PAINT`: presents when there is a backbuffer, otherwise defers to
      `DefWindowProc` (`None`). */
  function OnPaint(ws: WindowState): (r: Option<Blit>)
    ensures r.Some? <==> ws.buffer.memory.Some?
    ensures r.Some? ==> r.value == PresentBackBuffer(ws)
  {
    if ws.buffer.memory.Some? then Some(PresentBackBuffer(ws)) else None
  }

  /** After a `WM_SIZE` that reallocated successfully, the next present copies
      exactly the new buffer and never stretches it onto more physical pixels
      than it has: logical rounding can only shrink the destination. */
  lemma SizeThenPaintFitsBuffer(ws: WindowState, wparam: WParam, lparam: LParam, dpi: Dpi,
                                windowRect: Rect)
    requires dpi.Usable()
    requires SizeReallocates(ws, wparam, lparam, dpi)
    requires LoWord(lparam) > 0 && HiWord(lparam) > 0
    ensures var b := PresentBackBuffer(OnSize(ws, wparam, lparam, dpi, windowRect, true));
      && b.srcW == LoWord(lparam) && b.srcH == HiWord(lparam)
      && 0 <= b.dstW <= b.srcW && 0 <= b.dstH <= b.srcH
  {
    WordExtentAllocates(LoWord(lparam), HiWord(lparam));
    var r := OnSize(ws, wparam, lparam, dpi, windowRect, true);
    InverseRoundTripNeverGrows(LoWord(lparam), dpi.x);
    InverseRoundTripNeverGrows(HiWord(lparam), dpi.y);
  }

  /** The creation scenario: an 800 x 600 logical client at 96 DPI gets an
      800 x 600 backbuffer of 1,920,000 bytes with 3200-byte rows. */
  lemma CreateAtBaselineDpi(api: ApiTable, x: I32, y: I32, adjust: Rect -> Rect)
    ensures var r := OnCreate(Initial(api, x, y, 800, 600), Baseline, adjust, true);
      && r.buffer.memory.Some?
      && r.buffer.width == 800 && r.buffer.height == 600
      && r.buffer.stride == 3200
      && r.heap.committed[r.buffer.memory.value] == 1_920_000
  {
    var ws := Initial(api, x, y, 800, 600);
    BaselineIsIdentity(800);
    BaselineIsIdentity(600);
    assert AllocationSize(800, 600) == 1_920_000;
    assert Allocates(800, 600, true);
    var r := OnCreate(ws, Baseline, adjust, true);
    assert Valid(r);
  }
}
