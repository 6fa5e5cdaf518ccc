# Window and backbuffer state machine of the rtc Win32 front end

This project is a Dafny model of the window-system integration layer in
`src/win32/main.cc` of the rtc ray tracer. That layer owns a single window
and an off-screen 32-bit pixel buffer, the "backbuffer". The model has three
parts:

- the logical/physical pixel conversions;
- the backbuffer allocator (`ResizeBackBuffer`);
- the per-message handlers (`WSI_WndProc_WM_*`) that update the window
  state (`WSI_WINDOW_STATE`), plus the router, the main loop's per-tick
  decision and the start-up resolution of the DPI entry points.

Every handler is a pure function from the window state and what the window
system reports to the new state. The window system reports these things:

- what the native `GetDpiForMonitor` and the screen's `GetDeviceCaps` would
  answer. The handler's DPI is chosen between them by the entry-point table
  stored in the state.
- `GetWindowRect`/`GetClientRect` and the style words.
- what `AdjustWindowRectEx` makes of a rectangle (a function parameter).
- the monitor rectangle.
- whether the system grants a `VirtualAlloc` request. A request for zero
  bytes is always refused.

Memory is abstract: a `Heap` maps each committed region to its size in
bytes. A successful allocation hands out a handle that has never been used
before.

Modules:

- `Machine` (machine.dfy): `uint32_t`/`LONG` wrap-around, `LOWORD`/`HIWORD`,
  and small arithmetic facts.
- `Pixels` (pixels.dfy): `PhysicalToLogicalPixels` / `LogicalToPhysicalPixels`.
- `Flags` (flags.dfy): status and event tags as sets. The lemmas show that
  the source's `|=` and `&= ~` on the flag words are set union and
  difference.
- `Backbuffer` (backbuffer.dfy): the buffer descriptor, its bitmap header and
  `ResizeBackBuffer`.
- `Platform` (platform.dfy): the dispatch table, its stubs and how it is
  resolved.
- `Window` (window.dfy): the state record, the handlers, `PresentBackBuffer`
  and the fullscreen toggle.
- `WndProc` (wndproc.dfy): the message router, draining a queue, and the
  loop decision.

Behaviour of `main.cc` worth knowing:

- `WM_SIZE` never records `Hidden`. A hiding request takes the early return,
  and that return drops the event bits it computed.
- The `WM_DPICHANGED` handler's own statements keep the stored logical
  client size; they do not recompute it. The nested `WM_SIZE` that its
  `SetWindowPos` sends can still rewrite that size (see "## Left out").
- A resize to a zero width or height always fails, because `VirtualAlloc`
  refuses a zero-byte request (`Backbuffer.EmptyResizeFails`).
- A failed resize leaves the previous memory in place but has already
  rewritten the bitmap header to the requested size
  (`Backbuffer.ResizeHeaderAgreement`).
- The DPI fallback answers the effective DPI with the screen's
  `GetDeviceCaps` value. The baseline 96/96 is returned only for other DPI
  kinds.
- A logical size converted to physical pixels and back can shrink. It never
  grows. Where dim*dpi fits in 32 bits, it loses at most one pixel at 96 DPI
  or more. Past that bound the unsigned product wraps and the loss is
  unbounded: 44739243 at 96 DPI comes back as 0 (`Pixels.ConversionWraps`).
- `WM_CLOSE` clears the `Fullscreen` tag but does not restore the windowed
  placement.
- Events only accumulate. Nothing clears them except `WM_CREATE` and
  `WM_CLOSE`, which overwrite them.

## Model

| member | source | states |
|---|---|---|
| Pixels.PhysicalToLogical | src/win32/main.cc:18-21 | the result is the truncated quotient of dim*96 by dpi whenever the product fits in 32 bits |
| Pixels.LogicalToPhysical | src/win32/main.cc:28-31 | the result is the truncated quotient of dim*dpi by 96 whenever the product fits in 32 bits |
| Pixels.BaselineIsIdentity | src/win32/main.cc:18-31 | at 96 DPI both conversions return their input wherever dim*96 fits in 32 bits |
| Pixels.LogicalToPhysicalMonotone | src/win32/main.cc:28-31 | a larger logical size never converts to a smaller physical size, wherever the larger size times dpi fits in 32 bits |
| Pixels.PhysicalToLogicalMonotone | src/win32/main.cc:18-21 | for a non-zero DPI, a larger physical size never converts to a smaller logical size, wherever the larger size times 96 fits in 32 bits |
| Pixels.RoundTripNeverGrows | src/win32/main.cc:18-31 | for every 32-bit size and non-zero DPI, including where the first product wraps, logical to physical and back never exceeds the original size, and the second product does not overflow |
| Pixels.RoundTripTolerance | src/win32/main.cc:18-31 | at 96 DPI or above, the logical round trip loses at most one pixel wherever dim*dpi fits in 32 bits |
| Pixels.InverseRoundTripNeverGrows | src/win32/main.cc:18-31 | for every 32-bit size and non-zero DPI, including where the first product wraps, physical to logical and back never exceeds the original physical size |
| Pixels.ConversionWraps | src/win32/main.cc:28-31 | the unsigned product wraps: a logical width of 44739243 at 96 DPI becomes 0 physical pixels |
| Machine.LoWord | src/win32/main.cc:425 | `LOWORD` is always a 16-bit value, and a value that already fits in 16 bits is returned unchanged |
| Machine.HiWord | src/win32/main.cc:426 | `HIWORD` is always a 16-bit value, and it is 0 for a value that fits in 16 bits |
| Machine.WordsRoundTrip | src/win32/main.cc:425-426 | LOWORD and HIWORD recover the two 16-bit halves packed into a message word |
| Machine.WordsSplit | src/win32/main.cc:331-332 | every 32-bit word is the packing of its LOWORD and HIWORD |
| Flags.StatusMask | src/win32/main.cc:40-46 | a tag's enumerator bit is set in the word iff the tag is in the set, and no undefined bit is set |
| Flags.EventMask | src/win32/main.cc:48-58 | a tag's enumerator bit is set in the event word iff the tag is in the set |
| Flags.StatusSet | src/win32/main.cc:40-46 | a status word decodes to exactly the tags whose bits are set |
| Flags.EventSet | src/win32/main.cc:48-58 | an event word decodes to exactly the tags whose bits are set |
| Flags.StatusRoundTrip | src/win32/main.cc:40-46 | encoding a status set and decoding it gives the set back |
| Flags.StatusWordRoundTrip | src/win32/main.cc:40-46 | decoding a status word and encoding it again keeps exactly the four defined bits |
| Flags.StatusOrIsUnion | src/win32/main.cc:298-300 | `StatusFlags \|= bits` is set union |
| Flags.StatusAndNotIsDifference | src/win32/main.cc:539-540 | `StatusFlags &= ~bits` is set difference |
| Flags.EventRoundTrip | src/win32/main.cc:48-58 | encoding an event set and decoding it gives the set back |
| Flags.EventWordRoundTrip | src/win32/main.cc:48-58 | decoding an event word and encoding it again gives the word back |
| Flags.EventOrIsUnion | src/win32/main.cc:364 | `EventFlags \|= bits` is set union |
| Backbuffer.AllocationSize | src/win32/main.cc:157 | the byte count is width*height*4 whenever the 64-bit size_t product does not wrap |
| Backbuffer.HeaderFor | src/win32/main.cc:163-169 | the header describes a 40-byte, 1-plane, 32 bpp, BI_RGB, top-down (negative height) bitmap of the requested size, for extents below 2^31 |
| Backbuffer.Release | src/win32/main.cc:179-181 | freeing removes exactly the released region and leaves every other region's size unchanged; a null pointer frees nothing |
| Backbuffer.Resize | src/win32/main.cc:144-183 | the same size with a buffer present is a no-op returning 0. Otherwise it returns -1 exactly when the non-empty allocation is not granted. On failure it keeps memory, dimensions, stride and heap, with only the header rewritten. On success it returns 0 with a buffer of exactly the requested size, a fresh region, stride 4*w when w < 2^30, and the previous region freed. Heap validity and buffer ownership are preserved |
| Backbuffer.ResizeHandsOver | src/win32/main.cc:171-182 | after a successful reallocation exactly one region is live: the new one, which holds w*h*4 bytes and was not live before. The previous region is no longer committed |
| Backbuffer.EmptyResizeFails | src/win32/main.cc:157-162 | a size-changing resize to a zero width or height returns -1 whatever the system would grant, and keeps the previous buffer and heap |
| Backbuffer.WordExtentAllocates | src/win32/main.cc:157 | the byte count of two non-zero 16-bit extents is exact and non-zero |
| Backbuffer.ResizeIdempotent | src/win32/main.cc:159-162 | a second resize to the size of a successful first one changes nothing and returns 0, whatever the allocator would do |
| Backbuffer.ResizeHeaderAgreement | src/win32/main.cc:163-174 | the header matches the buffer afterwards iff the resize succeeded or the requested size equals the old one, so a failed size-changing resize leaves a stale header |
| Backbuffer.FramebufferFitsAllocation | src/win32/main.cc:175-178 | for an owned buffer with width < 2^30, height*stride bytes is exactly the committed allocation |
| Platform.ResolveDispatch | src/win32/main.cc:731-745 | each entry point is native iff Shcore.dll loaded and exports its name, otherwise it is the stub |
| Platform.GetDpiForMonitorStub | src/win32/main.cc:105-128 | the effective DPI is the screen's device-caps value with S_OK; any other kind yields 96/96 with E_INVALIDARG |
| Platform.SetProcessDpiAwarenessStub | src/win32/main.cc:91-103 | returns S_OK iff the legacy declaration succeeds, otherwise E_ACCESSDENIED |
| Platform.QueryEffectiveDpi | src/win32/main.cc:232 | the table's `GetDpiForMonitor` answers with the native value when resolved natively and the device-caps value through the stub |
| Platform.FallbackQueriesScreen | src/win32/main.cc:740-745 | without Shcore.dll or its export, every DPI query returns the screen's device-caps value |
| Window.RectWidth | src/win32/main.cc:248 | the unsigned extent equals right-left for a well-ordered rectangle |
| Window.RectHeight | src/win32/main.cc:249 | the unsigned extent equals bottom-top for a well-ordered rectangle |
| Window.Initial | src/win32/main.cc:784-797 | the starting state is valid and has no tags, no buffer and no committed memory. It carries the given entry-point table and position, the requested size as both client and window size, 96 DPI, and a restore placement of an empty rectangle with the creation style and no extended style |
| Window.ResizeWindowBuffer | src/win32/main.cc:250 | only the buffer and heap change. A granted non-empty or same-size resize yields a buffer of the requested size. Otherwise the memory, dimensions and heap are kept, and an existing buffer is never lost |
| Window.OnCreate | src/win32/main.cc:211-252 | status becomes exactly {Created} and events exactly {Created, SizeChanged, PositionChanged}. The DPI is adopted, the window size is the adjusted client rectangle in logical pixels, and the buffer gets the physical client size when that allocation is granted and non-empty; otherwise memory and heap are kept. Position, client size and restore fields are untouched |
| Window.CreateClientRect | src/win32/main.cc:236-238 | the rectangle WM_CREATE hands to AdjustWindowRectEx starts at the origin and is exactly the physical client size wide and high for extents below 2^31 |
| Window.OnClose | src/win32/main.cc:262-277 | status becomes empty and events exactly {Destroyed}; nothing else changes |
| Window.OnActivate | src/win32/main.cc:286-310 | only Active and Visible move: Active iff activated, Visible iff not minimized and (activated or already visible). Events gain Activated/Deactivated/Hidden as named; nothing else changes |
| Window.DpiChangedRect | src/win32/main.cc:341-357 | a popup window takes the monitor rectangle; a decorated one takes the adjusted rectangle at the suggested origin with the physical client size |
| Window.SuggestedClientRect | src/win32/main.cc:348-351 | the rectangle handed to AdjustWindowRectEx starts at the suggested origin and is exactly the physical client size wide and high whenever the LONG sums do not overflow |
| Window.OnDpiChanged | src/win32/main.cc:320-367 | the DPI becomes the message's and SizeChanged is always added. PositionChanged is added iff the window is decorated and the suggested origin differs from the stored one. Position and window size follow DpiChangedRect. The buffer is resized to the client size at the new DPI when that allocation is granted and non-empty; otherwise memory and heap are kept. Status, client size and restore fields are untouched |
| Window.OnMove | src/win32/main.cc:377-404 | adds PositionChanged, takes position, logical window size and DPI from the reported rectangle; nothing else changes |
| Window.OnSize | src/win32/main.cc:414-494 | Visible follows the request and every other status tag, including Fullscreen, is kept. When hidden or logically unchanged, only the status is written. Otherwise SizeChanged (and Shown on SIZE_RESTORED) is added, the client size becomes the logical size of the reported extents, and the buffer gets their physical size when that allocation is granted and non-empty; otherwise memory and heap are kept |
| Window.OnShowWindow | src/win32/main.cc:504-544 | showing adds Visible and Shown, re-reads geometry and DPI, and resizes the buffer to the client rectangle when that allocation is granted and non-empty; otherwise memory and heap are kept. Hiding removes Visible and Active and adds Hidden and Deactivated, touching nothing else |
| Window.OnSysCommand | src/win32/main.cc:554-596 | anything but Alt+Enter changes nothing. Alt+Enter flips Fullscreen only. Entering saves the current placement and applies a WS_POPUP placement over the monitor; leaving re-applies the saved placement |
| Window.FullscreenRoundTrip | src/win32/main.cc:572-591 | two Alt+Enter from windowed mode re-apply the original placement and restore the state except for the saved snapshot |
| Window.PresentBackBuffer | src/win32/main.cc:185-201 | the blit reads the buffer's memory and header, its source is the buffer size and its destination the physical client size (when they fit in int32) |
| Window.OnPaint | src/win32/main.cc:598-618 | presents iff a buffer exists, otherwise defers to the default handler |
| Window.SizeThenPaintFitsBuffer | src/win32/main.cc:474-492 | after a reallocating WM_SIZE succeeds, the next present copies exactly the new buffer and its destination never exceeds it |
| Window.CreateAtBaselineDpi | src/win32/main.cc:233-250 | an 800x600 client at 96 DPI gets an 800x600 buffer with 3200-byte rows and 1,920,000 committed bytes |
| WndProc.HandlerDpi | src/win32/main.cc:393 | a handler's DPI query goes through the window's entry-point table: the native reading when resolved natively, the screen's device-caps DPI under the stub, and non-zero when both readings are |
| WndProc.Dispatch | src/win32/main.cc:620-699 | routes each message to its handler. CREATE, MOVE, a showing SHOWWINDOW and a reallocating SIZE store the DPI the entry-point table answers. The reply goes to DefWindowProc exactly for ACTIVATE, SHOWWINDOW, unhandled messages, non-Alt+Enter SYSCOMMAND and PAINT without a buffer. Validity is preserved, pending events only grow under every message but CREATE and CLOSE, Destroyed survives all but CREATE, restore fields change only under SYSCOMMAND, and a buffer is never lost |
| WndProc.Run | src/win32/main.cc:806-812 | draining the queue never replaces the entry-point table resolved at start-up |
| WndProc.RunConcat | src/win32/main.cc:806-812 | draining a queue in two portions, as two loop ticks do, leaves the same state as draining it at once |
| WndProc.CreateWithoutShcore | src/win32/main.cc:232 | without Shcore.dll's export, a created window stores the screen's device-caps DPI whatever the native reading |
| WndProc.CreateUsesStartupTable | src/win32/main.cc:731-745 | from the start-up state, after any messages, a created window stores the native DPI iff Shcore.dll exports GetDpiForMonitor, and the screen's DPI otherwise |
| WndProc.LoopDecision | src/win32/main.cc:813-822 | the loop stops iff Destroyed is pending; otherwise it presents iff the window is Visible and has a buffer |
| WndProc.RunKeepsValid | src/win32/main.cc:806-812 | draining any queue keeps the backbuffer the only committed memory, consistent with its size |
| WndProc.RunKeepsBuffer | src/win32/main.cc:806-812 | once a buffer exists, no sequence of messages leaves the window without one |
| WndProc.DestroyedPersists | src/win32/main.cc:813-815 | a pending Destroyed survives any sequence of messages without CREATE |
| WndProc.CloseEndsLoop | src/win32/main.cc:806-815 | a tick whose queue holds CLOSE with no later CREATE terminates the loop |
| WndProc.RestoreSurvives | src/win32/main.cc:583-585 | the saved windowed placement is untouched by any sequence of messages without SYSCOMMAND |
| WndProc.MinimizeStopsPresenting | src/win32/main.cc:444-464 | a minimizing WM_SIZE stops presentation and leaves the buffer, heap and events untouched, whatever size it carries |

## Left out

- Win32 calls are not modelled as behaviour. `VirtualAlloc` is a success flag
  plus a fresh handle. `AdjustWindowRectEx` is a function parameter.
  `GetWindowRect`, `GetClientRect`, `GetWindowLong`, the native
  `GetDpiForMonitor`, `GetDeviceCaps` and `GetMonitorInfo` are input values.
  `SetWindowPos`, `ShowWindow`, `StretchDIBits` and `DefWindowProc` are not
  modelled; only the fullscreen placement and the blit arguments are
  returned.
- Nested messages are not modelled. `SetWindowPos` and `ShowWindow` call the
  window procedure synchronously, in the middle of the calling handler.
  This happens in `WM_CREATE` (src/win32/main.cc:240), `WM_DPICHANGED` (353),
  `WM_CLOSE` (273) and `WM_SYSCOMMAND` (577-579, 588-590). The nested
  `WM_SIZE`/`WM_MOVE`/`WM_SHOWWINDOW` runs after the handler has read its
  inputs and before it writes its own fields. Every handler here is one
  atomic transition, and no order of messages in `WndProc.Run` reproduces
  that interleaving. Two consequences the model therefore does not show:
  - `WM_CREATE` reads `ClientSize` before the nested `WM_SIZE` (233-234).
    The nested `WM_SIZE` sets `Visible` and may already allocate the buffer
    at its own extents. `WM_CREATE` then overwrites the status word with
    `{Created}` (242). Its resize to the earlier physical size can then be
    the same-size early return.
  - `WM_DPICHANGED` computes the physical client size from the old
    `ClientSize` (335-336). At a non-integer scale factor, the nested
    `WM_SIZE` can rewrite `ClientSize` before the handler resizes the buffer
    with the earlier value (365).
- The message pump (`PeekMessage`/`GetMessage`, `TranslateMessage`), the
  16 ms `Sleep` and the drain after `DestroyWindow` are I/O and timing.
  `WndProc.Run` is the drain of one tick.
- `WM_NCCREATE` and the `GWLP_USERDATA` association are pointer plumbing.
  The state is passed explicitly, and messages that arrive before the
  association are not modelled.
- The centering arithmetic in `wWinMain` (src/win32/main.cc:776-783) is left
  out. It mixes signed and unsigned 32-bit values. `Window.Initial` takes the
  position and size it produces as inputs.
- Window class registration, `CreateWindowEx` failure and its exit code, and
  the start-up `SetProcessDpiAwareness` call are left out. Only the stub's
  result is modelled.
- `rtcGetFrameBuffer` is only declared in include/display.h, with no body, so
  it is not modelled. `Backbuffer.FramebufferFitsAllocation` states the
  descriptor property it would rely on.
- The float tuple library, the test-harness macros and the linkage header
  are not part of this model.
- The flag words are `uint32_t` in the source. Their encodings here are
  `bv8`, because no handler ever sets a bit above bit 7.
- `rc.right - rc.left` on `LONG` is taken as exact before the cast to
  `uint32_t`. C leaves signed overflow undefined.
- Pixels.PhysicalToLogical: requires a non-zero DPI, because division by zero
  is undefined in C.
- WndProc.Dispatch: requires `WndProc.WellFormed` of the message. For
  CREATE, MOVE, SIZE and SHOWWINDOW, both DPI readings must be non-zero. The
  source divides by the one the table selects, and a zero there is undefined
  behaviour. The other reading never reaches the result, so requiring it too
  excludes no behaviour. For DPICHANGED, `LOWORD`/`HIWORD` of wparam must be
  non-zero, because the new DPI divides there (src/win32/main.cc:331-332,
  362-363).
- Pixels.LogicalToPhysical: the contract describes the result only when
  dim*dpi fits in 32 bits. Past that the body wraps modulo 2^32, and
  `Pixels.ConversionWraps` shows one instance.
- Window.PresentBackBuffer: the contract gives the blit extents only when
  they fit in `int32_t`. Past that the body truncates them.
- Backbuffer.AllocationSize: the contract gives the size only when the
  64-bit product does not wrap. A 32-bit `size_t` build is not modelled.
