/** The runtime-resolved Win32 entry points (`WIN32API_DISPATCH`) and their
    built-in fallbacks. Whether Shcore.dll loads and which names it exports
    are inputs; the values the display reports are inputs too. */
module Platform {
  import opened Machine
  import opened Wrappers
  import opened Pixels

  /** A horizontal/vertical dots-per-inch pair. */
  datatype Dpi = Dpi(x: U32, y: U32) {
    /** Both components can divide: the conversions need a non-zero DPI. */
    predicate Usable() {
      x > 0 && y > 0
    }
  }

  /** `USER_DEFAULT_SCREEN_DPI` in both directions. */
  const Baseline: Dpi := Dpi(BaselineDpi, BaselineDpi)

  /** Which implementation an entry point of the table calls. */
  datatype EntryPoint = Native | Stub

  /** The `HRESULT` values the stubs return: `S_OK`, `E_INVALIDARG`, `E_ACCESSDENIED`. */
  datatype HResult = SOk | EInvalidArg | EAccessDenied

  /** `MONITOR_DPI_TYPE`. */
  datatype DpiType = EffectiveDpi | AngularDpi | RawDpi

  /** `WIN32API_DISPATCH`: the resolved entry points and whether Shcore.dll is loaded. */
  datatype ApiTable = ApiTable(
    getDpiForMonitor: EntryPoint,
    setProcessDpiAwareness: EntryPoint,
    shcoreLoaded: bool)

  /** `GetProcAddress(module, name) != nullptr`. */
  predicate Exports(shcore: Option<set<string>>, name: string) {
    shcore.Some? && name in shcore.value
  }

  /** The start-up resolution in `wWinMain`. `shcore` is `None` when
      `LoadLibraryW(L"Shcore.dll")` fails, otherwise the names it exports.
      Each entry point is the native symbol when it can be found, and its
      stub otherwise. */
  function ResolveDispatch(shcore: Option<set<string>>): (d: ApiTable)
    ensures d.getDpiForMonitor == Native <==> Exports(shcore, "GetDpiForMonitor")
    ensures d.setProcessDpiAwareness == Native <==> Exports(shcore, "SetProcessDpiAwareness")
    ensures d.shcoreLoaded <==> shcore.Some?
  {
    match shcore
    case None => ApiTable(Stub, Stub, false)
    case Some(names) =>
      ApiTable(
        if "GetDpiForMonitor" in names then Native else Stub,
        if "SetProcessDpiAwareness" in names then Native else Stub,
        true)
  }

  /** `GetDpiForMonitor_Stub`: the effective DPI is the screen's logical pixel
      density (`GetDeviceCaps(LOGPIXELSX/Y)`, here `deviceCaps`); any other
      kind of DPI is refused with the baseline DPI written to the outputs. */
  function GetDpiForMonitorStub(kind: DpiType, deviceCaps: Dpi): (r: (Dpi, HResult))
    ensures r.1 == SOk <==> kind == EffectiveDpi
    ensures kind == EffectiveDpi ==> r.0 == deviceCaps
    ensures kind != EffectiveDpi ==> r == (Baseline, EInvalidArg)
  {
    if kind == EffectiveDpi then (deviceCaps, SOk) else (Baseline, EInvalidArg)
  }

  /** `SetProcessDpiAwareness_Stub`: falls back to the legacy whole-process
      declaration, whose success is `legacyAware`. */
  function SetProcessDpiAwarenessStub(legacyAware: bool): (r: HResult)
    ensures r == SOk <==> legacyAware
    ensures r != SOk ==> r == EAccessDenied
  {
    if legacyAware then SOk else EAccessDenied
  }

  /** The effective DPI a handler obtains through the table: `native` is what
      the system's `GetDpiForMonitor` reports, `deviceCaps` what the screen
      device context reports. */
  function QueryEffectiveDpi(api: ApiTable, native: Dpi, deviceCaps: Dpi): (r: Dpi)
    ensures api.getDpiForMonitor == Native ==> r == native
    ensures api.getDpiForMonitor == Stub ==> r == deviceCaps
  {
    match api.getDpiForMonitor
    case Native => native
    case Stub => GetDpiForMonitorStub(EffectiveDpi, deviceCaps).0
  }

  /** Without Shcore.dll, or without its `GetDpiForMonitor` export, every DPI
      query answers with the screen's logical pixel density. */
  lemma FallbackQueriesScreen(shcore: Option<set<string>>, native: Dpi, deviceCaps: Dpi)
    requires !Exports(shcore, "GetDpiForMonitor")
    ensures QueryEffectiveDpi(ResolveDispatch(shcore), native, deviceCaps) == deviceCaps
  {
  }
}
