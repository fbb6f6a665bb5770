/** How the wrappers find the measurement tool they launch.

    The host is an input: its `platform.system()` name and what the file system
    says about a path (`os.path.exists`, `os.access(path, os.X_OK)`, and
    `shutil.which` for a bare program name). */
module Tools {
  import opened Results

  datatype Host = Host(
    system: string,
    pathExists: string -> bool,
    executable: string -> bool,
    onPath: string -> bool)

  /** The default program name for each supported system; None for a system the
      tool does not support. */
  datatype Defaults = Defaults(darwin: Option<string>, linux: Option<string>, windows: Option<string>) {
    function For(system: string): Option<string> {
      if system == "Darwin" then darwin
      else if system == "Linux" then linux
      else if system == "Windows" then windows
      else None
    }
  }

  /** The shared shape of every `__init__` lookup: a non-empty explicit path is used
      if `usable` holds for it and is an error otherwise; without one, the system's
      default program must be on PATH; an unsupported system is an error. */
  function Resolve(path: string, usable: bool, host: Host, defaults: Defaults,
                   notFound: string, unsupported: string): (r: Result<string>)
    ensures path != "" ==> (r.Ok? <==> usable)
    ensures path != "" && r.Ok? ==> r.value == path
    ensures path == "" ==> (r.Ok? <==> defaults.For(host.system).Some? && host.onPath(defaults.For(host.system).value))
    ensures path == "" && r.Ok? ==> r.value == defaults.For(host.system).value
    ensures r.Fail? ==> r.error == Raised(if path == "" && defaults.For(host.system).None? then unsupported else notFound)
  {
    if path != "" then
      if usable then Ok(path) else Fail(Raised(notFound))
    else
      match defaults.For(host.system)
      case None => Fail(Raised(unsupported))
      case Some(program) => if host.onPath(program) then Ok(program) else Fail(Raised(notFound))
  }

  const GadgetNotFound := "Intel Power Gadget executable not found"
  const Unsupported := "Platform is not supported."

  /** `shutil.which(program)` used as a guard: the bare program name if it is on
      PATH, the tool's not-found error otherwise. */
  function Which(host: Host, program: string, notFound: string): Result<string> {
    if host.onPath(program) then Ok(program) else Fail(Raised(notFound))
  }

  /** `PowerGadget.__init__` of the stand-alone logger: an explicit path only has to
      exist, and Windows looks for "PowerLog" without the extension. */
  function LoggerTool(path: string, host: Host): (r: Result<string>)
    ensures r.Ok? ==>
      || (r.value == path && path != "" && host.pathExists(path))
      || (path == "" && host.onPath(r.value) && r.value in {"PowerLog", "power_gadget"})
    ensures path != "" ==> r == (if host.pathExists(path) then Ok(path) else Fail(Raised(GadgetNotFound)))
    ensures path == "" && host.system == "Darwin" ==> r == Which(host, "PowerLog", GadgetNotFound)
    ensures path == "" && host.system == "Linux" ==> r == Which(host, "power_gadget", GadgetNotFound)
    ensures path == "" && host.system == "Windows" ==> r == Which(host, "PowerLog", GadgetNotFound)
    ensures path == "" && host.system !in {"Darwin", "Linux", "Windows"} ==> r == Fail(Raised(Unsupported))
  {
    Resolve(path, host.pathExists(path), host,
            Defaults(Some("PowerLog"), Some("power_gadget"), Some("PowerLog")),
            GadgetNotFound, Unsupported)
  }

  /** `PowerGadget.__init__` of the wrapper and benchmark copies: an explicit path must
      exist and be executable; Windows looks for "PowerLog.exe". */
  function GadgetTool(path: string, host: Host): (r: Result<string>)
    ensures r.Ok? ==>
      || (r.value == path && path != "" && host.pathExists(path) && host.executable(path))
      || (path == "" && host.onPath(r.value) && r.value in {"PowerLog", "power_gadget", "PowerLog.exe"})
    ensures path != "" ==>
      r == (if host.pathExists(path) && host.executable(path) then Ok(path) else Fail(Raised(GadgetNotFound)))
    ensures path == "" && host.system == "Darwin" ==> r == Which(host, "PowerLog", GadgetNotFound)
    ensures path == "" && host.system == "Linux" ==> r == Which(host, "power_gadget", GadgetNotFound)
    ensures path == "" && host.system == "Windows" ==> r == Which(host, "PowerLog.exe", GadgetNotFound)
    ensures path == "" && host.system !in {"Darwin", "Linux", "Windows"} ==> r == Fail(Raised(Unsupported))
  {
    Resolve(path, host.pathExists(path) && host.executable(path), host,
            Defaults(Some("PowerLog"), Some("power_gadget"), Some("PowerLog.exe")),
            GadgetNotFound, Unsupported)
  }

  /** `IPPET.__init__`: only Windows has a default, "ippet.exe". */
  function IppetTool(path: string, host: Host): (r: Result<string>)
    ensures r.Ok? ==>
      || (r.value == path && path != "" && host.pathExists(path) && host.executable(path))
      || (path == "" && host.system == "Windows" && host.onPath("ippet.exe") && r.value == "ippet.exe")
    ensures path != "" ==>
      r == (if host.pathExists(path) && host.executable(path) then Ok(path) else Fail(Raised("IPPET executable not found")))
    ensures path == "" && host.system == "Windows" ==> r == Which(host, "ippet.exe", "IPPET executable not found")
    ensures path == "" && host.system != "Windows" ==> r == Fail(Raised("IPPET does not support your operating system"))
  {
    Resolve(path, host.pathExists(path) && host.executable(path), host,
            Defaults(None, None, Some("ippet.exe")),
            "IPPET executable not found", "IPPET does not support your operating system")
  }

  /** The stricter copies accept a path exactly when the logger's lookup does and the
      path is executable; with no path, they differ only on Windows. */
  lemma GadgetStricterThanLogger(path: string, host: Host)
    ensures path != "" ==> (GadgetTool(path, host).Ok? <==> LoggerTool(path, host).Ok? && host.executable(path))
    ensures path == "" && host.system != "Windows" ==> GadgetTool(path, host) == LoggerTool(path, host)
  {
  }

  /** A system other than Darwin, Linux and Windows is rejected unless a path is
      given, whatever the host's file system holds. */
  lemma UnsupportedSystem(host: Host)
    requires host.system !in {"Darwin", "Linux", "Windows"}
    ensures LoggerTool("", host) == Fail(Raised(Unsupported))
    ensures GadgetTool("", host) == Fail(Raised(Unsupported))
    ensures IppetTool("", host) == Fail(Raised("IPPET does not support your operating system"))
  {
  }
}
