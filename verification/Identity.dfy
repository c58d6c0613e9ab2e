/** Application identities, network guards and the fixed release profile
    (scripts/dormant_app_install.py). */
module Identity {

  /** AppIdentity. Build numbers are canonical decimal texts in the source; only their
      order and equality are used, so they are naturals here. */
  datatype App = App(version: string, build: nat, tree: string)

  datatype Candidate = Candidate(app: App, manifest: string, commit: string, source: string)

  datatype Process = Process(binary: string, path: string, pid: int, startedAt: string, uid: int)

  /** One complete observation of the Clash-for-Windows network lifeline. */
  datatype Guard = Guard(
    processes: seq<Process>, dns: string, proxy: string,
    routes4: string, routes6: string, tun: string)

  const CFW_GUI := "/Applications/Clash for Windows.app/Contents/MacOS/Clash for Windows"
  const CFW_CORE := "/Applications/Clash for Windows.app/Contents/Resources/static/files/darwin/x64/clash-darwin"

  /** `_validate_guard`, without the textual shape of digests and start times. */
  predicate ValidGuard(g: Guard)
  {
    && (|g.processes| == 0
        || (|g.processes| == 2 && g.processes[0].path == CFW_GUI && g.processes[1].path == CFW_CORE))
    && forall p | p in g.processes :: p.pid > 0
  }

  /** The two guards differ in their DNS digest and in nothing else. */
  predicate DnsOnlyChange(before: Guard, after: Guard)
  {
    before.dns != after.dns && after == before.(dns := after.dns)
  }

  /** InstallProfile together with the predecessor registry it is read with. */
  datatype Profile = Profile(version: string, build: nat, active: App, supported: set<App>)

  /** What `select_active_predecessor` establishes when the module is loaded. */
  predicate ValidProfile(p: Profile)
  {
    p.active in p.supported && p.active.build < p.build
  }

  /** `resolve_predecessor`: admission of the application about to be replaced. */
  predicate AdmitsPredecessor(p: Profile, observed: App)
  {
    observed == p.active && observed.build < p.build
  }

  /** `bind_journal_predecessor`: a recorded predecessor is one supported installation. */
  predicate BindsPredecessor(p: Profile, previous: App)
  {
    previous in p.supported
  }
}
