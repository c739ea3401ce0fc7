/** The records of supervisor.h and the state they make up.

    `State` is everything the service thread, the user commands and a reload
    share under `running_modules_lock`, together with the part of the operating
    system they talk to: processes, open service sockets and a log of the calls
    that matter (forks, signals, reaped children, automatic disabling). */
module Model {
  datatype Option<+T> = None | Some(value: T)

  const MAX_RESTARTS := 30        // MAX_MODULE_RESTARTS_NUM
  const DEFAULT_RESTARTS := 3     // DEFAULT_MODULE_RESTARTS_NUM
  const PERIODS := 30             // NUM_SERVICE_IFC_PERIODS
  const MODULES_START_SIZE := 10  // RUNNING_MODULES_ARRAY_START_SIZE
  const IFCES_START_SIZE := 5     // IFCES_ARRAY_START_SIZE

  /** The text of an XML element; libxml2 gives NULL, never "", for an empty one. */
  type Content = s: string | s != "" witness "-"

  /** interface_t: a NULL string is `None`; the two codes repeat the strings. */
  datatype Interface = Interface(
    note: Option<Content>, kind: Option<Content>, params: Option<Content>, direction: Option<Content>,
    directionCode: int, kindCode: int)

  /** modules_profile_t: the linked list is a sequence, a pointer into it an index. */
  datatype Profile = Profile(name: string, enabled: bool)

  /** running_module_t. `ifces` holds the first config_ifces_cnt entries of the
      interface array and `ifcCap` the array's size; the entries in between are blank. */
  datatype Module = Module(
    name: string, path: Option<Content>, params: Option<Content>, ifces: seq<Interface>, ifcCap: nat,
    enabled: bool, served: bool, modified: bool, checked: bool, profile: Option<nat>,
    myChild: bool, rootPerm: bool, remove: bool, init: bool,
    status: bool, running: bool, restartCnt: int, restartTimer: int, maxRestarts: int,
    pid: int, sentSigint: bool, sd: int, connected: bool, connTimer: nat)

  /** What memset(.., 0, ..) leaves in a slot. */
  const BlankModule := Module(
    "", None, None, [], 0, false, false, false, false, None, false, false, false, false,
    false, false, 0, 0, 0, 0, false, 0, false, 0)

  /** A process is alive, a zombie that its parent has not waited for, or gone. */
  datatype Phase = Alive | Zombie | Gone

  /** `eperm`: signals to it fail with EPERM. `child`: forked by this supervisor for module `owner`. */
  datatype Proc = Proc(phase: Phase, eperm: bool, child: bool, owner: string)

  datatype Event =
    | Forked(name: string, pid: int)
    | ForkFailed(name: string)
    | AutoDisabled(name: string, limit: int)
    | SentSigint(pid: int)
    | SentSigkill(pid: int)
    | Reaped(pid: int)

  datatype State = State(
    slots: seq<Module>,       // running_modules[0 .. running_modules_array_size)
    loaded: nat,              // loaded_modules_cnt
    profiles: seq<Profile>,   // the list at first_profile_ptr
    defaultLimit: int,        // module_restarts_num_config
    os: map<int, Proc>,
    open: set<int>,           // service sockets that are open
    trace: seq<Event>)

  /** Marks an index for which a quantifier is to be used. */
  predicate Visit(i: int) {
    true
  }

  predicate Sized(st: State) {
    st.loaded <= |st.slots|
  }

  function ProfileEnabled(profiles: seq<Profile>, m: Module): bool {
    m.profile.Some? && m.profile.value < |profiles| && profiles[m.profile.value].enabled
  }

  /** The profile switch and the module switch together (configs/config_example.xml). */
  function Wanted(profiles: seq<Profile>, m: Module): bool {
    ProfileEnabled(profiles, m) && m.enabled
  }

  /** The condition under which the service thread stops a running module. */
  function Unwanted(profiles: seq<Profile>, m: Module): bool {
    (m.profile.Some? && !ProfileEnabled(profiles, m)) || !m.enabled
  }

  function Limit(defaultLimit: int, m: Module): int {
    if m.maxRestarts > -1 then m.maxRestarts else defaultLimit
  }
}
