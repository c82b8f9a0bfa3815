/** The init-system facade (_modules/ceph/service.py): the init type
    selection, the systemd back end (unit naming, the ActiveState parse,
    checked start/stop/restart, unchecked enable/disable), and the SysV back
    end. */
module Service {
  import opened Wrappers
  import opened Text
  import opened Exec

  /** The init types the facade accepts. */
  const InitTypes: set<string> := {"systemd", "sysV"}

  /** The back ends that can be installed. */
  datatype Backend = Systemd | SysV

  /** The facade: the selected type name and the installed back end, each
      possibly absent (they can disagree, see SelectInit). */
  datatype InitFacade = InitFacade(name: Option<string>, imp: Option<Backend>)

  const NoInit := InitFacade(None, None)

  /** The implementation table of the init_type setter: it has entries for
      'systemd' and 'message', not for 'sysV'. */
  function Implementation(name: string): Option<Backend> {
    if name == "systemd" then Some(Systemd)
    else if name == "message" then Some(SysV)
    else None
  }

  /** The init_type setter.  An unknown name deletes both attributes, which
      raises AttributeError when they were never set and otherwise clears them
      and raises init_exception_init_type.  A known name is recorded first and
      then looked up in the implementation table, so "sysV" is recorded but
      raises KeyError and leaves the back end as it was. */
  function SelectInit(f: InitFacade, name: string): (o: (InitFacade, Result<()>))
    ensures name !in InitTypes && f.imp.None? ==> o.1.Err? && o.1.error.cls == Builtin
    ensures name !in InitTypes && f.imp.Some? && f.name.Some? ==> o == (NoInit, o.1) && o.1.Err? && o.1.error.cls == InitError
    ensures name == "systemd" ==> o == (InitFacade(Some("systemd"), Some(Systemd)), Ok(()))
    ensures name == "sysV" ==> o.0 == f.(name := Some("sysV")) && o.1.Err? && o.1.error.cls == Builtin
    ensures o.0.imp.Some? ==> o.0.imp == f.imp || o.0.imp == Some(Systemd)
  {
    if name !in InitTypes then
      if f.imp.None? then (f, Raise(Builtin, "AttributeError: _init_type_implementation"))
      else if f.name.None? then (f.(imp := None), Raise(Builtin, "AttributeError: _init_type_name"))
      else (NoInit, Raise(InitError, "Invalid Value:" + name))
    else
      var f1 := f.(name := Some(name));
      match Implementation(name)
      case None => (f1, Raise(Builtin, "KeyError: " + name))
      case Some(b) => (InitFacade(Some(name), Some(b)), Ok(()))
  }

  /** init_system(init_type=t): a facade that selected `t`, if given. */
  function NewInit(initType: Option<string>): (o: (InitFacade, Result<()>))
    ensures initType.None? ==> o == (NoInit, Ok(()))
    ensures initType.Some? ==> o == SelectInit(NoInit, initType.value)
  {
    if initType.None? then (NoInit, Ok(())) else SelectInit(NoInit, initType.value)
  }

  /** No init type but systemd ever installs a back end. */
  lemma OnlySystemdInstalls(name: string)
    ensures SelectInit(NoInit, name).0.imp.Some? <==> name == "systemd"
    ensures name == "sysV" ==> SelectInit(NoInit, name).0 == InitFacade(Some("sysV"), None)
  {
  }

  /** A facade that selected "sysV" has no back end: every operation raises. */
  lemma SysVUnusable()
    ensures var f := NewInit(Some("sysV")).0; f.imp.None? && f.name == Some("sysV")
    ensures NewInit(Some("sysV")).1.Err?
  {
  }

  // ---------------------------------------------------------------- systemd

  const Systemctl := "systemctl"

  /** What the systemd back end is told: the service and its instance. */
  datatype Unit = Unit(service: Option<string>, identifier: Option<string>)

  /** _get_systemctl_name: `service@identifier`.  A missing service raises
      (a bare `raise` with nothing to re-raise), and so does a missing
      identifier (the fallback names an undefined variable). */
  function UnitName(u: Unit): (r: Result<string>)
    ensures r.Ok? <==> u.service.Some? && u.identifier.Some?
    ensures r.Ok? ==> r.value == u.service.value + "@" + u.identifier.value
    ensures r.Err? ==> r.error.cls == Builtin
  {
    if u.service.None? then Raise(Builtin, "TypeError: exceptions must derive from BaseException")
    else if u.identifier.None? then Raise(Builtin, "NameError: global name 'service_name' is not defined")
    else Ok(u.service.value + "@" + u.identifier.value)
  }

  /** The unit name splits back into the service and the instance when the
      service has no "@". */
  lemma UnitNameSplits(service: string, identifier: string)
    requires '@' !in service
    ensures var r := UnitName(Unit(Some(service), Some(identifier)));
      r.Ok? && Split(r.value, '@')[0] == service && Join(Split(r.value, '@')[1..], '@') == identifier
  {
    var r := service + "@" + identifier;
    assert r == service + ['@'] + identifier;
    SplitAtFirst(service, identifier, '@');
    JoinSplit(identifier, '@');
  }

  /** The key and the value of one `key=value` line of `systemctl show`:
      the text before the first "=", and the rest rejoined with "=". */
  function LineKey(line: string): string {
    Split(line, '=')[0]
  }

  function LineValue(line: string): string {
    Join(Split(line, '=')[1..], '=')
  }

  /** A `KEY=value` line reads back as its key and value. */
  lemma LineKeyValue(k: string, v: string)
    requires '=' !in k
    ensures LineKey(k + "=" + v) == k && LineValue(k + "=" + v) == v
  {
    assert k + "=" + v == k + ['='] + v;
    SplitAtFirst(k, v, '=');
    JoinSplit(v, '=');
  }

  /** The state the loop of is_running ends with: every ActiveState line
      overwrites it, so the last one decides. */
  function ActiveState(lines: seq<string>): Option<bool> {
    if |lines| == 0 then None
    else if LineKey(lines[|lines| - 1]) == "ActiveState" then Some(LineValue(lines[|lines| - 1]) == "active")
    else ActiveState(lines[..|lines| - 1])
  }

  /** Line `i` is the last ActiveState line. */
  predicate LastStateLine(lines: seq<string>, i: int) {
    && 0 <= i < |lines|
    && LineKey(lines[i]) == "ActiveState"
    && forall j :: i < j < |lines| ==> LineKey(lines[j]) != "ActiveState"
  }

  /** There is a state exactly when some line is an ActiveState line. */
  lemma {:induction false} ActiveStateNone(lines: seq<string>)
    ensures ActiveState(lines).None? <==> forall j :: 0 <= j < |lines| ==> LineKey(lines[j]) != "ActiveState"
  {
    if |lines| > 0 {
      var n := |lines| - 1;
      var front := lines[..n];
      if LineKey(lines[n]) != "ActiveState" {
        ActiveStateNone(front);
        assert forall j :: 0 <= j < n ==> lines[j] == front[j];
      }
    }
  }

  /** A state is "running" exactly when the last ActiveState line's value is
      "active". */
  lemma {:induction false} ActiveStateLast(lines: seq<string>)
    ensures ActiveState(lines).Some? ==>
      exists i :: LastStateLine(lines, i) && (ActiveState(lines).value <==> LineValue(lines[i]) == "active")
  {
    if |lines| > 0 {
      var n := |lines| - 1;
      var front := lines[..n];
      if LineKey(lines[n]) == "ActiveState" {
        assert LastStateLine(lines, n);
      } else if ActiveState(front).Some? {
        ActiveStateLast(front);
        var i :| LastStateLine(front, i) && (ActiveState(front).value <==> LineValue(front[i]) == "active");
        assert front[i] == lines[i];
        assert LastStateLine(lines, i);
      }
    }
  }

  function ShowArgv(unit: string): Argv {
    [Systemctl, "show", "--property", "ActiveState", unit]
  }

  /** systemd is_running: raises on a non-zero exit and when no ActiveState
      line is printed; otherwise whether the last one says "active". */
  function SystemdIsRunning(env: Env, w: World, u: Unit): (o: Out<bool>)
    ensures o.w.dirs == w.dirs
    ensures UnitName(u).Err? ==> o == Out(w, Err(UnitName(u).error))
    ensures UnitName(u).Ok? ==> o.w.trace == w.trace + [Ran(ShowArgv(UnitName(u).value))]
    ensures o.r.Ok? ==>
      var reply := env.run(w.trace, ShowArgv(UnitName(u).value));
      reply.retcode == 0 && ActiveState(Split(reply.stdout, '\n')) == Some(o.r.value)
    ensures (UnitName(u).Ok? && env.run(w.trace, ShowArgv(UnitName(u).value)).retcode == 0
             && ActiveState(Split(env.run(w.trace, ShowArgv(UnitName(u).value)).stdout, '\n')).Some?) ==> o.r.Ok?
  {
    match UnitName(u)
    case Err(e) => Out(w, Err(e))
    case Ok(name) =>
      var o := ExecuteChecked(env, w, ShowArgv(name), InitError, "failed to query state from " + name);
      if o.r.Err? then Out(o.w, Err(o.r.error))
      else
        match ActiveState(Split(o.r.value.stdout, '\n'))
        case None => Out(o.w, Raise(InitError, "failed to get ActiveState from " + name))
        case Some(b) => Out(o.w, Ok(b))
  }

  /** A reply whose only state line is `ActiveState=<v>` means running iff
      `v` is exactly "active". */
  lemma SystemdRunningIffActive(env: Env, w: World, u: Unit, before: seq<string>, v: string)
    requires UnitName(u).Ok?
    requires var reply := env.run(w.trace, ShowArgv(UnitName(u).value));
      reply.retcode == 0 && Split(reply.stdout, '\n') == before + ["ActiveState=" + v]
    ensures SystemdIsRunning(env, w, u).r == Ok(v == "active")
  {
    LineKeyValue("ActiveState", v);
    assert "ActiveState" + "=" + v == "ActiveState=" + v;
    var lines := before + ["ActiveState=" + v];
    assert lines[|lines| - 1] == "ActiveState=" + v;
    assert ActiveState(lines) == Some(LineValue("ActiveState=" + v) == "active");
    var name := UnitName(u).value;
    var o := ExecuteChecked(env, w, ShowArgv(name), InitError, "failed to query state from " + name);
    assert o.r.Ok? && Split(o.r.value.stdout, '\n') == lines;
  }

  /** systemd start, stop and restart: `systemctl <verb> <unit>`, raising on
      a non-zero exit. */
  function SystemdVerb(env: Env, w: World, u: Unit, verb: string): (o: Out<bool>)
    ensures UnitName(u).Err? ==> o == Out(w, Err(UnitName(u).error))
    ensures UnitName(u).Ok? ==> o.w.trace == w.trace + [Ran([Systemctl, verb, UnitName(u).value])]
    ensures UnitName(u).Ok? ==> (o.r.Ok? <==> env.run(w.trace, [Systemctl, verb, UnitName(u).value]).retcode == 0)
    ensures o.r.Err? && UnitName(u).Ok? ==> o.r.error.cls == InitError
    ensures o.r.Ok? ==> o.r.value
  {
    match UnitName(u)
    case Err(e) => Out(w, Err(e))
    case Ok(name) =>
      var o := ExecuteChecked(env, w, [Systemctl, verb, name], InitError, "failed to " + verb + " " + name);
      if o.r.Err? then Out(o.w, Err(o.r.error)) else Out(o.w, Ok(true))
  }

  /** systemd on_boot_enable and on_boot_disable: `systemctl enable|disable
      <unit>`, whatever its exit status. */
  function SystemdBoot(env: Env, w: World, u: Unit, verb: string): (o: Out<()>)
    ensures UnitName(u).Err? ==> o == Out(w, Err(UnitName(u).error))
    ensures UnitName(u).Ok? ==> o == Out(w.(files := o.w.files, trace := w.trace + [Ran([Systemctl, verb, UnitName(u).value])]), Ok(()))
  {
    match UnitName(u)
    case Err(e) => Out(w, Err(e))
    case Ok(name) => Out(Execute(env, w, [Systemctl, verb, name]).0, Ok(()))
  }

  // ---------------------------------------------------------------- SysV

  /** _get_sysvinit_name: the service; a missing one raises init_exception. */
  function SysVName(u: Unit): (r: Result<string>)
    ensures r.Ok? <==> u.service.Some?
    ensures r.Ok? ==> r.value == u.service.value
    ensures r.Err? ==> r.error.cls == InitError
  {
    if u.service.None? then Raise(InitError, "service is None") else Ok(u.service.value)
  }

  /** Every SysV operation runs one command and ignores its exit status:
      `service <svc> start|stop|restart` or `chkconfig <svc> on|off|status`. */
  function SysVArgv(svc: string, verb: string): Argv {
    if verb in {"on", "off", "status"} then ["chkconfig", svc, verb] else ["service", svc, verb]
  }

  function SysVRun(env: Env, w: World, u: Unit, verb: string): (o: Out<()>)
    ensures o.w.dirs == w.dirs
    ensures u.service.None? ==> o.w == w && o.r.Err? && o.r.error.cls == InitError
    ensures u.service.Some? ==> o.r.Ok? && o.w.trace == w.trace + [Ran(SysVArgv(u.service.value, verb))]
  {
    match SysVName(u)
    case Err(e) => Out(w, Err(e))
    case Ok(svc) => Out(Execute(env, w, SysVArgv(svc, verb)).0, Ok(()))
  }

  /** SysV is_running asks `chkconfig <svc> status` and returns nothing. */
  lemma SysVIsRunningAsks(env: Env, w: World, svc: string)
    ensures SysVRun(env, w, Unit(Some(svc), None), "status").w.trace == w.trace + [Ran(["chkconfig", svc, "status"])]
  {
  }

  // ---------------------------------------------------------------- facade operations

  /** is_running through the facade: None stands for the Python None that
      the SysV back end returns. */
  function IsRunning(env: Env, w: World, f: InitFacade, u: Unit): (o: Out<Option<bool>>)
    ensures o.w.dirs == w.dirs
    ensures f.imp.None? ==> o.w == w && o.r.Err? && o.r.error.cls == InitError
    ensures f.imp == Some(Systemd) ==> o.w == SystemdIsRunning(env, w, u).w && (o.r.Ok? <==> SystemdIsRunning(env, w, u).r.Ok?)
    ensures f.imp == Some(Systemd) && o.r.Ok? ==> o.r.value == Some(SystemdIsRunning(env, w, u).r.value)
    ensures f.imp == Some(SysV) && o.r.Ok? ==> o.r.value.None?
  {
    match f.imp
    case None => Out(w, Raise(InitError, "Property 'init_type' has invalid value."))
    case Some(Systemd) =>
      var o := SystemdIsRunning(env, w, u);
      if o.r.Err? then Out(o.w, Err(o.r.error)) else Out(o.w, Ok(Some(o.r.value)))
    case Some(SysV) =>
      var o := SysVRun(env, w, u, "status");
      if o.r.Err? then Out(o.w, Err(o.r.error)) else Out(o.w, Ok(None))
  }

  /** start, stop or restart through the facade. */
  function Control(env: Env, w: World, f: InitFacade, u: Unit, verb: string): (o: Out<()>)
    requires verb in {"start", "stop", "restart"}
    ensures f.imp.None? ==> o.w == w && o.r.Err? && o.r.error.cls == InitError
    ensures f.imp == Some(Systemd) ==> o.w == SystemdVerb(env, w, u, verb).w && (o.r.Ok? <==> SystemdVerb(env, w, u, verb).r.Ok?)
    ensures f.imp == Some(SysV) ==> o == SysVRun(env, w, u, verb)
  {
    match f.imp
    case None => Out(w, Raise(InitError, "Property 'init_type' has invalid value."))
    case Some(Systemd) =>
      var o := SystemdVerb(env, w, u, verb);
      if o.r.Err? then Out(o.w, Err(o.r.error)) else Out(o.w, Ok(()))
    case Some(SysV) => SysVRun(env, w, u, verb)
  }

  /** on_boot_enable (`on`) or on_boot_disable (`off`) through the facade. */
  function Boot(env: Env, w: World, f: InitFacade, u: Unit, on: bool): (o: Out<()>)
    ensures f.imp.None? ==> o.w == w && o.r.Err? && o.r.error.cls == InitError
    ensures f.imp == Some(Systemd) ==> o == SystemdBoot(env, w, u, if on then "enable" else "disable")
    ensures f.imp == Some(SysV) ==> o == SysVRun(env, w, u, if on then "on" else "off")
  {
    match f.imp
    case None => Out(w, Raise(InitError, "Property 'init_type' has invalid value."))
    case Some(Systemd) => SystemdBoot(env, w, u, if on then "enable" else "disable")
    case Some(SysV) => SysVRun(env, w, u, if on then "on" else "off")
  }
}
