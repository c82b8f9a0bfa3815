/** The daemon controller shared by the MDS and RGW controllers
    (_modules/ceph/rados_client.py): refreshing the model, and starting or
    stopping one `service@identifier` unit through the init facade. */
module RadosClient {
  import opened Wrappers
  import opened Text
  import opened Exec
  import opened NodeModel
  import opened Updater
  import opened Service

  /** A controller: the client id (the `name` argument), the service name a
      subclass sets, the node model, and the init facade, which exists only
      once `update` has run. */
  datatype Client = Client(clientId: Option<string>, serviceName: Option<string>, m: Model, init: Option<InitFacade>)

  /** The facade `update` always builds. */
  const SystemdInit := InitFacade(Some("systemd"), Some(Systemd))

  /** ctrl_rados_client.__init__: no service yet and no facade yet. */
  function NewClient(a: ClusterArgs, name: Option<string>): (c: Client)
    ensures c.clientId == name && c.serviceName.None? && c.init.None?
    ensures c.m.clusterName == a.clusterName && c.m.hostname.None? && c.m.monMembers == []
  {
    Client(name, None, Fresh(a), None)
  }

  /** defaults_refresh with its utils.Error logged: the model keeps what the
      lookup had set before it raised (the name "ceph" when neither name nor
      uuid was given).  Other exceptions propagate. */
  function DefaultsLogged(env: Env, w: World, m: Model): (r: Result<Model>)
    ensures r.Err? ==> r == DefaultsRefresh(env, w, m) && r.error.cls == Builtin
    ensures DefaultsRefresh(env, w, m).Ok? ==> r == DefaultsRefresh(env, w, m)
    ensures r.Ok? ==> r.value.hostname == m.hostname && r.value.conf == m.conf && r.value.monMembers == m.monMembers
    ensures r.Ok? && m.clusterName.None? && m.clusterUuid.None? ==> r.value.clusterName == Some("ceph")
    ensures r.Ok? && m.clusterName.Some? ==> r.value.clusterName == m.clusterName
  {
    match DefaultsRefresh(env, w, m)
    case Ok(m1) => Ok(m1)
    case Err(e) =>
      if e.cls != UtilsError then Err(e)
      else Ok(if m.clusterName.None? && m.clusterUuid.None? then m.(clusterName := Some("ceph")) else m)
  }

  /** A step whose mdl_updater.Error is logged: the model is left as it was.
      Other exceptions propagate. */
  function UpdaterLogged(m: Model, r: Result<Model>): (t: Result<Model>)
    ensures t.Err? <==> r.Err? && r.error.cls != UpdaterError
    ensures t.Err? ==> t == r
    ensures t.Ok? ==> t.value == (if r.Ok? then r.value else m)
  {
    if r.Ok? then r else if r.error.cls == UpdaterError then Ok(m) else r
  }

  /** load_confg and mon_members_refresh, each with its mdl_updater.Error
      logged. */
  function ConfigLogged(env: Env, w: World, m: Model): (r: Result<Model>)
    ensures r.Err? ==> r.error.cls != UpdaterError && r.error.cls != UtilsError
    ensures r.Ok? ==> r.value.hostname == m.hostname && r.value.clusterName == m.clusterName
    ensures ConfPath(Show(m.clusterName)) !in w.files ==> r == UpdaterLogged(m, MonMembersRefresh(env, m, UpdaterError))
  {
    var m2 :- UpdaterLogged(m, LoadConfig(env, w, m, Show(m.clusterName)));
    UpdaterLogged(m2, MonMembersRefresh(env, m2, UpdaterError))
  }

  /** update: hostname, defaults, configuration and monitor members, each
      lookup failure of the updater's own kind logged rather than raised,
      then the systemd facade.  What escapes is an exception of another
      kind (a configuration that does not parse, or one with no `global`
      section), and then no facade is built. */
  function Update(env: Env, w: World, c: Client): (o: (Client, Result<()>))
    ensures o.0.clientId == c.clientId && o.0.serviceName == c.serviceName
    ensures o.0.m.hostname == Some(env.node)
    ensures o.1.Err? ==> o.1.error.cls != UtilsError && o.1.error.cls != UpdaterError
    ensures o.1.Ok? ==> o.0.init == Some(SystemdInit)
    ensures o.1.Err? ==> o.0.init == c.init
    ensures c.m.clusterName.None? && c.m.clusterUuid.None? && o.1.Ok? ==> o.0.m.clusterName == Some("ceph")
    ensures c.m.clusterName.Some? && o.1.Ok? ==> o.0.m.clusterName == c.m.clusterName
  {
    var m0 := HostnameRefresh(env, c.m);
    match DefaultsLogged(env, w, m0)
    case Err(e) => (c.(m := m0), Err(e))
    case Ok(m1) =>
      match ConfigLogged(env, w, m1)
      case Err(e) => (c.(m := m1), Err(e))
      case Ok(m3) => (c.(m := m3, init := Some(NewInit(Some("systemd")).0)), Ok(()))
  }

  /** A missing configuration file is logged, but a model with no
      configuration loaded has no `global` section, so reading the monitor
      members then raises past the handler. */
  lemma UpdateWithoutConfig(env: Env, w: World, c: Client)
    requires c.m.clusterName.Some? && c.m.clusterUuid.Some?
    requires ConfPath(c.m.clusterName.value) !in w.files
    requires "global" !in c.m.conf
    ensures Update(env, w, c).1.Err? && Update(env, w, c).0.init == c.init
  {
    var m0 := HostnameRefresh(env, c.m);
    assert DefaultsLogged(env, w, m0) == Ok(m0);
    assert MonMembersRefresh(env, m0, UpdaterError).Err? && MonMembersRefresh(env, m0, UpdaterError).error.cls == Builtin;
    assert ConfigLogged(env, w, m0).Err?;
  }

  /** The unit a controller drives. */
  function ClientUnit(c: Client): Unit {
    Unit(c.serviceName, c.clientId)
  }

  /** The guards shared by activate and deactivate: both names must be set,
      and the facade must exist. */
  function Facade(c: Client): (r: Result<InitFacade>)
    ensures r.Ok? <==> c.clientId.Some? && c.serviceName.Some? && c.init.Some?
    ensures (c.clientId.None? || c.serviceName.None?) ==> r.Err? && r.error.cls == RadosError
    ensures r.Ok? ==> r.value == c.init.value
  {
    if c.clientId.None? then Raise(RadosError, "self.ceph_client_id not specified")
    else if c.serviceName.None? then Raise(RadosError, "self.service_name not specified")
    else if c.init.None? then Raise(Builtin, "AttributeError: no attribute 'init_system'")
    else Ok(c.init.value)
  }

  /** Python truth of what is_running returned: SysV's None is false. */
  function Running(x: Option<bool>): bool {
    x == Some(true)
  }

  /** activate: start the unit only when it is not running, then enable it
      on boot whatever happened to be the case. */
  function Activate(env: Env, w: World, c: Client): (o: Out<()>)
    ensures Facade(c).Err? ==> o == Out(w, Err(Facade(c).error))
    ensures c.init == Some(SystemdInit) && c.clientId.Some? && c.serviceName.Some? ==>
      var name := c.serviceName.value + "@" + c.clientId.value;
      var state := SystemdIsRunning(env, w, ClientUnit(c));
      && |o.w.trace| > |w.trace| && o.w.trace[..|w.trace| + 1] == w.trace + [Ran(ShowArgv(name))]
      && (state.r.Err? ==> o.r.Err? && o.w.trace == w.trace + [Ran(ShowArgv(name))])
      && (state.r == Ok(true) ==> o.r.Ok? && o.w.trace == w.trace + [Ran(ShowArgv(name)), Ran([Systemctl, "enable", name])])
      && (state.r == Ok(false) && o.r.Ok? ==>
            o.w.trace == w.trace + [Ran(ShowArgv(name)), Ran([Systemctl, "start", name]), Ran([Systemctl, "enable", name])])
  {
    match Facade(c)
    case Err(e) => Out(w, Err(e))
    case Ok(f) =>
      var u := ClientUnit(c);
      var running := IsRunning(env, w, f, u);
      if running.r.Err? then Out(running.w, Err(running.r.error))
      else
        var started := if Running(running.r.value) then Out(running.w, Ok(())) else Control(env, running.w, f, u, "start");
        if started.r.Err? then started
        else Boot(env, started.w, f, u, true)
  }

  /** deactivate: stop the unit only when it is running, then disable it on
      boot whatever happened to be the case. */
  function Deactivate(env: Env, w: World, c: Client): (o: Out<()>)
    ensures Facade(c).Err? ==> o == Out(w, Err(Facade(c).error))
    ensures c.init == Some(SystemdInit) && c.clientId.Some? && c.serviceName.Some? ==>
      var name := c.serviceName.value + "@" + c.clientId.value;
      var state := SystemdIsRunning(env, w, ClientUnit(c));
      && |o.w.trace| > |w.trace| && o.w.trace[..|w.trace| + 1] == w.trace + [Ran(ShowArgv(name))]
      && (state.r.Err? ==> o.r.Err? && o.w.trace == w.trace + [Ran(ShowArgv(name))])
      && (state.r == Ok(false) ==> o.r.Ok? && o.w.trace == w.trace + [Ran(ShowArgv(name)), Ran([Systemctl, "disable", name])])
      && (state.r == Ok(true) && o.r.Ok? ==>
            o.w.trace == w.trace + [Ran(ShowArgv(name)), Ran([Systemctl, "stop", name]), Ran([Systemctl, "disable", name])])
  {
    match Facade(c)
    case Err(e) => Out(w, Err(e))
    case Ok(f) =>
      var u := ClientUnit(c);
      var running := IsRunning(env, w, f, u);
      if running.r.Err? then Out(running.w, Err(running.r.error))
      else
        var stopped := if Running(running.r.value) then Control(env, running.w, f, u, "stop") else Out(running.w, Ok(()));
        if stopped.r.Err? then stopped
        else Boot(env, stopped.w, f, u, false)
  }

  /** Through the SysV facade is_running returns nothing, so activate always
      starts and deactivate never stops. */
  lemma SysVNeverStops(env: Env, w: World, c: Client, svc: string)
    requires c.clientId.Some? && c.serviceName == Some(svc) && c.init.Some? && c.init.value.imp == Some(SysV)
    ensures Deactivate(env, w, c).r.Ok?
    ensures Deactivate(env, w, c).w.trace == w.trace + [Ran(["chkconfig", svc, "status"]), Ran(["chkconfig", svc, "off"])]
    ensures Activate(env, w, c).w.trace == w.trace + [Ran(["chkconfig", svc, "status"]), Ran(["service", svc, "start"]), Ran(["chkconfig", svc, "on"])]
  {
  }

  /** create: the subclass's prepare, then activate; a failed prepare
      activates nothing. */
  function Create(env: Env, w: World, c: Client, prepare: World -> Out<()>): (o: Out<()>)
    ensures prepare(w).r.Err? ==> o == prepare(w)
    ensures prepare(w).r.Ok? ==> o == Activate(env, prepare(w).w, c)
  {
    var p := prepare(w);
    if p.r.Err? then p else Activate(env, p.w, c)
  }

  /** destroy: deactivate, then the subclass's remove; a failed deactivate
      removes nothing. */
  function Destroy(env: Env, w: World, c: Client, remove: World -> Out<()>): (o: Out<()>)
    ensures Deactivate(env, w, c).r.Err? ==> o == Deactivate(env, w, c)
    ensures Deactivate(env, w, c).r.Ok? ==> o == remove(Deactivate(env, w, c).w)
  {
    var d := Deactivate(env, w, c);
    if d.r.Err? then d else remove(d.w)
  }

  /** Destroying an unnamed controller neither touches the unit nor removes
      anything. */
  lemma DestroyNeedsNames(env: Env, w: World, c: Client, remove: World -> Out<()>)
    requires c.clientId.None? || c.serviceName.None?
    ensures Destroy(env, w, c, remove) == Out(w, Err(Facade(c).error)) && Facade(c).error.cls == RadosError
  {
  }
}
