/** The legacy keyring authority (sesceph/keyring.py): three bootstrap
    roles, fixed paths with no checks on the cluster name, a fresh model on
    every call, and authorisation calls that end in the query class lacking
    mon_quorum. */
module LegacyKeyring {
  import opened Wrappers
  import opened Text
  import opened Exec
  import opened NodeModel
  import opened Updater
  import opened Keyring

  /** The names the legacy facade accepts. */
  const LegacyKeyTypes: set<string> := {"osd", "mds", "rgw"}

  /** The roles the legacy facade knows. */
  predicate LegacyRole(role: Role) {
    role in {Osd, Mds, Rgw}
  }

  /** The legacy path helpers: formatted whatever the cluster name. */
  function LegacyPath(role: Role, cluster: Option<string>): (p: Path)
    requires LegacyRole(role)
    ensures p == LibCeph + "bootstrap-" + RoleName(role) + "/" + Show(cluster) + ".keyring"
    ensures p == BootstrapPath(role, cluster, None)
  {
    "/var/lib/ceph/bootstrap-" + RoleName(role) + "/" + Show(cluster) + ".keyring"
  }

  /** _get_path_keyring_admin, _get_path_keyring_mon and
      _get_path_keyring_mon_bootstrap of the legacy module agree with the
      current ones. */
  lemma LegacyOtherPaths(cluster: string, host: string)
    ensures "/etc/ceph/" + cluster + ".client.admin.keyring" == AdminPath(Some(cluster))
    ensures "/var/lib/ceph/mon/" + cluster + "-" + host + "/keyring" == MonDataPath(Some(cluster), Some(host))
    ensures "/var/lib/ceph/bootstrap-mon/" + cluster + "-" + host + ".keyring" == BootstrapPath(Mon, Some(cluster), Some(host))
  {
  }

  /** The cluster a legacy call works on: the given name, or the defaults
      of a fresh model built from the arguments. */
  function LegacyCluster(env: Env, w: World, a: ClusterArgs): (r: Result<Option<string>>)
    ensures a.clusterName.Some? ==> r == Ok(a.clusterName)
    ensures a.clusterName.None? ==> (r.Ok? <==> DefaultsRefresh(env, w, Fresh(a)).Ok?)
    ensures a.clusterName.None? && r.Ok? ==> r.value == DefaultsRefresh(env, w, Fresh(a)).value.clusterName
  {
    var m := Fresh(a);
    if m.clusterName.Some? then Ok(m.clusterName)
    else
      var m1 :- DefaultsRefresh(env, w, m);
      Ok(m1.clusterName)
  }

  /** Legacy create: no hostname refresh; an existing keyring is returned,
      otherwise the generator runs in a scratch directory that is always
      removed. */
  function LegacyCreate(env: Env, w: World, role: Role, a: ClusterArgs): (o: Out<string>)
    requires LegacyRole(role)
    ensures LegacyCluster(env, w, a).Err? ==> o == Out(w, Err(LegacyCluster(env, w, a).error))
    ensures LegacyCluster(env, w, a).Ok? ==>
      var path := LegacyPath(role, LegacyCluster(env, w, a).value);
      (path in w.files ==> o == Out(w, Ok(w.files[path])))
      && (path !in w.files ==>
            o.w.trace == w.trace + [TempMade(env.scratch), Ran(CreateArgv(role, BootstrapPrincipal(role), ScratchKey(env), None).value), TreeRemoved(env.scratch)])
  {
    match LegacyCluster(env, w, a)
    case Err(e) => Out(w, Err(e))
    case Ok(cluster) =>
      Generate(env, w, LegacyPath(role, cluster), CreateArgv(role, BootstrapPrincipal(role), ScratchKey(env), None))
  }

  /** Legacy write: no-clobber, as in the current module. */
  function LegacyWrite(env: Env, w: World, role: Role, a: ClusterArgs, content: string): (o: Out<bool>)
    requires LegacyRole(role)
    ensures LegacyCluster(env, w, a).Err? ==> o == Out(w, Err(LegacyCluster(env, w, a).error))
    ensures LegacyCluster(env, w, a).Ok? ==>
      var path := LegacyPath(role, LegacyCluster(env, w, a).value);
      o.r == Ok(true) && (path in w.files ==> o.w == w) && (path !in w.files ==> o.w.files == w.files[path := Format(content)])
  {
    match LegacyCluster(env, w, a)
    case Err(e) => Out(w, Err(e))
    case Ok(cluster) => WriteKeyring(w, LegacyPath(role, cluster), content)
  }

  /** Legacy remove: a missing file is fine; a failed deletion raises. */
  function LegacyRemove(env: Env, w: World, role: Role, a: ClusterArgs): (o: Out<bool>)
    requires LegacyRole(role)
    ensures LegacyCluster(env, w, a).Err? ==> o == Out(w, Err(LegacyCluster(env, w, a).error))
    ensures LegacyCluster(env, w, a).Ok? ==>
      var path := LegacyPath(role, LegacyCluster(env, w, a).value);
      (path !in w.files ==> o == Out(w, Ok(true)))
      && (path in w.files ==> (o.r.Ok? <==> env.canRemove(path)) && (o.r.Err? ==> o.r.error.cls == KeyringError))
  {
    match LegacyCluster(env, w, a)
    case Err(e) => Out(w, Err(e))
    case Ok(cluster) => RemoveKeyring(env, w, LegacyPath(role, cluster))
  }

  /** The legacy monitor gate, then the quorum query the legacy query class
      does not have: whatever the gate decides, the call raises.  A missing
      member option raises NameError, as the class caught there is not
      defined. */
  function LegacyAuthGate(env: Env, w: World, m: Model): (o: Out<bool>)
    requires m.hostname.Some?
    ensures o.r.Err?
    ensures o.w == MonGate(env, w, m, Builtin).w
    ensures MonGate(env, w, m, Builtin).r.Ok? ==> o.r.error.cls == Builtin
  {
    var g := MonGate(env, w, m, Builtin);
    if g.r.Err? then Out(g.w, Err(g.r.error))
    else Out(g.w, Raise(Builtin, "AttributeError: _mdl_query instance has no attribute 'mon_quorum'"))
  }

  /** The model a legacy authorisation call builds. */
  function AuthModel(env: Env, w: World, a: ClusterArgs): (r: Result<Model>)
    ensures r.Ok? ==> r.value.hostname == Some(env.node)
  {
    var m := HostnameRefresh(env, Fresh(a));
    if m.clusterName.Some? then Ok(m) else DefaultsRefresh(env, w, m)
  }

  /** The only command a legacy authorisation call can issue is the
      monitor status query. */
  ghost predicate AtMostStatusQuery(w: World, w': World) {
    w'.trace == w.trace || exists c, h :: w'.trace == w.trace + [Ran(MonStatusArgv(c, h))]
  }

  /** Legacy auth_add: the keyring file must exist, then the gate; it never
      reaches `ceph auth import`. */
  function LegacyAuthAdd(env: Env, w: World, role: Role, a: ClusterArgs): (o: Out<bool>)
    requires LegacyRole(role)
    ensures o.r.Err? && AtMostStatusQuery(w, o.w)
    ensures AuthModel(env, w, a).Ok? && LegacyPath(role, AuthModel(env, w, a).value.clusterName) !in w.files
      ==> o.w == w && o.r.error.cls == KeyringError
  {
    match AuthModel(env, w, a)
    case Err(e) => Out(w, Err(e))
    case Ok(m) =>
      var path := LegacyPath(role, m.clusterName);
      if path !in w.files then Out(w, Raise(KeyringError, "rgw keyring not found"))
      else LegacyAuthGate(env, w, m)
  }

  /** Legacy auth_del: the gate alone; it never reaches `ceph auth del`. */
  function LegacyAuthDel(env: Env, w: World, role: Role, a: ClusterArgs): (o: Out<bool>)
    requires LegacyRole(role)
    ensures o.r.Err? && AtMostStatusQuery(w, o.w)
  {
    match AuthModel(env, w, a)
    case Err(e) => Out(w, Err(e))
    case Ok(m) => LegacyAuthGate(env, w, m)
  }

  // ---------------------------------------------------------------- facade

  /** The legacy facade's state: the selected key type and its role. */
  datatype LegacyKeyrings = LegacyKeyrings(keyType: Option<string>, role: Option<Role>)

  const NoLegacyKeyrings := LegacyKeyrings(None, None)

  /** The legacy key_type setter: osd, mds and rgw only; anything else,
      None included, clears the selection and raises. */
  function LegacySelect(f: LegacyKeyrings, name: Option<string>): (o: (LegacyKeyrings, Result<()>))
    ensures o.1.Ok? <==> name.Some? && name.value in LegacyKeyTypes
    ensures o.1.Err? ==> o.0 == NoLegacyKeyrings && o.1.error.cls == KeyringError
    ensures o.1.Ok? ==> o.0.keyType == name && o.0.role.Some? && LegacyRole(o.0.role.value) && RoleName(o.0.role.value) == name.value
  {
    if name.None? || name.value !in LegacyKeyTypes then (NoLegacyKeyrings, Raise(KeyringError, "Invalid Value"))
    else (LegacyKeyrings(name, RoleOf(name.value)), Ok(()))
  }

  /** Admin and mon are not legacy key types. */
  lemma LegacyRejectsAdminAndMon(f: LegacyKeyrings)
    ensures LegacySelect(f, Some("admin")) == (NoLegacyKeyrings, Raise(KeyringError, "Invalid Value"))
    ensures LegacySelect(f, Some("mon")) == (NoLegacyKeyrings, Raise(KeyringError, "Invalid Value"))
  {
  }

  /** Every legacy facade operation: raises while no role is selected. */
  function LegacyRun(env: Env, w: World, f: LegacyKeyrings, c: Call): (o: Out<Answer>)
    ensures f.role.None? ==> o == Out(w, Raise(KeyringError, "Programming error: key type unset"))
    ensures f.role.Some? && !LegacyRole(f.role.value) ==> o.w == w && o.r.Err?
    ensures f.role.Some? && LegacyRole(f.role.value) && c.CreateCall? ==>
      o.w == LegacyCreate(env, w, f.role.value, c.a).w && (o.r.Ok? <==> LegacyCreate(env, w, f.role.value, c.a).r.Ok?)
    ensures f.role.Some? && (c.AuthAddCall? || c.AuthDelCall?) ==> o.r.Err?
  {
    match f.role
    case None => Out(w, Raise(KeyringError, "Programming error: key type unset"))
    case Some(role) =>
      if !LegacyRole(role) then Out(w, Raise(KeyringError, "Programming error: key type unset"))
      else
        match c
        case CreateCall(a, _) => LiftOut(LegacyCreate(env, w, role, a), x => Text(x))
        case WriteCall(a, content) => LiftOut(LegacyWrite(env, w, role, a, content), x => Flag(x))
        case CreateAndSaveCall(a, key) => Out(w, Raise(Builtin, "AttributeError: keyring_facard has no attribute 'create_and_save'"))
        case AuthAddCall(a) => LiftOut(LegacyAuthAdd(env, w, role, a), x => Flag(x))
        case AuthDelCall(a) => LiftOut(LegacyAuthDel(env, w, role, a), x => Flag(x))
        case RemoveCall(a) => LiftOut(LegacyRemove(env, w, role, a), x => Flag(x))
  }

  function LiftOut<T>(o: Out<T>, f: T -> Answer): (t: Out<Answer>)
    ensures t.w == o.w && (t.r.Ok? <==> o.r.Ok?)
  {
    if o.r.Err? then Out(o.w, Err(o.r.error)) else Out(o.w, Ok(f(o.r.value)))
  }
}
