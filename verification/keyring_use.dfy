/** The keyring entry points (_modules/sesceph/keyring_use.py): argument
    guards and the model each prepares.  Each then hands the model to the
    keyring facade through a constructor call the facade does not accept;
    that final call is not part of this model, so every entry point here
    ends with the model it would hand over. */
module KeyringUse {
  import opened Wrappers
  import opened Text
  import opened Exec
  import opened NodeModel
  import opened Updater
  import opened Query

  /** The keyword arguments the entry points read. */
  datatype UseArgs = UseArgs(keyringType: Option<string>, cluster: ClusterArgs, keyContent: Option<string>)

  /** The preparation shared by create, purge, save and the authorisation
      entry points: a fresh model from the arguments, the hostname, the
      defaults, the configuration and the monitor members, each step raising
      on failure. */
  function Prepare(env: Env, w: World, a: ClusterArgs): (r: Result<Model>)
    ensures r.Ok? ==> r.value.hostname == Some(env.node) && ConfPath(Show(r.value.clusterName)) in w.files
    ensures DefaultsRefresh(env, w, HostnameRefresh(env, Fresh(a))).Err? ==> r.Err?
    ensures r.Ok? ==> DefaultsRefresh(env, w, HostnameRefresh(env, Fresh(a))).Ok?
    ensures r.Ok? ==> r.value.clusterName == DefaultsRefresh(env, w, HostnameRefresh(env, Fresh(a))).value.clusterName
  {
    var m0 := HostnameRefresh(env, Fresh(a));
    var m1 :- DefaultsRefresh(env, w, m0);
    var m2 :- LoadConfig(env, w, m1, Show(m1.clusterName));
    MonMembersRefresh(env, m2, UpdaterError)
  }

  /** A missing keyring_type is refused first. */
  function NeedType(u: UseArgs): (r: Result<string>)
    ensures r.Ok? <==> u.keyringType.Some?
    ensures r.Ok? ==> r.value == u.keyringType.value
    ensures r.Err? ==> r.error.cls == KeyringUseError
  {
    if u.keyringType.None? then Raise(KeyringUseError, "keyring_type is None") else Ok(u.keyringType.value)
  }

  /** keyring_create_type and keyring_purge_type. */
  function CreateType(env: Env, w: World, u: UseArgs): (r: Result<Model>)
    ensures u.keyringType.None? ==> r.Err? && r.error.cls == KeyringUseError
    ensures u.keyringType.Some? ==> r == Prepare(env, w, u.cluster)
  {
    var _ :- NeedType(u);
    Prepare(env, w, u.cluster)
  }

  /** keyring_present_type: a failure to resolve the defaults is swallowed,
      leaving whatever the defaults lookup had set. */
  function PresentType(env: Env, w: World, u: UseArgs): (r: Result<Model>)
    ensures r.Ok? <==> u.keyringType.Some?
    ensures r.Ok? ==> r.value.hostname == Some(env.node)
    ensures r.Ok? && DefaultsRefresh(env, w, HostnameRefresh(env, Fresh(u.cluster))).Ok? ==>
      r.value == DefaultsRefresh(env, w, HostnameRefresh(env, Fresh(u.cluster))).value
  {
    var _ :- NeedType(u);
    var m0 := HostnameRefresh(env, Fresh(u.cluster));
    match DefaultsRefresh(env, w, m0)
    case Ok(m1) => Ok(m1)
    case Err(_) => Ok(if m0.clusterName.None? then m0.(clusterName := Some("ceph")) else m0)
  }

  /** keyring_save_type: besides the type, key text or a secret must be
      given, and a given secret must pass the base64 check. */
  function SaveType(env: Env, w: World, u: UseArgs): (r: Result<Model>)
    ensures u.keyringType.None? ==> r.Err? && r.error.cls == KeyringUseError
    ensures u.keyContent.None? && u.cluster.secret.None? ==> r.Err? && r.error.cls == KeyringUseError
    ensures u.cluster.secret.Some? && !env.base64Ok(u.cluster.secret.value) ==> r.Err?
    ensures r.Ok? ==> u.keyringType.Some? && (u.keyContent.Some? || u.cluster.secret.Some?)
    ensures r.Ok? ==> r == Prepare(env, w, u.cluster)
  {
    var _ :- NeedType(u);
    if u.keyContent.None? && u.cluster.secret.None? then Raise(KeyringUseError, "Set either the key_content or the key `secret`")
    else if u.cluster.secret.Some? && !env.base64Ok(u.cluster.secret.value) then Raise(Builtin, "invalid base64 secret")
    else Prepare(env, w, u.cluster)
  }

  /** keyring_auth_add_type and keyring_auth_del_type: the type must not be
      mon or admin, the host must be a monitor member, and the monitor's
      status is then fetched. */
  function AuthType(env: Env, w: World, u: UseArgs): (o: Out<Model>)
    ensures u.keyringType.None? || u.keyringType.value in {"mon", "admin"} ==>
      o.w == w && o.r.Err? && o.r.error.cls == KeyringUseError
    ensures o.r.Ok? ==> u.keyringType.Some? && u.keyringType.value !in {"mon", "admin"}
    ensures o.r.Ok? ==> Prepare(env, w, u.cluster).Ok? && MonIs(Prepare(env, w, u.cluster).value) == Ok(true)
    ensures Prepare(env, w, u.cluster).Ok? && MonIs(Prepare(env, w, u.cluster).value) == Ok(false) ==> o.w == w && o.r.Err?
  {
    var t := NeedType(u);
    if t.Err? then Out(w, Err(t.error))
    else if t.value in {"mon", "admin"} then Out(w, Raise(KeyringUseError, "keyring_type is " + t.value))
    else
      match Prepare(env, w, u.cluster)
      case Err(e) => Out(w, Err(e))
      case Ok(m) =>
        if MonIs(m) != Ok(true) then Out(w, Raise(KeyringUseError, "Not ruining a mon daemon"))
        else MonStatus(env, w, m)
  }
}
