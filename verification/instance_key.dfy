/** The per-instance key handling that the MDS and RGW controllers
    (_modules/sesceph/mds.py and _modules/sesceph/rgw.py) write out twice
    with only the role changed: `ceph auth get-or-create` into the instance
    directory, cleaning up a partial key on failure, and `ceph auth del`. */
module InstanceKey {
  import opened Wrappers
  import opened Exec

  /** The key file inside an instance directory (os.path.join). */
  function KeyPath(lib: Path): Path {
    lib + "/keyring"
  }

  /** The principal of one named instance. */
  function ClientName(name: string): string {
    "client." + name
  }

  /** The arguments shared by both `ceph auth` calls: the cluster, then the
      role's bootstrap identity and keyring. */
  function AuthPrefix(role: string, cluster: string, bootstrap: Path): Argv {
    ["ceph", "--connect-timeout", "5", "--cluster", cluster,
     "--name", "client.bootstrap-" + role, "--keyring", bootstrap]
  }

  /** `ceph auth get-or-create client.<name> osd 'allow rwx' mon 'allow rw'
      -o <key>`. */
  function GetOrCreateArgv(role: string, cluster: string, bootstrap: Path, name: string, key: Path): (argv: Argv)
    ensures |argv| == 18 && argv[..9] == AuthPrefix(role, cluster, bootstrap)
    ensures argv[9..12] == ["auth", "get-or-create", ClientName(name)]
    ensures argv[12..16] == ["osd", "allow rwx", "mon", "allow rw"]
    ensures argv[16..] == ["-o", key]
  {
    AuthPrefix(role, cluster, bootstrap) + ["auth", "get-or-create", ClientName(name), "osd", "allow rwx", "mon", "allow rw", "-o", key]
  }

  /** `ceph auth del client.<name>`. */
  function DelArgv(role: string, cluster: string, bootstrap: Path, name: string): (argv: Argv)
    ensures |argv| == 12 && argv[..9] == AuthPrefix(role, cluster, bootstrap)
    ensures argv[9..] == ["auth", "del", ClientName(name)]
  {
    AuthPrefix(role, cluster, bootstrap) + ["auth", "del", ClientName(name)]
  }

  /** Both calls name the same principal through the same bootstrap
      identity, and only the fetch writes a file. */
  lemma ArgvsAgree(role: string, cluster: string, bootstrap: Path, name: string, key: Path)
    ensures GetOrCreateArgv(role, cluster, bootstrap, name, key)[..9] == DelArgv(role, cluster, bootstrap, name)[..9]
    ensures GetOrCreateArgv(role, cluster, bootstrap, name, key)[11] == DelArgv(role, cluster, bootstrap, name)[11]
    ensures key in GetOrCreateArgv(role, cluster, bootstrap, name, key)
  {
    assert GetOrCreateArgv(role, cluster, bootstrap, name, key)[17] == key;
  }

  /** Run the key request.  A non-zero exit removes whatever key file the
      failed command left and then raises `cls`; a failure to remove that
      file raises first. */
  function Fetch(env: Env, w: World, argv: Argv, key: Path, cls: ErrClass): (o: Out<()>)
    ensures o.r.Ok? <==> env.run(w.trace, argv).retcode == 0
    ensures o.r.Ok? ==> o.w == Execute(env, w, argv).0
    ensures Extends(w, o.w) && |o.w.trace| > |w.trace| && o.w.trace[|w.trace|] == Ran(argv)
    ensures o.w.dirs == w.dirs
    ensures o.r.Err? && (key !in Execute(env, w, argv).0.files || env.canRemove(key)) ==>
      key !in o.w.files && o.r.error.cls == cls
    ensures o.r.Err? ==> forall p :: p in o.w.files && p != key ==> p in Execute(env, w, argv).0.files
  {
    var (w1, reply) := Execute(env, w, argv);
    if reply.retcode == 0 then Out(w1, Ok(()))
    else if key !in w1.files then Out(w1, Raise(cls, "Failed executing ceph auth get-or-create"))
    else
      var rm := RemoveFile(env, w1, key);
      if rm.r.Err? then rm
      else Out(rm.w, Raise(cls, "Failed executing ceph auth get-or-create"))
  }

  /** Run the revocation, raising `cls` on a non-zero exit. */
  function Revoke(env: Env, w: World, argv: Argv, cls: ErrClass): (o: Out<()>)
    ensures o.w == Execute(env, w, argv).0
    ensures o.r.Ok? <==> env.run(w.trace, argv).retcode == 0
    ensures o.r.Err? ==> o.r.error.cls == cls
  {
    var c := ExecuteChecked(env, w, argv, cls, "Failed executing ceph auth del");
    if c.r.Err? then Out(c.w, Err(c.r.error)) else Out(c.w, Ok(()))
  }
}
