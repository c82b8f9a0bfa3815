/** The metadata-server controller (_modules/sesceph/mds.py): one named MDS
    instance with its data directory, systemd environment file and key. */
module Mds {
  import opened Wrappers
  import opened Text
  import opened Exec
  import opened NodeModel
  import opened Service
  import opened RadosClient
  import opened InstanceKey
  import Keyring

  /** An MDS controller: the shared controller state, plus the port and the
      address the daemon binds. */
  datatype MdsCtrl = MdsCtrl(c: Client, port: Option<string>, addr: Option<string>)

  const MdsService := "ceph-mds"

  /** mds_ctrl.__init__: the `name` argument is both the instance name and
      the client id. */
  function NewMds(a: ClusterArgs, name: Option<string>, port: Option<string>, addr: Option<string>): (d: MdsCtrl)
    ensures d.c.clientId == name && d.c.serviceName == Some(MdsService) && d.c.init.None?
    ensures d.port == port && d.addr == addr
  {
    MdsCtrl(NewClient(a, name).(serviceName := Some(MdsService)), port, addr)
  }

  function Cluster(d: MdsCtrl): Option<string> {
    d.c.m.clusterName
  }

  /** _set_mds_path_lib: `<mds lib>/<cluster>-<name>`; an unset name raises.
      The cluster name is formatted whatever it is. */
  function LibPath(env: Env, d: MdsCtrl): (r: Result<Path>)
    ensures r.Ok? <==> d.c.clientId.Some?
    ensures r.Err? ==> r.error.cls == MdsError
    ensures r.Ok? ==> StartsWith(r.value, env.mdsLib + "/")
  {
    if d.c.clientId.None? then Raise(MdsError, "mds name not specified")
    else Ok(env.mdsLib + "/" + Show(Cluster(d)) + "-" + d.c.clientId.value)
  }

  /** _set_path_systemd_env: the directory of the environment files. */
  function EnvDir(env: Env): Path {
    env.mdsLib + "/systemd/"
  }

  /** _set_mds_path_env: `<env dir>/<name>`; an unset name or cluster raises. */
  function EnvPath(env: Env, d: MdsCtrl): (r: Result<Path>)
    ensures r.Ok? <==> d.c.clientId.Some? && Cluster(d).Some?
    ensures r.Err? ==> r.error.cls == MdsError
    ensures r.Ok? ==> StartsWith(r.value, EnvDir(env))
  {
    if d.c.clientId.None? then Raise(MdsError, "mds name not specified")
    else if Cluster(d).None? then Raise(MdsError, "cluster_name not specified")
    else Ok(EnvDir(env) + "/" + d.c.clientId.value)
  }

  /** Two instances of one cluster never share a directory or an environment
      file. */
  lemma InstancePathsDistinct(env: Env, d1: MdsCtrl, d2: MdsCtrl)
    requires Cluster(d1) == Cluster(d2)
    requires d1.c.clientId.Some? && d2.c.clientId.Some? && d1.c.clientId != d2.c.clientId
    ensures LibPath(env, d1).value != LibPath(env, d2).value
    ensures Cluster(d1).Some? ==> EnvPath(env, d1).value != EnvPath(env, d2).value
  {
    var p1 := env.mdsLib + "/" + Show(Cluster(d1)) + "-";
    SuffixDiffers(p1, d1.c.clientId.value, d2.c.clientId.value);
    SuffixDiffers(EnvDir(env) + "/", d1.c.clientId.value, d2.c.clientId.value);
  }

  lemma SuffixDiffers(p: string, a: string, b: string)
    requires a != b
    ensures p + a != p + b
  {
    assert (p + a)[|p|..] == a;
    assert (p + b)[|p|..] == b;
  }

  /** keyring._get_path_keyring_mds. */
  function BootstrapKey(d: MdsCtrl): Path {
    Keyring.BootstrapPath(Keyring.Mds, Cluster(d), None)
  }

  /** prepare: both paths, then the bootstrap key must exist before any
      directory is made; the environment and instance directories are made
      when missing, and the instance key is requested only when absent. */
  function Prepare(env: Env, w: World, d: MdsCtrl): (o: Out<()>)
    ensures LibPath(env, d).Err? || EnvPath(env, d).Err? ==> o.w == w && o.r.Err? && o.r.error.cls == MdsError
    ensures EnvPath(env, d).Ok? && BootstrapKey(d) !in w.files ==> o.w == w && o.r.Err? && o.r.error.cls == MdsError
    ensures Extends(w, o.w)
    ensures o.r.Ok? ==> EnvDir(env) in o.w.dirs && LibPath(env, d).value in o.w.dirs
    ensures o.r.Ok? ==> BootstrapKey(d) in w.files
    ensures EnvPath(env, d).Ok? && BootstrapKey(d) in w.files && KeyPath(LibPath(env, d).value) in w.files ==>
      o.r.Ok? && NoCommandSince(w, o.w) && o.w.files == w.files
    ensures EnvPath(env, d).Ok? && BootstrapKey(d) in w.files && KeyPath(LibPath(env, d).value) !in w.files ==>
      Ran(KeyArgv(env, d)) in o.w.trace[|w.trace|..]
  {
    if LibPath(env, d).Err? then Out(w, Err(LibPath(env, d).error))
    else if EnvPath(env, d).Err? then Out(w, Err(EnvPath(env, d).error))
    else if BootstrapKey(d) !in w.files then Out(w, Raise(MdsError, "Keyring not found at " + BootstrapKey(d)))
    else
      var lib := LibPath(env, d).value;
      var w2 := InstanceDirs(w, EnvDir(env), lib);
      if KeyPath(lib) in w2.files then Out(w2, Ok(()))
      else
        var f := Fetch(env, w2, KeyArgv(env, d), KeyPath(lib), MdsError);
        RanSince(w, w2, f.w, KeyArgv(env, d));
        f
  }

  /** The directories prepare makes when missing, first the environment
      directory, then the instance directory. */
  function InstanceDirs(w: World, envDir: Path, lib: Path): (w': World)
    ensures envDir in w'.dirs && lib in w'.dirs && w'.files == w.files
    ensures NoCommandSince(w, w')
  {
    var w1 := if envDir in w.dirs then w else MakeDirs(w, envDir);
    if lib in w1.dirs then w1 else MakeDirs(w1, lib)
  }

  /** A command that opens the events after `mid` is among those after
      `w`. */
  lemma RanSince(w: World, mid: World, after: World, argv: Argv)
    requires Extends(w, mid) && Extends(mid, after)
    requires |after.trace| > |mid.trace| && after.trace[|mid.trace|] == Ran(argv)
    ensures Extends(w, after)
    ensures Ran(argv) in after.trace[|w.trace|..]
  {
    assert after.trace[..|w.trace|] == after.trace[..|mid.trace|][..|w.trace|];
    assert after.trace[|w.trace|..][|mid.trace| - |w.trace|] == Ran(argv);
  }

  /** The get-or-create request of prepare. */
  function KeyArgv(env: Env, d: MdsCtrl): Argv
    requires d.c.clientId.Some? && Cluster(d).Some?
  {
    GetOrCreateArgv("mds", Cluster(d).value, BootstrapKey(d), d.c.clientId.value, KeyPath(LibPath(env, d).value))
  }

  /** The revocation of _remove_mds_keyring. */
  function DelKeyArgv(d: MdsCtrl): Argv
    requires d.c.clientId.Some? && Cluster(d).Some?
  {
    DelArgv("mds", Cluster(d).value, BootstrapKey(d), d.c.clientId.value)
  }

  /** _remove_mds_keyring: nothing when the instance directory is absent,
      otherwise `ceph auth del`, raising on a non-zero exit. */
  function RevokeKey(env: Env, w: World, d: MdsCtrl): (o: Out<()>)
    requires d.c.clientId.Some? && Cluster(d).Some?
    ensures LibPath(env, d).value !in w.dirs ==> o == Out(w, Ok(()))
    ensures LibPath(env, d).value in w.dirs ==> o == Revoke(env, w, DelKeyArgv(d), MdsError)
  {
    if LibPath(env, d).value !in w.dirs then Out(w, Ok(()))
    else Revoke(env, w, DelKeyArgv(d), MdsError)
  }

  /** remove: the environment file goes first; then, only when the instance
      directory exists, the key is revoked if present and the directory is
      deleted.  A failed revocation raises, and the directory stays. */
  function Remove(env: Env, w: World, d: MdsCtrl): (o: Out<()>)
    ensures LibPath(env, d).Err? || EnvPath(env, d).Err? ==> o.w == w && o.r.Err? && o.r.error.cls == MdsError
    ensures EnvPath(env, d).Ok? && LibPath(env, d).value !in w.dirs ==> NoCommandSince(w, o.w)
    ensures EnvPath(env, d).Ok? && LibPath(env, d).value !in w.dirs && EnvPath(env, d).value !in w.files ==> o == Out(w, Ok(()))
    ensures EnvPath(env, d).Ok? && EnvPath(env, d).value in w.files && env.canRemove(EnvPath(env, d).value) ==>
      |o.w.trace| > |w.trace| && o.w.trace[|w.trace|] == FileRemoved(EnvPath(env, d).value)
    ensures o.r.Ok? && LibPath(env, d).value in w.dirs ==> LibPath(env, d).value !in o.w.dirs
    ensures EnvPath(env, d).Ok? && KeyPath(LibPath(env, d).value) !in w.files ==> NoCommandSince(w, o.w)
    ensures o.r.Err? && o.r.error.cls == MdsError && EnvPath(env, d).Ok? ==> LibPath(env, d).value in o.w.dirs
  {
    if LibPath(env, d).Err? then Out(w, Err(LibPath(env, d).error))
    else if EnvPath(env, d).Err? then Out(w, Err(EnvPath(env, d).error))
    else
      var lib := LibPath(env, d).value;
      var envp := EnvPath(env, d).value;
      var w1 := if envp in w.files then RemoveFile(env, w, envp) else Out(w, Ok(()));
      if w1.r.Err? then w1
      else if lib !in w1.w.dirs then w1
      else
        var w2 := if KeyPath(lib) in w1.w.files then RevokeKey(env, w1.w, d) else w1;
        if w2.r.Err? then w2
        else Out(RemoveTree(w2.w, lib), Ok(()))
  }

  /** One `KEY="value"` line of the environment file. */
  function EnvLine(key: string, value: string): string {
    key + "=\"" + value + "\""
  }

  /** The environment file make_env writes: the bind address, the bind port
      and the cluster, one line each, in that order. */
  function EnvText(addr: string, port: string, cluster: string): string {
    EnvLine("BIND_IPV4", addr) + "\n" + EnvLine("BIND_PORT", port) + "\n" + EnvLine("CLUSTER", cluster) + "\n"
  }

  /** The file reads back, line by line, as the three settings. */
  lemma EnvTextLines(addr: string, port: string, cluster: string)
    requires '\n' !in addr && '\n' !in port && '\n' !in cluster
    ensures Split(EnvText(addr, port, cluster), '\n') ==
      [EnvLine("BIND_IPV4", addr), EnvLine("BIND_PORT", port), EnvLine("CLUSTER", cluster), ""]
  {
    var a := EnvLine("BIND_IPV4", addr);
    var p := EnvLine("BIND_PORT", port);
    var c := EnvLine("CLUSTER", cluster);
    EnvLineOneLine("BIND_IPV4", addr);
    EnvLineOneLine("BIND_PORT", port);
    EnvLineOneLine("CLUSTER", cluster);
    assert EnvText(addr, port, cluster) == a + ['\n'] + (p + ['\n'] + (c + ['\n'] + ""));
    SplitNoSep("", '\n');
    SplitAtFirst(c, "", '\n');
    SplitAtFirst(p, c + ['\n'] + "", '\n');
    SplitAtFirst(a, p + ['\n'] + (c + ['\n'] + ""), '\n');
  }

  lemma EnvLineOneLine(key: string, value: string)
    requires '\n' !in key && '\n' !in value
    ensures '\n' !in EnvLine(key, value)
  {
    assert '\n' !in "=\"" && '\n' !in "\"";
  }

  /** make_env: nothing when the file exists. */
  function MakeEnv(w: World, envp: Path, d: MdsCtrl): (w': World)
    requires d.addr.Some? && d.port.Some?
    ensures envp in w.files ==> w' == w
    ensures envp !in w.files ==> w'.files == w.files[envp := EnvText(d.addr.value, d.port.value, Show(Cluster(d)))]
    ensures envp !in w.files ==> w'.trace == w.trace + [FileWritten(envp)]
  {
    if envp in w.files then w else WriteFile(w, envp, EnvText(d.addr.value, d.port.value, Show(Cluster(d))))
  }

  /** activate: name, cluster, port, address and an existing environment
      directory are required before anything happens; then the environment
      file is written when missing, and the unit is started. */
  function Activate(env: Env, w: World, d: MdsCtrl): (o: Out<()>)
    ensures (EnvPath(env, d).Err? || d.port.None? || d.addr.None? || EnvDir(env) !in w.dirs) ==>
      o.w == w && o.r.Err? && o.r.error.cls == MdsError
    ensures EnvPath(env, d).Ok? && d.port.Some? && d.addr.Some? && EnvDir(env) in w.dirs ==>
      o == RadosClient.Activate(env, MakeEnv(w, EnvPath(env, d).value, d), d.c)
  {
    if EnvPath(env, d).Err? then Out(w, Err(EnvPath(env, d).error))
    else if d.port.None? then Out(w, Raise(MdsError, "port not specified"))
    else if d.addr.None? then Out(w, Raise(MdsError, "addr not specified"))
    else if EnvDir(env) !in w.dirs then Out(w, Raise(MdsError, "self.model.path_systemd_env not specified"))
    else RadosClient.Activate(env, MakeEnv(w, EnvPath(env, d).value, d), d.c)
  }

  /** The environment file is written before the unit is first queried. */
  lemma ActivateWritesEnvFirst(env: Env, w: World, d: MdsCtrl)
    requires EnvPath(env, d).Ok? && d.port.Some? && d.addr.Some? && EnvDir(env) in w.dirs
    requires EnvPath(env, d).value !in w.files
    requires d.c.init == Some(SystemdInit) && d.c.serviceName == Some(MdsService)
    ensures |Activate(env, w, d).w.trace| >= |w.trace| + 2
    ensures Activate(env, w, d).w.trace[|w.trace|] == FileWritten(EnvPath(env, d).value)
    ensures Activate(env, w, d).w.trace[|w.trace| + 1] == Ran(ShowArgv(MdsService + "@" + d.c.clientId.value))
  {
    var w1 := MakeEnv(w, EnvPath(env, d).value, d);
    assert w1.trace == w.trace + [FileWritten(EnvPath(env, d).value)];
    assert MdsService + "@" + d.c.clientId.value == d.c.serviceName.value + "@" + d.c.clientId.value;
    var o := RadosClient.Activate(env, w1, d.c);
    assert o.w.trace[..|w1.trace| + 1] == w1.trace + [Ran(ShowArgv(MdsService + "@" + d.c.clientId.value))];
    assert o.w.trace[|w.trace|] == o.w.trace[..|w1.trace| + 1][|w.trace|];
    assert o.w.trace[|w.trace| + 1] == o.w.trace[..|w1.trace| + 1][|w.trace| + 1];
  }

  /** create: the environment path, then prepare, then activate. */
  function Create(env: Env, w: World, d: MdsCtrl): (o: Out<()>)
    ensures EnvPath(env, d).Err? ==> o.w == w && o.r.Err? && o.r.error.cls == MdsError
    ensures Prepare(env, w, d).r.Err? ==> o == Prepare(env, w, d)
    ensures Prepare(env, w, d).r.Ok? ==> o == Activate(env, Prepare(env, w, d).w, d)
  {
    if EnvPath(env, d).Err? then Out(w, Err(EnvPath(env, d).error))
    else
      var p := Prepare(env, w, d);
      if p.r.Err? then p else Activate(env, p.w, d)
  }

  /** destroy: deactivate, then remove. */
  function Destroy(env: Env, w: World, d: MdsCtrl): (o: Out<()>)
    ensures o == RadosClient.Destroy(env, w, d.c, w' => Remove(env, w', d))
    ensures RadosClient.Deactivate(env, w, d.c).r.Err? ==> o == RadosClient.Deactivate(env, w, d.c)
  {
    RadosClient.Destroy(env, w, d.c, w' => Remove(env, w', d))
  }
}
