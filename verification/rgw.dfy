/** The RADOS gateway controller (_modules/sesceph/rgw.py): the pools a
    gateway needs, and one named gateway instance with its directory and
    key.

    The remote updater the controller uses for listing and adding pools has
    no such methods; `Env.remotePools` and `Env.remotePoolAdd` stand for
    them, and the `PoolsListed` and `PoolAdded` events record the calls.
    The logger the controller names when the listing is missing (`LOG`,
    where the module defines only `log`) is not defined either, so a
    missing listing raises a NameError before anything is returned. */
module Rgw {
  import opened Wrappers
  import opened Text
  import opened JsonData
  import opened Exec
  import opened NodeModel
  import opened RadosClient
  import opened InstanceKey
  import Remote
  import Keyring

  /** A gateway controller; the `name` argument is the client id. */
  datatype RgwCtrl = RgwCtrl(c: Client)

  const RgwService := "ceph-radosgw"

  /** constants._path_ceph_lib_rgw. */
  const RgwLib: Path := "/var/lib/ceph/radosgw"

  function NewRgw(a: ClusterArgs, name: Option<string>): (d: RgwCtrl)
    ensures d.c.clientId == name && d.c.serviceName == Some(RgwService) && d.c.init.None?
  {
    RgwCtrl(NewClient(a, name).(serviceName := Some(RgwService)))
  }

  function Cluster(d: RgwCtrl): Option<string> {
    d.c.m.clusterName
  }

  /** The ten pools a gateway needs. */
  const RequiredPools: set<string> := {".rgw", ".rgw.control", ".rgw.gc", ".log", ".intent-log",
                                       ".usage", ".users", ".users.email", ".users.swift", ".users.uid"}

  /** The names `foundnames` collects from `for pool in pool_list`: an
      object's keys, a list's string items, a string's characters.  A number
      or a boolean cannot be iterated, and a list holding an object or a
      list cannot be added to a set.  A list's null, boolean and number
      items are hashable but are no pool name, so they are not kept. */
  function PoolNames(j: Json): (r: Result<set<string>>)
    requires !j.JNull?
    ensures j.JObj? ==> r == Ok(j.fields.Keys)
    ensures j.JList? ==> (r.Ok? <==> forall k :: 0 <= k < |j.items| ==> Hashable(j.items[k]))
    ensures j.JList? && r.Ok? ==> forall s :: s in r.value <==> JStr(s) in j.items
    ensures j.JBool? || j.JNum? ==> r.Err? && r.error.cls == Builtin
    ensures r.Err? ==> r.error.cls == Builtin
  {
    match j
    case JObj(fields) => Ok(fields.Keys)
    case JList(items) =>
      if exists k :: 0 <= k < |items| && !Hashable(items[k]) then Raise(Builtin, "TypeError: unhashable type")
      else Ok(set x | x in items && x.JStr? :: x.s)
    case JStr(s) => Ok(set k | 0 <= k < |s| :: [s[k]])
    case _ => Raise(Builtin, "TypeError: object is not iterable")
  }

  /** Connect with a fresh remote updater; failing to connect raises. */
  function Connected(env: Env, w: World, d: RgwCtrl): (o: Out<()>)
    ensures var c := Remote.Connect(env, w, Remote.NewRemote(d.c.m));
      && o.w == c.w && o.w.dirs == w.dirs
      && (o.r.Ok? <==> c.r.Ok? && c.r.value.1)
      && (c.r.Ok? && !c.r.value.1 ==> o.r.Err? && o.r.error.cls == RgwError)
  {
    var c := Remote.Connect(env, w, Remote.NewRemote(d.c.m));
    if c.r.Err? then Out(c.w, Err(c.r.error))
    else if !c.r.value.1 then Out(c.w, Raise(RgwError, "Cant connect to cluster."))
    else Out(c.w, Ok(()))
  }

  /** rgw_pools_missing: connect, list the pools, and return the required
      names not listed.  A listing that is still None reaches the undefined
      logger and raises a NameError, so the False after it is never
      returned. */
  function PoolsMissing(env: Env, w: World, d: RgwCtrl): (o: Out<set<string>>)
    ensures Connected(env, w, d).r.Err? ==> o == Out(Connected(env, w, d).w, Err(Connected(env, w, d).r.error))
    ensures Connected(env, w, d).r.Ok? ==>
      var c := Connected(env, w, d).w;
      var pools := env.remotePools(c.trace);
      && o.w == c.(trace := c.trace + [PoolsListed])
      && o.w.dirs == w.dirs
      && (pools.JNull? ==> o.r.Err? && o.r.error.cls == Builtin)
      && (o.r.Ok? <==> !pools.JNull? && PoolNames(pools).Ok?)
      && (o.r.Ok? ==> o.r.value == RequiredPools - PoolNames(pools).value)
  {
    var c := Connected(env, w, d);
    if c.r.Err? then Out(c.w, Err(c.r.error))
    else
      var pools := env.remotePools(c.w.trace);
      var w1 := c.w.(trace := c.w.trace + [PoolsListed]);
      if pools.JNull? then Out(w1, Raise(Builtin, "NameError: global name 'LOG' is not defined"))
      else
        match PoolNames(pools)
        case Err(e) => Out(w1, Err(e))
        case Ok(found) => Out(w1, Ok(RequiredPools - found))
  }

  /** With a listing of pool names, the listing is accepted, a required
      pool is missing exactly when it is not listed, and nothing else is
      ever reported missing. */
  lemma MissingExactly(names: seq<string>)
    ensures var j := JList(seq(|names|, k requires 0 <= k < |names| => JStr(names[k])));
      && PoolNames(j).Ok?
      && forall p :: p in RequiredPools - PoolNames(j).value <==> p in RequiredPools && p !in names
  {
    var items := seq(|names|, k requires 0 <= k < |names| => JStr(names[k]));
    assert forall k :: 0 <= k < |items| ==> Hashable(items[k]);
    forall p
      ensures JStr(p) in items <==> p in names
    {
      if p in names {
        var k :| 0 <= k < |names| && names[k] == p;
        assert items[k] == JStr(p);
      }
    }
  }

  /** The events of adding each of `names` in turn with 16 placement groups. */
  function AddEvents(names: seq<string>): (e: seq<Event>)
    ensures |e| == |names| && forall k :: 0 <= k < |names| ==> e[k] == PoolAdded(names[k], 16)
  {
    seq(|names|, k requires 0 <= k < |names| => PoolAdded(names[k], 16))
  }

  /** Whether the add of `names[k]` fails, given the trace it started on. */
  predicate AddFails(env: Env, t: seq<Event>, names: seq<string>, k: int)
    requires 0 <= k < |names|
  {
    !env.remotePoolAdd(t + AddEvents(names[..k]), names[k], 16)
  }

  /** Whether some add among `names` fails is whether one among all but the
      last fails or the last one does. */
  lemma AddFailsStep(env: Env, t: seq<Event>, names: seq<string>)
    requires |names| > 0
    ensures var n := |names| - 1;
      (exists k | 0 <= k < |names| :: AddFails(env, t, names, k)) <==>
      (exists k | 0 <= k < n :: AddFails(env, t, names[..n], k)) || AddFails(env, t, names, n)
  {
    var n := |names| - 1;
    forall k | 0 <= k < n
      ensures AddFails(env, t, names, k) <==> AddFails(env, t, names[..n], k)
    {
      assert names[..n][..k] == names[..k];
    }
  }

  /** The loop of rgw_pools_create: every name is added, a failure is
      logged and the loop goes on; the result is false exactly when some
      add failed. */
  function AddAll(env: Env, w: World, names: seq<string>): (o: (World, bool))
    ensures o.0 == w.(trace := w.trace + AddEvents(names))
    ensures !o.1 <==> exists k | 0 <= k < |names| :: AddFails(env, w.trace, names, k)
    decreases |names|
  {
    if |names| == 0 then (w, true)
    else
      var n := |names| - 1;
      var (w1, rc) := AddAll(env, w, names[..n]);
      var ok := env.remotePoolAdd(w1.trace, names[n], 16);
      AddFailsStep(env, w.trace, names);
      assert AddEvents(names) == AddEvents(names[..n]) + [PoolAdded(names[n], 16)];
      (w1.(trace := w1.trace + [PoolAdded(names[n], 16)]), rc && ok)
  }

  /** rgw_pools_create: connect (raising when that fails), work out the
      missing pools (connecting again), and add each of them.  Pools already
      listed are never added. */
  function PoolsCreate(env: Env, w: World, d: RgwCtrl): (o: Out<bool>)
    ensures Connected(env, w, d).r.Err? ==> o == Out(Connected(env, w, d).w, Err(Connected(env, w, d).r.error))
    ensures Connected(env, w, d).r.Ok? ==>
      var m := PoolsMissing(env, Connected(env, w, d).w, d);
      && (m.r.Err? ==> o == Out(m.w, Err(m.r.error)))
      && (m.r.Ok? ==>
            var names := env.order(m.r.value);
            && o.w == m.w.(trace := m.w.trace + AddEvents(names))
            && o.r.Ok?
            && (!o.r.value <==> exists k | 0 <= k < |names| :: AddFails(env, m.w.trace, names, k)))
  {
    var c := Connected(env, w, d);
    if c.r.Err? then Out(c.w, Err(c.r.error))
    else
      var m := PoolsMissing(env, c.w, d);
      if m.r.Err? then Out(m.w, Err(m.r.error))
      else
        var (w1, rc) := AddAll(env, m.w, env.order(m.r.value));
        Out(w1, Ok(rc))
  }

  /** Under a faithful iteration order, the pools added are exactly the
      missing ones, each once. */
  lemma CreateAddsOnlyMissing(env: Env, missing: set<string>)
    requires OrderIsFaithful(env, missing)
    ensures forall k :: 0 <= k < |AddEvents(env.order(missing))| ==> AddEvents(env.order(missing))[k].name in missing
    ensures forall p :: p in missing ==> PoolAdded(p, 16) in AddEvents(env.order(missing))
  {
    var names := env.order(missing);
    forall p | p in missing
      ensures PoolAdded(p, 16) in AddEvents(names)
    {
      var k :| 0 <= k < |names| && names[k] == p;
      assert AddEvents(names)[k] == PoolAdded(p, 16);
    }
  }

  /** _set_rgw_path_lib: `<rgw lib>/<cluster>-<name>`; an unset name raises. */
  function LibPath(d: RgwCtrl): (r: Result<Path>)
    ensures r.Ok? <==> d.c.clientId.Some?
    ensures r.Err? ==> r.error.cls == RgwError
    ensures r.Ok? ==> StartsWith(r.value, RgwLib + "/")
  {
    if d.c.clientId.None? then Raise(RgwError, "rgw name not specified")
    else Ok(RgwLib + "/" + Show(Cluster(d)) + "-" + d.c.clientId.value)
  }

  /** keyring._get_path_keyring_rgw. */
  function BootstrapKey(d: RgwCtrl): Path {
    Keyring.BootstrapPath(Keyring.Rgw, Cluster(d), None)
  }

  /** The part of prepare after the pools check: the name and the bootstrap
      key are required; the instance directory is made when missing and
      the instance key requested when absent.  An unset cluster name reaches
      the key request as None, which the executor rejects. */
  function PrepareInstance(env: Env, w: World, d: RgwCtrl): (o: Out<()>)
    ensures LibPath(d).Err? || BootstrapKey(d) !in w.files ==> o.w == w && o.r.Err? && o.r.error.cls == RgwError
    ensures LibPath(d).Ok? && BootstrapKey(d) in w.files ==> o == Provision(env, w, d, LibPath(d).value)
  {
    if LibPath(d).Err? then Out(w, Err(LibPath(d).error))
    else if BootstrapKey(d) !in w.files then Out(w, Raise(RgwError, "Keyring not found at " + BootstrapKey(d)))
    else Provision(env, w, d, LibPath(d).value)
  }

  /** The instance directory made when missing, then the instance key
      requested when absent; a present key means no command at all. */
  function Provision(env: Env, w: World, d: RgwCtrl, lib: Path): (o: Out<()>)
    requires LibPath(d) == Ok(lib)
    ensures Extends(w, o.w) && o.w.dirs == w.dirs + {lib}
    ensures o.r.Ok? && KeyPath(lib) !in w.files ==>
      Cluster(d).Some? && Ran(GetOrCreateArgv("rgw", Cluster(d).value, BootstrapKey(d), d.c.clientId.value, KeyPath(lib))) in o.w.trace[|w.trace|..]
    ensures KeyPath(lib) in w.files ==> o.r.Ok? && NoCommandSince(w, o.w)
  {
    var w1 := if lib in w.dirs then w else MakeDirs(w, lib);
    assert Extends(w, w1) && NoCommandSince(w, w1);
    if KeyPath(lib) in w1.files then Out(w1, Ok(()))
    else if Cluster(d).None? then Out(w1, Raise(Builtin, "TypeError: expected string, NoneType found"))
    else
      var argv := GetOrCreateArgv("rgw", Cluster(d).value, BootstrapKey(d), d.c.clientId.value, KeyPath(lib));
      var o := Fetch(env, w1, argv, KeyPath(lib), RgwError);
      ExtendsTrans(w, w1, o.w);
      assert o.w.trace[|w1.trace|] == o.w.trace[|w.trace|..][|w1.trace| - |w.trace|];
      o
  }

  /** prepare: missing pools raise before any directory is made; a failure
      to work them out is passed on unchanged. */
  function Prepare(env: Env, w: World, d: RgwCtrl): (o: Out<()>)
    ensures var m := PoolsMissing(env, w, d);
      && (m.r.Err? ==> o == Out(m.w, Err(m.r.error)))
      && (m.r.Ok? && m.r.value != {} ==> o.r.Err? && o.r.error.cls == RgwError && o.w.dirs == w.dirs)
      && (o.r.Ok? ==> m.r == Ok({}))
      && (m.r == Ok({}) ==> o == PrepareInstance(env, m.w, d))
  {
    var m := PoolsMissing(env, w, d);
    if m.r.Err? then Out(m.w, Err(m.r.error))
    else if m.r.value != {} then Out(m.w, Raise(RgwError, "Pools missing"))
    else PrepareInstance(env, m.w, d)
  }

  /** _remove_rgw_keyring: nothing when the instance directory is absent,
      otherwise `ceph auth del`, raising on a non-zero exit. */
  function RevokeKey(env: Env, w: World, d: RgwCtrl): (o: Out<()>)
    requires d.c.clientId.Some?
    ensures LibPath(d).value !in w.dirs ==> o == Out(w, Ok(()))
    ensures LibPath(d).value in w.dirs && Cluster(d).Some? ==>
      o == Revoke(env, w, DelArgv("rgw", Cluster(d).value, BootstrapKey(d), d.c.clientId.value), RgwError)
    ensures o.r.Err? && Cluster(d).None? ==> o.r.error.cls == Builtin
  {
    if LibPath(d).value !in w.dirs then Out(w, Ok(()))
    else if Cluster(d).None? then Out(w, Raise(Builtin, "TypeError: expected string, NoneType found"))
    else Revoke(env, w, DelArgv("rgw", Cluster(d).value, BootstrapKey(d), d.c.clientId.value), RgwError)
  }

  /** remove: nothing when the instance directory is absent; otherwise the
      key is revoked if present, a failed revocation is logged, and the
      directory is deleted either way. */
  function Remove(env: Env, w: World, d: RgwCtrl): (o: Out<()>)
    ensures LibPath(d).Err? ==> o == Out(w, Err(LibPath(d).error))
    ensures LibPath(d).Ok? && LibPath(d).value !in w.dirs ==> o == Out(w, Ok(()))
    ensures LibPath(d).Ok? && Cluster(d).Some? ==> o.r.Ok?
    ensures o.r.Ok? && LibPath(d).value in w.dirs ==> LibPath(d).value !in o.w.dirs
    ensures LibPath(d).Ok? && KeyPath(LibPath(d).value) !in w.files ==> NoCommandSince(w, o.w)
  {
    if LibPath(d).Err? then Out(w, Err(LibPath(d).error))
    else
      var lib := LibPath(d).value;
      if lib !in w.dirs then Out(w, Ok(()))
      else
        var r := if KeyPath(lib) in w.files then RevokeKey(env, w, d) else Out(w, Ok(()));
        if r.r.Err? && r.r.error.cls != RgwError then r
        else Out(RemoveTree(r.w, lib), Ok(()))
  }

  /** A failed revocation does not keep the directory. */
  lemma RemoveDespiteRevokeFailure(env: Env, w: World, d: RgwCtrl)
    requires d.c.clientId.Some? && Cluster(d).Some?
    requires LibPath(d).value in w.dirs && KeyPath(LibPath(d).value) in w.files
    requires env.run(w.trace, DelArgv("rgw", Cluster(d).value, BootstrapKey(d), d.c.clientId.value)).retcode != 0
    ensures Remove(env, w, d).r.Ok? && LibPath(d).value !in Remove(env, w, d).w.dirs
    ensures Remove(env, w, d).w.trace ==
      w.trace + [Ran(DelArgv("rgw", Cluster(d).value, BootstrapKey(d), d.c.clientId.value)), TreeRemoved(LibPath(d).value)]
  {
  }

  /** create (inherited): prepare, then activate. */
  function Create(env: Env, w: World, d: RgwCtrl): (o: Out<()>)
    ensures Prepare(env, w, d).r.Err? ==> o == Prepare(env, w, d)
    ensures Prepare(env, w, d).r.Ok? ==> o == RadosClient.Activate(env, Prepare(env, w, d).w, d.c)
  {
    RadosClient.Create(env, w, d.c, w' => Prepare(env, w', d))
  }

  /** destroy (inherited): deactivate, then remove. */
  function Destroy(env: Env, w: World, d: RgwCtrl): (o: Out<()>)
    ensures RadosClient.Deactivate(env, w, d.c).r.Err? ==> o == RadosClient.Deactivate(env, w, d.c)
    ensures RadosClient.Deactivate(env, w, d.c).r.Ok? ==> o == Remove(env, RadosClient.Deactivate(env, w, d.c).w, d)
  {
    RadosClient.Destroy(env, w, d.c, w' => Remove(env, w', d))
  }
}
