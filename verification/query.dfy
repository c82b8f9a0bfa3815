/** The model queries (_modules/sesceph/mdl_query.py and the legacy
    sesceph/mdl_query.py): monitor membership, monitor and cluster quorum,
    whether the local monitor runs, and the daemon user a Ceph version
    implies. */
module Query {
  import opened Wrappers
  import opened Text
  import opened JsonData
  import opened Exec
  import opened NodeModel
  import opened Service
  import Updater
  import Lsblk

  // ---------------------------------------------------------------- membership

  /** Whether `host` names one of `members`; the loop of mon_is. */
  function NamedIn(members: seq<(string, string)>, host: string): (b: bool)
    ensures b <==> exists i :: 0 <= i < |members| && members[i].0 == host
  {
    if |members| == 0 then false
    else if members[0].0 == host then true
    else
      var b := NamedIn(members[1..], host);
      assert forall i :: 1 <= i < |members| ==> members[i] == members[1..][i - 1];
      assert b ==> exists i :: 1 <= i < |members| && members[i].0 == host by {
        if b {
          var k :| 0 <= k < |members[1..]| && members[1..][k].0 == host;
          assert members[k + 1].0 == host;
        }
      }
      b
  }

  /** mon_is: an unset hostname raises; otherwise whether some member has the
      hostname as its name. */
  function MonIs(m: Model): (r: Result<bool>)
    ensures r.Err? <==> m.hostname.None?
    ensures r.Err? ==> r.error.cls == QueryError
    ensures r.Ok? ==> (r.value <==> exists i :: 0 <= i < |m.monMembers| && m.monMembers[i].0 == m.hostname.value)
  {
    if m.hostname.None? then Raise(QueryError, "Programming error: Hostname not detected")
    else Ok(NamedIn(m.monMembers, m.hostname.value))
  }

  /** The legacy mon_is raises with a class its module does not define, so a
      missing hostname ends in NameError; otherwise it agrees with mon_is. */
  function LegacyMonIs(m: Model): (r: Result<bool>)
    ensures r.Err? <==> m.hostname.None?
    ensures r.Err? ==> r.error.cls == Builtin
    ensures r.Ok? ==> r == MonIs(m)
  {
    if m.hostname.None? then Raise(Builtin, "NameError: global name 'Error' is not defined")
    else Ok(NamedIn(m.monMembers, m.hostname.value))
  }

  /** Membership ignores the addresses: replacing every address leaves the
      answer unchanged. */
  lemma {:induction false} NamedInIgnoresAddrs(members: seq<(string, string)>, addrs: seq<string>, host: string)
    requires |addrs| == |members|
    ensures NamedIn(Updater.Zip(seq(|members|, i requires 0 <= i < |members| => members[i].0), addrs), host)
        == NamedIn(members, host)
  {
    var names := seq(|members|, i requires 0 <= i < |members| => members[i].0);
    var z := Updater.Zip(names, addrs);
    assert forall i :: 0 <= i < |z| ==> z[i].0 == members[i].0;
    if NamedIn(members, host) {
      var k :| 0 <= k < |members| && members[k].0 == host;
      assert z[k].0 == host;
    }
  }

  /** mon_is is false for an empty member list. */
  lemma MonIsEmpty(m: Model)
    requires m.hostname.Some? && m.monMembers == []
    ensures MonIs(m) == Ok(false) && LegacyMonIs(m) == Ok(false)
  {
  }

  /** Once this host's hostname is known and mon_members_refresh has paired a
      member list, the host is a member. */
  lemma MonIsAfterRefresh(env: Env, m: Model, optionErr: ErrClass)
    requires Updater.MonMembersRefresh(env, m, optionErr).Ok?
    requires Updater.MonMembersRefresh(env, m, optionErr).value.monMembers != m.monMembers
    ensures MonIs(Updater.HostnameRefresh(env, Updater.MonMembersRefresh(env, m, optionErr).value)) == Ok(true)
  {
    var m1 := Updater.MonMembersRefresh(env, m, optionErr).value;
    var names := Updater.CommaList(Updater.ConfGet(m.conf, "global", "mon_initial_members").v);
    assert env.node in names && |m1.monMembers| == |names|;
    var k :| 0 <= k < |names| && names[k] == env.node;
    var m2 := Updater.HostnameRefresh(env, m1);
    assert m2.monMembers[k].0 == m2.hostname.value;
    MemberFound(m2, k);
  }

  /** A host named at some position of the member list is a member. */
  lemma MemberFound(m: Model, k: int)
    requires m.hostname.Some? && 0 <= k < |m.monMembers| && m.monMembers[k].0 == m.hostname.value
    ensures MonIs(m) == Ok(true)
  {
  }

  // ---------------------------------------------------------------- quorum

  /** Python's `needle in hay` on strings: a contiguous occurrence. */
  predicate Occurs(needle: string, hay: string) {
    exists i | 0 <= i <= |hay| - |needle| :: OccursAt(needle, hay, i)
  }

  predicate OccursAt(needle: string, hay: string, i: int) {
    0 <= i <= |hay| - |needle| && hay[i..i + |needle|] == needle
  }

  /** Python's `x in container` on decoded JSON.  A list compares elements, an
      object looks the value up among its keys (an unhashable list or object
      raises TypeError, any other non-string is never a key), a string needs
      a string to search for, and anything else cannot be searched. */
  function PyIn(x: Json, container: Json): (r: Result<bool>)
    ensures container.JList? ==> r == Ok(exists i :: 0 <= i < |container.items| && container.items[i] == x)
    ensures container.JObj? ==> (r.Ok? <==> !x.JList? && !x.JObj?)
    ensures container.JObj? && r.Ok? ==> (r.value <==> x.JStr? && x.s in container.fields)
    ensures container.JStr? ==> (r.Ok? <==> x.JStr?)
    ensures container.JStr? && r.Ok? ==> (r.value <==> Occurs(x.s, container.s))
    ensures container.JNull? || container.JBool? || container.JNum? ==> r.Err? && r.error.cls == Builtin
  {
    match container
    case JList(items) => Ok(x in items)
    case JObj(fields) =>
      if x.JList? || x.JObj? then Raise(Builtin, "TypeError: unhashable type")
      else Ok(x.JStr? && x.s in fields)
    case JStr(s) =>
      if x.JStr? then Ok(Occurs(x.s, s)) else Raise(Builtin, "TypeError: 'in <string>' requires string as left operand")
    case _ => Raise(Builtin, "TypeError: argument of type is not iterable")
  }

  /** mon_quorum: false when no monitor status is loaded; otherwise true
      unless the status's own "name" is in its "outside_quorum".  A status
      that is not an object, or an "outside_quorum" that cannot be searched,
      raises. */
  function MonQuorum(m: Model): (r: Result<bool>)
    ensures m.monStatus.JNull? ==> r == Ok(false)
    ensures !m.monStatus.JNull? && !m.monStatus.JObj? ==> r.Err? && r.error.cls == Builtin
    ensures m.monStatus.JObj? ==>
      var inside := PyIn(Get(m.monStatus.fields, "name"), Get(m.monStatus.fields, "outside_quorum"));
      (r.Ok? <==> inside.Ok?) && (r.Ok? ==> r.value == !inside.value)
  {
    match m.monStatus
    case JNull => Ok(false)
    case JObj(fields) =>
      var inside :- PyIn(Get(fields, "name"), Get(fields, "outside_quorum"));
      Ok(!inside)
    case _ => Raise(Builtin, "AttributeError: object has no attribute 'get'")
  }

  /** With a loaded status naming the monitor and listing the monitors outside
      quorum, mon_quorum is false exactly when the name is listed. */
  lemma MonQuorumListed(m: Model, name: string, outside: seq<Json>)
    requires m.monStatus.JObj?
    requires Get(m.monStatus.fields, "name") == JStr(name)
    requires Get(m.monStatus.fields, "outside_quorum") == JList(outside)
    ensures MonQuorum(m) == Ok(!exists i :: 0 <= i < |outside| && outside[i] == JStr(name))
  {
  }

  /** A status without "outside_quorum" cannot be searched and raises. */
  lemma MonQuorumNeedsOutside(m: Model)
    requires m.monStatus.JObj? && "outside_quorum" !in m.monStatus.fields
    ensures MonQuorum(m).Err?
  {
  }

  /** mon_active: the systemd state of `ceph-mon@<hostname>`, through a
      facade that selected "systemd". */
  function MonActive(env: Env, w: World, m: Model): (o: Out<bool>)
    ensures o.w.dirs == w.dirs
    ensures m.hostname.None? ==> o.w == w && o.r.Err?
    ensures m.hostname.Some? ==> o.w.trace == w.trace + [Ran(ShowArgv("ceph-mon@" + m.hostname.value))]
    ensures o.r.Ok? ==> m.hostname.Some?
    ensures o.r.Ok? ==>
      (var reply := env.run(w.trace, ShowArgv("ceph-mon@" + m.hostname.value));
       reply.retcode == 0 && ActiveState(Split(reply.stdout, '\n')) == Some(o.r.value))
  {
    var f := NewInit(Some("systemd")).0;
    assert f.imp == Some(Systemd);
    assert m.hostname.Some? ==> "ceph-mon" + "@" + m.hostname.value == "ceph-mon@" + m.hostname.value;
    var o := IsRunning(env, w, f, Unit(Some("ceph-mon"), m.hostname));
    if o.r.Err? then Out(o.w, Err(o.r.error)) else Out(o.w, Ok(o.r.value.value))
  }

  /** cluster_quorum: reading a status that was never stored raises
      AttributeError; a stored None means no quorum, anything else quorum. */
  function ClusterQuorum(m: Model): (r: Result<bool>)
    ensures r.Err? <==> m.clusterStatus.None?
    ensures r.Ok? ==> (r.value <==> m.clusterStatus.value != JNull)
  {
    match m.clusterStatus
    case None => Raise(Builtin, "AttributeError: model instance has no attribute 'cluster_status'")
    case Some(s) => Ok(!s.JNull?)
  }

  // ---------------------------------------------------------------- daemon user

  /** ceph_daemon_user: before 0.95 the daemons ran as root.  An unknown
      minor compares below 95, as None does in Python 2. */
  function CephDaemonUser(v: Version): (user: string)
    ensures user == "root" || user == "ceph"
    ensures user == "root" <==> v.major == Some(0) && (v.minor.None? || v.minor.value < 95)
  {
    if v.major == Some(0) && Lsblk.Py2Less(v.minor, 95) then "root" else "ceph"
  }

  /** The daemon user only moves from root to ceph as the version grows. */
  lemma DaemonUserMonotone(a: int, b: int)
    requires a <= b
    ensures CephDaemonUser(Version(Some(0), Some(a), None, None)) == "ceph" ==>
            CephDaemonUser(Version(Some(0), Some(b), None, None)) == "ceph"
  {
  }
}
