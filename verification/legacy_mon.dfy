/** The legacy monitor controller (sesceph/mon.py): the same monitor map as
    the current controller, an install that imports both the monitor and
    the admin keyring into a scratch keyring, wipes and recreates the data
    directory, runs mkfs, restarts and enables the service and asks it for
    its status before leaving the sentinel, and a facade that always installs
    the root back end.

    The legacy query class defines only mon_is.  Which class answers the
    remaining queries is a parameter: `AsWritten` is the legacy class, whose
    missing mon_active and mon_quorum raise AttributeError; `Answering` is a
    class with the current definitions, the evident intent. */
module LegacyMon {
  import opened Wrappers
  import opened Text
  import opened Exec
  import opened NodeModel
  import Updater
  import Query
  import Service
  import Keyring
  import Presenter
  import Monitor

  /** The query class create, quorum and active ask. */
  datatype Queries = AsWritten | Answering

  // ---------------------------------------------------------------- back ends

  /** mod_user_ceph._execute: the adjacent literals "sudo" "-u" concatenate,
      so the prefix is two words. */
  const SudoPrefix: Argv := ["sudo" + "-u", "ceph"]

  function AsDaemon(b: Monitor.Backend, argv: Argv): (a: Argv)
    ensures |a| >= |argv| && a[|a| - |argv|..] == argv
    ensures b == Monitor.RootUser ==> a == argv
  {
    if b == Monitor.RootUser then argv else SudoPrefix + argv
  }

  /** The ceph back end prefixes two words, where the current controller
      prefixes the three words of `sudo -u ceph`; the first is no program
      name sudo would accept as itself. */
  lemma CephPrefixDiffers(argv: Argv, uid: int, gid: int)
    ensures var a := AsDaemon(Monitor.CephUser, argv);
      && |a| == |argv| + 2 && a[0] == "sudo-u" && a[1] == "ceph"
      && a != Monitor.AsDaemon(Monitor.MonImpl(Monitor.CephUser, uid, gid), argv)
  {
    var a := AsDaemon(Monitor.CephUser, argv);
    assert "sudo" + "-u" == "sudo-u";
    assert a == ["sudo-u", "ceph"] + argv;
    assert |Monitor.AsDaemon(Monitor.MonImpl(Monitor.CephUser, uid, gid), argv)| == |argv| + 3;
  }

  // ---------------------------------------------------------------- commands and paths

  function Monmap(env: Env): Path {
    env.scratch + "/monmap"
  }

  function ScratchKey(env: Env): Path {
    env.scratch + "/keyring"
  }

  function AdminImportArgv(key: Path, admin: Path): Argv {
    [Keyring.Authtool, key, "--import-keyring", admin]
  }

  function EnableArgv(host: string): Argv {
    [Service.Systemctl, "enable", "ceph-mon@" + host]
  }

  /** The query a legacy class answers for mon_active. */
  function ActiveBy(env: Env, w: World, m: Model, q: Queries): (o: Out<bool>)
    ensures q == AsWritten ==> o.w == w && o.r.Err? && o.r.error.cls == Builtin
    ensures q == Answering ==> o == Query.MonActive(env, w, m)
  {
    if q == AsWritten then Out(w, Raise(Builtin, "AttributeError: _mdl_query instance has no attribute 'mon_active'"))
    else Query.MonActive(env, w, m)
  }

  // ---------------------------------------------------------------- stages of the install

  /** A stage from `w` to `w2`: when it went through exactly `events` were
      added; when it raised, `done` was not written. */
  predicate Staged(w: World, w2: World, events: seq<Event>, ok: bool, done: Path) {
    && Extends(w, w2)
    && (ok ==> w2.trace == w.trace + events)
    && (!ok ==> FileWritten(done) !in Since(w, w2))
  }

  /** A stage that went through, then another. */
  lemma StagedThen(w: World, w1: World, w2: World, e1: seq<Event>, e2: seq<Event>, ok: bool, done: Path)
    requires Staged(w, w1, e1, true, done) && FileWritten(done) !in e1
    requires Staged(w1, w2, e2, ok, done)
    ensures Staged(w, w2, e1 + e2, ok, done)
  {
    ExtendsTrans(w, w1, w2);
    assert w2.trace == w1.trace + Since(w1, w2);
    assert Since(w, w2) == e1 + Since(w1, w2);
  }

  /** A stage that went through without writing `done`, taken as the
      failing start of a longer one. */
  lemma StagedStop(w: World, w2: World, e: seq<Event>, longer: seq<Event>, done: Path)
    requires Staged(w, w2, e, true, done) && FileWritten(done) !in e
    ensures Staged(w, w2, longer, false, done)
  {
    assert Since(w, w2) == e;
  }

  /** Only commands ran, so nothing was written. */
  lemma CommandsWriteNothing(w: World, w2: World, done: Path)
    requires Monitor.OnlyCommands(w, w2)
    ensures FileWritten(done) !in Since(w, w2)
  {
    forall i | 0 <= i < |Since(w, w2)|
      ensures Since(w, w2)[i] != FileWritten(done)
    {
      assert Since(w, w2)[i] == w2.trace[|w.trace| + i];
    }
  }

  lemma CommandsHaveNoWrite(argvs: seq<Argv>, done: Path)
    ensures FileWritten(done) !in Monitor.Commands(argvs)
  {
  }

  /** The paths and command lines of one install, computed once from the
      model, the scratch directory and the back end. */
  datatype Site = Site(dir: Path, done: Path, importMon: Argv, importAdmin: Argv, mkfs: Argv,
                       restart: Argv, state: Argv, enable: Argv, status: Argv)

  function SiteOf(env: Env, b: Monitor.Backend, m: Model): (s: Site)
    requires m.hostname.Some?
    ensures s.dir == Monitor.MonDir(m) && s.done == Monitor.DonePath(m)
    ensures s.state == Monitor.StateArgv(m.hostname.value) && s.restart == Monitor.RestartArgv(m.hostname.value)
  {
    var host := m.hostname.value;
    Site(Monitor.MonDir(m), Monitor.DonePath(m),
         AsDaemon(b, Monitor.ImportArgv(ScratchKey(env), Monitor.BootstrapKey(m))),
         AsDaemon(b, AdminImportArgv(ScratchKey(env), Keyring.AdminPath(m.clusterName))),
         AsDaemon(b, Monitor.MkfsArgv(host, Monmap(env), ScratchKey(env))),
         Monitor.RestartArgv(host), Monitor.StateArgv(host), EnableArgv(host),
         AsDaemon(b, Updater.MonStatusArgv(Show(m.clusterName), Show(m.hostname))))
  }

  /** The commands the monitor map adds, given the world it starts from. */
  function MapEvents(env: Env, w: World, m: Model): seq<Event> {
    if Monmap(env) in w.files || m.clusterUuid.None? then []
    else Monitor.Commands(Monitor.MonmapArgvs(m.clusterUuid.value, m.monMembers, Monmap(env)))
  }

  lemma MapEventsNoWrite(env: Env, w: World, m: Model, done: Path)
    ensures FileWritten(done) !in MapEvents(env, w, m)
  {
    if !(Monmap(env) in w.files || m.clusterUuid.None?) {
      CommandsHaveNoWrite(Monitor.MonmapArgvs(m.clusterUuid.value, m.monMembers, Monmap(env)), done);
    }
  }

  /** The map in the scratch directory; the chown that follows raises
      OSError where no map file is there. */
  function MapStage(env: Env, w: World, m: Model, done: Path): (o: Out<()>)
    ensures Staged(w, o.w, MapEvents(env, w, m), o.r.Ok?, done)
    ensures o.w.dirs == w.dirs
    ensures o.r.Ok? ==> Monmap(env) in o.w.files
  {
    var mm := Monitor.CreateMonmap(env, w, m, Monmap(env));
    Monitor.MonmapOnlyCommands(env, w, m, Monmap(env));
    CommandsWriteNothing(w, mm.w, done);
    SinceAppends(w, mm.w);
    if mm.r.Err? then mm
    else if Monmap(env) !in mm.w.files then Out(mm.w, Raise(Builtin, "OSError: No such file or directory: " + Monmap(env)))
    else mm
  }

  /** A trace that extends another is it followed by what came since. */
  lemma SinceAppends(w: World, w2: World)
    requires Extends(w, w2)
    ensures w2.trace == w.trace + Since(w, w2)
  {
  }



  /** Two commands, each raising when it exits non-zero. */
  function TwoCommands(env: Env, w: World, a1: Argv, a2: Argv, done: Path): (o: Out<()>)
    ensures Staged(w, o.w, [Ran(a1), Ran(a2)], o.r.Ok?, done)
    ensures o.w.dirs == w.dirs
    ensures o.r.Err? ==> o.r.error.cls == MonError
  {
    var r1 := ExecuteChecked(env, w, a1, MonError, "Failed executing '" + Join(a1, ' ') + "'");
    if r1.r.Err? then Out(r1.w, Err(r1.r.error))
    else
      var r2 := ExecuteChecked(env, r1.w, a2, MonError, "Failed executing '" + Join(a2, ' ') + "'");
      AppendTwo(w.trace, Ran(a1), Ran(a2));
      if r2.r.Err? then Out(r2.w, Err(r2.r.error)) else Out(r2.w, Ok(()))
  }

  /** The monitor keyring imported into the scratch keyring, then the admin
      keyring added to it. */
  function KeysStage(env: Env, w: World, s: Site): (o: Out<()>)
    ensures Staged(w, o.w, KeyEvents(s), o.r.Ok?, s.done)
    ensures o.w.dirs == w.dirs
  {
    TwoCommands(env, w, s.importMon, s.importAdmin, s.done)
  }

  function KeyEvents(s: Site): seq<Event> {
    [Ran(s.importMon), Ran(s.importAdmin)]
  }

  /** What wiping the data directory adds, given the directories before it. */
  function DirEvents(w: World, dir: Path): seq<Event> {
    (if dir in w.dirs then [TreeRemoved(dir)] else []) + [DirsMade(dir)]
  }

  lemma DirEventsSame(w: World, w1: World, dir: Path)
    requires w1.dirs == w.dirs
    ensures DirEvents(w1, dir) == DirEvents(w, dir)
  {
  }

  /** The data directory removed if present and made afresh; a file in its
      place cannot be made a directory and raises OSError. */
  function DirStage(w: World, s: Site): (o: Out<()>)
    ensures s.dir in w.files ==> o.w == w && o.r.Err?
    ensures s.dir !in w.files ==> o.r.Ok? && s.dir in o.w.dirs
    ensures Staged(w, o.w, DirEvents(w, s.dir), o.r.Ok?, s.done)
  {
    if s.dir in w.files then Out(w, Raise(Builtin, "OSError: File exists: " + s.dir))
    else Out(Monitor.CleanDir(w, s.dir), Ok(()))
  }


  function StartEvents(s: Site): seq<Event> {
    [Ran(s.mkfs), Ran(s.restart)]
  }

  /** mkfs as the daemon user, then the restart as root. */
  function StartStage(env: Env, w: World, s: Site): (o: Out<()>)
    ensures Staged(w, o.w, StartEvents(s), o.r.Ok?, s.done)
    ensures o.w.dirs == w.dirs
  {
    TwoCommands(env, w, s.mkfs, s.restart, s.done)
  }


  /** The four events a finished check adds. */
  function CheckEvents(s: Site): seq<Event> {
    [Ran(s.state), Ran(s.enable), Ran(s.status), FileWritten(s.done)]
  }

  /** The service must run; then it is enabled and asked for its status,
      and the sentinel is left. */
  function CheckStage(env: Env, w: World, m: Model, s: Site, q: Queries): (o: Out<()>)
    requires m.hostname.Some? && s.state == Monitor.StateArgv(m.hostname.value)
    ensures q == AsWritten ==> o.w == w && o.r.Err?
    ensures o.r.Ok? ==> s.done in o.w.files
    ensures Staged(w, o.w, CheckEvents(s), o.r.Ok?, s.done)
  {
    var a := Running(env, w, m, s, q);
    if a.r.Err? then
      RunningStopped(w, a.w, s, q);
      Out(a.w, Err(a.r.error))
    else if !a.r.value then
      RunningStopped(w, a.w, s, q);
      Out(a.w, Raise(MonError, "Failed to start monitor"))
    else
      var o := TwoCommands(env, a.w, s.enable, s.status, s.done);
      StagedThen(w, a.w, o.w, [Ran(s.state)], [Ran(s.enable), Ran(s.status)], o.r.Ok?, s.done);
      if o.r.Err? then o
      else Sentinel(w, o.w, s)
  }

  /** The state query of the activity check: only commands run. */
  function Running(env: Env, w: World, m: Model, s: Site, q: Queries): (o: Out<bool>)
    requires m.hostname.Some? && s.state == Monitor.StateArgv(m.hostname.value)
    ensures q == AsWritten ==> o.w == w && o.r.Err?
    ensures Staged(w, o.w, [Ran(s.state)], q == Answering, s.done)
  {
    ActiveBy(env, w, m, q)
  }

  /** A check that stopped at the state query wrote nothing. */
  lemma RunningStopped(w: World, w2: World, s: Site, q: Queries)
    requires q == AsWritten ==> w2 == w
    requires Staged(w, w2, [Ran(s.state)], q == Answering, s.done)
    ensures Staged(w, w2, CheckEvents(s), false, s.done)
  {
    if q == Answering {
      StagedStop(w, w2, [Ran(s.state)], CheckEvents(s), s.done);
    }
  }

  /** The sentinel, after the three commands of the activity check. */
  function Sentinel(w: World, w1: World, s: Site): (o: Out<()>)
    requires Staged(w, w1, [Ran(s.state)] + [Ran(s.enable), Ran(s.status)], true, s.done)
    ensures o.r.Ok? && s.done in o.w.files
    ensures Staged(w, o.w, CheckEvents(s), true, s.done)
  {
    var o := Out(Touch(w1, s.done), Ok(()));
    assert CheckEvents(s) == [Ran(s.state)] + [Ran(s.enable), Ran(s.status)] + [FileWritten(s.done)];
    o
  }

  /** The events of a finished install inside the scratch directory, given
      the world the install starts from. */
  function InstallEvents(env: Env, w: World, m: Model, s: Site): seq<Event> {
    MapEvents(env, w, m) + KeyEvents(s) + (DirEvents(w, s.dir) + StartEvents(s) + CheckEvents(s))
  }

  /** No part of the install but the activity check writes the sentinel. */
  lemma PreparedNoWrite(env: Env, w: World, m: Model, s: Site)
    ensures FileWritten(s.done) !in MapEvents(env, w, m) + KeyEvents(s)
  {
    MapEventsNoWrite(env, w, m, s.done);
    assert FileWritten(s.done) !in KeyEvents(s);
  }

  lemma BuiltNoWrite(w: World, s: Site)
    ensures FileWritten(s.done) !in DirEvents(w, s.dir)
    ensures FileWritten(s.done) !in DirEvents(w, s.dir) + StartEvents(s)
  {
    assert FileWritten(s.done) !in StartEvents(s);
  }

  /** The map and the keyrings; the directories are untouched. */
  function Prepared(env: Env, w: World, m: Model, s: Site): (o: Out<()>)
    ensures o.w.dirs == w.dirs
    ensures Staged(w, o.w, MapEvents(env, w, m) + KeyEvents(s), o.r.Ok?, s.done)
  {
    var o1 := MapStage(env, w, m, s.done);
    if o1.r.Err? then o1
    else
      var o2 := KeysStage(env, o1.w, s);
      MapEventsNoWrite(env, w, m, s.done);
      StagedThen(w, o1.w, o2.w, MapEvents(env, w, m), KeyEvents(s), o2.r.Ok?, s.done);
      o2
  }

  /** The data directory wiped, then mkfs and the restart. */
  function Built(env: Env, w: World, s: Site): (o: Out<()>)
    ensures s.dir in w.files ==> o.w == w && o.r.Err?
    ensures Staged(w, o.w, DirEvents(w, s.dir) + StartEvents(s), o.r.Ok?, s.done)
  {
    var o1 := DirStage(w, s);
    if o1.r.Err? then o1
    else
      var o2 := StartStage(env, o1.w, s);
      BuiltNoWrite(w, s);
      StagedThen(w, o1.w, o2.w, DirEvents(w, s.dir), StartEvents(s), o2.r.Ok?, s.done);
      o2
  }

  /** The directory, the start and the activity check, after the map and keyrings. */
  function Finished(env: Env, w: World, m: Model, s: Site, q: Queries): (o: Out<()>)
    requires m.hostname.Some? && s.state == Monitor.StateArgv(m.hostname.value)
    ensures Staged(w, o.w, DirEvents(w, s.dir) + StartEvents(s) + CheckEvents(s), o.r.Ok?, s.done)
    ensures o.r.Ok? ==> s.done in o.w.files
  {
    var o1 := Built(env, w, s);
    if o1.r.Err? then o1
    else
      var o2 := CheckStage(env, o1.w, m, s, q);
      BuiltNoWrite(w, s);
      StagedThen(w, o1.w, o2.w, DirEvents(w, s.dir) + StartEvents(s), CheckEvents(s), o2.r.Ok?, s.done);
      o2
  }

  /** Everything inside the scratch directory, from the map to the sentinel. */
  function Install(env: Env, w: World, m: Model, s: Site, q: Queries): (o: Out<()>)
    requires m.hostname.Some? && s.state == Monitor.StateArgv(m.hostname.value)
    ensures Staged(w, o.w, InstallEvents(env, w, m, s), o.r.Ok?, s.done)
    ensures o.r.Ok? ==> s.done in o.w.files
  {
    var o1 := Prepared(env, w, m, s);
    if o1.r.Err? then o1
    else
      var o2 := Finished(env, o1.w, m, s, q);
      PreparedNoWrite(env, w, m, s);
      DirEventsSame(w, o1.w, s.dir);
      StagedThen(w, o1.w, o2.w, MapEvents(env, w, m) + KeyEvents(s), DirEvents(w, s.dir) + StartEvents(s) + CheckEvents(s), o2.r.Ok?, s.done);
      o2
  }

  // ---------------------------------------------------------------- the scratch directory

  /** The events of a finished install: the scratch directory, the install
      from the world the scratch directory leaves, and the scratch directory
      removed. */
  function Plan(env: Env, w: World, b: Monitor.Backend, m: Model): seq<Event>
    requires m.hostname.Some?
  {
    [TempMade(env.scratch)] + InstallEvents(env, MakeTemp(env, w), m, SiteOf(env, b, m)) + [TreeRemoved(env.scratch)]
  }

  /** The install between mkdtemp and the removal of the scratch directory,
      which happens whatever the install did. */
  function Scratch(env: Env, w: World, b: Monitor.Backend, m: Model, q: Queries): (o: Out<bool>)
    requires m.hostname.Some?
    ensures Extends(w, o.w) && |o.w.trace| >= |w.trace| + 2
    ensures o.w.trace[|w.trace|] == TempMade(env.scratch) && o.w.trace[|o.w.trace| - 1] == TreeRemoved(env.scratch)
    ensures env.scratch !in o.w.dirs
    ensures o.r.Ok? ==> o.r.value && o.w.trace == w.trace + Plan(env, w, b, m)
    ensures o.r.Err? ==> Monitor.NotWrittenSince(w, o.w, SiteOf(env, b, m).done)
  {
    var s := SiteOf(env, b, m);
    var w1 := MakeTemp(env, w);
    var i := Install(env, w1, m, s, q);
    var w2 := RemoveTree(i.w, env.scratch);
    ScratchEnds(env, w, w1, i.w, w2, InstallEvents(env, w1, m, s), i.r.Ok?, s.done);
    Out(w2, if i.r.Ok? then Ok(true) else Err(i.r.error))
  }

  lemma ScratchEnds(env: Env, w: World, w1: World, w2: World, w3: World, events: seq<Event>, ok: bool, done: Path)
    requires w1.trace == w.trace + [TempMade(env.scratch)]
    requires Staged(w1, w2, events, ok, done)
    requires w3.trace == w2.trace + [TreeRemoved(env.scratch)]
    ensures Extends(w, w3) && |w3.trace| >= |w.trace| + 2
    ensures w3.trace[|w.trace|] == TempMade(env.scratch) && w3.trace[|w3.trace| - 1] == TreeRemoved(env.scratch)
    ensures ok ==> w3.trace == w.trace + ([TempMade(env.scratch)] + events + [TreeRemoved(env.scratch)])
    ensures !ok ==> Monitor.NotWrittenSince(w, w3, done)
  {
    assert w3.trace[..|w1.trace|] == w1.trace by {
      assert w3.trace[..|w2.trace|] == w2.trace;
    }
    assert w3.trace[..|w.trace|] == w1.trace[..|w.trace|];
    assert w3.trace[|w.trace|] == w1.trace[|w.trace|];
    if !ok {
      forall i | |w.trace| <= i < |w3.trace|
        ensures w3.trace[i] != FileWritten(done)
      {
        if i == |w.trace| {
          assert w3.trace[i] == w1.trace[i];
        } else if i < |w2.trace| {
          assert w3.trace[i] == w2.trace[i] == Since(w1, w2)[i - |w1.trace|];
        }
      }
    }
  }

  // ---------------------------------------------------------------- create

  /** create, once the host is known to be a member: the sentinel path; the
      two keyrings the install needs; the install. */
  function CreateAt(env: Env, w: World, b: Monitor.Backend, m: Model, q: Queries): (o: Out<bool>)
    requires m.hostname.Some?
    ensures Monitor.DonePath(m) in w.files && q == AsWritten ==> o.w == w && o.r.Err?
    ensures Monitor.DonePath(m) in w.files && q == Answering ==> o == Monitor.Restart(env, w, m)
    ensures Monitor.DonePath(m) !in w.files && Monitor.BootstrapKey(m) !in w.files ==> o.w == w && o.r.Err? && o.r.error.cls == MonError
    ensures Monitor.DonePath(m) !in w.files && Keyring.AdminPath(m.clusterName) !in w.files ==> o.w == w && o.r.Err? && o.r.error.cls == MonError
    ensures Monitor.DonePath(m) !in w.files && Monitor.BootstrapKey(m) in w.files && Keyring.AdminPath(m.clusterName) in w.files ==>
      o == Scratch(env, w, b, m, q)
  {
    if Monitor.DonePath(m) in w.files then Revive(env, w, m, q)
    else if Monitor.BootstrapKey(m) !in w.files then Out(w, Raise(MonError, "Mon keyring missing"))
    else if Keyring.AdminPath(m.clusterName) !in w.files then Out(w, Raise(MonError, "Admin keyring missing"))
    else Scratch(env, w, b, m, q)
  }

  /** The sentinel path: a running service is left alone; otherwise it is
      restarted once and must then run.  It agrees with the current
      controller's. */
  function Revive(env: Env, w: World, m: Model, q: Queries): (o: Out<bool>)
    requires m.hostname.Some?
    ensures q == AsWritten ==> o.w == w && o.r.Err?
    ensures q == Answering ==> o == Monitor.Restart(env, w, m)
  {
    var a := ActiveBy(env, w, m, q);
    if a.r.Err? then Out(a.w, Err(a.r.error))
    else if a.r.value then a
    else
      var r := ExecuteChecked(env, a.w, Monitor.RestartArgv(m.hostname.value), MonError, "Failed executing systemctl restart");
      if r.r.Err? then Out(r.w, Err(r.r.error))
      else
        var c := ActiveBy(env, r.w, m, q);
        if c.r.Err? then Out(c.w, Err(c.r.error))
        else if !c.r.value then Out(c.w, Raise(MonError, "Failed to start monitor"))
        else c
  }

  /** create: the implementation's own model is refreshed (a defaults
      failure is not caught), a host that is not a member is refused, then
      the monitor is created. */
  function Create(env: Env, w: World, b: Monitor.Backend, m: Model, q: Queries): (s: Keyring.Step<bool>)
    ensures !Monitor.Refresh(env, w, m, Builtin).Ready? ==> s == Keyring.Step(Monitor.Refresh(env, w, m, Builtin).m, w, Err(Monitor.Refresh(env, w, m, Builtin).e))
    ensures Monitor.Refresh(env, w, m, Builtin).Ready? && Query.LegacyMonIs(Monitor.Refresh(env, w, m, Builtin).m) != Ok(true) ==>
      s.w == w && s.r.Err? && s.r.error.cls == MonError
    ensures Monitor.Refresh(env, w, m, Builtin).Ready? && Query.LegacyMonIs(Monitor.Refresh(env, w, m, Builtin).m) == Ok(true) ==>
      s.m == Monitor.Refresh(env, w, m, Builtin).m && Out(s.w, s.r) == CreateAt(env, w, b, Monitor.Refresh(env, w, m, Builtin).m, q)
  {
    var g := Monitor.Refresh(env, w, m, Builtin);
    if !g.Ready? then Keyring.Step(g.m, w, Err(g.e))
    else if Query.LegacyMonIs(g.m) != Ok(true) then Keyring.Step(g.m, w, Raise(MonError, "Not a mon node"))
    else
      var o := CreateAt(env, w, b, g.m, q);
      Keyring.Step(g.m, o.w, o.r)
  }

  /** As written, create never returns True, and never leaves the sentinel. */
  lemma CreateNeverSucceeds(env: Env, w: World, b: Monitor.Backend, m: Model)
    ensures Create(env, w, b, m, AsWritten).r.Err?
    ensures Monitor.NotWrittenSince(w, Create(env, w, b, m, AsWritten).w, Monitor.DonePath(Monitor.Refresh(env, w, m, Builtin).m))
  {
    var g := Monitor.Refresh(env, w, m, Builtin);
    if g.Ready? && Query.LegacyMonIs(g.m) == Ok(true) {
      CreateAtFails(env, w, b, g.m);
    }
  }

  /** Once the host is a member, the legacy class still stops every path. */
  lemma CreateAtFails(env: Env, w: World, b: Monitor.Backend, m: Model)
    requires m.hostname.Some?
    ensures CreateAt(env, w, b, m, AsWritten).r.Err?
    ensures Monitor.NotWrittenSince(w, CreateAt(env, w, b, m, AsWritten).w, Monitor.DonePath(m))
  {
    if Monitor.DonePath(m) !in w.files && Monitor.BootstrapKey(m) in w.files && Keyring.AdminPath(m.clusterName) in w.files {
      ScratchFails(env, w, b, m);
    }
  }

  /** With the legacy query class the install always stops at the state
      check, after mkfs and the restart have run. */
  lemma ScratchFails(env: Env, w: World, b: Monitor.Backend, m: Model)
    requires m.hostname.Some?
    ensures Scratch(env, w, b, m, AsWritten).r.Err?
  {
    var s := SiteOf(env, b, m);
    var w1 := MakeTemp(env, w);
    var o1 := Prepared(env, w1, m, s);
    if o1.r.Ok? {
      var o2 := Built(env, o1.w, s);
      if o2.r.Ok? {
        assert CheckStage(env, o2.w, m, s, AsWritten).r.Err?;
      }
    }
  }

  /** Corrected: a member host with both keyrings and no sentinel whose
      create returns True has run, in order, the map, both imports, the
      directory wipe, mkfs, the restart, the state check, the enable, the
      status and the sentinel, inside a scratch directory it removed. */
  lemma CreateInstallsInOrder(env: Env, w: World, b: Monitor.Backend, m: Model)
    requires Monitor.Refresh(env, w, m, Builtin).Ready?
    requires var g := Monitor.Refresh(env, w, m, Builtin).m;
      Query.LegacyMonIs(g) == Ok(true) && Monitor.DonePath(g) !in w.files
    requires Create(env, w, b, m, Answering).r.Ok?
    ensures var g := Monitor.Refresh(env, w, m, Builtin).m;
      Create(env, w, b, m, Answering).w.trace == w.trace + Plan(env, w, b, g)
  {
    var g := Monitor.Refresh(env, w, m, Builtin).m;
    assert Monitor.BootstrapKey(g) in w.files && Keyring.AdminPath(g.clusterName) in w.files;
  }

  // ---------------------------------------------------------------- other operations

  /** mon_is on a fresh model: a defaults failure answers False; nothing
      runs. */
  function IsMon(env: Env, w: World, a: ClusterArgs): (s: Keyring.Step<bool>)
    ensures s.w == w
    ensures Monitor.Refresh(env, w, Fresh(a), Builtin).DefaultsFailed? ==> s.r == Ok(false)
  {
    var g := Monitor.Refresh(env, w, Fresh(a), Builtin);
    match g
    case DefaultsFailed(m1, _) => Keyring.Step(m1, w, Ok(false))
    case Failed(m1, e) => Keyring.Step(m1, w, Err(e))
    case Ready(m1) => Keyring.Step(m1, w, Query.LegacyMonIs(m1))
  }

  /** The class a missing option raises is the only thing `optionErr`
      changes: the two results are equal, or both raise the same message
      with the two classes. */
  lemma MonMembersOptionClass(env: Env, m: Model, e1: ErrClass, e2: ErrClass)
    ensures SameUpToClass(Updater.MonMembersRefresh(env, m, e1), Updater.MonMembersRefresh(env, m, e2), e1, e2)
  {
    GlobalOptionClass(m, "mon_initial_members", e1, e2);
    if Updater.GlobalOption(m, "mon_initial_members", e1).Err? {
      NamesUnread(env, m, e1, e2);
    } else {
      NamesRead(env, m, e1, e2);
    }
  }

  /** When the member names cannot be read, the refresh raises what reading
      them raised. */
  lemma NamesUnread(env: Env, m: Model, e1: ErrClass, e2: ErrClass)
    requires Updater.GlobalOption(m, "mon_initial_members", e1).Err?
    requires SameUpToClass(Updater.GlobalOption(m, "mon_initial_members", e1), Updater.GlobalOption(m, "mon_initial_members", e2), e1, e2)
    ensures Updater.MonMembersRefresh(env, m, e1) == Err(Updater.GlobalOption(m, "mon_initial_members", e1).error)
    ensures Updater.MonMembersRefresh(env, m, e2) == Err(Updater.GlobalOption(m, "mon_initial_members", e2).error)
  {
  }

  /** Once the member names are read, only reading the hosts can differ. */
  lemma NamesRead(env: Env, m: Model, e1: ErrClass, e2: ErrClass)
    requires Updater.GlobalOption(m, "mon_initial_members", e1).Ok?
    requires SameUpToClass(Updater.GlobalOption(m, "mon_initial_members", e1), Updater.GlobalOption(m, "mon_initial_members", e2), e1, e2)
    ensures SameUpToClass(Updater.MonMembersRefresh(env, m, e1), Updater.MonMembersRefresh(env, m, e2), e1, e2)
  {
    GlobalOptionClass(m, "mon_host", e1, e2);
  }

  /** Reading one option with two classes for a missing option. */
  lemma GlobalOptionClass(m: Model, option: string, e1: ErrClass, e2: ErrClass)
    ensures SameUpToClass(Updater.GlobalOption(m, option, e1), Updater.GlobalOption(m, option, e2), e1, e2)
  {
  }

  /** Equal gates, or two failures on the same model whose errors carry the
      same message, the first with class `c1` and the second with `c2`. */
  predicate SameGate(g1: Monitor.Gate, g2: Monitor.Gate, c1: ErrClass, c2: ErrClass) {
    g1 == g2 || (g1.Failed? && g2.Failed? && g1.m == g2.m && g1.e == Error(c1, g2.e.msg) && g2.e.cls == c2)
  }

  /** Two refreshes that differ only in the class a missing option raises
      end the same, or both fail on the same model with the same message in
      the two classes. */
  lemma RefreshOptionClass(env: Env, w: World, m: Model, e1: ErrClass, e2: ErrClass)
    ensures SameGate(Monitor.Refresh(env, w, m, e1), Monitor.Refresh(env, w, m, e2), e1, e2)
  {
    var m1 := Updater.HostnameRefresh(env, m);
    match Updater.DefaultsRefresh(env, w, m1)
    case Err(_) =>
    case Ok(m2) => ConfiguredOptionClass(env, w, m2, e1, e2);
  }

  lemma ConfiguredOptionClass(env: Env, w: World, m: Model, e1: ErrClass, e2: ErrClass)
    ensures SameGate(Monitor.Configured(env, w, m, e1), Monitor.Configured(env, w, m, e2), e1, e2)
  {
    match Updater.LoadConfig(env, w, m, Show(m.clusterName))
    case Err(_) =>
    case Ok(m3) => MonMembersOptionClass(env, m3, e1, e2);
  }

  /** mon_is agrees with the current controller's, except that a missing
      configuration option raises NameError here (the legacy updater does
      not import ConfigParser) where the current one raises its own error
      with the same message. */
  lemma IsMonAgrees(env: Env, w: World, a: ClusterArgs)
    ensures SameUpToClass(IsMon(env, w, a).r, Monitor.IsMon(env, w, Fresh(a)).r, Builtin, UpdaterError)
  {
    RefreshOptionClass(env, w, Fresh(a), Builtin, UpdaterError);
  }

  /** status on a fresh model: a defaults failure answers {}; a host that
      is not a member raises. */
  function Status(env: Env, w: World, a: ClusterArgs): (s: Keyring.Step<Presenter.MonView>)
    ensures Monitor.Refresh(env, w, Fresh(a), Builtin).DefaultsFailed? ==> s.w == w && s.r == Ok(None)
    ensures Monitor.Refresh(env, w, Fresh(a), Builtin).Ready? && Query.LegacyMonIs(Monitor.Refresh(env, w, Fresh(a), Builtin).m) != Ok(true) ==>
      s.w == w && s.r.Err? && s.r.error.cls == MonError
  {
    var g := Monitor.Refresh(env, w, Fresh(a), Builtin);
    match g
    case DefaultsFailed(m1, _) => Keyring.Step(m1, w, Ok(None))
    case Failed(m1, e) => Keyring.Step(m1, w, Err(e))
    case Ready(m1) =>
      if Query.LegacyMonIs(m1) != Ok(true) then Keyring.Step(m1, w, Raise(MonError, "Not a mon node"))
      else Shown(env, w, m1)
  }

  /** The monitor's status, as the presenter shows it. */
  function Shown(env: Env, w: World, m: Model): (s: Keyring.Step<Presenter.MonView>)
    ensures s.r.Ok? ==> s.r == Presenter.MonStatusView(s.m)
  {
    var o := Updater.MonStatus(env, w, m);
    if o.r.Err? then Keyring.Step(m, o.w, Err(o.r.error))
    else Keyring.Step(o.r.value, o.w, Presenter.MonStatusView(o.r.value))
  }

  /** status agrees with the current controller's: the same answer... */
  lemma StatusAgrees(env: Env, w: World, a: ClusterArgs)
    ensures SameUpToClass(Status(env, w, a).r, Monitor.Status(env, w, Fresh(a)).r, Builtin, UpdaterError)
  {
    RefreshOptionClass(env, w, Fresh(a), Builtin, UpdaterError);
    var g1, g2 := Monitor.Refresh(env, w, Fresh(a), Builtin), Monitor.Refresh(env, w, Fresh(a), UpdaterError);
    if g1 != g2 {
      assert g1.Failed? && g2.Failed?;
    } else if g1.Ready? {
      assert Query.LegacyMonIs(g1.m) == Query.MonIs(g1.m);
    }
  }

  /** ... and the same commands. */
  lemma StatusAgreesOnWorld(env: Env, w: World, a: ClusterArgs)
    ensures Status(env, w, a).w == Monitor.Status(env, w, Fresh(a)).w
  {
    RefreshOptionClass(env, w, Fresh(a), Builtin, UpdaterError);
    var g1, g2 := Monitor.Refresh(env, w, Fresh(a), Builtin), Monitor.Refresh(env, w, Fresh(a), UpdaterError);
    if g1 != g2 {
      assert g1.Failed? && g2.Failed?;
    } else if g1.Ready? {
      assert Query.LegacyMonIs(g1.m) == Query.MonIs(g1.m);
      if Query.MonIs(g1.m) == Ok(true) {
        assert Status(env, w, a).w == Shown(env, w, g1.m).w == Updater.MonStatus(env, w, g1.m).w;
      }
    }
  }

  /** quorum on a fresh model: a defaults failure raises; the status is
      asked for; the legacy query class then has no mon_quorum. */
  function Quorum(env: Env, w: World, a: ClusterArgs, q: Queries): (s: Keyring.Step<bool>)
    ensures Monitor.Refresh(env, w, Fresh(a), Builtin).DefaultsFailed? ==> s.w == w && s.r.Err? && s.r.error.cls == MonError
    ensures q == AsWritten ==> s.r.Err?
  {
    var g := Monitor.Refresh(env, w, Fresh(a), Builtin);
    match g
    case DefaultsFailed(m1, _) => Keyring.Step(m1, w, Raise(MonError, "Could not get cluster details"))
    case Failed(m1, e) => Keyring.Step(m1, w, Err(e))
    case Ready(m1) => Asked(env, w, m1, q)
  }

  /** The status, then the quorum question. */
  function Asked(env: Env, w: World, m: Model, q: Queries): (s: Keyring.Step<bool>)
    ensures q == AsWritten ==> s.r.Err?
    ensures s.r.Ok? ==> s.r == Query.MonQuorum(s.m)
  {
    var o := Updater.MonStatus(env, w, m);
    if o.r.Err? then Keyring.Step(m, o.w, Err(o.r.error))
    else if q == AsWritten then Keyring.Step(o.r.value, o.w, Raise(Builtin, "AttributeError: _mdl_query instance has no attribute 'mon_quorum'"))
    else Keyring.Step(o.r.value, o.w, Query.MonQuorum(o.r.value))
  }

  /** With the answering class, quorum agrees with the current controller's. */
  lemma QuorumAgrees(env: Env, w: World, a: ClusterArgs)
    ensures Quorum(env, w, a, Answering).w == Monitor.Quorum(env, w, Fresh(a)).w
    ensures SameUpToClass(Quorum(env, w, a, Answering).r, Monitor.Quorum(env, w, Fresh(a)).r, Builtin, UpdaterError)
  {
    RefreshOptionClass(env, w, Fresh(a), Builtin, UpdaterError);
  }

  /** active and mon_active: whether the service runs, after a hostname
      refresh; with the answering class it agrees with the current
      controller's. */
  function Active(env: Env, w: World, m: Model, q: Queries): (s: Keyring.Step<bool>)
    ensures s.m == Updater.HostnameRefresh(env, m)
    ensures q == AsWritten ==> s.w == w && s.r.Err?
    ensures q == Answering ==> s == Monitor.Active(env, w, m)
  {
    var m1 := Updater.HostnameRefresh(env, m);
    var o := ActiveBy(env, w, m1, q);
    Keyring.Step(m1, o.w, o.r)
  }

  // ---------------------------------------------------------------- the facade

  /** An implementation: its back end and its own model. */
  datatype LegacyImpl = LegacyImpl(backend: Monitor.Backend, m: Model)

  /** mod_user_ceph: needs the ceph account, or pwd raises KeyError. */
  function CephImpl(env: Env, a: ClusterArgs): (r: Result<LegacyImpl>)
    ensures r.Ok? <==> env.cephIds.Some?
    ensures r.Ok? ==> r.value == LegacyImpl(Monitor.CephUser, Fresh(a))
  {
    if env.cephIds.None? then Raise(Builtin, "KeyError: getpwnam(): name not found: ceph")
    else Ok(LegacyImpl(Monitor.CephUser, Fresh(a)))
  }

  /** mon_facard: the version and the implementation it installed. */
  datatype LegacyMonFacade = LegacyMonFacade(version: Option<string>, imp: Option<LegacyImpl>)

  const Unset := LegacyMonFacade(None, None)

  /** The ceph_version setter: whatever the version, even none, a root
      implementation on a model without arguments is installed. */
  function SetVersion(f: LegacyMonFacade, version: Option<string>): (f2: LegacyMonFacade)
    ensures f2.version == version
    ensures f2.imp.Some? && f2.imp.value.backend == Monitor.RootUser && f2.imp.value.m == Fresh(NoArgs)
  {
    var f1 := if version.None? then Unset else f;
    f1.(imp := Some(LegacyImpl(Monitor.RootUser, Fresh(NoArgs))), version := version)
  }

  /** The ceph_version deleter. */
  function ClearVersion(f: LegacyMonFacade): (f2: LegacyMonFacade)
    ensures f2.imp.None? && f2.version.None?
  {
    Unset
  }

  /** Setting no version does not clear the implementation: the facade
      stays usable. */
  lemma NoVersionStillUsable(f: LegacyMonFacade)
    ensures SetVersion(f, None).imp.Some? && SetVersion(f, None) != Unset
  {
  }

  datatype LegacyCall = CreateCall | QuorumCall(a: ClusterArgs) | StatusCall(a: ClusterArgs) | IsMonCall(a: ClusterArgs) | ActiveCall

  /** A facade call: without an implementation every call raises and runs
      nothing; create and active work on the implementation's model and
      keep what they learn; the others build a fresh model from their
      arguments.  The answering query class is used throughout. */
  function Run(env: Env, w: World, f: LegacyMonFacade, c: LegacyCall): (o: (LegacyMonFacade, Out<Monitor.Answer>))
    ensures f.imp.None? ==> o.0 == f && o.1.w == w && o.1.r.Err? && o.1.r.error.cls == MonError
    ensures f.imp.Some? && (c.QuorumCall? || c.StatusCall? || c.IsMonCall?) ==> o.0 == f
    ensures o.0.version == f.version && (o.0.imp.Some? <==> f.imp.Some?)
    ensures f.imp.Some? ==> o.0.imp.value.backend == f.imp.value.backend
  {
    if f.imp.None? then (f, Out(w, Raise(MonError, "Programming error: key type unset")))
    else
      var imp := f.imp.value;
      match c
      case CreateCall =>
        var s := Create(env, w, imp.backend, imp.m, Answering);
        (f.(imp := Some(imp.(m := s.m))), Out(s.w, Answered(s.r)))
      case ActiveCall =>
        var s := Active(env, w, imp.m, Answering);
        (f.(imp := Some(imp.(m := s.m))), Out(s.w, Answered(s.r)))
      case QuorumCall(a) =>
        var s := Quorum(env, w, a, Answering);
        (f, Out(s.w, Answered(s.r)))
      case IsMonCall(a) =>
        var s := IsMon(env, w, a);
        (f, Out(s.w, Answered(s.r)))
      case StatusCall(a) =>
        var s := Status(env, w, a);
        (f, Out(s.w, if s.r.Ok? then Ok(Monitor.StatusOf(s.r.value)) else Err(s.r.error)))
  }

  function Answered(r: Result<bool>): Result<Monitor.Answer> {
    if r.Ok? then Ok(Monitor.Flag(r.value)) else Err(r.error)
  }
}
