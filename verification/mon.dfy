/** The monitor controller (_modules/sesceph/mon.py): building the initial
    monitor map, creating the monitor behind its "done" sentinel, the
    bounded wait for a responsive monitor, and the facade that picks the
    daemon-user back end.

    The wait reads `time.clock()`; here the clock is the number `rounds` of
    deadline tests that still pass, so a poll makes at most `rounds + 1`
    checks.  Ownership changes (`os.chown`) have no effect in the model. */
module Monitor {
  import opened Wrappers
  import opened Text
  import opened Exec
  import opened NodeModel
  import Updater
  import Query
  import Service
  import Keyring
  import Presenter

  // ---------------------------------------------------------------- back ends

  /** mod_user_root and mod_user_ceph. */
  datatype Backend = RootUser | CephUser

  /** An implementation: its back end and the owner it gives what it creates. */
  datatype MonImpl = MonImpl(backend: Backend, uid: int, gid: int)

  const SudoCeph: Argv := ["sudo", "-u", "ceph"]

  /** `self._execute`: the ceph back end runs the command as the ceph user. */
  function AsDaemon(imp: MonImpl, argv: Argv): (a: Argv)
    ensures |a| >= |argv| && a[|a| - |argv|..] == argv
    ensures imp.backend == RootUser ==> a == argv
    ensures imp.backend == CephUser ==> |a| == |argv| + 3 && a[..3] == SudoCeph
  {
    if imp.backend == RootUser then argv else SudoCeph + argv
  }

  // ---------------------------------------------------------------- commands and paths

  function MonDir(m: Model): Path {
    LibMon + "/" + Show(m.clusterName) + "-" + Show(m.hostname)
  }

  /** The sentinel a finished install leaves. */
  function DonePath(m: Model): Path {
    MonDir(m) + "/done"
  }

  function BootstrapKey(m: Model): Path {
    Keyring.BootstrapPath(Keyring.Mon, m.clusterName, m.hostname)
  }

  function RestartArgv(host: string): Argv {
    [Service.Systemctl, "restart", "ceph-mon@" + host]
  }

  function StateArgv(host: string): Argv {
    Service.ShowArgv("ceph-mon@" + host)
  }

  function ImportArgv(key: Path, bootstrap: Path): Argv {
    [Keyring.Authtool, "--create-keyring", key, "--import-keyring", bootstrap]
  }

  function MkfsArgv(host: string, monmap: Path, key: Path): Argv {
    ["ceph-mon", "--mkfs", "-i", host, "--monmap", monmap, "--keyring", key]
  }

  function MonmapCreateArgv(uuid: string, path: Path): Argv {
    ["monmaptool", "--create", "--fsid", uuid, path]
  }

  function MonmapAddArgv(member: (string, string), path: Path): Argv {
    ["monmaptool", "--add", member.0, member.1, path]
  }

  // ---------------------------------------------------------------- commands in order

  function Commands(argvs: seq<Argv>): (events: seq<Event>)
    ensures |events| == |argvs| && forall i :: 0 <= i < |argvs| ==> events[i] == Ran(argvs[i])
  {
    seq(|argvs|, i requires 0 <= i < |argvs| => Ran(argvs[i]))
  }

  /** Every event is a command that exited zero, given what happened before it. */
  predicate RanClean(env: Env, before: seq<Event>, events: seq<Event>)
    decreases |events|
  {
    |events| == 0 ||
    (events[0].Ran? && env.run(before, events[0].argv).retcode == 0 && RanClean(env, before + [events[0]], events[1..]))
  }

  /** The commands ran cleanly up to the last one, which exited non-zero. */
  predicate StoppedAtFailure(env: Env, before: seq<Event>, events: seq<Event>) {
    && |events| > 0
    && RanClean(env, before, events[..|events| - 1])
    && events[|events| - 1].Ran?
    && env.run(before + events[..|events| - 1], events[|events| - 1].argv).retcode != 0
  }

  /** The commands one after another; the first that exits non-zero raises. */
  function RunInOrder(env: Env, w: World, argvs: seq<Argv>): (o: Out<()>)
    decreases |argvs|
    ensures Extends(w, o.w) && o.w.dirs == w.dirs
    ensures Since(w, o.w) <= Commands(argvs)
    ensures o.r.Ok? ==> Since(w, o.w) == Commands(argvs) && RanClean(env, w.trace, Commands(argvs))
    ensures o.r.Err? ==> o.r.error.cls == MonError && StoppedAtFailure(env, w.trace, Since(w, o.w))
  {
    if |argvs| == 0 then Out(w, Ok(()))
    else
      var (w1, reply) := Execute(env, w, argvs[0]);
      if reply.retcode != 0 then
        RunFails(env, w, w1, argvs);
        Out(w1, Raise(MonError, "Failed executing '" + Join(argvs[0], ' ') + "'"))
      else
        var o := RunInOrder(env, w1, argvs[1..]);
        RunStep(env, w, w1, o.w, argvs, o.r.Ok?);
        o
  }

  /** The first command exited non-zero. */
  lemma RunFails(env: Env, w: World, w1: World, argvs: seq<Argv>)
    requires |argvs| > 0
    requires w1.trace == w.trace + [Ran(argvs[0])] && env.run(w.trace, argvs[0]).retcode != 0
    ensures Extends(w, w1) && Since(w, w1) <= Commands(argvs)
    ensures StoppedAtFailure(env, w.trace, Since(w, w1))
  {
    assert Since(w, w1) == [Ran(argvs[0])];
    assert w.trace + Since(w, w1)[..0] == w.trace;
  }

  /** One command that exited zero, in front of the rest of the run. */
  lemma RunStep(env: Env, w: World, w1: World, after: World, argvs: seq<Argv>, ok: bool)
    requires |argvs| > 0
    requires w1.trace == w.trace + [Ran(argvs[0])] && env.run(w.trace, argvs[0]).retcode == 0
    requires Extends(w1, after) && Since(w1, after) <= Commands(argvs[1..])
    requires ok ==> Since(w1, after) == Commands(argvs[1..]) && RanClean(env, w1.trace, Commands(argvs[1..]))
    requires !ok ==> StoppedAtFailure(env, w1.trace, Since(w1, after))
    ensures Extends(w, after) && Since(w, after) <= Commands(argvs)
    ensures ok ==> Since(w, after) == Commands(argvs) && RanClean(env, w.trace, Commands(argvs))
    ensures !ok ==> StoppedAtFailure(env, w.trace, Since(w, after))
  {
    RunStepSince(w, w1, after, argvs);
    if ok {
      RunStepClean(env, w, w1, argvs);
    } else {
      RunStepStopped(env, w, w1, Since(w1, after), argvs[0]);
    }
  }

  /** The events since `w` are the first command, then those since `w1`. */
  lemma RunStepSince(w: World, w1: World, after: World, argvs: seq<Argv>)
    requires |argvs| > 0
    requires w1.trace == w.trace + [Ran(argvs[0])]
    requires Extends(w1, after) && Since(w1, after) <= Commands(argvs[1..])
    ensures Extends(w, after) && Since(w, after) == [Ran(argvs[0])] + Since(w1, after)
    ensures Commands(argvs) == [Ran(argvs[0])] + Commands(argvs[1..])
    ensures Since(w, after) <= Commands(argvs)
  {
    var c := Commands(argvs);
    var c1 := Commands(argvs[1..]);
    assert c == [Ran(argvs[0])] + c1;
    assert after.trace[..|w.trace|] == after.trace[..|w1.trace|][..|w.trace|];
    var ev := Since(w, after);
    assert ev[0] == after.trace[|w.trace|] == w1.trace[|w.trace|];
    assert ev[1..] == Since(w1, after);
  }

  lemma RunStepClean(env: Env, w: World, w1: World, argvs: seq<Argv>)
    requires |argvs| > 0
    requires w1.trace == w.trace + [Ran(argvs[0])] && env.run(w.trace, argvs[0]).retcode == 0
    requires RanClean(env, w1.trace, Commands(argvs[1..]))
    requires Commands(argvs) == [Ran(argvs[0])] + Commands(argvs[1..])
    ensures RanClean(env, w.trace, Commands(argvs))
  {
    var c := Commands(argvs);
    assert c[0] == Ran(argvs[0]) && c[1..] == Commands(argvs[1..]);
  }

  lemma RunStepStopped(env: Env, w: World, w1: World, ev1: seq<Event>, argv: Argv)
    requires w1.trace == w.trace + [Ran(argv)] && env.run(w.trace, argv).retcode == 0
    requires StoppedAtFailure(env, w1.trace, ev1)
    ensures StoppedAtFailure(env, w.trace, [Ran(argv)] + ev1)
  {
    var ev := [Ran(argv)] + ev1;
    var n1 := |ev1|;
    assert ev[..|ev| - 1] == [Ran(argv)] + ev1[..n1 - 1];
    assert ev[..|ev| - 1][0] == Ran(argv) && ev[..|ev| - 1][1..] == ev1[..n1 - 1];
    assert w.trace + ev[..|ev| - 1] == w1.trace + ev1[..n1 - 1];
  }

  /** Every planned command is one handed to the executor. */
  lemma PlannedAreCommands(w: World, after: World, argvs: seq<Argv>)
    requires Extends(w, after) && after.dirs == w.dirs && Since(w, after) <= Commands(argvs)
    ensures OnlyCommands(w, after)
  {
    forall i | |w.trace| <= i < |after.trace|
      ensures after.trace[i].Ran?
    {
      assert after.trace[i] == Since(w, after)[i - |w.trace|];
    }
  }

  // ---------------------------------------------------------------- monitor map

  function MonmapArgvs(uuid: string, members: seq<(string, string)>, path: Path): (argvs: seq<Argv>)
    ensures |argvs| == |members| + 1 && argvs[0] == MonmapCreateArgv(uuid, path)
    ensures forall i :: 0 <= i < |members| ==> argvs[i + 1] == MonmapAddArgv(members[i], path)
  {
    [MonmapCreateArgv(uuid, path)] + seq(|members|, i requires 0 <= i < |members| => MonmapAddArgv(members[i], path))
  }

  /** _create_monmap: an existing file is left alone; otherwise the map is
      created with the cluster fsid and every member added in order, the
      first failing command raising.  A missing fsid cannot be handed to the
      executor and raises TypeError. */
  function CreateMonmap(env: Env, w: World, m: Model, path: Path): (o: Out<()>)
    ensures path in w.files ==> o == Out(w, Ok(()))
    ensures path !in w.files && m.clusterUuid.None? ==> o.w == w && o.r.Err?
    ensures path !in w.files && m.clusterUuid.Some? ==>
      o == RunInOrder(env, w, MonmapArgvs(m.clusterUuid.value, m.monMembers, path))
  {
    if path in w.files then Out(w, Ok(()))
    else if m.clusterUuid.None? then Out(w, Raise(Builtin, "TypeError: execv() arg 2 must contain only strings"))
    else RunInOrder(env, w, MonmapArgvs(m.clusterUuid.value, m.monMembers, path))
  }

  /** Making the map runs commands and nothing else. */
  lemma MonmapOnlyCommands(env: Env, w: World, m: Model, path: Path)
    ensures OnlyCommands(w, CreateMonmap(env, w, m, path).w)
  {
    if path !in w.files && m.clusterUuid.Some? {
      var argvs := MonmapArgvs(m.clusterUuid.value, m.monMembers, path);
      PlannedAreCommands(w, RunInOrder(env, w, argvs).w, argvs);
    }
  }

  /** A fresh map's first command creates it with the fsid; member `i` is
      added by command `i + 1`; every command exited zero. */
  lemma MonmapOrder(env: Env, w: World, m: Model, path: Path, i: nat)
    requires path !in w.files && m.clusterUuid.Some?
    requires CreateMonmap(env, w, m, path).r.Ok? && i < |m.monMembers|
    ensures var t := CreateMonmap(env, w, m, path).w.trace;
      && t[|w.trace|] == Ran(MonmapCreateArgv(m.clusterUuid.value, path))
      && t[|w.trace| + i + 1] == Ran(MonmapAddArgv(m.monMembers[i], path))
    ensures RanClean(env, w.trace, Commands(MonmapArgvs(m.clusterUuid.value, m.monMembers, path)))
  {
    var planned := Commands(MonmapArgvs(m.clusterUuid.value, m.monMembers, path));
    var o := CreateMonmap(env, w, m, path);
    assert Since(w, o.w) == planned;
    assert o.w.trace[|w.trace|] == planned[0];
    assert o.w.trace[|w.trace| + i + 1] == planned[i + 1];
  }

  // ---------------------------------------------------------------- responsiveness

  /** Between the two worlds only commands were run, and no directory changed. */
  predicate OnlyCommands(before: World, after: World) {
    && Extends(before, after) && after.dirs == before.dirs
    && forall i | |before.trace| <= i < |after.trace| :: after.trace[i].Ran?
  }

  lemma OnlyCommandsTrans(a: World, b: World, c: World)
    requires OnlyCommands(a, b) && OnlyCommands(b, c)
    ensures OnlyCommands(a, c)
  {
    ExtendsTrans(a, b, c);
    forall i | |a.trace| <= i < |c.trace|
      ensures c.trace[i].Ran?
    {
      if i < |b.trace| {
        assert c.trace[i] == c.trace[..|b.trace|][i];
      }
    }
  }

  lemma ActiveOnlyCommands(env: Env, w: World, m: Model)
    ensures OnlyCommands(w, Query.MonActive(env, w, m).w)
  {
  }

  lemma StatusOnlyCommands(env: Env, w: World, m: Model)
    ensures OnlyCommands(w, Updater.MonStatus(env, w, m).w)
  {
  }

  /** The status half of _create_check_responding: a monitor whose admin
      socket does not answer (an updater error) is no error here. */
  function Answering(env: Env, w: World, m: Model): (o: Out<Option<Model>>)
    ensures OnlyCommands(w, o.w)
    ensures o.r == Ok(None) <==> Updater.MonStatus(env, w, m).r.Err? && Updater.MonStatus(env, w, m).r.error.cls == UpdaterError
    ensures o.r.Ok? && o.r.value.Some? ==> o.r.value.value == m.(monStatus := o.r.value.value.monStatus)
  {
    var s := Updater.MonStatus(env, w, m);
    StatusOnlyCommands(env, w, m);
    if s.r.Ok? then Out(s.w, Ok(Some(s.r.value)))
    else if s.r.error.cls == UpdaterError then Out(s.w, Ok(None))
    else Out(s.w, Err(s.r.error))
  }

  /** _create_check_responding: a stopped service raises; a running monitor
      answers (Some, with its status stored) or does not (None). */
  function CheckResponding(env: Env, w: World, m: Model): (o: Out<Option<Model>>)
    ensures OnlyCommands(w, o.w)
    ensures o.r.Ok? ==> Query.MonActive(env, w, m).r == Ok(true)
    ensures Query.MonActive(env, w, m).r == Ok(false) ==> o.w == Query.MonActive(env, w, m).w && o.r.Err? && o.r.error.cls == MonError
    ensures o.r.Ok? && o.r.value.Some? ==> o.r.value.value == m.(monStatus := o.r.value.value.monStatus)
  {
    var a := Query.MonActive(env, w, m);
    ActiveOnlyCommands(env, w, m);
    if a.r.Err? then Out(a.w, Err(a.r.error))
    else if !a.r.value then Out(a.w, Raise(MonError, "mon service has died."))
    else
      var s := Answering(env, a.w, m);
      OnlyCommandsTrans(w, a.w, s.w);
      s
  }

  /** `time.sleep(5)`. */
  function Sleep(w: World): World {
    w.(trace := w.trace + [Slept(5)])
  }

  /** The poll's events: commands, and five-second sleeps between checks. */
  predicate Polled(before: World, after: World) {
    && Extends(before, after) && after.dirs == before.dirs
    && forall i | |before.trace| <= i < |after.trace| :: after.trace[i].Ran? || after.trace[i] == Slept(5)
  }

  /** The number of five-second sleeps among the events. */
  function Sleeps(events: seq<Event>): nat {
    if |events| == 0 then 0
    else Sleeps(events[..|events| - 1]) + (if events[|events| - 1] == Slept(5) then 1 else 0)
  }

  lemma {:induction false} SleepsAppend(a: seq<Event>, b: seq<Event>)
    ensures Sleeps(a + b) == Sleeps(a) + Sleeps(b)
    decreases |b|
  {
    if |b| == 0 {
      assert a + b == a;
    } else {
      assert (a + b)[..|a + b| - 1] == a + b[..|b| - 1];
      SleepsAppend(a, b[..|b| - 1]);
    }
  }

  lemma {:induction false} CommandsDoNotSleep(events: seq<Event>)
    requires forall i | 0 <= i < |events| :: events[i].Ran?
    ensures Sleeps(events) == 0
    decreases |events|
  {
    if |events| > 0 {
      CommandsDoNotSleep(events[..|events| - 1]);
    }
  }

  /** A poll that ends at its first check. */
  lemma PollStops(w: World, c: World)
    requires OnlyCommands(w, c)
    ensures Polled(w, c) && Sleeps(Since(w, c)) == 0
  {
    var ev := Since(w, c);
    forall i | 0 <= i < |ev|
      ensures ev[i].Ran?
    {
      assert ev[i] == c.trace[|w.trace| + i];
    }
    CommandsDoNotSleep(ev);
  }

  /** A check that did not answer, a sleep, and the rest of the poll. */
  lemma PollStep(w: World, c: World, o: World)
    requires OnlyCommands(w, c) && Polled(Sleep(c), o)
    ensures Polled(w, o)
    ensures Sleeps(Since(w, o)) == Sleeps(Since(Sleep(c), o)) + 1
  {
    var c2 := Sleep(c);
    assert Extends(c, c2);
    ExtendsTrans(w, c, c2);
    ExtendsTrans(w, c2, o);
    assert o.trace[..|c.trace|] == o.trace[..|c2.trace|][..|c.trace|];
    forall i | |w.trace| <= i < |o.trace|
      ensures o.trace[i].Ran? || o.trace[i] == Slept(5)
    {
      if i < |c.trace| {
        assert o.trace[i] == c.trace[i];
      } else if i == |c.trace| {
        assert o.trace[i] == c2.trace[i];
      }
    }
    assert Since(w, o) == (Since(w, c) + [Slept(5)]) + Since(c2, o);
    PollStops(w, c);
    SleepsAppend(Since(w, c) + [Slept(5)], Since(c2, o));
    SleepsAppend(Since(w, c), [Slept(5)]);
    assert Sleeps([Slept(5)]) == Sleeps([]) + 1;
  }

  /** _create_check_retry up to its deadline: check, and while the deadline
      has not passed, sleep five seconds and check again.  Some(model) once
      a check answers, None when the deadline passed first; a stopped
      service raises at once. */
  function Poll(env: Env, w: World, m: Model, rounds: nat): (o: Out<Option<Model>>)
    decreases rounds
    ensures Polled(w, o.w)
    ensures Sleeps(Since(w, o.w)) <= rounds
    ensures o.r == Ok(None) ==> Sleeps(Since(w, o.w)) == rounds
    ensures o.r.Ok? && o.r.value.Some? ==> o.r.value.value == m.(monStatus := o.r.value.value.monStatus)
  {
    var c := CheckResponding(env, w, m);
    if c.r.Err? || c.r.value.Some? || rounds == 0 then
      PollStops(w, c.w);
      c
    else
      var o := Poll(env, Sleep(c.w), m, rounds - 1);
      PollStep(w, c.w, o.w);
      o
  }

  /** A monitor that answers the first check ends the poll without sleeping. */
  lemma PollAnswersAtOnce(env: Env, w: World, m: Model, rounds: nat)
    requires CheckResponding(env, w, m).r.Ok? && CheckResponding(env, w, m).r.value.Some?
    ensures Poll(env, w, m, rounds) == CheckResponding(env, w, m)
    ensures Sleeps(Since(w, Poll(env, w, m, rounds).w)) == 0
  {
    PollStops(w, CheckResponding(env, w, m).w);
  }

  /** A stopped service aborts the poll at the first check, with nothing
      but its state query issued and no sleep. */
  lemma PollAbortsWhenStopped(env: Env, w: World, m: Model, rounds: nat)
    requires Query.MonActive(env, w, m).r == Ok(false)
    ensures var o := Poll(env, w, m, rounds);
      o.r.Err? && o.r.error.cls == MonError && o.w == Query.MonActive(env, w, m).w
  {
  }

  /** What the poll raises once the deadline passes: the message names
      variables the function never defines. */
  const TimedOut := Error(Builtin, "NameError: global name 'retry_max' is not defined")

  // ---------------------------------------------------------------- the sentinel path

  /** With the sentinel present: a running monitor is left alone; otherwise
      it is restarted once and must then run. */
  function Restart(env: Env, w: World, m: Model): (o: Out<bool>)
    requires m.hostname.Some?
    ensures o.w.dirs == w.dirs
    ensures var s, r := Ran(StateArgv(m.hostname.value)), Ran(RestartArgv(m.hostname.value));
      o.w.trace in {w.trace + [s], w.trace + [s, r], w.trace + [s, r, s]}
    ensures Query.MonActive(env, w, m).r == Ok(true) ==> o == Query.MonActive(env, w, m)
    ensures o.r.Ok? ==> o.r.value
    ensures o.r.Ok? && Query.MonActive(env, w, m).r != Ok(true) ==>
      o.w.trace == w.trace + [Ran(StateArgv(m.hostname.value)), Ran(RestartArgv(m.hostname.value)), Ran(StateArgv(m.hostname.value))]
  {
    var a := Query.MonActive(env, w, m);
    if a.r.Err? then Out(a.w, Err(a.r.error))
    else if a.r.value then a
    else
      var o := Restarted(env, a.w, m);
      var host := m.hostname.value;
      assert a.w.trace + [Ran(RestartArgv(host))] == w.trace + [Ran(StateArgv(host)), Ran(RestartArgv(host))];
      assert a.w.trace + [Ran(RestartArgv(host)), Ran(StateArgv(host))]
        == w.trace + [Ran(StateArgv(host)), Ran(RestartArgv(host)), Ran(StateArgv(host))];
      o
  }

  /** The restart, then the service must run. */
  function Restarted(env: Env, w: World, m: Model): (o: Out<bool>)
    requires m.hostname.Some?
    ensures o.w.dirs == w.dirs
    ensures var s, r := Ran(StateArgv(m.hostname.value)), Ran(RestartArgv(m.hostname.value));
      o.w.trace == w.trace + [r] || o.w.trace == w.trace + [r, s]
    ensures o.r.Ok? ==> o.r.value && o.w.trace == w.trace + [Ran(RestartArgv(m.hostname.value)), Ran(StateArgv(m.hostname.value))]
  {
    var r := ExecuteChecked(env, w, RestartArgv(m.hostname.value), MonError, "Failed executing systemctl restart");
    if r.r.Err? then Out(r.w, Err(r.r.error))
    else
      var b := Query.MonActive(env, r.w, m);
      if b.r.Err? then Out(b.w, Err(b.r.error))
      else if !b.r.value then Out(b.w, Raise(MonError, "Failed to start monitor"))
      else b
  }

  // ---------------------------------------------------------------- the install

  /** Nothing between the two worlds wrote `p`. */
  predicate NotWrittenSince(before: World, after: World, p: Path) {
    Extends(before, after) && forall i | |before.trace| <= i < |after.trace| :: after.trace[i] != FileWritten(p)
  }

  lemma NotWrittenTrans(a: World, b: World, c: World, p: Path)
    requires NotWrittenSince(a, b, p) && NotWrittenSince(b, c, p)
    ensures NotWrittenSince(a, c, p)
  {
    ExtendsTrans(a, b, c);
    forall i | |a.trace| <= i < |c.trace|
      ensures c.trace[i] != FileWritten(p)
    {
      if i < |b.trace| {
        assert c.trace[i] == c.trace[..|b.trace|][i];
      }
    }
  }

  /** The wait, then the sentinel; past the deadline the poll's failure
      message itself raises. */
  function Settle(env: Env, w: World, m: Model, rounds: nat): (s: Keyring.Step<bool>)
    ensures Extends(w, s.w) && s.w.dirs == w.dirs
    ensures s.r.Err? ==> NotWrittenSince(w, s.w, DonePath(m))
    ensures s.r.Ok? ==> s.r.value && DonePath(m) in s.w.files && |w.trace| < |s.w.trace|
    ensures s.r.Ok? ==> s.w.trace[|s.w.trace| - 1] == FileWritten(DonePath(m))
    ensures Poll(env, w, m, rounds).r == Ok(None) ==> s.r == Err(TimedOut) && Sleeps(Since(w, s.w)) == rounds
    ensures s.m == m.(monStatus := s.m.monStatus)
  {
    var p := Poll(env, w, m, rounds);
    if p.r.Err? then Keyring.Step(m, p.w, Err(p.r.error))
    else if p.r.value.None? then Keyring.Step(m, p.w, Err(TimedOut))
    else
      var w1 := Touch(p.w, DonePath(m));
      ExtendsTrans(w, p.w, w1);
      Keyring.Step(p.r.value.value, w1, Ok(true))
  }

  /** Restart the service, wait for it to answer, then leave the sentinel. */
  function Start(env: Env, w: World, m: Model, rounds: nat): (s: Keyring.Step<bool>)
    requires m.hostname.Some?
    ensures Extends(w, s.w) && s.w.dirs == w.dirs
    ensures s.r.Err? ==> NotWrittenSince(w, s.w, DonePath(m))
    ensures s.r.Ok? ==> s.r.value && DonePath(m) in s.w.files && |w.trace| + 1 < |s.w.trace|
    ensures s.r.Ok? ==> s.w.trace[|w.trace|] == Ran(RestartArgv(m.hostname.value))
    ensures s.r.Ok? ==> s.w.trace[|s.w.trace| - 1] == FileWritten(DonePath(m))
    ensures s.m == m.(monStatus := s.m.monStatus)
  {
    var r := ExecuteChecked(env, w, RestartArgv(m.hostname.value), MonError, "Failed executing systemctl restart");
    if r.r.Err? then Keyring.Step(m, r.w, Err(r.r.error))
    else Restarting(env, w, r.w, m, rounds)
  }

  /** The wait that follows a restart that exited zero. */
  function Restarting(env: Env, w: World, r: World, m: Model, rounds: nat): (s: Keyring.Step<bool>)
    requires m.hostname.Some?
    requires r.trace == w.trace + [Ran(RestartArgv(m.hostname.value))] && r.dirs == w.dirs
    ensures Extends(w, s.w) && s.w.dirs == w.dirs
    ensures s.r.Err? ==> NotWrittenSince(w, s.w, DonePath(m))
    ensures s.r.Ok? ==> s.r.value && DonePath(m) in s.w.files && |w.trace| + 1 < |s.w.trace|
    ensures s.r.Ok? ==> s.w.trace[|w.trace|] == Ran(RestartArgv(m.hostname.value))
    ensures s.r.Ok? ==> s.w.trace[|s.w.trace| - 1] == FileWritten(DonePath(m))
    ensures s.m == m.(monStatus := s.m.monStatus)
  {
    var st := Settle(env, r, m, rounds);
    StartEnds(w, r, st, RestartArgv(m.hostname.value), DonePath(m));
    st
  }

  /** The restart, then a stage that either wrote the sentinel last or did not write it at all. */
  lemma StartEnds(w: World, r: World, st: Keyring.Step<bool>, argv: Argv, done: Path)
    requires r.trace == w.trace + [Ran(argv)] && r.dirs == w.dirs
    requires Extends(r, st.w) && st.w.dirs == r.dirs
    requires st.r.Err? ==> NotWrittenSince(r, st.w, done)
    requires st.r.Ok? ==> st.r.value && done in st.w.files && |r.trace| < |st.w.trace|
    requires st.r.Ok? ==> st.w.trace[|st.w.trace| - 1] == FileWritten(done)
    ensures Extends(w, st.w) && st.w.dirs == w.dirs
    ensures st.r.Err? ==> NotWrittenSince(w, st.w, done)
    ensures st.r.Ok? ==> |w.trace| + 1 < |st.w.trace| && st.w.trace[|w.trace|] == Ran(argv)
  {
    AfterCommand(w, r, st.w, argv, done, st.r.Err?);
  }

  /** One command, then a stage that extends the world. */
  lemma AfterCommand(w: World, r: World, s: World, argv: Argv, p: Path, failed: bool)
    requires r.trace == w.trace + [Ran(argv)] && Extends(r, s)
    requires failed ==> NotWrittenSince(r, s, p)
    ensures Extends(w, s) && s.trace[|w.trace|] == Ran(argv)
    ensures failed ==> NotWrittenSince(w, s, p)
  {
    assert Extends(w, r);
    ExtendsTrans(w, r, s);
    assert s.trace[|w.trace|] == s.trace[..|r.trace|][|w.trace|];
    if failed {
      NotWrittenTrans(w, r, s, p);
    }
  }

  /** The data directory emptied and made afresh: an existing one is removed
      with everything below it. */
  function CleanDir(w: World, dir: Path): (w': World)
    ensures dir in w'.dirs
    ensures dir in w.dirs ==> w'.trace == w.trace + [TreeRemoved(dir), DirsMade(dir)]
    ensures dir !in w.dirs ==> w'.trace == w.trace + [DirsMade(dir)]
    ensures dir in w.dirs ==> forall p :: p in w'.files ==> !Under(p, dir)
  {
    var w1 := if dir in w.dirs then RemoveTree(w, dir) else w;
    MakeDirs(w1, dir)
  }

  /** mkfs as the daemon user, with the map and keyring of the scratch directory. */
  function MkfsOf(env: Env, imp: MonImpl, m: Model): Argv
    requires m.hostname.Some?
  {
    AsDaemon(imp, MkfsArgv(m.hostname.value, env.scratch + "/monmap", env.scratch + "/keyring"))
  }

  /** What the install leaves in the trace from `from` on: the data directory
      made at `i` (straight after its removal, when it was there), mkfs
      next, the restart next, and the sentinel at `j`. */
  predicate InstalledAt(t: seq<Event>, from: nat, i: nat, j: nat, dir: Path, mkfs: Argv, restart: Argv, done: Path, existed: bool) {
    && from <= i && i + 2 < j < |t|
    && t[i] == DirsMade(dir) && t[i + 1] == Ran(mkfs) && t[i + 2] == Ran(restart) && t[j] == FileWritten(done)
    && (existed ==> from < i && t[i - 1] == TreeRemoved(dir))
  }

  ghost predicate Installed(t: seq<Event>, from: nat, dir: Path, mkfs: Argv, restart: Argv, done: Path, existed: bool) {
    exists i: nat, j: nat :: InstalledAt(t, from, i, j, dir, mkfs, restart, done, existed)
  }

  /** The install's order survives later events and an earlier start. */
  lemma InstalledLater(t: seq<Event>, t2: seq<Event>, from: nat, from2: nat, dir: Path, mkfs: Argv, restart: Argv, done: Path, existed: bool)
    requires Installed(t, from, dir, mkfs, restart, done, existed)
    requires |t| <= |t2| && t2[..|t|] == t && from2 <= from
    ensures Installed(t2, from2, dir, mkfs, restart, done, existed)
  {
    var i: nat, j: nat :| InstalledAt(t, from, i, j, dir, mkfs, restart, done, existed);
    assert t2[i] == t[i] && t2[i + 1] == t[i + 1] && t2[i + 2] == t[i + 2] && t2[j] == t[j];
    if existed {
      assert t2[i - 1] == t[i - 1];
    }
    assert InstalledAt(t2, from2, i, j, dir, mkfs, restart, done, existed);
  }

  /** The data directory removed when it was there, made afresh, then mkfs. */
  predicate Cleaned(w: World, w2: World, dir: Path, mkfs: Argv) {
    if dir in w.dirs then w2.trace == w.trace + [TreeRemoved(dir), DirsMade(dir), Ran(mkfs)]
    else w2.trace == w.trace + [DirsMade(dir), Ran(mkfs)]
  }

  /** The directory stages, mkfs, then a start that restarted and wrote the sentinel. */
  lemma MakeFsOrder(w: World, w2: World, s: World, dir: Path, mkfs: Argv, restart: Argv, done: Path)
    requires Cleaned(w, w2, dir, mkfs)
    requires Extends(w2, s) && |w2.trace| + 1 < |s.trace|
    requires s.trace[|w2.trace|] == Ran(restart) && s.trace[|s.trace| - 1] == FileWritten(done)
    ensures Installed(s.trace, |w.trace|, dir, mkfs, restart, done, dir in w.dirs)
  {
    var i := |w2.trace| - 2;
    assert s.trace[i] == w2.trace[i] && s.trace[i + 1] == w2.trace[i + 1];
    if dir in w.dirs {
      assert s.trace[i - 1] == w2.trace[i - 1];
    }
    var j := |s.trace| - 1;
    assert InstalledAt(s.trace, |w.trace|, i, j, dir, mkfs, restart, done, dir in w.dirs);
  }

  /** The directory stages and mkfs write no file. */
  lemma MakeFsNotWritten(w: World, w2: World, s: World, dir: Path, mkfs: Argv, p: Path)
    requires Cleaned(w, w2, dir, mkfs)
    requires NotWrittenSince(w2, s, p)
    ensures NotWrittenSince(w, s, p)
  {
    assert NotWrittenSince(w, w2, p);
    NotWrittenTrans(w, w2, s, p);
  }

  /** The data directory emptied and made afresh, then mkfs as the daemon
      user; a non-zero exit raises. */
  function Mkfs(env: Env, w: World, imp: MonImpl, m: Model): (o: Out<Reply>)
    requires m.hostname.Some?
    ensures MonDir(m) in o.w.dirs
    ensures Cleaned(w, o.w, MonDir(m), MkfsOf(env, imp, m))
  {
    var w1 := CleanDir(w, MonDir(m));
    ExecuteChecked(env, w1, MkfsOf(env, imp, m), MonError, "Failed executing ceph-mon --mkfs")
  }

  /** The data directory emptied and made afresh, mkfs as the daemon user,
      then the start; a plain file in the directory's place makes makedirs
      raise. */
  function MakeFs(env: Env, w: World, imp: MonImpl, m: Model, rounds: nat): (s: Keyring.Step<bool>)
    requires m.hostname.Some?
    ensures Extends(w, s.w)
    ensures MonDir(m) in w.files ==> s.w == w && s.r.Err?
    ensures s.r.Err? ==> NotWrittenSince(w, s.w, DonePath(m))
    ensures s.r.Ok? ==> s.r.value && DonePath(m) in s.w.files && MonDir(m) in s.w.dirs
    ensures s.r.Ok? ==> Installed(s.w.trace, |w.trace|, MonDir(m), MkfsOf(env, imp, m), RestartArgv(m.hostname.value), DonePath(m), MonDir(m) in w.dirs)
    ensures s.m == m.(monStatus := s.m.monStatus)
  {
    var dir := MonDir(m);
    if dir in w.files then Keyring.Step(m, w, Raise(Builtin, "OSError: File exists: " + dir))
    else Build(env, w, imp, m, rounds)
  }

  /** mkfs, then the start when mkfs succeeded. */
  function Build(env: Env, w: World, imp: MonImpl, m: Model, rounds: nat): (s: Keyring.Step<bool>)
    requires m.hostname.Some?
    ensures Extends(w, s.w)
    ensures s.r.Err? ==> NotWrittenSince(w, s.w, DonePath(m))
    ensures s.r.Ok? ==> s.r.value && DonePath(m) in s.w.files && MonDir(m) in s.w.dirs
    ensures s.r.Ok? ==> Installed(s.w.trace, |w.trace|, MonDir(m), MkfsOf(env, imp, m), RestartArgv(m.hostname.value), DonePath(m), MonDir(m) in w.dirs)
    ensures s.m == m.(monStatus := s.m.monStatus)
  {
    var mk := Mkfs(env, w, imp, m);
    if mk.r.Err? then
      MakeFsNotWritten(w, mk.w, mk.w, MonDir(m), MkfsOf(env, imp, m), DonePath(m));
      Keyring.Step(m, mk.w, Err(mk.r.error))
    else Boot(env, w, mk.w, imp, m, rounds)
  }

  /** The start after a clean mkfs. */
  function Boot(env: Env, w: World, w2: World, imp: MonImpl, m: Model, rounds: nat): (s: Keyring.Step<bool>)
    requires m.hostname.Some? && MonDir(m) in w2.dirs
    requires Cleaned(w, w2, MonDir(m), MkfsOf(env, imp, m))
    ensures Extends(w, s.w)
    ensures s.r.Err? ==> NotWrittenSince(w, s.w, DonePath(m))
    ensures s.r.Ok? ==> s.r.value && DonePath(m) in s.w.files && MonDir(m) in s.w.dirs
    ensures s.r.Ok? ==> Installed(s.w.trace, |w.trace|, MonDir(m), MkfsOf(env, imp, m), RestartArgv(m.hostname.value), DonePath(m), MonDir(m) in w.dirs)
    ensures s.m == m.(monStatus := s.m.monStatus)
  {
    var st := Start(env, w2, m, rounds);
    MakeFsEnds(env, w, w2, imp, m, st);
    st
  }

  lemma MakeFsEnds(env: Env, w: World, w2: World, imp: MonImpl, m: Model, st: Keyring.Step<bool>)
    requires m.hostname.Some?
    requires Cleaned(w, w2, MonDir(m), MkfsOf(env, imp, m))
    requires Extends(w2, st.w)
    requires st.r.Err? ==> NotWrittenSince(w2, st.w, DonePath(m))
    requires st.r.Ok? ==> |w2.trace| + 1 < |st.w.trace| && st.w.trace[|w2.trace|] == Ran(RestartArgv(m.hostname.value))
    requires st.r.Ok? ==> st.w.trace[|st.w.trace| - 1] == FileWritten(DonePath(m))
    ensures Extends(w, st.w)
    ensures st.r.Err? ==> NotWrittenSince(w, st.w, DonePath(m))
    ensures st.r.Ok? ==> Installed(st.w.trace, |w.trace|, MonDir(m), MkfsOf(env, imp, m), RestartArgv(m.hostname.value), DonePath(m), MonDir(m) in w.dirs)
  {
    assert Extends(w, w2);
    ExtendsTrans(w, w2, st.w);
    if st.r.Err? {
      MakeFsNotWritten(w, w2, st.w, MonDir(m), MkfsOf(env, imp, m), DonePath(m));
    } else {
      MakeFsOrder(w, w2, st.w, MonDir(m), MkfsOf(env, imp, m), RestartArgv(m.hostname.value), DonePath(m));
    }
  }

  /** The install proper, inside the scratch directory: monitor map, the
      keyring imported as the daemon user, then the data directory and mkfs.
      The map must exist for its ownership to change. */
  function Install(env: Env, w: World, imp: MonImpl, m: Model, rounds: nat): (s: Keyring.Step<bool>)
    requires m.hostname.Some?
    ensures Extends(w, s.w)
    ensures s.r.Err? ==> NotWrittenSince(w, s.w, DonePath(m))
    ensures s.r.Ok? ==> s.r.value && DonePath(m) in s.w.files && MonDir(m) in s.w.dirs
    ensures s.r.Ok? ==> Installed(s.w.trace, |w.trace|, MonDir(m), MkfsOf(env, imp, m), RestartArgv(m.hostname.value), DonePath(m), MonDir(m) in w.dirs)
    ensures s.m == m.(monStatus := s.m.monStatus)
  {
    var monmap := env.scratch + "/monmap";
    var mm := CreateMonmap(env, w, m, monmap);
    MonmapOnlyCommands(env, w, m, monmap);
    if mm.r.Err? || monmap !in mm.w.files then
      var e := if mm.r.Err? then mm.r.error else Error(Builtin, "OSError: No such file or directory: " + monmap);
      Keyring.Step(m, mm.w, Err(e))
    else
      var ki := ExecuteChecked(env, mm.w, AsDaemon(imp, ImportArgv(env.scratch + "/keyring", BootstrapKey(m))), MonError, "Failed executing ceph-authtool");
      assert OnlyCommands(mm.w, ki.w);
      OnlyCommandsTrans(w, mm.w, ki.w);
      if ki.r.Err? then Keyring.Step(m, ki.w, Err(ki.r.error))
      else
        var s := MakeFs(env, ki.w, imp, m, rounds);
        CommandsFirst(w, ki.w, s.w, s.r.Ok?, MonDir(m), MkfsOf(env, imp, m), RestartArgv(m.hostname.value), DonePath(m));
        s
  }

  /** Commands, then a stage: its guarantees hold from the start. */
  lemma CommandsFirst(w: World, a: World, s: World, ok: bool, dir: Path, mkfs: Argv, restart: Argv, done: Path)
    requires OnlyCommands(w, a) && Extends(a, s)
    requires !ok ==> NotWrittenSince(a, s, done)
    requires ok ==> Installed(s.trace, |a.trace|, dir, mkfs, restart, done, dir in a.dirs)
    ensures Extends(w, s)
    ensures !ok ==> NotWrittenSince(w, s, done)
    ensures ok ==> Installed(s.trace, |w.trace|, dir, mkfs, restart, done, dir in w.dirs)
  {
    ExtendsTrans(w, a, s);
    if ok {
      InstalledLater(s.trace, s.trace, |a.trace|, |w.trace|, dir, mkfs, restart, done, dir in w.dirs);
    } else {
      NotWrittenTrans(w, a, s, done);
    }
  }

  /** The install inside a fresh scratch directory, which is removed with
      everything in it whatever the outcome. */
  function Scratch(env: Env, w: World, imp: MonImpl, m: Model, rounds: nat): (s: Keyring.Step<bool>)
    requires m.hostname.Some?
    ensures |w.trace| + 1 < |s.w.trace| && s.w.trace[|w.trace|] == TempMade(env.scratch)
    ensures s.w.trace[|s.w.trace| - 1] == TreeRemoved(env.scratch) && env.scratch !in s.w.dirs
    ensures s.r.Err? ==> NotWrittenSince(w, s.w, DonePath(m))
    ensures s.r.Ok? ==> s.r.value && Installed(s.w.trace, |w.trace|, MonDir(m), MkfsOf(env, imp, m),
      RestartArgv(m.hostname.value), DonePath(m), MonDir(m) in w.dirs || MonDir(m) == env.scratch)
    ensures s.r.Ok? && !Under(DonePath(m), env.scratch) ==> DonePath(m) in s.w.files
    ensures s.r.Ok? && MonDir(m) != env.scratch && !Under(MonDir(m), env.scratch) ==> MonDir(m) in s.w.dirs
    ensures s.m == m.(monStatus := s.m.monStatus)
  {
    var w1 := MakeTemp(env, w);
    var s := Install(env, w1, imp, m, rounds);
    var w2 := RemoveTree(s.w, env.scratch);
    ScratchOrder(env, w, w1, s.w, w2, s.r.Ok?, MonDir(m), MkfsOf(env, imp, m), RestartArgv(m.hostname.value), DonePath(m));
    Keyring.Step(s.m, w2, s.r)
  }

  lemma ScratchOrder(env: Env, w: World, w1: World, s: World, w2: World, ok: bool,
                     dir: Path, mkfs: Argv, restart: Argv, done: Path)
    requires w1 == MakeTemp(env, w) && Extends(w1, s) && w2.trace == s.trace + [TreeRemoved(env.scratch)]
    requires !ok ==> NotWrittenSince(w1, s, done)
    requires ok ==> Installed(s.trace, |w1.trace|, dir, mkfs, restart, done, dir in w1.dirs)
    ensures |w.trace| + 1 < |w2.trace| && w2.trace[|w.trace|] == TempMade(env.scratch)
    ensures !ok ==> NotWrittenSince(w, w2, done)
    ensures ok ==> Installed(w2.trace, |w.trace|, dir, mkfs, restart, done, dir in w.dirs || dir == env.scratch)
  {
    assert w2.trace[|w.trace|] == s.trace[..|w1.trace|][|w.trace|];
    assert Extends(w, w1) && Extends(s, w2);
    ExtendsTrans(w, w1, s);
    ExtendsTrans(w, s, w2);
    if ok {
      assert (dir in w1.dirs) == (dir in w.dirs || dir == env.scratch);
      InstalledLater(s.trace, w2.trace, |w1.trace|, |w.trace|, dir, mkfs, restart, done, dir in w1.dirs);
    } else {
      assert NotWrittenSince(w, w1, done);
      assert NotWrittenSince(s, w2, done);
      NotWrittenTrans(w, w1, s, done);
      NotWrittenTrans(w, s, w2, done);
    }
  }

  // ---------------------------------------------------------------- create

  /** The refreshes every monitor operation starts with: hostname, cluster
      defaults, configuration and monitor members.  A defaults failure is
      told apart, since the operations treat it differently. */
  datatype Gate = DefaultsFailed(m: Model, e: Error) | Failed(m: Model, e: Error) | Ready(m: Model)

  function Refresh(env: Env, w: World, m: Model, optionErr: ErrClass): (g: Gate)
    ensures g.m.hostname == Some(env.node)
    ensures g.Ready? ==> g.m.clusterUuid.Some?
    ensures g.DefaultsFailed? <==> Updater.DefaultsRefresh(env, w, Updater.HostnameRefresh(env, m)).Err?
  {
    var m1 := Updater.HostnameRefresh(env, m);
    match Updater.DefaultsRefresh(env, w, m1)
    case Err(e) => DefaultsFailed(m1.(clusterName := Some(m1.clusterName.GetOr("ceph"))), e)
    case Ok(m2) => Configured(env, w, m2, optionErr)
  }

  /** The configuration and monitor members, once the defaults resolved; a
      missing option raises `optionErr`. */
  function Configured(env: Env, w: World, m: Model, optionErr: ErrClass): (g: Gate)
    ensures !g.DefaultsFailed?
    ensures g.m.hostname == m.hostname && g.m.clusterUuid == m.clusterUuid
  {
    match Updater.LoadConfig(env, w, m, Show(m.clusterName))
    case Err(e) => Failed(m, e)
    case Ok(m3) =>
      match Updater.MonMembersRefresh(env, m3, optionErr)
      case Err(e) => Failed(m3, e)
      case Ok(m4) => Ready(m4)
  }

  /** Create once this host is known to be a member: with the sentinel the
      service is only brought up; without the bootstrap keyring nothing
      happens; otherwise the install runs in a scratch directory. */
  function CreateAt(env: Env, w: World, imp: MonImpl, m: Model, rounds: nat): (s: Keyring.Step<bool>)
    requires m.hostname.Some?
    ensures DonePath(m) in w.files ==> s.w == Restart(env, w, m).w && s.r == Restart(env, w, m).r
    ensures DonePath(m) !in w.files && BootstrapKey(m) !in w.files ==> s.w == w && s.r.Err? && s.r.error.cls == MonError
    ensures DonePath(m) !in w.files && BootstrapKey(m) in w.files ==> s == Scratch(env, w, imp, m, rounds)
    ensures s.m == m.(monStatus := s.m.monStatus)
  {
    if DonePath(m) in w.files then
      var o := Restart(env, w, m);
      Keyring.Step(m, o.w, o.r)
    else if BootstrapKey(m) !in w.files then Keyring.Step(m, w, Raise(MonError, "Mon keyring missing"))
    else Scratch(env, w, imp, m, rounds)
  }

  /** create: refresh, refuse a host that is not a member, then create. */
  function Create(env: Env, w: World, imp: MonImpl, m: Model, rounds: nat): (s: Keyring.Step<bool>)
    ensures !Refresh(env, w, m, UpdaterError).Ready? ==> s == Keyring.Step(Refresh(env, w, m, UpdaterError).m, w, Err(Refresh(env, w, m, UpdaterError).e))
    ensures Refresh(env, w, m, UpdaterError).Ready? && Query.MonIs(Refresh(env, w, m, UpdaterError).m) == Ok(false) ==>
      s.w == w && s.r.Err? && s.r.error.cls == MonError
    ensures Refresh(env, w, m, UpdaterError).Ready? && Query.MonIs(Refresh(env, w, m, UpdaterError).m) == Ok(true) ==>
      s == CreateAt(env, w, imp, Refresh(env, w, m, UpdaterError).m, rounds)
  {
    var g := Refresh(env, w, m, UpdaterError);
    if !g.Ready? then Keyring.Step(g.m, w, Err(g.e))
    else if Query.MonIs(g.m) != Ok(true) then Keyring.Step(g.m, w, Raise(MonError, "Not a mon node"))
    else CreateAt(env, w, imp, g.m, rounds)
  }

  // ---------------------------------------------------------------- other operations

  /** mon_is: a defaults failure answers False. */
  function IsMon(env: Env, w: World, m: Model): (s: Keyring.Step<bool>)
    ensures s.w == w
    ensures Refresh(env, w, m, UpdaterError).DefaultsFailed? ==> s.r == Ok(false)
    ensures Refresh(env, w, m, UpdaterError).Ready? ==> s.r.Ok? && (s.r.value <==> Query.MonIs(Refresh(env, w, m, UpdaterError).m) == Ok(true))
  {
    var g := Refresh(env, w, m, UpdaterError);
    match g
    case DefaultsFailed(m1, _) => Keyring.Step(m1, w, Ok(false))
    case Failed(m1, e) => Keyring.Step(m1, w, Err(e))
    case Ready(m1) => Keyring.Step(m1, w, Query.MonIs(m1))
  }

  /** status: a defaults failure answers {}; a host that is not a member
      raises; otherwise the monitor's status, as the presenter shows it. */
  function Status(env: Env, w: World, m: Model): (s: Keyring.Step<Presenter.MonView>)
    ensures Refresh(env, w, m, UpdaterError).DefaultsFailed? ==> s.w == w && s.r == Ok(None)
    ensures Refresh(env, w, m, UpdaterError).Ready? && Query.MonIs(Refresh(env, w, m, UpdaterError).m) != Ok(true) ==>
      s.w == w && s.r.Err? && s.r.error.cls == MonError
    ensures s.r.Ok? && s.w != w ==> s.r == Presenter.MonStatusView(s.m)
  {
    var g := Refresh(env, w, m, UpdaterError);
    match g
    case DefaultsFailed(m1, _) => Keyring.Step(m1, w, Ok(None))
    case Failed(m1, e) => Keyring.Step(m1, w, Err(e))
    case Ready(m1) =>
      if Query.MonIs(m1) != Ok(true) then Keyring.Step(m1, w, Raise(MonError, "Not a mon node"))
      else
        var o := Updater.MonStatus(env, w, m1);
        if o.r.Err? then Keyring.Step(m1, o.w, Err(o.r.error))
        else Keyring.Step(o.r.value, o.w, Presenter.MonStatusView(o.r.value))
  }

  /** quorum: a defaults failure raises; membership is not checked before
      the status is asked for. */
  function Quorum(env: Env, w: World, m: Model): (s: Keyring.Step<bool>)
    ensures Refresh(env, w, m, UpdaterError).DefaultsFailed? ==> s.w == w && s.r.Err? && s.r.error.cls == MonError
    ensures s.r.Ok? ==> s.r == Query.MonQuorum(s.m)
  {
    var g := Refresh(env, w, m, UpdaterError);
    match g
    case DefaultsFailed(m1, _) => Keyring.Step(m1, w, Raise(MonError, "Could not get cluster details"))
    case Failed(m1, e) => Keyring.Step(m1, w, Err(e))
    case Ready(m1) =>
      var o := Updater.MonStatus(env, w, m1);
      if o.r.Err? then Keyring.Step(m1, o.w, Err(o.r.error))
      else Keyring.Step(o.r.value, o.w, Query.MonQuorum(o.r.value))
  }

  /** active: whether the monitor service runs, after a hostname refresh. */
  function Active(env: Env, w: World, m: Model): (s: Keyring.Step<bool>)
    ensures s.m == Updater.HostnameRefresh(env, m)
    ensures s.w.trace == w.trace + [Ran(StateArgv(env.node))]
  {
    var m1 := Updater.HostnameRefresh(env, m);
    var o := Query.MonActive(env, w, m1);
    Keyring.Step(m1, o.w, o.r)
  }

  // ---------------------------------------------------------------- the facade

  /** mon_facard: the daemon user, the implementation it selected, and the
      model the implementation works on. */
  datatype MonFacade = MonFacade(user: Option<string>, imp: Option<MonImpl>, m: Model)

  /** The implementation for a daemon user: root owns with id 0; ceph takes
      the ceph account's ids, and raises KeyError without one. */
  function Implementation(env: Env, user: string): (r: Result<MonImpl>)
    ensures r.Ok? <==> user == "root" || (user == "ceph" && env.cephIds.Some?)
    ensures r.Ok? ==> (r.value.backend == RootUser <==> user == "root")
    ensures r.Ok? && user == "root" ==> r.value.uid == 0 && r.value.gid == 0
    ensures user != "root" && user != "ceph" ==> r.Err? && r.error.cls == MonError
  {
    if user == "root" then Ok(MonImpl(RootUser, 0, 0))
    else if user == "ceph" then
      match env.cephIds
      case None => Raise(Builtin, "KeyError: getpwnam(): name not found: ceph")
      case Some(ids) => Ok(MonImpl(CephUser, ids.0, ids.1))
    else Raise(MonError, "Invalid ceph_daemon_user")
  }

  /** Setting ceph_daemon_user: None clears the facade and raises; an
      unknown user raises and keeps the implementation already selected. */
  function SetUser(env: Env, f: MonFacade, user: Option<string>): (o: (MonFacade, Result<()>))
    ensures o.0.m == f.m
    ensures o.1.Ok? <==> user.Some? && Implementation(env, user.value).Ok?
    ensures o.1.Ok? ==> o.0.user == user && o.0.imp == Some(Implementation(env, user.value).value)
    ensures user.None? ==> o.0.user.None? && o.0.imp.None?
    ensures user.Some? && o.1.Err? ==> o.0 == f
  {
    if user.None? then (f.(user := None, imp := None), Raise(MonError, "Invalid ceph_daemon_user"))
    else
      match Implementation(env, user.value)
      case Err(e) => (f, Err(e))
      case Ok(imp) => (f.(user := user, imp := Some(imp)), Ok(()))
  }

  /** mon_facard.__init__: a fresh model, the installed version read, and
      the daemon user the version calls for. */
  function NewFacade(env: Env, w: World, a: ClusterArgs): (o: Out<MonFacade>)
    ensures o.w.trace == w.trace + [Ran(Updater.CephVersionArgv)]
    ensures o.r.Ok? ==> o.r.value.m == Fresh(a).(cephVersion := o.r.value.m.cephVersion)
    ensures o.r.Ok? ==> o.r.value.user == Some(Query.CephDaemonUser(o.r.value.m.cephVersion)) && o.r.value.imp.Some?
    ensures o.r.Ok? ==> (o.r.value.imp.value.backend == RootUser <==> Query.CephDaemonUser(o.r.value.m.cephVersion) == "root")
  {
    var f := MonFacade(None, None, Fresh(a));
    var v := Updater.CephVersionRefresh(env, w, f.m);
    if v.r.Err? then Out(v.w, Err(v.r.error))
    else
      var (f1, r) := SetUser(env, f.(m := v.r.value), Some(Query.CephDaemonUser(v.r.value.cephVersion)));
      if r.Err? then Out(v.w, Err(r.error)) else Out(v.w, Ok(f1))
  }

  /** The version decides the back end: root before 0.95, ceph after. */
  lemma FacadeFollowsVersion(env: Env, w: World, a: ClusterArgs)
    requires NewFacade(env, w, a).r.Ok?
    ensures var f := NewFacade(env, w, a).r.value;
      f.imp.value.backend == RootUser <==>
        f.m.cephVersion.major == Some(0) && (f.m.cephVersion.minor.None? || f.m.cephVersion.minor.value < 95)
  {
  }

  datatype Call = CreateCall(rounds: nat) | QuorumCall | StatusCall | IsMonCall | ActiveCall

  datatype Answer = Flag(flag: bool) | StatusOf(view: Presenter.MonView)

  function Flagged(s: Keyring.Step<bool>): Keyring.Step<Answer> {
    Keyring.Step(s.m, s.w, if s.r.Ok? then Ok(Flag(s.r.value)) else Err(s.r.error))
  }

  /** A facade call: raises while no implementation is selected, otherwise
      runs the call on the facade's model and keeps the model it leaves. */
  function Run(env: Env, w: World, f: MonFacade, c: Call): (o: (MonFacade, Keyring.Step<Answer>))
    ensures f.imp.None? ==> o.0 == f && o.1.w == w && o.1.r.Err? && o.1.r.error.cls == MonError
    ensures f.imp.Some? ==> o.0 == f.(m := o.1.m)
    ensures f.imp.Some? && c.CreateCall? ==> o.1 == Flagged(Create(env, w, f.imp.value, f.m, c.rounds))
  {
    if f.imp.None? then (f, Keyring.Step(f.m, w, Raise(MonError, "Programming error: key type unset")))
    else
      var s :=
        match c
        case CreateCall(rounds) => Flagged(Create(env, w, f.imp.value, f.m, rounds))
        case QuorumCall => Flagged(Quorum(env, w, f.m))
        case IsMonCall => Flagged(IsMon(env, w, f.m))
        case ActiveCall => Flagged(Active(env, w, f.m))
        case StatusCall =>
          var st := Status(env, w, f.m);
          Keyring.Step(st.m, st.w, if st.r.Ok? then Ok(StatusOf(st.r.value)) else Err(st.r.error));
      (f.(m := s.m), s)
  }
}
