/** The keyring authority (_modules/sesceph/keyring.py): the per-role
    principal, path and capability table, the no-clobber create, write and
    remove, the tab-indented keyring text format, the monitor-gated
    authorisation calls, and the role-selection facade.  The pieces the
    legacy copy shares (the format, the create, write and remove skeletons,
    the monitor gate) are defined here once. */
module Keyring {
  import opened Wrappers
  import opened Text
  import opened JsonData
  import opened Exec
  import opened NodeModel
  import opened Updater
  import opened Query

  // ---------------------------------------------------------------- roles

  datatype Role = Admin | Mds | Mon | Osd | Rgw

  function RoleName(role: Role): string {
    match role
    case Admin => "admin"
    case Mds => "mds"
    case Mon => "mon"
    case Osd => "osd"
    case Rgw => "rgw"
  }

  /** The names keyring_facard accepts. */
  const KeyTypes: set<string> := {"admin", "mds", "mon", "osd", "rgw"}

  /** The role a key type names, if any. */
  function RoleOf(name: string): (r: Option<Role>)
    ensures r.Some? <==> name in KeyTypes
    ensures r.Some? ==> RoleName(r.value) == name
  {
    if name == "admin" then Some(Admin)
    else if name == "mds" then Some(Mds)
    else if name == "mon" then Some(Mon)
    else if name == "osd" then Some(Osd)
    else if name == "rgw" then Some(Rgw)
    else None
  }

  /** Role names and key types correspond one to one. */
  lemma RoleNamesRoundTrip(role: Role)
    ensures RoleName(role) in KeyTypes && RoleOf(RoleName(role)) == Some(role)
  {
  }

  /** The principal of a bootstrap role. */
  function BootstrapPrincipal(role: Role): string {
    "client.bootstrap-" + RoleName(role)
  }

  // ---------------------------------------------------------------- paths

  const LibCeph := "/var/lib/ceph/"

  /** _get_path_keyring_admin: formatted with "%s", so no name reads "None". */
  function AdminPath(cluster: Option<string>): Path {
    "/etc/ceph/" + Show(cluster) + ".client.admin.keyring"
  }

  /** _get_path_keyring_mon: the monitor's own data keyring. */
  function MonDataPath(cluster: Option<string>, host: Option<string>): Path {
    LibMon + "/" + Show(cluster) + "-" + Show(host) + "/keyring"
  }

  /** The bootstrap keyring of a role: `bootstrap-mon/<cluster>-<host>.keyring`
      for the monitor, `bootstrap-<role>/<cluster>.keyring` otherwise. */
  function BootstrapPath(role: Role, cluster: Option<string>, host: Option<string>): Path {
    if role == Mon then LibCeph + "bootstrap-mon/" + Show(cluster) + "-" + Show(host) + ".keyring"
    else LibCeph + "bootstrap-" + RoleName(role) + "/" + Show(cluster) + ".keyring"
  }

  /** get_path_keyring of each implementation.  The admin path is formatted
      whatever the cluster name; the others raise when the cluster name (and,
      for the monitor, the hostname) is unset. */
  function KeyringPath(role: Role, m: Model): (r: Result<Path>)
    ensures role == Admin ==> r == Ok(AdminPath(m.clusterName))
    ensures role != Admin ==> (r.Ok? <==> m.clusterName.Some? && (role == Mon ==> m.hostname.Some?))
    ensures role != Admin && r.Ok? ==> r.value == BootstrapPath(role, m.clusterName, m.hostname)
    ensures r.Err? ==> r.error.cls == KeyringError
  {
    if role == Admin then Ok(AdminPath(m.clusterName))
    else if m.clusterName.None? then Raise(KeyringError, "Cluster name not found")
    else if role == Mon && m.hostname.None? then Raise(KeyringError, "Cluster name not found")
    else Ok(BootstrapPath(role, m.clusterName, m.hostname))
  }

  /** Distinct roles keep their bootstrap keyrings in distinct directories. */
  lemma BootstrapPathsDiffer(r1: Role, r2: Role, c: string, h: string)
    requires r1 != r2 && r1 != Admin && r2 != Admin
    ensures BootstrapPath(r1, Some(c), Some(h)) != BootstrapPath(r2, Some(c), Some(h))
  {
    var p1 := BootstrapPath(r1, Some(c), Some(h));
    var p2 := BootstrapPath(r2, Some(c), Some(h));
    assert p1[|LibCeph| + 10 .. |LibCeph| + 13] == RoleName(r1);
    assert p2[|LibCeph| + 10 .. |LibCeph| + 13] == RoleName(r2);
  }

  // ---------------------------------------------------------------- capabilities

  /** The capabilities each role's generator grants, as (subsystem, grant). */
  function Caps(role: Role): seq<(string, string)> {
    match role
    case Admin => [("mon", "allow *"), ("mds", "allow *"), ("osd", "allow *")]
    case Mon => [("mon", "allow *")]
    case _ => [("mon", "allow profile bootstrap-" + RoleName(role))]
  }

  /** The `--cap <subsystem> <grant>` arguments for a capability list. */
  function CapArgs(caps: seq<(string, string)>): (args: Argv)
    ensures |args| == 3 * |caps|
  {
    if |caps| == 0 then [] else ["--cap", caps[0].0, caps[0].1] + CapArgs(caps[1..])
  }

  /** Reads `--cap` triples back; None when the arguments are not triples. */
  function ParseCaps(args: Argv): Option<seq<(string, string)>>
    decreases |args|
  {
    if |args| == 0 then Some([])
    else if |args| < 3 || args[0] != "--cap" then None
    else
      match ParseCaps(args[3..])
      case None => None
      case Some(rest) => Some([(args[1], args[2])] + rest)
  }

  lemma {:induction false} ParseCapArgs(caps: seq<(string, string)>)
    ensures ParseCaps(CapArgs(caps)) == Some(caps)
  {
    if |caps| > 0 {
      var args := CapArgs(caps);
      assert args[3..] == CapArgs(caps[1..]);
      ParseCapArgs(caps[1..]);
      assert [caps[0]] + caps[1..] == caps;
    }
  }

  const Authtool := "ceph-authtool"

  /** get_arguments_create.  The monitor takes an optional key, passed as
      `--add-key <key>` in place of `--create-keyring`; the other roles take
      no key argument, so passing one is a TypeError. */
  function CreateArgv(role: Role, principal: string, keyPath: Path, key: Option<string>): (r: Result<Argv>)
    ensures r.Err? <==> role != Mon && key.Some?
    ensures r.Err? ==> r.error.cls == Builtin
    ensures r.Ok? ==> |r.value| >= 6 && r.value[..3] == [Authtool, "--create-keyring", keyPath]
    ensures r.Ok? ==> r.value[4..6] == ["-n", principal]
    ensures r.Ok? && role == Mon ==> r.value[3] == (if key.None? then "--create-keyring" else "--add-key " + key.value)
    ensures r.Ok? && role != Mon ==> r.value[3] == "--gen-key"
  {
    if role != Mon && key.Some? then Raise(Builtin, "TypeError: get_arguments_create() takes exactly 2 arguments (3 given)")
    else
      var opts := if role == Mon then (if key.None? then "--create-keyring" else "--add-key " + key.value) else "--gen-key";
      var flags := if role == Admin then ["--set-uid=0"] else [];
      Ok([Authtool, "--create-keyring", keyPath, opts, "-n", principal] + flags + CapArgs(Caps(role)))
  }

  /** The capabilities a generator command grants are the role's: every
      argument after the principal (and the admin's `--set-uid=0`) reads back
      as exactly `Caps(role)`. */
  lemma CreateArgvCaps(role: Role, principal: string, keyPath: Path, key: Option<string>)
    requires CreateArgv(role, principal, keyPath, key).Ok?
    ensures var argv := CreateArgv(role, principal, keyPath, key).value;
      var skip := if role == Admin then 7 else 6;
      |argv| >= skip && ParseCaps(argv[skip..]) == Some(Caps(role))
  {
    var argv := CreateArgv(role, principal, keyPath, key).value;
    var skip := if role == Admin then 7 else 6;
    assert argv[skip..] == CapArgs(Caps(role));
    ParseCapArgs(Caps(role));
  }

  /** Bootstrap roles grant one capability only: the bootstrap profile on
      the monitor; admin grants everything on mon, mds and osd. */
  lemma CapsTable(role: Role)
    ensures role in {Mds, Osd, Rgw} ==> Caps(role) == [("mon", "allow profile bootstrap-" + RoleName(role))]
    ensures role == Admin ==> forall i :: 0 <= i < |Caps(role)| ==> Caps(role)[i].1 == "allow *"
    ensures role == Admin ==> (set i | 0 <= i < |Caps(role)| :: Caps(role)[i].0) == {"mon", "mds", "osd"}
    ensures role == Mon ==> Caps(role) == [("mon", "allow *")]
  {
    if role == Admin {
      var c := Caps(role);
      assert c[0].0 == "mon" && c[1].0 == "mds" && c[2].0 == "osd";
      assert forall i :: 0 <= i < |c| ==> c[i].0 in {"mon", "mds", "osd"};
    }
  }

  // ---------------------------------------------------------------- keyring text

  /** One line of _keying_write: blank lines vanish, section headers are kept
      as they are, every other line is tab-indented. */
  function FormatLine(line: string): (r: string)
    ensures Strip(line) == "" <==> r == ""
  {
    var s := Strip(line);
    if |s| == 0 then ""
    else if s[0] == '[' then s + "\n"
    else "\t" + s + "\n"
  }

  function FormatLines(lines: seq<string>): string {
    if |lines| == 0 then "" else FormatLine(lines[0]) + FormatLines(lines[1..])
  }

  /** The text _keying_write puts in the file. */
  function Format(content: string): string {
    FormatLines(Split(content, '\n'))
  }

  /** Stripping keeps only characters of the original. */
  lemma StripKeeps(s: string, c: char)
    requires c !in s
    ensures c !in Strip(s)
  {
    var a := LeadCount(s, IsSpace);
    assert Strip(s) == s[a..a + |Strip(s)|];
  }

  /** A formatted line reads back as itself. */
  lemma FormatLineFixed(line: string)
    requires '\n' !in line
    requires FormatLine(line) != ""
    ensures var r := FormatLine(line);
      r[|r| - 1] == '\n' && '\n' !in r[..|r| - 1] && FormatLine(r[..|r| - 1]) == r
  {
    var s := Strip(line);
    var r := FormatLine(line);
    StripByIdempotent(line, IsSpace);
    StripKeeps(line, '\n');
    if s[0] == '[' {
      assert r[..|r| - 1] == s;
    } else {
      assert r[..|r| - 1] == ['\t'] + s;
      StripLeadingSpace('\t', s);
    }
  }

  /** Formatting a line that formats to `x + "\n"` in front of more text. */
  lemma FormatCons(x: string, tail: string)
    requires '\n' !in x
    ensures Format(x + "\n" + tail) == FormatLine(x) + Format(tail)
  {
    assert x + "\n" + tail == x + ['\n'] + tail;
    SplitAtFirst(x, tail, '\n');
    var parts := Split(tail, '\n');
    assert ([x] + parts)[1..] == parts;
  }

  /** One formatted line in front of an already formatted text. */
  lemma FormatStep(line: string, tail: string)
    requires '\n' !in line
    requires Format(tail) == tail
    ensures Format(FormatLine(line) + tail) == FormatLine(line) + tail
  {
    var r := FormatLine(line);
    if r == "" {
      assert r + tail == tail;
    } else {
      FormatLineFixed(line);
      var x := r[..|r| - 1];
      assert r == x + "\n";
      FormatCons(x, tail);
    }
  }

  /** Formatting formatted lines changes nothing. */
  lemma {:induction false} FormatLinesIdempotent(lines: seq<string>)
    requires forall i :: 0 <= i < |lines| ==> '\n' !in lines[i]
    ensures Format(FormatLines(lines)) == FormatLines(lines)
  {
    if |lines| == 0 {
      assert Split("", '\n') == [""];
      assert Strip("") == "";
    } else {
      var rest := lines[1..];
      assert forall i :: 0 <= i < |rest| ==> rest[i] == lines[i + 1];
      FormatLinesIdempotent(rest);
      FormatStep(lines[0], FormatLines(rest));
    }
  }

  /** The keyring format is idempotent. */
  lemma FormatIdempotent(content: string)
    ensures Format(Format(content)) == Format(content)
  {
    FormatLinesIdempotent(Split(content, '\n'));
  }

  // ---------------------------------------------------------------- create, write, remove

  /** Where the generator is told to write: `<scratch>/keyring`. */
  function ScratchKey(env: Env): Path {
    env.scratch + "/keyring"
  }

  /** The body of create once the keyring path is known.  An existing keyring
      is returned as it is and nothing runs.  Otherwise the generator runs in
      a scratch directory, its exit status unread, and the file it left is
      returned (reading a missing one raises IOError); the scratch directory
      is removed on every path, including a generator command that could not
      be built. */
  function Generate(env: Env, w: World, path: Path, argv: Result<Argv>): (o: Out<string>)
    ensures path in w.files ==> o == Out(w, Ok(w.files[path]))
    ensures path !in w.files ==> env.scratch !in o.w.dirs
    ensures path !in w.files && argv.Err? ==>
      o.r == Err(argv.error) && o.w.trace == w.trace + [TempMade(env.scratch), TreeRemoved(env.scratch)]
    ensures path !in w.files && argv.Ok? ==>
      o.w.trace == w.trace + [TempMade(env.scratch), Ran(argv.value), TreeRemoved(env.scratch)]
    ensures path !in w.files && argv.Ok? ==>
      var made := Execute(env, MakeTemp(env, w), argv.value).0.files;
      (o.r.Ok? <==> ScratchKey(env) in made) && (o.r.Ok? ==> o.r.value == made[ScratchKey(env)])
  {
    if path in w.files then Out(w, Ok(w.files[path]))
    else
      var w1 := MakeTemp(env, w);
      match argv
      case Err(e) => Out(RemoveTree(w1, env.scratch), Err(e))
      case Ok(a) =>
        var w2 := Execute(env, w1, a).0;
        var r := if ScratchKey(env) in w2.files then Ok(w2.files[ScratchKey(env)])
                 else Raise(Builtin, "IOError: No such file or directory: " + ScratchKey(env));
        Out(RemoveTree(w2, env.scratch), r)
  }

  /** The generator's exit status plays no part: whatever it returns, the
      file it wrote is the result. */
  lemma GenerateIgnoresStatus(env: Env, w: World, path: Path, argv: Argv)
    requires path !in w.files && env.scratch != ScratchKey(env)
    requires ScratchKey(env) in env.run(MakeTemp(env, w).trace, argv).writes
    ensures Generate(env, w, path, Ok(argv)).r == Ok(env.run(MakeTemp(env, w).trace, argv).writes[ScratchKey(env)])
  {
  }

  /** The write part of write: an existing file is left alone; otherwise the
      parent directory is made when missing and the formatted text written. */
  function WriteKeyring(w: World, path: Path, content: string): (o: Out<bool>)
    ensures o.r == Ok(true)
    ensures path in w.files ==> o.w == w
    ensures path !in w.files ==> o.w.files == w.files[path := Format(content)] && DirName(path) in o.w.dirs
    ensures path !in w.files ==>
      o.w.trace == w.trace + (if DirName(path) in w.dirs then [] else [DirsMade(DirName(path))]) + [FileWritten(path)]
  {
    if path in w.files then Out(w, Ok(true))
    else
      var d := DirName(path);
      var w1 := if d in w.dirs then w else MakeDirs(w, d);
      Out(WriteFile(w1, path, Format(content)), Ok(true))
  }

  /** Writing twice is writing once: the second write finds the file. */
  lemma WriteKeyringNoClobber(w: World, path: Path, a: string, b: string)
    ensures var o := WriteKeyring(w, path, a);
      WriteKeyring(o.w, path, b) == Out(o.w, Ok(true)) && o.w.files[path] == (if path in w.files then w.files[path] else Format(a))
  {
  }

  /** The delete part of remove: a missing file is fine, a present one is
      removed, and a failed removal raises the keyring error. */
  function RemoveKeyring(env: Env, w: World, path: Path): (o: Out<bool>)
    ensures path !in w.files ==> o == Out(w, Ok(true))
    ensures path in w.files ==> (o.r.Ok? <==> env.canRemove(path))
    ensures o.r.Ok? ==> o.r.value && path !in o.w.files && o.w.files == w.files - {path}
    ensures path in w.files && o.r.Ok? ==> o.w.trace == w.trace + [FileRemoved(path)]
    ensures o.r.Err? ==> o.w == w && o.r.error.cls == KeyringError
  {
    if path !in w.files then Out(w, Ok(true))
    else
      var o := RemoveFile(env, w, path);
      if o.r.Err? then Out(o.w, Raise(KeyringError, "Keyring could not be deleted")) else Out(o.w, Ok(true))
  }

  // ---------------------------------------------------------------- the monitor gate

  /** The model an implementation keeps, the world, and the outcome, after
      one call.  A failing call leaves the model as far as it got. */
  datatype Step<+T> = Step(m: Model, w: World, r: Result<T>)

  /** The last two checks of the monitor gate: this host is a member, and
      the local monitor's status is fetched. */
  function MemberStatus(env: Env, w: World, m: Model): (s: Step<()>)
    requires m.hostname.Some?
    ensures s.r.Ok? ==> m.clusterName.Some? && s.m.hostname == m.hostname && s.m.clusterName == m.clusterName
    ensures s.r.Ok? ==> s.m.monMembers == m.monMembers && MonIs(m) == Ok(true)
    ensures s.w != w || s.r.Ok? ==> m.clusterName.Some? && s.w.trace == w.trace + [Ran(MonStatusArgv(m.clusterName.value, m.hostname.value))]
    ensures MonIs(m) == Ok(false) ==> s == Step(m, w, Raise(KeyringError, "Not ruining a mon daemon"))
  {
    if MonIs(m) != Ok(true) then Step(m, w, Raise(KeyringError, "Not ruining a mon daemon"))
    else
      var o := MonStatus(env, w, m);
      if o.r.Err? then Step(m, o.w, Err(o.r.error)) else Step(o.r.value, o.w, Ok(()))
  }

  /** The checks auth_add and auth_del make before calling `ceph auth`: the
      cluster configuration loads, its monitor members are read (a missing
      option raising `optionErr`), this host is one of them, and the local
      monitor's status is fetched. */
  function MonGate(env: Env, w: World, m: Model, optionErr: ErrClass): (s: Step<()>)
    requires m.hostname.Some?
    ensures s.r.Ok? ==> m.clusterName.Some? && s.m.hostname == m.hostname && s.m.clusterName == m.clusterName
    ensures s.r.Ok? ==> MonIs(s.m) == Ok(true)
    ensures s.w != w || s.r.Ok? ==> m.clusterName.Some? && s.w.trace == w.trace + [Ran(MonStatusArgv(m.clusterName.value, m.hostname.value))]
    ensures LoadConfig(env, w, m, Show(m.clusterName)).Err? ==> s == Step(m, w, Err(LoadConfig(env, w, m, Show(m.clusterName)).error))
    ensures var l := LoadConfig(env, w, m, Show(m.clusterName));
      l.Ok? && MonMembersRefresh(env, l.value, optionErr).Ok? && MonIs(MonMembersRefresh(env, l.value, optionErr).value) == Ok(false) ==>
        s.w == w && s.r.Err? && s.r.error.cls == KeyringError
  {
    match LoadConfig(env, w, m, Show(m.clusterName))
    case Err(e) => Step(m, w, Err(e))
    case Ok(m1) =>
      match MonMembersRefresh(env, m1, optionErr)
      case Err(e) => Step(m1, w, Err(e))
      case Ok(m2) => MemberStatus(env, w, m2)
  }

  /** The whole precondition of the `ceph auth` call: the monitor gate, then
      quorum. */
  function AuthGate(env: Env, w: World, m: Model): (s: Step<()>)
    requires m.hostname.Some?
    ensures s.r.Ok? ==> MonGate(env, w, m, UpdaterError).r.Ok? && s.m == MonGate(env, w, m, UpdaterError).m
    ensures s.r.Ok? ==> MonIs(s.m) == Ok(true) && MonQuorum(s.m) == Ok(true)
    ensures s.r.Ok? ==> m.clusterName.Some? && s.w.trace == w.trace + [Ran(MonStatusArgv(m.clusterName.value, m.hostname.value))]
    ensures MonGate(env, w, m, UpdaterError).r.Err? ==> s == MonGate(env, w, m, UpdaterError)
    ensures s.w == MonGate(env, w, m, UpdaterError).w
    ensures MonGate(env, w, m, UpdaterError).r.Ok? && MonQuorum(MonGate(env, w, m, UpdaterError).m) == Ok(false)
      ==> s.r.Err? && s.r.error.cls == KeyringError
  {
    var g := MonGate(env, w, m, UpdaterError);
    if g.r.Err? then g
    else
      match MonQuorum(g.m)
      case Err(e) => Step(g.m, g.w, Err(e))
      case Ok(q) => if q then g else Step(g.m, g.w, Raise(KeyringError, "mon daemon is not in quorum"))
  }

  // ---------------------------------------------------------------- implementations

  /** A keyring implementation: its role, its principal, and the model it
      keeps between calls. */
  datatype Impl = Impl(role: Role, principal: string, m: Model)

  /** What every implementation call does first: apply the cluster
      arguments, refresh the hostname (not in remove), and resolve defaults
      when no cluster name was given. */
  function Prologue(env: Env, w: World, m: Model, a: ClusterArgs, refreshHost: bool): (p: (Model, Result<()>))
    ensures p.0.clusterUuid == a.clusterUuid || a.clusterName.None?
    ensures p.0.hostname == (if refreshHost then Some(env.node) else m.hostname)
    ensures p.0.conf == m.conf && p.0.monMembers == m.monMembers && p.0.monStatus == m.monStatus
    ensures a.clusterName.Some? ==> p.1.Ok? && p.0.clusterName == a.clusterName && p.0.clusterUuid == a.clusterUuid
    ensures a.clusterName.None? && a.clusterUuid.None? ==> p.0.clusterName == Some("ceph")
    ensures a.clusterName.None? && a.clusterUuid.Some? ==> p.1.Ok? && p.0.clusterName == env.nameFromUuid
  {
    var m1 := KargsApply(m, a);
    var m2 := if refreshHost then HostnameRefresh(env, m1) else m1;
    if m2.clusterName.Some? then (m2, Ok(()))
    else Defaulted(env, w, m2)
  }

  /** The defaults of a model with no cluster name; when the lookup raises,
      the name "ceph" is kept with the error. */
  function Defaulted(env: Env, w: World, m: Model): (p: (Model, Result<()>))
    requires m.clusterName.None?
    ensures p.0.hostname == m.hostname
    ensures p.0.conf == m.conf && p.0.monMembers == m.monMembers && p.0.monStatus == m.monStatus
    ensures m.clusterUuid.None? ==> p.0.clusterName == Some("ceph")
    ensures m.clusterUuid.Some? ==> p.1.Ok? && p.0.clusterName == env.nameFromUuid
  {
    match DefaultsRefresh(env, w, m)
    case Ok(m3) => (m3, Ok(()))
    case Err(e) => (m.(clusterName := Some("ceph")), Err(e))
  }

  /** create: the prologue, the keyring path, then Generate. */
  function ImplCreate(env: Env, w: World, imp: Impl, a: ClusterArgs, key: Option<string>): (s: Step<string>)
    ensures var p := Prologue(env, w, imp.m, a, true);
      s.m == p.0
      && (p.1.Err? ==> s == Step(p.0, w, Err(p.1.error)))
      && (p.1.Ok? && KeyringPath(imp.role, p.0).Err? ==> s == Step(p.0, w, Err(KeyringPath(imp.role, p.0).error)))
      && (p.1.Ok? && KeyringPath(imp.role, p.0).Ok? ==>
            Out(s.w, s.r) == Generate(env, w, KeyringPath(imp.role, p.0).value, CreateArgv(imp.role, imp.principal, ScratchKey(env), key)))
  {
    var (m1, pr) := Prologue(env, w, imp.m, a, true);
    if pr.Err? then Step(m1, w, Err(pr.error))
    else
      match KeyringPath(imp.role, m1)
      case Err(e) => Step(m1, w, Err(e))
      case Ok(path) =>
        var o := Generate(env, w, path, CreateArgv(imp.role, imp.principal, ScratchKey(env), key));
        Step(m1, o.w, o.r)
  }

  /** write: the prologue, the keyring path, then the no-clobber write. */
  function ImplWrite(env: Env, w: World, imp: Impl, a: ClusterArgs, content: string): (s: Step<bool>)
    ensures var p := Prologue(env, w, imp.m, a, true);
      s.m == p.0
      && (s.r.Ok? <==> p.1.Ok? && KeyringPath(imp.role, p.0).Ok?)
      && (s.r.Err? ==> s.w == w)
      && (s.r.Ok? ==> Out(s.w, s.r) == WriteKeyring(w, KeyringPath(imp.role, p.0).value, content))
  {
    var (m1, pr) := Prologue(env, w, imp.m, a, true);
    if pr.Err? then Step(m1, w, Err(pr.error))
    else
      match KeyringPath(imp.role, m1)
      case Err(e) => Step(m1, w, Err(e))
      case Ok(path) =>
        var o := WriteKeyring(w, path, content);
        Step(m1, o.w, o.r)
  }

  /** remove: the prologue without a hostname refresh, the keyring path, then
      the tolerant delete. */
  function ImplRemove(env: Env, w: World, imp: Impl, a: ClusterArgs): (s: Step<bool>)
    ensures var p := Prologue(env, w, imp.m, a, false);
      s.m == p.0
      && (p.1.Ok? && KeyringPath(imp.role, p.0).Ok? ==> Out(s.w, s.r) == RemoveKeyring(env, w, KeyringPath(imp.role, p.0).value))
      && (!(p.1.Ok? && KeyringPath(imp.role, p.0).Ok?) ==> s.w == w && s.r.Err?)
  {
    var (m1, pr) := Prologue(env, w, imp.m, a, false);
    if pr.Err? then Step(m1, w, Err(pr.error))
    else
      match KeyringPath(imp.role, m1)
      case Err(e) => Step(m1, w, Err(e))
      case Ok(path) =>
        var o := RemoveKeyring(env, w, path);
        Step(m1, o.w, o.r)
  }

  function ImportArgv(path: Path): Argv {
    ["ceph", "auth", "import", "-i", path]
  }

  function DeleteArgv(principal: string): Argv {
    ["ceph", "auth", "del", principal]
  }

  /** Call `ceph auth` once the gate is passed; its exit status is not read. */
  function AuthCall(env: Env, w: World, m: Model, argv: Argv): (s: Step<bool>)
    requires m.hostname.Some?
    ensures s.m == AuthGate(env, w, m).m
    ensures s.r.Err? <==> AuthGate(env, w, m).r.Err?
    ensures s.r.Err? ==> s.w == AuthGate(env, w, m).w && s.r.error == AuthGate(env, w, m).r.error
    ensures s.r.Ok? ==> m.clusterName.Some?
    ensures s.r.Ok? ==> s.w.trace == w.trace + [Ran(MonStatusArgv(m.clusterName.value, m.hostname.value)), Ran(argv)]
    ensures s.r.Ok? ==> s.r.value && MonIs(s.m) == Ok(true) && MonQuorum(s.m) == Ok(true)
  {
    var g := AuthGate(env, w, m);
    if g.r.Err? then Step(g.m, g.w, Err(g.r.error))
    else
      AppendTwo(w.trace, Ran(MonStatusArgv(m.clusterName.value, m.hostname.value)), Ran(argv));
      Step(g.m, Execute(env, g.w, argv).0, Ok(true))
  }

  /** auth_add: the keyring file must exist, then the monitor gate and quorum
      must pass, and only then is the keyring imported. */
  function ImplAuthAdd(env: Env, w: World, imp: Impl, a: ClusterArgs): (s: Step<bool>)
    ensures var p := Prologue(env, w, imp.m, a, true);
      && ((p.1.Ok? && KeyringPath(imp.role, p.0).Ok? && KeyringPath(imp.role, p.0).value !in w.files) ==>
            s.w == w && s.r.Err? && s.r.error.cls == KeyringError)
      && (s.r.Ok? ==>
            (p.1.Ok? && KeyringPath(imp.role, p.0).Ok? && KeyringPath(imp.role, p.0).value in w.files
             && s == AuthCall(env, w, p.0, ImportArgv(KeyringPath(imp.role, p.0).value))))
  {
    var (m1, pr) := Prologue(env, w, imp.m, a, true);
    if pr.Err? then Step(m1, w, Err(pr.error))
    else
      match KeyringPath(imp.role, m1)
      case Err(e) => Step(m1, w, Err(e))
      case Ok(path) =>
        if path !in w.files then Step(m1, w, Raise(KeyringError, "rgw keyring not found"))
        else AuthCall(env, w, m1, ImportArgv(path))
  }

  /** auth_del: no file check; the monitor gate and quorum, then the
      principal is deleted. */
  function ImplAuthDel(env: Env, w: World, imp: Impl, a: ClusterArgs): (s: Step<bool>)
    ensures var p := Prologue(env, w, imp.m, a, true);
      (p.1.Err? ==> s == Step(p.0, w, Err(p.1.error)))
      && (p.1.Ok? ==> s == AuthCall(env, w, p.0, DeleteArgv(imp.principal)))
  {
    var (m1, pr) := Prologue(env, w, imp.m, a, true);
    if pr.Err? then Step(m1, w, Err(pr.error))
    else AuthCall(env, w, m1, DeleteArgv(imp.principal))
  }

  /** create_and_save: only the monitor implementation has it (any other
      raises AttributeError); it creates with the given key and writes the
      result, both with the same arguments. */
  function ImplCreateAndSave(env: Env, w: World, imp: Impl, a: ClusterArgs, key: Option<string>): (s: Step<bool>)
    ensures imp.role != Mon ==> s == Step(imp.m, w, Raise(Builtin, "AttributeError: no attribute 'create_and_save'"))
    ensures imp.role == Mon && ImplCreate(env, w, imp, a, key).r.Err? ==> s.r.Err? && s.w == ImplCreate(env, w, imp, a, key).w
    ensures imp.role == Mon && ImplCreate(env, w, imp, a, key).r.Ok? ==>
      var c := ImplCreate(env, w, imp, a, key);
      s == ImplWrite(env, c.w, imp.(m := c.m), a, c.r.value)
  {
    if imp.role != Mon then Step(imp.m, w, Raise(Builtin, "AttributeError: no attribute 'create_and_save'"))
    else
      var c := ImplCreate(env, w, imp, a, key);
      if c.r.Err? then Step(c.m, c.w, Err(c.r.error))
      else ImplWrite(env, c.w, imp.(m := c.m), a, c.r.value)
  }

  // ---------------------------------------------------------------- facade

  /** The facade's state: the selected key type and its implementation. */
  datatype Keyrings = Keyrings(keyType: Option<string>, imp: Option<Impl>)

  const NoKeyrings := Keyrings(None, None)

  /** The principal each implementation authorises as.  The monitor's is
      `mon.<host>`. */
  function Principal(env: Env, role: Role): (p: string)
    ensures role == Admin ==> p == "client.admin"
    ensures role == Mon ==> p == "mon." + env.node
    ensures role in {Mds, Osd, Rgw} ==> p == "client.bootstrap-" + RoleName(role)
  {
    match role
    case Admin => "client.admin"
    case Mon => "mon." + env.node
    case _ => BootstrapPrincipal(role)
  }

  /** The key_type setter as written.  An unknown name (None included)
      clears the selection and raises.  A known name builds its implementation
      around a fresh model; the monitor's constructor concatenates "mon." with
      that model's hostname, which is still None, so selecting "mon" raises
      TypeError before anything is assigned. */
  function SelectAsWritten(env: Env, f: Keyrings, name: Option<string>): (o: (Keyrings, Result<()>))
    ensures name.None? || name.value !in KeyTypes ==> o.0 == NoKeyrings && o.1.Err? && o.1.error.cls == KeyringError
    ensures name == Some("mon") ==> o.0 == f && o.1.Err? && o.1.error.cls == Builtin
    ensures o.1.Ok? ==> name.Some? && name.value in KeyTypes - {"mon"}
  {
    if name.None? || name.value !in KeyTypes then (NoKeyrings, Raise(KeyringError, "Invalid Value"))
    else
      var role := RoleOf(name.value).value;
      if role == Mon then (f, Raise(Builtin, "TypeError: cannot concatenate 'str' and 'NoneType' objects"))
      else (Keyrings(name, Some(Impl(role, Principal(env, role), Fresh(NoArgs)))), Ok(()))
  }

  /** The key_type setter as evidently intended: the monitor's principal
      names this host. */
  function Select(env: Env, f: Keyrings, name: Option<string>): (o: (Keyrings, Result<()>))
    ensures name.None? || name.value !in KeyTypes ==> o == (NoKeyrings, Raise(KeyringError, "Invalid Value"))
    ensures o.1.Ok? <==> name.Some? && name.value in KeyTypes
    ensures o.1.Ok? ==> o.0.keyType == name && o.0.imp.Some? && RoleName(o.0.imp.value.role) == name.value
    ensures o.1.Ok? ==> o.0.imp.value.m == Fresh(NoArgs) && o.0.imp.value.principal == Principal(env, o.0.imp.value.role)
  {
    if name.None? || name.value !in KeyTypes then (NoKeyrings, Raise(KeyringError, "Invalid Value"))
    else
      var role := RoleOf(name.value).value;
      (Keyrings(name, Some(Impl(role, Principal(env, role), Fresh(NoArgs)))), Ok(()))
  }

  /** The two setters agree on every name but "mon". */
  lemma SelectAgrees(env: Env, f: Keyrings, name: Option<string>)
    requires name != Some("mon")
    ensures SelectAsWritten(env, f, name) == Select(env, f, name)
  {
  }

  /** As written, "mon" can never be selected, whatever the facade held. */
  lemma MonUnselectable(env: Env, f: Keyrings)
    ensures SelectAsWritten(env, f, Some("mon")).1.Err?
    ensures Select(env, f, Some("mon")).1.Ok?
    ensures Select(env, f, Some("mon")).0.imp.value.principal == "mon." + env.node
  {
  }

  /** One facade call. */
  datatype Call =
    | CreateCall(a: ClusterArgs, key: Option<string>)
    | WriteCall(a: ClusterArgs, content: string)
    | CreateAndSaveCall(a: ClusterArgs, key: Option<string>)
    | AuthAddCall(a: ClusterArgs)
    | AuthDelCall(a: ClusterArgs)
    | RemoveCall(a: ClusterArgs)

  /** What a facade call returns: the keyring text for create, a flag for
      the others. */
  datatype Answer = Text(text: string) | Flag(flag: bool)

  datatype FacadeStep = FacadeStep(f: Keyrings, w: World, r: Result<Answer>)

  function RunImpl(env: Env, w: World, imp: Impl, c: Call): (s: Step<Answer>)
    ensures c.CreateCall? ==> var t := ImplCreate(env, w, imp, c.a, c.key);
      s.m == t.m && s.w == t.w && (s.r.Ok? <==> t.r.Ok?) && (s.r.Ok? ==> s.r.value == Text(t.r.value))
  {
    match c
    case CreateCall(a, key) => Lift(ImplCreate(env, w, imp, a, key), x => Text(x))
    case WriteCall(a, content) => Lift(ImplWrite(env, w, imp, a, content), x => Flag(x))
    case CreateAndSaveCall(a, key) => Lift(ImplCreateAndSave(env, w, imp, a, key), x => Flag(x))
    case AuthAddCall(a) => Lift(ImplAuthAdd(env, w, imp, a), x => Flag(x))
    case AuthDelCall(a) => Lift(ImplAuthDel(env, w, imp, a), x => Flag(x))
    case RemoveCall(a) => Lift(ImplRemove(env, w, imp, a), x => Flag(x))
  }

  function Lift<T>(s: Step<T>, f: T -> Answer): (t: Step<Answer>)
    ensures t.m == s.m && t.w == s.w && (t.r.Ok? <==> s.r.Ok?)
  {
    if s.r.Err? then Step(s.m, s.w, Err(s.r.error)) else Step(s.m, s.w, Ok(f(s.r.value)))
  }

  /** Every facade operation: raises while no implementation is selected;
      otherwise runs the implementation, which keeps the model it ends
      with. */
  function Run(env: Env, w: World, f: Keyrings, c: Call): (o: FacadeStep)
    ensures f.imp.None? ==> o == FacadeStep(f, w, Raise(KeyringError, "Programming error: key type unset"))
    ensures f.imp.Some? ==> o.f.keyType == f.keyType && o.f.imp.Some? && o.f.imp.value.role == f.imp.value.role
    ensures f.imp.Some? ==> o.f.imp.value.principal == f.imp.value.principal
    ensures f.imp.Some? ==> var s := RunImpl(env, w, f.imp.value, c);
      o.w == s.w && o.r == s.r && o.f.imp.value.m == s.m
  {
    match f.imp
    case None => FacadeStep(f, w, Raise(KeyringError, "Programming error: key type unset"))
    case Some(imp) =>
      var s := RunImpl(env, w, imp, c);
      FacadeStep(f.(imp := Some(imp.(m := s.m))), s.w, s.r)
  }
}
