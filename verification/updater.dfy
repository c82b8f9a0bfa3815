/** The rest of model_updater (_modules/sesceph/mdl_updater.py): cluster
    defaults, the configuration file, the monitor member list, the monitor
    status, the `ceph auth list` parser, the pool list with idempotent pool
    add and delete, and the ceph version. */
module Updater {
  import opened Wrappers
  import opened Text
  import opened JsonData
  import opened Exec
  import opened NodeModel

  // ---------------------------------------------------------------- configuration

  function ConfPath(cluster: string): Path {
    "/etc/ceph/" + cluster + ".conf"
  }

  /** What ConfigParser.get gives: a value, or one of its two exceptions. */
  datatype Lookup = Value(v: string) | NoSection | NoOption

  function ConfGet(conf: Ini, section: string, option: string): (r: Lookup)
    ensures r.Value? <==> section in conf && option in conf[section]
    ensures r.Value? ==> r.v == conf[section][option]
  {
    if section !in conf then NoSection
    else if option !in conf[section] then NoOption
    else Value(conf[section][option])
  }

  /** ConfigParser.read of one more file: its options override, section by
      section, and sections it does not mention are kept. */
  function Merge(base: Ini, added: Ini): (r: Ini)
    ensures r.Keys == base.Keys + added.Keys
    ensures forall s, o :: s in added && o in added[s] ==> o in r[s] && r[s][o] == added[s][o]
    ensures forall s, o :: s in base && o in base[s] && !(s in added && o in added[s]) ==> o in r[s] && r[s][o] == base[s][o]
  {
    map s | s in base.Keys + added.Keys :: (if s in base then base[s] else map[]) + (if s in added then added[s] else map[])
  }

  /** The parsed configuration file of a cluster. */
  function ReadConf(env: Env, w: World, cluster: string, cls: ErrClass): (r: Result<Ini>)
    ensures ConfPath(cluster) !in w.files ==> r.Err? && r.error.cls == cls
    ensures r.Ok? ==> ConfPath(cluster) in w.files && env.ini(w.files[ConfPath(cluster)]) == Some(r.value)
    ensures r.Err? ==> r.error.cls in {cls, Builtin}
  {
    if ConfPath(cluster) !in w.files then Raise(cls, "Cluster confg file does not exist")
    else
      match env.ini(w.files[ConfPath(cluster)])
      case None => Raise(Builtin, "ConfigParser.ParsingError")
      case Some(ini) => Ok(ini)
  }

  /** utils._get_cluster_uuid_from_name: the `fsid` of the `global` section of
      the cluster's configuration file. */
  function UuidFromName(env: Env, w: World, cluster: string): (r: Result<string>)
    ensures ConfPath(cluster) !in w.files ==> r.Err? && r.error.cls == UtilsError
    ensures r.Err? ==> r.error.cls in {UtilsError, Builtin}
    ensures r.Ok? ==> var ini := ReadConf(env, w, cluster, UtilsError);
      ini.Ok? && ConfGet(ini.value, "global", "fsid") == Value(r.value)
  {
    var ini :- ReadConf(env, w, cluster, UtilsError);
    match ConfGet(ini, "global", "fsid")
    case Value(v) => Ok(v)
    case NoSection => Raise(Builtin, "ConfigParser.NoSectionError: global")
    case NoOption => Raise(UtilsError, "Cluster confg file does not set fsid")
  }

  /** hostname_refresh. */
  function HostnameRefresh(env: Env, m: Model): (m': Model)
    ensures m'.hostname == Some(env.node)
    ensures m' == m.(hostname := m'.hostname)
  {
    m.(hostname := Some(env.node))
  }

  /** defaults_refresh: no name and no uuid gives the name "ceph"; a name
      without a uuid looks the uuid up in the name's configuration file; a
      uuid without a name takes whatever name the configuration directory
      gives (possibly none).  Given both, nothing changes. */
  function DefaultsRefresh(env: Env, w: World, m: Model): (r: Result<Model>)
    ensures m.clusterName.Some? && m.clusterUuid.Some? ==> r == Ok(m)
    ensures r.Ok? ==> r.value == m.(clusterName := r.value.clusterName, clusterUuid := r.value.clusterUuid)
    ensures r.Err? ==> r.error.cls in {UtilsError, Builtin}
    ensures m.clusterName.None? && m.clusterUuid.Some? ==> r == Ok(m.(clusterName := env.nameFromUuid))
    ensures m.clusterUuid.None? ==> var name := m.clusterName.GetOr("ceph");
      (r.Ok? <==> UuidFromName(env, w, name).Ok?)
      && (r.Ok? ==> r.value == m.(clusterName := Some(name), clusterUuid := Some(UuidFromName(env, w, name).value)))
  {
    var m1 := if m.clusterName.None? && m.clusterUuid.None? then m.(clusterName := Some("ceph")) else m;
    if m1.clusterName.Some? && m1.clusterUuid.None? then
      var uuid :- UuidFromName(env, w, m1.clusterName.value);
      Ok(m1.(clusterUuid := Some(uuid)))
    else if m1.clusterName.None? && m1.clusterUuid.Some? then
      Ok(m1.(clusterName := env.nameFromUuid))
    else Ok(m1)
  }

  /** load_confg: the cluster's configuration file is read into the model's
      configuration; a missing file raises. */
  function LoadConfig(env: Env, w: World, m: Model, cluster: string): (r: Result<Model>)
    ensures ConfPath(cluster) !in w.files ==> r.Err? && r.error.cls == UpdaterError
    ensures r.Err? ==> r.error.cls in {UpdaterError, Builtin}
    ensures r.Ok? ==> var ini := ReadConf(env, w, cluster, UpdaterError);
      ini.Ok? && r.value == m.(conf := Merge(m.conf, ini.value))
  {
    var ini :- ReadConf(env, w, cluster, UpdaterError);
    Ok(m.(conf := Merge(m.conf, ini)))
  }

  // ---------------------------------------------------------------- monitor members

  /** A comma-separated configuration value, each piece stripped. */
  function CommaList(raw: string): (xs: seq<string>)
    ensures |xs| == |Split(raw, ',')| && forall i :: 0 <= i < |xs| ==> xs[i] == Strip(Split(raw, ',')[i])
  {
    var pieces := Split(raw, ',');
    seq(|pieces|, i requires 0 <= i < |pieces| => Strip(pieces[i]))
  }

  /** The pairs `(names[i], addrs[i])`. */
  function Zip(names: seq<string>, addrs: seq<string>): (z: seq<(string, string)>)
    requires |names| == |addrs|
    ensures |z| == |names|
    ensures forall i :: 0 <= i < |z| ==> z[i] == (names[i], addrs[i])
  {
    seq(|names|, i requires 0 <= i < |names| => (names[i], addrs[i]))
  }

  /** One `global` option; a missing option raises `optionErr`, a missing
      section raises NoSectionError. */
  function GlobalOption(m: Model, option: string, optionErr: ErrClass): (r: Result<string>)
    ensures r.Ok? <==> ConfGet(m.conf, "global", option).Value?
    ensures r.Ok? ==> r.value == m.conf["global"][option]
    ensures ConfGet(m.conf, "global", option).NoOption? ==> r.Err? && r.error.cls == optionErr
  {
    match ConfGet(m.conf, "global", option)
    case Value(v) => Ok(v)
    case NoSection => Raise(Builtin, "ConfigParser.NoSectionError: global")
    case NoOption => Raise(optionErr, "Cluster config file does not set " + option)
  }

  /** mon_members_refresh: when this host (platform.node(), not the model's
      hostname) is not among the configured names nothing changes; otherwise
      the names and hosts are paired positionally, and lists of different
      lengths raise.  `optionErr` is what a missing option raises:
      mdl_updater.Error here, a NameError in the legacy copy. */
  function MonMembersRefresh(env: Env, m: Model, optionErr: ErrClass): (r: Result<Model>)
    ensures r.Ok? ==> r.value == m.(monMembers := r.value.monMembers)
    ensures r.Err? ==> r.error.cls in {optionErr, UpdaterError, Builtin}
    ensures r.Ok? && r.value.monMembers != m.monMembers ==> ConfGet(m.conf, "global", "mon_initial_members").Value?
    ensures r.Ok? && r.value.monMembers != m.monMembers ==>
      var names := CommaList(ConfGet(m.conf, "global", "mon_initial_members").v);
      && env.node in names
      && |r.value.monMembers| == |names|
      && forall i :: 0 <= i < |names| ==> r.value.monMembers[i].0 == names[i]
  {
    var rawNames :- GlobalOption(m, "mon_initial_members", optionErr);
    var names := CommaList(rawNames);
    if env.node !in names then Ok(m)
    else
      var rawAddrs :- GlobalOption(m, "mon_host", optionErr);
      var addrs := CommaList(rawAddrs);
      if |names| != |addrs| then Raise(UpdaterError, "config has different numbers of mon 'names' and ip addresses")
      else Ok(m.(monMembers := Zip(names, addrs)))
  }

  /** mon_members_refresh leaves the model alone when this host is not a
      configured monitor. */
  lemma MonMembersNotMember(env: Env, m: Model, optionErr: ErrClass, rawNames: string)
    requires ConfGet(m.conf, "global", "mon_initial_members") == Value(rawNames)
    requires env.node !in CommaList(rawNames)
    ensures MonMembersRefresh(env, m, optionErr) == Ok(m)
  {
    assert GlobalOption(m, "mon_initial_members", optionErr) == Ok(rawNames);
  }

  /** Name and host lists of different lengths raise. */
  lemma MonMembersMismatch(env: Env, m: Model, optionErr: ErrClass, rawNames: string, rawAddrs: string)
    requires ConfGet(m.conf, "global", "mon_initial_members") == Value(rawNames)
    requires ConfGet(m.conf, "global", "mon_host") == Value(rawAddrs)
    requires env.node in CommaList(rawNames) && |CommaList(rawNames)| != |CommaList(rawAddrs)|
    ensures MonMembersRefresh(env, m, optionErr).Err? && MonMembersRefresh(env, m, optionErr).error.cls == UpdaterError
  {
    assert GlobalOption(m, "mon_initial_members", optionErr) == Ok(rawNames);
    assert GlobalOption(m, "mon_host", optionErr) == Ok(rawAddrs);
    assert MonMembersRefresh(env, m, optionErr)
        == Raise(UpdaterError, "config has different numbers of mon 'names' and ip addresses");
  }

  /** With this host configured and matching lists, the members are the
      names and hosts paired positionally. */
  lemma MonMembersPaired(env: Env, m: Model, optionErr: ErrClass, rawNames: string, rawAddrs: string)
    requires ConfGet(m.conf, "global", "mon_initial_members") == Value(rawNames)
    requires ConfGet(m.conf, "global", "mon_host") == Value(rawAddrs)
    requires env.node in CommaList(rawNames) && |CommaList(rawNames)| == |CommaList(rawAddrs)|
    ensures MonMembersRefresh(env, m, optionErr) == Ok(m.(monMembers := Zip(CommaList(rawNames), CommaList(rawAddrs))))
  {
    assert GlobalOption(m, "mon_initial_members", optionErr) == Ok(rawNames);
    assert GlobalOption(m, "mon_host", optionErr) == Ok(rawAddrs);
  }

  /** A missing member list raises before anything else is looked at. */
  lemma MonMembersNeedsNames(env: Env, m: Model, optionErr: ErrClass)
    requires ConfGet(m.conf, "global", "mon_initial_members").NoOption?
    ensures MonMembersRefresh(env, m, optionErr).Err? && MonMembersRefresh(env, m, optionErr).error.cls == optionErr
  {
  }

  // ---------------------------------------------------------------- monitor status

  function MonStatusArgv(cluster: string, host: string): Argv {
    ["ceph", "--cluster=" + cluster, "--admin-daemon", "/var/run/ceph/ceph-mon." + host + ".asok", "mon_status"]
  }

  /** mon_status: needs the hostname and the cluster name, asks the local
      monitor's admin socket, and stores the decoded reply. */
  function MonStatus(env: Env, w: World, m: Model): (o: Out<Model>)
    ensures o.w.dirs == w.dirs
    ensures o.w == w || (m.hostname.Some? && m.clusterName.Some? &&
      o.w.trace == w.trace + [Ran(MonStatusArgv(m.clusterName.value, m.hostname.value))])
    ensures m.hostname.None? || m.clusterName.None? ==> o.w == w && o.r.Err? && o.r.error.cls == UpdaterError
    ensures o.r.Ok? ==> m.hostname.Some? && m.clusterName.Some?
    ensures o.r.Ok? ==>
      (var argv := MonStatusArgv(m.clusterName.value, m.hostname.value);
       && o.w.trace == w.trace + [Ran(argv)]
       && env.run(w.trace, argv).retcode == 0
       && Some(o.r.value.monStatus) == env.json(env.run(w.trace, argv).stdout)
       && o.r.value == m.(monStatus := o.r.value.monStatus))
  {
    if m.hostname.None? then Out(w, Raise(UpdaterError, "Hostname not set"))
    else if m.clusterName.None? then Out(w, Raise(UpdaterError, "cluster_name not set"))
    else
      var argv := MonStatusArgv(m.clusterName.value, m.hostname.value);
      var o := ExecuteChecked(env, w, argv, UpdaterError, "Failed executing mon_status");
      if o.r.Err? then Out(o.w, Err(o.r.error))
      else
        match env.json(o.r.value.stdout)
        case None => Out(o.w, Raise(Builtin, "ValueError: No JSON object could be decoded"))
        case Some(j) => Out(o.w, Ok(m.(monStatus := j)))
  }

  // ---------------------------------------------------------------- auth list

  /** The finished sections and the one being read. */
  datatype AuthState = AuthState(out: map<string, AuthSection>, sec: AuthSection)

  const EmptySection := AuthSection(None, None, None)

  /** The sections once the current one is filed under its name, if it has one. */
  function Flush(st: AuthState): map<string, AuthSection> {
    if st.sec.name.Some? then st.out[st.sec.name.value := st.sec] else st.out
  }

  /** A line that opens a section. */
  predicate IsHeader(line: string) {
    |line| > 0 && line[0] != '\t'
  }

  /** The key a body line sets: the second word of a tab line whose first
      word is `key:`. */
  function KeyLine(env: Env, line: string): Option<string> {
    if |line| == 0 then None
    else
      var toks := env.lex(line);
      if |toks| >= 2 && toks[0] == "key:" then Some(toks[1]) else None
  }

  /** The caps a body line adds: the words after a leading `caps:`. */
  function CapLine(env: Env, line: string): seq<seq<string>> {
    if |line| == 0 then []
    else
      var toks := env.lex(line);
      if |toks| > 0 && toks[0] == "caps:" then [toks[1..]] else []
  }

  /** A body line whose `key:` has no second word. */
  predicate BadKeyLine(env: Env, line: string) {
    |line| > 0 && line[0] == '\t' && |env.lex(line)| > 0 && env.lex(line)[0] == "key:" && |env.lex(line)| < 2
  }

  /** The key of a block: the one set by its last `key:` line. */
  function KeyOf(env: Env, body: seq<string>): Option<string>
    decreases |body|
  {
    if |body| == 0 then None
    else
      var later := KeyOf(env, body[1..]);
      if later.Some? then later else KeyLine(env, body[0])
  }

  /** The caps of a block: those of its `caps:` lines, in order. */
  function CapsOf(env: Env, body: seq<string>): seq<seq<string>>
    decreases |body|
  {
    if |body| == 0 then [] else CapLine(env, body[0]) + CapsOf(env, body[1..])
  }

  /** A section after it has read the lines of `body`. */
  function Absorb(env: Env, sec: AuthSection, body: seq<string>): AuthSection {
    var key := KeyOf(env, body);
    var caps := CapsOf(env, body);
    sec.(key := if key.Some? then key else sec.key,
         caps := if |caps| == 0 then sec.caps else Some(sec.caps.GetOr([]) + caps))
  }

  /** The body lines at the head of `lines`: those before the next header. */
  function Body(lines: seq<string>): (b: seq<string>)
    ensures |b| <= |lines| && b == lines[..|b|]
    ensures forall i :: 0 <= i < |b| ==> !IsHeader(b[i])
    ensures |b| < |lines| ==> IsHeader(lines[|b|])
    decreases |lines|
  {
    if |lines| == 0 || IsHeader(lines[0]) then [] else [lines[0]] + Body(lines[1..])
  }

  /** Each header of `lines`, in order, with the body that follows it. */
  function Blocks(lines: seq<string>): seq<(string, seq<string>)>
    decreases |lines|
  {
    if |lines| == 0 then []
    else if IsHeader(lines[0]) then [(lines[0], Body(lines[1..]))] + Blocks(lines[1..])
    else Blocks(lines[1..])
  }

  /** The sections the blocks describe, a later block replacing an earlier
      one of the same name. */
  function FileBlocks(env: Env, out: map<string, AuthSection>, blocks: seq<(string, seq<string>)>): map<string, AuthSection>
    decreases |blocks|
  {
    if |blocks| == 0 then out
    else
      var h := blocks[0].0;
      FileBlocks(env, out[h := Absorb(env, AuthSection(Some(h), None, None), blocks[0].1)], blocks[1..])
  }

  /** One line of `ceph auth list`: empty lines are skipped; a header files
      the current section and opens one named by the whole line; a tab line
      whose first word is `key:` sets the key (a missing second word raises
      IndexError) and one whose first word is `caps:` appends its remaining
      words to the caps. */
  function AuthLine(env: Env, st: AuthState, line: string): (r: Result<AuthState>)
    ensures r.Err? <==> BadKeyLine(env, line)
    ensures r.Err? ==> r.error.cls == Builtin
    ensures r.Ok? && IsHeader(line) ==> r.value == AuthState(Flush(st), AuthSection(Some(line), None, None))
    ensures r.Ok? && !IsHeader(line) ==> r.value == st.(sec := Absorb(env, st.sec, [line]))
  {
    AbsorbOne(env, st.sec, line);
    if |line| == 0 then Ok(st)
    else if line[0] != '\t' then Ok(AuthState(Flush(st), AuthSection(Some(line), None, None)))
    else
      var toks := env.lex(line);
      if |toks| == 0 then Ok(st)
      else if toks[0] == "key:" then
        if |toks| < 2 then Raise(Builtin, "IndexError: list index out of range")
        else Ok(st.(sec := st.sec.(key := Some(toks[1]))))
      else if toks[0] == "caps:" then
        Ok(st.(sec := st.sec.(caps := Some(st.sec.caps.GetOr([]) + [toks[1..]]))))
      else Ok(st)
  }

  function AuthLines(env: Env, st: AuthState, lines: seq<string>): Result<AuthState>
    decreases |lines|
  {
    if |lines| == 0 then Ok(st)
    else
      var st1 :- AuthLine(env, st, lines[0]);
      AuthLines(env, st1, lines[1..])
  }

  /** The parse of the whole output: all lines, then the last section filed. */
  function ParseAuthList(env: Env, stdout: string): Result<map<string, AuthSection>> {
    var st :- AuthLines(env, AuthState(map[], EmptySection), Split(stdout, '\n'));
    Ok(Flush(st))
  }

  function Headers(lines: seq<string>): set<string> {
    set i | 0 <= i < |lines| && IsHeader(lines[i]) :: lines[i]
  }

  /** Every filed section is filed under its own name. */
  predicate NamedByKey(out: map<string, AuthSection>) {
    forall k :: k in out ==> out[k].name == Some(k)
  }

  lemma {:induction false} AuthLinesSpec(env: Env, st: AuthState, lines: seq<string>)
    requires NamedByKey(st.out)
    ensures var r := AuthLines(env, st, lines);
      r.Ok? ==> Flush(r.value).Keys == Flush(st).Keys + Headers(lines) && NamedByKey(r.value.out) && NamedByKey(Flush(r.value))
    decreases |lines|
  {
    if |lines| > 0 {
      var rest := lines[1..];
      assert Headers(lines) == (if IsHeader(lines[0]) then {lines[0]} else {}) + Headers(rest) by {
        assert forall i :: 0 <= i < |rest| ==> rest[i] == lines[i + 1];
        forall x | x in Headers(lines) ensures x in (if IsHeader(lines[0]) then {lines[0]} else {}) + Headers(rest) {
          var i :| 0 <= i < |lines| && IsHeader(lines[i]) && lines[i] == x;
          if i > 0 { assert rest[i - 1] == lines[i]; }
        }
      }
      var st1 := AuthLine(env, st, lines[0]);
      if st1.Ok? {
        AuthLinesSpec(env, st1.value, rest);
      }
    }
  }

  /** A block of one line contributes that line's key and caps. */
  lemma AbsorbOne(env: Env, sec: AuthSection, line: string)
    ensures KeyOf(env, [line]) == KeyLine(env, line) && CapsOf(env, [line]) == CapLine(env, line)
  {
    assert [line][1..] == [];
  }

  /** Reading a body line and then a body is reading the longer body. */
  lemma AbsorbCons(env: Env, sec: AuthSection, line: string, body: seq<string>)
    ensures Absorb(env, Absorb(env, sec, [line]), body) == Absorb(env, sec, [line] + body)
  {
    var lb := [line] + body;
    assert lb[1..] == body;
    AbsorbOne(env, sec, line);
    var c1, cb := CapLine(env, line), CapsOf(env, body);
    assert CapsOf(env, lb) == c1 + cb;
    if |c1| == 0 {
      assert c1 + cb == cb;
    } else if |cb| > 0 {
      assert sec.caps.GetOr([]) + c1 + cb == sec.caps.GetOr([]) + (c1 + cb);
    } else {
      assert c1 + cb == c1;
    }
  }

  /** The parser, from any state, ends with the current section read to the
      next header and then each block filed in turn. */
  lemma {:induction false} AuthLinesBlocks(env: Env, st: AuthState, lines: seq<string>)
    ensures var r := AuthLines(env, st, lines);
      r.Ok? ==> Flush(r.value) == FileBlocks(env, Flush(st.(sec := Absorb(env, st.sec, Body(lines)))), Blocks(lines))
    decreases |lines|
  {
    if |lines| > 0 {
      var rest := lines[1..];
      var r1 := AuthLine(env, st, lines[0]);
      if r1.Ok? {
        AuthLinesBlocks(env, r1.value, rest);
        if !IsHeader(lines[0]) {
          AbsorbCons(env, st.sec, lines[0], Body(rest));
        } else {
          assert Absorb(env, st.sec, []) == st.sec;
        }
      }
    } else {
      assert Absorb(env, st.sec, []) == st.sec;
    }
  }

  /** The parser fails exactly when some body line has a `key:` with no
      value. */
  lemma {:induction false} AuthLinesFails(env: Env, st: AuthState, lines: seq<string>)
    ensures AuthLines(env, st, lines).Err? <==> exists i :: 0 <= i < |lines| && BadKeyLine(env, lines[i])
    decreases |lines|
  {
    if |lines| > 0 {
      var rest := lines[1..];
      assert forall i :: 0 <= i < |rest| ==> rest[i] == lines[i + 1];
      var r1 := AuthLine(env, st, lines[0]);
      if r1.Ok? {
        AuthLinesFails(env, r1.value, rest);
        if exists i :: 0 <= i < |lines| && BadKeyLine(env, lines[i]) {
          var i :| 0 <= i < |lines| && BadKeyLine(env, lines[i]);
          assert i > 0 && BadKeyLine(env, rest[i - 1]);
        }
      }
    }
  }

  /** The parsed sections are exactly the header lines, each under its own
      name. */
  lemma ParseAuthListKeys(env: Env, stdout: string)
    ensures var r := ParseAuthList(env, stdout);
      r.Ok? ==> r.value.Keys == Headers(Split(stdout, '\n')) && NamedByKey(r.value)
  {
    AuthLinesSpec(env, AuthState(map[], EmptySection), Split(stdout, '\n'));
  }

  /** The parse fails exactly on a `key:` line with no value, and otherwise
      files, for each header block, the key of its last `key:` line and the
      caps of its `caps:` lines in order (None when there are none), a later
      block of the same name replacing an earlier one; lines before the
      first header are dropped. */
  lemma ParseAuthListSpec(env: Env, stdout: string)
    ensures ParseAuthList(env, stdout).Err? <==> exists i :: 0 <= i < |Split(stdout, '\n')| && BadKeyLine(env, Split(stdout, '\n')[i])
    ensures ParseAuthList(env, stdout).Ok? ==> ParseAuthList(env, stdout).value == FileBlocks(env, map[], Blocks(Split(stdout, '\n')))
  {
    var lines := Split(stdout, '\n');
    var st := AuthState(map[], EmptySection);
    var r := AuthLines(env, st, lines);
    AuthLinesFails(env, st, lines);
    if r.Ok? {
      assert ParseAuthList(env, stdout) == Ok(Flush(r.value));
      AuthLinesBlocks(env, st, lines);
      assert Absorb(env, EmptySection, Body(lines)).name == None;
    } else {
      var i :| 0 <= i < |lines| && BadKeyLine(env, lines[i]);
      assert exists k :: 0 <= k < |Split(stdout, '\n')| && BadKeyLine(env, Split(stdout, '\n')[k]);
      assert ParseAuthList(env, stdout).Err?;
    }
  }

  const AuthListArgv: Argv := ["ceph", "auth", "list"]

  /** auth_list: the parsed sections replace the model's. */
  function AuthListRefresh(env: Env, w: World, m: Model): (o: Out<Model>)
    ensures o.w.trace == w.trace + [Ran(AuthListArgv)]
    ensures env.run(w.trace, AuthListArgv).retcode != 0 ==> o.r.Err? && o.r.error.cls == UpdaterError
    ensures env.run(w.trace, AuthListArgv).retcode == 0 ==>
      (o.r.Err? <==> ParseAuthList(env, env.run(w.trace, AuthListArgv).stdout).Err?)
    ensures o.r.Ok? ==> o.r.value == m.(authList := Some(ParseAuthList(env, env.run(w.trace, AuthListArgv).stdout).value))
  {
    var o := ExecuteChecked(env, w, AuthListArgv, UpdaterError, "Failed executing ceph auth list");
    if o.r.Err? then Out(o.w, Err(o.r.error))
    else
      match ParseAuthList(env, o.r.value.stdout)
      case Err(e) => Out(o.w, Err(e))
      case Ok(a) => Out(o.w, Ok(m.(authList := Some(a))))
  }

  // ---------------------------------------------------------------- pools

  const PoolListArgv: Argv := ["ceph", "-f", "json", "osd", "lspools"]

  /** The name and the number `item.get` reads from one listed pool. */
  function PoolName(item: Json): Json
    requires item.JObj?
  {
    Get(item.fields, "poolname")
  }

  /** The value stored for one listed pool: `{"poolnum": n}`. */
  function PoolDetail(item: Json): (v: Json)
    requires item.JObj?
    ensures v.JObj? && v.fields.Keys == {"poolnum"} && v.fields["poolnum"] == Get(item.fields, "poolnum")
  {
    JObj(map["poolnum" := Get(item.fields, "poolnum")])
  }

  /** A listed pool that `item.get` and `details[pool_name] = …` accept: an
      object whose name can be a dictionary key. */
  predicate PoolItemOk(item: Json) {
    item.JObj? && Hashable(PoolName(item))
  }

  /** Item `i` is the last listed pool of its name. */
  predicate LastOfName(items: seq<Json>, i: int) {
    0 <= i < |items| && items[i].JObj?
    && forall k :: i < k < |items| && items[k].JObj? ==> PoolName(items[k]) != PoolName(items[i])
  }

  /** The pool map of a decoded `osd lspools` reply: pool name to
      `{"poolnum": n}`, either of which may be null.  Python iterates
      whatever the reply is: an empty list, object or string gives no
      pools; a non-empty object or string yields keys or characters, which
      have no `get`; anything else cannot be iterated. */
  function PoolMap(j: Json): (r: Result<map<Json, Json>>)
    ensures j.JList? ==> (r.Ok? <==> forall i :: 0 <= i < |j.items| ==> PoolItemOk(j.items[i]))
    ensures r.Ok? && j.JList? ==> r.value.Keys == set i | 0 <= i < |j.items| && j.items[i].JObj? :: PoolName(j.items[i])
    ensures r.Ok? && j.JList? ==>
      forall i :: LastOfName(j.items, i) ==> r.value[PoolName(j.items[i])] == PoolDetail(j.items[i])
    ensures (j.JObj? || j.JStr?) ==> (r.Ok? <==> r == Ok(map[]))
    ensures j.JNum? || j.JBool? || j.JNull? ==> r.Err?
    ensures r.Err? ==> r.error.cls == Builtin
  {
    match j
    case JList(items) => PoolEntries(items)
    case JObj(fields) => if |fields| == 0 then Ok(map[]) else Raise(Builtin, "AttributeError: 'str' object has no attribute 'get'")
    case JStr(s) => if |s| == 0 then Ok(map[]) else Raise(Builtin, "AttributeError: 'str' object has no attribute 'get'")
    case _ => Raise(Builtin, "TypeError: object is not iterable")
  }

  /** The names of the listed pools. */
  function ListedNames(items: seq<Json>): set<Json> {
    set i | 0 <= i < |items| && items[i].JObj? :: PoolName(items[i])
  }

  /** The loop of pool_list, item by item: a non-object item has no `get`,
      an unhashable name cannot be a key, and a later item overwrites an
      earlier one of the same name. */
  function PoolEntries(items: seq<Json>): (r: Result<map<Json, Json>>)
    ensures r.Ok? <==> forall i :: 0 <= i < |items| ==> PoolItemOk(items[i])
    ensures r.Err? ==> r.error.cls == Builtin
    ensures r.Ok? ==> r.value.Keys == ListedNames(items)
    ensures r.Ok? ==> forall i :: LastOfName(items, i) ==> r.value[PoolName(items[i])] == PoolDetail(items[i])
    decreases |items|
  {
    if |items| == 0 then Ok(map[])
    else
      var n := |items| - 1;
      PoolItemsStep(items);
      match PoolEntries(items[..n])
      case Err(e) => Err(e)
      case Ok(m) =>
        if !items[n].JObj? then Raise(Builtin, "AttributeError: object has no attribute 'get'")
        else if !Hashable(PoolName(items[n])) then Raise(Builtin, "TypeError: unhashable type")
        else
          PoolKeysStep(items, m);
          PoolValuesStep(items, items[..n], m);
          Ok(m[PoolName(items[n]) := PoolDetail(items[n])])
  }

  /** Every item is accepted exactly when all but the last are and the last is. */
  lemma PoolItemsStep(items: seq<Json>)
    requires |items| > 0
    ensures var n := |items| - 1;
      (forall i :: 0 <= i < |items| ==> PoolItemOk(items[i])) <==>
      (forall i :: 0 <= i < n ==> PoolItemOk(items[..n][i])) && PoolItemOk(items[n])
  {
    var n := |items| - 1;
    assert forall i :: 0 <= i < n ==> items[..n][i] == items[i];
  }

  /** Adding the last item's name to the names of the others. */
  lemma PoolKeysStep(items: seq<Json>, m: map<Json, Json>)
    requires |items| > 0 && items[|items| - 1].JObj?
    requires m.Keys == ListedNames(items[..|items| - 1])
    ensures var n := |items| - 1; m[PoolName(items[n]) := PoolDetail(items[n])].Keys == ListedNames(items)
  {
    var n := |items| - 1;
    var front := items[..n];
    assert forall i :: 0 <= i < n ==> front[i] == items[i];
    forall x | x in ListedNames(items)
      ensures x in ListedNames(front) || x == PoolName(items[n])
    {
      var i :| 0 <= i < |items| && items[i].JObj? && PoolName(items[i]) == x;
      if i < n {
        assert x in ListedNames(front);
      }
    }
  }

  /** Adding the last item keeps the last-wins values. */
  lemma PoolValuesStep(items: seq<Json>, front: seq<Json>, m: map<Json, Json>)
    requires |items| > 0 && items[|items| - 1].JObj? && front == items[..|items| - 1]
    requires m.Keys == ListedNames(front)
    requires forall i :: LastOfName(front, i) ==> m[PoolName(front[i])] == PoolDetail(front[i])
    ensures var n := |items| - 1; var r := m[PoolName(items[n]) := PoolDetail(items[n])];
      forall i :: LastOfName(items, i) ==> r[PoolName(items[i])] == PoolDetail(items[i])
  {
    var n := |items| - 1;
    forall i | LastOfName(items, i) && i < n
      ensures LastOfName(front, i) && front[i] == items[i]
    {
      assert forall k :: i < k < n ==> front[k] == items[k];
    }
  }

  /** A listed pool's name is also listed by a last pool of that name. */
  lemma {:induction false} LastOfNameExists(items: seq<Json>, i: int)
    requires 0 <= i < |items| && items[i].JObj?
    ensures exists j :: LastOfName(items, j) && PoolName(items[j]) == PoolName(items[i])
    decreases |items| - i
  {
    if !LastOfName(items, i) {
      var k :| i < k < |items| && items[k].JObj? && PoolName(items[k]) == PoolName(items[i]);
      LastOfNameExists(items, k);
    }
  }

  /** Every key of an accepted pool map holds `{"poolnum": n}` for the last
      pool listed under that name, and no other value. */
  lemma PoolMapLastWins(j: Json)
    requires j.JList? && PoolMap(j).Ok?
    ensures forall k :: k in PoolMap(j).value ==>
      exists i :: LastOfName(j.items, i) && PoolName(j.items[i]) == k && PoolMap(j).value[k] == PoolDetail(j.items[i])
  {
    forall k | k in PoolMap(j).value
      ensures exists i :: LastOfName(j.items, i) && PoolName(j.items[i]) == k && PoolMap(j).value[k] == PoolDetail(j.items[i])
    {
      var i :| 0 <= i < |j.items| && j.items[i].JObj? && PoolName(j.items[i]) == k;
      LastOfNameExists(j.items, i);
    }
  }

  /** pool_list: the decoded pool map replaces the model's. */
  function PoolList(env: Env, w: World, m: Model): (o: Out<Model>)
    ensures o.w.trace == w.trace + [Ran(PoolListArgv)]
    ensures env.run(w.trace, PoolListArgv).retcode != 0 ==> o.r.Err? && o.r.error.cls == UpdaterError
    ensures o.r.Ok? ==> o.r.value == m.(poolList := o.r.value.poolList) && o.r.value.poolList.Some?
    ensures o.r.Ok? <==>
      var reply := env.run(w.trace, PoolListArgv);
      reply.retcode == 0 && env.json(Strip(reply.stdout)).Some? && PoolMap(env.json(Strip(reply.stdout)).value).Ok?
    ensures o.r.Ok? ==>
      o.r.value.poolList == Some(PoolMap(env.json(Strip(env.run(w.trace, PoolListArgv).stdout)).value).value)
  {
    var o := ExecuteChecked(env, w, PoolListArgv, UpdaterError, "Failed executing ceph osd lspools");
    if o.r.Err? then Out(o.w, Err(o.r.error))
    else
      match env.json(Strip(o.r.value.stdout))
      case None => Out(o.w, Raise(Builtin, "ValueError: No JSON object could be decoded"))
      case Some(j) =>
        match PoolMap(j)
        case Err(e) => Out(o.w, Err(e))
        case Ok(pools) => Out(o.w, Ok(m.(poolList := Some(pools))))
  }

  /** The keyword arguments of _pool_adder; `None` for an absent key.
      `pgpNum` distinguishes absent (None) from an explicit None (Some(None)). */
  datatype PoolArgs = PoolArgs(
    pgNum: Option<int>,
    pgpNum: Option<Option<int>>,
    poolType: Option<string>,
    erasureProfile: Option<string>,
    crushRuleset: Option<string>)

  const NoPoolArgs := PoolArgs(None, None, None, None, None)

  /** The `ceph osd pool create` command: pg_num defaults to 8 and pgp_num
      to pg_num; a replicated or erasure pool type and a crush rule set are
      appended when given. */
  function PoolCreateArgv(name: string, a: PoolArgs): (argv: Argv)
    ensures |argv| >= 6 && argv[..6] == ["ceph", "osd", "pool", "create", name, IntToString(a.pgNum.GetOr(8))]
    ensures var pgp := a.pgpNum.GetOr(Some(a.pgNum.GetOr(8)));
      && (pgp.Some? ==> |argv| > 6 && argv[6] == IntToString(pgp.value))
      && (pgp.None? && a.poolType.None? && a.crushRuleset.None? ==> |argv| == 6)
    ensures a.crushRuleset.Some? ==> argv[|argv| - 1] == a.crushRuleset.value
  {
    var pg := a.pgNum.GetOr(8);
    var pgp := a.pgpNum.GetOr(Some(pg));
    ["ceph", "osd", "pool", "create", name, IntToString(pg)]
      + (if pgp.Some? then [IntToString(pgp.value)] else [])
      + (if a.poolType == Some("replicated") then ["replicated"] else [])
      + (if a.poolType == Some("erasure") then ["erasure", "erasure-code-profile=" + Show(a.erasureProfile)] else [])
      + (if a.crushRuleset.Some? then [a.crushRuleset.value] else [])
  }

  /** With no options the command asks for 8 placement groups twice. */
  lemma PoolCreateDefaults(name: string)
    ensures PoolCreateArgv(name, NoPoolArgs) == ["ceph", "osd", "pool", "create", name, "8", "8"]
  {
    assert NatToString(8) == "8";
  }

  /** _pool_adder: runs the create command and raises on a non-zero exit. */
  function PoolAdder(env: Env, w: World, name: string, a: PoolArgs): (o: Out<()>)
    ensures o.w.trace == w.trace + [Ran(PoolCreateArgv(name, a))]
    ensures o.r.Ok? <==> env.run(w.trace, PoolCreateArgv(name, a)).retcode == 0
  {
    var o := ExecuteChecked(env, w, PoolCreateArgv(name, a), UpdaterError, "Failed executing ceph osd pool create");
    if o.r.Err? then Out(o.w, Err(o.r.error)) else Out(o.w, Ok(()))
  }

  /** pool_add: raises while no pool list is loaded; issues no command when
      the pool is listed; otherwise creates it. */
  function PoolAdd(env: Env, w: World, m: Model, name: string, a: PoolArgs): (o: Out<()>)
    ensures m.poolList.None? ==> o.w == w && o.r.Err?
    ensures m.poolList.Some? && JStr(name) in m.poolList.value ==> o == Out(w, Ok(()))
    ensures m.poolList.Some? && JStr(name) !in m.poolList.value ==> o == PoolAdder(env, w, name, a)
  {
    if m.poolList.None? then Out(w, Raise(Builtin, "AttributeError: no pool_list"))
    else if JStr(name) in m.poolList.value then Out(w, Ok(()))
    else PoolAdder(env, w, name, a)
  }

  function PoolDeleteArgv(name: string): Argv {
    ["ceph", "osd", "pool", "delete", name, name, "--yes-i-really-really-mean-it"]
  }

  /** pool_del: raises while no pool list is loaded; returns True with no
      command when the pool is not listed; otherwise deletes it, raising on a
      non-zero exit. */
  function PoolDel(env: Env, w: World, m: Model, name: string): (o: Out<bool>)
    ensures m.poolList.None? ==> o.w == w && o.r.Err?
    ensures m.poolList.Some? && JStr(name) !in m.poolList.value ==> o == Out(w, Ok(true))
    ensures m.poolList.Some? && JStr(name) in m.poolList.value ==>
      o.w.trace == w.trace + [Ran(PoolDeleteArgv(name))]
      && (o.r.Ok? <==> env.run(w.trace, PoolDeleteArgv(name)).retcode == 0)
    ensures o.r.Ok? ==> o.r.value
  {
    if m.poolList.None? then Out(w, Raise(Builtin, "AttributeError: no pool_list"))
    else if JStr(name) !in m.poolList.value then Out(w, Ok(true))
    else
      var o := ExecuteChecked(env, w, PoolDeleteArgv(name), UpdaterError, "Failed executing ceph osd pool delete");
      if o.r.Err? then Out(o.w, Err(o.r.error)) else Out(o.w, Ok(true))
  }

  /** Adding a listed pool twice, or deleting an unlisted one twice, runs
      nothing: both are idempotent on the model's pool list. */
  lemma PoolOpsIdempotent(env: Env, w: World, m: Model, name: string, a: PoolArgs)
    requires m.poolList.Some?
    ensures JStr(name) in m.poolList.value ==> PoolAdd(env, w, m, name, a).w.trace == w.trace
    ensures JStr(name) !in m.poolList.value ==> PoolDel(env, w, m, name).w.trace == w.trace
    ensures JStr(name) !in m.poolList.value ==> PoolAdd(env, w, m, name, a).w.trace == w.trace + [Ran(PoolCreateArgv(name, a))]
  {
  }

  // ---------------------------------------------------------------- ceph version

  const CephVersionArgv: Argv := ["ceph", "--version"]

  predicate IsParen(c: char) {
    c == '(' || c == ')'
  }

  /** The parse of `ceph version <a.b.rest> (<uuid>)`: exactly four words,
      the first two fixed; the third split at "." into the major and minor
      numbers and the rest (at least three pieces); the fourth stripped of
      parentheses. */
  function ParseCephVersion(words: seq<string>): (r: Result<Version>)
    ensures r.Ok? ==> |words| == 4 && words[0] == "ceph" && words[1] == "version"
    ensures r.Ok? ==> r.value.major.Some? && r.value.minor.Some? && r.value.revision.Some? && r.value.uuid.Some?
    ensures |words| != 4 ==> r.Err? && r.error.cls == UpdaterError
  {
    if |words| != 4 then Raise(UpdaterError, "ceph returned an invalid version")
    else if words[0] != "ceph" then Raise(UpdaterError, "ceph returned an invalid version first value is not ceph")
    else if words[1] != "version" then Raise(UpdaterError, "ceph returned an invalid version second value is not 'version'")
    else DottedVersion(words[2], words[3])
  }

  /** The version word of the line: at least three dot-separated pieces, the
      first two integers; the rest, rejoined, is the revision.  The tag in
      parentheses is the commit. */
  function DottedVersion(word: string, tag: string): (r: Result<Version>)
    ensures r.Ok? ==> r.value.major.Some? && r.value.minor.Some? && r.value.revision.Some? && r.value.uuid.Some?
  {
    var public := Split(word, '.');
    if |public| < 3 then Raise(UpdaterError, "ceph returned an invalid version")
    else
      match (ParseInt(public[0]), ParseInt(public[1]))
      case (Some(major), Some(minor)) =>
        Ok(Version(Some(major), Some(minor), Some(Join(public[2..], '.')), Some(StripBy(tag, IsParen))))
      case _ => Raise(Builtin, "ValueError: invalid literal for int()")
  }

  lemma DottedVersionOf(a: nat, b: nat, rest: string, tag: string)
    ensures DottedVersion(NatToString(a) + "." + NatToString(b) + "." + rest, tag)
         == Ok(Version(Some(a), Some(b), Some(rest), Some(StripBy(tag, IsParen))))
  {
    var public := Split(NatToString(a) + "." + NatToString(b) + "." + rest, '.');
    SplitDotted(a, b, rest);
    assert public[0] == NatToString(a) && public[1] == NatToString(b);
    assert public[2..] == Split(rest, '.');
    JoinSplit(rest, '.');
    ParseNatString(a);
    ParseNatString(b);
  }

  /** A well-formed version line reads back as its parts; the revision may
      itself contain dots. */
  lemma ParseCephVersionOf(a: nat, b: nat, rest: string, uuid: string)
    requires |uuid| > 0 && !IsParen(uuid[0]) && !IsParen(uuid[|uuid| - 1])
    ensures ParseCephVersion(["ceph", "version", NatToString(a) + "." + NatToString(b) + "." + rest, "(" + uuid + ")"])
         == Ok(Version(Some(a), Some(b), Some(rest), Some(uuid)))
  {
    DottedVersionOf(a, b, rest, "(" + uuid + ")");
    assert "(" + uuid + ")" == ['('] + uuid + [')'];
    StripByFramed('(', uuid, ')', IsParen);
  }

  /** ceph_version_refresh: the parsed version replaces the model's. */
  function CephVersionRefresh(env: Env, w: World, m: Model): (o: Out<Model>)
    ensures o.w.trace == w.trace + [Ran(CephVersionArgv)]
    ensures env.run(w.trace, CephVersionArgv).retcode != 0 ==> o.r.Err? && o.r.error.cls == UpdaterError
    ensures o.r.Ok? ==> o.r.value == m.(cephVersion := o.r.value.cephVersion)
    ensures o.r.Ok? ==> ParseCephVersion(env.lex(Strip(env.run(w.trace, CephVersionArgv).stdout))) == Ok(o.r.value.cephVersion)
  {
    var o := ExecuteChecked(env, w, CephVersionArgv, UpdaterError, "Failed executing ceph --version");
    if o.r.Err? then Out(o.w, Err(o.r.error))
    else
      match ParseCephVersion(env.lex(Strip(o.r.value.stdout)))
      case Err(e) => Out(o.w, Err(e))
      case Ok(v) => Out(o.w, Ok(m.(cephVersion := v)))
  }
}
