/** Block-device inventory: the lsblk version gate, the `lsblk --pairs`
    parser that builds the disk/partition tree, and the `parted print`
    partition-table lookup (model_updater in _modules/sesceph/mdl_updater.py). */
module Lsblk {
  import opened Wrappers
  import opened Text
  import opened Exec
  import opened NodeModel

  // ---------------------------------------------------------------- tokens and rows

  /** One `KEY="value"` token after shell-style unquoting: split at the first
      "=", rejoin the rest; a token without "=" or with an empty value is
      skipped. */
  function ParseToken(tok: string): (r: Option<(string, string)>)
    ensures '=' !in tok ==> r.None?
    ensures r.Some? ==> tok == r.value.0 + "=" + r.value.1 && '=' !in r.value.0 && |r.value.1| > 0
  {
    var pieces := Split(tok, '=');
    if |pieces| == 1 then
      None
    else
      var value := Join(pieces[1..], '=');
      if |value| == 0 then None
      else
        assert tok == pieces[0] + "=" + value by {
          JoinSplit(tok, '=');
          JoinCons(pieces[0], pieces[1..], '=');
          assert pieces == [pieces[0]] + pieces[1..];
        }
        Some((pieces[0], value))
  }

  /** Every token `k=v` with `k` free of "=" parses back to `(k, v)`, or is
      skipped when `v` is empty. */
  lemma ParseTokenOfPair(k: string, v: string)
    requires '=' !in k
    ensures ParseToken(k + "=" + v) == (if |v| == 0 then None else Some((k, v)))
  {
    var tok := k + "=" + v;
    SplitAtFirst(k, v, '=');
    var pieces := Split(tok, '=');
    assert pieces == [k] + Split(v, '=');
    assert pieces[1..] == Split(v, '=');
    JoinSplit(v, '=');
  }

  /** A parsed token that sets key `k`. */
  predicate Sets(t: Option<(string, string)>, k: string) {
    t.Some? && t.value.0 == k
  }

  /** Assignments applied in order: later keys overwrite earlier ones. */
  function Assign(ps: seq<Option<(string, string)>>): Record {
    if |ps| == 0 then map[]
    else
      var r := Assign(ps[..|ps| - 1]);
      match ps[|ps| - 1]
      case None => r
      case Some((k, v)) => r[k := v]
  }

  /** A key is assigned exactly when some step sets it. */
  lemma {:induction false} AssignKeys(ps: seq<Option<(string, string)>>)
    ensures forall k :: k in Assign(ps) <==> exists i :: 0 <= i < |ps| && Sets(ps[i], k)
  {
    if |ps| > 0 {
      var n := |ps| - 1;
      var front := ps[..n];
      AssignKeys(front);
      assert forall i :: 0 <= i < n ==> front[i] == ps[i];
      forall k
        ensures k in Assign(ps) <==> exists i :: 0 <= i < |ps| && Sets(ps[i], k)
      {
        if !Sets(ps[n], k) && k in Assign(ps) {
          assert k in Assign(front);
          var i :| 0 <= i < n && Sets(front[i], k);
          assert Sets(ps[i], k);
        }
      }
    }
  }

  /** An assigned key holds the value of the LAST step that sets it. */
  lemma {:induction false} AssignLast(ps: seq<Option<(string, string)>>, i: nat)
    requires i < |ps| && ps[i].Some?
    requires forall j :: i < j < |ps| ==> !Sets(ps[j], ps[i].value.0)
    ensures ps[i].value.0 in Assign(ps) && Assign(ps)[ps[i].value.0] == ps[i].value.1
  {
    var n := |ps| - 1;
    if i < n {
      var front := ps[..n];
      assert forall j :: 0 <= j < n ==> front[j] == ps[j];
      AssignLast(front, i);
    }
  }

  /** The tokens of one output line as a record. */
  function ParseRow(toks: seq<string>): Record {
    Assign(Parsed(toks))
  }

  function Parsed(toks: seq<string>): (ps: seq<Option<(string, string)>>)
    ensures |ps| == |toks| && forall i :: 0 <= i < |toks| ==> ps[i] == ParseToken(toks[i])
  {
    seq(|toks|, i requires 0 <= i < |toks| => ParseToken(toks[i]))
  }

  /** Token `i` sets key `k` and no later token does. */
  predicate LastSetter(toks: seq<string>, i: int, k: string) {
    0 <= i < |toks| && Sets(ParseToken(toks[i]), k) && forall j :: i < j < |toks| ==> !Sets(ParseToken(toks[j]), k)
  }

  /** A key is in the record exactly when some token sets it, and it holds the
      value of the LAST token that sets it. */
  lemma ParseRowSpec(toks: seq<string>, k: string)
    ensures k in ParseRow(toks) <==> exists i :: 0 <= i < |toks| && Sets(ParseToken(toks[i]), k)
    ensures forall i :: LastSetter(toks, i, k) ==> k in ParseRow(toks) && ParseRow(toks)[k] == ParseToken(toks[i]).value.1
  {
    var ps := Parsed(toks);
    AssignKeys(ps);
    forall i | LastSetter(toks, i, k)
      ensures k in ParseRow(toks) && ParseRow(toks)[k] == ParseToken(toks[i]).value.1
    {
      AssignLast(ps, i);
    }
  }

  /** The records of every output line, in order. */
  function Rows(env: Env, stdout: string): (rows: seq<Record>)
    ensures |rows| == |Split(stdout, '\n')|
  {
    var lines := Split(stdout, '\n');
    seq(|lines|, i requires 0 <= i < |lines| => ParseRow(env.lex(lines[i])))
  }

  // ---------------------------------------------------------------- the tree

  predicate IsDiskRow(r: Record) {
    "NAME" in r && "TYPE" in r && r["TYPE"] == "disk"
  }

  predicate IsPartRow(r: Record) {
    "NAME" in r && !("TYPE" in r && r["TYPE"] == "disk")
  }

  /** all_parts and part_map while the rows are read. */
  datatype Tree = Tree(lsblk: Lsblk, parent: map<Path, Path>)

  /** One row: a named disk row (re)places its disk entry; a named
      non-disk row is attached under its PKNAME disk if that disk is already
      known, and is dropped otherwise. */
  function AddRow(t: Tree, row: Record): Tree {
    if "NAME" !in row then t
    else
      var name := row["NAME"];
      if IsDiskRow(row) then Tree(t.lsblk[name := Disk(row, None)], t.parent)
      else if "PKNAME" !in row || row["PKNAME"] !in t.lsblk then t
      else
        var d := row["PKNAME"];
        var disk := t.lsblk[d];
        var parts := disk.parts.GetOr(map[]);
        Tree(t.lsblk[d := disk.(parts := Some(parts[name := row]))], t.parent[name := d])
  }

  /** Every partition is filed under a known disk, under its own NAME, and
      names that disk as its PKNAME. */
  predicate WellFiled(t: Tree) {
    (forall p :: p in t.parent ==> t.parent[p] in t.lsblk)
    && (forall d :: d in t.lsblk && t.lsblk[d].parts.Some? ==>
          forall p :: p in t.lsblk[d].parts.value ==>
            var r := t.lsblk[d].parts.value[p];
            IsPartRow(r) && r["NAME"] == p && "PKNAME" in r && r["PKNAME"] == d)
    && (forall d :: d in t.lsblk ==> IsDiskRow(t.lsblk[d].attrs) && t.lsblk[d].attrs["NAME"] == d)
  }

  /** The loop of partitions_all_refresh over all rows. */
  function BuildTree(rows: seq<Record>): (t: Tree)
    ensures WellFiled(t)
  {
    if |rows| == 0 then Tree(map[], map[])
    else
      var t := BuildTree(rows[..|rows| - 1]);
      AddRowFiles(t, rows[|rows| - 1]);
      AddRow(t, rows[|rows| - 1])
  }

  /** Adding a row keeps every partition filed. */
  lemma AddRowFiles(t: Tree, row: Record)
    requires WellFiled(t)
    ensures WellFiled(AddRow(t, row))
  {
    if "NAME" in row && !IsDiskRow(row) && "PKNAME" in row && row["PKNAME"] in t.lsblk {
      var d := row["PKNAME"];
      var t' := AddRow(t, row);
      assert t'.lsblk.Keys == t.lsblk.Keys;
      assert IsDiskRow(t'.lsblk[d].attrs);
    }
  }

  /** Names of the disk rows. */
  function DiskNames(rows: seq<Record>): set<string> {
    set i | 0 <= i < |rows| && IsDiskRow(rows[i]) :: rows[i]["NAME"]
  }

  /** A non-disk row whose PKNAME names a disk listed on an EARLIER line. */
  predicate Attached(rows: seq<Record>, i: int)
    requires 0 <= i < |rows|
  {
    IsPartRow(rows[i]) && "PKNAME" in rows[i] && rows[i]["PKNAME"] in DiskNames(rows[..i])
  }

  function AttachedNames(rows: seq<Record>): set<string> {
    set i | 0 <= i < |rows| && Attached(rows, i) :: rows[i]["NAME"]
  }

  lemma DiskNamesSnoc(rows: seq<Record>)
    requires |rows| > 0
    ensures DiskNames(rows) == DiskNames(rows[..|rows| - 1])
      + (if IsDiskRow(rows[|rows| - 1]) then {rows[|rows| - 1]["NAME"]} else {})
  {
    var front := rows[..|rows| - 1];
    assert forall i :: 0 <= i < |front| ==> front[i] == rows[i];
  }

  lemma AttachedNamesSnoc(rows: seq<Record>)
    requires |rows| > 0
    ensures AttachedNames(rows) == AttachedNames(rows[..|rows| - 1])
      + (if Attached(rows, |rows| - 1) then {rows[|rows| - 1]["NAME"]} else {})
  {
    var front := rows[..|rows| - 1];
    forall i | 0 <= i < |front|
      ensures Attached(front, i) == Attached(rows, i)
    {
      assert front[..i] == rows[..i];
    }
  }

  /** The disks are exactly the disk rows, and a partition is recorded
      exactly when its PKNAME names a disk that an earlier line listed. */
  lemma {:induction false} BuildTreeKeys(rows: seq<Record>)
    ensures BuildTree(rows).lsblk.Keys == DiskNames(rows)
    ensures BuildTree(rows).parent.Keys == AttachedNames(rows)
  {
    if |rows| > 0 {
      var n := |rows| - 1;
      var front := rows[..n];
      BuildTreeKeys(front);
      DiskNamesSnoc(rows);
      AttachedNamesSnoc(rows);
      assert rows[..n] == front;
    }
  }

  // ---------------------------------------------------------------- version gate

  /** Python 2 ordering of an optional integer against an integer: None is
      smaller than every number. */
  predicate Py2Less(x: Option<int>, k: int) {
    x.None? || x.value < k
  }

  /** The fixed column list for lsblk 2.23 and 2.24, which lack PARTTYPE. */
  const OldColumns := "NAME,FSTYPE,MOUNTPOINT,PARTLABEL,PARTUUID,PKNAME,ROTA,RQ-SIZE,SCHED,SIZE,TYPE,UUID,VENDOR"

  const OldArgs: Argv := ["--ascii", "--output", OldColumns, "--pairs", "--paths", "--bytes"]
  const NewArgs: Argv := ["--ascii", "--output-all", "--pairs", "--paths", "--bytes"]

  /** `major.minor` compared lexicographically, a missing minor below all. */
  predicate AtLeast(v: Version, major: int, minor: int) {
    v.major.Some? && (v.major.value > major || (v.major.value == major && v.minor.Some? && v.minor.value >= minor))
  }

  /** The lsblk arguments for a known version. */
  function ArgsForVersion(v: Version): (r: Result<Argv>)
    ensures r.Err? ==> r.error.cls == UpdaterError
    ensures r.Ok? <==> AtLeast(v, 2, 23)
    ensures r.Ok? ==> (r.value == OldArgs <==> !AtLeast(v, 2, 25))
    ensures r.Ok? ==> r.value == OldArgs || r.value == NewArgs
  {
    if Py2Less(v.major, 2) then Raise(UpdaterError, "lsblk version too old")
    else if v.major.value == 2 && Py2Less(v.minor, 23) then Raise(UpdaterError, "lsblk version maybe too old")
    else if v.major.value == 2 && Py2Less(v.minor, 25) then Ok(OldArgs)
    else Ok(NewArgs)
  }

  /** lsblk_version_refresh's parse of `lsblk --version` output: the fourth
      word is split at ".", the first piece is the major number, the second
      (if any) the minor, the third (if any) the revision, which otherwise
      becomes 0. */
  function ParseLsblkVersion(env: Env, stdout: string, prev: Version): (r: Result<Version>)
    ensures r.Ok? ==> r.value.major.Some? && r.value.revision.Some? && r.value.uuid == prev.uuid
    ensures |env.lex(Strip(stdout))| < 4 ==> r.Err? && r.error.cls == UpdaterError
  {
    var words := env.lex(Strip(stdout));
    if |words| < 4 then Raise(UpdaterError, "Failed processing lsblk version string")
    else LsblkVersionWord(words[3], prev)
  }

  /** The version word: a major number, then optionally a minor and a
      revision; a missing revision becomes 0. */
  function LsblkVersionWord(word: string, prev: Version): (r: Result<Version>)
    ensures r.Ok? ==> r.value.major.Some? && r.value.revision.Some? && r.value.uuid == prev.uuid
  {
    var pieces := Split(word, '.');
    var major := ParseInt(pieces[0]);
    if major.None? then Raise(Builtin, "ValueError: invalid literal for int()")
    else if |pieces| > 1 && ParseInt(pieces[1]).None? then Raise(Builtin, "ValueError: invalid literal for int()")
    else if |pieces| > 2 && ParseInt(pieces[2]).None? then Raise(Builtin, "ValueError: invalid literal for int()")
    else
      var minor := if |pieces| > 1 then ParseInt(pieces[1]) else prev.minor;
      var revision := if |pieces| > 2 then IntToString(ParseInt(pieces[2]).value) else "0";
      Ok(Version(major, minor, Some(revision), prev.uuid))
  }

  lemma LsblkVersionWordOf(a: nat, b: nat, c: nat, prev: Version)
    ensures LsblkVersionWord(NatToString(a) + "." + NatToString(b) + "." + NatToString(c), prev)
         == Ok(Version(Some(a), Some(b), Some(NatToString(c)), prev.uuid))
  {
    SplitDotted(a, b, NatToString(c));
    NoDotInNat(c);
    SplitNoSep(NatToString(c), '.');
    ParseNatString(a);
    ParseNatString(b);
    ParseNatString(c);
  }

  /** A dotted `a.b.c` version word is read back as major a, minor b,
      revision c. */
  lemma ParseLsblkVersionOf(env: Env, stdout: string, prev: Version, a: nat, b: nat, c: nat)
    requires |env.lex(Strip(stdout))| >= 4
    requires env.lex(Strip(stdout))[3] == NatToString(a) + "." + NatToString(b) + "." + NatToString(c)
    ensures ParseLsblkVersion(env, stdout, prev) == Ok(Version(Some(a), Some(b), Some(NatToString(c)), prev.uuid))
  {
    LsblkVersionWordOf(a, b, c, prev);
  }

  /** _lsblk_arguements: refreshes the version first when the major number is
      unknown, then applies the gate. */
  function LsblkArguments(env: Env, w: World, v: Version): (o: Out<(Version, Argv)>)
    ensures v.major.Some? ==> o.w == w && o.r == (match ArgsForVersion(v)
                                                  case Ok(a) => Ok((v, a))
                                                  case Err(e) => Err(e))
    ensures v.major.None? ==> o.w.trace == w.trace + [Ran(["lsblk", "--version"])]
    ensures o.r.Ok? ==> ArgsForVersion(o.r.value.0) == Ok(o.r.value.1)
  {
    if v.major.Some? then
      match ArgsForVersion(v)
      case Ok(a) => Out(w, Ok((v, a)))
      case Err(e) => Out(w, Err(e))
    else
      var o := ExecuteChecked(env, w, ["lsblk", "--version"], UpdaterError, "Failed executing lsblk --version");
      if o.r.Err? then Out(o.w, Err(o.r.error))
      else
        match ParseLsblkVersion(env, o.r.value.stdout, v)
        case Err(e) => Out(o.w, Err(e))
        case Ok(v2) =>
          match ArgsForVersion(v2)
          case Ok(a) => Out(o.w, Ok((v2, a)))
          case Err(e) => Out(o.w, Err(e))
  }

  function LsblkCommand(v: Version): Argv
    requires ArgsForVersion(v).Ok?
  {
    ["lsblk"] + ArgsForVersion(v).value
  }

  /** partitions_all_refresh: runs lsblk with the gated arguments, raises on
      a non-zero exit, and replaces the tree and the parent map with what the
      output lists; nothing else in the model changes but the lsblk version. */
  function PartitionsAllRefresh(env: Env, w: World, m: Model): (o: Out<Model>)
    ensures o.r.Ok? ==> ArgsForVersion(o.r.value.lsblkVersion).Ok?
    ensures o.r.Ok? ==> o.r.value == m.(lsblk := o.r.value.lsblk, partParent := o.r.value.partParent,
                                        lsblkVersion := o.r.value.lsblkVersion)
    ensures o.r.Ok? ==> (|w.trace| < |o.w.trace|
      && o.w.trace[|o.w.trace| - 1] == Ran(LsblkCommand(o.r.value.lsblkVersion)))
    ensures o.r.Ok? ==>
      var reply := env.run(o.w.trace[..|o.w.trace| - 1], LsblkCommand(o.r.value.lsblkVersion));
      reply.retcode == 0 && Tree(o.r.value.lsblk, o.r.value.partParent) == BuildTree(Rows(env, reply.stdout))
  {
    var a := LsblkArguments(env, w, m.lsblkVersion);
    if a.r.Err? then Out(a.w, Err(a.r.error))
    else
      var (v, args) := a.r.value;
      var cmd := ["lsblk"] + args;
      var o := ExecuteChecked(env, a.w, cmd, UpdaterError, "Failed running: lsblk --ascii --output-all");
      if o.r.Err? then Out(o.w, Err(o.r.error))
      else
        var t := BuildTree(Rows(env, o.r.value.stdout));
        assert o.w.trace[..|o.w.trace| - 1] == a.w.trace;
        Out(o.w, Ok(m.(lsblk := t.lsblk, partParent := t.parent, lsblkVersion := v)))
  }

  // ---------------------------------------------------------------- parted

  /** The table type one line of `parted <disk> print` announces. */
  function LineTable(line: string): Option<string> {
    var pieces := Split(line, ':');
    if pieces[0] != "Partition Table" then None else Some(Strip(Join(pieces[1..], ':')))
  }

  const TableLabel := "Partition Table"

  /** The same without splitting: the line is the label alone, or the label
      and a colon followed by the (stripped) type. */
  lemma LineTableByPrefix(line: string)
    ensures LineTable(line) == (if line == TableLabel then Some("")
                                else if StartsWith(line, TableLabel + ":") then Some(Strip(line[|TableLabel| + 1..]))
                                else None)
  {
    assert ':' !in TableLabel;
    var pieces := Split(line, ':');
    if line == TableLabel {
      SplitNoSep(line, ':');
      assert Strip("") == "";
    } else if StartsWith(line, TableLabel + ":") {
      var rest := line[|TableLabel| + 1..];
      assert line == TableLabel + ":" + rest;
      SplitAtFirst(TableLabel, rest, ':');
      assert pieces[1..] == Split(rest, ':');
      JoinSplit(rest, ':');
    } else {
      JoinSplit(line, ':');
      if |pieces| > 1 {
        JoinCons(pieces[0], pieces[1..], ':');
        assert pieces == [pieces[0]] + pieces[1..];
      }
    }
  }

  /** The last present value. */
  function LastSome(ts: seq<Option<string>>): Option<string> {
    if |ts| == 0 then None
    else if ts[|ts| - 1].Some? then ts[|ts| - 1]
    else LastSome(ts[..|ts| - 1])
  }

  /** Entry `i` is present and no later one is. */
  predicate LastPresent(ts: seq<Option<string>>, i: int) {
    0 <= i < |ts| && ts[i].Some? && forall j :: i < j < |ts| ==> ts[j].None?
  }

  lemma {:induction false} LastSomeFound(ts: seq<Option<string>>)
    ensures LastSome(ts).Some? <==> exists i :: 0 <= i < |ts| && ts[i].Some?
  {
    if |ts| > 0 {
      var n := |ts| - 1;
      LastSomeFound(ts[..n]);
      if ts[n].None? {
        assert forall i :: 0 <= i < n ==> ts[..n][i] == ts[i];
      }
    }
  }

  lemma {:induction false} LastSomeIsLast(ts: seq<Option<string>>, i: int)
    requires LastPresent(ts, i)
    ensures LastSome(ts) == ts[i]
    decreases |ts|
  {
    var n := |ts| - 1;
    if i < n {
      assert ts[n].None?;
      assert LastPresent(ts[..n], i);
      LastSomeIsLast(ts[..n], i);
    }
  }

  lemma LastSomeSpec(ts: seq<Option<string>>)
    ensures LastSome(ts).Some? <==> exists i :: 0 <= i < |ts| && ts[i].Some?
    ensures forall i :: LastPresent(ts, i) ==> LastSome(ts) == ts[i]
  {
    LastSomeFound(ts);
    forall i | LastPresent(ts, i)
      ensures LastSome(ts) == ts[i]
    {
      LastSomeIsLast(ts, i);
    }
  }

  function LineTables(lines: seq<string>): (ts: seq<Option<string>>)
    ensures |ts| == |lines| && forall i :: 0 <= i < |lines| ==> ts[i] == LineTable(lines[i])
  {
    seq(|lines|, i requires 0 <= i < |lines| => LineTable(lines[i]))
  }

  /** The table type of the LAST announcing line, None if no line does. */
  function TableOf(lines: seq<string>): Option<string> {
    LastSome(LineTables(lines))
  }

  /** The table is found exactly when some line announces one, and it is
      what the last such line announces. */
  lemma TableOfLast(lines: seq<string>)
    ensures TableOf(lines).Some? <==> exists i :: 0 <= i < |lines| && LineTable(lines[i]).Some?
    ensures forall i :: LastPresent(LineTables(lines), i) ==> TableOf(lines) == LineTable(lines[i])
  {
    LastSomeSpec(LineTables(lines));
  }

  function SetTable(l: Lsblk, d: Path, t: Option<string>): (l': Lsblk)
    ensures l'.Keys == l.Keys
  {
    if t.Some? && d in l then l[d := l[d].(attrs := l[d].attrs["PARTTABLE" := t.value])] else l
  }

  function PartedArgv(d: Path): Argv {
    ["parted", d, "print"]
  }

  /** One parted command per disk, in order. */
  function PartedRuns(disks: seq<Path>): (evs: seq<Event>)
    ensures |evs| == |disks|
  {
    if |disks| == 0 then [] else [Ran(PartedArgv(disks[0]))] + PartedRuns(disks[1..])
  }

  /** The `i`th event is the command for the `i`th disk. */
  lemma {:induction false} PartedRunsAt(disks: seq<Path>)
    ensures forall i :: 0 <= i < |disks| ==> PartedRuns(disks)[i] == Ran(PartedArgv(disks[i]))
    decreases |disks|
  {
    if |disks| > 0 {
      PartedRunsAt(disks[1..]);
    }
  }

  /** `l'` lists the same disks and partitions as `l` and differs at most in
      PARTTABLE attributes. */
  predicate SameButTable(l: Lsblk, l': Lsblk) {
    l'.Keys == l.Keys
    && forall d :: d in l ==>
      (l'[d].parts == l[d].parts
      && l'[d].attrs.Keys - {"PARTTABLE"} == l[d].attrs.Keys - {"PARTTABLE"}
      && (forall k :: k != "PARTTABLE" && k in l[d].attrs ==> k in l'[d].attrs && l'[d].attrs[k] == l[d].attrs[k]))
  }

  lemma SameButTableTrans(a: Lsblk, b: Lsblk, c: Lsblk)
    requires SameButTable(a, b) && SameButTable(b, c)
    ensures SameButTable(a, c)
  {
  }

  lemma SetTableSame(l: Lsblk, d: Path, t: Option<string>)
    ensures SameButTable(l, SetTable(l, d, t))
  {
  }

  /** A disk row after parted printed `out`: PARTTABLE is the type the last
      announcing line gives, and the row is unchanged when no line
      announces one. */
  function Tabled(disk: Disk, out: string): (r: Disk)
    ensures r.parts == disk.parts
    ensures TableOf(Split(out, '\n')).None? ==> r == disk
    ensures TableOf(Split(out, '\n')).Some? ==>
      r.attrs == disk.attrs["PARTTABLE" := TableOf(Split(out, '\n')).value]
  {
    var t := TableOf(Split(out, '\n'));
    if t.Some? then disk.(attrs := disk.attrs["PARTTABLE" := t.value]) else disk
  }

  /** One disk of partition_table_refresh: `parted <disk> print`, a non-zero
      exit raises, otherwise the disk's PARTTABLE follows the output and no
      other disk changes. */
  function PartedStep(env: Env, w: World, l: Lsblk, d: Path): (o: Out<Lsblk>)
    ensures o.w.trace == w.trace + [Ran(PartedArgv(d))]
    ensures o.r.Ok? <==> env.run(w.trace, PartedArgv(d)).retcode == 0
    ensures o.r.Err? ==> o.r.error.cls == UpdaterError
    ensures o.r.Ok? ==> SameButTable(l, o.r.value)
    ensures o.r.Ok? ==> forall e :: e in l && e != d ==> o.r.value[e] == l[e]
    ensures o.r.Ok? && d in l ==> o.r.value[d] == Tabled(l[d], env.run(w.trace, PartedArgv(d)).stdout)
  {
    var o := ExecuteChecked(env, w, PartedArgv(d), UpdaterError, "Failed executing parted");
    if o.r.Err? then Out(o.w, Err(o.r.error))
    else
      SetTableSame(l, d, TableOf(Split(o.r.value.stdout, '\n')));
      Out(o.w, Ok(SetTable(l, d, TableOf(Split(o.r.value.stdout, '\n')))))
  }

  lemma PartedRunsCons(t: seq<Event>, disks: seq<Path>)
    requires |disks| > 0
    ensures t + PartedRuns(disks) == (t + [Ran(PartedArgv(disks[0]))]) + PartedRuns(disks[1..])
  {
  }

  /** The reply of the `i`th parted command, after those for `disks[..i]`. */
  function PartedReply(env: Env, t: seq<Event>, disks: seq<Path>, i: int): Reply
    requires 0 <= i < |disks|
  {
    env.run(t + PartedRuns(disks[..i]), PartedArgv(disks[i]))
  }

  /** The `i`th parted command exits 0. */
  predicate PartedOk(env: Env, t: seq<Event>, disks: seq<Path>, i: int)
    requires 0 <= i < |disks|
  {
    PartedReply(env, t, disks, i).retcode == 0
  }

  /** The `i`th parted command is the first to exit non-zero. */
  predicate PartedFailsAt(env: Env, t: seq<Event>, disks: seq<Path>, i: int) {
    0 <= i < |disks| && !PartedOk(env, t, disks, i) && forall k :: 0 <= k < i ==> PartedOk(env, t, disks, k)
  }

  /** No disk is listed twice. */
  predicate Distinct(disks: seq<Path>) {
    forall i, j :: 0 <= i < j < |disks| ==> disks[i] != disks[j]
  }

  /** The first command runs right after `t`. */
  lemma PartedFirst(env: Env, t: seq<Event>, disks: seq<Path>)
    requires |disks| > 0
    ensures PartedReply(env, t, disks, 0) == env.run(t, PartedArgv(disks[0]))
    ensures t + PartedRuns(disks[..1]) == t + [Ran(PartedArgv(disks[0]))]
  {
    assert disks[..0] == [];
    assert t + PartedRuns([]) == t;
    assert disks[..1][1..] == [];
  }

  /** Command `i + 1` over `disks` is command `i` over the rest of the
      disks, started one command later. */
  lemma PartedShiftAt(env: Env, t: seq<Event>, disks: seq<Path>, i: int)
    requires 0 <= i < |disks| - 1
    ensures PartedReply(env, t, disks, i + 1) == PartedReply(env, t + [Ran(PartedArgv(disks[0]))], disks[1..], i)
    ensures t + PartedRuns(disks[..i + 2]) == (t + [Ran(PartedArgv(disks[0]))]) + PartedRuns(disks[1..][..i + 1])
  {
    assert disks[..i + 1][1..] == disks[1..][..i];
    assert disks[..i + 2][1..] == disks[1..][..i + 1];
    PartedRunsCons(t, disks[..i + 1]);
    PartedRunsCons(t, disks[..i + 2]);
  }

  /** Every command succeeds exactly when the first does and every later
      one does. */
  lemma PartedOkShift(env: Env, t: seq<Event>, disks: seq<Path>)
    requires |disks| > 0
    ensures (forall i :: 0 <= i < |disks| ==> PartedOk(env, t, disks, i)) <==>
      PartedOk(env, t, disks, 0) && forall i :: 0 <= i < |disks| - 1 ==> PartedOk(env, t + [Ran(PartedArgv(disks[0]))], disks[1..], i)
  {
    forall i | 0 <= i < |disks| - 1
      ensures PartedOk(env, t, disks, i + 1) == PartedOk(env, t + [Ran(PartedArgv(disks[0]))], disks[1..], i)
    {
      PartedShiftAt(env, t, disks, i);
    }
    if PartedOk(env, t, disks, 0) && forall i :: 0 <= i < |disks| - 1 ==> PartedOk(env, t + [Ran(PartedArgv(disks[0]))], disks[1..], i) {
      forall i | 0 < i < |disks|
        ensures PartedOk(env, t, disks, i)
      {
        assert PartedOk(env, t + [Ran(PartedArgv(disks[0]))], disks[1..], i - 1);
      }
    }
  }

  /** partition_table_refresh over the given disks: one `parted <disk> print`
      per disk in order; the first non-zero exit raises the updater's error
      and ends the loop; on success every listed disk's PARTTABLE follows its
      own output and no other disk changes. */
  function PartitionTables(env: Env, w: World, l: Lsblk, disks: seq<Path>): (o: Out<Lsblk>)
    ensures o.r.Ok? <==> forall i :: 0 <= i < |disks| ==> PartedOk(env, w.trace, disks, i)
    ensures o.r.Err? ==> o.r.error.cls == UpdaterError
    ensures o.r.Err? ==> exists i :: PartedFailsAt(env, w.trace, disks, i) && o.w.trace == w.trace + PartedRuns(disks[..i + 1])
    ensures o.r.Ok? ==> o.w.trace == w.trace + PartedRuns(disks)
    ensures o.r.Ok? ==> SameButTable(l, o.r.value)
    ensures o.r.Ok? ==> forall e :: e in l && e !in disks ==> o.r.value[e] == l[e]
    decreases |disks|
  {
    if |disks| == 0 then Out(w, Ok(l))
    else
      var o := PartedStep(env, w, l, disks[0]);
      PartedFirst(env, w.trace, disks);
      if o.r.Err? then
        assert PartedFailsAt(env, w.trace, disks, 0);
        o
      else
        var rest := PartitionTables(env, o.w, o.r.value, disks[1..]);
        TablesStepOk(env, w, disks, rest);
        if rest.r.Err? then
          TablesStepErr(env, w, disks, rest);
          rest
        else
          TablesStepFrame(l, disks, o.r.value, rest.r.value);
          rest
  }

  /** The step of PartitionTables for its outcome: every command succeeds
      exactly when the first one and the loop over the others do. */
  lemma TablesStepOk(env: Env, w: World, disks: seq<Path>, rest: Out<Lsblk>)
    requires |disks| > 0 && env.run(w.trace, PartedArgv(disks[0])).retcode == 0
    requires var t := w.trace + [Ran(PartedArgv(disks[0]))]; var ds := disks[1..];
      && (rest.r.Ok? <==> forall i :: 0 <= i < |ds| ==> PartedOk(env, t, ds, i))
      && (rest.r.Ok? ==> rest.w.trace == t + PartedRuns(ds))
    ensures rest.r.Ok? <==> forall i :: 0 <= i < |disks| ==> PartedOk(env, w.trace, disks, i)
    ensures rest.r.Ok? ==> rest.w.trace == w.trace + PartedRuns(disks)
  {
    PartedFirst(env, w.trace, disks);
    PartedOkShift(env, w.trace, disks);
    PartedRunsCons(w.trace, disks);
  }

  /** The step of PartitionTables for a failure: a failure of the loop over
      the others is a first failure one command later. */
  lemma TablesStepErr(env: Env, w: World, disks: seq<Path>, rest: Out<Lsblk>)
    requires |disks| > 0 && env.run(w.trace, PartedArgv(disks[0])).retcode == 0
    requires var t := w.trace + [Ran(PartedArgv(disks[0]))]; var ds := disks[1..];
      exists i :: PartedFailsAt(env, t, ds, i) && rest.w.trace == t + PartedRuns(ds[..i + 1])
    ensures exists i :: PartedFailsAt(env, w.trace, disks, i) && rest.w.trace == w.trace + PartedRuns(disks[..i + 1])
  {
    var t := w.trace + [Ran(PartedArgv(disks[0]))];
    var i :| PartedFailsAt(env, t, disks[1..], i) && rest.w.trace == t + PartedRuns(disks[1..][..i + 1]);
    PartedFirst(env, w.trace, disks);
    PartedShiftAt(env, w.trace, disks, i);
    forall k | 0 < k < i + 1
      ensures PartedOk(env, w.trace, disks, k)
    {
      assert PartedOk(env, t, disks[1..], k - 1);
      PartedShiftAt(env, w.trace, disks, k - 1);
    }
    assert PartedFailsAt(env, w.trace, disks, i + 1);
  }

  /** The step of PartitionTables for the frame: only PARTTABLE changes,
      and a disk not listed keeps its row. */
  lemma TablesStepFrame(l: Lsblk, disks: seq<Path>, l1: Lsblk, l2: Lsblk)
    requires |disks| > 0 && SameButTable(l, l1) && SameButTable(l1, l2)
    requires forall e :: e in l && e != disks[0] ==> l1[e] == l[e]
    requires forall e :: e in l1 && e !in disks[1..] ==> l2[e] == l1[e]
    ensures SameButTable(l, l2)
    ensures forall e :: e in l && e !in disks ==> l2[e] == l[e]
  {
    SameButTableTrans(l, l1, l2);
    forall e | e in l && e !in disks
      ensures l2[e] == l[e]
    {
      assert e != disks[0] && e !in disks[1..];
    }
  }

  /** The step of PartitionTables for the stored tables: the first disk's
      row follows the first output and the others follow their own. */
  lemma TablesStepTabled(env: Env, w: World, l: Lsblk, disks: seq<Path>, l1: Lsblk, l2: Lsblk)
    requires |disks| > 0 && Distinct(disks) && l1.Keys == l.Keys && l2.Keys == l1.Keys
    requires forall e :: e in l && e != disks[0] ==> l1[e] == l[e]
    requires disks[0] in l ==> l1[disks[0]] == Tabled(l[disks[0]], env.run(w.trace, PartedArgv(disks[0])).stdout)
    requires forall e :: e in l1 && e !in disks[1..] ==> l2[e] == l1[e]
    requires var t := w.trace + [Ran(PartedArgv(disks[0]))]; var ds := disks[1..];
      Distinct(ds) ==> forall i :: 0 <= i < |ds| && ds[i] in l1 ==>
        l2[ds[i]] == Tabled(l1[ds[i]], PartedReply(env, t, ds, i).stdout)
    ensures forall i :: 0 <= i < |disks| && disks[i] in l ==>
      l2[disks[i]] == Tabled(l[disks[i]], PartedReply(env, w.trace, disks, i).stdout)
  {
    var t := w.trace + [Ran(PartedArgv(disks[0]))];
    var ds := disks[1..];
    assert Distinct(ds);
    forall i | 0 <= i < |disks| && disks[i] in l
      ensures l2[disks[i]] == Tabled(l[disks[i]], PartedReply(env, w.trace, disks, i).stdout)
    {
      if i > 0 {
        assert ds[i - 1] == disks[i] && disks[i] != disks[0];
        TabledAt(env, w.trace, disks, i, l2[disks[i]], l1[disks[i]]);
      } else {
        PartedFirst(env, w.trace, disks);
        assert disks[0] !in ds;
      }
    }
  }

  /** Row `i > 0` over `disks` is row `i - 1` over the rest. */
  lemma TabledAt(env: Env, t: seq<Event>, disks: seq<Path>, i: int, r2: Disk, r1: Disk)
    requires 0 < i < |disks|
    requires r2 == Tabled(r1, PartedReply(env, t + [Ran(PartedArgv(disks[0]))], disks[1..], i - 1).stdout)
    ensures r2 == Tabled(r1, PartedReply(env, t, disks, i).stdout)
  {
    PartedShiftAt(env, t, disks, i - 1);
  }

  /** On success over distinct disks, every listed disk's row follows its
      own parted output: PARTTABLE is what the last announcing line gives,
      and the row is unchanged when none announces a table. */
  lemma {:induction false} PartitionTablesFollow(env: Env, w: World, l: Lsblk, disks: seq<Path>)
    ensures var o := PartitionTables(env, w, l, disks);
      o.r.Ok? && Distinct(disks) ==> forall i :: 0 <= i < |disks| && disks[i] in l ==>
        o.r.value[disks[i]] == Tabled(l[disks[i]], PartedReply(env, w.trace, disks, i).stdout)
    decreases |disks|
  {
    if |disks| > 0 {
      var o := PartedStep(env, w, l, disks[0]);
      if o.r.Ok? {
        var rest := PartitionTables(env, o.w, o.r.value, disks[1..]);
        PartitionTablesFollow(env, o.w, o.r.value, disks[1..]);
        if rest.r.Ok? && Distinct(disks) {
          TablesStepTabled(env, w, l, disks, o.r.value, rest.r.value);
        }
      }
    }
  }

  /** partition_table_refresh over every disk of the model, in the order the
      lsblk map yields them. */
  function PartitionTableRefresh(env: Env, w: World, m: Model): (o: Out<Model>)
    ensures o.r.Ok? ==> o.r.value == m.(lsblk := o.r.value.lsblk)
    ensures var disks := env.order(m.lsblk.Keys);
      && (o.r.Ok? <==> forall i :: 0 <= i < |disks| ==> PartedOk(env, w.trace, disks, i))
      && (o.r.Err? ==> o.r.error.cls == UpdaterError)
      && (o.r.Ok? ==> o.w.trace == w.trace + PartedRuns(disks))
    ensures o.r.Ok? ==> SameButTable(m.lsblk, o.r.value.lsblk)
    ensures var disks := env.order(m.lsblk.Keys);
      o.r.Ok? && OrderIsFaithful(env, m.lsblk.Keys) ==> forall i :: 0 <= i < |disks| ==>
        o.r.value.lsblk[disks[i]] == Tabled(m.lsblk[disks[i]], PartedReply(env, w.trace, disks, i).stdout)
  {
    var o := PartitionTables(env, w, m.lsblk, env.order(m.lsblk.Keys));
    PartitionTablesFollow(env, w, m.lsblk, env.order(m.lsblk.Keys));
    if o.r.Err? then Out(o.w, Err(o.r.error)) else Out(o.w, Ok(m.(lsblk := o.r.value)))
  }
}
