/** The OSD controller (_modules/sesceph/osd.py): device names, the
    partition-or-disk probe, activation targets, the partition type checks
    and prepare with its guards and its `ceph-disk prepare` argument vector.

    The controller works on a node model its caller has already refreshed
    (update_model); the model is a parameter.  The ceph-disk executable is
    named by its plain command name; whether it was found is
    `Env.cephDiskFound`. */
module Osd {
  import opened Wrappers
  import opened Text
  import opened Exec
  import opened NodeModel
  import Updater
  import Lsblk
  import Keyring

  const CephDisk := "ceph-disk"

  /** model.init as the controller sets it. */
  const InitName := "systemd"

  // ---------------------------------------------------------------- names

  /** _get_dev_name: the path after "/dev/" with every "/" turned into "!";
      a path outside /dev/ fails the assertion. */
  function DevName(path: Path): (r: Result<string>)
    ensures r.Ok? <==> StartsWith(path, "/dev/")
    ensures r.Err? ==> r.error.cls == Builtin
    ensures r.Ok? ==> |r.value| == |path| - 5
    ensures r.Ok? ==> forall k :: 0 <= k < |r.value| ==> r.value[k] == (if path[5 + k] == '/' then '!' else path[5 + k])
  {
    if !StartsWith(path, "/dev/") then Raise(Builtin, "AssertionError")
    else Ok(ReplaceChar(path[5..], '/', '!'))
  }

  /** A device name never holds "/", and for a path without "!" the name
      gives the path back. */
  lemma DevNameInverse(path: Path)
    requires StartsWith(path, "/dev/")
    ensures '/' !in DevName(path).value
    ensures '!' !in path ==> "/dev/" + ReplaceChar(DevName(path).value, '!', '/') == path
  {
    var n := DevName(path).value;
    if '!' !in path {
      var back := "/dev/" + ReplaceChar(n, '!', '/');
      assert |back| == |path|;
      forall k | 0 <= k < |path|
        ensures back[k] == path[k]
      {
        if k >= 5 {
          assert back[k] == ReplaceChar(n, '!', '/')[k - 5];
          assert path[k] != '!';
        } else {
          assert path[..5] == "/dev/";
          assert path[k] == path[..5][k];
        }
      }
    }
  }

  /** is_partition: the device must exist and, resolved, be a block device
      under /dev/.  It is a disk when /sys/block has its name, a partition
      when some /sys/block entry has it, and otherwise an error. */
  /** The probe's first steps succeed: the device exists and resolves to a
      block device under /dev/. */
  predicate Probed(env: Env, dev: Path) {
    env.pathExists(dev) && env.isBlock(env.realpath(dev)) && DevName(env.realpath(dev)).Ok?
  }

  function ProbeName(env: Env, dev: Path): string
    requires Probed(env, dev)
  {
    DevName(env.realpath(dev)).value
  }

  function IsPartition(env: Env, dev: Path): (r: Result<bool>)
    ensures !env.pathExists(dev) || !env.isBlock(env.realpath(dev)) ==> r.Err? && r.error.cls == OsdError
    ensures r == Ok(false) <==> Probed(env, dev) && ProbeName(env, dev) in env.sysBlock
    ensures r == Ok(true) <==> Probed(env, dev) && ProbeName(env, dev) !in env.sysBlock
                               && exists b :: b in env.sysBlock && env.sysBlockHas(b, ProbeName(env, dev))
  {
    if !env.pathExists(dev) then Raise(OsdError, "device not found " + dev)
    else
      var resolved := env.realpath(dev);
      if !env.isBlock(resolved) then Raise(OsdError, "not a block device " + resolved)
      else
        var name :- DevName(resolved);
        if name in env.sysBlock then Ok(false)
        else if exists b :: b in env.sysBlock && env.sysBlockHas(b, name) then Ok(true)
        else Raise(OsdError, "not a disk or partition " + resolved)
  }

  // ---------------------------------------------------------------- activation

  /** _get_osd_partitons_by_disk. */
  function PartitionsByDisk(m: Model, disk: Path): (s: set<Path>)
    ensures s <= m.partitionsOsd
    ensures disk !in m.lsblk || m.lsblk[disk].parts.None? ==> s == {}
    ensures disk in m.lsblk && m.lsblk[disk].parts.Some? ==>
      forall p :: p in s <==> p in m.lsblk[disk].parts.value && p in m.partitionsOsd
  {
    match Lookup(m.lsblk, disk)
    case None => {}
    case Some(d) =>
      match d.parts
      case None => {}
      case Some(parts) => set p | p in parts && p in m.partitionsOsd
  }

  /** _activate_targets_item: a partition stands for itself, a disk for its
      OSD partitions. */
  function TargetsItem(env: Env, m: Model, raw: Path): (r: Result<set<Path>>)
    ensures r.Ok? <==> IsPartition(env, env.realpath(raw)).Ok?
    ensures IsPartition(env, env.realpath(raw)) == Ok(true) ==> r == Ok({env.realpath(raw)})
    ensures IsPartition(env, env.realpath(raw)) == Ok(false) ==> r == Ok(PartitionsByDisk(m, env.realpath(raw)))
  {
    var norm := env.realpath(raw);
    var isPart :- IsPartition(env, norm);
    if isPart then Ok({norm}) else Ok(PartitionsByDisk(m, norm))
  }

  /** Some item among `raws` names `p` as a target. */
  predicate Covers(env: Env, m: Model, raws: seq<Path>, p: Path) {
    exists i :: 0 <= i < |raws| && TargetsItem(env, m, raws[i]).Ok? && p in TargetsItem(env, m, raws[i]).value
  }

  /** The union of the items' targets; the first item that fails raises. */
  function Targets(env: Env, m: Model, raws: seq<Path>): (r: Result<set<Path>>)
    ensures r.Ok? <==> forall i :: 0 <= i < |raws| ==> TargetsItem(env, m, raws[i]).Ok?
    ensures r.Ok? ==> forall p :: p in r.value <==> Covers(env, m, raws, p)
    decreases |raws|
  {
    if |raws| == 0 then Ok({})
    else
      var n := |raws| - 1;
      PrefixAt(raws);
      match Targets(env, m, raws[..n])
      case Err(e) => Err(e)
      case Ok(before) =>
        match TargetsItem(env, m, raws[n])
        case Err(e) => Err(e)
        case Ok(last) =>
          CoversSnoc(env, m, raws);
          Ok(before + last)
  }

  lemma PrefixAt(raws: seq<Path>)
    requires |raws| > 0
    ensures forall i :: 0 <= i < |raws| - 1 ==> raws[..|raws| - 1][i] == raws[i]
  {
  }

  /** Covering by all items is covering by all but the last, or by the last. */
  lemma CoversSnoc(env: Env, m: Model, raws: seq<Path>)
    requires |raws| > 0
    ensures forall p :: Covers(env, m, raws, p) <==>
      Covers(env, m, raws[..|raws| - 1], p) || (TargetsItem(env, m, raws[|raws| - 1]).Ok? && p in TargetsItem(env, m, raws[|raws| - 1]).value)
  {
    var n := |raws| - 1;
    assert forall i :: 0 <= i < n ==> raws[..n][i] == raws[i];
  }

  /** `ceph-disk -v activate --mark-init systemd --mount <partition>`. */
  function ActivateArgv(part: Path): Argv {
    [CephDisk, "-v", "activate", "--mark-init", InitName, "--mount", part]
  }

  function ActivateRuns(parts: seq<Path>): (evs: seq<Event>)
    ensures |evs| == |parts|
  {
    if |parts| == 0 then [] else [Ran(ActivateArgv(parts[0]))] + ActivateRuns(parts[1..])
  }

  /** The `i`th event activates the `i`th partition. */
  lemma {:induction false} ActivateRunsAt(parts: seq<Path>)
    ensures forall i :: 0 <= i < |parts| ==> ActivateRuns(parts)[i] == Ran(ActivateArgv(parts[i]))
    decreases |parts|
  {
    if |parts| > 0 {
      ActivateRunsAt(parts[1..]);
    }
  }

  /** activate_partiion for each in turn; the first non-zero exit raises. */
  function ActivateAll(env: Env, w: World, parts: seq<Path>): (o: Out<()>)
    ensures Extends(w, o.w) && o.w.dirs == w.dirs
    ensures o.r.Ok? ==> o.w.trace == w.trace + ActivateRuns(parts)
    ensures o.r.Err? ==> o.r.error.cls == OsdError
    decreases |parts|
  {
    if |parts| == 0 then Out(w, Ok(()))
    else
      var (w1, reply) := Execute(env, w, ActivateArgv(parts[0]));
      if reply.retcode != 0 then Out(w1, Raise(OsdError, "Failed executing ceph-disk activate"))
      else
        var rest := ActivateAll(env, w1, parts[1..]);
        ExtendsTrans(w, w1, rest.w);
        ActivateRunsCons(w.trace, parts);
        rest
  }

  lemma ActivateRunsCons(t: seq<Event>, parts: seq<Path>)
    requires |parts| > 0
    ensures t + ActivateRuns(parts) == (t + [Ran(ActivateArgv(parts[0]))]) + ActivateRuns(parts[1..])
  {
  }

  /** Under an order that lists each target once, the activations run are
      one per target, each once. */
  lemma RunsOfOrder(order: seq<Path>, t: set<Path>)
    requires IsOrderOf(order, t)
    ensures forall i :: 0 <= i < |order| ==> ActivateRuns(order)[i] == Ran(ActivateArgv(order[i]))
    ensures forall p :: p in t ==> Ran(ActivateArgv(p)) in ActivateRuns(order)
    ensures forall i :: 0 <= i < |order| ==> order[i] in t
    ensures forall i, j :: 0 <= i < j < |order| ==> ActivateRuns(order)[i] != ActivateRuns(order)[j]
  {
    var runs := ActivateRuns(order);
    ActivateRunsAt(order);
    forall p | p in t
      ensures Ran(ActivateArgv(p)) in runs
    {
      var k :| 0 <= k < |order| && order[k] == p;
      assert runs[k] == Ran(ActivateArgv(p));
    }
    forall i, j | 0 <= i < j < |order|
      ensures runs[i] != runs[j]
    {
      assert runs[i].argv[6] == order[i];
      assert runs[j].argv[6] == order[j];
    }
  }

  /** What activate_targets returns: the OSD set when given nothing, True
      once it has activated. */
  datatype Activation = Listed(parts: set<Path>) | Activated

  /** The raw targets: osd_dev, then osd_dev_list. */
  function TargetItems(osdDev: Option<Path>, osdDevList: Option<seq<Path>>): (raws: seq<Path>)
    ensures forall x :: x in raws <==> osdDev == Some(x) || (osdDevList.Some? && x in osdDevList.value)
  {
    (if osdDev.Some? then [osdDev.value] else []) + (if osdDevList.Some? then osdDevList.value else [])
  }

  /** activate_targets: with neither argument, the OSD set and nothing run;
      otherwise every target partition activated. */
  function ActivateTargets(env: Env, w: World, m: Model, osdDev: Option<Path>, osdDevList: Option<seq<Path>>): (o: Out<Activation>)
    ensures osdDev.None? && osdDevList.None? ==> o == Out(w, Ok(Listed(m.partitionsOsd)))
    ensures osdDev.Some? || osdDevList.Some? ==>
      var t := Targets(env, m, TargetItems(osdDev, osdDevList));
      && (t.Err? ==> o == Out(w, Err(t.error)))
      && (t.Ok? && o.r.Ok? ==> o.r.value == Activated && o.w.trace == w.trace + ActivateRuns(env.order(t.value)))
      && (o.r.Err? ==> t.Err? || o.r.error.cls == OsdError)
  {
    if osdDev.None? && osdDevList.None? then Out(w, Ok(Listed(m.partitionsOsd)))
    else
      match Targets(env, m, TargetItems(osdDev, osdDevList))
      case Err(e) => Out(w, Err(e))
      case Ok(targets) =>
        var a := ActivateAll(env, w, env.order(targets));
        if a.r.Err? then Out(a.w, Err(a.r.error)) else Out(a.w, Ok(Activated))
  }

  /** Under a faithful iteration order, a successful activation runs one
      activate per target partition: each target once, and nothing else. */
  lemma ActivatesEachOnce(env: Env, w: World, m: Model, osdDev: Option<Path>, osdDevList: Option<seq<Path>>)
    requires osdDev.Some? || osdDevList.Some?
    requires Targets(env, m, TargetItems(osdDev, osdDevList)).Ok?
    requires OrderIsFaithful(env, Targets(env, m, TargetItems(osdDev, osdDevList)).value)
    requires ActivateTargets(env, w, m, osdDev, osdDevList).r.Ok?
    ensures var t := Targets(env, m, TargetItems(osdDev, osdDevList)).value;
      var evs := Since(w, ActivateTargets(env, w, m, osdDev, osdDevList).w);
      && (forall p :: p in t ==> Ran(ActivateArgv(p)) in evs)
      && (forall i :: 0 <= i < |evs| ==> evs[i].Ran? && |evs[i].argv| == 7 && evs[i].argv[6] in t)
      && (forall i, j :: 0 <= i < j < |evs| ==> evs[i] != evs[j])
  {
    var t := Targets(env, m, TargetItems(osdDev, osdDevList)).value;
    var o := ActivateTargets(env, w, m, osdDev, osdDevList);
    assert Since(w, o.w) == ActivateRuns(env.order(t));
    RunsOfOrder(env.order(t), t);
  }

  // ---------------------------------------------------------------- partition types

  /** _get_part_details: the partition's record under its parent disk; an
      unknown parent, an unknown disk or a disk without partitions raises. */
  function PartDetails(m: Model, p: Path): (r: Result<Option<Record>>)
    ensures r.Ok? <==> p in m.partParent && m.partParent[p] in m.lsblk && m.lsblk[m.partParent[p]].parts.Some?
    ensures r.Err? ==> r.error.cls == OsdError
    ensures r.Ok? ==> r.value == Lookup(m.lsblk[m.partParent[p]].parts.value, p)
  {
    if p !in m.partParent then Raise(OsdError, "Programming error")
    else if m.partParent[p] !in m.lsblk then Raise(OsdError, "Programming error")
    else if m.lsblk[m.partParent[p]].parts.None? then Raise(OsdError, "Programming error")
    else Ok(Lookup(m.lsblk[m.partParent[p]].parts.value, p))
  }

  /** _get_part_type: PARTTYPE of a partition that must have a record. */
  function PartType(m: Model, p: Path): (r: Result<Option<string>>)
    ensures r.Ok? <==> PartDetails(m, p).Ok? && PartDetails(m, p).value.Some?
    ensures r.Err? ==> r.error.cls == OsdError
    ensures r.Ok? ==> r.value == Lookup(PartDetails(m, p).value.value, "PARTTYPE")
  {
    var d :- PartDetails(m, p);
    if d.None? then Raise(OsdError, "Programming error") else Ok(Lookup(d.value, "PARTTYPE"))
  }

  /** The partition table type of a partition's disk. */
  function TableOfParent(m: Model, p: Path): Option<string>
    requires p in m.partParent && m.partParent[p] in m.lsblk
  {
    Lookup(m.lsblk[m.partParent[p]].attrs, "PARTTABLE")
  }

  /** _prepare_check_partition_type_data and _journel with `guid`: a
      partition of the right type passes; one of another type passes only
      on a GPT disk, where its type can be changed. */
  function CheckType(m: Model, p: Path, guid: string): (r: Result<()>)
    ensures r.Ok? <==> PartType(m, p).Ok? && (PartType(m, p).value == Some(guid) || TableOfParent(m, p) == Some("gpt"))
    ensures r.Err? ==> r.error.cls == OsdError
  {
    var t :- PartType(m, p);
    if t == Some(guid) then Ok(())
    else if TableOfParent(m, p) != Some("gpt") then Raise(OsdError, "Unsupported partition table type")
    else Ok(())
  }

  /** A wrongly typed partition on an MBR disk is refused, and the type GUID
      check is the only difference between the data and the journal check. */
  lemma WrongTypeNeedsGpt(m: Model, p: Path)
    requires PartType(m, p).Ok? && TableOfParent(m, p) == Some("dos")
    ensures CheckType(m, p, OsdTypeGuid).Ok? <==> PartType(m, p).value == Some(OsdTypeGuid)
    ensures CheckType(m, p, JournalTypeGuid).Ok? <==> PartType(m, p).value == Some(JournalTypeGuid)
    ensures !(CheckType(m, p, OsdTypeGuid).Ok? && CheckType(m, p, JournalTypeGuid).Ok?)
  {
  }

  // ---------------------------------------------------------------- prepare

  /** The keyword arguments prepare reads (osd_fs_type is read and then
      overwritten, so it is not among them). */
  datatype PrepareArgs = PrepareArgs(
    osdDev: Option<Path>,
    journalDev: Option<Path>,
    clusterName: Option<string>,
    clusterUuid: Option<string>,
    fsType: Option<string>,
    osdUuid: Option<string>,
    journalUuid: Option<string>
  )

  /** A flag and its value, when the value is given. */
  function Opt(flag: string, v: Option<string>): (a: Argv)
    ensures v.None? ==> a == []
    ensures v.Some? ==> a == [flag, v.value]
  {
    if v.Some? then [flag, v.value] else []
  }

  /** The options of the prepare vector shared by both copies. */
  function Options(name: Option<string>, uuid: Option<string>, osdUuid: Option<string>, journalUuid: Option<string>): Argv {
    Opt("--cluster", name) + Opt("--cluster-uuid", uuid) + Opt("--osd-uuid", osdUuid) + Opt("--journal-uuid", journalUuid)
  }

  /** The ceph-disk prepare vector of this copy: the two device flags come
      bare, and the devices themselves come last, data first. */
  function PrepareArgv(fs: string, dev: Path, journal: Option<Path>, name: Option<string>, uuid: Option<string>,
                       osdUuid: Option<string>, journalUuid: Option<string>): (argv: Argv)
    ensures |argv| >= 7
    ensures argv[..6] == [CephDisk, "-v", "prepare", "--fs-type", fs, "--data-dev"]
    ensures journal.None? ==> argv == argv[..6] + Options(name, uuid, osdUuid, journalUuid) + [dev]
    ensures journal.Some? ==> argv == argv[..6] + ["--journal-dev"] + Options(name, uuid, osdUuid, journalUuid) + [dev, journal.value]
  {
    [CephDisk, "-v", "prepare", "--fs-type", fs, "--data-dev"]
    + (if journal.Some? then ["--journal-dev"] else [])
    + Options(name, uuid, osdUuid, journalUuid)
    + [dev] + (if journal.Some? then [journal.value] else [])
  }

  /** Each option appears exactly when its value is given, immediately
      followed by the value, and the data device is never right after its
      flag when a journal is given. */
  lemma PrepareArgvOptions(fs: string, dev: Path, journal: Option<Path>, name: Option<string>, uuid: Option<string>,
                           osdUuid: Option<string>, journalUuid: Option<string>)
    requires name.Some?
    ensures var argv := PrepareArgv(fs, dev, journal, name, uuid, osdUuid, journalUuid);
      var k := if journal.Some? then 7 else 6;
      argv[k] == "--cluster" && argv[k + 1] == name.value
    ensures journal.Some? ==> PrepareArgv(fs, dev, journal, name, uuid, osdUuid, journalUuid)[6] == "--journal-dev"
    ensures journal.Some? ==> var argv := PrepareArgv(fs, dev, journal, name, uuid, osdUuid, journalUuid);
      argv[|argv| - 2..] == [dev, journal.value]
  {
  }

  /** Whether discovered_osd already holds, under the cluster's fsid, an OSD
      with the given OSD uuid or journal uuid. */
  predicate Existing(m: Model, uuid: Option<string>, osdUuid: Option<string>, journalUuid: Option<string>) {
    uuid in m.discoveredOsd
    && exists md :: md in m.discoveredOsd[uuid] && ((osdUuid.Some? && Lookup(md, "fsid") == osdUuid) || (journalUuid.Some? && Lookup(md, "journal_uuid") == journalUuid))
  }

  /** No ceph-disk call among the events since `before`. */
  predicate NoCephDiskSince(before: World, after: World) {
    Extends(before, after)
    && forall i | |before.trace| <= i < |after.trace| :: !(after.trace[i].Ran? && |after.trace[i].argv| > 0 && after.trace[i].argv[0] == CephDisk)
  }

  /** The defaulted cluster name and fsid prepare uses: the same defaults as
      defaults_refresh on the two arguments. */
  function ClusterIds(env: Env, w: World, a: PrepareArgs): (r: Result<(Option<string>, Option<string>)>)
    ensures r.Ok? ==> r.value.1.Some?
    ensures a.clusterName.None? && a.clusterUuid.None? && r.Ok? ==> r.value.0 == Some("ceph")
    ensures a.clusterUuid.Some? ==> r.Ok? && r.value.1 == a.clusterUuid
  {
    var m :- Updater.DefaultsRefresh(env, w, Fresh(ClusterArgs(a.clusterName, a.clusterUuid, None)));
    Ok((m.clusterName, m.clusterUuid))
  }

  /** The partition has a record, and it has a mount point exactly when
      `mounted`. */
  predicate Mounted(m: Model, dev: Path, mounted: bool) {
    PartDetails(m, dev).Ok? && PartDetails(m, dev).value.Some? && ("MOUNTPOINT" in PartDetails(m, dev).value.value <==> mounted)
  }

  /** The device part of prepare, once the guards passed and the tables are
      read: a partition in the journal set or mounted, or a disk with any
      partition, is taken as done; a partition needs a journal device and
      both type checks to pass; a disk must be known to lsblk. */
  function PrepareDevice(env: Env, w: World, m: Model, dev: Path, a: PrepareArgs, name: Option<string>,
                         uuid: Option<string>, fs: string): (o: Out<bool>)
    ensures o.r.Ok? ==> o.r.value
    ensures IsPartition(env, dev).Err? ==> o == Out(w, Err(IsPartition(env, dev).error))
    ensures IsPartition(env, dev) == Ok(true) && (dev in m.partitionsJournal || Mounted(m, dev, true)) ==>
      o == Out(w, Ok(true))
    ensures IsPartition(env, dev) == Ok(true) && dev !in m.partitionsJournal && a.journalDev.None? && Mounted(m, dev, false) ==>
      o.w == w && o.r.Err? && o.r.error.cls == OsdError
    ensures IsPartition(env, dev) == Ok(false) && dev !in m.lsblk ==> o.w == w && o.r.Err? && o.r.error.cls == OsdError
    ensures IsPartition(env, dev) == Ok(false) && dev in m.lsblk && m.lsblk[dev].parts.Some? && |m.lsblk[dev].parts.value| > 0 ==>
      o == Out(w, Ok(true))
    ensures o.w == w || o.w == Execute(env, w, PrepareArgv(fs, dev, a.journalDev, name, uuid, a.osdUuid, a.journalUuid)).0
    ensures o.w != w ==> env.cephDiskFound && (o.r.Ok? <==> env.run(w.trace, PrepareArgv(fs, dev, a.journalDev, name, uuid, a.osdUuid, a.journalUuid)).retcode == 0)
    ensures o.w != w && IsPartition(env, dev) == Ok(true) ==>
      CheckType(m, dev, OsdTypeGuid).Ok? && CheckType(m, a.journalDev.value, JournalTypeGuid).Ok?
  {
    match IsPartition(env, dev)
    case Err(e) => Out(w, Err(e))
    case Ok(isPart) =>
      if isPart then
        if dev in m.partitionsJournal then Out(w, Ok(true))
        else
          match PartDetails(m, dev)
          case Err(e) => Out(w, Err(e))
          case Ok(details) =>
            if details.None? then Out(w, Raise(Builtin, "AttributeError: 'NoneType' object has no attribute 'get'"))
            else if "MOUNTPOINT" in details.value then Out(w, Ok(true))
            else if a.journalDev.None? then Out(w, Raise(OsdError, "Journel device must be specified"))
            else
              match CheckType(m, dev, OsdTypeGuid)
              case Err(e) => Out(w, Err(e))
              case Ok(_) =>
                match CheckType(m, a.journalDev.value, JournalTypeGuid)
                case Err(e) => Out(w, Err(e))
                case Ok(_) => RunPrepare(env, w, PrepareArgv(fs, dev, a.journalDev, name, uuid, a.osdUuid, a.journalUuid))
      else if dev !in m.lsblk then Out(w, Raise(OsdError, "Not a block device"))
      else if m.lsblk[dev].parts.Some? && |m.lsblk[dev].parts.value| > 0 then Out(w, Ok(true))
      else RunPrepare(env, w, PrepareArgv(fs, dev, a.journalDev, name, uuid, a.osdUuid, a.journalUuid))
  }

  /** The ceph-disk call: refused when ceph-disk was not found, raising on a
      non-zero exit. */
  function RunPrepare(env: Env, w: World, argv: Argv): (o: Out<bool>)
    ensures !env.cephDiskFound ==> o.w == w && o.r.Err? && o.r.error.cls == OsdError
    ensures env.cephDiskFound ==> o.w == Execute(env, w, argv).0 && o.w != w
    ensures env.cephDiskFound ==> (o.r.Ok? <==> env.run(w.trace, argv).retcode == 0)
    ensures o.r.Ok? ==> o.r.value
    ensures o.r.Err? ==> o.r.error.cls == OsdError
  {
    if !env.cephDiskFound then Out(w, Raise(OsdError, "Error 'ceph-disk' command not find"))
    else
      var c := ExecuteChecked(env, w, argv, OsdError, "Failed executing ceph-disk prepare");
      assert |c.w.trace| > |w.trace|;
      if c.r.Err? then Out(c.w, Err(c.r.error)) else Out(c.w, Ok(true))
  }

  /** The bootstrap-osd keyring of the defaulted cluster exists. */
  predicate HasBootstrap(env: Env, w: World, a: PrepareArgs)
    requires ClusterIds(env, w, a).Ok?
  {
    Keyring.BootstrapPath(Keyring.Osd, ClusterIds(env, w, a).value.0, None) in w.files
  }

  /** prepare: the cluster defaults, then osd_dev and the bootstrap-osd
      keyring are required before anything else happens; the OSD data root
      is made when missing, the partition tables read, and an OSD or journal
      uuid already known for the cluster ends it with nothing prepared. */
  function Prepare(env: Env, w: World, m: Model, a: PrepareArgs): (o: Out<bool>)
    ensures ClusterIds(env, w, a).Err? ==> o == Out(w, Err(ClusterIds(env, w, a).error))
    ensures ClusterIds(env, w, a).Ok? && a.osdDev.None? ==> o.w == w && o.r.Err? && o.r.error.cls == OsdError
    ensures ClusterIds(env, w, a).Ok? && a.osdDev.Some? && !HasBootstrap(env, w, a) ==>
      o.w == w && o.r.Err? && o.r.error.cls == OsdError
    ensures o.r.Ok? ==> o.r.value && LibOsd in o.w.dirs
    ensures ClusterIds(env, w, a).Ok? && a.osdDev.Some? && HasBootstrap(env, w, a) ==>
      var w1 := if LibOsd in w.dirs then w else MakeDirs(w, LibOsd);
      var t := Lsblk.PartitionTableRefresh(env, w1, m);
      t.r.Ok? && Existing(t.r.value, ClusterIds(env, w, a).value.1, a.osdUuid, a.journalUuid) ==>
        o == Out(t.w, Ok(true)) && NoCephDiskSince(w, o.w)
  {
    match ClusterIds(env, w, a)
    case Err(e) => Out(w, Err(e))
    case Ok(ids) =>
      var (name, uuid) := ids;
      var fs := a.fsType.GetOr("xfs");
      if a.osdDev.None? then Out(w, Raise(OsdError, "osd_dev not specified"))
      else
        var boot := Keyring.BootstrapPath(Keyring.Osd, name, None);
        if boot !in w.files then Out(w, Raise(OsdError, boot))
        else
          var w1 := if LibOsd in w.dirs then w else MakeDirs(w, LibOsd);
          var dev := env.realpath(a.osdDev.value);
          var t := Lsblk.PartitionTableRefresh(env, w1, m);
          if t.r.Err? then Out(t.w, Err(t.r.error))
          else
            var m1 := t.r.value;
            if Existing(m1, uuid, a.osdUuid, a.journalUuid) then
              PartedOnly(w, w1, t.w, env.order(m.lsblk.Keys));
              DirsKept(env, w1, m);
              Out(t.w, Ok(true))
            else
              var p := PrepareDevice(env, t.w, m1, dev, a, name, uuid, fs);
              assert LibOsd in t.w.dirs by { DirsKept(env, w1, m); }
              p
  }

  /** Reading the partition tables keeps the directories. */
  lemma DirsKept(env: Env, w: World, m: Model)
    ensures Lsblk.PartitionTableRefresh(env, w, m).w.dirs == w.dirs
  {
    TablesKeepDirs(env, w, m.lsblk, env.order(m.lsblk.Keys));
  }

  lemma {:induction false} TablesKeepDirs(env: Env, w: World, l: NodeModel.Lsblk, disks: seq<Path>)
    ensures Lsblk.PartitionTables(env, w, l, disks).w.dirs == w.dirs
    decreases |disks|
  {
    if |disks| > 0 {
      var o := ExecuteChecked(env, w, Lsblk.PartedArgv(disks[0]), UpdaterError, "Failed executing parted");
      if o.r.Ok? {
        var l1 := Lsblk.SetTable(l, disks[0], Lsblk.TableOf(Split(o.r.value.stdout, '\n')));
        TablesKeepDirs(env, o.w, l1, disks[1..]);
      }
    }
  }

  /** Making the data root and reading the tables issue no ceph-disk call. */
  lemma PartedOnly(w: World, w1: World, after: World, disks: seq<Path>)
    requires w1 == w || w1.trace == w.trace + [DirsMade(LibOsd)]
    requires after.trace == w1.trace + Lsblk.PartedRuns(disks)
    ensures NoCephDiskSince(w, after)
  {
    forall i | |w.trace| <= i < |after.trace|
      ensures !(after.trace[i].Ran? && |after.trace[i].argv| > 0 && after.trace[i].argv[0] == CephDisk)
    {
      if i >= |w1.trace| {
        Lsblk.PartedRunsAt(disks);
        assert after.trace[i] == Lsblk.PartedRuns(disks)[i - |w1.trace|];
      }
    }
  }
}
