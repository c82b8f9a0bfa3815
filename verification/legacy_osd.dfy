/** The OSD functions of the legacy package (sesceph/osd.py).

    Its osd_ctrl has only _get_dev_name and is_partition, which are the same
    as the current controller's (`Osd.DevName`, `Osd.IsPartition`).  Its
    osd_prepare builds its own node model, and it looks up existing OSDs in
    discovered_osd, an attribute the legacy model class does not define and
    that only discover_osd_refresh, which osd_prepare does not run, creates:
    `LegacyPrepare` raises AttributeError at that lookup, and
    `LegacyPrepareFixed` runs discover_osd_refresh before it. */
module LegacyOsd {
  import opened Wrappers
  import opened Text
  import opened Exec
  import opened NodeModel
  import opened Osd
  import Updater
  import LegacyUpdater
  import LegacyKeyring
  import Keyring

  /** The legacy ceph-disk prepare vector: each device flag is followed by
      its device, and the options come last. */
  function LegacyPrepareArgv(fs: string, dev: Path, journal: Option<Path>, name: Option<string>, uuid: Option<string>,
                             osdUuid: Option<string>, journalUuid: Option<string>): (argv: Argv)
    ensures |argv| >= 7 && argv[..7] == [CephDisk, "-v", "prepare", "--fs-type", fs, "--data-dev", dev]
    ensures argv == argv[..7] + Opt("--journal-dev", journal) + Options(name, uuid, osdUuid, journalUuid)
    ensures journal.Some? ==> |argv| >= 9 && argv[7..9] == ["--journal-dev", journal.value]
  {
    [CephDisk, "-v", "prepare", "--fs-type", fs, "--data-dev", dev] + Opt("--journal-dev", journal) + Options(name, uuid, osdUuid, journalUuid)
  }

  /** Both copies hand ceph-disk the same words, only in another order. */
  lemma SameWords(fs: string, dev: Path, journal: Option<Path>, name: Option<string>, uuid: Option<string>,
                  osdUuid: Option<string>, journalUuid: Option<string>)
    ensures multiset(LegacyPrepareArgv(fs, dev, journal, name, uuid, osdUuid, journalUuid))
         == multiset(PrepareArgv(fs, dev, journal, name, uuid, osdUuid, journalUuid))
  {
    var head := [CephDisk, "-v", "prepare", "--fs-type", fs, "--data-dev"];
    var opts := Options(name, uuid, osdUuid, journalUuid);
    var legacy := LegacyPrepareArgv(fs, dev, journal, name, uuid, osdUuid, journalUuid);
    var current := PrepareArgv(fs, dev, journal, name, uuid, osdUuid, journalUuid);
    assert legacy[..7] == head + [dev];
    assert current[..6] == head;
    if journal.Some? {
      SameWordsJournal(head, dev, journal.value, opts, legacy, current);
    } else {
      SameWordsBare(head, dev, opts, legacy, current);
    }
  }

  lemma SameWordsJournal(head: seq<string>, dev: Path, journal: Path, opts: seq<string>, legacy: seq<string>, current: seq<string>)
    requires legacy == head + [dev] + ["--journal-dev", journal] + opts
    requires current == head + ["--journal-dev"] + opts + [dev, journal]
    ensures multiset(legacy) == multiset(current)
  {
    var pair := ["--journal-dev", journal];
    assert pair[..1] == ["--journal-dev"] && pair[1..] == [journal];
    assert [dev, journal] == [dev] + pair[1..];
    Reordered(head, [dev], pair, opts);
  }

  lemma SameWordsBare(head: seq<string>, dev: Path, opts: seq<string>, legacy: seq<string>, current: seq<string>)
    requires legacy == head + [dev] + opts
    requires current == head + opts + [dev]
    ensures multiset(legacy) == multiset(current)
  {
  }

  lemma Reordered(head: seq<string>, x: seq<string>, pair: seq<string>, opts: seq<string>)
    requires |pair| == 2
    ensures multiset(head + x + pair + opts) == multiset(head + pair[..1] + opts + x + pair[1..])
  {
    assert pair == pair[..1] + pair[1..];
  }

  /** The model osd_prepare builds: a fresh model from the arguments, the
      defaults, the lsblk tree and the OSD and journal sets by type GUID;
      with `discover`, also discover_osd_refresh.  Without it the legacy
      model has no discovered_osd attribute; `discoveredOsd` then stays
      empty and is never read. */
  function LegacyModel(env: Env, w: World, a: PrepareArgs, discover: bool): (o: Out<Model>)
    ensures o.r.Ok? && !discover ==> o.r.value.discoveredOsd == map[]
    ensures discover ==> var plain := LegacyModel(env, w, a, false);
      && (plain.r.Err? ==> o == plain)
      && (plain.r.Ok? ==> o == LegacyUpdater.LegacyDiscoverOsdRefresh(env, plain.w, plain.r.value))
  {
    match Updater.DefaultsRefresh(env, w, Fresh(ClusterArgs(a.clusterName, a.clusterUuid, None)))
    case Err(e) => Out(w, Err(e))
    case Ok(m1) =>
      var p := LegacyUpdater.LegacyPartitionsAllRefresh(env, w, m1);
      if p.r.Err? then Out(p.w, Err(p.r.error))
      else
        var m3 := LegacyUpdater.LegacyDiscoverPartitionsRefresh(p.r.value);
        if discover then LegacyUpdater.LegacyDiscoverOsdRefresh(env, p.w, m3) else Out(p.w, Ok(m3))
  }

  /** What reading the missing discovered_osd attribute raises. */
  const NoDiscoveredOsd := "AttributeError: model instance has no attribute 'discovered_osd'"

  /** osd_prepare with or without the discovery of existing OSDs: the same
      guards as the controller's prepare, then the model, the existing-OSD
      lookup (which raises when nothing discovered the OSDs), and the
      whole-disk checks (there is no partition branch). */
  function PrepareWith(env: Env, w: World, a: PrepareArgs, discover: bool): (o: Out<bool>)
    ensures ClusterIds(env, w, a).Err? ==> o == Out(w, Err(ClusterIds(env, w, a).error))
    ensures ClusterIds(env, w, a).Ok? && a.osdDev.None? ==> o.w == w && o.r.Err? && o.r.error.cls == OsdError
    ensures ClusterIds(env, w, a).Ok? && a.osdDev.Some? && !HasBootstrap(env, w, a) ==>
      o.w == w && o.r.Err? && o.r.error.cls == OsdError
    ensures o.r.Ok? ==> o.r.value && discover
    ensures ClusterIds(env, w, a).Ok? && a.osdDev.Some? && HasBootstrap(env, w, a) ==>
      var w1 := if LibOsd in w.dirs then w else MakeDirs(w, LibOsd);
      var lm := LegacyModel(env, w1, a, discover);
      && (lm.r.Err? ==> o == Out(lm.w, Err(lm.r.error)))
      && (lm.r.Ok? && !discover ==> o == Out(lm.w, Raise(Builtin, NoDiscoveredOsd)))
      && (lm.r.Ok? && discover && Existing(lm.r.value, ClusterIds(env, w, a).value.1, a.osdUuid, a.journalUuid) ==> o == Out(lm.w, Ok(true)))
      && (lm.r.Ok? && discover && !Existing(lm.r.value, ClusterIds(env, w, a).value.1, a.osdUuid, a.journalUuid) ==>
            o == DiskStep(env, lm.w, lm.r.value, env.realpath(a.osdDev.value), a, ClusterIds(env, w, a).value))
  {
    match ClusterIds(env, w, a)
    case Err(e) => Out(w, Err(e))
    case Ok(ids) =>
      if a.osdDev.None? then Out(w, Raise(OsdError, "osd_dev not specified"))
      else
        var boot := LegacyKeyring.LegacyPath(Keyring.Osd, ids.0);
        if boot !in w.files then Out(w, Raise(OsdError, boot))
        else
          var w1 := if LibOsd in w.dirs then w else MakeDirs(w, LibOsd);
          var lm := LegacyModel(env, w1, a, discover);
          if lm.r.Err? then Out(lm.w, Err(lm.r.error))
          else if !discover then Out(lm.w, Raise(Builtin, NoDiscoveredOsd))
          else if Existing(lm.r.value, ids.1, a.osdUuid, a.journalUuid) then Out(lm.w, Ok(true))
          else DiskStep(env, lm.w, lm.r.value, env.realpath(a.osdDev.value), a, ids)
  }

  /** The device checks of osd_prepare: the device must be an lsblk disk;
      one with any partition is taken as done; otherwise ceph-disk prepare. */
  function DiskStep(env: Env, w: World, m: Model, dev: Path, a: PrepareArgs, ids: (Option<string>, Option<string>)): (o: Out<bool>)
    ensures dev !in m.lsblk ==> o.w == w && o.r.Err? && o.r.error.cls == OsdError
    ensures dev in m.lsblk && m.lsblk[dev].parts.Some? && |m.lsblk[dev].parts.value| > 0 ==> o == Out(w, Ok(true))
    ensures dev in m.lsblk && (m.lsblk[dev].parts.None? || |m.lsblk[dev].parts.value| == 0) ==>
      o == RunPrepare(env, w, LegacyPrepareArgv(a.fsType.GetOr("xfs"), dev, a.journalDev, ids.0, ids.1, a.osdUuid, a.journalUuid))
  {
    if dev !in m.lsblk then Out(w, Raise(OsdError, "Not a block device"))
    else if m.lsblk[dev].parts.Some? && |m.lsblk[dev].parts.value| > 0 then Out(w, Ok(true))
    else RunPrepare(env, w, LegacyPrepareArgv(a.fsType.GetOr("xfs"), dev, a.journalDev, ids.0, ids.1, a.osdUuid, a.journalUuid))
  }

  /** osd_prepare as written: it never returns, and so never runs
      ceph-disk prepare; every path raises, at the latest at the lookup of
      existing OSDs. */
  function LegacyPrepare(env: Env, w: World, a: PrepareArgs): (o: Out<bool>)
    ensures o.r.Err?
    ensures ClusterIds(env, w, a).Ok? && a.osdDev.Some? && HasBootstrap(env, w, a) ==>
      var w1 := if LibOsd in w.dirs then w else MakeDirs(w, LibOsd);
      o.w == LegacyModel(env, w1, a, false).w
  {
    PrepareWith(env, w, a, false)
  }

  /** As written, once the guards pass and the model is built, osd_prepare
      raises AttributeError, with nothing run after the model's own
      commands, whatever OSDs the node holds; the fixed version instead
      returns True for a known OSD or goes on to the disk checks. */
  lemma LegacyPrepareAlwaysRaises(env: Env, w: World, a: PrepareArgs)
    requires ClusterIds(env, w, a).Ok? && a.osdDev.Some? && HasBootstrap(env, w, a)
    requires var w1 := if LibOsd in w.dirs then w else MakeDirs(w, LibOsd);
      LegacyModel(env, w1, a, false).r.Ok?
    ensures var w1 := if LibOsd in w.dirs then w else MakeDirs(w, LibOsd);
      LegacyPrepare(env, w, a) == Out(LegacyModel(env, w1, a, false).w, Raise(Builtin, NoDiscoveredOsd))
    ensures var w1 := if LibOsd in w.dirs then w else MakeDirs(w, LibOsd);
      var lm := LegacyModel(env, w1, a, true);
      lm.r.Ok? ==> LegacyPrepareFixed(env, w, a).r != Raise(Builtin, NoDiscoveredOsd)
  {
    assert LegacyKeyring.LegacyPath(Keyring.Osd, ClusterIds(env, w, a).value.0) == Keyring.BootstrapPath(Keyring.Osd, ClusterIds(env, w, a).value.0, None);
  }

  /** osd_prepare with discover_osd_refresh run before the lookup. */
  function LegacyPrepareFixed(env: Env, w: World, a: PrepareArgs): (o: Out<bool>)
    ensures o == PrepareWith(env, w, a, true)
    ensures o.r == Ok(true) ==> a.osdDev.Some?
  {
    PrepareWith(env, w, a, true)
  }

  /** With discovery, an OSD or journal uuid already known for the cluster
      ends prepare with True and nothing run after the discovery. */
  lemma LegacyPrepareFixedSkipsExisting(env: Env, w: World, a: PrepareArgs)
    requires ClusterIds(env, w, a).Ok? && a.osdDev.Some? && HasBootstrap(env, w, a)
    requires var w1 := if LibOsd in w.dirs then w else MakeDirs(w, LibOsd);
      var lm := LegacyModel(env, w1, a, true);
      lm.r.Ok? && Existing(lm.r.value, ClusterIds(env, w, a).value.1, a.osdUuid, a.journalUuid)
    ensures var w1 := if LibOsd in w.dirs then w else MakeDirs(w, LibOsd);
      LegacyPrepareFixed(env, w, a) == Out(LegacyModel(env, w1, a, true).w, Ok(true))
  {
    assert LegacyKeyring.LegacyPath(Keyring.Osd, ClusterIds(env, w, a).value.0) == Keyring.BootstrapPath(Keyring.Osd, ClusterIds(env, w, a).value.0, None);
  }

  /** osd_activate: one `ceph-disk -v activate --mark-init systemd --mount
      <osd_dev>` on the raw device; without a device the vector holds None,
      which the executor rejects. */
  function LegacyActivate(env: Env, w: World, osdDev: Option<Path>): (o: Out<bool>)
    ensures osdDev.None? ==> o.w == w && o.r.Err? && o.r.error.cls == Builtin
    ensures osdDev.Some? ==> o.w.trace == w.trace + [Ran(ActivateArgv(osdDev.value))]
    ensures osdDev.Some? ==> (o.r == Ok(true) <==> env.run(w.trace, ActivateArgv(osdDev.value)).retcode == 0)
    ensures osdDev.Some? && o.r.Err? ==> o.r.error.cls == OsdError
  {
    if osdDev.None? then Out(w, Raise(Builtin, "TypeError: expected string, NoneType found"))
    else
      var c := ExecuteChecked(env, w, ActivateArgv(osdDev.value), OsdError, "Failed executing ceph-disk activate");
      if c.r.Err? then Out(c.w, Err(c.r.error)) else Out(c.w, Ok(true))
  }

  /** The legacy activate of one device is the current controller's
      activation of that one partition. */
  lemma LegacyActivateIsOneStep(env: Env, w: World, dev: Path)
    ensures LegacyActivate(env, w, Some(dev)).w == ActivateAll(env, w, [dev]).w
    ensures LegacyActivate(env, w, Some(dev)).r.Ok? <==> ActivateAll(env, w, [dev]).r.Ok?
  {
    assert ActivateAll(env, w, [dev]) == (var (w1, reply) := Execute(env, w, ActivateArgv(dev));
      if reply.retcode != 0 then Out(w1, Raise(OsdError, "Failed executing ceph-disk activate"))
      else ActivateAll(env, w1, []));
  }
}
