/** OSD discovery: reading an OSD data directory, the scratch-mount probe,
    the per-partition classification by GPT type and file system, and the
    aggregation into the OSD set, the journal set and the per-cluster OSD
    records (discover_partitions_refresh in _modules/sesceph/mdl_updater.py). */
module Discovery {
  import opened Wrappers
  import opened Text
  import opened Exec
  import opened NodeModel

  // ---------------------------------------------------------------- data directory

  /** The files whose presence marks a directory as an OSD data directory. */
  const Required: set<string> := {"ceph_fsid", "fsid", "magic"}

  /** _retrive_osd_details_from_dir on a directory whose listing is `l`
      (None where os.listdir raises). */
  function FromDir(l: Option<Listing>): (r: Result<Option<OsdMeta>>)
    ensures l.None? ==> r.Err?
    ensures l.Some? && !(Required <= l.value.entries) ==> r == Ok(None)
    ensures l.Some? && Required <= l.value.entries ==> (r.Ok? <==> Required <= l.value.files.Keys)
    ensures r.Ok? && r.value.Some? ==> MetaOf(l.value, r.value.value)
  {
    if l.None? then Raise(Builtin, "OSError: cannot list directory")
    else
      var d := l.value;
      if !(Required <= d.entries) then Ok(None)
      else
        if !(Required <= d.files.Keys) then Raise(Builtin, "IOError: cannot open a required file")
        else
          MetaSpec(d);
          Ok(Some(Meta(d)))
  }

  /** The record of an OSD directory whose three required files are readable. */
  function Meta(d: Listing): (md: OsdMeta)
    requires Required <= d.files.Keys
    ensures md.Keys == MetaKeys(d)
  {
    map k | k in MetaKeys(d) :: if k == "dev_journal" && "journal" in d.links then d.links["journal"] else if k in d.files then Strip(d.files[k]) else ""
  }

  lemma MetaSpec(d: Listing)
    requires Required <= d.files.Keys
    ensures MetaOf(d, Meta(d))
  {
    MetaValues(d);
    MetaLink(d);
  }

  lemma MetaValues(d: Listing)
    requires Required <= d.files.Keys
    ensures forall k :: k in Meta(d) && k != "dev_journal" ==> k in d.files && Meta(d)[k] == Strip(d.files[k])
  {
    forall k | k in Meta(d) && k != "dev_journal"
      ensures k in d.files && Meta(d)[k] == Strip(d.files[k])
    {
      MetaKeyIsFile(d, k);
    }
  }

  lemma MetaLink(d: Listing)
    requires Required <= d.files.Keys
    ensures "dev_journal" in Meta(d) ==> "journal" in d.links && Meta(d)["dev_journal"] == d.links["journal"]
  {
    assert "dev_journal" !in Required;
  }

  lemma MetaKeyIsFile(d: Listing, k: string)
    requires Required <= d.files.Keys && k in MetaKeys(d) && k != "dev_journal"
    ensures k in d.files
  {
  }

  /** The keys a record read from directory `d` has: the three required ones,
      `journal_uuid` and `whoami` exactly when those files exist, and
      `dev_journal` exactly when the `journal` link exists. */
  function MetaKeys(d: Listing): set<string> {
    Required
      + (if "journal_uuid" in d.files then {"journal_uuid"} else {})
      + (if "whoami" in d.files then {"whoami"} else {})
      + (if "journal" in d.links then {"dev_journal"} else {})
  }

  /** A record read from directory `d`: the keys above, every file value
      stripped, and the journal link's target. */
  predicate MetaOf(d: Listing, md: OsdMeta) {
    && md.Keys == MetaKeys(d)
    && (forall k :: k in md && k != "dev_journal" ==> k in d.files && md[k] == Strip(d.files[k]))
    && ("dev_journal" in md ==> "journal" in d.links && md["dev_journal"] == d.links["journal"])
  }

  // ---------------------------------------------------------------- scratch mount

  function MountArgv(dev: Path, dir: Path): Argv {
    ["mount", dev, dir]
  }

  function UmountArgv(dir: Path): Argv {
    ["umount", dir]
  }

  /** The reply of the scratch mount, issued right after the scratch directory
      is made. */
  function MountReply(env: Env, w: World, dev: Path): Reply {
    env.run(w.trace + [TempMade(env.scratch)], MountArgv(dev, env.scratch))
  }

  /** The effects every scratch read makes before it removes the directory:
      make it, mount the device on it, unmount it. */
  function ScratchEvents(env: Env, dev: Path): seq<Event> {
    [TempMade(env.scratch), Ran(MountArgv(dev, env.scratch)), Ran(UmountArgv(env.scratch))]
  }

  /** The body shared by retrive_osd_details and the legacy
      _retrive_osd_details: make a scratch directory, mount the device on it,
      read the directory with `reader` only if the mount succeeded (an empty
      record otherwise), unmount whatever happened, and remove the directory;
      a failure to remove it replaces whatever the read gave. */
  function ScratchRead(env: Env, w: World, dev: Path, reader: Option<Listing> -> Result<Option<OsdMeta>>)
    : (o: Out<Option<OsdMeta>>)
    ensures |o.w.trace| >= |w.trace| + 3 && o.w.trace[..|w.trace| + 3] == w.trace + ScratchEvents(env, dev)
    ensures o.w.trace == w.trace + ScratchEvents(env, dev) + [DirRemoved(env.scratch)]
         || (o.w.trace == w.trace + ScratchEvents(env, dev) && o.r.Err?)
    ensures o.r.Ok? ==> env.scratch !in o.w.dirs
    ensures MountReply(env, w, dev).retcode != 0 && o.r.Ok? ==> o.r.value == Some(map[])
    ensures MountReply(env, w, dev).retcode == 0 && o.r.Ok? ==>
      o.r == reader(env.dirAt(w.trace + ScratchEvents(env, dev)[..2], env.scratch))
  {
    var w1 := MakeTemp(env, w);
    var (w2, mnt) := Execute(env, w1, MountArgv(dev, env.scratch));
    var w2 := if mnt.retcode == 0 then w2.(mounted := w2.mounted + {env.scratch}) else w2;
    var details := if mnt.retcode == 0 then reader(env.dirAt(w2.trace, env.scratch)) else Ok(Some(map[]));
    var (w3, um) := Execute(env, w2, UmountArgv(env.scratch));
    var w3 := if um.retcode == 0 then w3.(mounted := w3.mounted - {env.scratch}) else w3;
    var rm := RemoveDir(w3, env.scratch);
    assert w2.trace == w.trace + ScratchEvents(env, dev)[..2];
    if rm.r.Err? then Out(rm.w, Err(rm.r.error)) else Out(rm.w, details)
  }

  /** retrive_osd_details on a partition name. */
  function RetrieveOsdDetails(env: Env, w: World, dev: Path): (o: Out<Option<OsdMeta>>) {
    ScratchRead(env, w, dev, FromDir)
  }

  /** Nothing else in the world gets in the way: the scratch directory is
      new and empty, and neither the mount nor the unmount writes a file. */
  predicate CleanScratch(env: Env, w: World, dev: Path) {
    && env.scratch !in w.mounted
    && (forall p :: p in w.files ==> !Under(p, env.scratch))
    && (forall p :: p in w.dirs ==> !Under(p, env.scratch))
    && MountReply(env, w, dev).writes == map[]
    && env.run(w.trace + ScratchEvents(env, dev)[..2], UmountArgv(env.scratch)).writes == map[]
  }

  /** A mount that fails leaves an EMPTY record, not None: the caller will
      count the partition as an OSD. */
  lemma FailedMountGivesEmptyRecord(env: Env, w: World, dev: Path)
    requires CleanScratch(env, w, dev)
    requires MountReply(env, w, dev).retcode != 0
    ensures RetrieveOsdDetails(env, w, dev).r == Ok(Some(map[]))
  {
    var w1 := MakeTemp(env, w);
    var (w2, mnt) := Execute(env, w1, MountArgv(dev, env.scratch));
    assert w2.files == w.files && w2.dirs == w.dirs + {env.scratch};
    var (w3, um) := Execute(env, w2, UmountArgv(env.scratch));
    assert w2.trace == w.trace + ScratchEvents(env, dev)[..2];
    assert w3.files == w.files && w3.dirs == w.dirs + {env.scratch};
    assert env.scratch !in w.mounted ==> env.scratch !in w3.mounted;
    var w3' := if um.retcode == 0 then w3.(mounted := w3.mounted - {env.scratch}) else w3;
    assert Children(w3', env.scratch) == {} by {
      forall p | p in w3'.files.Keys + w3'.dirs
        ensures !Under(p, env.scratch)
      {
        if p == env.scratch {
          assert |env.scratch + "/"| > |p|;
        }
      }
    }
  }

  // ---------------------------------------------------------------- classification

  /** What discover_partitions_refresh does with one partition record. */
  datatype Plan = Plan(readMount: bool, osd: bool, journal: bool, probe: bool)

  const ProbedFs: set<string> := {"xfs", "btrfs", "ext4"}

  predicate Has(r: Record, k: string, v: string) {
    k in r && r[k] == v
  }

  /** The decision for one partition: a swap partition is skipped; a mounted
      one has its mount point read; the OSD type puts it in the OSD set and
      has it scratch-mounted only if it is not mounted; the journal type puts
      it in the journal set; any other unmounted partition is scratch-mounted
      only if its file system is xfs, btrfs or ext4. */
  function PlanFor(r: Record): Plan
  {
    var mounted := "MOUNTPOINT" in r;
    if Has(r, "MOUNTPOINT", "[SWAP]") then Plan(false, false, false, false)
    else if Has(r, "PARTTYPE", OsdTypeGuid) then Plan(mounted, true, false, !mounted)
    else if Has(r, "PARTTYPE", JournalTypeGuid) then Plan(mounted, false, true, false)
    else if mounted then Plan(true, false, false, false)
    else Plan(false, false, false, "FSTYPE" in r && r["FSTYPE"] in ProbedFs)
  }

  lemma PlanForSpec(r: Record)
    ensures Has(r, "MOUNTPOINT", "[SWAP]") ==> PlanFor(r) == Plan(false, false, false, false)
    ensures PlanFor(r).readMount <==> "MOUNTPOINT" in r && !Has(r, "MOUNTPOINT", "[SWAP]")
    ensures PlanFor(r).osd <==> !Has(r, "MOUNTPOINT", "[SWAP]") && Has(r, "PARTTYPE", OsdTypeGuid)
    ensures PlanFor(r).journal <==> !Has(r, "MOUNTPOINT", "[SWAP]") && Has(r, "PARTTYPE", JournalTypeGuid)
    ensures PlanFor(r).probe <==>
              ("MOUNTPOINT" !in r
               && (Has(r, "PARTTYPE", OsdTypeGuid)
                   || (!Has(r, "PARTTYPE", JournalTypeGuid) && "FSTYPE" in r && r["FSTYPE"] in ProbedFs)))
    ensures !(PlanFor(r).readMount && PlanFor(r).probe) && !(PlanFor(r).osd && PlanFor(r).journal)
  {
  }

  /** The OSD set, journal set and metadata records while partitions are read. */
  datatype Found = Found(osd: set<Path>, journal: set<Path>, details: map<Path, OsdMeta>)

  /** The metadata read for one partition: from its mount point when it is
      mounted, by a scratch mount when the plan says so, and none otherwise. */
  function ReadPart(env: Env, w: World, p: Path, r: Record, pl: Plan): (o: Out<Option<OsdMeta>>)
    requires pl == PlanFor(r)
    ensures !pl.readMount && !pl.probe ==> o == Out(w, Ok(None))
    ensures pl.readMount ==> o == Out(w, FromDir(env.dirAt(w.trace, r["MOUNTPOINT"])))
    ensures pl.probe ==> o == RetrieveOsdDetails(env, w, p)
  {
    if pl.readMount then Out(w, FromDir(env.dirAt(w.trace, r["MOUNTPOINT"])))
    else if pl.probe then RetrieveOsdDetails(env, w, p)
    else Out(w, Ok(None))
  }

  /** One partition `p` with record `r`: the sets grow as planned, and a
      record read is kept under `p`. */
  function ScanPart(env: Env, w: World, found: Found, p: Path, r: Record): (o: Out<Found>)
    ensures o.r.Ok? ==> o.r.value.osd == found.osd + (if PlanFor(r).osd then {p} else {})
    ensures o.r.Ok? ==> o.r.value.journal == found.journal + (if PlanFor(r).journal then {p} else {})
    ensures o.r.Ok? ==> o.r.value.details.Keys <= found.details.Keys + {p}
    ensures o.r.Ok? && !(PlanFor(r).readMount || PlanFor(r).probe) ==> o.r.value.details == found.details
    ensures !PlanFor(r).probe ==> o.w == w
  {
    var pl := PlanFor(r);
    var md := ReadPart(env, w, p, r, pl);
    if md.r.Err? then Out(md.w, Err(md.r.error))
    else
      var osd := if pl.osd then found.osd + {p} else found.osd;
      var journal := if pl.journal then found.journal + {p} else found.journal;
      var details := if md.r.value.Some? then found.details[p := md.r.value.value] else found.details;
      Out(md.w, Ok(Found(osd, journal, details)))
  }

  /** The names of the listed partitions the plan puts in a set. */
  function PlannedOsd(items: seq<(Path, Record)>): set<Path> {
    set i | 0 <= i < |items| && PlanFor(items[i].1).osd :: items[i].0
  }

  function PlannedJournal(items: seq<(Path, Record)>): set<Path> {
    set i | 0 <= i < |items| && PlanFor(items[i].1).journal :: items[i].0
  }

  /** The partitions whose metadata is read at all. */
  function PlannedRead(items: seq<(Path, Record)>): set<Path> {
    set i | 0 <= i < |items| && (PlanFor(items[i].1).readMount || PlanFor(items[i].1).probe) :: items[i].0
  }

  lemma PlannedCons(items: seq<(Path, Record)>)
    requires |items| > 0
    ensures PlannedOsd(items) == (if PlanFor(items[0].1).osd then {items[0].0} else {}) + PlannedOsd(items[1..])
    ensures PlannedJournal(items) == (if PlanFor(items[0].1).journal then {items[0].0} else {}) + PlannedJournal(items[1..])
    ensures PlannedRead(items) == (if PlanFor(items[0].1).readMount || PlanFor(items[0].1).probe then {items[0].0} else {})
                                  + PlannedRead(items[1..])
  {
    var rest := items[1..];
    assert forall i :: 0 <= i < |rest| ==> rest[i] == items[i + 1];
    forall x | x in PlannedOsd(items) ensures x in (if PlanFor(items[0].1).osd then {items[0].0} else {}) + PlannedOsd(rest) {
      var i :| 0 <= i < |items| && PlanFor(items[i].1).osd && items[i].0 == x;
      if i > 0 { assert rest[i - 1] == items[i]; }
    }
    forall x | x in PlannedJournal(items) ensures x in (if PlanFor(items[0].1).journal then {items[0].0} else {}) + PlannedJournal(rest) {
      var i :| 0 <= i < |items| && PlanFor(items[i].1).journal && items[i].0 == x;
      if i > 0 { assert rest[i - 1] == items[i]; }
    }
    forall x | x in PlannedRead(items)
      ensures x in (if PlanFor(items[0].1).readMount || PlanFor(items[0].1).probe then {items[0].0} else {}) + PlannedRead(rest)
    {
      var i :| 0 <= i < |items| && (PlanFor(items[i].1).readMount || PlanFor(items[i].1).probe) && items[i].0 == x;
      if i > 0 { assert rest[i - 1] == items[i]; }
    }
  }

  /** The partition loop of discover_partitions_refresh over the partitions
      in iteration order; the first exception ends it. */
  function Scan(env: Env, w: World, found: Found, items: seq<(Path, Record)>): (o: Out<Found>)
    decreases |items|
  {
    if |items| == 0 then Out(w, Ok(found))
    else
      var o := ScanPart(env, w, found, items[0].0, items[0].1);
      if o.r.Err? then o else Scan(env, o.w, o.r.value, items[1..])
  }

  /** The OSD set grows by exactly the partitions planned into it. */
  lemma {:induction false} ScanOsd(env: Env, w: World, found: Found, items: seq<(Path, Record)>)
    ensures var o := Scan(env, w, found, items);
      o.r.Ok? ==> o.r.value.osd == found.osd + PlannedOsd(items)
    decreases |items|
  {
    if |items| > 0 {
      PlannedCons(items);
      var o := ScanPart(env, w, found, items[0].0, items[0].1);
      if o.r.Ok? {
        assert Scan(env, w, found, items) == Scan(env, o.w, o.r.value, items[1..]);
        ScanOsd(env, o.w, o.r.value, items[1..]);
      }
    }
  }

  /** The journal set grows by exactly the partitions planned into it. */
  lemma {:induction false} ScanJournal(env: Env, w: World, found: Found, items: seq<(Path, Record)>)
    ensures var o := Scan(env, w, found, items);
      o.r.Ok? ==> o.r.value.journal == found.journal + PlannedJournal(items)
    decreases |items|
  {
    if |items| > 0 {
      PlannedCons(items);
      var o := ScanPart(env, w, found, items[0].0, items[0].1);
      if o.r.Ok? {
        assert Scan(env, w, found, items) == Scan(env, o.w, o.r.value, items[1..]);
        ScanJournal(env, o.w, o.r.value, items[1..]);
      }
    }
  }

  /** Only partitions whose metadata was read gain a record. */
  lemma {:induction false} ScanRecords(env: Env, w: World, found: Found, items: seq<(Path, Record)>)
    ensures var o := Scan(env, w, found, items);
      o.r.Ok? ==> o.r.value.details.Keys <= found.details.Keys + PlannedRead(items)
    decreases |items|
  {
    if |items| > 0 {
      PlannedCons(items);
      var o := ScanPart(env, w, found, items[0].0, items[0].1);
      if o.r.Ok? {
        assert Scan(env, w, found, items) == Scan(env, o.w, o.r.value, items[1..]);
        ScanRecords(env, o.w, o.r.value, items[1..]);
      }
    }
  }

  /** No command runs and nothing in the world changes unless some partition
      is scratch-mounted. */
  lemma {:induction false} ScanQuiet(env: Env, w: World, found: Found, items: seq<(Path, Record)>)
    requires forall i :: 0 <= i < |items| ==> !PlanFor(items[i].1).probe
    ensures Scan(env, w, found, items).w == w
    decreases |items|
  {
    if |items| > 0 {
      var o := ScanPart(env, w, found, items[0].0, items[0].1);
      assert !PlanFor(items[0].1).probe;
      if o.r.Ok? {
        var rest := items[1..];
        assert forall i :: 0 <= i < |rest| ==> rest[i] == items[i + 1];
        ScanQuiet(env, o.w, o.r.value, rest);
      }
    }
  }

  // ---------------------------------------------------------------- iteration order

  /** The partitions of one disk in the order listed in `ks`. */
  function PartItems(parts: map<Path, Record>, ks: seq<Path>): (items: seq<(Path, Record)>)
    ensures forall i :: 0 <= i < |items| ==> items[i].0 in parts && items[i].1 == parts[items[i].0]
  {
    if |ks| == 0 then []
    else
      var rest := PartItems(parts, ks[1..]);
      if ks[0] in parts then [(ks[0], parts[ks[0]])] + rest else rest
  }

  /** Every partition the order lists appears. */
  lemma {:induction false} PartItemsCover(parts: map<Path, Record>, ks: seq<Path>, p: Path)
    requires p in parts && p in ks
    ensures exists i :: 0 <= i < |PartItems(parts, ks)| && PartItems(parts, ks)[i].0 == p
  {
    var items := PartItems(parts, ks);
    if ks[0] == p {
      assert items[0].0 == p;
    } else {
      PartItemsCover(parts, ks[1..], p);
      var rest := PartItems(parts, ks[1..]);
      var i :| 0 <= i < |rest| && rest[i].0 == p;
      if ks[0] in parts {
        assert items[i + 1] == rest[i];
      } else {
        assert items[i] == rest[i];
      }
    }
  }

  /** Every partition of every disk, disks and partitions both in Python's
      dict iteration order. */
  function LsblkItems(env: Env, l: Lsblk, ds: seq<Path>): (items: seq<(Path, Record)>)
    ensures forall i :: 0 <= i < |items| ==> PartOf(l, items[i].0, items[i].1)
  {
    if |ds| == 0 then []
    else
      var rest := LsblkItems(env, l, ds[1..]);
      if ds[0] in l && l[ds[0]].parts.Some? then
        var parts := l[ds[0]].parts.value;
        var here := PartItems(parts, env.order(parts.Keys));
        assert forall i :: 0 <= i < |here| ==> PartOf(l, here[i].0, here[i].1) by {
          forall i | 0 <= i < |here| ensures PartOf(l, here[i].0, here[i].1) {
            assert ds[0] in l && l[ds[0]].parts.Some? && here[i].0 in l[ds[0]].parts.value;
          }
        }
        here + rest
      else rest
  }

  /** A partition of a disk the order lists, which the disk's own order
      lists too, is visited. */
  lemma {:induction false} LsblkItemsCover(env: Env, l: Lsblk, ds: seq<Path>, d: Path, p: Path)
    requires d in ds && d in l && l[d].parts.Some? && p in l[d].parts.value
    requires p in env.order(l[d].parts.value.Keys)
    ensures exists i :: 0 <= i < |LsblkItems(env, l, ds)| && LsblkItems(env, l, ds)[i].0 == p
  {
    var items := LsblkItems(env, l, ds);
    if ds[0] == d {
      var parts := l[d].parts.value;
      PartItemsCover(parts, env.order(parts.Keys), p);
      var here := PartItems(parts, env.order(parts.Keys));
      var i :| 0 <= i < |here| && here[i].0 == p;
      assert items[i] == here[i];
    } else {
      LsblkItemsCover(env, l, ds[1..], d, p);
      var rest := LsblkItems(env, l, ds[1..]);
      var i :| 0 <= i < |rest| && rest[i].0 == p;
      if ds[0] in l && l[ds[0]].parts.Some? {
        var parts := l[ds[0]].parts.value;
        var here := PartItems(parts, env.order(parts.Keys));
        assert items[|here| + i] == rest[i];
      } else {
        assert items[i] == rest[i];
      }
    }
  }

  /** With a faithful iteration order every partition of every disk is
      visited. */
  lemma ItemsCover(env: Env, l: Lsblk, d: Path, p: Path)
    requires OrderIsFaithful(env, l.Keys)
    requires d in l && l[d].parts.Some? && OrderIsFaithful(env, l[d].parts.value.Keys) && p in l[d].parts.value
    ensures exists i :: 0 <= i < |Items(env, l)| && Items(env, l)[i].0 == p
  {
    assert d in env.order(l.Keys);
    assert p in env.order(l[d].parts.value.Keys);
    LsblkItemsCover(env, l, env.order(l.Keys), d, p);
    assert Items(env, l) == LsblkItems(env, l, env.order(l.Keys));
  }

  /** `r` is the record of partition `p` under some disk of `l`. */
  predicate PartOf(l: Lsblk, p: Path, r: Record) {
    exists d :: d in l && l[d].parts.Some? && p in l[d].parts.value && l[d].parts.value[p] == r
  }

  // ---------------------------------------------------------------- aggregation

  /** The journal devices the records link to. */
  function JournalLinks(details: map<Path, OsdMeta>): set<Path> {
    set p | p in details && "dev_journal" in details[p] :: details[p]["dev_journal"]
  }

  /** The grouping key: the record's cluster fsid, None when it has none. */
  function FsidOf(md: OsdMeta): Option<string> {
    if "ceph_fsid" in md then Some(md["ceph_fsid"]) else None
  }

  /** The record of partition `p` with `dev` and, when known, `dev_parent` added. */
  function Placed(details: map<Path, OsdMeta>, parent: map<Path, Path>, p: Path): (md: OsdMeta)
    requires p in details
    ensures FsidOf(md) == FsidOf(details[p])
    ensures "dev" in md && md["dev"] == p
    ensures "dev_parent" in md <==> p in parent || "dev_parent" in details[p]
  {
    var md := details[p]["dev" := p];
    if p in parent then md["dev_parent" := parent[p]] else md
  }

  function Fsids(details: map<Path, OsdMeta>): set<Option<string>> {
    set p | p in details :: FsidOf(details[p])
  }

  /** discovered_osd: each record, placed, under its cluster fsid. */
  function Group(details: map<Path, OsdMeta>, parent: map<Path, Path>): (g: map<Option<string>, set<OsdMeta>>)
    ensures g.Keys == Fsids(details)
    ensures forall p :: p in details ==> Placed(details, parent, p) in g[FsidOf(details[p])]
    ensures forall f, md :: f in g && md in g[f] ==>
      FsidOf(md) == f && "dev" in md && md["dev"] in details && md == Placed(details, parent, md["dev"])
    ensures forall f :: f in g ==> g[f] != {}
  {
    map f | f in Fsids(details) :: set p | p in details && FsidOf(details[p]) == f :: Placed(details, parent, p)
  }

  /** The second loop of discover_partitions_refresh: every partition with a
      record joins the OSD set, its journal link joins the journal set, and
      its placed record is filed under its cluster fsid. */
  function Aggregate(found: Found, parent: map<Path, Path>)
    : (r: (set<Path>, set<Path>, map<Option<string>, set<OsdMeta>>))
    ensures forall p :: p in r.0 <==> p in found.osd || p in found.details
    ensures forall j :: j in r.1 <==>
      (j in found.journal || exists p :: p in found.details && "dev_journal" in found.details[p] && found.details[p]["dev_journal"] == j)
    ensures forall p :: p in found.details ==> FsidOf(found.details[p]) in r.2 && Placed(found.details, parent, p) in r.2[FsidOf(found.details[p])]
    ensures forall f, md :: f in r.2 && md in r.2[f] ==>
      && FsidOf(md) == f && "dev" in md && md["dev"] in found.details
      && md == Placed(found.details, parent, md["dev"])
    ensures forall f :: f in r.2 ==> r.2[f] != {}
  {
    (found.osd + found.details.Keys, found.journal + JournalLinks(found.details), Group(found.details, parent))
  }

  /** discover_partitions_refresh: the three results are recomputed from the
      tree alone and replace the old ones; nothing else in the model changes. */
  function DiscoverPartitionsRefresh(env: Env, w: World, m: Model): (o: Out<Model>)
    ensures o.r.Ok? ==> o.r.value == m.(partitionsOsd := o.r.value.partitionsOsd,
                                        partitionsJournal := o.r.value.partitionsJournal,
                                        discoveredOsd := o.r.value.discoveredOsd)
    ensures o.r.Ok? ==> PlannedOsd(Items(env, m.lsblk)) <= o.r.value.partitionsOsd
                          <= PlannedOsd(Items(env, m.lsblk)) + PlannedRead(Items(env, m.lsblk))
    ensures o.r.Ok? ==> PlannedJournal(Items(env, m.lsblk)) <= o.r.value.partitionsJournal
    ensures o.r.Ok? ==> forall f, md :: f in o.r.value.discoveredOsd && md in o.r.value.discoveredOsd[f] ==>
      FsidOf(md) == f && "dev" in md && md["dev"] in o.r.value.partitionsOsd
  {
    var s := Scan(env, w, Found({}, {}, map[]), Items(env, m.lsblk));
    ScanOsd(env, w, Found({}, {}, map[]), Items(env, m.lsblk));
    ScanJournal(env, w, Found({}, {}, map[]), Items(env, m.lsblk));
    ScanRecords(env, w, Found({}, {}, map[]), Items(env, m.lsblk));
    if s.r.Err? then Out(s.w, Err(s.r.error))
    else
      var (osd, journal, disc) := Aggregate(s.r.value, m.partParent);
      Out(s.w, Ok(m.(partitionsOsd := osd, partitionsJournal := journal, discoveredOsd := disc)))
  }

  function Items(env: Env, l: Lsblk): seq<(Path, Record)> {
    LsblkItems(env, l, env.order(l.Keys))
  }

  // ---------------------------------------------------------------- consequences

  /** A journal-type partition mounted on a directory that holds OSD data
      ends up in BOTH the journal set and the OSD set. */
  lemma MountedJournalIsAlsoOsd(env: Env, w: World, p: Path, r: Record, d: Listing, parent: map<Path, Path>)
    requires Has(r, "PARTTYPE", JournalTypeGuid) && "MOUNTPOINT" in r && r["MOUNTPOINT"] != "[SWAP]"
    requires env.dirAt(w.trace, r["MOUNTPOINT"]) == Some(d) && Required <= d.entries && Required <= d.files.Keys
    ensures var o := Scan(env, w, Found({}, {}, map[]), [(p, r)]);
      o.r.Ok? && p in Aggregate(o.r.value, parent).0 && p in Aggregate(o.r.value, parent).1
  {
    PlanForSpec(r);
    var o := ScanPart(env, w, Found({}, {}, map[]), p, r);
    assert o.r.Ok? && p in o.r.value.details && p in o.r.value.journal;
    assert Scan(env, w, Found({}, {}, map[]), [(p, r)]) == Scan(env, o.w, o.r.value, []);
  }

  /** An untagged, unmounted xfs partition that fails to mount is scanned
      into an empty record and into no set. */
  lemma FailedMountScan(env: Env, w: World, p: Path, r: Record)
    requires "MOUNTPOINT" !in r && "PARTTYPE" !in r && Has(r, "FSTYPE", "xfs")
    requires CleanScratch(env, w, p) && MountReply(env, w, p).retcode != 0
    ensures Scan(env, w, Found({}, {}, map[]), [(p, r)]).r == Ok(Found({}, {}, map[p := map[]]))
  {
    PlanForSpec(r);
    FailedMountGivesEmptyRecord(env, w, p);
    var o := ScanPart(env, w, Found({}, {}, map[]), p, r);
    assert o.r == Ok(Found({}, {}, map[p := map[]]));
    assert Scan(env, w, Found({}, {}, map[]), [(p, r)]) == Scan(env, o.w, o.r.value, []);
  }

  /** An empty record still puts its partition in the OSD set, and files
      the placed record under the fsid None. */
  lemma EmptyRecordJoinsOsdSet(found: Found, p: Path, parent: map<Path, Path>)
    requires p in found.details && found.details[p] == map[]
    ensures p in Aggregate(found, parent).0
    ensures None in Aggregate(found, parent).2 && Placed(found.details, parent, p) in Aggregate(found, parent).2[None]
  {
    assert FsidOf(found.details[p]) == None;
  }

  /** So an untagged xfs partition that fails to mount joins the OSD set. */
  lemma FailedMountJoinsOsdSet(env: Env, w: World, p: Path, r: Record, parent: map<Path, Path>)
    requires "MOUNTPOINT" !in r && "PARTTYPE" !in r && Has(r, "FSTYPE", "xfs")
    requires CleanScratch(env, w, p) && MountReply(env, w, p).retcode != 0
    ensures var s := Scan(env, w, Found({}, {}, map[]), [(p, r)]).r;
      s.Ok? && p in Aggregate(s.value, parent).0 && p !in PlannedOsd([(p, r)])
  {
    FailedMountScan(env, w, p, r);
    PlanForSpec(r);
    EmptyRecordJoinsOsdSet(Found({}, {}, map[p := map[]]), p, parent);
  }
}
