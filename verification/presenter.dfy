/** The presenter (_modules/sesceph/presenter.py): read-only views of the
    node model for the end user.  Views are dictionaries of JSON values;
    lists the source builds by iterating a dictionary or a set are sets
    here, except the partition list of a disk, which follows `Env.order`. */
module Presenter {
  import opened Wrappers
  import opened JsonData
  import opened Exec
  import opened NodeModel
  import Updater

  /** The lsblk columns a partition view shows. */
  const PartWanted: set<string> :=
    {"SIZE", "NAME", "VENDOR", "UUID", "PARTLABEL", "PKNAME", "FSTYPE", "PARTTYPE", "MOUNTPOINT", "PARTUUID",
     "ROTA", "SCHED", "RQ-SIZE"}

  /** The lsblk columns a disk view shows. */
  const DiskWanted: set<string> := {"NAME", "PARTTABLE", "ROTA", "RQ-SIZE", "SCHED", "SIZE", "VENDOR"}

  type View = map<string, Json>

  /** The columns of `rec` that are in `wanted`. */
  function Project(rec: Record, wanted: set<string>): (v: View)
    ensures forall k :: k in v <==> k in rec && k in wanted
    ensures forall k :: k in v ==> v[k] == JStr(rec[k])
  {
    map k | k in rec && k in wanted :: JStr(rec[k])
  }

  function Links(paths: seq<Path>): (j: Json)
    ensures j.JList? && |j.items| == |paths|
    ensures forall i :: 0 <= i < |paths| ==> j.items[i] == JStr(paths[i])
  {
    JList(seq(|paths|, i requires 0 <= i < |paths| => JStr(paths[i])))
  }

  /** A view with the device's symlinks under "LINK", when it has any entry. */
  function WithLinks(m: Model, dev: Path, v: View): View {
    if dev in m.symlinks then v["LINK" := Links(m.symlinks[dev])] else v
  }

  // ---------------------------------------------------------------- partitions and disks

  /** The partition is listed under its parent disk's partitions. */
  predicate PartKnown(m: Model, part: Path) {
    && part in m.partParent
    && m.partParent[part] in m.lsblk
    && m.lsblk[m.partParent[part]].parts.Some?
    && part in m.lsblk[m.partParent[part]].parts.value
  }

  function PartRecord(m: Model, part: Path): Record
    requires PartKnown(m, part)
  {
    m.lsblk[m.partParent[part]].parts.value[part]
  }

  /** lsblk_partition_by_disk_part: None unless the partition is known under
      its parent; otherwise its wanted columns and its symlinks. */
  function PartitionView(m: Model, part: Path): (r: Option<View>)
    ensures r.Some? <==> PartKnown(m, part)
    ensures r.Some? ==> forall k :: k in r.value <==> (k == "LINK" && part in m.symlinks) || (k in PartWanted && k in PartRecord(m, part))
    ensures r.Some? ==> forall k :: k in r.value && k != "LINK" ==> r.value[k] == JStr(PartRecord(m, part)[k])
    ensures r.Some? && part in m.symlinks ==> r.value["LINK"] == Links(m.symlinks[part])
  {
    if part !in m.partParent then None
    else
      var disk := m.partParent[part];
      if disk !in m.lsblk then None
      else
        match m.lsblk[disk].parts
        case None => None
        case Some(parts) =>
          if part !in parts then None
          else Some(WithLinks(m, part, Project(parts[part], PartWanted)))
  }

  /** The views of the known partitions among `names`, in that order. */
  function PartList(m: Model, names: seq<Path>): (l: seq<Json>)
    ensures |l| <= |names|
    ensures forall i :: 0 <= i < |l| ==> l[i].JObj?
  {
    if |names| == 0 then []
    else
      var rest := PartList(m, names[..|names| - 1]);
      match PartitionView(m, names[|names| - 1])
      case None => rest
      case Some(v) => rest + [JObj(v)]
  }

  /** The partition list holds exactly the views of the known partitions. */
  lemma {:induction false} PartListMembers(m: Model, names: seq<Path>)
    ensures forall x :: x in PartList(m, names) <==> exists p :: p in names && PartitionView(m, p).Some? && x == JObj(PartitionView(m, p).value)
  {
    if |names| > 0 {
      var front := names[..|names| - 1];
      var last := names[|names| - 1];
      PartListMembers(m, front);
      assert names == front + [last];
      forall x
        ensures x in PartList(m, names) <==> exists p :: p in names && PartitionView(m, p).Some? && x == JObj(PartitionView(m, p).value)
      {
        if exists p :: p in names && PartitionView(m, p).Some? && x == JObj(PartitionView(m, p).value) {
          var p :| p in names && PartitionView(m, p).Some? && x == JObj(PartitionView(m, p).value);
          if p != last {
            assert p in front;
          }
        }
      }
    }
  }

  /** lsblk_disk_by_disk: None for an unknown disk; otherwise its wanted
      columns, its symlinks, and, when it has partitions, the list of their
      views (partitions without a view are skipped). */
  function DiskView(env: Env, m: Model, disk: Path): (r: Option<View>)
    ensures r.Some? <==> disk in m.lsblk
    ensures r.Some? ==> forall k :: k in r.value <==>
      || (k == "LINK" && disk in m.symlinks)
      || (k == "PARTITION" && m.lsblk[disk].parts.Some?)
      || (k in DiskWanted && k in m.lsblk[disk].attrs)
    ensures r.Some? ==> forall k :: k in r.value && k in DiskWanted ==> r.value[k] == JStr(m.lsblk[disk].attrs[k])
    ensures r.Some? && m.lsblk[disk].parts.Some? ==>
      r.value["PARTITION"] == JList(PartList(m, env.order(m.lsblk[disk].parts.value.Keys)))
  {
    if disk !in m.lsblk then None
    else
      var d := m.lsblk[disk];
      var base := Project(d.attrs, DiskWanted);
      var listed := if d.parts.Some? then base["PARTITION" := JList(PartList(m, env.order(d.parts.value.Keys)))] else base;
      Some(WithLinks(m, disk, listed))
  }

  /** A disk view lists precisely the partitions of that disk whose own view
      exists, when the order oracle enumerates each key once. */
  lemma DiskListsItsPartitions(env: Env, m: Model, disk: Path)
    requires disk in m.lsblk && m.lsblk[disk].parts.Some?
    requires OrderIsFaithful(env, m.lsblk[disk].parts.value.Keys)
    ensures var parts := m.lsblk[disk].parts.value;
      forall x :: x in DiskView(env, m, disk).value["PARTITION"].items <==>
        exists p :: p in parts && PartitionView(m, p).Some? && x == JObj(PartitionView(m, p).value)
  {
    var names := env.order(m.lsblk[disk].parts.value.Keys);
    PartListMembers(m, names);
  }

  /** partitions_all: every disk's view, by disk. */
  function PartitionsAll(env: Env, m: Model): (r: map<Path, View>)
    ensures r.Keys == m.lsblk.Keys
    ensures forall d :: d in r ==> Some(r[d]) == DiskView(env, m, d)
  {
    map d | d in m.lsblk :: DiskView(env, m, d).value
  }

  // ---------------------------------------------------------------- OSDs

  /** One discovered OSD: its cluster fsid and parent disk are dropped, its
      data and journal devices replaced by their partition views (null when
      unknown), everything else shown as is. */
  function OsdView(m: Model, meta: OsdMeta): (v: View)
    ensures v.Keys == meta.Keys - {"ceph_fsid", "dev_parent"}
    ensures forall k :: k in v && k != "dev" && k != "dev_journal" ==> v[k] == JStr(meta[k])
    ensures forall k :: k in v && (k == "dev" || k == "dev_journal") ==>
      v[k] == (if PartitionView(m, meta[k]).Some? then JObj(PartitionView(m, meta[k]).value) else JNull)
  {
    map k | k in meta && k != "ceph_fsid" && k != "dev_parent" ::
      if k == "dev" || k == "dev_journal" then
        (match PartitionView(m, meta[k]) case None => JNull case Some(p) => JObj(p))
      else JStr(meta[k])
  }

  /** discover_osd_by_cluster_uuid: the views of the OSDs discovered for the
      cluster; none for a cluster never seen. */
  function DiscoverOsdByCluster(m: Model, uuid: Option<string>): (r: set<View>)
    ensures uuid !in m.discoveredOsd ==> r == {}
    ensures uuid in m.discoveredOsd ==> forall meta :: meta in m.discoveredOsd[uuid] ==> OsdView(m, meta) in r
    ensures forall v :: v in r ==> uuid in m.discoveredOsd && exists meta :: meta in m.discoveredOsd[uuid] && v == OsdView(m, meta)
  {
    if uuid !in m.discoveredOsd then {}
    else set meta | meta in m.discoveredOsd[uuid] :: OsdView(m, meta)
  }

  /** discover_osd: the OSD views of every discovered cluster. */
  function DiscoverOsd(m: Model): (r: map<Option<string>, set<View>>)
    ensures r.Keys == m.discoveredOsd.Keys
    ensures forall c :: c in r ==> r[c] == DiscoverOsdByCluster(m, c)
  {
    map c | c in m.discoveredOsd :: DiscoverOsdByCluster(m, c)
  }

  /** No OSD view reveals the cluster fsid or the parent disk. */
  lemma DiscoverOsdHidesFsid(m: Model, c: Option<string>, v: View)
    requires c in DiscoverOsd(m) && v in DiscoverOsd(m)[c]
    ensures "ceph_fsid" !in v && "dev_parent" !in v
  {
    var meta :| meta in m.discoveredOsd[c] && v == OsdView(m, meta);
  }

  /** discover_osd_partitions / discover_journal_partitions: the views of
      the given partitions that have one. */
  function PartitionsOf(m: Model, parts: set<Path>): (r: set<View>)
    ensures forall p :: p in parts && PartKnown(m, p) ==> PartitionView(m, p).value in r
    ensures forall v :: v in r ==> exists p :: p in parts && PartitionView(m, p) == Some(v)
  {
    set p | p in parts && PartitionView(m, p).Some? :: PartitionView(m, p).value
  }

  function OsdPartitions(m: Model): (r: set<View>)
    ensures r == PartitionsOf(m, m.partitionsOsd)
  {
    PartitionsOf(m, m.partitionsOsd)
  }

  function JournalPartitions(m: Model): (r: set<View>)
    ensures r == PartitionsOf(m, m.partitionsJournal)
  {
    PartitionsOf(m, m.partitionsJournal)
  }

  // ---------------------------------------------------------------- monitor status

  /** The fsid-keyed status view: the fsid and the status with the fsid
      taken out of the monmap. */
  datatype StatusView = StatusView(fsid: Json, status: View)

  /** `{}` or `{fsid: status}`. */
  type MonView = Option<StatusView>

  /** mon_status: {} while no status is loaded or when the monmap gives no
      fsid; otherwise the status keyed by its fsid, with the fsid removed
      from the monmap.  A status or monmap that is not an object raises
      AttributeError, an unhashable fsid TypeError. */
  function MonStatusView(m: Model): (r: Result<MonView>)
    ensures m.monStatus == JNull ==> r == Ok(None)
    ensures r.Ok? && r.value.Some? ==>
      && m.monStatus.JObj? && "monmap" in m.monStatus.fields && m.monStatus.fields["monmap"].JObj?
      && "fsid" in m.monStatus.fields["monmap"].fields
      && r.value.value.fsid == m.monStatus.fields["monmap"].fields["fsid"] && r.value.value.fsid != JNull
      && r.value.value.status.Keys == m.monStatus.fields.Keys
      && r.value.value.status["monmap"] == JObj(m.monStatus.fields["monmap"].fields - {"fsid"})
      && forall k :: k in m.monStatus.fields && k != "monmap" ==> r.value.value.status[k] == m.monStatus.fields[k]
    ensures m.monStatus.JObj? && "monmap" !in m.monStatus.fields ==> r == Ok(None)
    ensures r.Err? ==> r.error.cls == Builtin
  {
    if m.monStatus.JNull? then Ok(None)
    else if !m.monStatus.JObj? then Raise(Builtin, "AttributeError: object has no attribute 'keys'")
    else
      var fields := m.monStatus.fields;
      if "monmap" !in fields then Ok(None)
      else if !fields["monmap"].JObj? then Raise(Builtin, "AttributeError: object has no attribute 'keys'")
      else
        var monmap := fields["monmap"].fields;
        var fsid := Get(monmap, "fsid");
        if fsid == JNull then Ok(None)
        else if !Hashable(fsid) then Raise(Builtin, "TypeError: unhashable type")
        else Ok(Some(StatusView(fsid, fields["monmap" := JObj(monmap - {"fsid"})])))
  }

  /** Putting the fsid back into the monmap recovers the stored status. */
  lemma MonStatusViewRoundTrip(m: Model)
    requires MonStatusView(m).Ok? && MonStatusView(m).value.Some?
    ensures var v := MonStatusView(m).value.value;
      m.monStatus == JObj(v.status["monmap" := JObj(v.status["monmap"].fields["fsid" := v.fsid])])
  {
    var v := MonStatusView(m).value.value;
    var fields := m.monStatus.fields;
    var monmap := fields["monmap"].fields;
    assert monmap == (monmap - {"fsid"})["fsid" := v.fsid];
    assert fields == v.status["monmap" := JObj(monmap)];
  }

  // ---------------------------------------------------------------- auth list

  /** auth_list: every key's section without its name; reading a list that
      was never loaded raises AttributeError. */
  function AuthListView(m: Model): (r: Result<map<string, AuthSection>>)
    ensures r.Err? <==> m.authList.None?
    ensures r.Ok? ==> r.value.Keys == m.authList.value.Keys
    ensures r.Ok? ==> forall k :: k in r.value ==> r.value[k] == m.authList.value[k].(name := None)
  {
    match m.authList
    case None => Raise(Builtin, "AttributeError: model instance has no attribute 'auth_list'")
    case Some(l) => Ok(map k | k in l :: l[k].(name := None))
  }

  /** For a list the parser built, naming each section after its key gives
      the stored list back. */
  lemma AuthListViewRoundTrip(m: Model)
    requires m.authList.Some? && Updater.NamedByKey(m.authList.value)
    ensures var v := AuthListView(m).value;
      m.authList.value == map k | k in v :: v[k].(name := Some(k))
  {
  }
}
