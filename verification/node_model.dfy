/** The node model every controller reads and the updaters fill in, with the
    constants the whole package shares. */
module NodeModel {
  import opened Wrappers
  import opened Text
  import opened JsonData
  import opened Exec

  /** GPT partition type GUIDs of a Ceph OSD data and a Ceph journal partition. */
  const OsdTypeGuid := "4fbd7e29-9d25-41b8-afd0-062c0ceff05d"
  const JournalTypeGuid := "45b0969e-9b03-4f30-b4c6-b4b80ceff106"

  /** The data directories under /var/lib/ceph/. */
  const LibOsd := "/var/lib/ceph/osd"
  const LibMon := "/var/lib/ceph/mon"
  const LibRgw := "/var/lib/ceph/radosgw"

  /** One lsblk row: column name to value. */
  type Record = map<string, string>

  /** A disk row and, once one of its partitions was seen, its "PARTITION" map. */
  datatype Disk = Disk(attrs: Record, parts: Option<map<Path, Record>>)

  type Lsblk = map<Path, Disk>

  /** What an OSD data directory says about itself (ceph_fsid, fsid, magic,
      journal_uuid, whoami, dev_journal), plus dev and dev_parent once
      discovery has placed it. */
  type OsdMeta = map<string, string>

  /** One section of `ceph auth list`. */
  datatype AuthSection = AuthSection(name: Option<string>, key: Option<string>, caps: Option<seq<seq<string>>>)

  /** model.version: any component may be missing. */
  datatype Version = Version(major: Option<int>, minor: Option<int>, revision: Option<string>, uuid: Option<string>)

  const NoVersion := Version(None, None, None, None)

  /** The components of a version up to, not including, the first missing one. */
  function Components(v: Version): (c: seq<string>)
    ensures |c| <= 4
    ensures |c| >= 1 <==> v.major.Some?
  {
    if v.major.None? then []
    else if v.minor.None? then [IntToString(v.major.value)]
    else if v.revision.None? then [IntToString(v.major.value), IntToString(v.minor.value)]
    else if v.uuid.None? then [IntToString(v.major.value), IntToString(v.minor.value), v.revision.value]
    else [IntToString(v.major.value), IntToString(v.minor.value), v.revision.value, v.uuid.value]
  }

  /** version.__repr__: the present components, comma separated, up to the
      first missing one; "None" when even the major number is missing. */
  function VersionRepr(v: Version): (r: string)
    ensures r == "<version(" + (if v.major.None? then "None" else Join(Components(v), ',')) + ")>"
  {
    if v.major.None? then "<version(None)>"
    else
      var c := Components(v);
      var inner :=
        if v.minor.None? then c[0]
        else if v.revision.None? then c[0] + "," + c[1]
        else if v.uuid.None? then c[0] + "," + c[1] + "," + c[2]
        else c[0] + "," + c[1] + "," + c[2] + "," + c[3];
      assert inner == Join(c, ',') by {
        if |c| == 2 {
          assert Join(c, ',') == c[0] + [','] + Join(c[1..], ',');
          assert Join(c[1..], ',') == c[1];
        } else if |c| == 3 {
          assert Join(c, ',') == c[0] + [','] + Join(c[1..], ',');
          assert Join(c[1..], ',') == c[1] + [','] + Join(c[2..], ',');
          assert Join(c[2..], ',') == c[2];
        } else if |c| == 4 {
          assert Join(c, ',') == c[0] + [','] + Join(c[1..], ',');
          assert Join(c[1..], ',') == c[1] + [','] + Join(c[2..], ',');
          assert Join(c[2..], ',') == c[2] + [','] + Join(c[3..], ',');
          assert Join(c[3..], ',') == c[3];
        }
      }
      "<version(" + inner + ")>"
  }

  /** The cluster arguments every controller accepts. */
  datatype ClusterArgs = ClusterArgs(clusterName: Option<string>, clusterUuid: Option<string>, secret: Option<string>)

  const NoArgs := ClusterArgs(None, None, None)

  /** model.model. */
  datatype Model = Model(
    symlinks: map<Path, seq<Path>>,
    lsblk: Lsblk,
    partParent: map<Path, Path>,
    partitionsOsd: set<Path>,
    partitionsJournal: set<Path>,
    discoveredOsd: map<Option<string>, set<OsdMeta>>,
    conf: Ini,
    monMembers: seq<(string, string)>,
    hostname: Option<string>,
    clusterName: Option<string>,
    clusterUuid: Option<string>,
    secret: Option<string>,
    cephVersion: Version,
    lsblkVersion: Version,
    monStatus: Json,
    authList: Option<map<string, AuthSection>>,  // None until auth_list has run
    poolList: Option<map<Json, Json>>,            // pool name to {"poolnum": number}; None until pool_list has run
    clusterStatus: Option<Json>                   // None until status_refresh has stored one
  )

  /** model.kargs_apply: the three cluster fields are replaced by the
      arguments, missing ones by None. */
  function KargsApply(m: Model, a: ClusterArgs): (m': Model)
    ensures m'.clusterName == a.clusterName && m'.clusterUuid == a.clusterUuid && m'.secret == a.secret
    ensures m'.(clusterName := m.clusterName, clusterUuid := m.clusterUuid, secret := m.secret) == m
  {
    m.(clusterName := a.clusterName, clusterUuid := a.clusterUuid, secret := a.secret)
  }

  /** model.model(**kwargs): nothing discovered yet. */
  function Fresh(a: ClusterArgs): (m: Model)
    ensures m.lsblk == map[] && m.partParent == map[] && m.symlinks == map[]
    ensures m.partitionsOsd == {} && m.partitionsJournal == {} && m.discoveredOsd == map[]
    ensures m.monMembers == [] && m.hostname.None? && m.monStatus == JNull
    ensures m.cephVersion == NoVersion && m.lsblkVersion == NoVersion
    ensures m.clusterName == a.clusterName && m.clusterUuid == a.clusterUuid && m.secret == a.secret
  {
    var blank := Model(map[], map[], map[], {}, {}, map[], map[], [], None, None, None, None,
                       NoVersion, NoVersion, JNull, None, None, None);
    KargsApply(blank, a)
  }
}
