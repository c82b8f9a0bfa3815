/** The older copy of the updater (sesceph/mdl_updater.py): its metadata
    reader, its classification by partition type alone, discover_osd_refresh,
    and the lsblk refresh with fixed arguments.  Its host, defaults, monitor
    member, auth list and pool operations are the same text as the newer
    copy's and are the functions of module Updater (the member refresh with a
    NameError for a missing option, since this copy never imports
    ConfigParser). */
module LegacyUpdater {
  import opened Wrappers
  import opened Exec
  import opened NodeModel
  import opened Lsblk
  import opened Discovery

  // ---------------------------------------------------------------- data directory

  /** The files whose presence this copy checks. */
  const LegacyRequired: set<string> := {"ceph_fsid", "fsid"}

  /** The files this copy opens without checking first. */
  const LegacyOpened: set<string> := {"ceph_fsid", "fsid", "journal_uuid", "magic"}

  /** _retrive_osd_details_from_dir of this copy: only ceph_fsid and fsid
      must be listed, but journal_uuid and magic are opened regardless, so a
      directory missing either raises. */
  function LegacyFromDir(l: Option<Listing>): (r: Result<Option<OsdMeta>>)
    ensures l.None? ==> r.Err?
    ensures l.Some? && !(LegacyRequired <= l.value.entries) ==> r == Ok(None)
    ensures l.Some? && LegacyRequired <= l.value.entries ==> (r.Ok? <==> LegacyOpened <= l.value.files.Keys)
    ensures r.Ok? && r.value.Some? ==> MetaOf(l.value, r.value.value)
    ensures r.Ok? && r.value.Some? ==> "journal_uuid" in r.value.value && "magic" in r.value.value
  {
    if l.None? then Raise(Builtin, "OSError: cannot list directory")
    else
      var d := l.value;
      if !(LegacyRequired <= d.entries) then Ok(None)
      else if !(LegacyOpened <= d.files.Keys) then Raise(Builtin, "IOError: cannot open an OSD file")
      else
        MetaSpec(d);
        Ok(Some(Meta(d)))
  }

  /** On a directory holding all four files both copies read the same record. */
  lemma LegacyFromDirAgrees(d: Listing)
    requires Required <= d.entries && LegacyOpened <= d.files.Keys
    ensures LegacyFromDir(Some(d)) == FromDir(Some(d))
  {
    assert LegacyRequired <= Required;
    assert Required <= LegacyOpened;
  }

  /** A reused partition without journal_uuid is an OSD to the newer copy
      and an IOError to this one. */
  lemma LegacyNeedsJournalUuid(d: Listing)
    requires Required <= d.entries && Required <= d.files.Keys && "journal_uuid" !in d.files
    ensures FromDir(Some(d)).Ok? && FromDir(Some(d)).value.Some?
    ensures LegacyFromDir(Some(d)).Err?
  {
    assert LegacyRequired <= Required;
  }

  /** _retrive_osd_details of this copy, given the partition's record (None
      where the partition is missing from its disk): a missing record raises
      AttributeError, a record without NAME gives None, and otherwise the
      scratch read of the newer copy with this copy's directory reader. */
  function LegacyRetrieve(env: Env, w: World, rec: Option<Record>): (o: Out<Option<OsdMeta>>)
    ensures rec.None? ==> o.w == w && o.r.Err? && o.r.error.cls == Builtin
    ensures rec.Some? && "NAME" !in rec.value ==> o == Out(w, Ok(None))
    ensures rec.Some? && "NAME" in rec.value ==> o == ScratchRead(env, w, rec.value["NAME"], LegacyFromDir)
  {
    if rec.None? then Out(w, Raise(Builtin, "AttributeError: 'NoneType' object has no attribute 'get'"))
    else if "NAME" !in rec.value then Out(w, Ok(None))
    else ScratchRead(env, w, rec.value["NAME"], LegacyFromDir)
  }

  // ---------------------------------------------------------------- classification

  /** `r` is the record of partition `p` under disk `d`. */
  predicate Filed(l: NodeModel.Lsblk, d: Path, p: Path) {
    d in l && l[d].parts.Some? && p in l[d].parts.value
  }

  /** Partitions of any disk whose record carries the partition type `guid`. */
  function Typed(l: NodeModel.Lsblk, guid: string): (s: set<Path>)
    ensures forall p :: p in s <==> exists d :: Filed(l, d, p) && Has(l[d].parts.value[p], "PARTTYPE", guid)
  {
    set d, p | d in l && l[d].parts.Some? && p in l[d].parts.value && Has(l[d].parts.value[p], "PARTTYPE", guid) :: p
  }

  /** discover_partitions_refresh of this copy: the OSD and journal sets are
      the partitions of the two types; no partition is read or mounted. */
  function LegacyDiscoverPartitionsRefresh(m: Model): (m': Model)
    ensures m' == m.(partitionsOsd := m'.partitionsOsd, partitionsJournal := m'.partitionsJournal)
    ensures forall p :: p in m'.partitionsOsd <==>
      exists d :: Filed(m.lsblk, d, p) && Has(m.lsblk[d].parts.value[p], "PARTTYPE", OsdTypeGuid)
    ensures forall p :: p in m'.partitionsJournal <==>
      exists d :: Filed(m.lsblk, d, p) && Has(m.lsblk[d].parts.value[p], "PARTTYPE", JournalTypeGuid)
  {
    m.(partitionsOsd := Typed(m.lsblk, OsdTypeGuid), partitionsJournal := Typed(m.lsblk, JournalTypeGuid))
  }

  /** No partition name is filed under two disks. */
  ghost predicate UniqueParts(l: NodeModel.Lsblk) {
    forall d1, d2, p :: Filed(l, d1, p) && Filed(l, d2, p) ==> d1 == d2
  }

  /** With every partition filed once, the two sets are disjoint, because a
      record has one partition type and the two type GUIDs differ. */
  lemma LegacySetsDisjoint(m: Model)
    requires UniqueParts(m.lsblk)
    ensures LegacyDiscoverPartitionsRefresh(m).partitionsOsd * LegacyDiscoverPartitionsRefresh(m).partitionsJournal == {}
  {
    var m' := LegacyDiscoverPartitionsRefresh(m);
    forall p | p in m'.partitionsOsd
      ensures p !in m'.partitionsJournal
    {
      var d1 :| Filed(m.lsblk, d1, p) && Has(m.lsblk[d1].parts.value[p], "PARTTYPE", OsdTypeGuid);
      forall d2 | Filed(m.lsblk, d2, p)
        ensures !Has(m.lsblk[d2].parts.value[p], "PARTTYPE", JournalTypeGuid)
      {
        assert d1 == d2;
        assert OsdTypeGuid[1] != JournalTypeGuid[1];
      }
    }
  }

  // ---------------------------------------------------------------- discover_osd_refresh

  /** The loop body of discover_osd_refresh for partition `p`: a partition
      with no known parent, an unknown parent, or a parent without partitions
      is skipped; otherwise its record (which may be missing) is read, and a
      record read gets `dev` (the record's NAME) and, when the record has a
      PKNAME, `dev_parent`. */
  function LegacyStep(env: Env, w: World, m: Model, p: Path): (o: Out<Option<OsdMeta>>)
    ensures !(p in m.partParent && m.partParent[p] in m.lsblk && m.lsblk[m.partParent[p]].parts.Some?) ==> o == Out(w, Ok(None))
    ensures o.r.Ok? && o.r.value.Some? ==>
      && Filed(m.lsblk, m.partParent[p], p)
      && var r := m.lsblk[m.partParent[p]].parts.value[p];
         && "dev" in o.r.value.value && "NAME" in r && o.r.value.value["dev"] == r["NAME"]
         && ("dev_parent" in o.r.value.value <==> "PKNAME" in r)
  {
    if !(p in m.partParent && m.partParent[p] in m.lsblk && m.lsblk[m.partParent[p]].parts.Some?) then Out(w, Ok(None))
    else
      var parts := m.lsblk[m.partParent[p]].parts.value;
      var rec := if p in parts then Some(parts[p]) else None;
      var o := LegacyRetrieve(env, w, rec);
      if o.r.Err? || o.r.value.None? then o
      else
        var r := rec.value;
        ReadHasNoPlacement(env, w, r["NAME"]);
        var md := o.r.value.value["dev" := r["NAME"]];
        Out(o.w, Ok(Some(if "PKNAME" in r then md["dev_parent" := r["PKNAME"]] else md)))
  }

  /** A record read from a partition never carries the keys that placing
      it adds. */
  lemma ReadHasNoPlacement(env: Env, w: World, dev: Path)
    ensures var o := ScratchRead(env, w, dev, LegacyFromDir);
      o.r.Ok? && o.r.value.Some? ==> "dev_parent" !in o.r.value.value
  {
    var o := ScratchRead(env, w, dev, LegacyFromDir);
    if o.r.Ok? && o.r.value.Some? && MountReply(env, w, dev).retcode == 0 {
      var l := env.dirAt(w.trace + ScratchEvents(env, dev)[..2], env.scratch);
      assert o.r == LegacyFromDir(l);
      DirRecordUnplaced(l);
    }
  }

  lemma DirRecordUnplaced(l: Option<Listing>)
    ensures var r := LegacyFromDir(l); r.Ok? && r.value.Some? ==> "dev_parent" !in r.value.value
  {
    var r := LegacyFromDir(l);
    if r.Ok? && r.value.Some? {
      assert r.value.value.Keys == MetaKeys(l.value);
      NoPlacementKey(l.value);
    }
  }

  lemma NoPlacementKey(d: Listing)
    ensures "dev_parent" !in MetaKeys(d)
  {
    assert "dev_parent" != "ceph_fsid";
  }

  /** `md` filed under its cluster fsid. */
  function File(g: map<Option<string>, set<OsdMeta>>, md: OsdMeta): (g': map<Option<string>, set<OsdMeta>>)
    ensures g'.Keys == g.Keys + {FsidOf(md)}
    ensures md in g'[FsidOf(md)]
    ensures forall f :: f in g ==> g[f] <= g'[f]
    ensures forall f, x :: f in g' && x in g'[f] ==> (f in g && x in g[f]) || x == md
  {
    g[FsidOf(md) := (if FsidOf(md) in g then g[FsidOf(md)] else {}) + {md}]
  }

  /** The partitions in iteration order, each record filed as read. */
  function Collect(env: Env, w: World, m: Model, ps: seq<Path>, g: map<Option<string>, set<OsdMeta>>)
    : Out<map<Option<string>, set<OsdMeta>>>
    decreases |ps|
  {
    if |ps| == 0 then Out(w, Ok(g))
    else
      var o := LegacyStep(env, w, m, ps[0]);
      if o.r.Err? then Out(o.w, Err(o.r.error))
      else if o.r.value.None? then Collect(env, o.w, m, ps[1..], g)
      else Collect(env, o.w, m, ps[1..], File(g, o.r.value.value))
  }

  /** Every filed record sits under its own cluster fsid and names its device. */
  predicate Keyed(g: map<Option<string>, set<OsdMeta>>) {
    forall f, md :: f in g && md in g[f] ==> FsidOf(md) == f && "dev" in md
  }

  lemma {:induction false} CollectKeyed(env: Env, w: World, m: Model, ps: seq<Path>, g: map<Option<string>, set<OsdMeta>>)
    requires Keyed(g)
    ensures var o := Collect(env, w, m, ps, g); o.r.Ok? ==> Keyed(o.r.value)
    decreases |ps|
  {
    if |ps| > 0 {
      var o := LegacyStep(env, w, m, ps[0]);
      if o.r.Ok? {
        if o.r.value.None? {
          CollectKeyed(env, o.w, m, ps[1..], g);
        } else {
          var g' := File(g, o.r.value.value);
          FileKeyed(g, o.r.value.value);
          CollectKeyed(env, o.w, m, ps[1..], g');
        }
      }
    }
  }

  /** Filing a record that names its device keeps every record keyed. */
  lemma FileKeyed(g: map<Option<string>, set<OsdMeta>>, md: OsdMeta)
    requires Keyed(g) && "dev" in md
    ensures Keyed(File(g, md))
  {
  }

  /** Records filed earlier stay filed. */
  lemma {:induction false} CollectKeeps(env: Env, w: World, m: Model, ps: seq<Path>, g: map<Option<string>, set<OsdMeta>>)
    ensures var o := Collect(env, w, m, ps, g);
      o.r.Ok? ==> forall f :: f in g ==> f in o.r.value && g[f] <= o.r.value[f]
    decreases |ps|
  {
    if |ps| > 0 {
      var o := LegacyStep(env, w, m, ps[0]);
      if o.r.Ok? {
        if o.r.value.None? {
          CollectKeeps(env, o.w, m, ps[1..], g);
        } else {
          var g' := File(g, o.r.value.value);
          CollectKeeps(env, o.w, m, ps[1..], g');
        }
      }
    }
  }

  /** Partitions with no known parent are skipped silently. */
  lemma {:induction false} CollectSkipsOrphans(env: Env, w: World, m: Model, ps: seq<Path>, g: map<Option<string>, set<OsdMeta>>)
    requires forall i :: 0 <= i < |ps| ==> ps[i] !in m.partParent
    ensures Collect(env, w, m, ps, g) == Out(w, Ok(g))
    decreases |ps|
  {
    if |ps| > 0 {
      assert ps[0] !in m.partParent;
      var rest := ps[1..];
      assert forall i :: 0 <= i < |rest| ==> rest[i] == ps[i + 1];
      CollectSkipsOrphans(env, w, m, rest, g);
    }
  }

  /** The world in which the `i`-th partition is read, every earlier one
      having been read. */
  function StepWorld(env: Env, w: World, m: Model, ps: seq<Path>, i: nat): World
    requires i <= |ps|
    decreases i
  {
    if i == 0 then w else LegacyStep(env, StepWorld(env, w, m, ps, i - 1), m, ps[i - 1]).w
  }

  /** A record is filed, under its own cluster fsid. */
  predicate Holds(g: map<Option<string>, set<OsdMeta>>, md: OsdMeta) {
    FsidOf(md) in g && md in g[FsidOf(md)]
  }

  /** Some partition of `ps`, read in turn, yields the record. */
  predicate Produced(env: Env, w: World, m: Model, ps: seq<Path>, md: OsdMeta) {
    exists i :: 0 <= i < |ps| && YieldsAt(env, w, m, ps, i, md)
  }

  lemma {:induction false} StepWorldShift(env: Env, w: World, m: Model, ps: seq<Path>, i: nat)
    requires 0 < i <= |ps|
    ensures StepWorld(env, w, m, ps, i) == StepWorld(env, LegacyStep(env, w, m, ps[0]).w, m, ps[1..], i - 1)
    decreases i
  {
    if i > 1 {
      StepWorldShift(env, w, m, ps, i - 1);
      assert ps[i - 1] == ps[1..][i - 2];
    }
  }

  /** The `i`-th partition of `ps`, read in turn, yields the record. */
  predicate YieldsAt(env: Env, w: World, m: Model, ps: seq<Path>, i: nat, md: OsdMeta)
    requires i < |ps|
  {
    LegacyStep(env, StepWorld(env, w, m, ps, i), m, ps[i]).r == Ok(Some(md))
  }

  lemma YieldsAtShift(env: Env, w: World, m: Model, ps: seq<Path>, i: nat, md: OsdMeta)
    requires 0 < i < |ps|
    ensures YieldsAt(env, w, m, ps, i, md) == YieldsAt(env, LegacyStep(env, w, m, ps[0]).w, m, ps[1..], i - 1, md)
  {
    StepWorldShift(env, w, m, ps, i);
    assert ps[i] == ps[1..][i - 1];
  }

  /** A record comes from the list when it comes from its first partition
      or, read after that one, from the rest. */
  lemma ProducedShift(env: Env, w: World, m: Model, ps: seq<Path>, md: OsdMeta)
    requires |ps| > 0
    ensures Produced(env, w, m, ps, md) <==>
      LegacyStep(env, w, m, ps[0]).r == Ok(Some(md)) || Produced(env, LegacyStep(env, w, m, ps[0]).w, m, ps[1..], md)
  {
    var w1, rest := LegacyStep(env, w, m, ps[0]).w, ps[1..];
    if Produced(env, w, m, ps, md) {
      var i :| 0 <= i < |ps| && YieldsAt(env, w, m, ps, i, md);
      if i > 0 {
        YieldsAtShift(env, w, m, ps, i, md);
        assert YieldsAt(env, w1, m, rest, i - 1, md);
      }
    }
    if Produced(env, w1, m, rest, md) {
      var j :| 0 <= j < |rest| && YieldsAt(env, w1, m, rest, j, md);
      YieldsAtShift(env, w, m, ps, j + 1, md);
      assert YieldsAt(env, w, m, ps, j + 1, md);
    }
    if LegacyStep(env, w, m, ps[0]).r == Ok(Some(md)) {
      assert YieldsAt(env, w, m, ps, 0, md);
    }
  }

  /** The records filed at the end are those filed before and those the
      partitions yield, no more and no fewer. */
  lemma {:induction false} CollectExact(env: Env, w: World, m: Model, ps: seq<Path>, g: map<Option<string>, set<OsdMeta>>)
    ensures var o := Collect(env, w, m, ps, g);
      o.r.Ok? ==> forall md :: Holds(o.r.value, md) <==> Holds(g, md) || Produced(env, w, m, ps, md)
    decreases |ps|
  {
    if |ps| > 0 {
      var s := LegacyStep(env, w, m, ps[0]);
      if s.r.Ok? {
        var o := Collect(env, w, m, ps, g);
        if s.r.value.None? {
          CollectExact(env, s.w, m, ps[1..], g);
          forall md ensures o.r.Ok? ==> (Holds(o.r.value, md) <==> Holds(g, md) || Produced(env, w, m, ps, md)) {
            ProducedShift(env, w, m, ps, md);
          }
        } else {
          var r := s.r.value.value;
          CollectExact(env, s.w, m, ps[1..], File(g, r));
          forall md ensures o.r.Ok? ==> (Holds(o.r.value, md) <==> Holds(g, md) || Produced(env, w, m, ps, md)) {
            ProducedShift(env, w, m, ps, md);
            HoldsFile(g, r, md);
          }
        }
      }
    }
  }

  /** Filing a record adds exactly that record. */
  lemma HoldsFile(g: map<Option<string>, set<OsdMeta>>, r: OsdMeta, md: OsdMeta)
    ensures Holds(File(g, r), md) <==> Holds(g, md) || md == r
  {
  }

  /** discover_osd_refresh: the records of the OSD-set partitions, in
      iteration order, grouped by cluster fsid, replace discovered_osd;
      nothing else in the model changes. */
  function LegacyDiscoverOsdRefresh(env: Env, w: World, m: Model): (o: Out<Model>)
    ensures o.r.Ok? ==> o.r.value == m.(discoveredOsd := o.r.value.discoveredOsd)
    ensures o.r.Ok? ==> Keyed(o.r.value.discoveredOsd)
    ensures o.r.Ok? ==> forall md :: Holds(o.r.value.discoveredOsd, md) <==> Produced(env, w, m, env.order(m.partitionsOsd), md)
  {
    var c := Collect(env, w, m, env.order(m.partitionsOsd), map[]);
    CollectKeyed(env, w, m, env.order(m.partitionsOsd), map[]);
    CollectExact(env, w, m, env.order(m.partitionsOsd), map[]);
    if c.r.Err? then Out(c.w, Err(c.r.error)) else Out(c.w, Ok(m.(discoveredOsd := c.r.value)))
  }

  /** With a faithful iteration order, every OSD-set partition is read, every
      filed record is what one of them yields, and every record one of them
      yields is filed. */
  lemma LegacyDiscoverOsdCovers(env: Env, w: World, m: Model)
    requires OrderIsFaithful(env, m.partitionsOsd)
    ensures var ps := env.order(m.partitionsOsd); var o := LegacyDiscoverOsdRefresh(env, w, m);
      && (forall p :: p in m.partitionsOsd ==> p in ps)
      && (o.r.Ok? ==> forall md :: Holds(o.r.value.discoveredOsd, md) ==>
            exists i :: 0 <= i < |ps| && ps[i] in m.partitionsOsd && YieldsAt(env, w, m, ps, i, md))
      && (o.r.Ok? ==> forall i, md :: 0 <= i < |ps| && YieldsAt(env, w, m, ps, i, md) ==> Holds(o.r.value.discoveredOsd, md))
  {
    var ps := env.order(m.partitionsOsd);
    var o := LegacyDiscoverOsdRefresh(env, w, m);
    if o.r.Ok? {
      forall md | Holds(o.r.value.discoveredOsd, md)
        ensures exists i :: 0 <= i < |ps| && ps[i] in m.partitionsOsd && YieldsAt(env, w, m, ps, i, md)
      {
        var i :| 0 <= i < |ps| && YieldsAt(env, w, m, ps, i, md);
        assert ps[i] in m.partitionsOsd;
      }
    }
  }

  /** The first partition's record is filed under its fsid. */
  lemma LegacyFirstFiled(env: Env, w: World, m: Model, ps: seq<Path>, g: map<Option<string>, set<OsdMeta>>)
    requires |ps| > 0
    requires var s := LegacyStep(env, w, m, ps[0]); s.r.Ok? && s.r.value.Some?
    ensures var s := LegacyStep(env, w, m, ps[0]); var o := Collect(env, w, m, ps, g);
      o.r.Ok? ==> FsidOf(s.r.value.value) in o.r.value && s.r.value.value in o.r.value[FsidOf(s.r.value.value)]
  {
    var s := LegacyStep(env, w, m, ps[0]);
    CollectKeeps(env, s.w, m, ps[1..], File(g, s.r.value.value));
  }

  // ---------------------------------------------------------------- lsblk

  /** partitions_all_refresh of this copy: lsblk with the fixed arguments of
      a new lsblk, and the same tree building; the lsblk version is neither
      read nor changed. */
  function LegacyPartitionsAllRefresh(env: Env, w: World, m: Model): (o: Out<Model>)
    ensures o.w.trace == w.trace + [Ran(["lsblk"] + NewArgs)]
    ensures env.run(w.trace, ["lsblk"] + NewArgs).retcode != 0 ==> o.r.Err? && o.r.error.cls == UpdaterError
    ensures o.r.Ok? ==> o.r.value == m.(lsblk := o.r.value.lsblk, partParent := o.r.value.partParent)
    ensures o.r.Ok? ==> Tree(o.r.value.lsblk, o.r.value.partParent) == BuildTree(Rows(env, env.run(w.trace, ["lsblk"] + NewArgs).stdout))
  {
    var o := ExecuteChecked(env, w, ["lsblk"] + NewArgs, UpdaterError, "Failed running: lsblk --ascii --output-all");
    if o.r.Err? then Out(o.w, Err(o.r.error))
    else
      var t := BuildTree(Rows(env, o.r.value.stdout));
      Out(o.w, Ok(m.(lsblk := t.lsblk, partParent := t.parent)))
  }

  /** With a known lsblk of version 2.25 or later, both copies run the same
      command and build the same model. */
  lemma LegacyPartitionsAllAgrees(env: Env, w: World, m: Model)
    requires AtLeast(m.lsblkVersion, 2, 25)
    ensures LegacyPartitionsAllRefresh(env, w, m) == PartitionsAllRefresh(env, w, m)
  {
    assert ArgsForVersion(m.lsblkVersion) == Ok(NewArgs);
    assert LsblkArguments(env, w, m.lsblkVersion) == Out(w, Ok((m.lsblkVersion, NewArgs)));
  }
}
