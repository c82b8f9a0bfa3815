/** The purger: stop every Ceph unit, drop the keyrings, unmount the OSD data
    partitions, then clear the data directories under /var/lib/ceph and the
    cluster configuration file. */
module Purger {
  import opened Wrappers
  import opened Exec
  import opened NodeModel
  import Updater
  import Lsblk
  import Discovery
  import Service
  import Keyring
  import Monitor

  /** The events between three worlds, each continuing the one before. */
  lemma SinceJoin(a: World, b: World, c: World)
    requires Extends(a, b) && Extends(b, c)
    ensures Extends(a, c)
    ensures Since(a, c) == Since(a, b) + Since(b, c)
  {
    ExtendsTrans(a, b, c);
    assert c.trace[|a.trace|..] == c.trace[|a.trace|..|b.trace|] + c.trace[|b.trace|..];
    assert c.trace[|a.trace|..|b.trace|] == b.trace[|a.trace|..];
  }

  // ---------------------------------------------------------------- shutdown

  /** The one command service_shutdown_ceph issues. */
  const StopArgv: Argv := [Service.Systemctl, "stop", "ceph*"]

  /** service_shutdown_ceph: stop every ceph unit at once; a non-zero exit
      raises the purger's error. */
  function ShutdownCeph(env: Env, w: World): (o: Out<()>)
    ensures o.w.trace == w.trace + [Ran(StopArgv)]
    ensures o.w.dirs == w.dirs && o.w.mounted == w.mounted
    ensures o.r.Ok? <==> env.run(w.trace, StopArgv).retcode == 0
    ensures o.r.Err? ==> o.r.error.cls == PurgerError
  {
    var c := ExecuteChecked(env, w, StopArgv, PurgerError, "Failed executing 'systemctl stop ceph*'");
    Out(c.w, if c.r.Ok? then Ok(()) else Err(c.r.error))
  }

  // ---------------------------------------------------------------- unmount

  /** The mount point unmount_osd reads for a partition, through its parent
      disk, the disk's lsblk row, that row's partition map and the
      partition's own row; None where any link is missing. */
  function MountPoint(m: Model, part: Path): Option<Path> {
    if part !in m.partParent then None
    else
      var disk := m.partParent[part];
      if disk !in m.lsblk then None
      else
        match m.lsblk[disk].parts
        case None => None
        case Some(parts) =>
          if part !in parts || "MOUNTPOINT" !in parts[part] then None
          else Some(parts[part]["MOUNTPOINT"])
  }

  /** A partition is unmounted exactly when all five lookups succeed. */
  lemma MountPointResolves(m: Model, part: Path)
    ensures MountPoint(m, part).Some? <==>
      part in m.partParent && m.partParent[part] in m.lsblk && m.lsblk[m.partParent[part]].parts.Some?
      && part in m.lsblk[m.partParent[part]].parts.value && "MOUNTPOINT" in m.lsblk[m.partParent[part]].parts.value[part]
    ensures MountPoint(m, part).Some? ==>
      MountPoint(m, part).value == m.lsblk[m.partParent[part]].parts.value[part]["MOUNTPOINT"]
  {
  }

  function UmountArgv(mountpoint: Path): Argv {
    ["umount", mountpoint]
  }

  /** The umount a partition calls for, when its mount point resolves. */
  predicate Unmounts(m: Model, part: Path, e: Event) {
    MountPoint(m, part).Some? && e == Ran(UmountArgv(MountPoint(m, part).value))
  }

  /** One turn of unmount_osd's loop: nothing when the mount point does not
      resolve; otherwise umount, raising the purger's error on a non-zero
      exit. */
  function UnmountOne(env: Env, w: World, m: Model, part: Path): (o: Out<()>)
    ensures o.w.dirs == w.dirs && o.w.mounted == w.mounted
    ensures MountPoint(m, part).None? ==> o == Out(w, Ok(()))
    ensures MountPoint(m, part).Some? ==>
      o.w.trace == w.trace + [Ran(UmountArgv(MountPoint(m, part).value))]
      && (o.r.Ok? <==> env.run(w.trace, UmountArgv(MountPoint(m, part).value)).retcode == 0)
    ensures o.r.Err? ==> o.r.error.cls == PurgerError
  {
    match MountPoint(m, part)
    case None => Out(w, Ok(()))
    case Some(mp) =>
      var c := ExecuteChecked(env, w, UmountArgv(mp), PurgerError, "Failed executing 'umount " + mp + "'");
      Out(c.w, if c.r.Ok? then Ok(()) else Err(c.r.error))
  }

  /** unmount_osd over the partitions in the given order: a partition whose
      mount point does not resolve is skipped, and the first failed umount
      raises the purger's error. */
  function UnmountEach(env: Env, w: World, m: Model, parts: seq<Path>): (o: Out<()>)
    decreases |parts|
    ensures Extends(w, o.w) && o.w.dirs == w.dirs && o.w.mounted == w.mounted
    ensures o.r.Err? ==>
      o.r.error.cls == PurgerError && |w.trace| < |o.w.trace| && o.w.trace[|o.w.trace| - 1].Ran?
      && env.run(o.w.trace[..|o.w.trace| - 1], o.w.trace[|o.w.trace| - 1].argv).retcode != 0
  {
    if |parts| == 0 then Out(w, Ok(()))
    else
      var c := UnmountOne(env, w, m, parts[0]);
      if c.r.Err? then c
      else UnmountEach(env, c.w, m, parts[1..])
  }

  /** Every command of the loop unmounts a listed partition, and a loop that
      finishes has unmounted every listed partition whose mount point
      resolves. */
  lemma {:induction false} UnmountEachEvents(env: Env, w: World, m: Model, parts: seq<Path>)
    decreases |parts|
    ensures var o := UnmountEach(env, w, m, parts);
      (forall e :: e in Since(w, o.w) ==> exists p :: p in parts && Unmounts(m, p, e))
      && (o.r.Ok? ==> forall p :: p in parts && MountPoint(m, p).Some? ==> Ran(UmountArgv(MountPoint(m, p).value)) in Since(w, o.w))
  {
    if |parts| > 0 {
      var c := UnmountOne(env, w, m, parts[0]);
      UnmountOneEvents(env, w, m, parts[0]);
      if c.r.Ok? {
        var o := UnmountEach(env, c.w, m, parts[1..]);
        UnmountEachEvents(env, c.w, m, parts[1..]);
        SinceJoin(w, c.w, o.w);
      }
    }
  }

  /** The events of one turn: at most the partition's own umount. */
  lemma UnmountOneEvents(env: Env, w: World, m: Model, part: Path)
    ensures var o := UnmountOne(env, w, m, part);
      Extends(w, o.w) && (forall e :: e in Since(w, o.w) ==> Unmounts(m, part, e))
      && (MountPoint(m, part).Some? ==> Ran(UmountArgv(MountPoint(m, part).value)) in Since(w, o.w))
  {
    var o := UnmountOne(env, w, m, part);
    if MountPoint(m, part).Some? {
      assert Since(w, o.w) == [Ran(UmountArgv(MountPoint(m, part).value))];
    }
  }

  /** unmount_osd: the partitions of the OSD set, in the set's iteration
      order. */
  function UnmountOsd(env: Env, w: World, m: Model): (o: Out<()>)
    ensures Extends(w, o.w) && o.w.dirs == w.dirs && o.w.mounted == w.mounted
    ensures OrderIsFaithful(env, m.partitionsOsd) ==>
      forall e :: e in Since(w, o.w) ==> exists p :: p in m.partitionsOsd && Unmounts(m, p, e)
    ensures OrderIsFaithful(env, m.partitionsOsd) && o.r.Ok? ==>
      forall p :: p in m.partitionsOsd && MountPoint(m, p).Some? ==> Ran(UmountArgv(MountPoint(m, p).value)) in Since(w, o.w)
    ensures o.r.Err? ==> o.r.error.cls == PurgerError
  {
    UnmountEachEvents(env, w, m, env.order(m.partitionsOsd));
    UnmountEach(env, w, m, env.order(m.partitionsOsd))
  }

  // ---------------------------------------------------------------- the walks

  function FilesUnder(w: World, root: Path): set<Path> {
    set p | p in w.files && Under(p, root)
  }

  function DirsUnder(w: World, root: Path): set<Path> {
    set d | d in w.dirs && Under(d, root)
  }

  /** No directory comes after one below it: os.walk(topdown=True). */
  predicate TopDown(ds: seq<Path>) {
    forall i, j :: 0 <= i < |ds| && 0 <= j < |ds| && Under(ds[j], ds[i]) ==> i < j
  }

  /** No directory comes before one below it: os.walk(topdown=False). */
  predicate BottomUp(ds: seq<Path>) {
    forall i, j :: 0 <= i < |ds| && 0 <= j < |ds| && Under(ds[j], ds[i]) ==> j < i
  }

  /** param_list_file lists every file below the root once. */
  ghost predicate FilesWalkFaithful(env: Env) {
    forall w: World, root: Path :: IsOrderOf(env.walkFiles(w, root), FilesUnder(w, root))
  }

  /** param_list_dir lists every directory below the root once, top down. */
  ghost predicate DirsWalkFaithful(env: Env) {
    forall w: World, root: Path :: IsOrderOf(env.walkDirs(w, root), DirsUnder(w, root)) && TopDown(env.walkDirs(w, root))
  }

  // ---------------------------------------------------------------- files

  /** remove_file over a listing: os.remove on each path in turn; the first
      failure raises. */
  function RemoveFiles(env: Env, w: World, ps: seq<Path>): (o: Out<()>)
    decreases |ps|
    ensures Extends(w, o.w) && o.w.dirs == w.dirs && o.w.mounted == w.mounted
    ensures o.w.files.Keys <= w.files.Keys && forall p :: p in o.w.files ==> o.w.files[p] == w.files[p]
    ensures forall p :: p in w.files && p !in ps ==> p in o.w.files
    ensures o.r.Ok? ==> forall p :: p in ps ==> p !in o.w.files
    ensures o.r.Err? ==> o.r.error.cls == Builtin
  {
    if |ps| == 0 then Out(w, Ok(()))
    else
      var o1 := RemoveFile(env, w, ps[0]);
      if o1.r.Err? then o1 else RemoveFiles(env, o1.w, ps[1..])
  }

  /** Every effect of the loop removes a listed file that was there. */
  lemma {:induction false} RemoveFilesEvents(env: Env, w: World, ps: seq<Path>)
    decreases |ps|
    ensures var o := RemoveFiles(env, w, ps);
      forall e :: e in Since(w, o.w) ==> e.FileRemoved? && e.path in ps && e.path in w.files
  {
    if |ps| > 0 {
      var o1 := RemoveFile(env, w, ps[0]);
      if o1.r.Ok? {
        var o := RemoveFiles(env, o1.w, ps[1..]);
        RemoveFilesEvents(env, o1.w, ps[1..]);
        assert Since(w, o1.w) == [FileRemoved(ps[0])];
        SinceJoin(w, o1.w, o.w);
      }
    }
  }

  /** A listing of distinct, present, removable files is removed without
      raising. */
  lemma {:induction false} RemoveFilesSucceeds(env: Env, w: World, ps: seq<Path>)
    requires forall i, j :: 0 <= i < j < |ps| ==> ps[i] != ps[j]
    requires forall p :: p in ps ==> p in w.files && env.canRemove(p)
    decreases |ps|
    ensures RemoveFiles(env, w, ps).r.Ok?
  {
    if |ps| > 0 {
      var o1 := RemoveFile(env, w, ps[0]);
      forall p | p in ps[1..]
        ensures p in o1.w.files
      {
        var k :| 0 <= k < |ps[1..]| && ps[1..][k] == p;
        assert ps[k + 1] == p;
      }
      RemoveFilesSucceeds(env, o1.w, ps[1..]);
    }
  }

  /** param_list_file then remove_file: the files os.walk lists below the
      root. */
  function FilesPass(env: Env, w: World, root: Path): (o: Out<()>)
    ensures Extends(w, o.w) && o.w.dirs == w.dirs && o.w.mounted == w.mounted
    ensures o.w.files.Keys <= w.files.Keys && forall p :: p in o.w.files ==> o.w.files[p] == w.files[p]
    ensures o.r.Err? ==> o.r.error.cls == Builtin
  {
    RemoveFiles(env, w, env.walkFiles(w, root))
  }

  /** With a faithful walk and removable files, the pass removes exactly the
      files below the root. */
  lemma FilesPassClears(env: Env, w: World, root: Path)
    requires IsOrderOf(env.walkFiles(w, root), FilesUnder(w, root))
    requires forall p :: p in FilesUnder(w, root) ==> env.canRemove(p)
    ensures FilesPass(env, w, root).r.Ok?
    ensures forall p :: p in FilesPass(env, w, root).w.files <==> p in w.files && !Under(p, root)
  {
    RemoveFilesSucceeds(env, w, env.walkFiles(w, root));
  }

  // ---------------------------------------------------------------- directories

  /** remove_dir: os.listdir raises on a missing directory; a directory with
      anything in it is left alone; an empty one is removed, os.rmdir raising
      on a mount point.  The isdir test between the two cannot fail once
      os.listdir has succeeded. */
  function RemoveDirIfEmpty(w: World, d: Path): (o: Out<()>)
    ensures o.w.files == w.files && o.w.mounted == w.mounted
    ensures d !in w.dirs ==> o.r.Err?
    ensures d in w.dirs && Children(w, d) != {} ==> o == Out(w, Ok(()))
    ensures d in w.dirs && d !in w.mounted && Children(w, d) == {} ==>
      o.r.Ok? && o.w.dirs == w.dirs - {d} && o.w.trace == w.trace + [DirRemoved(d)]
    ensures o.w.dirs != w.dirs ==> d in w.dirs && Children(w, d) == {} && o.w.dirs == w.dirs - {d}
    ensures o.r.Err? ==> o.w == w && o.r.error.cls == Builtin
  {
    if d !in w.dirs then Out(w, Raise(Builtin, "OSError: No such file or directory: " + d))
    else if Children(w, d) != {} then Out(w, Ok(()))
    else RemoveDir(w, d)
  }

  /** remove_dir over a listing, in order; the first failure raises. */
  function RemoveDirs(w: World, ds: seq<Path>): (o: Out<()>)
    decreases |ds|
    ensures Extends(w, o.w) && o.w.files == w.files && o.w.mounted == w.mounted
    ensures o.w.dirs <= w.dirs && forall d :: d in w.dirs && d !in o.w.dirs ==> d in ds
    ensures o.r.Err? ==> o.r.error.cls == Builtin
  {
    if |ds| == 0 then Out(w, Ok(()))
    else
      var o1 := RemoveDirIfEmpty(w, ds[0]);
      if o1.r.Err? then o1 else RemoveDirs(o1.w, ds[1..])
  }

  /** Every effect of the loop removes a listed directory. */
  lemma {:induction false} RemoveDirsEvents(w: World, ds: seq<Path>)
    decreases |ds|
    ensures var o := RemoveDirs(w, ds);
      forall e :: e in Since(w, o.w) ==> e.DirRemoved? && e.dir in ds
  {
    if |ds| > 0 {
      var o1 := RemoveDirIfEmpty(w, ds[0]);
      if o1.r.Ok? {
        var o := RemoveDirs(o1.w, ds[1..]);
        RemoveDirsEvents(o1.w, ds[1..]);
        assert Since(w, o1.w) == [] || Since(w, o1.w) == [DirRemoved(ds[0])];
        SinceJoin(w, o1.w, o.w);
      }
    }
  }

  /** A directory listed before everything below it keeps a subdirectory
      that is still there at its turn, so it is never removed: the
      top-down listing leaves every directory that held a subdirectory. */
  lemma {:induction false} ParentsSurvive(w: World, ds: seq<Path>, d: Path, c: Path)
    requires d in w.dirs && c in w.dirs && Under(c, d)
    requires forall i, k :: 0 <= i < |ds| && 0 <= k < |ds| && ds[i] == d && ds[k] == c ==> i < k
    decreases |ds|
    ensures d in RemoveDirs(w, ds).w.dirs
  {
    if d in ds {
      var i :| 0 <= i < |ds| && ds[i] == d;
      var o1 := RemoveDirIfEmpty(w, ds[0]);
      if o1.r.Ok? {
        assert c != ds[0];
        if ds[0] == d {
          assert c in Children(w, d);
        }
        ParentsSurvive(o1.w, ds[1..], d, c);
      }
    }
  }

  /** A listed directory that is empty, and not a mount point, is gone once
      the loop completes. */
  lemma {:induction false} EmptyRemoved(w: World, ds: seq<Path>, d: Path)
    requires d in ds && d in w.dirs && d !in w.mounted && Children(w, d) == {}
    decreases |ds|
    ensures RemoveDirs(w, ds).r.Ok? ==> d !in RemoveDirs(w, ds).w.dirs
  {
    var o1 := RemoveDirIfEmpty(w, ds[0]);
    if o1.r.Ok? && ds[0] != d {
      assert Children(o1.w, d) <= Children(w, d);
      EmptyRemoved(o1.w, ds[1..], d);
    }
  }

  /** `Under` is transitive. */
  lemma UnderTrans(c: Path, d: Path, root: Path)
    requires Under(d, root)
    ensures Under(c, d) ==> Under(c, root)
  {
    if Under(c, d) {
      assert c[..|root| + 1] == c[..|d| + 1][..|root| + 1];
    }
  }

  /** The loop's invariant when every directory comes after all those below
      it: each listed directory has nothing below it at its turn, so all of
      them go. */
  lemma {:induction false} BottomUpRemovesAll(w: World, ds: seq<Path>)
    requires forall i, j :: 0 <= i < j < |ds| ==> ds[i] != ds[j]
    requires forall d :: d in ds ==> d in w.dirs && d !in w.mounted
    requires forall c, i :: 0 <= i < |ds| && c in w.dirs && Under(c, ds[i]) ==> c in ds[..i]
    requires forall p, i :: 0 <= i < |ds| && p in w.files ==> !Under(p, ds[i])
    decreases |ds|
    ensures RemoveDirs(w, ds).r.Ok?
    ensures forall d :: d in ds ==> d !in RemoveDirs(w, ds).w.dirs
  {
    if |ds| > 0 {
      assert Children(w, ds[0]) == {};
      var o1 := RemoveDirIfEmpty(w, ds[0]);
      var rest := ds[1..];
      forall d | d in rest
        ensures d in o1.w.dirs && d !in o1.w.mounted
      {
        var k :| 0 <= k < |rest| && rest[k] == d;
        assert ds[k + 1] == d;
      }
      forall c, i | 0 <= i < |rest| && c in o1.w.dirs && Under(c, rest[i])
        ensures c in rest[..i]
      {
        assert rest[i] == ds[i + 1];
        assert c in ds[..i + 1];
        assert ds[..i + 1] == [ds[0]] + rest[..i];
      }
      forall p, i | 0 <= i < |rest| && p in o1.w.files
        ensures !Under(p, rest[i])
      {
        assert rest[i] == ds[i + 1];
      }
      BottomUpRemovesAll(o1.w, rest);
    }
  }

  /** `s` read backwards. */
  function Reverse(s: seq<Path>): (r: seq<Path>)
    ensures |r| == |s| && forall i :: 0 <= i < |s| ==> r[i] == s[|s| - 1 - i]
  {
    seq(|s|, i requires 0 <= i < |s| => s[|s| - 1 - i])
  }

  /** Reading a top-down listing backwards lists bottom up, and lists the
      same directories. */
  lemma ReverseBottomUp(ds: seq<Path>, dirs: set<Path>)
    requires IsOrderOf(ds, dirs) && TopDown(ds)
    ensures IsOrderOf(Reverse(ds), dirs) && BottomUp(Reverse(ds))
  {
    var r := Reverse(ds);
    forall x | x in dirs
      ensures x in r
    {
      var i :| 0 <= i < |ds| && ds[i] == x;
      assert r[|ds| - 1 - i] == x;
    }
    forall i, j | 0 <= i < |r| && 0 <= j < |r| && Under(r[j], r[i])
      ensures j < i
    {
      assert Under(ds[|ds| - 1 - j], ds[|ds| - 1 - i]);
    }
  }

  /** With a bottom-up listing of every directory below a root that holds no
      file and no mount point, the pass removes every directory below it. */
  lemma BottomUpClears(w: World, ds: seq<Path>, root: Path)
    requires IsOrderOf(ds, DirsUnder(w, root)) && BottomUp(ds)
    requires FilesUnder(w, root) == {}
    requires forall d :: d in w.mounted ==> !Under(d, root)
    ensures RemoveDirs(w, ds).r.Ok? && DirsUnder(RemoveDirs(w, ds).w, root) == {}
  {
    forall c, i | 0 <= i < |ds| && c in w.dirs && Under(c, ds[i])
      ensures c in ds[..i]
    {
      UnderTrans(c, ds[i], root);
      assert c in DirsUnder(w, root);
      var k :| 0 <= k < |ds| && ds[k] == c;
      assert k < i;
    }
    forall p, i | 0 <= i < |ds| && p in w.files
      ensures !Under(p, ds[i])
    {
      UnderTrans(p, ds[i], root);
      assert p !in FilesUnder(w, root);
    }
    BottomUpRemovesAll(w, ds);
  }

  // ---------------------------------------------------------------- list_files

  /** The four roots list_files clears, in its order.  The metadata server's
      root is the path the configuration names. */
  function Roots(env: Env): seq<Path> {
    [env.mdsLib, LibRgw, LibOsd, LibMon]
  }

  /** The position of the first root a path lies below; |roots| when none. */
  function Rank(p: Path, roots: seq<Path>): (k: nat)
    decreases |roots|
    ensures k <= |roots|
    ensures k < |roots| ==> Under(p, roots[k])
    ensures forall j :: 0 <= j < k ==> !Under(p, roots[j])
  {
    if |roots| == 0 then 0 else if Under(p, roots[0]) then 0 else 1 + Rank(p, roots[1..])
  }

  /** The file loops of list_files, one root after the other; the first
      failure raises. */
  function FilesPhase(env: Env, w: World, roots: seq<Path>): (o: Out<()>)
    decreases |roots|
    ensures Extends(w, o.w) && o.w.dirs == w.dirs && o.w.mounted == w.mounted
    ensures o.w.files.Keys <= w.files.Keys && forall p :: p in o.w.files ==> o.w.files[p] == w.files[p]
    ensures o.r.Err? ==> o.r.error.cls == Builtin
  {
    if |roots| == 0 then Out(w, Ok(()))
    else
      var o1 := FilesPass(env, w, roots[0]);
      if o1.r.Err? then o1 else FilesPhase(env, o1.w, roots[1..])
  }

  /** Every effect of the file loops removes a file that was there. */
  lemma {:induction false} FilesPhaseEvents(env: Env, w: World, roots: seq<Path>)
    decreases |roots|
    ensures var o := FilesPhase(env, w, roots);
      forall e :: e in Since(w, o.w) ==> e.FileRemoved? && e.path in w.files
  {
    if |roots| > 0 {
      var o1 := FilesPass(env, w, roots[0]);
      RemoveFilesEvents(env, w, env.walkFiles(w, roots[0]));
      if o1.r.Ok? {
        var o := FilesPhase(env, o1.w, roots[1..]);
        FilesPhaseEvents(env, o1.w, roots[1..]);
        SinceJoin(w, o1.w, o.w);
      }
    }
  }

  /** With faithful walks and removable files the file loops complete and
      leave exactly the files below none of the roots. */
  lemma {:induction false} FilesPhaseClears(env: Env, w: World, roots: seq<Path>)
    requires FilesWalkFaithful(env)
    requires forall p :: p in w.files ==> env.canRemove(p)
    decreases |roots|
    ensures FilesPhase(env, w, roots).r.Ok?
    ensures forall p :: p in FilesPhase(env, w, roots).w.files <==> p in w.files && Rank(p, roots) == |roots|
  {
    if |roots| > 0 {
      assert IsOrderOf(env.walkFiles(w, roots[0]), FilesUnder(w, roots[0]));
      FilesPassClears(env, w, roots[0]);
      var o1 := FilesPass(env, w, roots[0]);
      FilesPhaseClears(env, o1.w, roots[1..]);
    }
  }

  /** Removals of paths listed in non-decreasing rank. */
  predicate RanksSorted(e: seq<Event>, roots: seq<Path>) {
    forall i, j :: 0 <= i < j < |e| ==> e[i].FileRemoved? && e[j].FileRemoved? && Rank(e[i].path, roots) <= Rank(e[j].path, roots)
  }

  /** Removals below the first root, then removals sorted by the later roots
      and below none of the first, are sorted. */
  lemma RanksSortedJoin(e1: seq<Event>, e2: seq<Event>, roots: seq<Path>)
    requires |roots| > 0
    requires forall e :: e in e1 ==> e.FileRemoved? && Under(e.path, roots[0])
    requires RanksSorted(e2, roots[1..])
    requires forall e :: e in e2 ==> e.FileRemoved? && !Under(e.path, roots[0])
    ensures RanksSorted(e1 + e2, roots)
  {
    var e := e1 + e2;
    forall i, j | 0 <= i < j < |e|
      ensures e[i].FileRemoved? && e[j].FileRemoved? && Rank(e[i].path, roots) <= Rank(e[j].path, roots)
    {
      if j < |e1| {
        assert e[i] == e1[i] && e[j] == e1[j];
        assert e1[i] in e1 && e1[j] in e1;
      } else if i < |e1| {
        assert e[i] == e1[i] && e[j] == e2[j - |e1|];
        assert e1[i] in e1 && e2[j - |e1|] in e2;
      } else {
        assert e[i] == e2[i - |e1|] && e[j] == e2[j - |e1|];
        assert e2[i - |e1|] in e2 && e2[j - |e1|] in e2;
      }
    }
  }

  /** A pass over a faithful walk removes only files below its root, and the
      loops after a completed pass remove nothing below it. */
  lemma FirstRootEvents(env: Env, w: World, roots: seq<Path>)
    requires |roots| > 0 && IsOrderOf(env.walkFiles(w, roots[0]), FilesUnder(w, roots[0]))
    ensures var o1 := FilesPass(env, w, roots[0]);
      (forall e :: e in Since(w, o1.w) ==> e.FileRemoved? && Under(e.path, roots[0]))
      && (o1.r.Ok? ==> forall e :: e in Since(o1.w, FilesPhase(env, o1.w, roots[1..]).w) ==>
            e.FileRemoved? && !Under(e.path, roots[0]))
  {
    var o1 := FilesPass(env, w, roots[0]);
    RemoveFilesEvents(env, w, env.walkFiles(w, roots[0]));
    FilesPhaseEvents(env, o1.w, roots[1..]);
    forall e | e in Since(o1.w, FilesPhase(env, o1.w, roots[1..]).w) && o1.r.Ok?
      ensures !Under(e.path, roots[0])
    {
      assert e.path !in FilesUnder(w, roots[0]);
    }
  }

  /** With faithful walks, files are removed root by root: no file is removed
      after one below a later root. */
  lemma {:induction false} FilesPhaseInOrder(env: Env, w: World, roots: seq<Path>)
    requires FilesWalkFaithful(env)
    decreases |roots|
    ensures RanksSorted(Since(w, FilesPhase(env, w, roots).w), roots)
  {
    if |roots| > 0 {
      assert IsOrderOf(env.walkFiles(w, roots[0]), FilesUnder(w, roots[0]));
      FirstRootEvents(env, w, roots);
      var o1 := FilesPass(env, w, roots[0]);
      if o1.r.Ok? {
        var o := FilesPhase(env, o1.w, roots[1..]);
        FilesPhaseInOrder(env, o1.w, roots[1..]);
        SinceJoin(w, o1.w, o.w);
        RanksSortedJoin(Since(w, o1.w), Since(o1.w, o.w), roots);
      } else {
        RanksSortedJoin(Since(w, o1.w), [], roots);
        assert Since(w, o1.w) + [] == Since(w, o1.w);
      }
    }
  }

  /** How the directory loops order each root's listing: as os.walk gives it
      (top down), or read backwards (bottom up). */
  datatype DirOrder = TopDownOrder | BottomUpOrder

  function DirList(env: Env, w: World, root: Path, order: DirOrder): seq<Path> {
    if order == TopDownOrder then env.walkDirs(w, root) else Reverse(env.walkDirs(w, root))
  }

  /** The directory loops of list_files, one root after the other; the first
      failure raises. */
  function DirsPhase(env: Env, w: World, roots: seq<Path>, order: DirOrder): (o: Out<()>)
    decreases |roots|
    ensures Extends(w, o.w) && o.w.files == w.files && o.w.mounted == w.mounted && o.w.dirs <= w.dirs
    ensures o.r.Err? ==> o.r.error.cls == Builtin
  {
    if |roots| == 0 then Out(w, Ok(()))
    else
      var o1 := RemoveDirs(w, DirList(env, w, roots[0], order));
      if o1.r.Err? then o1 else DirsPhase(env, o1.w, roots[1..], order)
  }

  /** Every effect of the directory loops removes a directory. */
  lemma {:induction false} DirsPhaseEvents(env: Env, w: World, roots: seq<Path>, order: DirOrder)
    decreases |roots|
    ensures forall e :: e in Since(w, DirsPhase(env, w, roots, order).w) ==> e.DirRemoved?
  {
    if |roots| > 0 {
      var o1 := RemoveDirs(w, DirList(env, w, roots[0], order));
      RemoveDirsEvents(w, DirList(env, w, roots[0], order));
      if o1.r.Ok? {
        var o := DirsPhase(env, o1.w, roots[1..], order);
        DirsPhaseEvents(env, o1.w, roots[1..], order);
        SinceJoin(w, o1.w, o.w);
      }
    }
  }

  /** Bottom up, with faithful walks, no file and no mount point below the
      roots, the directory loops complete and leave no directory below any
      root. */
  lemma {:induction false} DirsPhaseClears(env: Env, w: World, roots: seq<Path>)
    requires DirsWalkFaithful(env)
    requires forall k :: 0 <= k < |roots| ==> FilesUnder(w, roots[k]) == {}
    requires forall d, k :: d in w.mounted && 0 <= k < |roots| ==> !Under(d, roots[k])
    decreases |roots|
    ensures DirsPhase(env, w, roots, BottomUpOrder).r.Ok?
    ensures forall k :: 0 <= k < |roots| ==> DirsUnder(DirsPhase(env, w, roots, BottomUpOrder).w, roots[k]) == {}
  {
    if |roots| > 0 {
      var walk := env.walkDirs(w, roots[0]);
      assert IsOrderOf(walk, DirsUnder(w, roots[0])) && TopDown(walk);
      ReverseBottomUp(walk, DirsUnder(w, roots[0]));
      BottomUpClears(w, Reverse(walk), roots[0]);
      var o1 := RemoveDirs(w, Reverse(walk));
      assert forall k :: 0 <= k < |roots| ==> FilesUnder(o1.w, roots[k]) == FilesUnder(w, roots[k]);
      DirsPhaseClears(env, o1.w, roots[1..]);
      var o := DirsPhase(env, o1.w, roots[1..], BottomUpOrder);
      forall k | 0 <= k < |roots|
        ensures DirsUnder(o.w, roots[k]) == {}
      {
        if k == 0 {
          assert DirsUnder(o.w, roots[0]) <= DirsUnder(o1.w, roots[0]);
        } else {
          assert roots[k] == roots[1..][k - 1];
        }
      }
    }
  }

  /** list_files: every file loop, then every directory loop. */
  function ListFiles(env: Env, w: World, order: DirOrder): (o: Out<()>)
    ensures Extends(w, o.w) && o.w.mounted == w.mounted && o.w.dirs <= w.dirs
    ensures o.w.files.Keys <= w.files.Keys && forall p :: p in o.w.files ==> o.w.files[p] == w.files[p]
    ensures o.r.Err? ==> o.r.error.cls == Builtin
  {
    var f := FilesPhase(env, w, Roots(env));
    if f.r.Err? then f else DirsPhase(env, f.w, Roots(env), order)
  }

  /** list_files' effects: the file loops' removals, then only directory
      removals. */
  lemma ListFilesSplit(env: Env, w: World, order: DirOrder)
    ensures var e := Since(w, ListFiles(env, w, order).w);
      var e1 := Since(w, FilesPhase(env, w, Roots(env)).w);
      |e1| <= |e| && e[..|e1|] == e1
      && (forall i :: 0 <= i < |e| ==> (i < |e1| ==> e[i].FileRemoved?) && (i >= |e1| ==> e[i].DirRemoved?))
  {
    var f := FilesPhase(env, w, Roots(env));
    FilesPhaseEvents(env, w, Roots(env));
    var e1 := Since(w, f.w);
    assert forall i :: 0 <= i < |e1| ==> e1[i] in e1;
    if f.r.Ok? {
      var o := DirsPhase(env, f.w, Roots(env), order);
      DirsPhaseEvents(env, f.w, Roots(env), order);
      SinceJoin(w, f.w, o.w);
      var e2 := Since(f.w, o.w);
      assert forall i :: 0 <= i < |e2| ==> e2[i] in e2;
      assert Since(w, o.w)[..|e1|] == e1;
    } else {
      assert Since(w, f.w)[..|e1|] == e1;
    }
  }

  /** list_files only removes, and removes no file after a directory. */
  lemma ListFilesFilesFirst(env: Env, w: World, order: DirOrder)
    ensures var e := Since(w, ListFiles(env, w, order).w);
      (forall i :: 0 <= i < |e| ==> e[i].FileRemoved? || e[i].DirRemoved?)
      && (forall i, j :: 0 <= i < j < |e| && e[i].DirRemoved? ==> e[j].DirRemoved?)
  {
    ListFilesSplit(env, w, order);
  }

  /** With faithful walks list_files removes files root by root, in the order
      mds, rgw, osd, mon. */
  lemma ListFilesRootOrder(env: Env, w: World, order: DirOrder)
    requires FilesWalkFaithful(env)
    ensures var e := Since(w, ListFiles(env, w, order).w);
      forall i, j :: 0 <= i < j < |e| && e[j].FileRemoved? ==>
        e[i].FileRemoved? && Rank(e[i].path, Roots(env)) <= Rank(e[j].path, Roots(env))
  {
    ListFilesSplit(env, w, order);
    FilesPhaseInOrder(env, w, Roots(env));
    var e := Since(w, ListFiles(env, w, order).w);
    var e1 := Since(w, FilesPhase(env, w, Roots(env)).w);
    forall i, j | 0 <= i < j < |e| && e[j].FileRemoved?
      ensures e[i].FileRemoved? && Rank(e[i].path, Roots(env)) <= Rank(e[j].path, Roots(env))
    {
      assert e[i] == e1[i] && e[j] == e1[j];
    }
  }

  /** Bottom up, with faithful walks, removable files and no mount point
      below the roots, list_files completes and leaves nothing below any of
      the four roots. */
  lemma ListFilesClearsTree(env: Env, w: World)
    requires FilesWalkFaithful(env) && DirsWalkFaithful(env)
    requires forall p :: p in w.files ==> env.canRemove(p)
    requires forall d, k :: d in w.mounted && 0 <= k < 4 ==> !Under(d, Roots(env)[k])
    ensures var o := ListFiles(env, w, BottomUpOrder);
      o.r.Ok? && forall k :: 0 <= k < 4 ==> FilesUnder(o.w, Roots(env)[k]) == {} && DirsUnder(o.w, Roots(env)[k]) == {}
  {
    var roots := Roots(env);
    FilesPhaseClears(env, w, roots);
    var f := FilesPhase(env, w, roots);
    forall k | 0 <= k < 4
      ensures FilesUnder(f.w, roots[k]) == {}
    {
      forall p | p in f.w.files
        ensures !Under(p, roots[k])
      {
        assert Rank(p, roots) == 4;
      }
    }
    DirsPhaseClears(env, f.w, roots);
  }

  /** As written the directory loops go top down, so a directory that held
      only an empty subdirectory survives: "/r/a" with "/r/a/b" below it,
      listed as os.walk lists them. */
  lemma TopDownLeavesParent()
    ensures var w := World(map[], {"/r/a", "/r/a/b"}, {}, []);
      var ds := ["/r/a", "/r/a/b"];
      IsOrderOf(ds, DirsUnder(w, "/r")) && TopDown(ds) && FilesUnder(w, "/r") == {}
      && RemoveDirs(w, ds).r.Ok? && "/r/a" in RemoveDirs(w, ds).w.dirs && "/r/a/b" !in RemoveDirs(w, ds).w.dirs
  {
    var w := World(map[], {"/r/a", "/r/a/b"}, {}, []);
    var ds := ["/r/a", "/r/a/b"];
    assert Under("/r/a/b", "/r/a") by { assert "/r/a/b"[..5] == "/r/a/"; }
    assert Under("/r/a", "/r") by { assert "/r/a"[..3] == "/r/"; }
    assert Under("/r/a/b", "/r") by { assert "/r/a/b"[..3] == "/r/"; }
    assert !Under("/r/a", "/r/a/b");
    assert DirsUnder(w, "/r") == {"/r/a", "/r/a/b"};
    ParentsSurvive(w, ds, "/r/a", "/r/a/b");
    var o1 := RemoveDirIfEmpty(w, "/r/a");
    assert o1 == Out(w, Ok(()));
    assert Children(w, "/r/a/b") == {};
    EmptyRemoved(w, ds, "/r/a/b");
  }

  // ---------------------------------------------------------------- configuration

  /** remove_config: nothing without a cluster name or without the file;
      otherwise os.remove. */
  function RemoveConfig(env: Env, w: World, m: Model): (o: Out<()>)
    ensures m.clusterName.None? || Updater.ConfPath(m.clusterName.value) !in w.files ==> o == Out(w, Ok(()))
    ensures m.clusterName.Some? && Updater.ConfPath(m.clusterName.value) in w.files ==>
      (o.r.Ok? <==> env.canRemove(Updater.ConfPath(m.clusterName.value)))
    ensures o.r.Ok? && m.clusterName.Some? ==> Updater.ConfPath(m.clusterName.value) !in o.w.files
    ensures Extends(w, o.w) && o.w.dirs == w.dirs && o.w.mounted == w.mounted
    ensures o.w.files.Keys <= w.files.Keys && forall p :: p in o.w.files ==> o.w.files[p] == w.files[p]
    ensures forall p :: p in w.files && p !in o.w.files ==> m.clusterName.Some? && p == Updater.ConfPath(m.clusterName.value)
    ensures o.r.Err? ==> o.w == w && o.r.error.cls == Builtin
  {
    if m.clusterName.None? then Out(w, Ok(()))
    else
      var conf := Updater.ConfPath(m.clusterName.value);
      if conf !in w.files then Out(w, Ok(())) else RemoveFile(env, w, conf)
  }

  /** Once removed, a second remove_config finds nothing to do. */
  lemma RemoveConfigOnce(env: Env, w: World, m: Model)
    requires RemoveConfig(env, w, m).r.Ok?
    ensures var o := RemoveConfig(env, w, m); RemoveConfig(env, o.w, m) == Out(o.w, Ok(()))
  {
  }

  // ---------------------------------------------------------------- refreshes

  /** update_mon: the hostname, the cluster defaults, the configuration and
      the monitor members, the refreshes every monitor operation starts
      with; the model keeps whatever was set before a failure. */
  function UpdateMon(env: Env, w: World, m: Model): (o: (Model, Result<()>))
    ensures o.0.hostname == Some(env.node)
    ensures o.1.Ok? <==> Monitor.Refresh(env, w, m, UpdaterError).Ready?
    ensures o.1.Err? ==> o.1.error.cls in {UtilsError, UpdaterError, Builtin}
    ensures Updater.DefaultsRefresh(env, w, Updater.HostnameRefresh(env, m)).Err? ==>
      o.1.Err? && o.1.error.cls in {UtilsError, Builtin} && o.0.clusterName == Some(m.clusterName.GetOr("ceph"))
  {
    match Monitor.Refresh(env, w, m, UpdaterError)
    case Ready(m1) => (m1, Ok(()))
    case DefaultsFailed(m1, e) => (m1, Err(e))
    case Failed(m1, e) => (m1, Err(e))
  }

  /** update_osd: the /dev/disk symlinks, the lsblk tree, then the OSD and
      journal partitions discovered in it; nothing else in the model
      changes. */
  function UpdateOsd(env: Env, w: World, m: Model): (o: Out<Model>)
    ensures o.r.Ok? ==> o.r.value.symlinks == env.symlinks
    ensures o.r.Ok? ==> o.r.value == m.(symlinks := env.symlinks, lsblk := o.r.value.lsblk, partParent := o.r.value.partParent,
      lsblkVersion := o.r.value.lsblkVersion, partitionsOsd := o.r.value.partitionsOsd,
      partitionsJournal := o.r.value.partitionsJournal, discoveredOsd := o.r.value.discoveredOsd)
  {
    var l := Lsblk.PartitionsAllRefresh(env, w, m.(symlinks := env.symlinks));
    if l.r.Err? then Out(l.w, Err(l.r.error))
    else Discovery.DiscoverPartitionsRefresh(env, l.w, l.r.value)
  }

  /** A scratch read only appends to the trace. */
  lemma ScanPartExtends(env: Env, w: World, found: Discovery.Found, p: Path, r: Record)
    ensures Extends(w, Discovery.ScanPart(env, w, found, p, r).w)
  {
    if Discovery.PlanFor(r).probe && !Discovery.PlanFor(r).readMount {
      var o := Discovery.RetrieveOsdDetails(env, w, p);
      assert o.w.trace[..|w.trace|] == o.w.trace[..|w.trace| + 3][..|w.trace|];
    }
  }

  /** The partition loop only appends to the trace. */
  lemma {:induction false} ScanExtends(env: Env, w: World, found: Discovery.Found, items: seq<(Path, Record)>)
    decreases |items|
    ensures Extends(w, Discovery.Scan(env, w, found, items).w)
  {
    if |items| > 0 {
      var o := Discovery.ScanPart(env, w, found, items[0].0, items[0].1);
      ScanPartExtends(env, w, found, items[0].0, items[0].1);
      if o.r.Ok? {
        ScanExtends(env, o.w, o.r.value, items[1..]);
        ExtendsTrans(w, o.w, Discovery.Scan(env, o.w, o.r.value, items[1..]).w);
      }
    }
  }

  /** partitions_all_refresh only appends to the trace. */
  lemma LsblkExtends(env: Env, w: World, m: Model)
    ensures Extends(w, Lsblk.PartitionsAllRefresh(env, w, m).w)
  {
    var a := Lsblk.LsblkArguments(env, w, m.lsblkVersion);
    assert Extends(w, a.w);
  }

  /** discover_partitions_refresh only appends to the trace. */
  lemma DiscoverExtends(env: Env, w: World, m: Model)
    ensures Extends(w, Discovery.DiscoverPartitionsRefresh(env, w, m).w)
  {
    ScanExtends(env, w, Discovery.Found({}, {}, map[]), Discovery.Items(env, m.lsblk));
  }

  /** update_osd only appends to the trace. */
  lemma UpdateOsdExtends(env: Env, w: World, m: Model)
    ensures Extends(w, UpdateOsd(env, w, m).w)
  {
    var l := Lsblk.PartitionsAllRefresh(env, w, m.(symlinks := env.symlinks));
    LsblkExtends(env, w, m.(symlinks := env.symlinks));
    if l.r.Ok? {
      DiscoverExtends(env, l.w, l.r.value);
      ExtendsTrans(w, l.w, Discovery.DiscoverPartitionsRefresh(env, l.w, l.r.value).w);
    }
  }

  /** The second guarded block of purge: update_osd, then unmount_osd with
      the model it produced. */
  function OsdStage(env: Env, w: World, m: Model): (o: Out<()>)
    ensures Extends(w, o.w)
    ensures UpdateOsd(env, w, m).r.Err? ==> o == Out(UpdateOsd(env, w, m).w, Err(UpdateOsd(env, w, m).r.error))
    ensures UpdateOsd(env, w, m).r.Ok? && o.r.Err? ==> o.r.error.cls == PurgerError
  {
    var u := UpdateOsd(env, w, m);
    UpdateOsdExtends(env, w, m);
    if u.r.Err? then Out(u.w, Err(u.r.error))
    else
      var o := UnmountOsd(env, u.w, u.r.value);
      ExtendsTrans(w, u.w, o.w);
      o
  }

  // ---------------------------------------------------------------- purge

  /** The key types purge removes, in its order. */
  const PurgedKeyTypes: seq<string> := ["mds", "rgw", "osd", "mon", "admin"]

  /** The facade's remove never adds: it leaves the world, or removes one
      file. */
  predicate RemovesAtMostOne(w: World, w': World) {
    w' == w || exists p :: p in w.files && w' == w.(files := w.files - {p}, trace := w.trace + [FileRemoved(p)])
  }

  lemma RemoveCallRemovesAtMostOne(env: Env, w: World, f: Keyring.Keyrings, a: ClusterArgs)
    ensures RemovesAtMostOne(w, Keyring.Run(env, w, f, Keyring.RemoveCall(a)).w)
  {
    if f.imp.Some? {
      var imp := f.imp.value;
      var p := Keyring.Prologue(env, w, imp.m, a, false);
      if p.1.Ok? && Keyring.KeyringPath(imp.role, p.0).Ok? {
        var path := Keyring.KeyringPath(imp.role, p.0).value;
        var o := Keyring.RemoveKeyring(env, w, path);
        if path in w.files && o.r.Ok? {
          assert o.w == w.(files := w.files - {path}, trace := w.trace + [FileRemoved(path)]);
        }
      }
    }
  }

  /** The keyring remove targets for key type `t` when the cluster name `c`
      is given: the admin keyring, or the role's bootstrap keyring.  The
      selected implementation keeps a fresh model and remove does not
      refresh the hostname, so the monitor's path never resolves and "mon"
      targets nothing. */
  function PurgeTarget(t: string, c: string): (p: Option<Path>)
    ensures p.Some? <==> t in Keyring.KeyTypes - {"mon"}
    ensures t == "admin" ==> p == Some(Keyring.AdminPath(Some(c)))
    ensures t in {"mds", "osd", "rgw"} ==> p == Some(Keyring.BootstrapPath(Keyring.RoleOf(t).value, Some(c), None))
  {
    match Keyring.RoleOf(t)
    case None => None
    case Some(role) =>
      if role == Keyring.Mon then None
      else if role == Keyring.Admin then Some(Keyring.AdminPath(Some(c)))
      else Some(Keyring.BootstrapPath(role, Some(c), None))
  }

  /** `p` is the target of some key type in `types`, and can be removed. */
  predicate Purged(env: Env, types: seq<string>, c: string, p: Path) {
    env.canRemove(p) && exists k :: 0 <= k < |types| && PurgeTarget(types[k], c) == Some(p)
  }

  lemma PurgedCons(env: Env, types: seq<string>, c: string, p: Path)
    requires |types| > 0
    ensures Purged(env, types, c, p) <==>
      (env.canRemove(p) && PurgeTarget(types[0], c) == Some(p)) || Purged(env, types[1..], c, p)
  {
    if Purged(env, types, c, p) {
      var k :| 0 <= k < |types| && PurgeTarget(types[k], c) == Some(p);
      if k > 0 {
        assert types[1..][k - 1] == types[k];
      }
    }
    if Purged(env, types[1..], c, p) {
      var k :| 0 <= k < |types[1..]| && PurgeTarget(types[1..][k], c) == Some(p);
      assert types[k + 1] == types[1..][k];
    }
  }

  /** One round of the keyring loop: select the key type, then remove its
      keyring; whatever either raises is swallowed.  With a cluster name
      given, exactly the target file goes, when present and removable. */
  function RemoveOne(env: Env, w: World, f: Keyring.Keyrings, t: string, a: ClusterArgs): (o: (Keyring.Keyrings, World))
    ensures RemovesAtMostOne(w, o.1)
    ensures a.clusterName.Some? ==>
      forall p :: p in o.1.files <==> p in w.files && !(env.canRemove(p) && PurgeTarget(t, a.clusterName.value) == Some(p))
  {
    var (f1, sel) := Keyring.Select(env, f, Some(t));
    if sel.Err? then (f1, w)
    else
      var s := Keyring.Run(env, w, f1, Keyring.RemoveCall(a));
      RemoveCallRemovesAtMostOne(env, w, f1, a);
      (s.f, s.w)
  }

  /** The keyring loop of purge: one round per key type, in order.  Nothing
      escapes it.  With a cluster name given, the files left are exactly
      those that were present and are not the removable target of some key
      type; the monitor's keyring is never a target. */
  function RemoveKeyrings(env: Env, w: World, f: Keyring.Keyrings, types: seq<string>, a: ClusterArgs): (o: (Keyring.Keyrings, World))
    decreases |types|
    ensures Extends(w, o.1) && o.1.dirs == w.dirs && o.1.mounted == w.mounted
    ensures o.1.files.Keys <= w.files.Keys && forall p :: p in o.1.files ==> o.1.files[p] == w.files[p]
    ensures forall e :: e in Since(w, o.1) ==> e.FileRemoved?
    ensures a.clusterName.Some? ==>
      forall p :: p in o.1.files <==> p in w.files && !Purged(env, types, a.clusterName.value, p)
  {
    if |types| == 0 then (f, w)
    else
      var o1 := RemoveOne(env, w, f, types[0], a);
      var o := RemoveKeyrings(env, o1.1, o1.0, types[1..], a);
      assert Since(w, o1.1) == [] || Since(w, o1.1) == [FileRemoved(Since(w, o1.1)[0].path)];
      SinceJoin(w, o1.1, o.1);
      PurgedStep(env, types, a, w, o1.1, o.1);
      o
  }

  /** A round for the first key type, then the loop over the rest, leaves
      exactly the files no key type of the whole list purges. */
  lemma PurgedStep(env: Env, types: seq<string>, a: ClusterArgs, w: World, w1: World, w2: World)
    requires |types| > 0
    requires a.clusterName.Some? ==>
      forall p :: p in w1.files <==> p in w.files && !(env.canRemove(p) && PurgeTarget(types[0], a.clusterName.value) == Some(p))
    requires a.clusterName.Some? ==>
      forall p :: p in w2.files <==> p in w1.files && !Purged(env, types[1..], a.clusterName.value, p)
    ensures a.clusterName.Some? ==>
      forall p :: p in w2.files <==> p in w.files && !Purged(env, types, a.clusterName.value, p)
  {
    if a.clusterName.Some? {
      forall p ensures p in w2.files <==> p in w.files && !Purged(env, types, a.clusterName.value, p) {
        PurgedCons(env, types, a.clusterName.value, p);
      }
    }
  }

  /** The monitor's bootstrap keyring, for any host, survives the keyring
      loop of purge when the cluster name is given. */
  lemma PurgeKeepsMonKeyring(env: Env, w: World, f: Keyring.Keyrings, a: ClusterArgs, host: Option<string>)
    requires a.clusterName.Some?
    ensures var p := Keyring.BootstrapPath(Keyring.Mon, a.clusterName, host);
      var o := RemoveKeyrings(env, w, f, PurgedKeyTypes, a);
      p in w.files ==> p in o.1.files && o.1.files[p] == w.files[p]
  {
    var c := a.clusterName.value;
    var p := Keyring.BootstrapPath(Keyring.Mon, a.clusterName, host);
    forall k | 0 <= k < |PurgedKeyTypes| ensures PurgeTarget(PurgedKeyTypes[k], c) != Some(p) {
      var t := PurgedKeyTypes[k];
      if t == "admin" {
        AdminIsNotMonKeyring(Some(c), a.clusterName, host);
      } else if t != "mon" {
        BootstrapIsNotMonKeyring(Keyring.RoleOf(t).value, Some(c), None, host);
      }
    }
  }

  lemma AdminIsNotMonKeyring(c1: Option<string>, c2: Option<string>, host: Option<string>)
    ensures Keyring.AdminPath(c1) != Keyring.BootstrapPath(Keyring.Mon, c2, host)
  {
    assert Keyring.AdminPath(c1)[1] == 'e';
    assert Keyring.BootstrapPath(Keyring.Mon, c2, host)[1] == 'v';
  }

  lemma BootstrapIsNotMonKeyring(role: Keyring.Role, c: Option<string>, h1: Option<string>, h2: Option<string>)
    requires role != Keyring.Mon && role != Keyring.Admin
    ensures Keyring.BootstrapPath(role, c, h1) != Keyring.BootstrapPath(Keyring.Mon, c, h2)
  {
    var n := |Keyring.LibCeph| + 10;
    var p1, p2 := Keyring.BootstrapPath(role, c, h1), Keyring.BootstrapPath(Keyring.Mon, c, h2);
    var q1, q2 := Keyring.LibCeph + "bootstrap-" + Keyring.RoleName(role) + "/", Keyring.LibCeph + "bootstrap-mon/";
    assert p1[n + 1] == q1[n + 1] == Keyring.RoleName(role)[1] != 'o';
    assert p2[n + 1] == q2[n + 1] == 'o';
  }

  /** The end of purge: list_files, then remove_config with the cluster
      name update_mon left. */
  function Finish(env: Env, w: World, m: Model, order: DirOrder): (o: Out<()>)
    ensures Extends(w, o.w)
  {
    var l := ListFiles(env, w, order);
    if l.r.Err? then l
    else
      var c := RemoveConfig(env, l.w, m);
      ExtendsTrans(w, l.w, c.w);
      c
  }

  /** After update_mon: update_osd and unmount_osd, letting only the
      utilities' errors pass, then the end.  update_osd touches only the
      device fields, so the cluster name is still update_mon's. */
  function AfterMon(env: Env, w: World, m: Model, order: DirOrder): (o: Out<()>)
    ensures Extends(w, o.w)
  {
    var u := OsdStage(env, w, m);
    if u.r.Err? && u.r.error.cls != UtilsError then u
    else
      var f := Finish(env, u.w, m, order);
      ExtendsTrans(w, u.w, f.w);
      f
  }

  /** What purge does once the keyrings are gone: update_mon, letting the
      updater's and the utilities' errors pass, then the rest. */
  function Clean(env: Env, w: World, a: ClusterArgs, order: DirOrder): (o: Out<()>)
    ensures Extends(w, o.w)
  {
    var (m, r) := UpdateMon(env, w, Fresh(a));
    if r.Err? && r.error.cls !in {UpdaterError, UtilsError} then Out(w, r)
    else AfterMon(env, w, m, order)
  }

  /** Everything after the stop: the keyring loop, whose failures are all
      swallowed, then the cleaning. */
  function AfterStop(env: Env, w: World, a: ClusterArgs, order: DirOrder): (o: Out<()>)
    ensures Extends(w, o.w)
  {
    var k := RemoveKeyrings(env, w, Keyring.NoKeyrings, PurgedKeyTypes, a);
    var o := Clean(env, k.1, a, order);
    ExtendsTrans(w, k.1, o.w);
    o
  }

  /** purge: stop the services, remove the keyrings ignoring every failure,
      then clean; only a failed stop, an unexpected refresh error, a failed
      umount or a failed removal stops it. */
  function Purge(env: Env, w: World, a: ClusterArgs, order: DirOrder): (o: Out<()>)
    ensures Extends(w, o.w) && |w.trace| < |o.w.trace| && o.w.trace[|w.trace|] == Ran(StopArgv)
    ensures env.run(w.trace, StopArgv).retcode != 0 ==>
      o.w.trace == w.trace + [Ran(StopArgv)] && o.r.Err? && o.r.error.cls == PurgerError
  {
    var s := ShutdownCeph(env, w);
    if s.r.Err? then s
    else
      var o := AfterStop(env, s.w, a, order);
      EventKept(w, s.w, o.w);
      o
  }

  /** An event recorded after `w` survives every later extension. */
  lemma EventKept(w: World, w1: World, w2: World)
    requires Extends(w, w1) && Extends(w1, w2) && |w.trace| < |w1.trace|
    ensures Extends(w, w2) && |w.trace| < |w2.trace| && w2.trace[|w.trace|] == w1.trace[|w.trace|]
  {
    ExtendsTrans(w, w1, w2);
    assert w2.trace[|w.trace|] == w2.trace[..|w1.trace|][|w.trace|];
  }
}
