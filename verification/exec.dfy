/** The outside world as the source sees it.

    Everything the source reaches through a subprocess, the file system, the
    clock-free parts of `os`, `shlex`, `json` or `ConfigParser` is an oracle in
    `Env`.  The part of the file system that the source itself creates, reads
    and deletes (keyrings, sentinels, scratch and data directories) is kept in
    `World`, together with a trace of every command issued and every file
    system change made, in order.
 */
module Exec {
  import opened Wrappers
  import opened JsonData
  import opened Text

  type Path = string
  type Argv = seq<string>

  /** Parsed INI text: section name to option name to value. */
  type Ini = map<string, map<string, string>>

  /** One observable effect. */
  datatype Event =
    | Ran(argv: Argv)             // a command handed to the executor
    | TempMade(dir: Path)         // tempfile.mkdtemp
    | DirsMade(dir: Path)         // os.makedirs
    | FileWritten(path: Path)     // a file written (or touched) by the source
    | FileRemoved(path: Path)     // os.remove
    | DirRemoved(dir: Path)       // os.rmdir
    | TreeRemoved(dir: Path)      // shutil.rmtree
    | PoolsListed                 // the remote updater's pool_list
    | PoolAdded(name: string, pgNum: int)  // the remote updater's pool_add
    | Slept(seconds: int)         // time.sleep

  /** What the executor returns for one command, plus the files the command
      itself leaves behind (a key generator's output file, for instance). */
  datatype Reply = Reply(retcode: int, stdout: string, stderr: string, writes: map<Path, string>)

  /** What `os.listdir` and the `os.path` probes see in one directory. */
  datatype Listing = Listing(entries: set<string>, files: map<string, string>, links: map<string, Path>)

  /** The oracles.  Each field stands for something the source reaches but
      does not compute itself. */
  datatype Env = Env(
    run: (seq<Event>, Argv) -> Reply,             // the command executor, given everything that happened before
    lex: string -> seq<string>,                   // shlex.split
    json: string -> Option<Json>,                 // json.loads; None where it raises
    ini: string -> Option<Ini>,                   // ConfigParser parsing of a file's text; None where it raises
    node: string,                                 // platform.node()
    scratch: Path,                                // the directory tempfile.mkdtemp returns
    dirAt: (seq<Event>, Path) -> Option<Listing>, // an OSD data directory's contents; None where os.listdir raises
    realpath: Path -> Path,                       // os.path.realpath
    pathExists: Path -> bool,                        // os.path.exists on a device node
    isBlock: Path -> bool,                        // stat.S_ISBLK of a device node
    sysBlock: set<string>,                        // os.listdir("/sys/block/")
    sysBlockHas: (string, string) -> bool,        // os.path.exists("/sys/block/<disk>/<name>")
    symlinks: map<Path, seq<Path>>,               // the /dev/disk symlink walk of symlinks_refresh
    nameFromUuid: Option<string>,                 // utils._get_cluster_name_from_uuid (directory order decides)
    cephIds: Option<(int, int)>,                  // uid and gid of the "ceph" user; None where pwd raises
    cephDiskFound: bool,                          // whether the ceph-disk executable was found
    mdsLib: Path,                                 // constants._path_ceph_lib_mds, which constants does not define
    keyringPathOf: string -> Path,                // keyring_facard.keyring_path_get, which the facade does not define
    keyringIdentityOf: string -> string,          // keyring_facard.keyring_identity_get, likewise
    remotePools: seq<Event> -> Json,              // pool listing left by the remote updater's pool_list
    remotePoolAdd: (seq<Event>, string, int) -> bool, // the remote updater's pool_add; false where it raises
    base64Ok: string -> bool,                     // utils.is_valid_base64, which utils does not define
    canRemove: Path -> bool,                      // os.remove succeeds on an existing file
    walkFiles: (World, Path) -> seq<Path>,        // the files os.walk yields under a root, as full paths
    walkDirs: (World, Path) -> seq<Path>,         // the directories os.walk(topdown=True) yields under a root
    order: set<string> -> seq<string>             // the order in which Python iterates a dict's keys or a set
  )

  /** `xs` lists every element of `s` exactly once. */
  predicate IsOrderOf(xs: seq<string>, s: set<string>) {
    (forall i :: 0 <= i < |xs| ==> xs[i] in s)
    && (forall x :: x in s ==> x in xs)
    && (forall i, j :: 0 <= i < j < |xs| ==> xs[i] != xs[j])
  }

  /** The iteration order is a true enumeration for the sets that matter. */
  predicate OrderIsFaithful(env: Env, s: set<string>) {
    IsOrderOf(env.order(s), s)
  }

  /** The file system the source manages, the scratch mounts it holds, and the
      trace of effects so far. */
  datatype World = World(files: map<Path, string>, dirs: set<Path>, mounted: set<Path>, trace: seq<Event>)

  /** A returned value or raised exception, with the world left behind. */
  datatype Out<+T> = Out(w: World, r: Result<T>)

  predicate Under(p: Path, dir: Path) {
    StartsWith(p, dir + "/")
  }

  predicate IsFile(w: World, p: Path) {
    p in w.files
  }

  predicate IsDir(w: World, p: Path) {
    p in w.dirs
  }

  predicate Exists(w: World, p: Path) {
    p in w.files || p in w.dirs
  }

  /** The events added since `before`. */
  function Since(before: World, after: World): seq<Event>
    requires |before.trace| <= |after.trace|
  {
    after.trace[|before.trace|..]
  }

  /** `after`'s trace continues `before`'s. */
  predicate Extends(before: World, after: World) {
    |before.trace| <= |after.trace| && after.trace[..|before.trace|] == before.trace
  }

  lemma ExtendsTrans(a: World, b: World, c: World)
    requires Extends(a, b) && Extends(b, c)
    ensures Extends(a, c)
  {
    assert c.trace[..|a.trace|] == c.trace[..|b.trace|][..|a.trace|];
  }

  /** Two events appended one after the other. */
  lemma AppendTwo(t: seq<Event>, a: Event, b: Event)
    ensures (t + [a]) + [b] == t + [a, b]
  {
  }

  /** Between the two worlds nothing was handed to the executor. */
  predicate NoCommandSince(before: World, after: World) {
    Extends(before, after) && forall i | |before.trace| <= i < |after.trace| :: !after.trace[i].Ran?
  }

  /** `utils.execute_local_command(argv)`: the oracle decides the reply; the
      files the command writes appear in the world. */
  function Execute(env: Env, w: World, argv: Argv): (o: (World, Reply))
    ensures o.0.trace == w.trace + [Ran(argv)]
    ensures o.1 == env.run(w.trace, argv)
    ensures o.0.files.Keys == w.files.Keys + o.1.writes.Keys
    ensures o.0.dirs == w.dirs && o.0.mounted == w.mounted
  {
    var reply := env.run(w.trace, argv);
    (w.(files := w.files + reply.writes, trace := w.trace + [Ran(argv)]), reply)
  }

  /** Run a command and raise `cls` when it exits non-zero. */
  function ExecuteChecked(env: Env, w: World, argv: Argv, cls: ErrClass, msg: string): (o: Out<Reply>)
    ensures o.w == Execute(env, w, argv).0
    ensures o.r.Ok? <==> env.run(w.trace, argv).retcode == 0
    ensures o.r.Ok? ==> o.r.value == env.run(w.trace, argv)
    ensures o.r.Err? ==> o.r.error.cls == cls
  {
    var (w1, reply) := Execute(env, w, argv);
    if reply.retcode != 0 then Out(w1, Raise(cls, msg)) else Out(w1, Ok(reply))
  }

  function MakeTemp(env: Env, w: World): (w': World)
    ensures w'.dirs == w.dirs + {env.scratch}
    ensures w'.trace == w.trace + [TempMade(env.scratch)]
  {
    w.(dirs := w.dirs + {env.scratch}, trace := w.trace + [TempMade(env.scratch)])
  }

  function MakeDirs(w: World, d: Path): (w': World)
    ensures w'.dirs == w.dirs + {d} && w'.files == w.files
    ensures w'.trace == w.trace + [DirsMade(d)]
  {
    w.(dirs := w.dirs + {d}, trace := w.trace + [DirsMade(d)])
  }

  function WriteFile(w: World, p: Path, content: string): (w': World)
    ensures w'.files == w.files[p := content] && w'.dirs == w.dirs
    ensures w'.trace == w.trace + [FileWritten(p)]
  {
    w.(files := w.files[p := content], trace := w.trace + [FileWritten(p)])
  }

  /** `open(p, 'a').close()`: creates an empty file or leaves one in place. */
  function Touch(w: World, p: Path): (w': World)
    ensures p in w'.files
    ensures p in w.files ==> w'.files == w.files
    ensures w'.trace == w.trace + [FileWritten(p)]
  {
    w.(files := if p in w.files then w.files else w.files[p := ""], trace := w.trace + [FileWritten(p)])
  }

  /** `os.remove(p)`: raises when the file is missing or cannot be removed. */
  function RemoveFile(env: Env, w: World, p: Path): (o: Out<()>)
    ensures o.r.Ok? <==> p in w.files && env.canRemove(p)
    ensures o.r.Ok? ==> o.w.files == w.files - {p} && o.w.trace == w.trace + [FileRemoved(p)]
    ensures o.r.Err? ==> o.w == w
    ensures o.w.dirs == w.dirs
  {
    if p !in w.files || !env.canRemove(p) then Out(w, Raise(Builtin, "OSError: cannot remove " + p))
    else Out(w.(files := w.files - {p}, trace := w.trace + [FileRemoved(p)]), Ok(()))
  }

  /** Everything the world holds below `d`. */
  function Children(w: World, d: Path): (c: set<Path>)
    ensures forall p :: p in c ==> Under(p, d)
  {
    set p | p in w.files.Keys + w.dirs && Under(p, d)
  }

  /** `os.rmdir(d)`: raises when `d` is missing, still mounted, or not empty. */
  function RemoveDir(w: World, d: Path): (o: Out<()>)
    ensures o.r.Ok? <==> d in w.dirs && d !in w.mounted && Children(w, d) == {}
    ensures o.r.Ok? ==> o.w.dirs == w.dirs - {d} && o.w.trace == w.trace + [DirRemoved(d)]
    ensures o.r.Err? ==> o.w == w
    ensures o.w.files == w.files
  {
    if d !in w.dirs || d in w.mounted || Children(w, d) != {} then Out(w, Raise(Builtin, "OSError: cannot remove directory " + d))
    else Out(w.(dirs := w.dirs - {d}, trace := w.trace + [DirRemoved(d)]), Ok(()))
  }

  /** `shutil.rmtree(d)` on an existing directory. */
  function RemoveTree(w: World, d: Path): (w': World)
    ensures d !in w'.dirs
    ensures forall p :: p in w'.files ==> p in w.files && !Under(p, d)
    ensures forall p :: p in w.files && !Under(p, d) ==> p in w'.files && w'.files[p] == w.files[p]
    ensures forall p :: p in w'.dirs <==> p in w.dirs && p != d && !Under(p, d)
    ensures w'.trace == w.trace + [TreeRemoved(d)]
  {
    var files := map p | p in w.files && !Under(p, d) :: w.files[p];
    var dirs := set p | p in w.dirs && p != d && !Under(p, d);
    w.(files := files, dirs := dirs, trace := w.trace + [TreeRemoved(d)])
  }

  /** `os.path.dirname(p)`: everything before the last "/". */
  function DirName(p: Path): (d: Path)
    ensures |d| <= |p|
  {
    if |p| == 0 then ""
    else if p[|p| - 1] == '/' then p[..|p| - 1]
    else DirName(p[..|p| - 1])
  }
}
