# sesceph in Dafny

A Dafny model of the core of **sesceph**, a Salt execution module that sets up
and tears down Ceph on one node. The module keeps a *node model*: the
lsblk device tree, the discovered OSD and journal partitions, the monitor
members and status, the `ceph auth list` sections, the pools and the Ceph
version. On top of that model sit:

- the updaters that refresh it;
- the query and presenter classes that read it;
- the keyring authority;
- the init-system facade;
- the role controllers for OSD, monitor, MDS, RGW and the generic rados client;
- the remote-identity updater;
- the purger.

The older package `sesceph/` repeats parts of this with fewer roles. It is modelled alongside, in the `Legacy*` modules.

## How the model is built

- **Modules follow the source files.**

  - `model.py`: `NodeModel`;
  - lsblk and parted parsing: `Lsblk`;
  - partition classification and metadata: `Discovery`;
  - the remaining `model_updater` refreshes: `Updater`;
  - `mdl_query.py`: `Query`;
  - `presenter.py`: `Presenter`;
  - `keyring.py`: `Keyring`;
  - `keyring_use.py`: `KeyringUse`;
  - `mdl_updater_remote.py`: `Remote`;
  - `service.py`: `Service`;
  - `rados_client.py`: `RadosClient`;
  - `mds.py`: `Mds`;
  - `rgw.py`: `Rgw`;
  - the per-instance key handling that `mds.py` and `rgw.py` share: `InstanceKey`;
  - `osd.py`: `Osd`;
  - `mon.py`: `Monitor`;
  - `purger.py`: `Purger`;
  - the legacy package: `LegacyUpdater`, `LegacyKeyring`, `LegacyOsd` and `LegacyMon`.

  Shared plumbing lives in four modules:
  - `Wrappers`: `Option` and `Result`;
  - `Text`: splitting, stripping and joining strings;
  - `JsonData`: decoded JSON values;
  - `Exec`: the environment and the world.
- **The outside world is an oracle.** `Exec.Env` bundles everything the code asks the operating system or a library for:
  - the command runner, which maps the command history and an argument vector to `(retcode, stdout, stderr)`, plus any files the tool leaves behind;
  - `shlex.split`, `json.loads` and ConfigParser, taken as already-decoded results;
  - the hostname;
  - scratch-directory names;
  - directory listings and `os.walk`;
  - `realpath` and the `/sys/block` probes;
  - the symlink index;
  - the Ceph configuration lookups;
  - Python's iteration order over dictionaries and sets.
- **The world is a value.**
  - `Exec.World` holds the files (path to content), the directories and the mount points.
  - It also holds a trace of every event: each command run, and each directory created, file written or removed, directory removed, tree removed, and sleep.
  - Every operation takes a world and returns `Out(world', result)`.
  - This lets contracts say:
    - "no tool is invoked";
    - "this command comes before that one";
    - "only this file changed".
- **Exceptions are results.** An `Error` carries the class the source raises (`KeyringError`, `OsdError`, `MonError`, …), because callers in the source catch by class.
- **Integers, strings and collections** are unbounded `int`, `seq<char>`, `seq`, `set` and `map`.
- **Iteration order.** Where the Python iterates over a dictionary or a set, the order comes from the `Env.order` oracle. Properties that need every element visited assume that the oracle lists each element once (`Exec.IsOrderOf`).

## Model

| member | source | states |
|---|---|---|
| NodeModel.Components | _modules/sesceph/model.py:13-21 | a version shows at most four components, and at least one exactly when the major number is set |
| NodeModel.VersionRepr | _modules/sesceph/model.py:12-21 | the repr is "<version(None)>" without a major number, otherwise the present components up to the first missing one joined by commas |
| NodeModel.KargsApply | _modules/sesceph/model.py:47-50 | the cluster name, uuid and secret become the arguments (None when absent) and nothing else changes |
| NodeModel.Fresh | _modules/sesceph/model.py:28-44 | a new model has nothing discovered, no members, no hostname, no status and unknown versions, with the cluster fields taken from the arguments |
| Lsblk.ParseToken | _modules/sesceph/mdl_updater.py:190-198 | a token without "=" is skipped; a kept token is its key (free of "=") and a non-empty value joined by the first "=" |
| Lsblk.ParseTokenOfPair | _modules/sesceph/mdl_updater.py:191-198 | `k=v` with `k` free of "=" parses back to `(k, v)`, later "=" staying in the value, and is skipped exactly when `v` is empty |
| Lsblk.AssignKeys | _modules/sesceph/mdl_updater.py:189-198 | a key is in a line's record exactly when some token of the line sets it |
| Lsblk.AssignLast | _modules/sesceph/mdl_updater.py:198 | a key holds the value of the last token that sets it |
| Lsblk.ParseRowSpec | _modules/sesceph/mdl_updater.py:188-198 | a line's record has a key iff some token sets it, with the value of the last such token |
| Lsblk.Rows | _modules/sesceph/mdl_updater.py:188 | one record per newline-separated line of the lsblk output |
| Lsblk.AddRowFiles | _modules/sesceph/mdl_updater.py:200-213 | reading one more line keeps every partition filed under a known disk, under its own NAME, with that disk as its PKNAME, and every disk under its NAME |
| Lsblk.BuildTreeKeys | _modules/sesceph/mdl_updater.py:200-215 | the disks are exactly the named TYPE=disk lines; the parent map holds exactly the named non-disk lines whose PKNAME names a disk listed on an earlier line |
| Lsblk.ArgsForVersion | _modules/sesceph/mdl_updater.py:150-171 | versions below 2.23 raise the updater's error; 2.23 and 2.24 get the fixed column list without PARTTYPE; 2.25 and later get --output-all |
| Lsblk.LsblkVersionWord | _modules/sesceph/mdl_updater.py:133-140 | a read version has a major number and a revision (0 when absent) and keeps the uuid |
| Lsblk.LsblkVersionWordOf | _modules/sesceph/mdl_updater.py:133-140 | the word `a.b.c` reads back as major a, minor b, revision c |
| Lsblk.ParseLsblkVersion | _modules/sesceph/mdl_updater.py:129-140 | fewer than four shell words in the stripped output raise the updater's error |
| Lsblk.ParseLsblkVersionOf | _modules/sesceph/mdl_updater.py:129-140 | when the fourth word is `a.b.c` the version is exactly (a, b, c) |
| Lsblk.LsblkArguments | _modules/sesceph/mdl_updater.py:143-171 | a known major issues no command and returns the gate's answer; an unknown major runs `lsblk --version` first; any returned argument list is the gate's answer for the returned version |
| Lsblk.PartitionsAllRefresh | _modules/sesceph/mdl_updater.py:174-215 | on success the last command is lsblk with the gated arguments, it exited 0, disks and parent map are the tree built from its lines, and nothing else in the model changes but the lsblk version |
| Lsblk.LineTableByPrefix | _modules/sesceph/mdl_updater.py:235-239 | a line announces a table exactly when it is "Partition Table" alone or followed by ":", the type being the stripped rest after the first colon |
| Lsblk.TableOfLast | _modules/sesceph/mdl_updater.py:234-239 | a disk's table is found iff some output line announces one, and it is what the last announcing line says |
| Lsblk.Tabled | _modules/sesceph/mdl_updater.py:232-242 | with no "Partition Table" line the disk is unchanged; otherwise only its PARTTABLE attribute becomes the last announced table type, and its partitions stay |
| Lsblk.PartedStep | _modules/sesceph/mdl_updater.py:218-242 | one disk issues exactly `parted <disk> print` and succeeds iff it exits 0, failing with the updater's Error; a success sets that disk's PARTTABLE from the parted output (unchanged when no table line appears) and leaves every other disk as it was |
| Lsblk.PartitionTables | _modules/sesceph/mdl_updater.py:217-242 | succeeds iff every disk's parted exits 0, running one parted per disk in order; a failure is the updater's Error at the first failing disk, with the trace ending at its command; on success only PARTTABLE attributes change and unlisted disks are untouched |
| Lsblk.PartitionTablesFollow | _modules/sesceph/mdl_updater.py:217-242 | on success each listed disk's row is the old row with PARTTABLE set from the reply to its own parted command, the one issued after the commands for the disks before it |
| Lsblk.PartitionTableRefresh | _modules/sesceph/mdl_updater.py:216-242 | succeeds iff every known disk's parted exits 0, a failure being the updater's Error; on success only the lsblk map changes, the commands are one parted per known disk, and each disk's row is its old row with PARTTABLE taken from its own parted reply |
| Discovery.FromDir | _modules/sesceph/mdl_updater.py:28-53 | a directory missing one of ceph_fsid, fsid, magic gives None; with all three the read succeeds iff the three are readable files, and the record is the one the directory holds |
| Discovery.Meta | _modules/sesceph/mdl_updater.py:29-52 | the record has the three required keys, journal_uuid and whoami exactly when those files exist, and dev_journal exactly when the journal link exists |
| Discovery.MetaSpec | _modules/sesceph/mdl_updater.py:34-52 | the record read from a directory has exactly its keys, stripped file values and the journal link's target |
| Discovery.MetaValues | _modules/sesceph/mdl_updater.py:34-49 | every key but dev_journal holds its file's content stripped |
| Discovery.MetaLink | _modules/sesceph/mdl_updater.py:50-52 | dev_journal is present only with a journal link and is that link's resolved target |
| Discovery.ScratchRead | _modules/sesceph/mdl_updater.py:56-70 | the scratch directory is made, the device mounted on it and unmounted on every path, then the directory removed (or the removal's error raised); a failed mount yields an empty record; a successful one yields what the directory read gives |
| Discovery.FailedMountGivesEmptyRecord | _modules/sesceph/mdl_updater.py:57-70 | a scratch mount that fails makes retrive_osd_details return an empty record rather than None |
| Discovery.PlanForSpec | _modules/sesceph/mdl_updater.py:267-295 | swap partitions do nothing; a mount point is read when present; the OSD GUID files a partition as OSD and the journal GUID as journal; a scratch mount happens only for an unmounted partition that is OSD-typed, or untagged with xfs, btrfs or ext4 |
| Discovery.ReadPart | _modules/sesceph/mdl_updater.py:270-295 | a mounted partition is read through its mount point without any command, a probed one through a scratch mount, any other gives no record and changes nothing |
| Discovery.ScanPart | _modules/sesceph/mdl_updater.py:264-295 | one partition grows the OSD and journal sets exactly as planned and adds at most its own record; without a scratch mount the world is unchanged |
| Discovery.ScanOsd | _modules/sesceph/mdl_updater.py:256-276 | on success the loop's OSD set grows by exactly the partitions whose type is the OSD GUID and which are not mounted as `[SWAP]` (lines 268-269 skip those) |
| Discovery.ScanJournal | _modules/sesceph/mdl_updater.py:256-285 | on success the loop's journal set is exactly the partitions whose type is the journal GUID |
| Discovery.ScanRecords | _modules/sesceph/mdl_updater.py:270-295 | only partitions whose metadata was read (mounted, or scratch-mounted) gain a record |
| Discovery.ScanQuiet | _modules/sesceph/mdl_updater.py:263-295 | when no partition needs a scratch mount the loop runs no command and changes nothing in the world |
| Discovery.PartItems | _modules/sesceph/mdl_updater.py:263-264 | every visited partition is one of the disk's partitions with its own record |
| Discovery.PartItemsCover | _modules/sesceph/mdl_updater.py:263 | every partition the iteration order lists is visited |
| Discovery.LsblkItems | _modules/sesceph/mdl_updater.py:256-264 | every visited pair is a partition record of some disk of the tree |
| Discovery.LsblkItemsCover | _modules/sesceph/mdl_updater.py:256-264 | a partition of a listed disk that the disk's order lists is visited |
| Discovery.ItemsCover | _modules/sesceph/mdl_updater.py:256-264 | with faithful dict iteration every partition of every disk is visited |
| Discovery.Placed | _modules/sesceph/mdl_updater.py:309-313 | an aggregated record gains `dev` (its partition) and `dev_parent` when the parent map knows the partition, keeping its fsid |
| Discovery.Group | _modules/sesceph/mdl_updater.py:313-316 | discovered_osd has one entry per fsid among the records (None for a record without one), each record filed under its own fsid |
| Discovery.Aggregate | _modules/sesceph/mdl_updater.py:298-316 | a partition is in the OSD set exactly when the loop found it or it has a record; a device is in the journal set exactly when the loop found it or a record links to it; every record is filed, placed, under its fsid, and every filed record is the placed record of the partition it names |
| Discovery.DiscoverPartitionsRefresh | _modules/sesceph/mdl_updater.py:245-319 | on success only the three discovery fields change; the OSD set holds the OSD-typed partitions plus only partitions whose metadata was read; the journal set holds the journal-typed ones; every discovered record names a partition of the OSD set and sits under its own fsid |
| Discovery.MountedJournalIsAlsoOsd | _modules/sesceph/mdl_updater.py:270-308 | a journal-typed partition mounted on a directory holding OSD data lands in both the OSD and the journal set |
| Discovery.FailedMountScan | _modules/sesceph/mdl_updater.py:288-295 | an untagged unmounted xfs partition whose scratch mount fails is scanned into an empty record and into no set |
| Discovery.EmptyRecordJoinsOsdSet | _modules/sesceph/mdl_updater.py:299-316 | an empty record still puts its partition in the OSD set and is filed under the fsid None |
| Discovery.FailedMountJoinsOsdSet | _modules/sesceph/mdl_updater.py:56-70 | so an untagged xfs partition whose mount fails joins the OSD set although nothing marks it as an OSD |
| Updater.ConfGet | _modules/sesceph/mdl_updater.py:330-331 | a configuration lookup yields a value exactly when the section holds the option, and then that option's value |
| Updater.Merge | _modules/sesceph/mdl_updater.py:326 | reading one more configuration file overrides the options it sets and keeps every other section and option |
| Updater.ReadConf | _modules/sesceph/utils.py:44-47 | a missing configuration file raises the caller's error class; a read configuration is the parse of the file's content |
| Updater.UuidFromName | _modules/sesceph/utils.py:44-54 | a cluster's uuid is the `fsid` option of the `global` section of its configuration file; a missing file raises the utilities' error |
| Updater.HostnameRefresh | _modules/sesceph/mdl_updater.py:82-83 | the hostname becomes the node's name and nothing else changes |
| Updater.DefaultsRefresh | _modules/sesceph/mdl_updater.py:86-93 | with both name and uuid set nothing changes; a uuid alone gets the name derived from it; a missing uuid gets the name (default "ceph") and the uuid read from that cluster's configuration, failing exactly when that read fails |
| Updater.LoadConfig | _modules/sesceph/mdl_updater.py:322-326 | a missing configuration file raises the updater's error; otherwise the file's options are merged into the model's configuration |
| Updater.CommaList | _modules/sesceph/mdl_updater.py:335-336 | the comma-separated pieces, each stripped, in order |
| Updater.Zip | _modules/sesceph/mdl_updater.py:355-361 | the pairs of names and hosts at equal positions |
| Updater.GlobalOption | _modules/sesceph/mdl_updater.py:329-332 | a `global` option is read exactly when present; a missing option raises the given error class |
| Updater.MonMembersRefresh | _modules/sesceph/mdl_updater.py:328-362 | only mon_members can change, and only when this host is among the configured names, to a list as long as the names and paired with them in order |
| Updater.MonMembersNotMember | _modules/sesceph/mdl_updater.py:339-344 | a host that is not a configured monitor leaves the model unchanged and succeeds |
| Updater.MonMembersMismatch | _modules/sesceph/mdl_updater.py:353-354 | name and host lists of different lengths raise the updater's error |
| Updater.MonMembersPaired | _modules/sesceph/mdl_updater.py:345-362 | with matching lists the members are exactly the stripped names and hosts zipped in order |
| Updater.MonMembersNeedsNames | _modules/sesceph/mdl_updater.py:329-332 | a missing mon_initial_members raises before anything else is read |
| Updater.MonStatus | _modules/sesceph/mdl_updater.py:365-385 | an unset hostname or cluster name raises without any command; success means the admin-socket mon_status command exited 0 and its decoded reply is the only change |
| Updater.AuthLine | _modules/sesceph/mdl_updater.py:405-423 | fails (IndexError, a builtin error) exactly on a tab line whose first word is `key:` with no second word; a header files the current section and opens one named by the whole line; any other line leaves the filed sections alone and reads its key and caps into the current section |
| Updater.AuthLinesSpec | _modules/sesceph/mdl_updater.py:405-428 | after the loop the filed sections are the earlier ones plus one per header line, each filed under its own name |
| Updater.AbsorbCons | _modules/sesceph/mdl_updater.py:414-423 | reading one body line and then the rest of a block gives the same section as reading the whole block: the last `key:` wins and `caps:` tails accumulate in order |
| Updater.AuthLinesBlocks | _modules/sesceph/mdl_updater.py:405-428 | from any state the loop ends with the current section read up to the next header, then each header block filed in turn with the key of its last `key:` line and its caps in order |
| Updater.AuthLinesFails | _modules/sesceph/mdl_updater.py:414-418 | the loop fails exactly when some line is a tab line whose `key:` has no value |
| Updater.ParseAuthListKeys | _modules/sesceph/mdl_updater.py:403-429 | the parsed sections are exactly the output's header lines, each under its own name |
| Updater.ParseAuthListSpec | _modules/sesceph/mdl_updater.py:403-429 | the parse fails exactly on a value-less `key:` line; otherwise each header maps to the section of its last block: key from the block's last `key:` line, caps the tails of its `caps:` lines in order (none when there are none); lines before the first header are dropped |
| Updater.AuthListRefresh | _modules/sesceph/mdl_updater.py:389-429 | runs exactly `ceph auth list`; a non-zero exit raises; otherwise it fails exactly when the parse fails, and success replaces only auth_list, with the parsed sections themselves |
| Updater.PoolDetail | _modules/sesceph/mdl_updater.py:450-452 | a pool's stored value is the object `{"poolnum": n}`, n being the item's `poolnum` (None when absent) |
| Updater.PoolMap | _modules/sesceph/mdl_updater.py:449-452 | on a list, succeeds iff every item is an object whose `poolname` is hashable, a list or object name raising TypeError; the keys are the listed names and each maps to `{"poolnum": n}` of the last item with that name; an empty object or string gives an empty map, and a number, boolean or null raises; every error is a Python builtin exception |
| Updater.PoolEntries | _modules/sesceph/mdl_updater.py:449-452 | succeeds iff every item is an object with a hashable `poolname`; the keys are exactly the listed names, and the last item of each name decides its `{"poolnum": n}` value |
| Updater.LastOfNameExists | _modules/sesceph/mdl_updater.py:449-452 | every listed pool name has a last item carrying it, so later items of the same name overwrite earlier ones |
| Updater.PoolMapLastWins | _modules/sesceph/mdl_updater.py:449-452 | every key of a successful pool map is the name of a last item with that name, and maps to that item's `{"poolnum": n}` |
| Updater.PoolList | _modules/sesceph/mdl_updater.py:432-453 | runs exactly `ceph -f json osd lspools`; a non-zero exit raises the updater's Error; it succeeds iff the reply exits 0, parses as JSON and is a valid pool listing, and then replaces only the pool list, with that listing's pool map |
| Updater.PoolCreateArgv | _modules/sesceph/mdl_updater.py:455-478 | the create command names the pool and pg_num (default 8), then pgp_num (default pg_num) unless it is None, and ends with the crush rule set when one is given |
| Updater.PoolCreateDefaults | _modules/sesceph/mdl_updater.py:456-471 | with no options the command is `ceph osd pool create <name> 8 8` |
| Updater.PoolAdder | _modules/sesceph/mdl_updater.py:479-485 | runs exactly the create command and succeeds iff it exits 0 |
| Updater.PoolAdd | _modules/sesceph/mdl_updater.py:487-489 | a listed pool issues no command; an unlisted one is created; no pool list raises |
| Updater.PoolDel | _modules/sesceph/mdl_updater.py:491-510 | an unlisted pool returns True without a command; a listed one runs exactly the delete command and succeeds iff it exits 0 |
| Updater.PoolOpsIdempotent | _modules/sesceph/mdl_updater.py:487-493 | adding a listed pool or deleting an unlisted one runs nothing, while adding an unlisted pool runs exactly one create |
| Updater.ParseCephVersion | _modules/sesceph/mdl_updater.py:525-541 | a version line is read only when it has four words starting `ceph version`; a wrong word count raises the updater's error; a read version has all four parts |
| Updater.DottedVersionOf | _modules/sesceph/mdl_updater.py:535-541 | `a.b.rest` reads back as major a, minor b, revision rest (dots kept), with the tag stripped of parentheses |
| Updater.ParseCephVersionOf | _modules/sesceph/mdl_updater.py:525-541 | `ceph version a.b.rest (uuid)` reads back as (a, b, rest, uuid) |
| Updater.CephVersionRefresh | _modules/sesceph/mdl_updater.py:513-541 | runs exactly `ceph --version`; a non-zero exit raises; success replaces only ceph_version, with the parse of the stripped output's words |
| Query.NamedIn | _modules/sesceph/mdl_query.py:34-37 | the loop finds the host exactly when some member's name equals it |
| Query.MonIs | _modules/sesceph/mdl_query.py:31-37 | an unset hostname raises; otherwise true exactly when some member's name is the hostname |
| Query.LegacyMonIs | sesceph/mdl_query.py:9-15 | the legacy mon_is raises exactly when the hostname is unset (a NameError, its error class being undefined) and otherwise agrees with mon_is |
| Query.NamedInIgnoresAddrs | _modules/sesceph/mdl_query.py:34-36 | replacing every member's address leaves membership unchanged |
| Query.MonIsEmpty | _modules/sesceph/mdl_query.py:34-37 | an empty member list makes mon_is false in both copies |
| Query.MonIsAfterRefresh | _modules/sesceph/mdl_query.py:31-37 | once mon_members_refresh has paired a member list, this host is a member |
| Query.MemberFound | _modules/sesceph/mdl_query.py:34-36 | a host named at any position of the member list is a member |
| Query.PyIn | _modules/sesceph/mdl_query.py:47 | Python's `in`: list membership by equality, object key lookup (unhashable operands raise TypeError), substring search on strings, and a TypeError for anything else |
| Query.MonQuorum | _modules/sesceph/mdl_query.py:39-49 | no loaded status gives False; a status that is not an object raises; otherwise quorum is the negation of the name being in outside_quorum |
| Query.MonQuorumListed | _modules/sesceph/mdl_query.py:45-49 | with a name and an outside_quorum list, mon_quorum is false exactly when the name is listed |
| Query.MonQuorumNeedsOutside | _modules/sesceph/mdl_query.py:46-47 | a status without outside_quorum cannot be searched and raises |
| Query.MonActive | _modules/sesceph/mdl_query.py:52-58 | an unset hostname raises with nothing run; otherwise exactly `systemctl show` of ceph-mon@<host> runs, and a result means it exited 0 and its last ActiveState line gave it |
| Query.ClusterQuorum | _modules/sesceph/mdl_query.py:60-67 | a status never stored raises; a stored None means no quorum, anything else quorum |
| Query.CephDaemonUser | _modules/sesceph/mdl_query.py:70-74 | the user is "root" exactly for major 0 with minor below 95 (or unknown), "ceph" otherwise |
| Query.DaemonUserMonotone | _modules/sesceph/mdl_query.py:70-74 | once a minor version gives "ceph", every later one does too |
| Keyring.RoleOf | _modules/sesceph/keyring.py:334 | a key type names a role exactly when it is one of admin, mds, mon, osd, rgw, and then that role |
| Keyring.RoleNamesRoundTrip | _modules/sesceph/keyring.py:334 | role names and key types correspond one to one |
| Keyring.KeyringPath | _modules/sesceph/keyring.py:21-39 | the admin path is formatted whatever the cluster name; the other roles raise the keyring error when the cluster name, or for the monitor the hostname, is unset, and otherwise give their bootstrap path |
| Keyring.BootstrapPathsDiffer | _modules/sesceph/keyring.py:27-39 | distinct bootstrap roles keep their keyrings at distinct paths |
| Keyring.CapArgs | _modules/sesceph/keyring.py:207-217 | three arguments per capability |
| Keyring.ParseCapArgs | _modules/sesceph/keyring.py:207-217 | the `--cap` arguments read back as exactly the capability list they encode |
| Keyring.CreateArgv | _modules/sesceph/keyring.py:200-325 | the generator command is `ceph-authtool --create-keyring <path>`, then `--gen-key` (or for the monitor `--create-keyring` or `--add-key <key>`), then `-n <principal>`; passing a key to a role other than the monitor raises a TypeError |
| Keyring.CreateArgvCaps | _modules/sesceph/keyring.py:200-325 | after the principal (and admin's `--set-uid=0`) the generator command grants exactly the role's capabilities |
| Keyring.CapsTable | _modules/sesceph/keyring.py:207-217 | admin grants `allow *` on exactly mon, mds and osd; the monitor `allow *` on mon; every bootstrap role only its bootstrap profile on mon |
| Keyring.FormatLine | _modules/sesceph/keyring.py:53-60 | a line disappears from the keyring text exactly when it is blank |
| Keyring.FormatLineFixed | _modules/sesceph/keyring.py:53-60 | a formatted line formats to itself |
| Keyring.FormatLinesIdempotent | _modules/sesceph/keyring.py:53-60 | formatting already formatted lines changes nothing |
| Keyring.FormatIdempotent | _modules/sesceph/keyring.py:48-60 | the keyring text format applied twice equals it applied once |
| Keyring.Generate | _modules/sesceph/keyring.py:84-98 | an existing keyring is returned unchanged with no command; otherwise the generator runs in a new scratch directory that is removed on every path, and the result is the file it left there, whatever its exit status |
| Keyring.GenerateIgnoresStatus | _modules/sesceph/keyring.py:94-95 | the generator's exit status plays no part in create's result |
| Keyring.WriteKeyring | _modules/sesceph/keyring.py:48-52 | an existing file is left alone; otherwise the parent directory is made when missing and the formatted text written, and the answer is always True |
| Keyring.WriteKeyringNoClobber | _modules/sesceph/keyring.py:110-114 | a second write finds the file and changes nothing: the file keeps what the first write left |
| Keyring.RemoveKeyring | _modules/sesceph/keyring.py:183-189 | an absent keyring returns True with nothing done; a present one is removed, and a failed removal raises the keyring error with nothing changed |
| Keyring.MemberStatus | _modules/sesceph/keyring.py:130-134 | a host that is not a member raises "Not ruining a mon daemon" without a command; otherwise the local monitor's status command is the only one run |
| Keyring.MonGate | _modules/sesceph/keyring.py:129-134 | a configuration that cannot be loaded stops the gate with its error and nothing done; a host that is not a configured monitor is refused with the keyring error before any command; passing the gate means the configuration loaded, this host is a member, and exactly the status command ran |
| Keyring.AuthGate | _modules/sesceph/keyring.py:129-136 | the `ceph auth` call is reached only when the host is a member and its monitor is in quorum; a monitor outside quorum raises the keyring error |
| Keyring.Prologue | _modules/sesceph/keyring.py:78-82 | every call applies the cluster arguments, refreshes the hostname (except remove), and fills in the defaults only when no cluster name was given |
| Keyring.Defaulted | _modules/sesceph/keyring.py:81-82 | with no cluster name and no uuid the name becomes "ceph"; with a uuid it becomes the name derived from it |
| Keyring.ImplCreate | _modules/sesceph/keyring.py:74-98 | create is the prologue, the keyring path (its error raised) and then the generate-or-read step on that path |
| Keyring.ImplWrite | _modules/sesceph/keyring.py:101-114 | write succeeds exactly when the prologue and the path succeed, and then is the no-clobber write; a failure changes nothing |
| Keyring.ImplRemove | _modules/sesceph/keyring.py:175-189 | remove skips the hostname refresh and is the tolerant delete of the keyring path; a failure before it changes nothing |
| Keyring.AuthCall | _modules/sesceph/keyring.py:137-145 | after the gate exactly the status command and the `ceph auth` command run, whose exit status is not read; the answer is True |
| Keyring.ImplAuthAdd | _modules/sesceph/keyring.py:117-145 | a missing keyring file raises before any command; success needs the file, the gate and quorum, and then imports the keyring |
| Keyring.ImplAuthDel | _modules/sesceph/keyring.py:148-172 | auth_del checks no file: the gate and quorum, then `ceph auth del <principal>` |
| Keyring.ImplCreateAndSave | _modules/sesceph/keyring.py:250-255 | only the monitor has create_and_save (others raise an AttributeError); it writes what create returned, with the same arguments, and fails when create fails |
| Keyring.Principal | _modules/sesceph/keyring.py:195-307 | admin authorises as client.admin, the monitor as mon.<host>, each bootstrap role as client.bootstrap-<role> |
| Keyring.SelectAsWritten | _modules/sesceph/keyring.py:351-373 | None or an unknown name clears the selection and raises; "mon" raises a TypeError (string plus None) and keeps the old selection; only the other four names can be selected |
| Keyring.Select | _modules/sesceph/keyring.py:351-373 | the key_type setter as intended: a name is selected exactly when it is a key type, with a fresh model and the role's principal; any other value clears the selection and raises |
| Keyring.SelectAgrees | _modules/sesceph/keyring.py:351-373 | both setters agree on every name but "mon" |
| Keyring.MonUnselectable | _modules/sesceph/keyring.py:220-223 | as written "mon" can never be selected, while the corrected setter selects it with principal mon.<host> |
| Keyring.RunImpl | _modules/sesceph/keyring.py:382-389 | a facade create returns the implementation's keyring text and state |
| Keyring.Run | _modules/sesceph/keyring.py:382-430 | every facade operation raises "key type unset" while nothing is selected; otherwise it runs the selected implementation, keeps its role and principal, and keeps the model it ends with |
| KeyringUse.Prepare | _modules/sesceph/keyring_use.py:28-33 | a prepared model has this node's hostname and the cluster's configuration file exists; it fails when the defaults cannot be resolved and carries the resolved cluster name |
| KeyringUse.NeedType | _modules/sesceph/keyring_use.py:25-27 | a missing keyring_type is refused with the entry points' error, otherwise passed on |
| KeyringUse.CreateType | _modules/sesceph/keyring_use.py:24-33 | keyring_create_type and keyring_purge_type refuse a missing type, otherwise prepare the model |
| KeyringUse.PresentType | _modules/sesceph/keyring_use.py:59-68 | keyring_present_type needs only the type; a failing defaults lookup is swallowed, and a successful one gives its model |
| KeyringUse.SaveType | _modules/sesceph/keyring_use.py:89-104 | keyring_save_type needs the type and key text or a secret, and a given secret must pass the base64 check, before the model is prepared |
| KeyringUse.AuthType | _modules/sesceph/keyring_use.py:110-125 | the auth entry points refuse a missing type and mon or admin with nothing run, and a host that is not a monitor member; on success the monitor's status is fetched |
| Remote.NewRemote | _modules/sesceph/mdl_updater_remote.py:31-35 | a new remote updater keeps the model and has no identity chosen |
| Remote.IdOf | _modules/sesceph/mdl_updater_remote.py:53-60 | trial i uses the i-th role of admin, osd, mds, rgw, mon |
| Remote.ConnectionArgs | _modules/sesceph/mdl_updater_remote.py:38-48 | the connection arguments are `--connect-timeout 5 --keyring <path> --name <identity>` of the chosen identity, and raise while none is chosen |
| Remote.ConnectFrom | _modules/sesceph/mdl_updater_remote.py:53-81 | the status queries made are those of roles whose keyring exists, in trial order; the result is True exactly when some trial from i answers (keyring present and its query exits zero in the world it is reached in); the first answering trial is accepted: its identity and decoded status are kept, or ValueError is raised when the status does not decode; when none answers, False with the updater unchanged and only the turned-down queries run |
| Remote.Attempt | _modules/sesceph/mdl_updater_remote.py:60-80 | a role with a keyring is queried; a non-zero exit moves on to the later roles; a zero exit accepts this identity; the same answer-based outcome as ConnectFrom |
| Remote.Connect | _modules/sesceph/mdl_updater_remote.py:51-81 | connect as evidently intended: True exactly when some role answers, and then the first answering role, in the order admin, osd, mds, rgw, mon, is the identity kept with its decoded status; False, after only the turned-down queries, when none answers |
| Remote.ConnectAsWrittenFrom | _modules/sesceph/mdl_updater_remote.py:53-81 | connect as written from trial i: the first of the trials before "mon" that answers is accepted as intended; when none answers, selecting "mon" on the keyring facade raises TypeError after the turned-down queries; it never returns False |
| Remote.ConnectAsWritten | _modules/sesceph/mdl_updater_remote.py:51-81 | connect as written never returns False: if none of admin, osd, mds, rgw answers it raises a builtin error, otherwise the first of them that answers is accepted |
| Remote.ConnectAsWrittenAgrees | _modules/sesceph/mdl_updater_remote.py:51-81 | when one of the first four roles answers, connect as written and as intended give the same outcome |
| Remote.ConnectAsWrittenDiffers | _modules/sesceph/mdl_updater_remote.py:51-81 | when none of the first four roles answers, connect as written raises, while the intended connect returns False or keeps the monitor identity |
| Remote.ConnectWithoutKeyrings | _modules/sesceph/mdl_updater_remote.py:53-59 | with no keyring present, the intended connect runs no command and returns False, while connect as written runs no command and raises TypeError at the "mon" trial |
| Remote.ConnectPrefersAdmin | _modules/sesceph/mdl_updater_remote.py:53-80 | an admin keyring whose status query succeeds wins with exactly one query |
| Remote.StatusRefresh | _modules/sesceph/mdl_updater_remote.py:84-109 | without an identity it raises with nothing run; otherwise it runs the status query with the chosen identity, raises on a non-zero exit, and on success stores only the decoded status |
| Remote.RefreshRepeatsConnect | _modules/sesceph/mdl_updater_remote.py:88-109 | after a successful connect, status_refresh repeats exactly the query that succeeded |
| Remote.ConnectedLast | _modules/sesceph/mdl_updater_remote.py:73-80 | a successful connect leaves the chosen identity's query as the last event |
| Remote.RefreshRepeatsLast | _modules/sesceph/mdl_updater_remote.py:90-100 | status_refresh issues the same query as a last query made with the same identity |
| Presenter.Project | _modules/sesceph/presenter.py:42-45 | the view holds exactly the wanted columns the record has, with their values |
| Presenter.Links | _modules/sesceph/presenter.py:17-19 | the LINK entry lists the device's symlinks in order |
| Presenter.PartitionView | _modules/sesceph/presenter.py:9-47 | None unless the partition's parent disk is known and lists it; otherwise exactly LINK (when symlinks exist) and the wanted partition columns present, with their values |
| Presenter.PartListMembers | _modules/sesceph/presenter.py:69-73 | the partition list of a disk holds exactly the views of the partitions that have one |
| Presenter.DiskView | _modules/sesceph/presenter.py:49-79 | None for an unknown disk; otherwise exactly LINK, PARTITION (when the disk has partitions) and the wanted disk columns present, PARTITION listing the partitions' views in enumeration order |
| Presenter.DiskListsItsPartitions | _modules/sesceph/presenter.py:66-74 | a disk view's PARTITION list contains precisely the views of that disk's own partitions |
| Presenter.PartitionsAll | _modules/sesceph/presenter.py:84-96 | partitions_all has one entry per known disk, its disk view |
| Presenter.OsdView | _modules/sesceph/presenter.py:105-114 | an OSD view drops ceph_fsid and dev_parent, replaces dev and dev_journal by their partition views (null when unknown) and keeps every other entry |
| Presenter.DiscoverOsdByCluster | _modules/sesceph/presenter.py:100-115 | nothing for a cluster never discovered; otherwise exactly the views of that cluster's OSDs |
| Presenter.DiscoverOsd | _modules/sesceph/presenter.py:117-121 | discover_osd has one entry per discovered cluster, that cluster's OSD views |
| Presenter.DiscoverOsdHidesFsid | _modules/sesceph/presenter.py:107-109 | no OSD view shows the cluster fsid or the parent disk |
| Presenter.PartitionsOf | _modules/sesceph/presenter.py:131-137 | the listed views are exactly those of the given partitions that have one |
| Presenter.MonStatusView | _modules/sesceph/presenter.py:155-177 | {} while no status is loaded or the monmap has no fsid; otherwise the status keyed by the fsid with the fsid removed from the monmap and every other entry kept; non-object values raise |
| Presenter.MonStatusViewRoundTrip | _modules/sesceph/presenter.py:163-177 | putting the fsid back into the monmap of the view gives the stored status |
| Presenter.AuthListView | _modules/sesceph/presenter.py:179-189 | auth_list raises when no list is loaded; otherwise every key maps to its section without the name entry |
| Presenter.AuthListViewRoundTrip | _modules/sesceph/presenter.py:181-188 | for a parsed list, naming each section after its key restores the stored list |
| Service.SelectInit | _modules/ceph/service.py:53-64 | an unknown name raises (AttributeError when nothing was selected, otherwise it clears the facade); "systemd" installs the systemd back end; "sysV" is recorded but its table lookup raises KeyError and keeps the old back end |
| Service.NewInit | _modules/ceph/service.py:39-43 | a facade built without an init type has nothing selected; with one it runs the setter |
| Service.OnlySystemdInstalls | _modules/ceph/service.py:58-63 | a fresh facade gets a back end exactly for "systemd"; "sysV" is named but has none |
| Service.SysVUnusable | _modules/ceph/service.py:59-62 | selecting "sysV" raises and leaves a facade with no back end |
| Service.UnitName | _modules/ceph/service.py:110-117 | the unit is `service@identifier`; a missing service or identifier raises |
| Service.UnitNameSplits | _modules/ceph/service.py:116 | a service without "@" is recovered from the unit name, and so is the identifier |
| Service.LineKeyValue | _modules/ceph/service.py:140-142 | a `KEY=value` line reads back as its key and its value, later "=" kept in the value |
| Service.ActiveStateNone | _modules/ceph/service.py:138-148 | there is a state exactly when some line's key is ActiveState |
| Service.ActiveStateLast | _modules/ceph/service.py:139-147 | the state is "running" exactly when the last ActiveState line's value is "active" |
| Service.SystemdIsRunning | _modules/ceph/service.py:120-151 | runs exactly `systemctl show --property ActiveState <unit>`; a result means it exited 0 and the last state line gave it, and a zero exit with a state line always gives a result |
| Service.SystemdRunningIffActive | _modules/ceph/service.py:143-147 | a reply ending in `ActiveState=<v>` means running exactly when v is "active" |
| Service.SystemdVerb | _modules/ceph/service.py:153-202 | start, stop and restart run `systemctl <verb> <unit>` and succeed exactly on exit 0, raising the service error otherwise |
| Service.SystemdBoot | _modules/ceph/service.py:205-222 | enable and disable run `systemctl enable|disable <unit>` and succeed whatever its exit status |
| Service.SysVName | _modules/ceph/service.py:229-233 | the SysV name is the service, and a missing one raises |
| Service.SysVRun | _modules/ceph/service.py:236-292 | every SysV operation runs its single service or chkconfig command and ignores the exit status |
| Service.SysVIsRunningAsks | _modules/ceph/service.py:285-292 | SysV is_running runs `chkconfig <svc> status` and returns nothing |
| Service.IsRunning | _modules/ceph/service.py:71-83 | through the facade a missing back end raises; systemd answers its state; SysV answers None |
| Service.Control | _modules/ceph/service.py:85-98 | start, stop and restart through the facade raise with no back end and otherwise are the back end's operation |
| Service.Boot | _modules/ceph/service.py:100-106 | boot enable and disable through the facade raise with no back end and otherwise are the back end's operation |
| RadosClient.NewClient | _modules/ceph/rados_client.py:28-33 | a new controller has the name as client id, no service and no init facade yet, and a fresh model from the arguments |
| RadosClient.DefaultsLogged | _modules/ceph/rados_client.py:39-41 | the utilities' errors of defaults_refresh are logged and leave the model as it was; any other exception propagates; a resolved name is "ceph" by default or the given one |
| RadosClient.UpdaterLogged | _modules/ceph/rados_client.py:46-53 | an updater error is logged and leaves the model as it was; any other exception propagates unchanged |
| RadosClient.ConfigLogged | _modules/ceph/rados_client.py:46-53 | load_confg and mon_members_refresh log the updater's errors, so only other errors escape, and hostname and cluster name stay |
| RadosClient.Update | _modules/ceph/rados_client.py:36-54 | update refreshes the hostname, resolves defaults and loads the configuration, logging the updater's and utilities' errors, and builds the systemd facade when it gets that far; the cluster name is the given one or "ceph" |
| RadosClient.UpdateWithoutConfig | _modules/ceph/rados_client.py:46-54 | with no configuration file the empty configuration makes mon_members_refresh raise NoSectionError past the handler, and no facade is built |
| RadosClient.Facade | _modules/ceph/rados_client.py:58-61 | activate and deactivate raise the client error when the client id or service name is unset |
| RadosClient.Activate | _modules/ceph/rados_client.py:57-69 | under systemd the unit's state is asked first; a running unit is only enabled; a stopped one is started then enabled; a failed query raises with nothing else run |
| RadosClient.Deactivate | _modules/ceph/rados_client.py:73-85 | under systemd a stopped unit is only disabled; a running one is stopped then disabled; a failed query raises with nothing else run |
| RadosClient.SysVNeverStops | _modules/ceph/rados_client.py:66-85 | through the SysV facade is_running returns nothing, so activate always starts and deactivate never stops, both still toggling boot |
| RadosClient.Create | _modules/ceph/rados_client.py:88-90 | create prepares then activates, and a failed prepare activates nothing |
| RadosClient.Destroy | _modules/ceph/rados_client.py:93-95 | destroy deactivates then removes, and a failed deactivation removes nothing |
| RadosClient.DestroyNeedsNames | _modules/ceph/rados_client.py:74-77 | destroying an unnamed controller neither touches the unit nor removes anything |
| Mds.NewMds | _modules/sesceph/mds.py:29-34 | the name argument is both the instance name and the client id, the service is ceph-mds, and port and address are kept |
| Mds.LibPath | _modules/sesceph/mds.py:37-44 | the instance directory is `<mds lib>/<cluster>-<name>`, and an unset name raises the MDS error |
| Mds.EnvPath | _modules/sesceph/mds.py:51-61 | the environment file lies in the systemd directory, and an unset name or cluster raises the MDS error |
| Mds.InstancePathsDistinct | _modules/sesceph/mds.py:40-61 | two instances of one cluster never share a data directory or an environment file |
| Mds.Prepare | _modules/sesceph/mds.py:65-106 | a path error or a missing bootstrap key raises before anything is made; success leaves both directories present; an existing instance key means no command and no file change; a missing one is requested with get-or-create |
| Mds.InstanceDirs | _modules/sesceph/mds.py:72-77 | the systemd and instance directories exist afterwards, made without a command or a file change |
| Mds.RevokeKey | _modules/sesceph/mds.py:109-133 | with no instance directory nothing happens; otherwise the revocation runs and a non-zero exit raises the MDS error |
| Mds.Remove | _modules/sesceph/mds.py:136-148 | a path error raises with nothing done; the environment file is removed first; without an instance key no command runs; success deletes the instance directory, while a failed revocation raises and keeps it |
| Mds.EnvTextLines | _modules/sesceph/mds.py:156-162 | the environment file reads back, line by line, as BIND_IPV4, BIND_PORT and CLUSTER in that order |
| Mds.MakeEnv | _modules/sesceph/mds.py:153-162 | an existing environment file is left alone; otherwise the three settings are written to it |
| Mds.Activate | _modules/sesceph/mds.py:165-184 | a path error, an unset port or address, or a missing systemd directory raises the MDS error with nothing done; otherwise the environment file is written when missing and the shared activation follows |
| Mds.ActivateWritesEnvFirst | _modules/sesceph/mds.py:181-184 | the environment file is written before the unit is first queried |
| Mds.Create | _modules/sesceph/mds.py:187-191 | create is the environment path check, then prepare, then activate, stopping at the first error |
| Mds.Destroy | _modules/sesceph/mds.py:194-196 | destroy deactivates and then removes, and a failed deactivation stops it |
| InstanceKey.GetOrCreateArgv | _modules/sesceph/mds.py:82-94 | the request names the cluster, the bootstrap identity and keyring, `auth get-or-create client.<name>` with `osd 'allow rwx' mon 'allow rw'`, and `-o <key>` |
| InstanceKey.DelArgv | _modules/sesceph/mds.py:116-124 | the revocation names the same cluster, bootstrap identity and keyring, then `auth del client.<name>` |
| InstanceKey.ArgvsAgree | _modules/sesceph/mds.py:82-124 | the request and the revocation share their prefix and principal, and only the request names the key file |
| InstanceKey.Fetch | _modules/sesceph/mds.py:96-106 | the request runs first; a non-zero exit raises the role's error after removing a key file it left; success is the command's effect |
| InstanceKey.Revoke | _modules/sesceph/mds.py:126-133 | the revocation succeeds iff it exits 0, else raises the role's error |
| Rgw.NewRgw | _modules/sesceph/rgw.py:29-32 | the name argument is the client id and the service is ceph-radosgw |
| Rgw.PoolNames | _modules/sesceph/rgw.py:65-67 | iterating the pool list gives an object's keys, a list's string items or a string's characters; a number or boolean raises TypeError, and a list raises TypeError exactly when it holds an object or a list, which a set cannot hold |
| Rgw.Connected | _modules/sesceph/rgw.py:57-60 | a refused connection raises the gateway error; the world is what connecting left |
| Rgw.PoolsMissing | _modules/sesceph/rgw.py:45-68 | after connecting, the pools are listed once; no listing raises NameError, because the logger named at line 63 is undefined; the result is Ok exactly when a listing exists and its names can be collected, and then it is exactly the ten required pools minus the listed names |
| Rgw.MissingExactly | _modules/sesceph/rgw.py:46-68 | a listing of names is always accepted, and a required pool is reported missing exactly when it is not listed, and nothing else is ever reported |
| Rgw.AddEvents | _modules/sesceph/rgw.py:77-80 | one add with 16 placement groups per missing pool, in order |
| Rgw.AddFailsStep | _modules/sesceph/rgw.py:79-84 | some add fails among all pools exactly when one fails among all but the last or the last one does |
| Rgw.AddAll | _modules/sesceph/rgw.py:77-85 | every missing pool is added in turn, and the answer is False exactly when some add failed |
| Rgw.PoolsCreate | _modules/sesceph/rgw.py:71-85 | a refused connection raises; a failure to work out the missing pools, a missing listing included, is passed on unchanged; otherwise each missing pool is added and the answer is False exactly when an add failed |
| Rgw.CreateAddsOnlyMissing | _modules/sesceph/rgw.py:77-80 | with faithful iteration the pools added are exactly the missing ones |
| Rgw.LibPath | _modules/sesceph/rgw.py:35-42 | the instance directory is `<rgw lib>/<cluster>-<name>`, and an unset name raises the gateway error |
| Rgw.PrepareInstance | _modules/sesceph/rgw.py:92-95 | an unset name or a missing bootstrap key raises before any directory is made; otherwise the instance is provisioned |
| Rgw.Provision | _modules/sesceph/rgw.py:96-126 | the instance directory exists afterwards; a missing instance key is requested with get-or-create; a present one means no command |
| Rgw.Prepare | _modules/sesceph/rgw.py:88-91 | a failure to work out the missing pools is passed on unchanged; missing pools raise the gateway error before any directory is made; success needs none missing, and with none missing prepare goes on to the instance |
| Rgw.RevokeKey | _modules/sesceph/rgw.py:129-153 | with no instance directory nothing happens; otherwise the revocation runs and a non-zero exit raises the gateway error |
| Rgw.Remove | _modules/sesceph/rgw.py:156-169 | an unset name raises; an absent directory means nothing; a failed revocation is logged; the directory is deleted on success; without an instance key no command runs |
| Rgw.RemoveDespiteRevokeFailure | _modules/sesceph/rgw.py:161-169 | a failed revocation still deletes the instance directory |
| Rgw.Create | _modules/ceph/rados_client.py:88-90 | the gateway's create is its prepare, then activate |
| Rgw.Destroy | _modules/ceph/rados_client.py:93-95 | the gateway's destroy deactivates, then removes |
| Osd.DevName | _modules/sesceph/osd.py:42-56 | a path under /dev/ gives the rest of the path with every "/" turned into "!"; any other path fails the assertion |
| Osd.DevNameInverse | _modules/sesceph/osd.py:54-56 | a device name holds no "/", and for a path without "!" turning "!" back into "/" after /dev/ restores the path |
| Osd.IsPartition | _modules/sesceph/osd.py:59-78 | a missing device or a non-block device raises; a name listed in /sys/block is a disk; a name found under some /sys/block entry is a partition; anything else raises |
| Osd.PartitionsByDisk | _modules/sesceph/osd.py:81-92 | exactly the disk's partitions that are known OSD partitions; none for an unknown disk or a disk without partitions |
| Osd.TargetsItem | _modules/sesceph/osd.py:95-103 | a partition stands for itself, a disk for its OSD partitions, and a failed probe raises |
| Osd.Targets | _modules/sesceph/osd.py:133-140 | the targets are exactly the partitions some item names, and the call fails exactly when some item's probe fails |
| Osd.CoversSnoc | _modules/sesceph/osd.py:137-140 | covering by all items is covering by all but the last or by the last item |
| Osd.ActivateRunsAt | _modules/sesceph/osd.py:106-115 | the i-th activation runs `ceph-disk -v activate --mark-init systemd --mount` on the i-th partition |
| Osd.ActivateAll | _modules/sesceph/osd.py:141-142 | activating runs one command per partition in order; a non-zero exit raises; no directory changes |
| Osd.RunsOfOrder | _modules/sesceph/osd.py:141-142 | over an order listing each target once, every target is activated once and nothing else is |
| Osd.TargetItems | _modules/sesceph/osd.py:128-140 | the raw targets are osd_dev and the members of osd_dev_list |
| Osd.ActivateTargets | _modules/sesceph/osd.py:127-143 | with neither argument, the known OSD partitions and nothing run; otherwise a failing probe raises before any activation, and success activates every target |
| Osd.ActivatesEachOnce | _modules/sesceph/osd.py:133-143 | a successful activation runs exactly one activate per target partition, each once, and nothing else |
| Osd.PartDetails | _modules/sesceph/osd.py:146-156 | an unknown parent, an unknown disk or a disk without partitions raises; otherwise the partition's record, if any |
| Osd.PartType | _modules/sesceph/osd.py:159-163 | a partition without a record raises; otherwise its PARTTYPE |
| Osd.CheckType | _modules/sesceph/osd.py:171-196 | the type check passes exactly when the partition has the expected type GUID or sits on a GPT disk |
| Osd.WrongTypeNeedsGpt | _modules/sesceph/osd.py:171-196 | on an MBR disk a partition passes the data check only with the OSD type and the journal check only with the journal type, never both |
| Osd.Opt | _modules/sesceph/osd.py:286-297 | an option is its flag and value when given, nothing otherwise |
| Osd.PrepareArgv | _modules/sesceph/osd.py:275-301 | the prepare vector starts `ceph-disk -v prepare --fs-type <fs> --data-dev`, adds `--journal-dev` with a journal, then the given options, then the data device and the journal device |
| Osd.PrepareArgvOptions | _modules/sesceph/osd.py:283-301 | a cluster name appears as `--cluster <name>`; with a journal `--journal-dev` follows `--data-dev` and the vector ends with data device then journal |
| Osd.ClusterIds | _modules/sesceph/osd.py:207-213 | no name and no uuid default the name to ceph; a given uuid is kept; success always yields a uuid |
| Osd.PrepareDevice | _modules/sesceph/osd.py:250-310 | a journal or mounted partition, or a disk with partitions, counts as done with nothing run; an unmounted partition needs a journal device and both type checks; an unknown disk raises; a ceph-disk run returns True exactly on exit 0 |
| Osd.RunPrepare | _modules/sesceph/osd.py:273-310 | without ceph-disk it raises with nothing run; otherwise it runs the vector and succeeds exactly on exit 0 |
| Osd.Prepare | _modules/sesceph/osd.py:199-250 | a failed default raises with nothing done; a missing osd_dev or bootstrap-osd keyring raises with nothing done; success leaves the OSD data root present; a known OSD or journal uuid returns True with no ceph-disk call |
| Osd.PartedOnly | _modules/sesceph/osd.py:224-243 | making the data root and reading the partition tables run no ceph-disk command |
| Monitor.AsDaemon | _modules/sesceph/mon.py:41-42 | the root back end runs a command unchanged; the ceph back end prefixes exactly `sudo -u ceph` |
| Monitor.MonmapArgvs | _modules/sesceph/mon.py:50-72 | the map commands are one `monmaptool --create --fsid` followed by one `monmaptool --add` per member, in member order |
| Monitor.RunInOrder | _modules/sesceph/mon.py:57-80 | the commands run one after another; on success all ran and each exited zero; on failure the events are a prefix of the plan ending at the first non-zero exit |
| Monitor.CreateMonmap | _modules/sesceph/mon.py:45-81 | an existing map is left alone; a missing fsid raises with nothing run; otherwise the create command and the member additions run in order |
| Monitor.MonmapOnlyCommands | _modules/sesceph/mon.py:45-81 | making the map runs commands and changes no directory |
| Monitor.MonmapOrder | _modules/sesceph/mon.py:50-80 | on success the first new command creates the map with the fsid and member i is added by command i+1, each exiting zero |
| Monitor.Answering | _modules/sesceph/mon.py:187-192 | an updater error from the status query answers "not yet" rather than raising; an answer changes only the stored status |
| Monitor.CheckResponding | _modules/sesceph/mon.py:180-192 | a stopped service raises after its state query alone; an answer requires the service active |
| Monitor.Poll | _modules/sesceph/mon.py:195-215 | the wait issues only commands and five-second sleeps, at most one sleep per round, and gives up only after every round slept |
| Monitor.PollAnswersAtOnce | _modules/sesceph/mon.py:207-208 | a monitor answering the first check ends the wait without sleeping |
| Monitor.PollAbortsWhenStopped | _modules/sesceph/mon.py:184-186 | a stopped service aborts the wait at the first check with no sleep |
| Monitor.Restart | _modules/sesceph/mon.py:268-289 | with the sentinel present, a running monitor is left alone; otherwise one restart followed by a second state query, which must show it running |
| Monitor.Restarted | _modules/sesceph/mon.py:272-289 | the restart command, then the state query only when the restart exited zero |
| Monitor.Settle | _modules/sesceph/mon.py:357-358 | the sentinel is written last and only after the monitor answered; past the deadline every round slept and the call fails |
| Monitor.Start | _modules/sesceph/mon.py:343-358 | the restart comes first and the sentinel last; a failure writes no sentinel |
| Monitor.CleanDir | _modules/sesceph/mon.py:317-322 | an existing data directory is removed with everything below it and made afresh; a missing one is made |
| Monitor.Mkfs | _modules/sesceph/mon.py:317-341 | the data directory is made clean and then mkfs runs as the daemon user |
| Monitor.MakeFs | _modules/sesceph/mon.py:317-358 | a plain file in the data directory's place raises with nothing done; success leaves directory made, mkfs, restart, and the sentinel in that order |
| Monitor.Install | _modules/sesceph/mon.py:298-358 | map, keyring import, clean data directory, mkfs, restart, wait, sentinel; any failure leaves no sentinel written |
| Monitor.Scratch | _modules/sesceph/mon.py:294-361 | the install runs inside a fresh scratch directory that is removed last whatever the outcome; a failure writes no sentinel |
| Monitor.Refresh | _modules/sesceph/mon.py:236-240 | every operation refreshes the hostname first; a defaults failure is told apart; a ready model has a cluster fsid |
| Monitor.CreateAt | _modules/sesceph/mon.py:268-361 | with the sentinel only the restart path runs; without the bootstrap keyring it raises with nothing done; otherwise the scratch install |
| Monitor.Create | _modules/sesceph/mon.py:218-243 | a failed refresh raises; a host that is not a member raises with nothing run; a member goes on to create |
| Monitor.IsMon | _modules/sesceph/mon.py:84-110 | mon_is runs nothing, answers False on a defaults failure and otherwise answers whether the host is a member |
| Monitor.Status | _modules/sesceph/mon.py:113-145 | a defaults failure answers {}; a non-member raises with nothing run; otherwise the presenter's fsid-keyed view of the status read |
| Monitor.Quorum | _modules/sesceph/mon.py:148-177 | a defaults failure raises; an answer is the quorum query on the refreshed model |
| Monitor.Active | _modules/sesceph/mon.py:364-371 | active refreshes only the hostname and asks for the service state once |
| Monitor.Implementation | _modules/sesceph/mon.py:374-386 | root and ceph are the only valid users; root runs commands unchanged and owns with ids 0; ceph requires a ceph account |
| Monitor.SetUser | _modules/sesceph/mon.py:421-433 | setting a valid user selects its implementation; None clears the facade and raises; an unknown user raises and keeps the previous selection |
| Monitor.NewFacade | _modules/sesceph/mon.py:399-405 | the facade reads the installed version once and selects the daemon user that version calls for |
| Monitor.FacadeFollowsVersion | _modules/sesceph/mon.py:403-405 | the root back end is chosen exactly for versions before 0.95 |
| Monitor.Run | _modules/sesceph/mon.py:443-473 | every facade call raises while no implementation is selected; otherwise it runs on the facade's model and keeps the model left behind |
| LegacyUpdater.LegacyFromDir | sesceph/mdl_updater.py:27-49 | a directory without ceph_fsid and fsid gives None; with them, the read succeeds exactly when journal_uuid and magic are also present, and the record carries all four |
| LegacyUpdater.LegacyFromDirAgrees | sesceph/mdl_updater.py:27-49 | on a directory holding all four files this copy reads the same record as the newer one |
| LegacyUpdater.LegacyNeedsJournalUuid | sesceph/mdl_updater.py:37-38 | a data directory without journal_uuid is an OSD to the newer copy and an error to this one |
| LegacyUpdater.LegacyRetrieve | sesceph/mdl_updater.py:53-68 | a missing partition record raises; a record without NAME gives None; otherwise the mount-and-read of the partition |
| LegacyUpdater.Typed | sesceph/mdl_updater.py:171-187 | exactly the partitions, of any disk, whose record has the given PARTTYPE |
| LegacyUpdater.LegacyDiscoverPartitionsRefresh | sesceph/mdl_updater.py:161-189 | the OSD set and the journal set are exactly the partitions with the OSD and the journal type GUID; nothing else in the model changes |
| LegacyUpdater.LegacySetsDisjoint | sesceph/mdl_updater.py:183-187 | with each partition filed under one disk, no partition is in both sets |
| LegacyUpdater.LegacyStep | sesceph/mdl_updater.py:197-212 | a partition whose parent or parent's partition table is unknown is skipped; a record read names its device and carries dev_parent exactly when the record has PKNAME |
| LegacyUpdater.File | sesceph/mdl_updater.py:213-216 | filing a record adds it under its cluster fsid and keeps everything filed before |
| LegacyUpdater.CollectKeyed | sesceph/mdl_updater.py:197-216 | every record collected sits under its own cluster fsid and names its device |
| LegacyUpdater.CollectKeeps | sesceph/mdl_updater.py:214-216 | records filed earlier stay filed |
| LegacyUpdater.CollectSkipsOrphans | sesceph/mdl_updater.py:198-200 | partitions with no known parent are skipped with nothing run |
| LegacyUpdater.LegacyFirstFiled | sesceph/mdl_updater.py:208-216 | the first partition's record ends up filed under its fsid |
| LegacyUpdater.ProducedShift | sesceph/mdl_updater.py:196-216 | a record comes from the partition list exactly when the first partition yields it or, read after the first, the rest do |
| LegacyUpdater.CollectExact | sesceph/mdl_updater.py:196-216 | the records filed at the end are exactly those filed before and those some partition yields when read in turn |
| LegacyUpdater.LegacyDiscoverOsdRefresh | sesceph/mdl_updater.py:193-222 | discover_osd_refresh replaces only discovered_osd, with every record under its own fsid, and files exactly the records the OSD-set partitions yield in iteration order |
| LegacyUpdater.LegacyDiscoverOsdCovers | sesceph/mdl_updater.py:193-222 | with a faithful iteration order every OSD-set partition is read, every filed record is what one of them yields, and every record one of them yields is filed |
| LegacyUpdater.LegacyPartitionsAllRefresh | sesceph/mdl_updater.py:113-154 | lsblk runs once with the fixed arguments; a non-zero exit raises; success replaces only the disk tree and the parent map, built from the output |
| LegacyUpdater.LegacyPartitionsAllAgrees | sesceph/mdl_updater.py:122-154 | for an lsblk of version 2.25 or later this copy runs the same command and builds the same model as the newer one |
| LegacyKeyring.LegacyPath | sesceph/keyring.py:29-37 | the osd, mds and rgw keyrings live at /var/lib/ceph/bootstrap-<role>/<cluster>.keyring, the same paths the newer module uses |
| LegacyKeyring.LegacyOtherPaths | sesceph/keyring.py:19-26 | the admin, monitor and monitor bootstrap paths agree with the newer module's |
| LegacyKeyring.LegacyCluster | sesceph/keyring.py:76-80 | a given cluster name is used as is; otherwise the defaults of a fresh model decide it, and their failure raises |
| LegacyKeyring.LegacyCreate | sesceph/keyring.py:72-92 | an existing keyring is returned as read; otherwise exactly a scratch directory, the generator run, and the scratch removal |
| LegacyKeyring.LegacyWrite | sesceph/keyring.py:95-108 | an existing keyring is left alone; otherwise the formatted content is written; the answer is True |
| LegacyKeyring.LegacyRemove | sesceph/keyring.py:171-186 | a missing keyring answers True with nothing done; an existing one is deleted, a failed deletion raising |
| LegacyKeyring.LegacyAuthGate | sesceph/keyring.py:123-130 | the monitor gate runs, then the quorum query this copy's query class lacks, so the call always raises |
| LegacyKeyring.AuthModel | sesceph/keyring.py:114-119 | an authorisation call's model always has the local hostname |
| LegacyKeyring.LegacyAuthAdd | sesceph/keyring.py:110-139 | auth_add always raises and issues at most the monitor status query; a missing keyring raises with nothing run |
| LegacyKeyring.LegacyAuthDel | sesceph/keyring.py:143-168 | auth_del always raises and issues at most the monitor status query |
| LegacyKeyring.LegacySelect | sesceph/keyring.py:273-291 | osd, mds and rgw select their implementation; anything else, None included, clears the selection and raises |
| LegacyKeyring.LegacyRejectsAdminAndMon | sesceph/keyring.py:256 | admin and mon are refused by this facade |
| LegacyKeyring.LegacyRun | sesceph/keyring.py:300-341 | every facade call raises while no key type is selected; create behaves as the selected implementation's create; the authorisation calls always raise |
| LegacyOsd.LegacyPrepareArgv | sesceph/osd.py:127-151 | the legacy vector puts each device right after its flag, data first, then the journal, then the options |
| LegacyOsd.SameWords | sesceph/osd.py:127-151 | the legacy vector and the controller's vector hold the same words, with the same multiplicities, in another order |
| LegacyOsd.LegacyModel | sesceph/osd.py:91-95 | with discovery the model built is the plain model followed by discover_osd_refresh; without it nothing fills the OSD discovery (the legacy model has no such attribute) |
| LegacyOsd.PrepareWith | sesceph/osd.py:60-156 | the same guards as the controller (defaults, osd_dev, bootstrap-osd keyring) with nothing done on failure; without discovery the existing-OSD lookup raises AttributeError right after the model is built; with it a known OSD or journal uuid answers True, and otherwise the whole-disk checks run; True is possible only with discovery |
| LegacyOsd.DiskStep | sesceph/osd.py:115-156 | a device lsblk does not list raises with nothing run; a disk with partitions answers True; otherwise ceph-disk prepare with the legacy vector |
| LegacyOsd.LegacyPrepare | sesceph/osd.py:60-115 | osd_prepare as written always raises, so it never reaches ceph-disk prepare; once the guards pass, nothing is run after the model's own commands |
| LegacyOsd.LegacyPrepareAlwaysRaises | sesceph/osd.py:91-99 | as written, once the guards pass and the model is built, the lookup of `m.discovered_osd` raises AttributeError whatever OSDs exist, while the fixed version does not stop there |
| LegacyOsd.LegacyPrepareFixed | sesceph/osd.py:60-156 | osd_prepare with discover_osd_refresh run before the lookup |
| LegacyOsd.LegacyPrepareFixedSkipsExisting | sesceph/osd.py:99-112 | with discovery, an OSD or journal uuid already known for the cluster answers True with nothing run after the discovery |
| LegacyOsd.LegacyActivate | sesceph/osd.py:162-184 | one activate command on the raw device, True exactly on exit 0; with no device the executor rejects the vector |
| LegacyOsd.LegacyActivateIsOneStep | sesceph/osd.py:162-184 | the legacy activate of a device has the same effect and outcome as the controller activating that one partition |
| LegacyMon.AsDaemon | sesceph/mon.py:40-41 | the root back end runs a command unchanged; the ceph back end adds its prefix in front |
| LegacyMon.CephPrefixDiffers | sesceph/mon.py:408-414 | the ceph prefix is the two words "sudo-u" and "ceph", since the missing comma joins the first two literals, so it differs from the newer controller's |
| LegacyMon.ActiveBy | sesceph/mon.py:242-259 | the legacy query class has no mon_active, so asking raises with nothing run; the answering class asks for the service state |
| LegacyMon.SiteOf | sesceph/mon.py:218-239 | the install's data directory, sentinel, state query and restart command are those of the newer controller |
| LegacyMon.MapStage | sesceph/mon.py:44-80 | the map is made only when missing, with the fsid and then each member; a failure writes no sentinel; success leaves the map file |
| LegacyMon.TwoCommands | sesceph/mon.py:276-299 | two commands in order, each raising on a non-zero exit |
| LegacyMon.KeysStage | sesceph/mon.py:276-299 | the monitor keyring is imported into the scratch keyring, then the admin keyring is added |
| LegacyMon.DirStage | sesceph/mon.py:305-310 | the data directory is removed when present and made afresh; a file in its place raises with nothing done |
| LegacyMon.StartStage | sesceph/mon.py:313-338 | mkfs as the daemon user, then the restart |
| LegacyMon.CheckStage | sesceph/mon.py:346-377 | the service must be running; then it is enabled, asked for its status, and the sentinel is written; with the legacy query class it raises with nothing run |
| LegacyMon.Install | sesceph/mon.py:272-377 | map, keyrings, data directory, mkfs, restart, check, enable, status and sentinel in that order; a failure writes no sentinel |
| LegacyMon.Scratch | sesceph/mon.py:268-380 | the install runs inside a fresh scratch directory that is removed last whatever the outcome; a failure writes no sentinel |
| LegacyMon.CreateAt | sesceph/mon.py:240-380 | with the sentinel, the restart path; without the monitor bootstrap or the admin keyring it raises with nothing done; otherwise the scratch install |
| LegacyMon.Revive | sesceph/mon.py:240-261 | with the sentinel and the legacy query class it raises with nothing run; with the answering class it is the newer controller's restart path |
| LegacyMon.Create | sesceph/mon.py:190-215 | a failed refresh raises; a host that is not a member raises with nothing run; a member goes on to create on the refreshed model |
| LegacyMon.CreateNeverSucceeds | sesceph/mon.py:242-346 | as written, create never returns True and never writes the sentinel |
| LegacyMon.CreateAtFails | sesceph/mon.py:240-346 | once the host is a member, every create path still raises without writing the sentinel |
| LegacyMon.ScratchFails | sesceph/mon.py:346-347 | the install always stops at the state check |
| LegacyMon.CreateInstallsInOrder | sesceph/mon.py:190-380 | with a query class that answers, a successful create ran, in order, the scratch directory, the map, both imports, the directory wipe, mkfs, the restart, the state check, the enable, the status query, the sentinel and the scratch removal |
| LegacyMon.IsMon | sesceph/mon.py:83-110 | mon_is runs nothing and answers False on a defaults failure |
| LegacyMon.MonMembersOptionClass | sesceph/mdl_updater.py:230-265 | the member refresh gives the same result whatever error class a missing option raises, except that class; the legacy copy raises NameError there |
| LegacyMon.RefreshOptionClass | sesceph/mon.py:100-108 | the hostname, defaults, config and member refresh ends the same way under either error class, except the class of a missing option's error |
| LegacyMon.IsMonAgrees | sesceph/mon.py:83-110 | mon_is answers as the newer controller's does, except that a missing member option raises NameError, not the updater's error |
| LegacyMon.Status | sesceph/mon.py:113-146 | a defaults failure answers {}; a non-member raises with nothing run |
| LegacyMon.Shown | sesceph/mon.py:144-146 | the answer is the presenter's fsid-keyed view of the status read |
| LegacyMon.StatusAgrees | sesceph/mon.py:113-146 | status answers as the newer controller's does, except that a missing member option raises NameError, not the updater's error |
| LegacyMon.StatusAgreesOnWorld | sesceph/mon.py:113-146 | status runs the same commands as the newer controller's |
| LegacyMon.Quorum | sesceph/mon.py:149-179 | a defaults failure raises; with the legacy query class the call always raises |
| LegacyMon.Asked | sesceph/mon.py:177-179 | the answer is the quorum query on the model left by the status query |
| LegacyMon.QuorumAgrees | sesceph/mon.py:149-179 | with an answering query class, quorum runs the same commands and answers as the newer controller's, except that a missing member option raises NameError, not the updater's error |
| LegacyMon.Active | sesceph/mon.py:383-390 | active refreshes only the hostname; with the legacy query class it raises with nothing run, with the answering one it is the newer controller's |
| LegacyMon.CephImpl | sesceph/mon.py:400-405 | the ceph implementation requires a ceph account and works on a fresh model from the arguments |
| LegacyMon.SetVersion | sesceph/mon.py:435-441 | setting any version, None included, installs a root implementation on a model built without arguments |
| LegacyMon.ClearVersion | sesceph/mon.py:444-445 | deleting the version clears the implementation |
| LegacyMon.NoVersionStillUsable | sesceph/mon.py:436-440 | setting the version to None still leaves an implementation installed |
| LegacyMon.Run | sesceph/mon.py:451-481 | every facade call raises while no implementation is installed; the version and the back end never change; quorum, status and mon_is leave the facade as it was |
| Purger.ShutdownCeph | _modules/sesceph/purger.py:25-38 | one `systemctl stop ceph*`; it succeeds exactly on exit 0 and otherwise raises the purger's error; nothing else changes |
| Purger.MountPointResolves | _modules/sesceph/purger.py:65-80 | a partition's mount point is found exactly when its parent, the parent's lsblk row, that row's partition map, the partition's row and its MOUNTPOINT all exist |
| Purger.UnmountOne | _modules/sesceph/purger.py:66-92 | a partition without a resolvable mount point is skipped; otherwise one umount of its mount point, raising the purger's error on a non-zero exit |
| Purger.UnmountEach | _modules/sesceph/purger.py:65-92 | the loop only appends commands; a failure is the last command, which exited non-zero |
| Purger.UnmountEachEvents | _modules/sesceph/purger.py:65-92 | every command unmounts a listed partition, and a completed loop has unmounted every listed partition whose mount point resolves |
| Purger.UnmountOneEvents | _modules/sesceph/purger.py:78-85 | one turn issues at most the partition's own umount |
| Purger.UnmountOsd | _modules/sesceph/purger.py:64-92 | with a faithful iteration order, every umount belongs to an OSD partition, and success unmounts every OSD partition whose mount point resolves |
| Purger.RemoveFiles | _modules/sesceph/purger.py:128-133 | only listed files are removed, every listed file is gone on success, everything else is kept unchanged, and a failure raises |
| Purger.RemoveFilesEvents | _modules/sesceph/purger.py:128-133 | every effect removes a listed file that was there |
| Purger.RemoveFilesSucceeds | _modules/sesceph/purger.py:128-133 | a listing of distinct, present, removable files is removed without error |
| Purger.FilesPass | _modules/sesceph/purger.py:95-101 | a file pass only removes files and touches no directory |
| Purger.FilesPassClears | _modules/sesceph/purger.py:95-101 | with a faithful walk and removable files, the pass removes exactly the files below its root |
| Purger.RemoveDirIfEmpty | _modules/sesceph/purger.py:111-115 | a missing directory raises; a non-empty one is kept; an empty one that is no mount point is removed; only that directory can go |
| Purger.RemoveDirs | _modules/sesceph/purger.py:167-177 | only listed directories are removed, no file changes, and a failure raises |
| Purger.RemoveDirsEvents | _modules/sesceph/purger.py:135-149 | every effect removes a listed directory |
| Purger.ParentsSurvive | _modules/sesceph/purger.py:103-109 | a directory listed before a subdirectory of its own is never removed |
| Purger.EmptyRemoved | _modules/sesceph/purger.py:139-149 | a listed empty directory that is no mount point is gone when the loop completes |
| Purger.BottomUpRemovesAll | _modules/sesceph/purger.py:135-149 | when every directory is listed after all directories below it and no file remains, every listed directory is removed |
| Purger.ReverseBottomUp | _modules/sesceph/purger.py:103-109 | reading a top-down listing backwards lists the same directories bottom up |
| Purger.BottomUpClears | _modules/sesceph/purger.py:167-177 | a bottom-up listing of a root with no file and no mount point below it removes every directory below the root |
| Purger.FilesPhase | _modules/sesceph/purger.py:153-165 | the file loops only remove files and touch no directory |
| Purger.FilesPhaseEvents | _modules/sesceph/purger.py:153-165 | every effect of the file loops removes a file that was there |
| Purger.FilesPhaseClears | _modules/sesceph/purger.py:153-165 | with faithful walks and removable files, the file loops leave exactly the files below none of the roots |
| Purger.FilesPhaseInOrder | _modules/sesceph/purger.py:153-165 | files are removed root by root, never one below an earlier root after one below a later root |
| Purger.DirsPhase | _modules/sesceph/purger.py:167-177 | the directory loops only remove directories and touch no file |
| Purger.DirsPhaseEvents | _modules/sesceph/purger.py:167-177 | every effect of the directory loops removes a directory |
| Purger.DirsPhaseClears | _modules/sesceph/purger.py:167-177 | bottom up, with faithful walks and no file or mount point below the roots, no directory remains below any root |
| Purger.ListFiles | _modules/sesceph/purger.py:152-177 | list_files only removes files and directories and keeps every remaining file unchanged |
| Purger.ListFilesSplit | _modules/sesceph/purger.py:152-177 | its effects are the file loops' removals followed only by directory removals |
| Purger.ListFilesFilesFirst | _modules/sesceph/purger.py:152-177 | no file is removed after a directory |
| Purger.ListFilesRootOrder | _modules/sesceph/purger.py:153-165 | files are removed root by root in the order mds, rgw, osd, mon |
| Purger.ListFilesClearsTree | _modules/sesceph/purger.py:152-177 | with bottom-up directory loops, faithful walks, removable files and no mount point below the roots, nothing remains below any of the four roots |
| Purger.TopDownLeavesParent | _modules/sesceph/purger.py:103-109 | as written, a directory holding only an empty subdirectory survives: the walk lists the parent first |
| Purger.RemoveConfig | _modules/sesceph/purger.py:118-126 | nothing happens without a cluster name or without its configuration file; otherwise that one file is removed, a failure raising with nothing changed |
| Purger.RemoveConfigOnce | _modules/sesceph/purger.py:118-126 | a second remove_config after a successful one does nothing |
| Purger.UpdateMon | _modules/sesceph/purger.py:48-57 | the hostname is always set; the call succeeds exactly when the monitor refreshes do; a defaults failure leaves the defaulted cluster name in the model |
| Purger.UpdateOsd | _modules/sesceph/purger.py:59-62 | update_osd changes only the symlinks, the lsblk tree and versions, and the discovered partition sets and OSDs |
| Purger.OsdStage | _modules/sesceph/purger.py:204-206 | an update_osd failure is passed on as is; a failure after it is a failed umount |
| Purger.PurgeTarget | _modules/sesceph/keyring.py:21-40 | the keyring a purge turn can remove: the admin keyring for "admin", the bootstrap keyring for "mds", "osd" and "rgw", none for "mon" or an unknown type |
| Purger.PurgedCons | _modules/sesceph/purger.py:190-195 | a path is purged by a list of key types exactly when the first type targets it or the rest purge it |
| Purger.RemoveOne | _modules/sesceph/purger.py:192-195 | one turn removes at most one file; with a cluster name, exactly the turn's target keyring goes, when present and removable |
| Purger.RemoveKeyrings | _modules/sesceph/purger.py:189-195 | the keyring loop only removes files and never raises; with a cluster name, a file is gone exactly when some key type's target keyring is that removable file |
| Purger.PurgeKeepsMonKeyring | _modules/sesceph/purger.py:190-195 | the loop over mds, rgw, osd, mon and admin never removes the mon keyring, whatever the hostname |
| Purger.AdminIsNotMonKeyring | _modules/sesceph/keyring.py:21-28 | the admin keyring path is never a mon keyring path |
| Purger.BootstrapIsNotMonKeyring | _modules/sesceph/keyring.py:27-40 | the mds, osd and rgw bootstrap keyring paths are never the mon keyring path |
| Purger.Purge | _modules/sesceph/purger.py:180-212 | purge first stops every Ceph unit; a failed stop ends it right there with the purger's error |

## Left out

- Command execution and the tools it reaches (`lsblk`, `parted`, `ceph`, `ceph-authtool`, `monmaptool`, `ceph-disk`, `systemctl`, `chkconfig`, `mount`, `umount`): oracles. Only the argument vector and the reply are modelled, not what each tool does inside.
- `find_executable`: not modelled. Executables are named by their plain command names, and `Env.cephDiskFound` says whether ceph-disk was found.
- `shlex.split`, `json.loads` and ConfigParser are oracles (`Env.lex`, `Env.json`, `Env.ini`). Their parsers are other libraries' code.
- `utils._get_cluster_name_from_uuid` is the oracle `Env.nameFromUuid`. It ignores its argument, so only its result is modelled.
- `os.walk`, `realpath`, the `/dev/disk` symlink index and the `/sys/block` probes are oracles. Properties that need a complete walk state `Purger.FilesWalkFaithful` or `Purger.DirsWalkFaithful` in their requires.
- Dictionary and set iteration order is Python's and is unspecified. It is the oracle `Env.order`. Lists the source builds only to return are sets where order cannot be observed: the OSD view list and the per-cluster OSD records.
- Time: `time.clock` and `time.sleep` in the monitor poll. The clock is a count of deadline tests that still pass. Each sleep is a `Slept` event.
- `os.chown` and file ownership have no effect in the model, and neither do file modes.
- Logging: log calls have no effect. Where the source logs instead of raising, the model returns the same value it would have returned without the log.
- Raw device writes and `rm -rf` in the Salt entry wrappers are not part of this model. The same goes for the wrappers over the `ceph_cfg` library and the `print` calls of the legacy package.
- The remote updater's `pool_list` and `pool_add`, which `rgw.py` calls but the remote updater does not define, are the oracles `Env.remotePools` and `Env.remotePoolAdd`. The MDS library path constant that constants does not define is `Env.mdsLib`. The facade's `keyring_path_get` and `keyring_identity_get` are `Env.keyringPathOf` and `Env.keyringIdentityOf`. The base64 check is `Env.base64Ok`. As written, each of these names raises AttributeError where a call first reaches it, and the model describes what the code does once the name is bound:
  - `constants._path_ceph_lib_mds`: mds.py:48, the first step of every MDS activate (mds.py:166) and create (mds.py:188); mds.py:41, in prepare and remove once a name is given (mds.py:66, 137); purger.py:153, so every purge raises in list_files and never reaches remove_config (purger.py:211-212). This affects the Mds members, `Purger.ListFiles` and `Purger.Purge`.
  - `keyring_facard.keyring_path_get`: mdl_updater_remote.py:56, on the first trial (admin) of every remote connect, so no connect gets as far as the mon trial. This affects `Remote.ConnectFrom`, `Remote.Connect`, `Remote.ConnectAsWritten`, `Remote.StatusRefresh` and, through `Rgw.Connected`, every gateway pool operation.
  - The remote updater's `pool_list` and `pool_add`: rgw.py:61 and rgw.py:80, each reached only after a connect.
  - `utils.is_valid_base64`: keyring_use.py:98, whenever `secret` is passed to `keyring_save_type` (`KeyringUse.SaveType`).
- The legacy package as written cannot be imported. sesceph/keyring.py:5 imports `_model` from model.py, which defines only the class `model`, so importing the legacy keyring module raises ImportError. The legacy mon.py and osd.py import that module (mon.py:10, osd.py:5) and fail the same way. The model describes what each legacy function would do once its names resolve, binding each name its module does not define to the evident counterpart:
  - `_model` in keyring.py is bound to the class `model`;
  - `mdl_updater.model_updater` is bound to `_model_updator`;
  - `mdl_query.mdl_query` is bound to `_mdl_query`;
  - `utils.excuete_local_command` is bound to the executor (the legacy utils.py is not part of this model);
  - `log` has no effect.
  Past the import, each of the last four would raise AttributeError or NameError where a call first reaches it.
- KeyringUse: each entry point ends by calling the keyring facade's constructor with an argument it does not accept, and `keyring_present_type` calls a `present` method the facade lacks. The entry points are modelled up to the model they would hand over; that final call is not part of this model.
- Presenter: `pool_list` and `ceph_version` return a model field unchanged and have no member of their own.
- Osd: `osd_fs_type` is read and then overwritten by `fs_type`, so only the overriding value is modelled.
- Keyword arguments: the model distinguishes only a missing argument from a given one. An argument given as None counts as missing.
- LegacyUpdater.LegacyDiscoverOsdRefresh: the legacy code stores `dev_parent` as None when `PKNAME` is missing (sesceph/mdl_updater.py:208); the model leaves the key out.
- LegacyUpdater.LegacyStep: the same `dev_parent` difference; a partition without `PKNAME` gets no `dev_parent` key rather than one holding None (sesceph/mdl_updater.py:208).
- Rgw.Connected: connects through the corrected `Remote.Connect`, with `keyring_path_get` bound as above (as written, the admin trial already raises AttributeError at mdl_updater_remote.py:56). As written (`Remote.ConnectAsWritten`), a connect in which none of the admin, osd, mds and rgw keyrings answers raises TypeError at the mon keyring, so "Cant connect to cluster." (rgw.py:58-60) is never raised there. `Rgw.PoolsMissing`, `Rgw.PoolsCreate` and `Rgw.Prepare` inherit this through `Rgw.Connected`.
- Monitor.CheckResponding: when the deadline passes, the source formats its message with an undefined `retry_max`, so the poll ends with a NameError (`Monitor.TimedOut`). The model keeps that error class, not the message the code evidently meant.
- LegacyKeyring.LegacyAuthAdd: the authorisation calls ask the legacy query class for `mon_quorum`, which it does not define. Only that as-written outcome is modelled.
- LegacyMon.Run: the facade runs every operation with the answering query class (`LegacyMon.Queries.Answering`). The legacy class, which defines only mon_is, is modelled by calling Create, Quorum and Active with `AsWritten`, not through Run.
- Purger.Purge: the contract states only that the stop comes first and that a failed stop ends purge. The keyring loop, the unmount stage and `list_files` each carry their own contracts (`Purger.RemoveKeyrings`, `Purger.UnmountOsd`, `Purger.ListFiles`) rather than one composed contract for the whole of purge. The purger itself is modelled with these choices:
  - its `init_system` is the systemd one, the only one the facade can install (`Service.OnlySystemdInstalls`);
  - the keyring loop selects through the corrected `Keyring.Select`. The mon keyring is still never removed, in either version. As written, setting the key type to "mon" raises TypeError (keyring.py:221-223), which the loop's bare `except` swallows. Through the corrected select, `remove` runs without refreshing the hostname (keyring.py:175-190), so the mon keyring path cannot be formed (keyring.py:228-229) and that failure is swallowed the same way (`Purger.PurgeKeepsMonKeyring`);
  - the `isdir` test in `remove_dir` cannot fail after a successful listing, so it is folded into the listing;
  - `umount` removes no mount point from the world, since mounts are the oracle's.
- Purger.RemoveKeyrings: the exact set of removed keyrings is stated only when a cluster name is given. Without one, the name comes from the defaults the world holds at each turn, so the contract then states only that the loop removes files and nothing else. The result carries no error, since the loop swallows every failure.
- Purger.ListFiles: the directory order is a parameter (`Purger.DirOrder`). The source's top-down order is one value and the bottom-up correction is the other.
- The legacy `_model_updator`'s host, defaults, monitor member, auth list and pool operations are the functions of `Updater`, with one difference. sesceph/mdl_updater.py never imports ConfigParser. So when the mon_initial_members or mon_host option is missing, its `except ConfigParser.NoOptionError` clause raises NameError instead of the updater's error (lines 231-234 and 247-250). The legacy callers pass `Builtin` as the class of that error. LegacyMon.MonMembersOptionClass and LegacyMon.RefreshOptionClass show that nothing else changes.

## Findings

| source | as written | input that shows it | evidently intended | confidence | as-written member | corrected member |
|---|---|---|---|---|---|---|
| _modules/sesceph/keyring.py:220-223 | the mon implementation's constructor builds a fresh model, whose hostname is None, and concatenates `"mon." + None` | `key_type = "mon"` on any facade; so, once the undefined `keyring_path_get` is bound (mdl_updater_remote.py:56 raises AttributeError on the admin trial as written), a remote connect in which none of the admin, osd, mds and rgw keyrings answers raises instead of trying the mon keyring or returning False | selecting "mon" installs the mon implementation, whose principal is `mon.<host>` once the host is known, and connect goes on to the mon keyring | high, not executed | Keyring.SelectAsWritten, Keyring.MonUnselectable, Remote.ConnectAsWritten, Remote.ConnectAsWrittenDiffers | Keyring.Select, Keyring.SelectAgrees, Remote.Connect, Remote.ConnectAsWrittenAgrees |
| sesceph/osd.py:91-115 | osd_prepare builds a legacy model, runs defaults, lsblk and partition discovery but never discover_osd_refresh, then reads `m.discovered_osd`, an attribute the legacy model class (sesceph/model.py:12-31) does not define, so it raises AttributeError | any call whose cluster ids resolve, with osd_dev given and the bootstrap-osd keyring present | existing OSDs are discovered first, a uuid that already exists returns True without invoking ceph-disk, and otherwise the disk is prepared | high, not executed | LegacyOsd.LegacyPrepare, LegacyOsd.LegacyPrepareAlwaysRaises | LegacyOsd.LegacyPrepareFixed, LegacyOsd.LegacyPrepareFixedSkipsExisting |
| sesceph/mon.py:242-346 | create asks the legacy query class for mon_active, at the done sentinel (lines 242 and 258) and after the install (line 346); that class defines only mon_is | any mon host without the done sentinel, or with it | create asks a query class that answers mon_active, so it can reach the done sentinel | high, not executed | LegacyMon.CreateNeverSucceeds | LegacyMon.Create, LegacyMon.CreateInstallsInOrder |
| _modules/sesceph/purger.py:103-109 | the directory list comes from a top-down walk, and the directory loop removes each entry only if it is empty when reached, so a parent is tested before its children | once the undefined `constants._path_ceph_lib_mds` is bound (purger.py:153 raises AttributeError before any walk as written), a role root holding only `a/b`, with both directories empty | list_files leaves no directory below the roots | medium, not executed | Purger.TopDownLeavesParent, Purger.ParentsSurvive | Purger.ListFilesClearsTree, Purger.BottomUpClears |
