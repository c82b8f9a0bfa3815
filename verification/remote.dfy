/** The remote model updater (_modules/sesceph/mdl_updater_remote.py): it
    finds a local keyring the cluster accepts, trying the roles in a fixed
    order, and then asks the cluster for its status with that identity.

    The keyring facade it asks for a role's path and identity has no such
    methods; `Env.keyringPathOf` and `Env.keyringIdentityOf` stand for them.
    Selecting the role on the facade has no other effect here once the
    monitor role is selectable (see `Keyring.Select`). */
module Remote {
  import opened Wrappers
  import opened Text
  import opened JsonData
  import opened Exec
  import opened NodeModel
  import Keyring

  /** The roles connect tries, in order. */
  const Trials: seq<string> := ["admin", "osd", "mds", "rgw", "mon"]

  /** The identity connect settles on: the role, its keyring and its name. */
  datatype Identity = Identity(keyType: string, path: Path, name: string)

  /** A remote updater: the model it fills in and the chosen identity. */
  datatype RemoteUpdater = RemoteUpdater(m: Model, id: Option<Identity>)

  function NewRemote(m: Model): (r: RemoteUpdater)
    ensures r.m == m && r.id.None?
  {
    RemoteUpdater(m, None)
  }

  /** The identity of the `i`-th trial. */
  function IdOf(env: Env, i: nat): (id: Identity)
    requires i < |Trials|
    ensures id.keyType == Trials[i]
  {
    Identity(Trials[i], env.keyringPathOf(Trials[i]), env.keyringIdentityOf(Trials[i]))
  }

  function ConnArgs(id: Identity): Argv {
    ["--connect-timeout", "5", "--keyring", id.path, "--name", id.name]
  }

  /** connection_arguments_get: raises until an identity is chosen. */
  function ConnectionArgs(r: RemoteUpdater): (res: Result<Argv>)
    ensures res.Err? <==> r.id.None?
    ensures res.Err? ==> res.error.cls == RemoteError
    ensures res.Ok? ==> |res.value| == 6 && res.value[..2] == ["--connect-timeout", "5"]
    ensures res.Ok? ==> res.value[2..4] == ["--keyring", r.id.value.path] && res.value[4..] == ["--name", r.id.value.name]
  {
    if r.id.None? then Raise(RemoteError, "No keytype selected") else Ok(ConnArgs(r.id.value))
  }

  /** `ceph <connection arguments> -f json-pretty status`. */
  function StatusArgv(id: Identity): Argv {
    ["ceph"] + ConnArgs(id) + ["-f", "json-pretty", "status"]
  }

  /** The events of a connect attempt: status queries of trials `i` and on,
      in trial order, each role at most once. */
  predicate TrialsFrom(env: Env, events: seq<Event>, i: nat)
    requires i <= |Trials|
    decreases |Trials| - i
  {
    if |events| == 0 then true
    else if i == |Trials| then false
    else (events[0] == Ran(StatusArgv(IdOf(env, i))) && TrialsFrom(env, events[1..], i + 1)) || TrialsFrom(env, events, i + 1)
  }

  /** What a successful connect from trial `i` leaves: the identity of one
      of those trials, whose keyring exists and whose query came last, and
      the model with only the cluster status stored. */
  predicate Connected(env: Env, w: World, r: RemoteUpdater, i: nat, o: Out<(RemoteUpdater, bool)>)
    requires i <= |Trials|
  {
    o.r.Ok? && o.r.value.1 ==>
      && o.r.value.0.id.Some?
      && (exists j | i <= j < |Trials| :: o.r.value.0.id.value == IdOf(env, j))
      && o.r.value.0.id.value.path in o.w.files
      && |o.w.trace| > |w.trace| && o.w.trace[|o.w.trace| - 1] == Ran(StatusArgv(o.r.value.0.id.value))
      && o.r.value.0.m == r.m.(clusterStatus := o.r.value.0.m.clusterStatus) && o.r.value.0.m.clusterStatus.Some?
  }

  /** The world once trial `k` has been tried and turned down: its status
      query was run when its keyring exists, and nothing happened
      otherwise. */
  function Rejected(env: Env, w: World, k: nat): World
    requires k < |Trials|
  {
    if IdOf(env, k).path in w.files then Execute(env, w, StatusArgv(IdOf(env, k))).0 else w
  }

  /** The world in which trial `j` is reached from trial `i`, every trial in
      between having been turned down. */
  function Reached(env: Env, w: World, i: nat, j: nat): World
    requires i <= j <= |Trials|
    decreases j
  {
    if j == i then w else Rejected(env, Reached(env, w, i, j - 1), j - 1)
  }

  /** Trial `j` answers when reached from trial `i`: its keyring exists and
      its status query exits zero. */
  predicate Answers(env: Env, w: World, i: nat, j: nat)
    requires i <= j < |Trials|
  {
    var b := Reached(env, w, i, j);
    IdOf(env, j).path in b.files && env.run(b.trace, StatusArgv(IdOf(env, j))).retcode == 0
  }

  /** Trial `j` is the first from `i` that answers. */
  predicate FirstAnswer(env: Env, w: World, i: nat, j: nat)
    requires i <= j < |Trials|
  {
    Answers(env, w, i, j) && forall k | i <= k < j :: !Answers(env, w, i, k)
  }

  const UndecodableStatus := "ValueError: No JSON object could be decoded"

  /** What accepting trial `j` leaves: its query run in the world it was
      reached in, then the decoded status stored with its identity, or a
      ValueError when the status does not decode. */
  predicate AcceptedAt(env: Env, w: World, r: RemoteUpdater, i: nat, j: nat, o: Out<(RemoteUpdater, bool)>)
    requires i <= j < |Trials|
  {
    var b := Reached(env, w, i, j);
    var reply := env.run(b.trace, StatusArgv(IdOf(env, j)));
    && o.w == Execute(env, b, StatusArgv(IdOf(env, j))).0
    && (env.json(Strip(reply.stdout)).None? ==> o.r == Raise(Builtin, UndecodableStatus))
    && (env.json(Strip(reply.stdout)).Some? ==>
          o.r == Ok((RemoteUpdater(r.m.(clusterStatus := env.json(Strip(reply.stdout))), Some(IdOf(env, j))), true)))
  }

  /** Reaching a later trial from `i` is reaching it from `i + 1` once trial
      `i` has been turned down. */
  lemma {:induction false} ReachedShift(env: Env, w: World, i: nat, j: nat)
    requires i < j <= |Trials|
    ensures Reached(env, w, i, j) == Reached(env, Rejected(env, w, i), i + 1, j)
    decreases j
  {
    if j > i + 1 {
      ReachedShift(env, w, i, j - 1);
    }
  }

  /** No trial from `i` below `n` answers. */
  predicate NoneAnswer(env: Env, w: World, i: nat, n: nat)
    requires i <= n <= |Trials|
  {
    forall j | i <= j < n :: !Answers(env, w, i, j)
  }

  /** Whichever trial from `i` below `n` answers first is the one accepted. */
  predicate FirstWins(env: Env, w: World, r: RemoteUpdater, i: nat, n: nat, o: Out<(RemoteUpdater, bool)>)
    requires i <= n <= |Trials|
  {
    forall j | i <= j < n && FirstAnswer(env, w, i, j) :: AcceptedAt(env, w, r, i, j, o)
  }

  /** A later trial answers from `i` exactly when it answers from `i + 1`
      once trial `i` has been turned down. */
  lemma AnswersShift(env: Env, w: World, i: nat, j: nat)
    requires i < j < |Trials|
    ensures Answers(env, w, i, j) == Answers(env, Rejected(env, w, i), i + 1, j)
  {
    ReachedShift(env, w, i, j);
  }

  /** Turning trial `i` down hands the search to trial `i + 1` in the world
      that leaves. */
  lemma SkipTrial(env: Env, w: World, r: RemoteUpdater, i: nat, n: nat, o: Out<(RemoteUpdater, bool)>)
    requires i < n <= |Trials| && !Answers(env, w, i, i)
    ensures Reached(env, w, i, n) == Reached(env, Rejected(env, w, i), i + 1, n)
    ensures NoneAnswer(env, w, i, n) <==> NoneAnswer(env, Rejected(env, w, i), i + 1, n)
    ensures FirstWins(env, Rejected(env, w, i), r, i + 1, n, o) ==> FirstWins(env, w, r, i, n, o)
  {
    ReachedShift(env, w, i, n);
    SkipNone(env, w, i, n);
    if FirstWins(env, Rejected(env, w, i), r, i + 1, n, o) {
      SkipWins(env, w, r, i, n, o);
    }
  }

  lemma SkipNone(env: Env, w: World, i: nat, n: nat)
    requires i < n <= |Trials| && !Answers(env, w, i, i)
    ensures NoneAnswer(env, w, i, n) <==> NoneAnswer(env, Rejected(env, w, i), i + 1, n)
  {
    var w1, i1 := Rejected(env, w, i), i + 1;
    forall j | i < j < n ensures Answers(env, w, i, j) == Answers(env, w1, i1, j) {
      AnswersShift(env, w, i, j);
    }
  }

  lemma SkipWins(env: Env, w: World, r: RemoteUpdater, i: nat, n: nat, o: Out<(RemoteUpdater, bool)>)
    requires i < n <= |Trials| && !Answers(env, w, i, i)
    requires FirstWins(env, Rejected(env, w, i), r, i + 1, n, o)
    ensures FirstWins(env, w, r, i, n, o)
  {
    var w1, i1 := Rejected(env, w, i), i + 1;
    forall j | i <= j < n && FirstAnswer(env, w, i, j) ensures AcceptedAt(env, w, r, i, j, o) {
      FirstShift(env, w, i, j);
      ReachedShift(env, w, i, j);
    }
  }

  /** The first answer from `i`, past trial `i` itself, is the first from `i + 1`. */
  lemma FirstShift(env: Env, w: World, i: nat, j: nat)
    requires i <= j < |Trials| && !Answers(env, w, i, i) && FirstAnswer(env, w, i, j)
    ensures i < j && FirstAnswer(env, Rejected(env, w, i), i + 1, j)
  {
    var w1, i1 := Rejected(env, w, i), i + 1;
    AnswersShift(env, w, i, j);
    forall k | i1 <= k < j ensures !Answers(env, w1, i1, k) {
      AnswersShift(env, w, i, k);
    }
  }

  /** An answering trial `i` is the first, and accepting it wins. */
  lemma AcceptTrial(env: Env, w: World, r: RemoteUpdater, i: nat, n: nat, o: Out<(RemoteUpdater, bool)>)
    requires i < n <= |Trials| && Answers(env, w, i, i) && AcceptedAt(env, w, r, i, i, o)
    ensures !NoneAnswer(env, w, i, n) && FirstWins(env, w, r, i, n, o)
  {
  }

  /** connect from trial `i` on: a role whose keyring is missing is skipped,
      a status query that exits non-zero moves on, and the first one that
      succeeds is kept together with the decoded status.  False when none
      succeeds.  A status that does not decode raises. */
  function ConnectFrom(env: Env, w: World, r: RemoteUpdater, i: nat): (o: Out<(RemoteUpdater, bool)>)
    requires i <= |Trials|
    decreases |Trials| - i, 1
    ensures Extends(w, o.w) && o.w.files.Keys >= w.files.Keys && o.w.dirs == w.dirs
    ensures TrialsFrom(env, o.w.trace[|w.trace|..], i)
    ensures o.r.Ok? && !o.r.value.1 ==> o.r.value.0 == r
    ensures Connected(env, w, r, i, o)
    ensures o.r.Ok? ==> (o.r.value.1 <==> !NoneAnswer(env, w, i, |Trials|))
    ensures o.r.Err? ==> o.r.error.cls == Builtin
    ensures NoneAnswer(env, w, i, |Trials|) ==> o == Out(Reached(env, w, i, |Trials|), Ok((r, false)))
    ensures FirstWins(env, w, r, i, |Trials|, o)
  {
    if i == |Trials| then Out(w, Ok((r, false)))
    else if IdOf(env, i).path !in w.files then
      var o := ConnectFrom(env, w, r, i + 1);
      assert Connected(env, w, r, i + 1, o);
      SkipTrial(env, w, r, i, |Trials|, o);
      o
    else Attempt(env, w, r, i)
  }

  /** Trial `i`, whose keyring exists: its status query, then either the
      later trials or the identity kept. */
  function Attempt(env: Env, w: World, r: RemoteUpdater, i: nat): (o: Out<(RemoteUpdater, bool)>)
    requires i < |Trials| && IdOf(env, i).path in w.files
    decreases |Trials| - i, 0
    ensures Extends(w, o.w) && o.w.files.Keys >= w.files.Keys && o.w.dirs == w.dirs
    ensures TrialsFrom(env, o.w.trace[|w.trace|..], i)
    ensures o.r.Ok? && !o.r.value.1 ==> o.r.value.0 == r
    ensures Connected(env, w, r, i, o)
    ensures o.r.Ok? ==> (o.r.value.1 <==> !NoneAnswer(env, w, i, |Trials|))
    ensures o.r.Err? ==> o.r.error.cls == Builtin
    ensures NoneAnswer(env, w, i, |Trials|) ==> o == Out(Reached(env, w, i, |Trials|), Ok((r, false)))
    ensures FirstWins(env, w, r, i, |Trials|, o)
  {
    var id := IdOf(env, i);
    var (w1, reply) := Execute(env, w, StatusArgv(id));
    assert w1.trace[..|w.trace|] == w.trace;
    assert Reached(env, w, i, i) == w && w1 == Rejected(env, w, i);
    if reply.retcode != 0 then
      var o := ConnectFrom(env, w1, r, i + 1);
      Skipped(env, w, w1, o.w, i);
      assert Connected(env, w1, r, i + 1, o);
      SkipTrial(env, w, r, i, |Trials|, o);
      o
    else
      match env.json(Strip(reply.stdout))
      case None =>
        var o := Out(w1, Raise(Builtin, UndecodableStatus));
        AcceptTrial(env, w, r, i, |Trials|, o);
        o
      case Some(status) =>
        assert w1.trace[|w.trace|..] == [Ran(StatusArgv(id))];
        assert TrialsFrom(env, w1.trace[|w.trace|..][1..], i + 1);
        var o := Out(w1, Ok((RemoteUpdater(r.m.(clusterStatus := Some(status)), Some(id)), true)));
        AcceptTrial(env, w, r, i, |Trials|, o);
        o
  }

  /** A query of trial `i` followed by the later trials' events is a valid
      trial sequence from `i`. */
  lemma Skipped(env: Env, w: World, w1: World, after: World, i: nat)
    requires i < |Trials|
    requires w1.trace == w.trace + [Ran(StatusArgv(IdOf(env, i)))]
    requires Extends(w1, after)
    requires TrialsFrom(env, after.trace[|w1.trace|..], i + 1)
    ensures Extends(w, after)
    ensures TrialsFrom(env, after.trace[|w.trace|..], i)
  {
    var rest := after.trace[|w1.trace|..];
    assert after.trace[..|w.trace|] == after.trace[..|w1.trace|][..|w.trace|];
    assert after.trace[|w.trace|..] == [Ran(StatusArgv(IdOf(env, i)))] + rest;
    assert after.trace[|w.trace|..][1..] == rest;
  }

  /** connect as evidently intended: all five roles, admin first; True
      exactly when some role answers, and then the identity is the first
      role that answers. */
  function Connect(env: Env, w: World, r: RemoteUpdater): (o: Out<(RemoteUpdater, bool)>)
    ensures o.r.Ok? ==> (o.r.value.1 <==> exists j | 0 <= j < |Trials| :: Answers(env, w, 0, j))
    ensures o.r.Err? ==> o.r.error.cls == Builtin
    ensures (forall j | 0 <= j < |Trials| :: !Answers(env, w, 0, j)) ==> o == Out(Reached(env, w, 0, |Trials|), Ok((r, false)))
    ensures forall j | 0 <= j < |Trials| && FirstAnswer(env, w, 0, j) :: AcceptedAt(env, w, r, 0, j, o)
  {
    var o := ConnectFrom(env, w, r, 0);
    assert FirstWins(env, w, r, 0, |Trials|, o);
    o
  }

  /** The trial whose role is "mon". */
  const MonTrial: nat := 4

  /** connect as written from trial `i` on: each trial first selects its role
      on the keyring facade, and selecting "mon" raises TypeError (see
      `Keyring.SelectAsWritten`); otherwise as `ConnectFrom`. */
  function ConnectAsWrittenFrom(env: Env, w: World, r: RemoteUpdater, i: nat): (o: Out<(RemoteUpdater, bool)>)
    requires i <= MonTrial
    decreases MonTrial - i
    ensures o.r.Err? ==> o.r.error.cls == Builtin
    ensures o.r.Ok? ==> o.r.value.1
    ensures NoneAnswer(env, w, i, MonTrial) ==> o.w == Reached(env, w, i, MonTrial) && o.r.Err?
    ensures FirstWins(env, w, r, i, MonTrial, o)
  {
    var sel := Keyring.SelectAsWritten(env, Keyring.NoKeyrings, Some(Trials[i])).1;
    if sel.Err? then
      assert i == MonTrial;
      Out(w, Err(sel.error))
    else
      var id := IdOf(env, i);
      var (w1, reply) := Execute(env, w, StatusArgv(id));
      assert Reached(env, w, i, i) == w;
      if id.path !in w.files then
        var o := ConnectAsWrittenFrom(env, w, r, i + 1);
        SkipTrial(env, w, r, i, MonTrial, o);
        o
      else if reply.retcode != 0 then
        var o := ConnectAsWrittenFrom(env, w1, r, i + 1);
        SkipTrial(env, w, r, i, MonTrial, o);
        o
      else
        match env.json(Strip(reply.stdout))
        case None =>
          var o := Out(w1, Raise(Builtin, UndecodableStatus));
          AcceptTrial(env, w, r, i, MonTrial, o);
          o
        case Some(status) =>
          var o := Out(w1, Ok((RemoteUpdater(r.m.(clusterStatus := Some(status)), Some(id)), true)));
          AcceptTrial(env, w, r, i, MonTrial, o);
          o
  }

  /** connect as written: it never returns False, because reaching the
      "mon" trial raises. */
  function ConnectAsWritten(env: Env, w: World, r: RemoteUpdater): (o: Out<(RemoteUpdater, bool)>)
    ensures o.r.Ok? ==> o.r.value.1
    ensures o.r.Err? ==> o.r.error.cls == Builtin
    ensures (forall j | 0 <= j < MonTrial :: !Answers(env, w, 0, j)) ==> o.w == Reached(env, w, 0, MonTrial) && o.r.Err?
    ensures forall j | 0 <= j < MonTrial && FirstAnswer(env, w, 0, j) :: AcceptedAt(env, w, r, 0, j, o)
  {
    var o := ConnectAsWrittenFrom(env, w, r, 0);
    assert FirstWins(env, w, r, 0, MonTrial, o);
    o
  }

  /** The two connects agree whenever one of the first four roles
      answers. */
  lemma ConnectAsWrittenAgrees(env: Env, w: World, r: RemoteUpdater)
    requires exists j | 0 <= j < MonTrial :: Answers(env, w, 0, j)
    ensures ConnectAsWritten(env, w, r) == Connect(env, w, r)
  {
    var j := LeastAnswer(env, w, 0, MonTrial);
    SameAcceptance(env, w, r, 0, j, ConnectAsWritten(env, w, r), Connect(env, w, r));
  }

  /** Two outcomes that both accept the same trial are the same outcome. */
  lemma SameAcceptance(env: Env, w: World, r: RemoteUpdater, i: nat, j: nat, a: Out<(RemoteUpdater, bool)>, c: Out<(RemoteUpdater, bool)>)
    requires i <= j < |Trials|
    requires AcceptedAt(env, w, r, i, j, a) && AcceptedAt(env, w, r, i, j, c)
    ensures a == c
  {
  }

  /** When none of the first four roles answers, connect as written raises
      where the intended one returns False or settles on the monitor
      identity. */
  lemma ConnectAsWrittenDiffers(env: Env, w: World, r: RemoteUpdater)
    requires forall j | 0 <= j < MonTrial :: !Answers(env, w, 0, j)
    ensures ConnectAsWritten(env, w, r).r.Err?
    ensures var c := Connect(env, w, r);
      c.r.Ok? ==> !c.r.value.1 || c.r.value.0.id == Some(IdOf(env, MonTrial))
  {
    var c := Connect(env, w, r);
    if Answers(env, w, 0, MonTrial) {
      assert FirstAnswer(env, w, 0, MonTrial);
      AcceptedIdentity(env, w, r, 0, MonTrial, c);
    } else {
      assert NoneAnswer(env, w, 0, |Trials|);
    }
  }

  /** An outcome that accepts trial `j` and succeeds holds `j`'s identity. */
  lemma AcceptedIdentity(env: Env, w: World, r: RemoteUpdater, i: nat, j: nat, c: Out<(RemoteUpdater, bool)>)
    requires i <= j < |Trials| && AcceptedAt(env, w, r, i, j, c)
    ensures c.r.Ok? ==> c.r.value.1 && c.r.value.0.id == Some(IdOf(env, j))
  {
  }

  /** The first answering trial below `n`, when some trial there answers. */
  lemma LeastAnswer(env: Env, w: World, i: nat, n: nat) returns (j: nat)
    requires i <= n <= |Trials|
    requires exists k | i <= k < n :: Answers(env, w, i, k)
    ensures i <= j < n && FirstAnswer(env, w, i, j)
  {
    j := i;
    while !Answers(env, w, i, j)
      invariant i <= j < n
      invariant forall k | i <= k < j :: !Answers(env, w, i, k)
      decreases n - j
    {
      j := j + 1;
    }
  }

  /** With no keyring present at all, the intended connect issues no command
      and returns False, while connect as written raises TypeError, also
      without a command. */
  lemma ConnectWithoutKeyrings(env: Env, w: World, r: RemoteUpdater)
    requires forall j | 0 <= j < |Trials| :: IdOf(env, j).path !in w.files
    ensures Connect(env, w, r) == Out(w, Ok((r, false)))
    ensures ConnectAsWritten(env, w, r).w == w && ConnectAsWritten(env, w, r).r.Err?
    ensures ConnectAsWritten(env, w, r).r.error.cls == Builtin
  {
    assert IdOf(env, 0).path !in w.files && IdOf(env, 1).path !in w.files && IdOf(env, 2).path !in w.files;
    assert IdOf(env, 3).path !in w.files && IdOf(env, 4).path !in w.files;
  }

  /** An accepted admin keyring wins: one query, and the admin identity. */
  lemma ConnectPrefersAdmin(env: Env, w: World, r: RemoteUpdater)
    requires IdOf(env, 0).path in w.files
    requires env.run(w.trace, StatusArgv(IdOf(env, 0))).retcode == 0
    requires env.json(Strip(env.run(w.trace, StatusArgv(IdOf(env, 0))).stdout)).Some?
    ensures Connect(env, w, r).r.Ok? && Connect(env, w, r).r.value.1
    ensures Connect(env, w, r).r.value.0.id == Some(IdOf(env, 0))
    ensures Connect(env, w, r).w.trace == w.trace + [Ran(StatusArgv(IdOf(env, 0)))]
  {
  }

  /** status_refresh: the connection arguments (raising without an
      identity), the status query raising on a non-zero exit, and the decoded
      status stored. */
  function StatusRefresh(env: Env, w: World, r: RemoteUpdater): (o: Out<RemoteUpdater>)
    ensures r.id.None? ==> o.w == w && o.r.Err? && o.r.error.cls == RemoteError
    ensures r.id.Some? ==> o.w.trace == w.trace + [Ran(StatusArgv(r.id.value))]
    ensures r.id.Some? && env.run(w.trace, StatusArgv(r.id.value)).retcode != 0 ==> o.r.Err? && o.r.error.cls == RemoteError
    ensures o.r.Ok? ==> o.r.value.id == r.id && o.r.value.m == r.m.(clusterStatus := o.r.value.m.clusterStatus)
    ensures o.r.Ok? ==> o.r.value.m.clusterStatus == env.json(Strip(env.run(w.trace, StatusArgv(r.id.value)).stdout))
  {
    match ConnectionArgs(r)
    case Err(e) => Out(w, Err(e))
    case Ok(args) =>
      var argv := ["ceph"] + args + ["-f", "json-pretty", "status"];
      var c := ExecuteChecked(env, w, argv, RemoteError, "Failed executing ceph status");
      if c.r.Err? then Out(c.w, Err(c.r.error))
      else
        match env.json(Strip(c.r.value.stdout))
        case None => Out(c.w, Raise(Builtin, UndecodableStatus))
        case Some(status) => Out(c.w, Ok(r.(m := r.m.(clusterStatus := Some(status)))))
  }

  /** After a successful connect, status_refresh repeats exactly the query
      that succeeded. */
  lemma RefreshRepeatsConnect(env: Env, w: World, r: RemoteUpdater)
    requires Connect(env, w, r).r.Ok? && Connect(env, w, r).r.value.1
    ensures var c := Connect(env, w, r);
      StatusRefresh(env, c.w, c.r.value.0).w.trace == c.w.trace + [c.w.trace[|c.w.trace| - 1]]
  {
    var c := Connect(env, w, r);
    ConnectedLast(env, w, r, c);
    RefreshRepeatsLast(env, c.w, c.r.value.0);
  }

  /** A successful connect leaves the chosen identity's query last. */
  lemma ConnectedLast(env: Env, w: World, r: RemoteUpdater, c: Out<(RemoteUpdater, bool)>)
    requires Connected(env, w, r, 0, c) && c.r.Ok? && c.r.value.1
    ensures c.r.value.0.id.Some? && |c.w.trace| > 0 && c.w.trace[|c.w.trace| - 1] == Ran(StatusArgv(c.r.value.0.id.value))
  {
  }

  /** status_refresh repeats a last query made with the same identity. */
  lemma RefreshRepeatsLast(env: Env, w: World, r: RemoteUpdater)
    requires r.id.Some? && |w.trace| > 0 && w.trace[|w.trace| - 1] == Ran(StatusArgv(r.id.value))
    ensures StatusRefresh(env, w, r).w.trace == w.trace + [w.trace[|w.trace| - 1]]
  {
  }
}
