/**
 * The sandbox router's two procedures over the `sandboxes` table and the
 * provider: `create` provisions a sandbox and records it, `getStatus`
 * reconciles the record with what the provider reports and records a death
 * the first time it is seen.
 */
module SandboxRouter {
  import opened Wrappers
  import opened GitSource
  import opened SandboxStore
  import P = SandboxProvider

  /** The lease handed to callers: 5 minutes in milliseconds. */
  const LeaseMs: int := 300000

  /** Status values the procedure may report. */
  datatype Status = Pending | Running | Stopped

  /** The output of `getStatus`; the last three fields are null for a stopped sandbox. */
  datatype StatusView = StatusView(status: Status, ttydUrl: Option<string>, duration: Option<int>, startedAt: Option<int>)

  const StoppedView: StatusView := StatusView(Stopped, None, None, None)

  /** The errors a caller sees: invalid input, a missing sandbox, or a failed creation. */
  datatype ApiError = BadRequest | NotFound(message: string) | InternalServerError(message: string)

  /** The output of `create`. */
  datatype Created = Created(id: string, ttydUrl: string)

  const RecordMissing: string := "Sandbox record not found in database"
  const SandboxMissing: string := "Sandbox not found"
  const FailurePrefix: string := "Failed to create sandbox: "
  const UnknownError: string := "Unknown error"

  // ---------------------------------------------------------------- create

  /**
   * The allocation `create` asks for: the repository's clone URL, which names
   * that repository back for a slash-free owner, 2 vCPUs, a 30-minute
   * timeout, and the terminal port as the only exposed port.
   */
  function CreateRequest(owner: string, repo: string): (req: P.SandboxRequest)
    ensures req.gitUrl == GitUrl(owner, repo)
    ensures '/' !in owner ==> ParseGitUrl(req.gitUrl) == Some((owner, repo))
    ensures req.vcpus == 2 && req.timeoutMs == 30 * 60 * 1000
    ensures req.ports == [7681]
  {
    assert '/' !in owner ==> ParseGitUrl(GitUrl(owner, repo)) == Some((owner, repo)) by {
      if '/' !in owner {
        ParseGitUrlRoundTrip(owner, repo);
      }
    }
    P.SandboxRequest(GitUrl(owner, repo), P.Vcpus, P.ProvisionTimeoutMs, [P.TtydPort])
  }

  /** The single error any thrown failure inside `create` turns into. */
  function CreateFailure(t: P.Thrown): (e: ApiError)
    ensures e.InternalServerError?
    ensures |FailurePrefix| <= |e.message| && e.message[..|FailurePrefix|] == FailurePrefix
    ensures t.message.Some? ==> e.message[|FailurePrefix|..] == t.message.value
    ensures t.message.None? ==> e.message[|FailurePrefix|..] == UnknownError
  {
    InternalServerError(FailurePrefix + (if t.message.Some? then t.message.value else UnknownError))
  }

  /**
   * What the three commands run inside sandbox `id`, in the order download,
   * chmod, launch, throw first; None when none of them throws. Exit codes play
   * no part.
   */
  function FirstThrow(p: P.Provider, id: string): (t: Option<P.Thrown>)
    ensures t.None? <==> forall s :: p.run(id, s).Success?
    ensures p.run(id, P.DownloadTtyd).Failure? ==> t == Some(p.run(id, P.DownloadTtyd).error)
    ensures p.run(id, P.DownloadTtyd).Success? && p.run(id, P.MakeExecutable).Failure? ==>
      t == Some(p.run(id, P.MakeExecutable).error)
    ensures (p.run(id, P.DownloadTtyd).Success? && p.run(id, P.MakeExecutable).Success?
             && p.run(id, P.LaunchTtyd).Failure?) ==> t == Some(p.run(id, P.LaunchTtyd).error)
  {
    match p.run(id, P.DownloadTtyd)
    case Failure(t) => Some(t)
    case Success(_) =>
      match p.run(id, P.MakeExecutable)
      case Failure(t) => Some(t)
      case Success(_) =>
        match p.run(id, P.LaunchTtyd)
        case Failure(t) => Some(t)
        case Success(_) =>
          assert forall s :: p.run(id, s).Success? by {
            forall s ensures p.run(id, s).Success? {
              assert s == P.DownloadTtyd || s == P.MakeExecutable || s == P.LaunchTtyd;
            }
          }
          None
  }

  /**
   * `create` on table `rows`, as a pure function: the answer and the table
   * afterwards. Input must be non-empty; then allocation, the three commands,
   * the URL of the terminal port and the insert are tried in turn, and the
   * first one that throws ends the call with that error.
   */
  function CreateSpec(rows: map<string, Record>, owner: string, repo: string, p: P.Provider, now: int)
    : (r: (Result<Created, ApiError>, map<string, Record>))
    ensures Extends(rows, r.1)
    ensures r.0.Failure? ==> r.1 == rows
    ensures r.0.Success? ==>
      && r.0.value.id !in rows
      && r.1 == rows[r.0.value.id := Record(owner, repo, r.0.value.ttydUrl, now, None)]
  {
    if |owner| == 0 || |repo| == 0 then (Failure(BadRequest), rows)
    else match p.allocate(CreateRequest(owner, repo))
      case Failure(t) => (Failure(CreateFailure(t)), rows)
      case Success(sbx) =>
        match FirstThrow(p, sbx.sandboxId)
        case Some(t) => (Failure(CreateFailure(t)), rows)
        case None =>
          match sbx.domain(P.TtydPort)
          case Failure(t) => (Failure(CreateFailure(t)), rows)
          case Success(url) =>
            if sbx.sandboxId in rows then (Failure(CreateFailure(DuplicateId)), rows)
            else (Success(Created(sbx.sandboxId, url)), rows[sbx.sandboxId := Record(owner, repo, url, now, None)])
  }

  /** The `create` procedure against the table `db`. */
  method Create(db: SandboxTable, owner: string, repo: string, p: P.Provider, now: int)
    returns (r: Result<Created, ApiError>)
    modifies db
    ensures (r, db.rows) == CreateSpec(old(db.rows), owner, repo, p, now)
  {
    if |owner| == 0 || |repo| == 0 {
      return Failure(BadRequest);
    }
    var allocation := p.allocate(CreateRequest(owner, repo));
    if allocation.Failure? {
      return Failure(CreateFailure(allocation.error));
    }
    var sbx := allocation.value;
    var sandboxId := sbx.sandboxId;
    // Each command is awaited; only a thrown error stops the sequence.
    var download := p.run(sandboxId, P.DownloadTtyd);
    if download.Failure? {
      return Failure(CreateFailure(download.error));
    }
    var chmod := p.run(sandboxId, P.MakeExecutable);
    if chmod.Failure? {
      return Failure(CreateFailure(chmod.error));
    }
    var launch := p.run(sandboxId, P.LaunchTtyd);
    if launch.Failure? {
      return Failure(CreateFailure(launch.error));
    }
    var ttydUrl := sbx.domain(P.TtydPort);
    if ttydUrl.Failure? {
      return Failure(CreateFailure(ttydUrl.error));
    }
    var err := db.Insert(sandboxId, owner, repo, ttydUrl.value, now);
    if err.Some? {
      return Failure(CreateFailure(err.value));
    }
    return Success(Created(sandboxId, ttydUrl.value));
  }

  /**
   * `create` succeeds exactly when the input is non-empty, allocation from the
   * repository's clone URL succeeds, no command throws, the terminal port has a
   * URL and the sandbox id is new; it then answers that id and URL.
   */
  lemma CreateSucceedsIff(rows: map<string, Record>, owner: string, repo: string, p: P.Provider, now: int)
    ensures var r := CreateSpec(rows, owner, repo, p, now).0;
      r.Success? <==>
        && |owner| > 0 && |repo| > 0
        && p.allocate(CreateRequest(owner, repo)).Success?
        && var sbx := p.allocate(CreateRequest(owner, repo)).value;
        && (forall s :: p.run(sbx.sandboxId, s).Success?)
        && sbx.domain(P.TtydPort).Success?
        && sbx.sandboxId !in rows
    ensures var r := CreateSpec(rows, owner, repo, p, now).0;
      r.Success? ==>
        var sbx := p.allocate(CreateRequest(owner, repo)).value;
        r == Success(Created(sbx.sandboxId, sbx.domain(P.TtydPort).value))
  {
  }

  /**
   * The error `create` answers carries the message of what threw first:
   * the allocation, then the commands in order, then the URL lookup, then
   * the insert of a duplicate id.
   */
  lemma CreateFailureCarriesError(rows: map<string, Record>, owner: string, repo: string, p: P.Provider, now: int)
    requires |owner| > 0 && |repo| > 0
    ensures var r := CreateSpec(rows, owner, repo, p, now).0;
      var alloc := p.allocate(CreateRequest(owner, repo));
      && (alloc.Failure? ==> r == Failure(CreateFailure(alloc.error)))
      && (alloc.Success? ==>
            var sbx := alloc.value;
            && (FirstThrow(p, sbx.sandboxId).Some? ==> r == Failure(CreateFailure(FirstThrow(p, sbx.sandboxId).value)))
            && (FirstThrow(p, sbx.sandboxId).None? && sbx.domain(P.TtydPort).Failure? ==>
                  r == Failure(CreateFailure(sbx.domain(P.TtydPort).error)))
            && (FirstThrow(p, sbx.sandboxId).None? && sbx.domain(P.TtydPort).Success? && sbx.sandboxId in rows ==>
                  r == Failure(CreateFailure(DuplicateId))))
  {
  }

  /**
   * A `create` that fails on valid input answers one internal error whose
   * message carries the prefix, and leaves the table as it was.
   */
  lemma CreateFailureIsInternal(rows: map<string, Record>, owner: string, repo: string, p: P.Provider, now: int)
    requires |owner| > 0 && |repo| > 0
    requires CreateSpec(rows, owner, repo, p, now).0.Failure?
    ensures var (r, rows') := CreateSpec(rows, owner, repo, p, now);
      && r.error.InternalServerError?
      && r.error.message[..|FailurePrefix|] == FailurePrefix
      && rows' == rows
  {
  }

  /** `create` on empty owner or repository is refused before the provider is asked. */
  lemma CreateRejectsEmptyInput(rows: map<string, Record>, owner: string, repo: string, p: P.Provider, now: int)
    requires |owner| == 0 || |repo| == 0
    ensures CreateSpec(rows, owner, repo, p, now) == (Failure(BadRequest), rows)
  {
  }

  /**
   * Command exit codes are never inspected: a provider whose commands report
   * other exit codes yields the same answer and the same table.
   */
  lemma CreateIgnoresExitCodes(rows: map<string, Record>, owner: string, repo: string, p: P.Provider,
                               codes: (string, P.Step) -> int, now: int)
    ensures CreateSpec(rows, owner, repo, P.WithExitCodes(p, codes), now) == CreateSpec(rows, owner, repo, p, now)
  {
  }

  // ------------------------------------------------------------- getStatus

  /**
   * Provider states that mean the sandbox is gone for good; the others,
   * pending and running, are exactly those `getStatus` can report as is.
   */
  predicate IsTerminal(s: P.LiveStatus): (b: bool)
    ensures !b <==> (s == P.Pending || s == P.Running)
  {
    s == P.Stopped || s == P.Failed || s == P.Stopping
  }

  /** A non-terminal provider state, reported as is. */
  function Reported(s: P.LiveStatus): (r: Status)
    requires !IsTerminal(s)
    ensures r != Stopped
    ensures (r == Pending) <==> (s == P.Pending)
  {
    if s == P.Pending then Pending else Running
  }

  /**
   * `getStatus` on table `rows`, as a pure function of the table, the
   * provider's lookup of a sandbox by id and the time: the answer and the
   * table afterwards.
   */
  function GetStatusSpec(rows: map<string, Record>, id: string, lookup: string -> Option<P.LiveInfo>, now: int)
    : (r: (Result<StatusView, ApiError>, map<string, Record>))
    ensures Extends(rows, r.1)
    ensures r.1.Keys == rows.Keys
    ensures r.1 != rows ==> r.0 == Success(StoppedView)
  {
    if id !in rows then (Failure(NotFound(RecordMissing)), rows)
    else if IsDead(rows[id]) then (Success(StoppedView), rows)
    else match lookup(id)
      case None => (Failure(NotFound(SandboxMissing)), rows)
      case Some(info) =>
        if IsTerminal(info.status) then
          (Success(StoppedView), rows[id := rows[id].(diedAt := Some(now))])
        else
          (Success(StatusView(Reported(info.status), Some(info.domain(P.TtydPort)), Some(LeaseMs), Some(rows[id].createdAt))), rows)
  }

  /** The `getStatus` procedure against the table `db`. */
  method GetStatus(db: SandboxTable, id: string, lookup: string -> Option<P.LiveInfo>, now: int)
    returns (r: Result<StatusView, ApiError>)
    modifies db
    ensures (r, db.rows) == GetStatusSpec(old(db.rows), id, lookup, now)
  {
    var record := db.FindById(id);
    if record.None? {
      return Failure(NotFound(RecordMissing));
    }
    if record.value.diedAt.Some? {
      return Success(StoppedView);
    }
    var info := lookup(id);
    if info.None? {
      return Failure(NotFound(SandboxMissing));
    }
    if IsTerminal(info.value.status) {
      db.SetDiedAt(id, now);
      return Success(StoppedView);
    }
    return Success(StatusView(Reported(info.value.status), Some(info.value.domain(P.TtydPort)), Some(LeaseMs),
                              Some(record.value.createdAt)));
  }

  /** An id with no row is NOT_FOUND, whatever the provider would say, and nothing is written. */
  lemma UnknownIdNotFound(rows: map<string, Record>, id: string, lookup: string -> Option<P.LiveInfo>, now: int)
    requires id !in rows
    ensures GetStatusSpec(rows, id, lookup, now) == (Failure(NotFound(RecordMissing)), rows)
  {
  }

  /** A dead row is reported stopped, whatever the provider would say, and nothing is written. */
  lemma DeadRecordStopped(rows: map<string, Record>, id: string, lookup: string -> Option<P.LiveInfo>, now: int)
    requires id in rows && IsDead(rows[id])
    ensures GetStatusSpec(rows, id, lookup, now) == (Success(StoppedView), rows)
  {
  }

  /** A live row the provider does not know is NOT_FOUND, and nothing is written. */
  lemma ProviderMissingNotFound(rows: map<string, Record>, id: string, lookup: string -> Option<P.LiveInfo>, now: int)
    requires id in rows && !IsDead(rows[id]) && lookup(id).None?
    ensures GetStatusSpec(rows, id, lookup, now) == (Failure(NotFound(SandboxMissing)), rows)
  {
  }

  /**
   * A live row whose sandbox the provider reports stopped, failed or stopping
   * is reported stopped; its `diedAt` becomes `now` and nothing else changes.
   */
  lemma TerminalMarksDeath(rows: map<string, Record>, id: string, lookup: string -> Option<P.LiveInfo>, now: int)
    requires id in rows && !IsDead(rows[id])
    requires lookup(id).Some? && IsTerminal(lookup(id).value.status)
    ensures var (r, rows') := GetStatusSpec(rows, id, lookup, now);
      && r == Success(StoppedView)
      && rows'.Keys == rows.Keys
      && rows'[id] == Record(rows[id].owner, rows[id].repo, rows[id].url, rows[id].createdAt, Some(now))
      && (forall k :: k in rows && k != id ==> rows'[k] == rows[k])
  {
  }

  /**
   * A live row whose sandbox is pending or running gets that status, the
   * provider's URL of the terminal port, the 5-minute lease and the row's
   * creation time; nothing is written.
   */
  lemma LiveSandboxReported(rows: map<string, Record>, id: string, lookup: string -> Option<P.LiveInfo>, now: int)
    requires id in rows && !IsDead(rows[id])
    requires lookup(id).Some? && (lookup(id).value.status == P.Pending || lookup(id).value.status == P.Running)
    ensures var info := lookup(id).value;
      GetStatusSpec(rows, id, lookup, now) ==
        (Success(StatusView(if info.status == P.Pending then Pending else Running,
                            Some(info.domain(P.TtydPort)), Some(300000), Some(rows[id].createdAt))), rows)
  {
  }

  /**
   * `getStatus` reports stopped exactly when the row exists and is either
   * already dead or reported terminal by the provider.
   */
  lemma StoppedIff(rows: map<string, Record>, id: string, lookup: string -> Option<P.LiveInfo>, now: int)
    ensures GetStatusSpec(rows, id, lookup, now).0 == Success(StoppedView) <==>
      id in rows && (IsDead(rows[id]) || (lookup(id).Some? && IsTerminal(lookup(id).value.status)))
  {
  }
}
