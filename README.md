# Sandbox lifecycle router, modelled in Dafny

This project models the sandbox router of a web app. The app opens an
interactive terminal running an AI coding agent against a GitHub repository,
inside a remote sandbox provisioned on demand. The router has two procedures
over the `sandboxes` table, which holds one row per sandbox: id, owner, repo,
url, createdAt and a nullable diedAt.

- `create` provisions a sandbox from the repository's clone URL
  `https://github.com/{owner}/{repo}.git`. It runs three commands in the
  sandbox (download the terminal server, make it executable, launch it). It
  then resolves the public URL of port 7681 and inserts a row with a null
  `diedAt`. Any thrown error becomes one `INTERNAL_SERVER_ERROR` whose message
  starts with `Failed to create sandbox: `.
- `getStatus` reconciles the stored row with the provider:
  - no row gives `NOT_FOUND`;
  - a row with `diedAt` set gives `stopped` without asking the provider;
  - a sandbox the provider does not know gives `NOT_FOUND`;
  - `stopped`, `failed` or `stopping` writes `diedAt` and gives `stopped`;
  - `pending` or `running` gives that status, the port-7681 URL, a
    300000 ms lease and the row's `createdAt`.

Layout:

- `wrappers.dfy`: Option and Result.
- `sandbox_provider.dfy`: the provider's calls as values. Allocation, commands
  and the port-to-URL resolver may throw. The status lookup is a function from
  id to an optional status and resolver.
- `git_source.dfy`: the clone URL and its inverse parser.
- `sandbox_store.dfy`: the row type and the table as a class over a `map`.
  `Extends` is the relation every call keeps between the old and new table.
- `sandbox_router.dfy`: `CreateSpec` and `GetStatusSpec` give each procedure
  as a pure function of the table, the provider and the time. The methods
  `Create` and `GetStatus` run the same steps against a `SandboxTable` and are
  proved equal to them. The lemmas give each case of the procedures.
- `lifecycle.dfy`: histories of calls. A dead row is never changed again and
  is always reported stopped.

Two behaviours of the code are easy to misread, and the model keeps them as
written:

- Command results are awaited but their exit codes are never read. Only a
  thrown error stops `create` (`CreateIgnoresExitCodes`): a command that
  returns a failing exit code still leads to an inserted row.
- The update that records a death overwrites `diedAt` whatever it held
  (`SandboxTable.SetDiedAt`); it is not a set-if-null. `getStatus` only
  reaches it when the row it read had a null `diedAt`, so a recorded death is
  never overwritten by sequential calls.

## Model

| member | source | states |
|---|---|---|
| GitSource.GitUrl | src/server/api/routers/sandbox.ts:31 | only fixes the template: GitHub host prefix, path owner/repo, .git suffix; its meaning is given by ParseGitUrl, ParseGitUrlRoundTrip and GitUrlInjective |
| GitSource.ParseGitUrl | src/server/api/routers/sandbox.ts:31 | whatever the parser accepts is the clone URL of the owner and repo it returns, with a slash-free owner |
| GitSource.ParseGitUrlRoundTrip | src/server/api/routers/sandbox.ts:31 | the clone URL built from a slash-free owner and a repo parses back to that owner and repo |
| GitSource.GitUrlInjective | src/server/api/routers/sandbox.ts:31 | two repositories with slash-free owners never get the same clone URL |
| SandboxStore.SandboxTable.FindById | src/server/api/routers/sandbox.ts:137-139 | returns a row exactly when the id is a key of the table, and then that id's row |
| SandboxStore.SandboxTable.Insert | src/server/api/routers/sandbox.ts:85-90 | an existing id is refused with the table unchanged; a new id gets a row with the given owner, repo and url, createdAt equal to the insertion time and a null diedAt; no other row changes |
| SandboxStore.SandboxTable.SetDiedAt | src/server/api/routers/sandbox.ts:177-180 | sets diedAt of the row with that id to the time and changes nothing else; an unknown id changes nothing |
| SandboxRouter.CreateFailure | src/server/api/routers/sandbox.ts:96-117 | a thrown error becomes an INTERNAL_SERVER_ERROR whose message is the prefix followed by the error's message, or by "Unknown error" when it has none |
| SandboxRouter.FirstThrow | src/server/api/routers/sandbox.ts:45-79 | no error exactly when none of the three commands throws; otherwise the error of the first one that throws, in the order download, chmod, launch |
| SandboxRouter.CreateSpec | src/server/api/routers/sandbox.ts:13-119 | a failed create leaves the table unchanged; a successful one inserts exactly one row under a new id, with that owner, repo, the returned URL, the current time and a null diedAt; existing rows are never changed |
| SandboxRouter.Create | src/server/api/routers/sandbox.ts:13-119 | the step sequence run against the table gives the answer and new table of CreateSpec |
| SandboxRouter.CreateRequest | src/server/api/routers/sandbox.ts:28-40 | the allocation asks for the clone URL of owner and repo, 2 vCPUs, a 30-minute timeout and port 7681 only; for a slash-free owner the clone URL names exactly that owner and repo |
| SandboxRouter.CreateSucceedsIff | src/server/api/routers/sandbox.ts:20-95 | create succeeds if and only if the input is non-empty, allocation from the clone URL succeeds, no command throws, port 7681 has a URL and the id is new; when it succeeds it returns that id and URL |
| SandboxRouter.CreateFailureCarriesError | src/server/api/routers/sandbox.ts:96-117 | on valid input the error answered is built from what threw first: the allocation, then the first throwing command, then the port-7681 lookup, then the insert of a duplicate id |
| SandboxRouter.CreateFailureIsInternal | src/server/api/routers/sandbox.ts:96-117 | on valid input, every failure is an INTERNAL_SERVER_ERROR prefixed "Failed to create sandbox: " and leaves the table unchanged |
| SandboxRouter.CreateRejectsEmptyInput | src/server/api/routers/sandbox.ts:14-19 | an empty owner or repo is a BAD_REQUEST with the table unchanged, whatever the provider would do |
| SandboxRouter.CreateIgnoresExitCodes | src/server/api/routers/sandbox.ts:47-79 | changing the exit codes of commands that return changes neither the answer nor the table |
| SandboxRouter.IsTerminal | src/server/api/routers/sandbox.ts:171-175 | stopped, failed and stopping are terminal; a state is not terminal exactly when it is pending or running |
| SandboxRouter.Reported | src/server/api/routers/sandbox.ts:171-191 | a non-terminal provider state is reported as pending or running, pending exactly when the provider said pending, never stopped |
| SandboxRouter.GetStatusSpec | src/server/api/routers/sandbox.ts:135-196 | getStatus keeps every row's inserted columns and any recorded death, adds and removes no row, and writes only when it answers stopped |
| SandboxRouter.GetStatus | src/server/api/routers/sandbox.ts:135-196 | the reconciliation run against the table gives the answer and new table of GetStatusSpec |
| SandboxRouter.UnknownIdNotFound | src/server/api/routers/sandbox.ts:137-146 | an id with no row is NOT_FOUND "Sandbox record not found in database" for any provider, table unchanged |
| SandboxRouter.DeadRecordStopped | src/server/api/routers/sandbox.ts:148-155 | a row with diedAt set answers stopped with null url, duration and startedAt, for any provider, table unchanged |
| SandboxRouter.ProviderMissingNotFound | src/server/api/routers/sandbox.ts:157-169 | a live row unknown to the provider is NOT_FOUND "Sandbox not found", table unchanged |
| SandboxRouter.TerminalMarksDeath | src/server/api/routers/sandbox.ts:171-187 | a live row reported stopped, failed or stopping answers stopped; only its diedAt changes, to the current time; all other rows are unchanged |
| SandboxRouter.LiveSandboxReported | src/server/api/routers/sandbox.ts:190-195 | a live row reported pending or running answers that status, the provider's port-7681 URL, duration 300000 and the row's createdAt; table unchanged |
| SandboxRouter.StoppedIff | src/server/api/routers/sandbox.ts:141-188 | getStatus answers stopped if and only if the row exists and is already dead or the provider reports a terminal state |
| Lifecycle.Apply | src/server/api/routers/sandbox.ts:12-197 | every router call keeps the table's history relation: no row removed, inserted columns unchanged, deaths kept |
| Lifecycle.ReplayExtends | src/server/api/routers/sandbox.ts:85-180 | the same holds across any sequence of calls |
| Lifecycle.DeadStaysStopped | src/server/api/routers/sandbox.ts:148-155 | after any history, a dead row is unchanged and getStatus on it answers stopped and writes nothing, whatever the provider says |
| Lifecycle.DeathIsFinal | src/server/api/routers/sandbox.ts:148-187 | once a getStatus records a death, that time stays, and every later getStatus for the id answers stopped with a null URL, even if the provider no longer knows the sandbox |
| Lifecycle.CreateThenStatus | src/server/api/routers/sandbox.ts:85-195 | right after a successful create, getStatus on a pending or running sandbox answers the 300000 ms lease and the create's time as startedAt |

## Left out

- Provider SDK details: the command lines for curl, chmod and ttyd, the runtime
  image and the credentials are foreign calls. Each command is an opaque step
  that either throws or returns. The download and chmod return once they
  have exited, with an exit code nobody reads; the detached launch returns
  once it has started, before it has any exit code. The allocation request
  keeps the clone URL, 2 vCPUs, the 1800000 ms timeout and port 7681.
- Console logging in `create` is I/O. Probing the caught value's `stack`
  field only feeds the log, and its `response` field is read but never used. Only the message, or its absence, is
  modelled.
- The database's own text for a duplicate primary key is unknown. The model
  uses a fixed message (`SandboxStore.DuplicateId`). Other database failures
  during the insert are not modelled.
- Errors thrown inside `getStatus` by the table read, by the provider lookup,
  by resolving the port-7681 URL of a live sandbox, or by the update that
  records `diedAt` are not caught by the router and pass through the
  framework. A failed `diedAt` update would leave the row's `diedAt` null and
  answer an error instead of stopped. The model's lookup, its URL resolver
  and `SandboxTable.SetDiedAt` always succeed.
- Concurrent `getStatus` calls racing to write `diedAt` are not modelled.
  Calls are sequential.
- Time is an integer `now` given to each call. The wall clock and the `ms`
  conversions are replaced by the constants 300000 and 1800000.
- The table schema file is not part of this model. `createdAt` is taken to be
  the time of the insert, the column default.
- The countdown of remaining lease time runs in the client component, not in
  the router. The router only hands out the constant 300000.
- Input and output validation by the framework is kept only as the non-empty
  owner and repo check and the three-valued status.
- The GitHub metadata router, the pages and the search-param loader are
  network clients and UI code.
