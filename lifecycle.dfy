/**
 * Histories of router calls against one table. A sandbox's row, once it
 * records a death, is never touched again, and every later `getStatus` for it
 * reports stopped whatever the provider says.
 */
module Lifecycle {
  import opened Wrappers
  import opened SandboxStore
  import opened SandboxRouter
  import P = SandboxProvider

  /** One call to the router, with the provider and time it runs against. */
  datatype Call =
    | CreateCall(owner: string, repo: string, provider: P.Provider, now: int)
    | StatusCall(id: string, lookup: string -> Option<P.LiveInfo>, now: int)

  /** The table after one call. */
  function Apply(rows: map<string, Record>, c: Call): (rows': map<string, Record>)
    ensures Extends(rows, rows')
  {
    match c
    case CreateCall(owner, repo, provider, now) => CreateSpec(rows, owner, repo, provider, now).1
    case StatusCall(id, lookup, now) => GetStatusSpec(rows, id, lookup, now).1
  }

  /** The table after a sequence of calls, made one after the other. */
  function Replay(rows: map<string, Record>, calls: seq<Call>): (rows': map<string, Record>)
    decreases |calls|
  {
    if calls == [] then rows else Replay(Apply(rows, calls[0]), calls[1..])
  }

  /** Rows are never removed, their inserted columns never change, and a death is never undone. */
  lemma {:induction false} ReplayExtends(rows: map<string, Record>, calls: seq<Call>)
    ensures Extends(rows, Replay(rows, calls))
    decreases |calls|
  {
    if calls != [] {
      var next := Apply(rows, calls[0]);
      ReplayExtends(next, calls[1..]);
      ExtendsTransitive(rows, next, Replay(next, calls[1..]));
    }
  }

  /**
   * Terminal-record invariant: after any history, a row that was dead is
   * unchanged, and `getStatus` on it reports stopped, writes nothing, and
   * does so for any provider answer and any time.
   */
  lemma {:induction false} DeadStaysStopped(rows: map<string, Record>, id: string, calls: seq<Call>,
                                            lookup: string -> Option<P.LiveInfo>, now: int)
    requires id in rows && IsDead(rows[id])
    ensures var later := Replay(rows, calls);
      && id in later && later[id] == rows[id]
      && GetStatusSpec(later, id, lookup, now) == (Success(StoppedView), later)
    decreases |calls|
  {
    if calls != [] {
      DeadStaysStopped(Apply(rows, calls[0]), id, calls[1..], lookup, now);
    }
  }

  /**
   * The call that first sees a terminal provider state records `now` as the
   * death time; every later `getStatus` for that id, after any history,
   * reports stopped with no URL, even when the provider no longer knows it.
   */
  lemma DeathIsFinal(rows: map<string, Record>, id: string, seen: string -> Option<P.LiveInfo>, diedAt: int,
                     calls: seq<Call>, lookup: string -> Option<P.LiveInfo>, now: int)
    requires id in rows && !IsDead(rows[id])
    requires seen(id).Some? && IsTerminal(seen(id).value.status)
    ensures var marked := GetStatusSpec(rows, id, seen, diedAt).1;
      var later := Replay(marked, calls);
      && id in later && later[id].diedAt == Some(diedAt)
      && GetStatusSpec(later, id, lookup, now).0 == Success(StoppedView)
  {
    var marked := GetStatusSpec(rows, id, seen, diedAt).1;
    TerminalMarksDeath(rows, id, seen, diedAt);
    DeadStaysStopped(marked, id, calls, lookup, now);
  }

  /**
   * Right after a successful `create`, a `getStatus` while the provider
   * reports the sandbox pending or running answers that status, the
   * provider's URL of the terminal port, the 5-minute lease and the time of
   * the `create` as start.
   */
  lemma CreateThenStatus(rows: map<string, Record>, owner: string, repo: string, provider: P.Provider, created: int,
                         lookup: string -> Option<P.LiveInfo>, now: int)
    requires CreateSpec(rows, owner, repo, provider, created).0.Success?
    requires var id := CreateSpec(rows, owner, repo, provider, created).0.value.id;
      lookup(id).Some? && !IsTerminal(lookup(id).value.status)
    ensures var (r, rows') := CreateSpec(rows, owner, repo, provider, created);
      var info := lookup(r.value.id).value;
      GetStatusSpec(rows', r.value.id, lookup, now) ==
        (Success(StatusView(Reported(info.status), Some(info.domain(P.TtydPort)), Some(LeaseMs), Some(created))), rows')
  {
  }
}
