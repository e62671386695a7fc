/**
 * The `sandboxes` table: one row per sandbox ever created, keyed by the
 * provider's sandbox id. Rows are never deleted; only `diedAt` is ever written
 * after the insert.
 */
module SandboxStore {
  import opened Wrappers
  import P = SandboxProvider

  /** A row: who the sandbox was made for, its terminal URL, when it was inserted and when it was seen dead. */
  datatype Record = Record(owner: string, repo: string, url: string, createdAt: int, diedAt: Option<int>)

  /** The row's sandbox has been seen dead; it is terminal from then on. */
  predicate IsDead(r: Record)
  {
    r.diedAt.Some?
  }

  /** What the database throws when a row with the same id already exists; its own text is not modelled. */
  const DuplicateId: P.Thrown := P.Thrown(Some("duplicate key value violates unique constraint"))

  /**
   * `r'` is a later version of row `r`: the columns written at insert are
   * untouched, and a death once recorded is kept as it was.
   */
  predicate Settled(r: Record, r': Record)
  {
    && r'.owner == r.owner
    && r'.repo == r.repo
    && r'.url == r.url
    && r'.createdAt == r.createdAt
    && (IsDead(r) ==> r'.diedAt == r.diedAt)
  }

  /** `after` is a later state of the table than `before`: no row removed, and every row settled. */
  ghost predicate Extends(before: map<string, Record>, after: map<string, Record>)
  {
    forall id :: id in before ==> id in after && Settled(before[id], after[id])
  }

  /** Extends is a preorder, so it holds across any number of calls. */
  lemma ExtendsTransitive(a: map<string, Record>, b: map<string, Record>, c: map<string, Record>)
    requires Extends(a, b) && Extends(b, c)
    ensures Extends(a, c)
  {
  }

  class SandboxTable {
    var rows: map<string, Record>

    constructor ()
      ensures rows == map[]
    {
      rows := map[];
    }

    /** `findFirst` by primary key: the row with that id, if any. */
    method FindById(id: string) returns (r: Option<Record>)
      ensures r.Some? <==> id in rows
      ensures r.Some? ==> r.value == rows[id]
    {
      r := if id in rows then Some(rows[id]) else None;
    }

    /**
     * `insert` of a new row; `createdAt` is filled in by the table with the
     * time of insertion and `diedAt` starts null. An existing id is refused
     * and leaves the table as it was.
     */
    method Insert(id: string, owner: string, repo: string, url: string, now: int) returns (err: Option<P.Thrown>)
      modifies this
      ensures err.Some? <==> id in old(rows)
      ensures err.Some? ==> err.value == DuplicateId && rows == old(rows)
      ensures err.None? ==> rows == old(rows)[id := Record(owner, repo, url, now, None)]
      ensures Extends(old(rows), rows)
    {
      if id in rows {
        err := Some(DuplicateId);
      } else {
        rows := rows[id := Record(owner, repo, url, now, None)];
        err := None;
      }
    }

    /**
     * `update ... set diedAt = now where id = ...`: overwrites `diedAt` of the
     * row with that id, whatever it held; no row matches an unknown id.
     */
    method SetDiedAt(id: string, now: int)
      modifies this
      ensures id in old(rows) ==> rows == old(rows)[id := old(rows)[id].(diedAt := Some(now))]
      ensures id !in old(rows) ==> rows == old(rows)
    {
      if id in rows {
        rows := rows[id := rows[id].(diedAt := Some(now))];
      }
    }
  }
}
