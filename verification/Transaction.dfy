/**
 * `withTransaction`: one connection, BEGIN, the work, COMMIT; ROLLBACK after any failure; and the
 * connection handed back exactly once.
 */
module Transaction {
  import opened Basics

  /** How one query ends.  `Lost`: the server ran it, but its answer never arrived. */
  datatype Reply<E> = Done | Refused(error: E) | Lost(error: E)

  datatype Query = Begin | Work | Commit | Rollback

  /** What the work does to the data it sees, and whether it returns or throws. */
  datatype Worked<T, R, E> = Worked(data: T, outcome: Result<R, E>)

  /** A pooled connection and the database behind it. */
  class Connection<T> {
    var committed: T
    /** The open transaction's uncommitted data, while there is one. */
    var open: Option<T>
    var sent: seq<Query>
    /** One element per hand-back: was it handed back with an error, to be destroyed? */
    var releases: seq<bool>

    constructor (data: T)
      ensures committed == data && open == None && sent == [] && releases == []
    {
      committed, open, sent, releases := data, None, [], [];
    }

    method SendBegin<E>(reply: Reply<E>)
      requires open == None
      modifies this`open, this`sent
      ensures sent == old(sent) + [Begin]
      ensures open == if reply.Refused? then None else Some(committed)
    {
      sent := sent + [Begin];
      if !reply.Refused? { open := Some(committed); }
    }

    method RunWork<R, E>(work: T -> Worked<T, R, E>) returns (outcome: Result<R, E>)
      requires open.Some?
      modifies this`open, this`sent
      ensures sent == old(sent) + [Work]
      ensures open == Some(work(old(open).value).data) && outcome == work(old(open).value).outcome
    {
      sent := sent + [Work];
      var worked := work(open.value);
      open := Some(worked.data);
      outcome := worked.outcome;
    }

    /** A refused COMMIT leaves the transaction open or ends it, as the server pleases. */
    method SendCommit<E>(reply: Reply<E>, ended: bool)
      requires open.Some?
      modifies this`committed, this`open, this`sent
      ensures sent == old(sent) + [Commit]
      ensures committed == if reply.Refused? then old(committed) else old(open).value
      ensures open == if reply.Refused? && !ended then old(open) else None
    {
      sent := sent + [Commit];
      if !reply.Refused? {
        committed := open.value;
        open := None;
      } else if ended {
        open := None;
      }
    }

    method SendRollback<E>(reply: Reply<E>)
      modifies this`open, this`sent
      ensures sent == old(sent) + [Rollback]
      ensures open == if reply.Refused? then old(open) else None
    {
      sent := sent + [Rollback];
      if !reply.Refused? { open := None; }
    }

    /**
     * Runs `work`.  The first failure is the one thrown, whatever becomes of the ROLLBACK; data
     * changes only by the whole work, and only if BEGIN and the work succeeded and COMMIT was not
     * refused; and a connection handed back for reuse has no transaction open.
     */
    method WithTransaction<R, E>(begin: Reply<E>, work: T -> Worked<T, R, E>, commit: Reply<E>, ended: bool,
                                 rollback: Reply<E>)
      returns (result: Result<R, E>)
      requires open == None
      modifies this
      ensures result ==
        if !begin.Done? then Err(begin.error)
        else if work(old(committed)).outcome.Err? then Err(work(old(committed)).outcome.error)
        else if !commit.Done? then Err(commit.error)
        else Ok(work(old(committed)).outcome.value)
      ensures committed ==
        if begin.Done? && work(old(committed)).outcome.Ok? && !commit.Refused?
        then work(old(committed)).data else old(committed)
      ensures result.Ok? ==> committed == work(old(committed)).data
      ensures releases == old(releases) + [result.Err? && !rollback.Done?]
      ensures !releases[|old(releases)|] ==> open == None
      ensures sent == old(sent) + [Begin] + (if begin.Done? then [Work] else [])
        + (if begin.Done? && work(old(committed)).outcome.Ok? then [Commit] else [])
        + (if result.Err? then [Rollback] else [])
    {
      var broken := false;
      SendBegin(begin);
      if begin.Done? {
        result := RunWork(work);
        if result.Ok? {
          SendCommit(commit, ended);
          if !commit.Done? { result := Err(commit.error); }
        }
      } else {
        result := Err(begin.error);
      }
      if result.Err? {
        SendRollback(rollback);
        broken := !rollback.Done?;
      }
      releases := releases + [broken];
    }
  }
}
