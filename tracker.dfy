/** The session store and the demand lifecycle: creation, completion by the
    assigned collaborator and confirmation by the leader, each logged. */
module Tracker {
  import opened Seqs
  import opened Domain
  import opened Queries

  /** Why an action is not offered. */
  datatype Error = UnknownDemand | NotAssignee | InvalidTransition | UnauthorizedActor

  datatype Outcome = Done | Rejected(reason: Error)

  /** A pending demand, once its collaborator marks it done. */
  function MarkCompleted(d: Demand, at: Time): (r: Demand)
    requires d.status == Pending
    ensures r.status == Completed && r.completedAt == Some(at)
    ensures r.(status := d.status, completedAt := d.completedAt) == d
    ensures WellFormed(d) ==> WellFormed(r)
  {
    d.(status := Completed, completedAt := Some(at))
  }

  /** A completed, unconfirmed demand, once the leader confirms it: only the flag changes. */
  function MarkConfirmed(d: Demand): (r: Demand)
    requires d.status == Completed && !d.leaderConfirmed
    ensures r.leaderConfirmed && r.status == Completed
    ensures r.(leaderConfirmed := false) == d
    ensures WellFormed(d) ==> WellFormed(r)
  {
    d.(leaderConfirmed := true)
  }

  /** Whether `actor` is offered "complete" for demand `id`: the demand must be in the
      actor's own list and still pending. */
  function CompleteGuard(ds: seq<Demand>, id: nat, actor: UserId): (r: Outcome)
    ensures r == Done <==> 1 <= id <= |ds| && ds[id - 1].collaboratorId == actor && ds[id - 1].status == Pending
    ensures r == Rejected(UnknownDemand) <==> !(1 <= id <= |ds|)
  {
    if !(1 <= id <= |ds|) then Rejected(UnknownDemand)
    else if ds[id - 1].collaboratorId != actor then Rejected(NotAssignee)
    else if ds[id - 1].status != Pending then Rejected(InvalidTransition)
    else Done
  }

  /** Whether `actor` is offered "confirm" for demand `id`: only the leader sees the list,
      and only completed, unconfirmed demands are on it. */
  function ConfirmGuard(ds: seq<Demand>, id: nat, actor: UserId): (r: Outcome)
    ensures r == Done <==> actor == Leader && 1 <= id <= |ds| && ds[id - 1].status == Completed && !ds[id - 1].leaderConfirmed
    ensures r == Rejected(UnauthorizedActor) <==> actor != Leader
  {
    if actor != Leader then Rejected(UnauthorizedActor)
    else if !(1 <= id <= |ds|) then Rejected(UnknownDemand)
    else if !(ds[id - 1].status == Completed && !ds[id - 1].leaderConfirmed) then Rejected(InvalidTransition)
    else Done
  }

  /** "Complete" is offered exactly for the demands that the actor's list shows as pending
      (with every priority and type selected). */
  lemma CompleteGuardMatchesView(ds: seq<Demand>, id: nat, actor: UserId)
    requires Sequential(ds)
    ensures CompleteGuard(ds, id, actor) == Done <==>
      exists d :: d in MyDemands(ds, actor, {Pending}, Priorities, set t | t in Types) && d.id == id
  {
    if CompleteGuard(ds, id, actor) == Done {
      AcceptedIsShown(ds, id, actor);
    }
    if exists d :: d in MyDemands(ds, actor, {Pending}, Priorities, set t | t in Types) && d.id == id {
      var d :| d in MyDemands(ds, actor, {Pending}, Priorities, set t | t in Types) && d.id == id;
      ShownIsAccepted(ds, d, actor);
    }
  }

  /** A demand the guard accepts is on the actor's pending list. */
  lemma AcceptedIsShown(ds: seq<Demand>, id: nat, actor: UserId)
    requires CompleteGuard(ds, id, actor) == Done
    ensures ds[id - 1] in MyDemands(ds, actor, {Pending}, Priorities, set t | t in Types)
  {
    PrioritiesTable();
    TypesTable();
    assert ds[id - 1].kind in set t | t in Types;
  }

  /** A demand on the actor's pending list is accepted under its own id. */
  lemma ShownIsAccepted(ds: seq<Demand>, d: Demand, actor: UserId)
    requires Sequential(ds)
    requires d in MyDemands(ds, actor, {Pending}, Priorities, set t | t in Types)
    ensures CompleteGuard(ds, d.id, actor) == Done
  {
    var i :| 0 <= i < |ds| && ds[i] == d;
    assert d.id == i + 1;
  }

  /** "Confirm" is offered exactly to the leader, for the demands on the awaiting list. */
  lemma ConfirmGuardMatchesView(ds: seq<Demand>, id: nat, actor: UserId)
    requires Sequential(ds)
    ensures ConfirmGuard(ds, id, actor) == Done <==>
      actor == Leader && exists d :: d in AwaitingConfirmation(ds) && d.id == id
  {
    if ConfirmGuard(ds, id, actor) == Done {
      assert ds[id - 1] in AwaitingConfirmation(ds);
    }
    if exists d :: d in AwaitingConfirmation(ds) && d.id == id {
      var d :| d in AwaitingConfirmation(ds) && d.id == id;
      var i :| 0 <= i < |ds| && ds[i] == d;
      assert i == id - 1;
    }
  }

  /** A confirmed demand leaves the awaiting list, so it cannot be confirmed again. */
  lemma ConfirmOnce(ds: seq<Demand>, id: nat)
    requires Sequential(ds)
    requires ConfirmGuard(ds, id, Leader) == Done
    ensures ConfirmGuard(ds[id - 1 := MarkConfirmed(ds[id - 1])], id, Leader) == Rejected(InvalidTransition)
    ensures forall d :: d in AwaitingConfirmation(ds[id - 1 := MarkConfirmed(ds[id - 1])]) ==> d.id != id
  {
    var ds' := ds[id - 1 := MarkConfirmed(ds[id - 1])];
    forall d | d in AwaitingConfirmation(ds')
      ensures d.id != id
    {
      var i :| 0 <= i < |ds'| && ds'[i] == d;
      assert d.id == i + 1;
    }
  }

  /** The session's two lists: the demands, updated in place, and the append-only activity log. */
  class Store {
    var demands: seq<Demand>
    var history: seq<LogEntry>

    ghost predicate Valid()
      reads this
    {
      && (forall i :: 0 <= i < |demands| ==> demands[i].id == i + 1 && WellFormed(demands[i]))
      && (forall k :: 0 <= k < |history| ==> Consistent(history[k]) && 1 <= history[k].demandId <= |demands|)
    }

    constructor ()
      ensures Valid()
      ensures demands == [] && history == []
    {
      demands := [];
      history := [];
    }

    /** Appends the snapshot of `d` to the log. */
    method Record(d: Demand, action: Action, actor: UserId, at: Time)
      modifies this
      ensures demands == old(demands)
      ensures history == old(history) + [Snapshot(d, action, actor, at)]
    {
      history := history + [Snapshot(d, action, actor, at)];
    }

    /** Creates a pending demand with the next id and logs its creation by the leader.
        `createdAt` and `loggedAt` are the two clock readings the operation takes. */
    method Create(title: string, description: string, kind: DemandType, collaborator: UserId,
                  priority: Priority, dueDate: Date, createdAt: Time, loggedAt: Time) returns (d: Demand)
      requires Valid()
      modifies this
      ensures Valid()
      ensures d == Demand(|old(demands)| + 1, title, description, kind, Pending, Leader, collaborator,
                          false, priority, createdAt, dueDate, None)
      ensures demands == old(demands) + [d]
      ensures history == old(history) + [Snapshot(d, Creation, Leader, loggedAt)]
      ensures history[|history| - 1].status == Pending && history[|history| - 1].user == Name(Leader)
    {
      d := Demand(|demands| + 1, title, description, kind, Pending, Leader, collaborator,
                  false, priority, createdAt, dueDate, None);
      demands := demands + [d];
      Record(d, Creation, Leader, loggedAt);
    }

    /** Marks demand `id` completed by `actor` and logs it, when the action is offered. */
    method Complete(id: nat, actor: UserId, completedAt: Time, loggedAt: Time) returns (outcome: Outcome)
      requires Valid()
      modifies this
      ensures Valid()
      ensures outcome == CompleteGuard(old(demands), id, actor)
      ensures outcome == Done ==>
        && demands == old(demands)[id - 1 := MarkCompleted(old(demands)[id - 1], completedAt)]
        && history == old(history) + [Snapshot(demands[id - 1], Conclusion, actor, loggedAt)]
        && history[|history| - 1].status == Completed
      ensures outcome != Done ==> demands == old(demands) && history == old(history)
    {
      outcome := CompleteGuard(demands, id, actor);
      if outcome == Done {
        var d := MarkCompleted(demands[id - 1], completedAt);
        demands := demands[id - 1 := d];
        Record(d, Conclusion, actor, loggedAt);
      }
    }

    /** Sets the leader's confirmation flag on demand `id` and logs it, when the action is
        offered. The status stays `Completed`. */
    method Confirm(id: nat, actor: UserId, loggedAt: Time) returns (outcome: Outcome)
      requires Valid()
      modifies this
      ensures Valid()
      ensures outcome == ConfirmGuard(old(demands), id, actor)
      ensures outcome == Done ==>
        && demands == old(demands)[id - 1 := MarkConfirmed(old(demands)[id - 1])]
        && history == old(history) + [Snapshot(demands[id - 1], Confirmation, Leader, loggedAt)]
        && demands[id - 1].status == Completed
      ensures outcome != Done ==> demands == old(demands) && history == old(history)
    {
      outcome := ConfirmGuard(demands, id, actor);
      if outcome == Done {
        var d := MarkConfirmed(demands[id - 1]);
        demands := demands[id - 1 := d];
        Record(d, Confirmation, Leader, loggedAt);
      }
    }
  }
}
