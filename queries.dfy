/** The views the tracker shows: a collaborator's own demands, the demands
    awaiting the leader's confirmation, the activity history and the
    dashboard's demand selection. All are conjunctive filters over the store. */
module Queries {
  import opened Seqs
  import opened Domain

  /** The "my demands" list: the demands assigned to `user`, narrowed by the status,
      priority and type selections. */
  function MyDemands(ds: seq<Demand>, user: UserId, statuses: set<Status>,
                     priorities: set<Priority>, kinds: set<DemandType>): (r: seq<Demand>)
    ensures forall d :: d in r <==>
      && d in ds
      && d.collaboratorId == user
      && d.status in statuses
      && d.priority in priorities
      && d.kind in kinds
    ensures forall d :: multiset(r)[d] ==
                        if d.collaboratorId == user && d.status in statuses && d.priority in priorities && d.kind in kinds
                        then multiset(ds)[d] else 0
  {
    var mine := Filter(ds, (d: Demand) => d.collaboratorId == user);
    var shown := (d: Demand) => d.status in statuses && d.priority in priorities && d.kind in kinds;
    FilterMultiplicity(ds, (d: Demand) => d.collaboratorId == user);
    FilterMultiplicity(mine, shown);
    Filter(mine, shown)
  }

  /** The view keeps the store's order. */
  lemma MyDemandsKeepsOrder(ds: seq<Demand>, user: UserId, statuses: set<Status>,
                            priorities: set<Priority>, kinds: set<DemandType>)
    ensures Subsequence(MyDemands(ds, user, statuses, priorities, kinds), ds)
  {
    var mine := Filter(ds, (d: Demand) => d.collaboratorId == user);
    SubsequenceTrans(MyDemands(ds, user, statuses, priorities, kinds), mine, ds);
  }

  /** The list the leader confirms from: completed demands not yet confirmed. */
  function AwaitingConfirmation(ds: seq<Demand>): (r: seq<Demand>)
    ensures Subsequence(r, ds)
    ensures forall d :: d in r <==> d in ds && d.status == Completed && !d.leaderConfirmed
    ensures forall d :: multiset(r)[d] == if d.status == Completed && !d.leaderConfirmed then multiset(ds)[d] else 0
  {
    FilterMultiplicity(ds, (d: Demand) => d.status == Completed && !d.leaderConfirmed);
    Filter(ds, (d: Demand) => d.status == Completed && !d.leaderConfirmed)
  }

  /** The history, narrowed by the user-name and type selections; "Todos" skips a filter. */
  function HistoryFilter(log: seq<LogEntry>, users: set<Choice<string>>, kinds: set<Choice<DemandType>>): (r: seq<LogEntry>)
    ensures forall e :: e in r <==> e in log && Admits(users, e.user) && Admits(kinds, e.demandType)
    ensures forall e :: multiset(r)[e] == if Admits(users, e.user) && Admits(kinds, e.demandType) then multiset(log)[e] else 0
    ensures All in users && All in kinds ==> r == log
  {
    var byUser := if All in users then log else Filter(log, (e: LogEntry) => Only(e.user) in users);
    FilterMultiplicity(log, (e: LogEntry) => Only(e.user) in users);
    FilterMultiplicity(byUser, (e: LogEntry) => Only(e.demandType) in kinds);
    if All in kinds then byUser else Filter(byUser, (e: LogEntry) => Only(e.demandType) in kinds)
  }

  lemma HistoryFilterKeepsOrder(log: seq<LogEntry>, users: set<Choice<string>>, kinds: set<Choice<DemandType>>)
    ensures Subsequence(HistoryFilter(log, users, kinds), log)
  {
    var byUser := if All in users then log else Filter(log, (e: LogEntry) => Only(e.user) in users);
    if All in users {
      SubsequenceRefl(log);
    }
    if All in kinds {
      assert HistoryFilter(log, users, kinds) == byUser;
    } else {
      SubsequenceTrans(HistoryFilter(log, users, kinds), byUser, log);
    }
  }

  /** The history as listed: the filtered entries, most recent first. */
  function HistoryListing(log: seq<LogEntry>, users: set<Choice<string>>, kinds: set<Choice<DemandType>>): (r: seq<LogEntry>)
    ensures SortedDesc(r, LoggedAt)
    ensures multiset(r) == multiset(HistoryFilter(log, users, kinds))
  {
    SortDesc(HistoryFilter(log, users, kinds), LoggedAt)
  }

  /** Entries logged at the same instant are listed in the order they were logged. */
  lemma HistoryListingStable(log: seq<LogEntry>, users: set<Choice<string>>, kinds: set<Choice<DemandType>>, t: Time)
    ensures WithKey(HistoryListing(log, users, kinds), LoggedAt, t) == WithKey(HistoryFilter(log, users, kinds), LoggedAt, t)
  {
    SortDescStable(HistoryFilter(log, users, kinds), LoggedAt, t);
  }

  /** An inclusive range of days. */
  datatype Period = Period(first: Date, last: Date)

  /** Whether a creation day passes the period filter; no period means no date filter. */
  predicate InPeriod(period: Option<Period>, day: Date): (b: bool)
    ensures period.None? ==> b
    ensures period.Some? && period.value.first > period.value.last ==> !b
    ensures period.Some? && period.value.first == period.value.last ==> (b <==> day == period.value.first)
  {
    period.None? || period.value.first <= day <= period.value.last
  }

  /** On clock readings, a period runs from the start of its first day to the end of its last. */
  lemma InPeriodReadings(p: Period, t: Time)
    ensures InPeriod(Some(p), DateOf(t)) <==> p.first * MicrosPerDay <= t < (p.last + 1) * MicrosPerDay
  {
    var d := DateOf(t);
    if d < p.first {
      assert (d + 1) * MicrosPerDay <= p.first * MicrosPerDay;
    }
    if d > p.last {
      assert (p.last + 1) * MicrosPerDay <= d * MicrosPerDay;
    }
    if p.first <= d <= p.last {
      assert p.first * MicrosPerDay <= d * MicrosPerDay;
      assert (d + 1) * MicrosPerDay <= (p.last + 1) * MicrosPerDay;
    }
  }

  /** The dashboard's selection: collaborator names, types and the creation-day period. */
  function DashboardFilter(ds: seq<Demand>, users: set<Choice<string>>, kinds: set<Choice<DemandType>>,
                           period: Option<Period>): (r: seq<Demand>)
    ensures forall d :: d in r <==>
      && d in ds
      && Admits(users, Name(d.collaboratorId))
      && Admits(kinds, d.kind)
      && InPeriod(period, CreationDay(d))
  {
    var byUser := if All in users then ds else Filter(ds, (d: Demand) => Only(Name(d.collaboratorId)) in users);
    var byKind := if All in kinds then byUser else Filter(byUser, (d: Demand) => Only(d.kind) in kinds);
    if period.None? then byKind
    else Filter(byKind, (d: Demand) => period.value.first <= CreationDay(d) <= period.value.last)
  }

  /** The selection keeps every copy of a selected demand. */
  lemma DashboardFilterMultiplicity(ds: seq<Demand>, users: set<Choice<string>>, kinds: set<Choice<DemandType>>,
                                    period: Option<Period>)
    ensures forall d :: multiset(DashboardFilter(ds, users, kinds, period))[d] ==
                        if Admits(users, Name(d.collaboratorId)) && Admits(kinds, d.kind) && InPeriod(period, CreationDay(d))
                        then multiset(ds)[d] else 0
  {
    var byUser := if All in users then ds else Filter(ds, (d: Demand) => Only(Name(d.collaboratorId)) in users);
    var byKind := if All in kinds then byUser else Filter(byUser, (d: Demand) => Only(d.kind) in kinds);
    FilterMultiplicity(ds, (d: Demand) => Only(Name(d.collaboratorId)) in users);
    FilterMultiplicity(byUser, (d: Demand) => Only(d.kind) in kinds);
    if period.Some? {
      FilterMultiplicity(byKind, (d: Demand) => period.value.first <= CreationDay(d) <= period.value.last);
    }
  }

  lemma DashboardFilterKeepsOrder(ds: seq<Demand>, users: set<Choice<string>>, kinds: set<Choice<DemandType>>,
                                  period: Option<Period>)
    ensures Subsequence(DashboardFilter(ds, users, kinds, period), ds)
  {
    var byUser := if All in users then ds else Filter(ds, (d: Demand) => Only(Name(d.collaboratorId)) in users);
    var byKind := if All in kinds then byUser else Filter(byUser, (d: Demand) => Only(d.kind) in kinds);
    if All in users {
      SubsequenceRefl(ds);
    }
    if All in kinds {
      SubsequenceRefl(byUser);
    }
    SubsequenceTrans(byKind, byUser, ds);
    if period.None? {
      assert DashboardFilter(ds, users, kinds, period) == byKind;
    } else {
      SubsequenceTrans(DashboardFilter(ds, users, kinds, period), byKind, ds);
    }
  }

  /** The collaborator filter compares display names; since names are distinct, selecting
      the names of a set of users selects exactly the demands assigned to those users. */
  lemma NameSelectionIsUserSelection(ds: seq<Demand>, chosen: set<UserId>, kinds: set<Choice<DemandType>>,
                                     period: Option<Period>)
    ensures forall d :: d in DashboardFilter(ds, set u | u in chosen :: Only(Name(u)), kinds, period) <==>
      d in ds && d.collaboratorId in chosen && Admits(kinds, d.kind) && InPeriod(period, CreationDay(d))
  {
    var names := set u | u in chosen :: Only(Name(u));
    forall d | d in ds && Only(Name(d.collaboratorId)) in names
      ensures d.collaboratorId in chosen
    {
      var u :| u in chosen && Only(Name(u)) == Only(Name(d.collaboratorId));
      NameInjective(u, d.collaboratorId);
    }
  }
}
