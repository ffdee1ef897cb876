/** The records of the demand tracker: demands, activity-log entries and the
    fixed tables of users, demand types, priorities and statuses. */
module Domain {
  import opened Seqs

  datatype Option<T> = None | Some(value: T)

  /** A filter option: the "Todos" (everything) entry, or one concrete value. */
  datatype Choice<T> = All | Only(value: T)

  /** Whether a multiselect filter lets `v` through: "Todos" switches the filter off. */
  predicate Admits<T(==)>(choices: set<Choice<T>>, v: T): (b: bool)
    ensures All in choices ==> b
    ensures All !in choices ==> (b <==> Only(v) in choices)
  {
    All in choices || Only(v) in choices
  }

  /** The user keys "1" to "5"; "1" is the leader. */
  datatype UserId = U1 | U2 | U3 | U4 | U5

  const Leader: UserId := U1

  /** The users in the order of the user table. */
  const Users: seq<UserId> := [U1, U2, U3, U4, U5]

  /** The display name of a user, which the activity log records and the name filters compare. */
  function Name(u: UserId): string
  {
    match u
    case U1 => "Líder João"
    case U2 => "Colaborador Maria"
    case U3 => "Colaborador Pedro"
    case U4 => "Colaborador Ana"
    case U5 => "Colaborador Carlos"
  }

  /** Only the leader's display name carries the title "Líder". */
  lemma LeaderTitle(u: UserId)
    ensures |Name(u)| > 5 && (Name(u)[..5] == "Líder" <==> u == Leader)
  {
    match u
    case U1 =>
    case U2 => assert Name(u)[0] == 'C';
    case U3 => assert Name(u)[0] == 'C';
    case U4 => assert Name(u)[0] == 'C';
    case U5 => assert Name(u)[0] == 'C';
  }

  /** Different users have different display names. */
  lemma NameInjective(u: UserId, v: UserId)
    ensures Name(u) == Name(v) ==> u == v
  {
    if u != v {
      assert Name(u)[0] != Name(v)[0] || |Name(u)| != |Name(v)| || Name(u)[12] != Name(v)[12];
    }
  }

  /** The six demand types, in the order of the type list. */
  datatype DemandType = BillingRequest | AnalysisReturn | Proposal | Draft | PowerOfAttorney | ClientContact

  const Types: seq<DemandType> := [BillingRequest, AnalysisReturn, Proposal, Draft, PowerOfAttorney, ClientContact]

  datatype Priority = Low | Medium | High

  const Priorities: set<Priority> := {Low, Medium, High}

  /** The status strings "pendente", "concluído" and "confirmado". */
  datatype Status = Pending | Completed | Confirmed

  const Statuses: seq<Status> := [Pending, Completed, Confirmed]

  /** Every user appears exactly once in the user table; likewise for types and statuses. */
  lemma UsersTable()
    ensures forall u: UserId :: u in Users
    ensures NoDuplicates(Users)
  {
    forall u: UserId ensures u in Users {
      assert u == Users[IndexOfUser(u)];
    }
    forall i, j | 0 <= i < j < |Users| ensures Users[i] != Users[j] {
    }
  }

  lemma TypesTable()
    ensures forall t: DemandType :: t in Types
    ensures NoDuplicates(Types)
  {
    forall t: DemandType ensures t in Types {
      match t
      case BillingRequest => assert t == Types[0];
      case AnalysisReturn => assert t == Types[1];
      case Proposal => assert t == Types[2];
      case Draft => assert t == Types[3];
      case PowerOfAttorney => assert t == Types[4];
      case ClientContact => assert t == Types[5];
    }
    forall i, j | 0 <= i < j < |Types| ensures Types[i] != Types[j] {
    }
  }

  lemma StatusesTable()
    ensures forall s: Status :: s in Statuses
    ensures NoDuplicates(Statuses)
  {
    forall s: Status ensures s in Statuses {
      match s
      case Pending => assert s == Statuses[0];
      case Completed => assert s == Statuses[1];
      case Confirmed => assert s == Statuses[2];
    }
    forall i, j | 0 <= i < j < |Statuses| ensures Statuses[i] != Statuses[j] {
    }
  }

  lemma PrioritiesTable()
    ensures forall p: Priority :: p in Priorities
  {
    forall p: Priority ensures p in Priorities {
      match p
      case Low =>
      case Medium =>
      case High =>
    }
  }

  function IndexOfUser(u: UserId): (i: nat)
    ensures i < |Users| && Users[i] == u
  {
    match u
    case U1 => 0
    case U2 => 1
    case U3 => 2
    case U4 => 3
    case U5 => 4
  }

  /** A clock reading, in microseconds since an epoch. */
  type Time = int

  /** A calendar day, counted from the epoch's day. */
  type Date = int

  const MicrosPerDay: int := 86_400_000_000

  /** The day a clock reading falls on. */
  function DateOf(t: Time): (d: Date)
    ensures d * MicrosPerDay <= t < (d + 1) * MicrosPerDay
  {
    t / MicrosPerDay
  }

  datatype Demand = Demand(
    id: nat,
    title: string,
    description: string,
    kind: DemandType,
    status: Status,
    leaderId: UserId,
    collaboratorId: UserId,
    leaderConfirmed: bool,
    priority: Priority,
    createdAt: Time,
    dueDate: Date,
    completedAt: Option<Time>)

  /** The actions "criação", "conclusão" and "confirmação". */
  datatype Action = Creation | Conclusion | Confirmation

  /** One activity-log record: a copy of some demand fields at the moment of logging. */
  datatype LogEntry = LogEntry(
    at: Time,
    demandId: nat,
    demandTitle: string,
    demandType: DemandType,
    action: Action,
    user: string,
    status: Status)

  /** The entry appended when `actor` performs `action` on `d` at time `at`. */
  function Snapshot(d: Demand, action: Action, actor: UserId, at: Time): (e: LogEntry)
    ensures e.at == at && e.action == action && e.user == Name(actor)
    ensures e.demandId == d.id && e.demandTitle == d.title && e.demandType == d.kind && e.status == d.status
  {
    LogEntry(at, d.id, d.title, d.kind, action, Name(actor), d.status)
  }

  /** Key functions used to count and sort. */
  function CollaboratorOf(d: Demand): UserId { d.collaboratorId }
  function KindOf(d: Demand): DemandType { d.kind }
  function StatusOf(d: Demand): Status { d.status }
  function CollaboratorStatusOf(d: Demand): (UserId, Status) { (d.collaboratorId, d.status) }
  function CreationDay(d: Demand): Date { DateOf(d.createdAt) }
  function LoggedAt(e: LogEntry): int { e.at }

  /** The lifecycle invariants every stored demand keeps. */
  ghost predicate WellFormed(d: Demand)
  {
    && d.leaderId == Leader
    && d.status != Confirmed
    && (d.completedAt.Some? <==> d.status == Completed)
    && (d.leaderConfirmed ==> d.status == Completed)
  }

  /** Demand ids are the positions in the list, counted from 1. */
  ghost predicate Sequential(ds: seq<Demand>)
  {
    forall i :: 0 <= i < |ds| ==> ds[i].id == i + 1
  }

  /** With ids at their positions, no demand occurs twice in the list. */
  lemma SequentialDistinct(ds: seq<Demand>)
    requires Sequential(ds)
    ensures NoDuplicates(ds)
  {
    forall i, j | 0 <= i < j < |ds|
      ensures ds[i] != ds[j]
    {
      assert ds[i].id != ds[j].id;
    }
  }

  /** What every log entry records, by action. */
  ghost predicate Consistent(e: LogEntry)
  {
    match e.action
    case Creation => e.status == Pending && e.user == Name(Leader)
    case Conclusion => e.status == Completed
    case Confirmation => e.status == Completed && e.user == Name(Leader)
  }
}
