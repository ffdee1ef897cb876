/** The dashboard's figures over a selection of demands: overall metrics, the
    per-collaborator table, the per-type distribution, the collaborator-by-status
    cross-tabulation and the number of demands created per day. */
module Dashboard {
  import opened Seqs
  import opened Domain

  /** The completion rate as a percentage, 0 when there is nothing to complete. */
  function Rate(completed: nat, total: nat): (r: real)
    ensures total == 0 ==> r == 0.0
    ensures total > 0 ==> r * (total as real) == (completed as real) * 100.0
    ensures completed <= total ==> 0.0 <= r <= 100.0
    ensures 0 < total == completed ==> r == 100.0
  {
    if total > 0 then completed as real / total as real * 100.0 else 0.0
  }

  datatype Summary = Summary(total: nat, completed: nat, rate: real)

  /** Total, completed (status `Completed`, confirmed or not) and the completion rate. */
  function Metrics(ds: seq<Demand>): (m: Summary)
    ensures m.total == |ds| && m.completed <= m.total
    ensures m.completed == Tally(ds, StatusOf, Completed)
    ensures m.rate == Rate(m.completed, m.total)
    ensures m.total == 0 ==> m.rate == 0.0
  {
    var completed := Tally(ds, StatusOf, Completed);
    Summary(|ds|, completed, Rate(completed, |ds|))
  }

  /** No stored demand ever carries the status `Confirmed`, so its counts are always zero. */
  lemma ConfirmedNeverCounted(ds: seq<Demand>, u: UserId)
    requires forall d :: d in ds ==> WellFormed(d)
    ensures Tally(ds, StatusOf, Confirmed) == 0
    ensures Tally(ds, CollaboratorStatusOf, (u, Confirmed)) == 0
  {
    TallyZero(ds, StatusOf, Confirmed);
    TallyZero(ds, CollaboratorStatusOf, (u, Confirmed));
  }

  datatype CollaboratorRow = CollaboratorRow(name: string, total: nat, completed: nat, rate: real)

  /** The table row of user `u`: their name, their demands, how many of those are completed,
      and the rate of the two. */
  function CollaboratorRowOf(ds: seq<Demand>, u: UserId): (row: CollaboratorRow)
    ensures row.name == Name(u)
    ensures row.total == Tally(ds, CollaboratorOf, u)
    ensures row.completed == Tally(ds, CollaboratorStatusOf, (u, Completed)) && row.completed <= row.total
    ensures row.rate == Rate(row.completed, row.total)
  {
    TallyMonotone(ds, CollaboratorOf, u, CollaboratorStatusOf, (u, Completed));
    var total := Tally(ds, CollaboratorOf, u);
    var completed := Tally(ds, CollaboratorStatusOf, (u, Completed));
    CollaboratorRow(Name(u), total, completed, Rate(completed, total))
  }

  function RowTotal(row: CollaboratorRow): nat { row.total }

  /** `rows` holds the per-collaborator rows for the users `us`, in order. */
  ghost predicate CollaboratorRowsFor(ds: seq<Demand>, rows: seq<CollaboratorRow>, us: seq<UserId>)
  {
    && |rows| == |us|
    && (forall k :: 0 <= k < |rows| ==> rows[k] == CollaboratorRowOf(ds, us[k]) && rows[k].completed <= rows[k].total)
    && SumOf(rows, RowTotal) == SumTallies(ds, CollaboratorOf, us)
  }

  lemma CollaboratorRowsSnoc(ds: seq<Demand>, rows: seq<CollaboratorRow>, us: seq<UserId>, u: UserId)
    requires CollaboratorRowsFor(ds, rows, us)
    ensures CollaboratorRowsFor(ds, rows + [CollaboratorRowOf(ds, u)], us + [u])
  {
    var rows', us' := rows + [CollaboratorRowOf(ds, u)], us + [u];
    assert rows'[..|rows'| - 1] == rows;
    assert us'[..|us'| - 1] == us;
  }

  /** The per-collaborator table: one row per known user, in table order, users without
      demands included. */
  method PerCollaborator(ds: seq<Demand>) returns (rows: seq<CollaboratorRow>)
    ensures |rows| == |Users|
    ensures forall k :: 0 <= k < |rows| ==> rows[k] == CollaboratorRowOf(ds, Users[k])
    ensures forall k :: 0 <= k < |rows| ==> rows[k].completed <= rows[k].total
    ensures SumOf(rows, RowTotal) == |ds|
  {
    rows := [];
    var i := 0;
    while i < |Users|
      invariant 0 <= i <= |Users|
      invariant CollaboratorRowsFor(ds, rows, Users[..i])
    {
      var u := Users[i];
      var total := Tally(ds, CollaboratorOf, u);
      var completed := Tally(ds, CollaboratorStatusOf, (u, Completed));
      assert CollaboratorRow(Name(u), total, completed, Rate(completed, total)) == CollaboratorRowOf(ds, u);
      CollaboratorRowsSnoc(ds, rows, Users[..i], u);
      assert Users[..i + 1] == Users[..i] + [u];
      rows := rows + [CollaboratorRow(Name(u), total, completed, Rate(completed, total))];
      i := i + 1;
    }
    assert Users[..i] == Users;
    UsersTable();
    TallyPartition(ds, CollaboratorOf, Users);
  }

  datatype TypeCount = TypeCount(kind: DemandType, count: nat)

  function TypeCountOf(c: TypeCount): nat { c.count }

  /** The counts for the types `ks`, in that order. */
  function TypeCounts(ds: seq<Demand>, ks: seq<DemandType>): (r: seq<TypeCount>)
    ensures |r| == |ks|
    ensures forall k :: 0 <= k < |ks| ==> r[k] == TypeCount(ks[k], Tally(ds, KindOf, ks[k]))
    ensures SumOf(r, TypeCountOf) == SumTallies(ds, KindOf, ks)
  {
    if ks == [] then []
    else
      var r := TypeCounts(ds, ks[..|ks| - 1]) + [TypeCount(ks[|ks| - 1], Tally(ds, KindOf, ks[|ks| - 1]))];
      assert r[..|r| - 1] == TypeCounts(ds, ks[..|ks| - 1]);
      r
  }

  /** The type distribution: every fixed type with its count, zeros included; the counts add up
      to the number of demands. */
  function PerType(ds: seq<Demand>): (r: seq<TypeCount>)
    ensures |r| == |Types|
    ensures forall k :: 0 <= k < |r| ==> r[k].kind == Types[k] && r[k].count == Tally(ds, KindOf, Types[k])
    ensures SumOf(r, TypeCountOf) == |ds|
  {
    TypesTable();
    TallyPartition(ds, KindOf, Types);
    TypeCounts(ds, Types)
  }

  datatype StatusCount = StatusCount(collaborator: string, status: Status, count: nat)

  /** The bar for one (user, status) pair: the user's name, the status and how many of the
      user's demands have it, which is at most the user's total. */
  function CellOf(ds: seq<Demand>, cell: (UserId, Status)): (c: StatusCount)
    ensures c.collaborator == Name(cell.0) && c.status == cell.1
    ensures c.count == Tally(ds, CollaboratorStatusOf, cell)
    ensures c.count <= Tally(ds, CollaboratorOf, cell.0)
  {
    TallyMonotone(ds, CollaboratorOf, cell.0, CollaboratorStatusOf, cell);
    StatusCount(Name(cell.0), cell.1, Tally(ds, CollaboratorStatusOf, cell))
  }

  function CellCount(c: StatusCount): nat { c.count }

  /** `rows` holds the cross-tabulation cells for the (user, status) pairs `cells`, in order. */
  ghost predicate CellsFor(ds: seq<Demand>, rows: seq<StatusCount>, cells: seq<(UserId, Status)>)
  {
    && |rows| == |cells|
    && (forall k :: 0 <= k < |rows| ==> rows[k] == CellOf(ds, cells[k]))
    && SumOf(rows, CellCount) == SumTallies(ds, CollaboratorStatusOf, cells)
  }

  lemma CellsSnoc(ds: seq<Demand>, rows: seq<StatusCount>, cells: seq<(UserId, Status)>, c: (UserId, Status))
    requires CellsFor(ds, rows, cells)
    ensures CellsFor(ds, rows + [CellOf(ds, c)], cells + [c])
  {
    var rows', cells' := rows + [CellOf(ds, c)], cells + [c];
    assert rows'[..|rows'| - 1] == rows;
    assert cells'[..|cells'| - 1] == cells;
  }

  /** The cross-tabulation: for every user and every status (user-major order) the number of
      demands, zeros included; the counts add up to the number of demands. */
  method StatusByCollaborator(ds: seq<Demand>) returns (rows: seq<StatusCount>)
    ensures |rows| == |Users| * |Statuses|
    ensures forall k :: 0 <= k < |rows| ==> rows[k] == CellOf(ds, Product(Users, Statuses)[k])
    ensures SumOf(rows, CellCount) == |ds|
  {
    rows := [];
    ghost var cells: seq<(UserId, Status)> := [];
    var i := 0;
    while i < |Users|
      invariant 0 <= i <= |Users|
      invariant cells == Product(Users[..i], Statuses)
      invariant CellsFor(ds, rows, cells)
    {
      var u := Users[i];
      var j := 0;
      while j < |Statuses|
        invariant 0 <= j <= |Statuses|
        invariant cells == Product(Users[..i], Statuses) + Pairing(u, Statuses[..j])
        invariant CellsFor(ds, rows, cells)
      {
        var s := Statuses[j];
        var n := Tally(ds, CollaboratorStatusOf, (u, s));
        assert StatusCount(Name(u), s, n) == CellOf(ds, (u, s));
        CellsSnoc(ds, rows, cells, (u, s));
        PairingSnoc(u, Statuses, j);
        rows, cells := rows + [StatusCount(Name(u), s, n)], cells + [(u, s)];
        j := j + 1;
      }
      assert Statuses[..j] == Statuses;
      assert Users[..i + 1][..i] == Users[..i];
      i := i + 1;
    }
    assert Users[..i] == Users;
    CellsCoverAll(ds);
  }

  /** Every demand falls in exactly one (user, status) cell. */
  lemma CellsCoverAll(ds: seq<Demand>)
    ensures SumTallies(ds, CollaboratorStatusOf, Product(Users, Statuses)) == |ds|
  {
    UsersTable();
    StatusesTable();
    ProductDistinct(Users, Statuses);
    forall d | d in ds
      ensures CollaboratorStatusOf(d) in Product(Users, Statuses)
    {
      ProductMembers(Users, Statuses, d.collaboratorId, d.status);
    }
    TallyPartition(ds, CollaboratorStatusOf, Product(Users, Statuses));
  }

  /** The creation days of the demands, in list order. */
  function DaysOf(ds: seq<Demand>): (r: seq<Date>)
    ensures |r| == |ds| && forall k :: 0 <= k < |ds| ==> r[k] == CreationDay(ds[k])
  {
    seq(|ds|, k requires 0 <= k < |ds| => CreationDay(ds[k]))
  }

  /** `days` and `counts` are the per-day dictionary of the demands `s`. */
  ghost predicate DayCounts(s: seq<Demand>, days: seq<Date>, counts: map<Date, nat>)
  {
    && days == Dedup(DaysOf(s))
    && KeysMatch(days, counts)
    && CountsMatch(s, counts)
  }

  /** The keys of `counts` are the days listed in `days`. */
  ghost predicate KeysMatch(days: seq<Date>, counts: map<Date, nat>)
  {
    forall day :: day in counts <==> day in days
  }

  /** Adding a key to the map and the list together keeps them matched. */
  lemma KeysSnoc(days: seq<Date>, counts: map<Date, nat>, day: Date, days': seq<Date>, start: map<Date, nat>, n: nat)
    requires KeysMatch(days, counts)
    requires days' == if day in counts then days else days + [day]
    requires start == if day in counts then counts else counts[day := 0]
    ensures KeysMatch(days', start[day := n])
  {
  }

  /** Every key of `counts` maps to its number of demands in `s`, which is at least 1. */
  ghost predicate CountsMatch(s: seq<Demand>, counts: map<Date, nat>)
  {
    forall day :: day in counts ==> counts[day] == Tally(s, CreationDay, day) && counts[day] >= 1
  }

  /** A day not yet among the keys has no demands so far. */
  lemma NewDayUncounted(s: seq<Demand>, day: Date)
    requires day !in Dedup(DaysOf(s))
    ensures Tally(s, CreationDay, day) == 0
  {
    DedupFacts(DaysOf(s));
    forall d | d in s
      ensures CreationDay(d) != day
    {
      var k :| 0 <= k < |s| && s[k] == d;
      assert DaysOf(s)[k] == CreationDay(d);
    }
    TallyZero(s, CreationDay, day);
  }

  /** The keys after one more demand: its day is appended when first seen. */
  lemma DayKeysSnoc(s: seq<Demand>, x: Demand)
    ensures Dedup(DaysOf(s + [x])) ==
      if CreationDay(x) in Dedup(DaysOf(s)) then Dedup(DaysOf(s)) else Dedup(DaysOf(s)) + [CreationDay(x)]
  {
    assert DaysOf(s + [x]) == DaysOf(s) + [CreationDay(x)];
    DedupSnoc(DaysOf(s), CreationDay(x));
  }

  /** Counting demand `x` keeps the counts right, given that its day, when new, had no demands. */
  lemma CountsSnoc(s: seq<Demand>, x: Demand, counts: map<Date, nat>, start: map<Date, nat>)
    requires CountsMatch(s, counts)
    requires CreationDay(x) !in counts ==> Tally(s, CreationDay, CreationDay(x)) == 0
    requires start == if CreationDay(x) in counts then counts else counts[CreationDay(x) := 0]
    ensures CountsMatch(s + [x], start[CreationDay(x) := start[CreationDay(x)] + 1])
  {
    var day := CreationDay(x);
    var counts' := start[day := start[day] + 1];
    forall day' | day' in counts'
      ensures counts'[day'] == Tally(s + [x], CreationDay, day') && counts'[day'] >= 1
    {
      TallySnoc(s, x, CreationDay, day');
    }
  }

  /** One step of the loop: count demand `x`, adding its day as a new key when first seen. */
  lemma DayCountsSnoc(s: seq<Demand>, x: Demand, days: seq<Date>, counts: map<Date, nat>,
                      days': seq<Date>, start: map<Date, nat>)
    requires DayCounts(s, days, counts)
    requires days' == if CreationDay(x) in counts then days else days + [CreationDay(x)]
    requires start == if CreationDay(x) in counts then counts else counts[CreationDay(x) := 0]
    ensures DayCounts(s + [x], days', start[CreationDay(x) := start[CreationDay(x)] + 1])
  {
    var day := CreationDay(x);
    assert days' == Dedup(DaysOf(s + [x])) by {
      DayKeysSnoc(s, x);
    }
    assert KeysMatch(days', start[day := start[day] + 1]) by {
      KeysSnoc(days, counts, day, days', start, start[day] + 1);
    }
    assert CountsMatch(s + [x], start[day := start[day] + 1]) by {
      if day !in counts {
        NewDayUncounted(s, day);
      }
      CountsSnoc(s, x, counts, start);
    }
  }

  /** The loop step over the first `i + 1` demands. */
  lemma DayCountsStep(ds: seq<Demand>, i: nat, days: seq<Date>, counts: map<Date, nat>,
                      days': seq<Date>, counts': map<Date, nat>)
    requires i < |ds| && DayCounts(ds[..i], days, counts)
    requires days' == if CreationDay(ds[i]) in counts then days else days + [CreationDay(ds[i])]
    requires counts' == var start := if CreationDay(ds[i]) in counts then counts else counts[CreationDay(ds[i]) := 0];
      start[CreationDay(ds[i]) := start[CreationDay(ds[i])] + 1]
    ensures DayCounts(ds[..i + 1], days', counts')
  {
    var s, x := ds[..i], ds[i];
    var start := if CreationDay(x) in counts then counts else counts[CreationDay(x) := 0];
    assert DayCounts(s + [x], days', counts') by {
      DayCountsSnoc(s, x, days, counts, days', start);
    }
    assert ds[..i + 1] == s + [x];
  }

  /** What the finished dictionary says: every demand's day is a key, and the counts add up to
      the number of demands. */
  lemma DayCountsComplete(ds: seq<Demand>, days: seq<Date>, counts: map<Date, nat>)
    requires DayCounts(ds, days, counts)
    ensures forall d :: d in ds ==> CreationDay(d) in counts
    ensures SumValues(days, counts) == |ds|
  {
    DedupFacts(DaysOf(ds));
    forall d | d in ds
      ensures CreationDay(d) in DaysOf(ds)
    {
      var k :| 0 <= k < |ds| && ds[k] == d;
      assert DaysOf(ds)[k] == CreationDay(d);
    }
    SumValuesOfTallies(ds, CreationDay, days, counts);
    TallyPartition(ds, CreationDay, days);
  }

  /** Demands per creation day, as an insertion-ordered dictionary: `days` lists the keys in
      order of first appearance and `counts` maps each to its count. Days without demands
      are absent. */
  method PerDay(ds: seq<Demand>) returns (days: seq<Date>, counts: map<Date, nat>)
    ensures days == Dedup(DaysOf(ds))
    ensures forall day :: day in counts <==> day in days
    ensures forall d :: d in ds ==> CreationDay(d) in counts
    ensures forall day :: day in counts ==> counts[day] == Tally(ds, CreationDay, day) && counts[day] >= 1
    ensures SumValues(days, counts) == |ds|
  {
    days, counts := [], map[];
    var i := 0;
    while i < |ds|
      invariant 0 <= i <= |ds|
      invariant DayCounts(ds[..i], days, counts)
    {
      var day := CreationDay(ds[i]);
      ghost var days0, counts0 := days, counts;
      if day !in counts {
        days := days + [day];
        counts := counts[day := 0];
      }
      counts := counts[day := counts[day] + 1];
      DayCountsStep(ds, i, days0, counts0, days, counts);
      i := i + 1;
    }
    assert ds[..i] == ds;
    DayCountsComplete(ds, days, counts);
  }
}
