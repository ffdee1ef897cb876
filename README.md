# Demand tracker model

A Dafny model of the in-memory demand tracker behind a small team-management web page. A leader
creates demands (title, description, one of six demand types, a collaborator to assign it to, a
priority and a due date). The assigned collaborator marks a pending demand as done. The leader
then confirms completed demands. Every one of these actions appends a snapshot to an activity
log.

The page shows four views of the two session lists:

- a collaborator's own demands, filtered by status, priority and type;
- the leader's list of demands awaiting confirmation;
- the activity history, filtered by user name and demand type and listed most recent first;
- a dashboard, filtered by collaborator name, type and creation-day period. It shows overall
  metrics (total, completed, completion rate), a per-collaborator table, a per-type
  distribution, a collaborator × status cross-tabulation and the number of demands created per
  day.

Modules:

- `Seqs` (seqs.dfy): generic sequence machinery:
  - order-preserving filtering and subsequences;
  - counting by key (`Tally`), with the partition fact that counts over a covering list of
    distinct keys add up to the length;
  - first-occurrence deduplication (the key order of an insertion-ordered dictionary);
  - pairing and the cartesian product;
  - a stable descending insertion sort.
- `Domain` (domain.dfy): the records and fixed tables:
  - the five users (user 1 is the leader), with their display names;
  - the six demand types, three priorities and three statuses;
  - the demand record and the log entry;
  - the snapshot a log entry takes;
  - the lifecycle invariant `WellFormed`.
- `Queries` (queries.dfy): the views, as conjunctive filters over the store.
- `Tracker` (tracker.dfy):
  - the `Store` class, holding the demand list (updated in place) and the append-only log;
  - the three lifecycle operations;
  - the guards that say when each action is offered.
- `Dashboard` (dashboard.dfy): the aggregations. The per-collaborator table, the cross-tab and
  the per-day dictionary are loops, as in the source, proved against counting functions.

The `Store` keeps the invariant `Valid()`:

- demand ids are list positions counted from 1;
- every demand is `WellFormed`:
  - its leader is user 1;
  - its status is never `Confirmed`;
  - it has a completion time exactly when it is `Completed`;
  - the leader's confirmation flag implies `Completed`;
- every log entry is consistent with its action and refers to an existing demand.

## Model

| member | source | states |
|---|---|---|
| Tracker.Store.constructor | testeee.py:7-10 | The session starts with no demands and an empty log, and the invariant holds. |
| Tracker.Store.Record | testeee.py:32-41 | Logging appends exactly one entry (the snapshot of the demand, the action, the actor's display name and the time) and changes no demand. |
| Tracker.Store.Create | testeee.py:76-92 | The new demand has id `|demands| + 1`, status `Pending`, leader user 1, flag false and no completion time. It is appended after the unchanged earlier demands. Exactly one entry is logged: a creation by the leader's name with status `Pending`. The invariant is preserved. |
| Tracker.MarkCompleted | testeee.py:146-149 | Completing needs status `Pending`. It sets status `Completed` and the completion time and changes no other field. It preserves `WellFormed`. |
| Tracker.CompleteGuard | testeee.py:109-147 | "Complete" is accepted exactly when the id names a stored demand that is assigned to the actor and still `Pending`. An id outside the list is rejected as unknown. |
| Tracker.AcceptedIsShown | testeee.py:132-147 | A demand the guard accepts is on the actor's pending list. |
| Tracker.ShownIsAccepted | testeee.py:132-147 | A demand on the actor's pending list is accepted under its own id. |
| Tracker.Store.Complete | testeee.py:146-150 | The outcome is `CompleteGuard`. When accepted, only demand `id` changes, to `MarkCompleted` of itself. One entry is logged with status `Completed` and the actor's name. When rejected, nothing changes. The invariant is preserved. |
| Tracker.CompleteGuardMatchesView | testeee.py:132-147 | "Complete" is accepted for `id` exactly when the demand with that id is in the actor's own list filtered to `Pending` with every priority and type. |
| Tracker.MarkConfirmed | testeee.py:168-169 | Confirming needs a `Completed`, unconfirmed demand. It sets only the flag; the status stays `Completed`. It preserves `WellFormed`. |
| Tracker.ConfirmGuard | testeee.py:155-158 | "Confirm" is accepted exactly when the actor is the leader and the id names a `Completed`, unconfirmed demand. Any other actor is rejected as unauthorised. |
| Tracker.Store.Confirm | testeee.py:155-170 | The outcome is `ConfirmGuard`. When accepted, only demand `id` changes, to `MarkConfirmed` of itself, and one confirmation entry is logged by the leader with status `Completed`. When rejected, nothing changes. The invariant is preserved. |
| Tracker.ConfirmGuardMatchesView | testeee.py:155-168 | "Confirm" is accepted exactly when the actor is the leader and the demand is on the awaiting-confirmation list. |
| Tracker.ConfirmOnce | testeee.py:156-169 | After a confirmation the demand is off the awaiting list, and confirming it again is rejected. |
| Queries.MyDemands | testeee.py:109-137 | A demand is in the view iff it is in the store, is assigned to the user, and has its status, priority and type among the selected ones. Every copy of a shown demand is kept and no copy of another. |
| Queries.MyDemandsKeepsOrder | testeee.py:132-137 | The view is a subsequence of the store, in store order. |
| Queries.AwaitingConfirmation | testeee.py:156-159 | The list holds exactly the completed, unconfirmed demands, each as often as in the store, in store order. |
| Queries.HistoryFilter | testeee.py:195-207 | An entry passes iff its user name and its type are admitted. "Todos" admits everything, and with "Todos" in both selections the log is returned unchanged. Each admitted entry is kept as often as it occurs in the log. |
| Queries.HistoryFilterKeepsOrder | testeee.py:197-207 | The filtered history is a subsequence of the log. |
| Queries.HistoryListing | testeee.py:209-213 | The listing is sorted by log time, latest first, and is a permutation of the filtered history. |
| Queries.HistoryListingStable | testeee.py:209-213 | Entries with equal log times keep their log order, as the stable sort does. |
| Seqs.FilterMultiplicity | testeee.py:132-137 | A list comprehension with a guard keeps every copy of an element that passes and no copy of one that fails. |
| Seqs.SortDescStable | testeee.py:209-213 | For every key value, the sort keeps the relative order of the elements with that key. |
| Queries.DashboardFilter | testeee.py:252-271 | A demand is selected iff it is in the store, its collaborator's name and its type are admitted, and its creation day lies in the inclusive period (no period means no date filter). |
| Queries.DashboardFilterMultiplicity | testeee.py:252-271 | Every copy of a selected demand is kept and no copy of another. |
| Queries.InPeriod | testeee.py:266-271 | No period admits every day. An inverted period admits none. A one-day period, such as the default today-to-today range, admits exactly that day. |
| Queries.InPeriodReadings | testeee.py:270 | On clock readings, a period admits exactly the readings from the start of its first day to the end of its last day. |
| Queries.DashboardFilterKeepsOrder | testeee.py:252-271 | The selection is a subsequence of the store. |
| Queries.NameSelectionIsUserSelection | testeee.py:254-258 | Display names are distinct, so selecting the names of a set of users selects exactly the demands assigned to those users. |
| Domain.Admits | testeee.py:197-203 | A selection holding "Todos" admits every value. Otherwise it admits exactly the values it lists. |
| Domain.Snapshot | testeee.py:33-41 | A log entry records the given time and action, the actor's display name, and the demand's id, title, type and current status. |
| Domain.LeaderTitle | testeee.py:23-29 | Only the leader's display name carries the title "Líder". |
| Domain.SequentialDistinct | testeee.py:78 | With ids at their positions, no demand occurs twice in the list. |
| Domain.NameInjective | testeee.py:23-29 | Different users have different display names. |
| Domain.UsersTable | testeee.py:23-29 | The user table lists every user exactly once. |
| Domain.TypesTable | testeee.py:13-20 | The type list holds every demand type exactly once. |
| Domain.StatusesTable | testeee.py:327 | The cross-tab's status list holds every status exactly once. |
| Domain.PrioritiesTable | testeee.py:122-123 | The priority selection can hold every priority. |
| Domain.DateOf | testeee.py:270 | A clock reading falls within the day `DateOf` assigns it. |
| Dashboard.Rate | testeee.py:279 | The rate is 0 when the total is 0. Otherwise rate × total = completed × 100. It lies in [0, 100] when completed ≤ total, and is 100 when everything is completed. |
| Dashboard.Metrics | testeee.py:277-279 | Total is the number of selected demands. Completed counts status `Completed`, confirmed or not, and is at most the total. The rate is 0 for an empty selection. |
| Dashboard.ConfirmedNeverCounted | testeee.py:327-329 | On well-formed demands the `Confirmed` count is 0, overall and for every collaborator. |
| Dashboard.CollaboratorRowOf | testeee.py:293-303 | A user's row carries their name, the number of their demands, how many of those are `Completed` (at most the total), and the rate of the two. |
| Dashboard.PerCollaborator | testeee.py:291-303 | There is one row per user in table order, each with that user's total and completed counts and rate. Completed ≤ total in every row, and the row totals add up to the number of demands. |
| Dashboard.CollaboratorRowsSnoc | testeee.py:292-303 | One loop step appends the next user's row and keeps the running total equal to the sum of that user's counts. |
| Dashboard.TypeCounts | testeee.py:313-314 | There is one count per type in the given order, and the counts add up to the sum of the per-type tallies. |
| Dashboard.PerType | testeee.py:313-314 | Every fixed type gets its count, in list order and with zeros included, and the counts add up to the number of demands. |
| Seqs.TallyPartition | testeee.py:313-314 | Counting by a key over distinct keys that include every element's key accounts for each element exactly once. |
| Dashboard.CellOf | testeee.py:328-333 | A (user, status) cell carries the user's name, the status and the number of the user's demands with that status, which is at most the user's total. |
| Dashboard.StatusByCollaborator | testeee.py:325-334 | There are exactly \|users\| × 3 rows. Row k is the count for the k-th (user, status) pair in user-major order, and the counts add up to the number of demands. |
| Dashboard.CellsCoverAll | testeee.py:325-334 | Every demand falls in exactly one (user, status) cell, so the cell counts add up to the number of demands. |
| Dashboard.CellsSnoc | testeee.py:328-334 | One loop step appends the next cell and keeps the running sum. |
| Dashboard.PerDay | testeee.py:348-353 | The day keys are the distinct creation days in order of first appearance, and every demand's day is a key. Each key maps to its number of demands, which is at least 1, and the counts add up to the number of demands. |
| Dashboard.DayKeysSnoc | testeee.py:351-352 | A demand adds its day as a new key at the end exactly when that day is not yet a key. |
| Dashboard.NewDayUncounted | testeee.py:351-352 | A day that is not yet a key has no demands counted so far. |
| Dashboard.KeysSnoc | testeee.py:351-352 | A day added to the dictionary is added to the key list together with it, so keys and list stay the same set. |
| Dashboard.CountsSnoc | testeee.py:351-353 | Counting one more demand keeps every key mapped to its number of demands, given that a new day had none so far. |
| Dashboard.DayCountsSnoc | testeee.py:350-353 | One loop step keeps the dictionary equal to the per-day counts of the demands seen so far. |
| Dashboard.DayCountsComplete | testeee.py:348-353 | The finished dictionary has every demand's day as a key, and its values add up to the number of demands. |
| Seqs.DedupFacts | testeee.py:351-352 | The first-occurrence key list has no duplicates and holds exactly the days that occur. |

## Left out

- Widgets, tabs, expanders and the success and warning messages are user interface and are not modelled. So are the plotly charts and pandas DataFrames, which are foreign libraries; the lists and dictionaries that feed them are modelled.
- Showing or hiding a button is modelled as an outcome: `CompleteGuard` and `ConfirmGuard` give the reason an action is not offered. The source re-runs the whole page after every click; the model instead calls one operation on a single `Store`, with the acting user and the filter selections passed in.
- Tracker.Store.Complete: the guard covers the widest "my demands" view, with `Pending` and every priority and type selected. A narrower status, priority or type selection in the source also hides the button; this is not modelled.
- Clock readings are parameters. `Create` takes one for the creation time field and one for the log entry, and `Complete` likewise. A time is an integer count of microseconds. Time zones, calendars and display formatting are not modelled.
- Domain.DateOf: the calendar day is modelled as floor division by the length of a day. Local-time conversion is not modelled.
- Dashboard.Rate: modelled as an exact rational, not a binary floating-point value. Its one-decimal percentage formatting is not modelled.
- When a range picker holds a one-element tuple (only the first date chosen), unpacking the period raises an error in the source. The model's `Period` always has both ends. No period (`None`) is the case where the picker does not return a tuple.
- User ids and demand types are enumerations, so an unknown user id or type string cannot occur. The source would fail on an unknown key in the user table.
- The source updates a demand through a shared reference to its dictionary. The model writes the list at position `id - 1` instead. The invariant that ids are positions makes this the same demand. Other aliasing is not modelled.
- The status `confirmado` is offered by the filters but no action ever sets it; confirming only sets the flag. The model reproduces this: `WellFormed` excludes `Confirmed`, and `ConfirmedNeverCounted` shows that its counts are zero.
- Titles, descriptions and due dates are carried as opaque values. Emojis and labels are not modelled.
