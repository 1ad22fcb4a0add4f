/** Dashboard aggregates: grouped and bucketed counts against direct counts over the same tables. */
module Analytics {
  import opened Base
  import opened Workflow
  import opened Relationships
  import opened Tracker
  import opened BugServices
  import opened History
  import opened Lifecycle

  // ---------------------------------------------------------------------------------------------
  // Queries: filter, map, group by

  function Filter<T>(s: seq<T>, p: T -> bool): seq<T> {
    if s == [] then []
    else Filter(s[..|s| - 1], p) + if p(Last(s)) then [Last(s)] else []
  }

  function Map<T, K>(s: seq<T>, f: T -> K): (r: seq<K>)
    ensures |r| == |s| && forall i | 0 <= i < |s| :: r[i] == f(s[i])
  {
    seq(|s|, i requires 0 <= i < |s| => f(s[i]))
  }

  /** `dict.get(key, 0)` */
  function Get<K(==)>(groups: map<K, nat>, k: K): nat {
    if k in groups then groups[k] else 0
  }

  /** Rows per key. */
  function GroupBy<K(==)>(keys: seq<K>): map<K, nat> {
    if keys == [] then map[]
    else
      var before := GroupBy(keys[..|keys| - 1]);
      before[Last(keys) := Get(before, Last(keys)) + 1]
  }

  function Total<K(==)>(groups: map<K, nat>, listing: seq<K>): nat {
    if listing == [] then 0
    else Total(groups, listing[..|listing| - 1]) + Get(groups, Last(listing))
  }

  lemma {:induction false} TotalUnchanged<K>(groups: map<K, nat>, listing: seq<K>, k: K)
    requires k !in listing
    ensures Total(groups[k := Get(groups, k) + 1], listing) == Total(groups, listing)
  {
    if listing != [] {
      TotalUnchanged(groups, listing[..|listing| - 1], k);
    }
  }

  lemma {:induction false} TotalCountsOneMore<K>(groups: map<K, nat>, listing: seq<K>, k: K)
    requires NoRepeats(listing)
    ensures Total(groups[k := Get(groups, k) + 1], listing) == Total(groups, listing) + if k in listing then 1 else 0
  {
    if listing != [] {
      var n := |listing| - 1;
      assert listing == listing[..n] + [listing[n]];
      if listing[n] == k {
        assert k !in listing[..n];
        TotalUnchanged(groups, listing[..n], k);
      } else {
        TotalCountsOneMore(groups, listing[..n], k);
      }
    }
  }

  /** Grouping loses nothing and counts nothing twice: over any listing without repetition, the group
      counts add up to the rows whose key is listed. */
  lemma {:induction false} GroupsAddUp<T, K>(rows: seq<T>, f: T -> K, p: T -> bool, listing: seq<K>)
    requires NoRepeats(listing) && forall i | 0 <= i < |rows| :: p(rows[i]) <==> f(rows[i]) in listing
    ensures Total(GroupBy(Map(rows, f)), listing) == |Filter(rows, p)|
  {
    if rows == [] {
      TotalOfNothing<K>(listing);
    } else {
      var n := |rows| - 1;
      GroupsAddUp(rows[..n], f, p, listing);
      assert Map(rows, f)[..n] == Map(rows[..n], f);
      TotalCountsOneMore(GroupBy(Map(rows[..n], f)), listing, f(rows[n]));
    }
  }

  lemma {:induction false} TotalOfNothing<K>(listing: seq<K>)
    ensures Total(map[], listing) == 0
  {
    if listing != [] {
      TotalOfNothing<K>(listing[..|listing| - 1]);
    }
  }

  /** A group is the rows with its key. */
  lemma GroupIsFilter<T, K>(rows: seq<T>, f: T -> K, p: T -> bool, k: K)
    requires forall i | 0 <= i < |rows| :: p(rows[i]) <==> f(rows[i]) == k
    ensures Get(GroupBy(Map(rows, f)), k) == |Filter(rows, p)|
  {
    GroupsAddUp(rows, f, p, [k]);
    assert [k][..0] == [];
    assert Total(GroupBy(Map(rows, f)), [k]) == Get(GroupBy(Map(rows, f)), k);
  }

  lemma {:induction false} KeysAreGrouped<K>(keys: seq<K>)
    ensures GroupBy(keys).Keys == set k | k in keys
  {
    if keys != [] {
      KeysAreGrouped(keys[..|keys| - 1]);
      assert keys == keys[..|keys| - 1] + [Last(keys)];
    }
  }

  lemma {:induction false} FilterTwice<T>(s: seq<T>, p: T -> bool, q: T -> bool, both: T -> bool)
    requires forall x :: both(x) <==> p(x) && q(x)
    ensures Filter(Filter(s, p), q) == Filter(s, both)
  {
    if s != [] {
      var n := |s| - 1;
      FilterTwice(s[..n], p, q, both);
      var before := Filter(s[..n], p);
      if p(s[n]) {
        assert (before + [s[n]])[..|before|] == before;
      } else {
        assert before + [] == before && Filter(s[..n], both) + [] == Filter(s[..n], both);
      }
    }
  }

  lemma {:induction false} FilterAgrees<T>(s: seq<T>, p: T -> bool, q: T -> bool)
    requires forall i | 0 <= i < |s| :: p(s[i]) <==> q(s[i])
    ensures Filter(s, p) == Filter(s, q)
  {
    if s != [] {
      FilterAgrees(s[..|s| - 1], p, q);
    }
  }

  lemma {:induction false} FilterMembers<T>(s: seq<T>, p: T -> bool)
    ensures forall x :: x in Filter(s, p) <==> x in s && p(x)
    ensures forall i | 0 <= i < |Filter(s, p)| :: p(Filter(s, p)[i]) && Filter(s, p)[i] in s
  {
    if s != [] {
      FilterMembers(s[..|s| - 1], p);
      assert s == s[..|s| - 1] + [Last(s)];
    }
  }

  // ---------------------------------------------------------------------------------------------
  // Base queries

  /** Bugs of live projects that are not archived themselves, of one project or of all. */
  predicate InScope(w: World, project: Option<ProjectId>, row: Bug) {
    row.archivedAt.None? && !ProjectIsArchived(w, row.project) && (project.Some? ==> row.project == project.value)
  }

  function BaseBugs(w: World, project: Option<ProjectId>): seq<Bug> {
    Filter(w.bugs, (row: Bug) => InScope(w, project, row))
  }

  /** STATUS_CHANGED entries into one of `statuses`, of the bugs in scope. */
  predicate EntersStatus(w: World, project: Option<ProjectId>, statuses: set<Status>, a: Activity) {
    && a.bug < |w.bugs| && InScope(w, project, w.bugs[a.bug])
    && a.event.StatusChanged? && a.event.toStatus in statuses
  }

  function BaseActivity(w: World, project: Option<ProjectId>, statuses: set<Status>): seq<Activity> {
    Filter(w.log, (a: Activity) => EntersStatus(w, project, statuses, a))
  }

  function OpenBugs(w: World, project: Option<ProjectId>): seq<Bug> {
    Filter(BaseBugs(w, project), (row: Bug) => IsOpen(row.status))
  }

  function OpenBugCount(w: World, project: Option<ProjectId>): nat {
    |OpenBugs(w, project)|
  }

  // ---------------------------------------------------------------------------------------------
  // Days: instants are microseconds, dates are day numbers, and the configured time zone is UTC

  const DAY: int := 86_400_000_000

  function DayOf(t: int): int {
    t / DAY
  }

  /** Half-open bounds from the start of one day to the end of another. */
  predicate InBounds(from: int, to: int, t: int) {
    from * DAY <= t < (to + 1) * DAY
  }

  function DateRange(from: int, to: int): seq<int> {
    seq(if from <= to then to - from + 1 else 0, i => from + i)
  }

  /** Every instant within the bounds falls on exactly one listed day, and no other instant on any. */
  lemma BoundsAreListedDays(from: int, to: int, t: int)
    ensures InBounds(from, to, t) <==> DayOf(t) in DateRange(from, to)
    ensures NoRepeats(DateRange(from, to))
  {
    var d := DayOf(t);
    assert t == d * DAY + t % DAY && 0 <= t % DAY < DAY;
    assert from * DAY <= t <==> from <= d;
    assert t < (to + 1) * DAY <==> d <= to;
    if from <= d <= to {
      assert DateRange(from, to)[d - from] == d;
    }
  }

  function NewBugCount(w: World, project: Option<ProjectId>, from: int, to: int): nat {
    |Filter(BaseBugs(w, project), (row: Bug) => InBounds(from, to, row.createdAt))|
  }

  function ResolvedBugCount(w: World, project: Option<ProjectId>, from: int, to: int): nat {
    |Filter(BaseActivity(w, project, RESOLUTION_STATUSES), (a: Activity) => InBounds(from, to, a.at))|
  }

  datatype TrendRow = TrendRow(date: int, created: nat, resolved: nat)

  /** Two grouped queries, filled out with zeros over the listed days. */
  function Trends(w: World, project: Option<ProjectId>, from: int, to: int): seq<TrendRow> {
    var created := GroupBy(Map(Filter(BaseBugs(w, project), (row: Bug) => InBounds(from, to, row.createdAt)),
                               (row: Bug) => DayOf(row.createdAt)));
    var resolved := GroupBy(Map(
      Filter(BaseActivity(w, project, RESOLUTION_STATUSES), (a: Activity) => InBounds(from, to, a.at)),
                                (a: Activity) => DayOf(a.at)));
    var days := DateRange(from, to);
    seq(|days|, i requires 0 <= i < |days| => TrendRow(days[i], Get(created, days[i]), Get(resolved, days[i])))
  }

  function SumOf(ns: seq<nat>): nat {
    if ns == [] then 0 else SumOf(ns[..|ns| - 1]) + Last(ns)
  }

  lemma {:induction false} TotalIsSum<K>(groups: map<K, nat>, listing: seq<K>, ns: seq<nat>)
    requires |ns| == |listing| && forall i | 0 <= i < |ns| :: ns[i] == Get(groups, listing[i])
    ensures SumOf(ns) == Total(groups, listing)
  {
    if ns != [] {
      TotalIsSum(groups, listing[..|listing| - 1], ns[..|ns| - 1]);
    }
  }

  lemma {:induction false} FilterAll<T>(s: seq<T>, p: T -> bool)
    requires forall i | 0 <= i < |s| :: p(s[i])
    ensures Filter(s, p) == s
  {
    if s != [] {
      FilterAll(s[..|s| - 1], p);
    }
  }

  /** Rows bucketed by day over the days of their bounds add up to all of them. */
  lemma BucketsAddUp<T>(
    rows: seq<T>, time: T -> int, within: T -> bool, day: T -> int, from: int, to: int, ns: seq<nat>)
    requires forall x :: within(x) <==> InBounds(from, to, time(x))
    requires forall x :: day(x) == DayOf(time(x))
    requires |ns| == |DateRange(from, to)|
    requires forall i | 0 <= i < |ns| :: ns[i] == Get(GroupBy(Map(Filter(rows, within), day)), DateRange(from, to)[i])
    ensures SumOf(ns) == |Filter(rows, within)|
  {
    var inRange := Filter(rows, within);
    FilterMembers(rows, within);
    forall i | 0 <= i < |inRange| ensures within(inRange[i]) && day(inRange[i]) in DateRange(from, to) {
      BoundsAreListedDays(from, to, time(inRange[i]));
    }
    BoundsAreListedDays(from, to, 0);
    GroupsAddUp(inRange, day, within, DateRange(from, to));
    FilterAll(inRange, within);
    TotalIsSum(GroupBy(Map(inRange, day)), DateRange(from, to), ns);
  }

  /** For every date range, empty ones included, the columns of the trends add up to the summary counts. */
  lemma TrendsAddUp(w: World, project: Option<ProjectId>, from: int, to: int)
    ensures var rows := Trends(w, project, from, to);
            && |rows| == |DateRange(from, to)|
            && SumOf(Map(rows, (r: TrendRow) => r.created)) == NewBugCount(w, project, from, to)
            && SumOf(Map(rows, (r: TrendRow) => r.resolved)) == ResolvedBugCount(w, project, from, to)
  {
    var rows := Trends(w, project, from, to);
    BucketsAddUp(BaseBugs(w, project), (row: Bug) => row.createdAt, (row: Bug) => InBounds(from, to, row.createdAt),
                 (row: Bug) => DayOf(row.createdAt), from, to, Map(rows, (r: TrendRow) => r.created));
    BucketsAddUp(BaseActivity(w, project, RESOLUTION_STATUSES), (a: Activity) => a.at,
                 (a: Activity) => InBounds(from, to, a.at), (a: Activity) => DayOf(a.at), from, to,
                 Map(rows, (r: TrendRow) => r.resolved));
  }

  /** A bucket counts what a query for that day alone counts. */
  lemma BucketIsDay<T>(
    rows: seq<T>, time: T -> int, within: T -> bool, day: T -> int, on: T -> bool, from: int, to: int, d: int)
    requires forall x :: within(x) <==> InBounds(from, to, time(x))
    requires forall x :: day(x) == DayOf(time(x))
    requires forall x :: on(x) <==> InBounds(d, d, time(x))
    requires from <= d <= to
    ensures Get(GroupBy(Map(Filter(rows, within), day)), d) == |Filter(rows, on)|
  {
    forall x ensures on(x) <==> day(x) == d && within(x) {
      BoundsAreListedDays(d, d, time(x));
      BoundsAreListedDays(from, to, time(x));
      assert DateRange(d, d) == [d];
      if day(x) == d {
        assert DateRange(from, to)[d - from] == d;
      }
    }
    GroupIsFilter(Filter(rows, within), day, (x: T) => day(x) == d, d);
    FilterTwice(rows, within, (x: T) => day(x) == d, on);
  }

  lemma TrendRowIsDaysCount(w: World, project: Option<ProjectId>, from: int, to: int, i: nat)
    requires i < |Trends(w, project, from, to)|
    ensures var row := Trends(w, project, from, to)[i];
            && row.date == from + i
            && row.created == NewBugCount(w, project, row.date, row.date)
            && row.resolved == ResolvedBugCount(w, project, row.date, row.date)
  {
    var d := from + i;
    BucketIsDay(BaseBugs(w, project), (row: Bug) => row.createdAt, (row: Bug) => InBounds(from, to, row.createdAt),
                (row: Bug) => DayOf(row.createdAt), (row: Bug) => InBounds(d, d, row.createdAt), from, to, d);
    BucketIsDay(BaseActivity(w, project, RESOLUTION_STATUSES), (a: Activity) => a.at,
                (a: Activity) => InBounds(from, to, a.at), (a: Activity) => DayOf(a.at),
                (a: Activity) => InBounds(d, d, a.at), from, to, d);
  }

  // ---------------------------------------------------------------------------------------------
  // Status distribution

  function StatusDistribution(w: World, project: Option<ProjectId>): map<Status, nat> {
    var counts := GroupBy(Map(BaseBugs(w, project), (row: Bug) => row.status));
    map s | s in ALL_STATUSES :: Get(counts, s)
  }

  lemma {:induction false} TotalAgrees<K>(g: map<K, nat>, h: map<K, nat>, listing: seq<K>)
    requires forall i | 0 <= i < |listing| :: Get(g, listing[i]) == Get(h, listing[i])
    ensures Total(g, listing) == Total(h, listing)
  {
    if listing != [] {
      TotalAgrees(g, h, listing[..|listing| - 1]);
    }
  }

  const OPEN_STATUSES: seq<Status> :=
    [New, Triaged, Assigned, InProgress, ReadyForQa, Reopened, Blocked, Deferred]

  predicate ListsStatuses(all: seq<Status>, open: seq<Status>) {
    && NoRepeats(all) && NoRepeats(open)
    && forall s: Status :: s in all && (IsOpen(s) <==> s in open)
  }

  lemma EveryStatusIsListed()
    ensures ListsStatuses(ALL_STATUSES, OPEN_STATUSES)
  {
    var all, open := ALL_STATUSES, OPEN_STATUSES;
    forall s: Status ensures s in all && (IsOpen(s) <==> s in open) {
      StatusHasPosition(s);
    }
  }

  lemma StatusHasPosition(s: Status)
    ensures s in ALL_STATUSES && (IsOpen(s) <==> s in OPEN_STATUSES)
  {
    var all, open := ALL_STATUSES, OPEN_STATUSES;
    match s
    case New => assert all[0] == open[0] == s;
    case Triaged => assert all[1] == open[1] == s;
    case Assigned => assert all[2] == open[2] == s;
    case InProgress => assert all[3] == open[3] == s;
    case ReadyForQa => assert all[4] == open[4] == s;
    case Resolved => assert all[5] == s;
    case Reopened => assert all[6] == open[5] == s;
    case Closed => assert all[7] == s;
    case Blocked => assert all[8] == open[6] == s;
    case Duplicate => assert all[9] == s;
    case CannotReproduce => assert all[10] == s;
    case WontFix => assert all[11] == s;
    case Deferred => assert all[12] == open[7] == s;
  }

  /** The open entries of the distribution add up to the open count, and all entries to all bugs in scope. */
  lemma DistributionAddsUp(w: World, project: Option<ProjectId>)
    ensures var d := StatusDistribution(w, project);
            && (forall s: Status :: s in d)
            && Total(d, OPEN_STATUSES) == OpenBugCount(w, project)
            && Total(d, ALL_STATUSES) == |BaseBugs(w, project)|
  {
    EveryStatusIsListed();
    StatusesAddUp(BaseBugs(w, project), StatusDistribution(w, project), ALL_STATUSES, OPEN_STATUSES);
  }

  lemma StatusesAddUp(rows: seq<Bug>, d: map<Status, nat>, all: seq<Status>, open: seq<Status>)
    requires ListsStatuses(all, open)
    requires forall s: Status :: s in d && d[s] == Get(GroupBy(Map(rows, (row: Bug) => row.status)), s)
    ensures Total(d, open) == |Filter(rows, (row: Bug) => IsOpen(row.status))| && Total(d, all) == |rows|
  {
    var status, every := (row: Bug) => row.status, (row: Bug) => true;
    GroupsAddUp(rows, status, (row: Bug) => IsOpen(row.status), open);
    GroupsAddUp(rows, status, every, all);
    FilterAll(rows, every);
    TotalAgrees(d, GroupBy(Map(rows, status)), open);
    TotalAgrees(d, GroupBy(Map(rows, status)), all);
  }

  // ---------------------------------------------------------------------------------------------
  // Workload

  datatype WorkEntry = WorkEntry(user: UserId, role: Option<Role>, count: nat)

  function AssigneeOf(): Bug -> Option<UserId> {
    (row: Bug) => row.assignee
  }

  function OpenByAssignee(w: World, project: Option<ProjectId>): map<Option<UserId>, nat> {
    GroupBy(Map(OpenBugs(w, project), AssigneeOf()))
  }

  /** The rows of a grouped query, in some order. */
  ghost predicate ListsGroups<K(!new)>(listing: seq<K>, groups: map<K, nat>) {
    NoRepeats(listing) && forall k :: k in listing <==> k in groups
  }

  function CountsOf(entries: seq<WorkEntry>): nat {
    if entries == [] then 0 else entries[0].count + CountsOf(entries[1..])
  }

  lemma {:induction false} CountsOfAppend(entries: seq<WorkEntry>, e: WorkEntry)
    ensures CountsOf(entries + [e]) == CountsOf(entries) + e.count
  {
    if entries == [] {
      assert entries + [e] == [e];
    } else {
      CountsOfAppend(entries[1..], e);
      assert (entries + [e])[1..] == entries[1..] + [e];
    }
  }

  /** `list.sort(key=count, reverse=True)`: descending, equal counts in their old order. */
  function Insert(e: WorkEntry, sorted: seq<WorkEntry>): seq<WorkEntry> {
    if sorted == [] || e.count >= sorted[0].count then [e] + sorted else [sorted[0]] + Insert(e, sorted[1..])
  }

  function Sorted(entries: seq<WorkEntry>): seq<WorkEntry> {
    if entries == [] then [] else Insert(entries[0], Sorted(entries[1..]))
  }

  predicate IsDescending(entries: seq<WorkEntry>) {
    forall i, j | 0 <= i < j < |entries| :: entries[i].count >= entries[j].count
  }

  lemma InFront(e: WorkEntry, rest: seq<WorkEntry>)
    ensures forall x :: x in [e] + rest <==> x == e || x in rest
    ensures CountsOf([e] + rest) == e.count + CountsOf(rest)
    ensures IsDescending(rest) && (forall x <- rest :: e.count >= x.count) ==> IsDescending([e] + rest)
  {
    assert ([e] + rest)[1..] == rest;
  }

  lemma {:induction false} InsertKeeps(e: WorkEntry, sorted: seq<WorkEntry>)
    requires IsDescending(sorted)
    ensures var now := Insert(e, sorted);
            && |now| == |sorted| + 1
            && (forall x :: x in now <==> x == e || x in sorted)
            && CountsOf(now) == CountsOf(sorted) + e.count
            && IsDescending(now)
  {
    if sorted == [] || e.count >= sorted[0].count {
      InFront(e, sorted);
    } else {
      assert sorted == [sorted[0]] + sorted[1..];
      InFront(sorted[0], sorted[1..]);
      InsertKeeps(e, sorted[1..]);
      InFront(sorted[0], Insert(e, sorted[1..]));
    }
  }

  /** Sorting keeps the entries and their total. */
  lemma {:induction false} SortedKeeps(entries: seq<WorkEntry>)
    ensures var now := Sorted(entries);
            && |now| == |entries|
            && (forall x :: x in now <==> x in entries)
            && CountsOf(now) == CountsOf(entries)
            && IsDescending(now)
  {
    if entries != [] {
      SortedKeeps(entries[1..]);
      InsertKeeps(entries[0], Sorted(entries[1..]));
      assert entries == [entries[0]] + entries[1..];
    }
  }

  function RoleOf(w: World, u: UserId): Option<Role> {
    if u in w.members then Some(w.members[u]) else None
  }

  /** The entry of a user: the current role, and the number of open bugs assigned. */
  function EntryOf(w: World, project: Option<ProjectId>): UserId -> WorkEntry {
    (u: UserId) => WorkEntry(u, RoleOf(w, u), |Filter(OpenBugs(w, project), (row: Bug) => row.assignee == Some(u))|)
  }

  predicate IsStaffEntry(e: WorkEntry) {
    e.role.Some? && e.role.value in STAFF_ROLES
  }

  lemma GroupIsEntry(w: World, project: Option<ProjectId>, u: UserId)
    ensures WorkEntry(u, RoleOf(w, u), Get(OpenByAssignee(w, project), Some(u))) == EntryOf(w, project)(u)
  {
    GroupIsFilter(OpenBugs(w, project), AssigneeOf(), (row: Bug) => row.assignee == Some(u), Some(u));
  }

  /** The entries are those of the listed users who are staff, or who are not. */
  ghost predicate AreEntries(
    entry: UserId -> WorkEntry, entries: seq<WorkEntry>, listing: seq<Option<UserId>>, staff: bool) {
    && (forall e <- entries :: e == entry(e.user) && IsStaffEntry(e) == staff && Some(e.user) in listing)
    && (forall u: UserId | Some(u) in listing && IsStaffEntry(entry(u)) == staff :: entry(u) in entries)
  }

  lemma NextRow(
    entry: UserId -> WorkEntry, entries: seq<WorkEntry>, listing: seq<Option<UserId>>, row: Option<UserId>, staff: bool)
    requires AreEntries(entry, entries, listing, staff) && forall u :: entry(u).user == u
    ensures AreEntries(entry,
                       if row.Some? && IsStaffEntry(entry(row.value)) == staff then entries + [entry(row.value)]
                         else entries,
                       listing + [row], staff)
  {
  }

  /** The entry of a user, read off the grouped query. */
  function RowEntry(members: map<UserId, Role>, groups: map<Option<UserId>, nat>): UserId -> WorkEntry {
    (u: UserId) => WorkEntry(u, if u in members then Some(members[u]) else None, Get(groups, Some(u)))
  }

  method SplitByRole(members: map<UserId, Role>, groups: map<Option<UserId>, nat>, rows: seq<Option<UserId>>)
    returns (eligible: seq<WorkEntry>, unassigned: nat, needsReassignment: seq<WorkEntry>)
    requires ListsGroups(rows, groups)
    ensures CountsOf(eligible) + unassigned + CountsOf(needsReassignment) == Total(groups, rows)
    ensures unassigned == Get(groups, None)
    ensures AreEntries(RowEntry(members, groups), eligible, rows, true)
    ensures AreEntries(RowEntry(members, groups), needsReassignment, rows, false)
  {
    ghost var entry := RowEntry(members, groups);
    eligible, unassigned, needsReassignment := [], 0, [];
    for i := 0 to |rows|
      invariant CountsOf(eligible) + unassigned + CountsOf(needsReassignment) == Total(groups, rows[..i])
      invariant unassigned == if None in rows[..i] then Get(groups, None) else 0
      invariant AreEntries(entry, eligible, rows[..i], true) && AreEntries(entry, needsReassignment, rows[..i], false)
    {
      assert rows[..i + 1] == rows[..i] + [rows[i]] && rows[i] in rows && rows[i] !in rows[..i];
      NextRow(entry, eligible, rows[..i], rows[i], true);
      NextRow(entry, needsReassignment, rows[..i], rows[i], false);
      match rows[i]
      case None =>
        unassigned := groups[None];
      case Some(u) =>
        var e := WorkEntry(u, if u in members then Some(members[u]) else None, groups[Some(u)]);
        CountsOfAppend(eligible, e);
        CountsOfAppend(needsReassignment, e);
        if IsStaffEntry(e) {
          eligible := eligible + [e];
        } else {
          needsReassignment := needsReassignment + [e];
        }
    }
    assert rows[..|rows|] == rows;
  }

  method Workload(w: World, project: Option<ProjectId>, rows: seq<Option<UserId>>)
    returns (eligible: seq<WorkEntry>, unassigned: nat, needsReassignment: seq<WorkEntry>)
    requires ListsGroups(rows, OpenByAssignee(w, project))
    ensures CountsOf(eligible) + unassigned + CountsOf(needsReassignment) == OpenBugCount(w, project)
    ensures unassigned == |Filter(OpenBugs(w, project), (row: Bug) => row.assignee.None?)|
    ensures AreEntries(EntryOf(w, project), eligible, rows, true)
    ensures AreEntries(EntryOf(w, project), needsReassignment, rows, false)
    ensures IsDescending(eligible) && IsDescending(needsReassignment)
  {
    var groups := OpenByAssignee(w, project);
    eligible, unassigned, needsReassignment := SplitByRole(w.members, groups, rows);
    GroupsCoverAll(w, project, rows);
    GroupIsFilter(OpenBugs(w, project), AssigneeOf(), (row: Bug) => row.assignee.None?, None);
    SortedEntries(w, project, eligible, rows, true);
    SortedEntries(w, project, needsReassignment, rows, false);
    eligible := Sorted(eligible);
    needsReassignment := Sorted(needsReassignment);
  }

  lemma SortedEntries(
    w: World, project: Option<ProjectId>, entries: seq<WorkEntry>, rows: seq<Option<UserId>>, staff: bool)
    requires AreEntries(RowEntry(w.members, OpenByAssignee(w, project)), entries, rows, staff)
    ensures AreEntries(EntryOf(w, project), Sorted(entries), rows, staff)
    ensures IsDescending(Sorted(entries)) && CountsOf(Sorted(entries)) == CountsOf(entries)
  {
    SortedKeeps(entries);
    forall u ensures RowEntry(w.members, OpenByAssignee(w, project))(u) == EntryOf(w, project)(u) {
      GroupIsEntry(w, project, u);
    }
  }

  lemma GroupsCoverAll(w: World, project: Option<ProjectId>, rows: seq<Option<UserId>>)
    requires ListsGroups(rows, OpenByAssignee(w, project))
    ensures Total(OpenByAssignee(w, project), rows) == OpenBugCount(w, project)
  {
    var open, keys := OpenBugs(w, project), Map(OpenBugs(w, project), AssigneeOf());
    KeysAreGrouped(keys);
    forall i | 0 <= i < |open| ensures AssigneeOf()(open[i]) in rows {
      assert keys[i] in keys;
    }
    GroupsAddUp(open, AssigneeOf(), (row: Bug) => true, rows);
    FilterAll(open, (row: Bug) => true);
  }

  /** In every reachable state each workload entry has a role: no open bug is assigned to a former member. */
  lemma EveryEntryHasARole(c: Config, admin: UserId, ops: seq<Op>, project: Option<ProjectId>, u: UserId)
    requires Some(u) in OpenByAssignee(Run(c, SetUp(admin), ops), project)
    ensures EntryOf(Run(c, SetUp(admin), ops), project)(u).role.Some?
  {
    var w := Run(c, SetUp(admin), ops);
    NoDanglingReferences(c, admin, ops);
    var open := OpenBugs(w, project);
    KeysAreGrouped(Map(open, AssigneeOf()));
    var i :| 0 <= i < |open| && Map(open, AssigneeOf())[i] == Some(u);
    FilterMembers(BaseBugs(w, project), (row: Bug) => IsOpen(row.status));
    FilterMembers(w.bugs, (row: Bug) => InScope(w, project, row));
    assert open[i] in w.bugs;
    var b :| 0 <= b < |w.bugs| && w.bugs[b] == open[i];
  }

  // ---------------------------------------------------------------------------------------------
  // Active projects

  datatype ProjectRow = ProjectRow(project: ProjectId, total: nat, open: nat)

  /** The rows of live projects, in some order. */
  ghost predicate ListsActive(w: World, listing: seq<ProjectId>) {
    NoRepeats(listing) && forall p: ProjectId :: p in listing <==> (p < |w.projects| && w.projects[p].archivedAt.None?)
  }

  function LiveOf(p: ProjectId): Bug -> bool {
    (row: Bug) => row.project == p && row.archivedAt.None?
  }

  function OpenOf(p: ProjectId): Bug -> bool {
    (row: Bug) => row.project == p && row.archivedAt.None? && IsOpen(row.status)
  }

  /** Two conditional counts over the join with bugs. */
  function ActiveProjects(w: World, listing: seq<ProjectId>): seq<ProjectRow> {
    Map(listing, (p: ProjectId) => ProjectRow(p, |Filter(w.bugs, LiveOf(p))|, |Filter(w.bugs, OpenOf(p))|))
  }

  /** Counts by project, over live projects, of the bugs that satisfy `q` add up to those in scope. */
  lemma ProjectsAddUp(w: World, listing: seq<ProjectId>, q: Bug -> bool, of: ProjectId -> (Bug -> bool), ns: seq<nat>)
    requires ListsActive(w, listing) && |ns| == |listing|
    requires forall b | 0 <= b < |w.bugs| :: w.bugs[b].project < |w.projects|
    requires forall p, row :: of(p)(row) <==> row.project == p && row.archivedAt.None? && q(row)
    requires forall i | 0 <= i < |ns| :: ns[i] == |Filter(w.bugs, of(listing[i]))|
    ensures SumOf(ns) == |Filter(BaseBugs(w, None), q)|
  {
    var live := (row: Bug) => row.archivedAt.None? && q(row);
    var byProject := (row: Bug) => row.project;
    var rows := Filter(w.bugs, live);
    forall i | 0 <= i < |ns| ensures ns[i] == Get(GroupBy(Map(rows, byProject)), listing[i]) {
      var p := listing[i];
      GroupIsFilter(rows, byProject, (row: Bug) => row.project == p, p);
      FilterTwice(w.bugs, live, (row: Bug) => row.project == p, of(p));
    }
    var listed := (row: Bug) => row.project in listing;
    GroupsAddUp(rows, byProject, listed, listing);
    TotalIsSum(GroupBy(Map(rows, byProject)), listing, ns);
    LiveListedAreInScope(w, listing, q, live, listed);
  }

  lemma LiveListedAreInScope(w: World, listing: seq<ProjectId>, q: Bug -> bool, live: Bug -> bool, listed: Bug -> bool)
    requires ListsActive(w, listing) && forall b | 0 <= b < |w.bugs| :: w.bugs[b].project < |w.projects|
    requires forall row :: live(row) <==> row.archivedAt.None? && q(row)
    requires forall row :: listed(row) <==> row.project in listing
    ensures Filter(Filter(w.bugs, live), listed) == Filter(BaseBugs(w, None), q)
  {
    var liveListed := (row: Bug) => row.archivedAt.None? && q(row) && row.project in listing;
    var inScope := (row: Bug) => InScope(w, None, row) && q(row);
    FilterTwice(w.bugs, live, listed, liveListed);
    FilterTwice(w.bugs, (row: Bug) => InScope(w, None, row), q, inScope);
    FilterAgrees(w.bugs, inScope, liveListed);
  }

  /** In every reachable state the dashboard's project rows add up to the open count and to all bugs in scope. */
  lemma ActiveProjectsAddUp(c: Config, admin: UserId, ops: seq<Op>, listing: seq<ProjectId>)
    requires ListsActive(Run(c, SetUp(admin), ops), listing)
    ensures var w := Run(c, SetUp(admin), ops);
            var rows := ActiveProjects(w, listing);
            && SumOf(Map(rows, (r: ProjectRow) => r.open)) == OpenBugCount(w, None)
            && SumOf(Map(rows, (r: ProjectRow) => r.total)) == |BaseBugs(w, None)|
  {
    var w := Run(c, SetUp(admin), ops);
    RunExplains(c, admin, ops);
    forall b | 0 <= b < |w.bugs| ensures w.bugs[b].project < |w.projects| {
      assert History.RowSound(w, w.bugs[b]);
    }
    var rows := ActiveProjects(w, listing);
    ProjectsAddUp(w, listing, (row: Bug) => IsOpen(row.status), (p: ProjectId) => OpenOf(p),
                  Map(rows, (r: ProjectRow) => r.open));
    ProjectsAddUp(w, listing, (row: Bug) => true, (p: ProjectId) => LiveOf(p), Map(rows, (r: ProjectRow) => r.total));
    FilterAll(BaseBugs(w, None), (row: Bug) => true);
  }

  // ---------------------------------------------------------------------------------------------
  // Throughput against reopenings, over any set of bugs

  /** Entries into `statuses` of the bugs below `n` that are chosen. */
  function EntriesInto(w: World, n: nat, chosen: Bug -> bool, statuses: set<Status>): nat
    requires n <= |w.bugs|
  {
    if n == 0 then 0
    else
      EntriesInto(w, n - 1, chosen, statuses) +
      if chosen(w.bugs[n - 1]) then CountInto(LogOf(w.log, n - 1), statuses) else 0
  }

  predicate IsEntry(w: World, chosen: Bug -> bool, statuses: set<Status>, a: Activity) {
    a.bug < |w.bugs| && chosen(w.bugs[a.bug]) && a.event.StatusChanged? && a.event.toStatus in statuses
  }

  lemma CountIntoAppend(es: seq<Event>, e: Event, statuses: set<Status>)
    ensures CountInto(es + [e], statuses) ==
            CountInto(es, statuses) + if e.StatusChanged? && e.toStatus in statuses then 1 else 0
  {
    assert (es + [e])[..|es|] == es;
  }

  lemma OneMoreOfBug(log: seq<Activity>, a: Activity, b: BugId, statuses: set<Status>)
    ensures CountInto(LogOf(log + [a], b), statuses) ==
            CountInto(LogOf(log, b), statuses) +
            if a.bug == b && a.event.StatusChanged? && a.event.toStatus in statuses then 1 else 0
  {
    LogOfConcat(log, [a], b);
    LogOfOne(a, b);
    if a.bug == b {
      CountIntoAppend(LogOf(log, b), a.event, statuses);
    } else {
      assert LogOf(log, b) + [] == LogOf(log, b);
    }
  }

  lemma {:induction false} OneMoreEntry(
    w: World, v: World, a: Activity, n: nat, chosen: Bug -> bool, statuses: set<Status>)
    requires v.log == w.log + [a] && v.bugs == w.bugs && n <= |w.bugs|
    ensures EntriesInto(v, n, chosen, statuses) ==
            EntriesInto(w, n, chosen, statuses) + if a.bug < n && IsEntry(w, chosen, statuses, a) then 1 else 0
  {
    if n > 0 {
      OneMoreEntry(w, v, a, n - 1, chosen, statuses);
      OneMoreOfBug(w.log, a, n - 1, statuses);
    }
  }

  /** Counting entries bug by bug is counting them in the log. */
  lemma {:induction false} EntriesAreInTheLog(
    w: World, chosen: Bug -> bool, statuses: set<Status>, n: nat, p: Activity -> bool)
    requires n <= |w.log| && forall a :: p(a) <==> IsEntry(w, chosen, statuses, a)
    ensures EntriesInto(w.(log := w.log[..n]), |w.bugs|, chosen, statuses) == |Filter(w.log[..n], p)|
  {
    if n == 0 {
      NoEntries(w.(log := []), |w.bugs|, chosen, statuses);
      assert w.log[..0] == [];
    } else {
      var u, v := w.(log := w.log[..n - 1]), w.(log := w.log[..n]);
      EntriesAreInTheLog(w, chosen, statuses, n - 1, p);
      assert v.log == u.log + [w.log[n - 1]] && v.log[..n - 1] == u.log;
      OneMoreEntry(u, v, w.log[n - 1], |w.bugs|, chosen, statuses);
    }
  }

  lemma {:induction false} NoEntries(w: World, n: nat, chosen: Bug -> bool, statuses: set<Status>)
    requires w.log == [] && n <= |w.bugs|
    ensures EntriesInto(w, n, chosen, statuses) == 0
  {
    if n > 0 {
      NoEntries(w, n - 1, chosen, statuses);
    }
  }

  /** Conservation over the first `n` bugs. */
  lemma {:induction false} EntriesBalance(
    c: Config, admin: UserId, ops: seq<Op>, n: nat, chosen: Bug -> bool, terminal: Bug -> bool)
    requires ProvidersBalance(c) && n <= |Run(c, SetUp(admin), ops).bugs|
    requires forall row :: terminal(row) <==> chosen(row) && !IsOpen(row.status)
    ensures var w := Run(c, SetUp(admin), ops);
            EntriesInto(w, n, chosen, RESOLUTION_STATUSES) - EntriesInto(w, n, chosen, {Reopened})
            == |Filter(w.bugs[..n], terminal)|
  {
    var w := Run(c, SetUp(admin), ops);
    if n > 0 {
      EntriesBalance(c, admin, ops, n - 1, chosen, terminal);
      ResolutionsBalance(c, admin, ops, n - 1);
      assert w.bugs[..n][..n - 1] == w.bugs[..n - 1];
    }
  }

  /** Over any choice of bugs of any reachable state: the resolutions ever logged minus the reopenings are
      the bugs that are terminal now. */
  lemma ThroughputBalances(
    c: Config, admin: UserId, ops: seq<Op>, chosen: Bug -> bool, terminal: Bug -> bool,
    resolution: Activity -> bool, reopening: Activity -> bool)
    requires ProvidersBalance(c)
    requires forall row :: terminal(row) <==> chosen(row) && !IsOpen(row.status)
    requires forall a :: resolution(a) <==> IsEntry(Run(c, SetUp(admin), ops), chosen, RESOLUTION_STATUSES, a)
    requires forall a :: reopening(a) <==> IsEntry(Run(c, SetUp(admin), ops), chosen, {Reopened}, a)
    ensures var w := Run(c, SetUp(admin), ops);
            |Filter(w.log, resolution)| - |Filter(w.log, reopening)| == |Filter(w.bugs, terminal)|
  {
    var w := Run(c, SetUp(admin), ops);
    EntriesAreInTheLog(w, chosen, RESOLUTION_STATUSES, |w.log|, resolution);
    EntriesAreInTheLog(w, chosen, {Reopened}, |w.log|, reopening);
    assert w.log[..|w.log|] == w.log && w.(log := w.log) == w && w.bugs[..|w.bugs|] == w.bugs;
    EntriesBalance(c, admin, ops, |w.bugs|, chosen, terminal);
  }

  /** In particular for what the dashboard counts, of one project or of all. */
  lemma AllTimeThroughputBalances(c: Config, admin: UserId, ops: seq<Op>, project: Option<ProjectId>)
    requires ProvidersBalance(c)
    ensures var w := Run(c, SetUp(admin), ops);
            |BaseActivity(w, project, RESOLUTION_STATUSES)| - |BaseActivity(w, project, {Reopened})|
            == |BaseBugs(w, project)| - OpenBugCount(w, project)
  {
    var w := Run(c, SetUp(admin), ops);
    var chosen := (row: Bug) => InScope(w, project, row);
    var terminal := (row: Bug) => InScope(w, project, row) && !IsOpen(row.status);
    ThroughputBalances(c, admin, ops, chosen, terminal,
                       (a: Activity) => EntersStatus(w, project, RESOLUTION_STATUSES, a),
                       (a: Activity) => EntersStatus(w, project, {Reopened}, a));
    OpenAndTerminal(BaseBugs(w, project), (row: Bug) => IsOpen(row.status), (row: Bug) => !IsOpen(row.status));
    FilterTwice(w.bugs, chosen, (row: Bug) => !IsOpen(row.status), terminal);
  }

  lemma {:induction false} OpenAndTerminal<T>(s: seq<T>, p: T -> bool, q: T -> bool)
    requires forall x :: q(x) <==> !p(x)
    ensures |Filter(s, p)| + |Filter(s, q)| == |s|
  {
    if s != [] {
      OpenAndTerminal(s[..|s| - 1], p, q);
    }
  }

  // ---------------------------------------------------------------------------------------------
  // Every count, as the number of rows it is about

  /** Filtering keeps as many rows as there are positions that satisfy the condition. */
  lemma {:induction false} FilterCounts<T>(s: seq<T>, p: T -> bool, chosen: set<nat>)
    requires forall i: nat :: i in chosen <==> i < |s| && p(s[i])
    ensures |Filter(s, p)| == |chosen|
  {
    if s == [] {
      assert chosen == {};
    } else {
      var n := |s| - 1;
      FilterCounts(s[..n], p, chosen - {n});
    }
  }

  predicate IsResolution(s: Status) {
    s == Resolved || s == Duplicate || s == CannotReproduce || s == WontFix
  }

  predicate IsFinished(s: Status) {
    IsResolution(s) || s == Closed
  }

  /** The bug and its project are live, and the project is the one asked for, if one is. */
  predicate IsCounted(w: World, project: Option<ProjectId>, b: BugId) {
    && b < |w.bugs| && w.bugs[b].archivedAt.None?
    && (w.bugs[b].project < |w.projects| ==> w.projects[w.bugs[b].project].archivedAt.None?)
    && (project.None? || w.bugs[b].project == project.value)
  }

  lemma BugsCount(w: World, project: Option<ProjectId>, q: Bug -> bool, chosen: set<BugId>)
    requires forall b: BugId :: b in chosen <==> IsCounted(w, project, b) && q(w.bugs[b])
    ensures |Filter(BaseBugs(w, project), q)| == |chosen|
  {
    var both := (row: Bug) => InScope(w, project, row) && q(row);
    FilterTwice(w.bugs, (row: Bug) => InScope(w, project, row), q, both);
    FilterCounts(w.bugs, both, chosen);
  }

  /** The summary counts: the open bugs, the bugs created and the resolutions logged from the start of one day to
      the end of another, all in live bugs of live projects. */
  lemma SummaryCountsExactly(
    w: World, project: Option<ProjectId>, from: int, to: int, open: set<BugId>, created: set<BugId>, resolved: set<nat>)
    requires forall b: BugId :: b in open <==> IsCounted(w, project, b) && !IsFinished(w.bugs[b].status)
    requires forall b: BugId :: b in created <==>
               IsCounted(w, project, b) &&
               from * 86_400_000_000 <= w.bugs[b].createdAt < (to + 1) * 86_400_000_000
    requires forall i: nat :: i in resolved <==>
               && i < |w.log| && IsCounted(w, project, w.log[i].bug)
               && w.log[i].event.StatusChanged? && IsResolution(w.log[i].event.toStatus)
               && from * 86_400_000_000 <= w.log[i].at < (to + 1) * 86_400_000_000
    ensures OpenBugCount(w, project) == |open|
    ensures NewBugCount(w, project, from, to) == |created|
    ensures ResolvedBugCount(w, project, from, to) == |resolved|
  {
    BugsCount(w, project, (row: Bug) => IsOpen(row.status), open);
    BugsCount(w, project, (row: Bug) => InBounds(from, to, row.createdAt), created);
    var enters := (a: Activity) => EntersStatus(w, project, RESOLUTION_STATUSES, a);
    var within := (a: Activity) => InBounds(from, to, a.at);
    var both := (a: Activity) => enters(a) && within(a);
    FilterTwice(w.log, enters, within, both);
    FilterCounts(w.log, both, resolved);
  }

  /** The distribution has one entry for every status: the number of bugs in scope that have it. */
  lemma StatusDistributionExactly(w: World, project: Option<ProjectId>, s: Status, having: set<BugId>)
    requires forall b: BugId :: b in having <==> IsCounted(w, project, b) && w.bugs[b].status == s
    ensures s in StatusDistribution(w, project) && StatusDistribution(w, project)[s] == |having|
  {
    EveryStatusIsListed();
    var has := (row: Bug) => row.status == s;
    GroupIsFilter(BaseBugs(w, project), (row: Bug) => row.status, has, s);
    BugsCount(w, project, has, having);
  }

  /** A project's row has its own counts: its live bugs, and those of them that are open. */
  lemma ProjectRowExactly(w: World, listing: seq<ProjectId>, i: nat, live: set<BugId>, open: set<BugId>)
    requires i < |listing|
    requires forall b: BugId :: b in live <==>
               b < |w.bugs| && w.bugs[b].project == listing[i] && w.bugs[b].archivedAt.None?
    requires forall b: BugId :: b in open <==> b in live && b < |w.bugs| && !IsFinished(w.bugs[b].status)
    ensures |ActiveProjects(w, listing)| == |listing|
    ensures ActiveProjects(w, listing)[i] == ProjectRow(listing[i], |live|, |open|)
  {
    FilterCounts(w.bugs, LiveOf(listing[i]), live);
    FilterCounts(w.bugs, OpenOf(listing[i]), open);
  }

  /** A user's entry: the current role, and the number of open bugs in scope assigned to the user. */
  lemma WorkEntryExactly(w: World, project: Option<ProjectId>, u: UserId, mine: set<BugId>)
    requires forall b: BugId :: b in mine <==>
               IsCounted(w, project, b) && w.bugs[b].assignee == Some(u) && !IsFinished(w.bugs[b].status)
    ensures EntryOf(w, project)(u) == WorkEntry(u, if u in w.members then Some(w.members[u]) else None, |mine|)
  {
    var open, his := (row: Bug) => IsOpen(row.status), (row: Bug) => row.assignee == Some(u);
    var both := (row: Bug) => IsOpen(row.status) && row.assignee == Some(u);
    FilterTwice(BaseBugs(w, project), open, his, both);
    BugsCount(w, project, both, mine);
  }
}
