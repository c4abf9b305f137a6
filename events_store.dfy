/**
 * The append-only event log: one table of events with a unique id each,
 * written one event at a time and read back filtered by level and service,
 * newest first and cut to a clamped limit, or counted per level and per
 * service. The table is a sequence of rows in insertion order.
 */
module Events {
  import opened Wrappers
  import opened Tally
  import opened Text

  /** A JSON value, as stored in an event's `meta` column. */
  datatype Json =
    | JNull
    | JBool(b: bool)
    | JNumber(n: real)
    | JString(s: string)
    | JArray(items: seq<Json>)
    | JObject(fields: map<string, Json>)

  /** An event's free-form metadata: a JSON object. */
  type Meta = map<string, Json>

  /** One row of the events table; `ts` is an ISO-8601 timestamp string. */
  datatype Event = Event(id: string, ts: string, level: string, service: string, message: string, meta: Meta)

  /**
   * Why an insert fails: the primary key is taken, or the database itself
   * refuses the write (locked, full, read-only or corrupt).
   */
  datatype StoreError = DuplicateId(id: string) | StorageFailed

  const DefaultLimit: int := 50
  const MaxLimit: int := 500

  /** The primary-key constraint of the table. */
  ghost predicate IdsDistinct(rows: seq<Event>) {
    forall i, j :: 0 <= i < j < |rows| ==> rows[i].id != rows[j].id
  }

  predicate HasId(rows: seq<Event>, id: string) {
    exists i :: 0 <= i < |rows| && rows[i].id == id
  }

  /** `meta or {}`: an absent meta object is stored as the empty one. */
  function MetaOrEmpty(meta: Option<Meta>): (m: Meta)
    ensures meta.Some? ==> m == meta.value
    ensures meta.None? ==> m == map[]
  {
    if meta.Some? then meta.value else map[]
  }

  /** The number of rows a listing may return: the requested limit clamped to 1..500. */
  function ClampLimit(limit: int): (n: int)
    ensures 1 <= n <= MaxLimit
    ensures 1 <= limit <= MaxLimit ==> n == limit
    ensures limit < 1 ==> n == 1
    ensures limit > MaxLimit ==> n == MaxLimit
  {
    if limit < 1 then 1 else if limit > MaxLimit then MaxLimit else limit
  }

  /** A filter parameter constrains the listing only when it is given and non-empty. */
  predicate FilterActive(filter: Option<string>) {
    filter.Some? && filter.value != ""
  }

  /** Whether a row passes the level and service filters. */
  predicate Matches(e: Event, level: Option<string>, service: Option<string>) {
    (FilterActive(level) ==> e.level == level.value) &&
    (FilterActive(service) ==> e.service == service.value)
  }

  /** The rows that pass the filters, in table order. */
  function Select(rows: seq<Event>, level: Option<string>, service: Option<string>): (r: seq<Event>)
    ensures forall e :: multiset(r)[e] == if Matches(e, level, service) then multiset(rows)[e] else 0
  {
    if rows == [] then []
    else
      var n := |rows| - 1;
      assert rows == rows[..n] + [rows[n]];
      Select(rows[..n], level, service) + (if Matches(rows[n], level, service) then [rows[n]] else [])
  }

  /** Rows in non-increasing timestamp order (`ORDER BY ts DESC`). */
  predicate NewestFirst(rows: seq<Event>) {
    forall i, j :: 0 <= i < j < |rows| ==> TextLe(rows[j].ts, rows[i].ts)
  }

  /** Places `e` in front of the first row that is not newer than it. */
  function InsertByTs(e: Event, rows: seq<Event>): (r: seq<Event>)
    ensures multiset(r) == multiset(rows) + multiset{e}
  {
    if rows == [] then [e]
    else if TextLe(rows[0].ts, e.ts) then [e] + rows
    else
      assert rows == [rows[0]] + rows[1..];
      [rows[0]] + InsertByTs(e, rows[1..])
  }

  /** The rows, newest first (an insertion sort; rows with equal timestamps keep one fixed order). */
  function SortNewestFirst(rows: seq<Event>): (r: seq<Event>)
    ensures multiset(r) == multiset(rows)
  {
    if rows == [] then []
    else
      assert rows == [rows[0]] + rows[1..];
      InsertByTs(rows[0], SortNewestFirst(rows[1..]))
  }

  /** Every row of a newest-first sequence is no newer than its head. */
  lemma HeadIsNewest(rows: seq<Event>, x: Event)
    requires NewestFirst(rows) && x in rows
    ensures TextLe(x.ts, rows[0].ts)
  {
    var j :| 0 <= j < |rows| && rows[j] == x;
    if j == 0 {
      TextLeReflexive(x.ts);
    }
  }

  /** A row no older than every row of a newest-first sequence can go in front of it. */
  lemma ConsNewestFirst(h: Event, rows: seq<Event>)
    requires NewestFirst(rows)
    requires forall x :: x in rows ==> TextLe(x.ts, h.ts)
    ensures NewestFirst([h] + rows)
  {
    var r := [h] + rows;
    forall i, j | 0 <= i < j < |r| ensures TextLe(r[j].ts, r[i].ts) {
      if i > 0 {
        assert r[i] == rows[i - 1] && r[j] == rows[j - 1];
      } else {
        assert r[j] in rows;
      }
    }
  }

  lemma {:induction false} InsertKeepsOrder(e: Event, rows: seq<Event>)
    requires NewestFirst(rows)
    ensures NewestFirst(InsertByTs(e, rows))
  {
    if rows == [] {
    } else if TextLe(rows[0].ts, e.ts) {
      forall x | x in rows ensures TextLe(x.ts, e.ts) {
        HeadIsNewest(rows, x);
        TextLeTransitive(x.ts, rows[0].ts, e.ts);
      }
      ConsNewestFirst(e, rows);
    } else {
      var tail := InsertByTs(e, rows[1..]);
      InsertKeepsOrder(e, rows[1..]);
      TextLeTotal(rows[0].ts, e.ts);
      forall x | x in tail ensures TextLe(x.ts, rows[0].ts) {
        assert x in multiset(tail);
        if x != e {
          assert x in multiset(rows[1..]);
          HeadIsNewest(rows, x);
        }
      }
      ConsNewestFirst(rows[0], tail);
    }
  }

  lemma {:induction false} SortedNewestFirst(rows: seq<Event>)
    ensures NewestFirst(SortNewestFirst(rows))
  {
    if rows != [] {
      SortedNewestFirst(rows[1..]);
      InsertKeepsOrder(rows[0], SortNewestFirst(rows[1..]));
    }
  }

  /**
   * What the timestamp order and the limit leave out of a listing: a row of
   * `sorted` outside its first `n` rows is no newer than any row kept.
   */
  lemma NoneSkipped(sorted: seq<Event>, n: nat, e: Event)
    requires NewestFirst(sorted) && n <= |sorted|
    requires e in sorted && e !in sorted[..n]
    ensures forall i :: 0 <= i < n ==> TextLe(e.ts, sorted[i].ts)
  {
    var k :| 0 <= k < |sorted| && sorted[k] == e;
    assert forall i :: 0 <= i < n ==> sorted[..n][i] == sorted[i];
    assert n <= k;
  }

  /** The filtered rows come from the table, at most once each, and pass the filters. */
  lemma SelectSound(rows: seq<Event>, level: Option<string>, service: Option<string>)
    ensures multiset(Select(rows, level, service)) <= multiset(rows)
    ensures forall x :: x in Select(rows, level, service) ==> Matches(x, level, service)
  {
    forall x | x in Select(rows, level, service) ensures Matches(x, level, service) {
      assert x in multiset(Select(rows, level, service));
    }
  }

  /** The first `n` rows of a reordering of table rows that pass the filters come from the table and pass them too. */
  lemma TakeMatching(rows: seq<Event>, level: Option<string>, service: Option<string>,
                     matching: seq<Event>, sorted: seq<Event>, n: nat)
    requires multiset(matching) <= multiset(rows)
    requires forall x :: x in matching ==> Matches(x, level, service)
    requires multiset(sorted) == multiset(matching) && n <= |sorted|
    ensures forall i :: 0 <= i < n ==> sorted[..n][i] in rows && Matches(sorted[..n][i], level, service)
    ensures multiset(sorted[..n]) <= multiset(rows)
  {
    var r := sorted[..n];
    assert sorted == r + sorted[n..];
    forall i | 0 <= i < n ensures r[i] in rows && Matches(r[i], level, service) {
      assert r[i] in multiset(matching);
      assert r[i] in multiset(rows);
    }
  }

  /** The first `n` rows of a newest-first sequence are newest first. */
  lemma TakeOrdered(sorted: seq<Event>, n: nat)
    requires NewestFirst(sorted) && n <= |sorted|
    ensures NewestFirst(sorted[..n])
  {
  }

  /**
   * No matching row left out of the first `n` rows of a newest-first ordering
   * of the matching rows is newer than one kept.
   */
  lemma TakeSkipsOlder(rows: seq<Event>, level: Option<string>, service: Option<string>, sorted: seq<Event>, n: nat)
    requires multiset(sorted) == multiset(Select(rows, level, service))
    requires NewestFirst(sorted) && n <= |sorted|
    ensures forall e, i :: e in rows && Matches(e, level, service) && e !in sorted[..n] && 0 <= i < n ==>
              TextLe(e.ts, sorted[..n][i].ts)
  {
    forall e | e in rows && Matches(e, level, service) && e !in sorted[..n]
      ensures forall i :: 0 <= i < n ==> TextLe(e.ts, sorted[..n][i].ts)
    {
      assert e in multiset(rows);
      assert e in multiset(sorted);
      NoneSkipped(sorted, n, e);
    }
  }

  /** The two text columns that listings filter on and the summary groups by. */
  datatype Column = LevelColumn | ServiceColumn

  function ValueIn(e: Event, c: Column): string {
    match c
    case LevelColumn => e.level
    case ServiceColumn => e.service
  }

  /** The filter argument for column `want` that selects value `v` of column `c`: `v` on `c` itself, none elsewhere. */
  function FilterFor(c: Column, want: Column, v: string): Option<string> {
    if c == want then Some(v) else None
  }

  /** The values of column `c`, in table order. */
  function ColumnValues(rows: seq<Event>, c: Column): (r: seq<string>)
    ensures |r| == |rows|
  {
    if rows == [] then [] else ColumnValues(rows[..|rows| - 1], c) + [ValueIn(rows[|rows| - 1], c)]
  }

  lemma {:induction false} ColumnValuesAt(rows: seq<Event>, c: Column)
    ensures forall i :: 0 <= i < |rows| ==> ColumnValues(rows, c)[i] == ValueIn(rows[i], c)
  {
    if rows != [] {
      ColumnValuesAt(rows[..|rows| - 1], c);
    }
  }

  /** `SELECT k, COUNT(*) … GROUP BY k` over the column values `keys`: each value present, with how often. */
  function GroupCount(keys: seq<string>): (r: map<string, nat>)
    ensures forall k :: k in r <==> k in keys
    ensures forall k :: k in r ==> r[k] == multiset(keys)[k]
  {
    if keys == [] then map[]
    else
      var n := |keys| - 1;
      assert keys == keys[..n] + [keys[n]];
      var rest := GroupCount(keys[..n]);
      rest[keys[n] := Get(rest, keys[n]) + 1]
  }

  /** The group counts add up to the number of rows. */
  lemma {:induction false} GroupCountTotal(keys: seq<string>)
    ensures MapSum(GroupCount(keys)) == |keys|
  {
    if keys != [] {
      var n := |keys| - 1;
      var rest := GroupCount(keys[..n]);
      assert GroupCount(keys) == rest[keys[n] := Get(rest, keys[n]) + 1];
      GroupCountTotal(keys[..n]);
      MapSumUpdate(rest, keys[n], Get(rest, keys[n]) + 1);
    }
  }

  /** Counting a column's non-empty value agrees with listing by that value. */
  lemma {:induction false} CountIsFilterSize(rows: seq<Event>, c: Column, v: string)
    requires v != ""
    ensures multiset(ColumnValues(rows, c))[v]
            == |Select(rows, FilterFor(c, LevelColumn, v), FilterFor(c, ServiceColumn, v))|
  {
    if rows != [] {
      var n := |rows| - 1;
      var level, service := FilterFor(c, LevelColumn, v), FilterFor(c, ServiceColumn, v);
      assert Matches(rows[n], level, service) <==> ValueIn(rows[n], c) == v;
      assert ColumnValues(rows, c) == ColumnValues(rows[..n], c) + [ValueIn(rows[n], c)];
      CountIsFilterSize(rows[..n], c, v);
    }
  }

  /** Rows per level and rows per service. */
  datatype EventSummary = EventSummary(byLevel: map<string, nat>, byService: map<string, nat>) {
    /** The counts grouped by column `c`. */
    function Of(c: Column): map<string, nat> {
      match c
      case LevelColumn => byLevel
      case ServiceColumn => byService
    }
  }

  class EventStore {
    /** The events table, in insertion order. */
    var events: seq<Event>

    ghost predicate Valid()
      reads this
    {
      IdsDistinct(events)
    }

    /** A store over the table's existing rows. */
    constructor (existing: seq<Event>)
      requires IdsDistinct(existing)
      ensures Valid() && events == existing
    {
      events := existing;
    }

    /**
     * Inserts one event with the given (fresh) id and timestamp and echoes it
     * back. When the database refuses the write (`dbFails`) or the id is
     * already in the table, the insert fails and nothing is written.
     */
    method AddEvent(id: string, ts: string, level: string, service: string, message: string, meta: Option<Meta>,
                    dbFails: bool)
      returns (r: Result<Event, StoreError>)
      requires Valid()
      modifies this
      ensures Valid()
      ensures dbFails ==> r == Err(StorageFailed) && events == old(events)
      ensures !dbFails && HasId(old(events), id) ==> r == Err(DuplicateId(id)) && events == old(events)
      ensures !dbFails && !HasId(old(events), id) ==>
        r == Ok(Event(id, ts, level, service, message, MetaOrEmpty(meta))) && events == old(events) + [r.value]
    {
      if dbFails {
        return Err(StorageFailed);
      }
      if HasId(events, id) {
        return Err(DuplicateId(id));
      }
      var e := Event(id, ts, level, service, message, MetaOrEmpty(meta));
      events := events + [e];
      r := Ok(e);
    }

    /**
     * The rows passing the level and service filters, newest first, at most
     * the clamped limit of them: every row returned matches, the listing is in
     * timestamp order, it takes each table row at most once, it is as long as
     * the limit and the matching rows allow, and no matching row left out is
     * newer than a row returned.
     */
    function ListEvents(limit: int, level: Option<string>, service: Option<string>): (r: seq<Event>)
      reads this
      ensures |r| == if |Select(events, level, service)| < ClampLimit(limit)
                     then |Select(events, level, service)| else ClampLimit(limit)
      ensures forall i :: 0 <= i < |r| ==> r[i] in events && Matches(r[i], level, service)
      ensures NewestFirst(r)
      ensures multiset(r) <= multiset(events)
      ensures forall e, i :: e in events && Matches(e, level, service) && e !in r && 0 <= i < |r| ==>
                TextLe(e.ts, r[i].ts)
    {
      var matching := Select(events, level, service);
      var sorted := SortNewestFirst(matching);
      SortedNewestFirst(matching);
      var n := if |sorted| < ClampLimit(limit) then |sorted| else ClampLimit(limit);
      SelectSound(events, level, service);
      TakeMatching(events, level, service, matching, sorted, n);
      TakeOrdered(sorted, n);
      TakeSkipsOlder(events, level, service, sorted, n);
      sorted[..n]
    }

    /**
     * The number of events per level and per service, for every level and
     * service that occurs; a level or service absent from the table has no entry.
     */
    function Summary(): (s: EventSummary)
      reads this
      ensures forall l :: l in s.byLevel <==> exists i :: 0 <= i < |events| && events[i].level == l
      ensures forall l :: l in s.byLevel ==> s.byLevel[l] == multiset(ColumnValues(events, LevelColumn))[l]
      ensures forall v :: v in s.byService <==> exists i :: 0 <= i < |events| && events[i].service == v
      ensures forall v :: v in s.byService ==> s.byService[v] == multiset(ColumnValues(events, ServiceColumn))[v]
    {
      ColumnValuesAt(events, LevelColumn);
      ColumnValuesAt(events, ServiceColumn);
      EventSummary(GroupCount(ColumnValues(events, LevelColumn)), GroupCount(ColumnValues(events, ServiceColumn)))
    }
  }

  /** The level counts and the service counts each add up to the number of events. */
  lemma SummaryTotals(store: EventStore, c: Column)
    ensures MapSum(store.Summary().Of(c)) == |store.events|
  {
    GroupCountTotal(ColumnValues(store.events, c));
  }

  /**
   * The count of a non-empty level or service is the number of rows the
   * filter on it selects, before any limit is applied.
   */
  lemma SummaryAgreesWithFilter(store: EventStore, c: Column, v: string)
    requires v != ""
    ensures Get(store.Summary().Of(c), v)
            == |Select(store.events, FilterFor(c, LevelColumn, v), FilterFor(c, ServiceColumn, v))|
  {
    CountIsFilterSize(store.events, c, v);
  }
}
