/** What each usage-logging step computes from the value it read: the new
    download total, the new month map of the current year, and the new download
    history of a user (with its one-time v1 -> v2 migration); and the recovery
    job queue with its one-pending-action-per-group rule. */
module UsageLog {
  import opened Wrappers
  import opened Decimal
  import opened PhpValues
  import opened Calendar

  const TotalKey := "_total_downloads"

  /** `++$total` on the stored total, read as a number (absent counts as 0). */
  function NextTotal(stored: MetaValue): int {
    IntVal(stored) + 1
  }

  /** The total after `k` successful increments, starting from `stored`. */
  function TotalAfter(stored: MetaValue, k: nat): MetaValue {
    if k == 0 then stored else Count(NextTotal(TotalAfter(stored, k - 1)))
  }

  /** Every successful increment adds exactly one to the total the stats path
      reads back, so `k` downloads of a never-downloaded dataset read as `k`. */
  lemma {:induction false} TotalCountsIncrements(stored: MetaValue, k: nat)
    ensures IntVal(TotalAfter(stored, k)) == IntVal(stored) + k
  {
    if k > 0 {
      TotalCountsIncrements(stored, k - 1);
    }
  }

  /** The stored year value as the month map the logger works on: anything that
      is not an array is replaced by a fresh, empty one. */
  function MonthsOf(stored: MetaValue): map<string, int> {
    if stored.Months? then stored.counts else map[]
  }

  /** `log_monthly_download_count` on the year's stored value: the current
      month goes up by one, except that a month's first download stores 2
      (the count is set to 1 and then incremented); no other month changes. */
  function BumpMonth(stored: MetaValue, month: Month): (r: map<string, int>)
    ensures r.Keys == MonthsOf(stored).Keys + {MonthKey(month)}
    ensures r[MonthKey(month)]
         == if MonthKey(month) in MonthsOf(stored) then MonthsOf(stored)[MonthKey(month)] + 1 else 2
    ensures forall k :: k in MonthsOf(stored) && k != MonthKey(month) ==> r[k] == MonthsOf(stored)[k]
  {
    var key := MonthKey(month);
    var data := MonthsOf(stored);
    var data := if key !in data then data[key := 1] else data;
    data[key := data[key] + 1]
  }

  /** PHP array keys. */
  datatype Key = IntKey(i: int) | StrKey(s: string)

  /** Values kept in a user's data: the opaque v1 payload and the v2 entries. */
  datatype Json = JInt(i: int) | JStr(s: string) | JArr(items: map<Key, Json>)

  /** The `datasets` array of a user's data: the `v2` map when that key exists,
      and every other key of the array. */
  datatype History = History(others: map<Key, Json>, v2: Option<map<int, Json>>)

  /** A history one PHP array can hold: the `v2` key is not also among the
      other keys. */
  predicate WellFormed(h: History) {
    StrKey("v2") !in h.others
  }

  /** A user without a `datasets` key reads as an empty array. */
  const NoHistory := History(map[], None)

  /** The one-time upgrade: a non-empty array without `v2` moves under `v1`
      next to an empty `v2`; an empty one gets an empty `v2`; one that has `v2`
      is left as it is. */
  function Migrate(h: History): (r: History)
    ensures r.v2.Some?
    ensures h.v2.Some? ==> r == h
    ensures WellFormed(h) ==> WellFormed(r)
  {
    match h.v2
    case Some(_) => h
    case None =>
      if h.others != map[] then History(map[StrKey("v1") := JArr(h.others)], Some(map[]))
      else History(h.others, Some(map[]))
  }

  /** Migrating twice is migrating once. */
  lemma MigrateIdempotent(h: History)
    ensures Migrate(Migrate(h)) == Migrate(h)
  {
  }

  /** The v1 payload is kept verbatim under `v1`, and `v2` starts empty. */
  lemma MigrateKeepsLegacyPayload(h: History)
    requires h.v2.None? && h.others != map[]
    ensures Migrate(h).others == map[StrKey("v1") := JArr(h.others)]
    ensures Migrate(h).v2 == Some(map[])
  {
  }

  /** PHP 8 loose comparison `$value == $n` of a stored value with an int:
      an array never equals an int. */
  predicate LooselyEqualsInt(value: Json, n: int) {
    match value
    case JInt(i) => i == n
    case JStr(s) => IsIntString(s) && ParseInt(s) == n
    case JArr(_) => false
  }

  /** `in_array($n, $values)`: searches the values of the map, not its keys. */
  predicate InValues(n: int, values: map<int, Json>) {
    exists k :: k in values && LooselyEqualsInt(values[k], n)
  }

  const DateKey := StrKey("date")

  /** The entry array `{date, url, title}` written for a dataset. */
  function EntryJson(date: string, url: string, title: string): Json {
    JArr(map[DateKey := JStr(date), StrKey("url") := JStr(url), StrKey("title") := JStr(title)])
  }

  /** `$entry['date'] = $date`: sets the key on an array; a missing entry is
      created as a one-key array. */
  function WithDate(entry: Json, date: string): Json {
    match entry
    case JArr(items) => JArr(items[DateKey := JStr(date)])
    case _ => JArr(map[DateKey := JStr(date)])
  }

  /** The date stored in an entry, if it has one. */
  function DateOf(entry: Json): Option<string> {
    if entry.JArr? && DateKey in entry.items && entry.items[DateKey].JStr? then Some(entry.items[DateKey].s)
    else None
  }

  /** `log_dataset_to_user` on the history it read: migrate, then record the
      dataset under its ID in `v2` (new entry when the value search finds no
      match, otherwise only the date is refreshed); nothing else changes. */
  function RecordDownload(h: History, id: int, date: string, url: string, title: string): (r: History)
    ensures r.v2.Some? && id in r.v2.value
    ensures r.others == Migrate(h).others
    ensures r.v2.value.Keys == Migrate(h).v2.value.Keys + {id}
    ensures forall k :: k in Migrate(h).v2.value && k != id ==> r.v2.value[k] == Migrate(h).v2.value[k]
    ensures DateOf(r.v2.value[id]) == Some(date)
    ensures WellFormed(h) ==> WellFormed(r)
  {
    var m := Migrate(h);
    var v2 := m.v2.value;
    var entry :=
      if !InValues(id, v2) then EntryJson(date, url, title)
      else WithDate(if id in v2 then v2[id] else JArr(map[]), date);
    History(m.others, Some(v2[id := entry]))
  }

  /** Entry maps hold arrays only, as every entry this code writes is one. */
  predicate EntriesOnly(values: map<int, Json>) {
    forall k :: k in values ==> values[k].JArr?
  }

  /** The value search compares the ID with entry arrays, which never equal an
      int, so on a history of entries the insert branch always runs: the entry
      is rewritten whole, url and title included. */
  lemma RecordDownloadAlwaysInserts(h: History, id: int, date: string, url: string, title: string)
    requires EntriesOnly(Migrate(h).v2.value)
    ensures !InValues(id, Migrate(h).v2.value)
    ensures RecordDownload(h, id, date, url, title).v2.value[id] == EntryJson(date, url, title)
    ensures EntriesOnly(RecordDownload(h, id, date, url, title).v2.value)
  {
    var v2 := Migrate(h).v2.value;
    forall k | k in v2 ensures !LooselyEqualsInt(v2[k], id) {
      assert v2[k].JArr?;
    }
  }

  /** Logging the same dataset twice leaves one entry for it, holding the date,
      url and title of the second download. */
  lemma RepeatDownloadKeepsOneEntry(h: History, id: int, d1: string, u1: string, t1: string,
                                    d2: string, u2: string, t2: string)
    requires EntriesOnly(Migrate(h).v2.value)
    ensures var once := RecordDownload(h, id, d1, u1, t1);
            var twice := RecordDownload(once, id, d2, u2, t2);
            twice.v2.value.Keys == once.v2.value.Keys
            && twice.v2.value[id] == EntryJson(d2, u2, t2)
            && twice.others == once.others
  {
    var once := RecordDownload(h, id, d1, u1, t1);
    RecordDownloadAlwaysInserts(h, id, d1, u1, t1);
    assert Migrate(once) == once;
    RecordDownloadAlwaysInserts(once, id, d2, u2, t2);
  }

  /** A first download by a user with no history. */
  lemma FirstDownloadHistory(id: int, date: string, url: string, title: string)
    ensures RecordDownload(NoHistory, id, date, url, title)
         == History(map[], Some(map[id := EntryJson(date, url, title)]))
  {
    RecordDownloadAlwaysInserts(NoHistory, id, date, url, title);
  }

  /** Arguments of a `prc_dataset_recovery` action. */
  datatype RecoveryArgs = RecoveryArgs(datasetId: int, fileUrl: string)

  /** An Action Scheduler async action: hook, arguments, group and priority. */
  datatype Action = Action(hook: string, args: RecoveryArgs, group: string, priority: int)

  const RecoveryHook := "prc_dataset_recovery"
  const RecoveryPriority := 5

  /** The action `attempt_download_from_archive` enqueues: grouped by dataset ID. */
  function RecoveryAction(datasetId: int, fileUrl: string): Action {
    Action(RecoveryHook, RecoveryArgs(datasetId, fileUrl), IntToString(datasetId), RecoveryPriority)
  }

  /** Some pending action has this hook and group. */
  predicate Pending(queue: seq<Action>, hook: string, group: string) {
    exists i :: 0 <= i < |queue| && queue[i].hook == hook && queue[i].group == group
  }

  /** No two pending actions share hook and group. */
  predicate UniqueActions(queue: seq<Action>) {
    forall i, j :: 0 <= i < j < |queue| ==> queue[i].hook != queue[j].hook || queue[i].group != queue[j].group
  }

  /** `as_enqueue_async_action(..., $unique = true)`: the action is added unless
      one with the same hook and group is already pending. */
  function EnqueueUnique(queue: seq<Action>, action: Action): (r: seq<Action>)
    ensures UniqueActions(queue) ==> UniqueActions(r)
    ensures Pending(r, action.hook, action.group)
    ensures forall i :: 0 <= i < |queue| ==> i < |r| && r[i] == queue[i]
    ensures |r| == if Pending(queue, action.hook, action.group) then |queue| else |queue| + 1
    ensures Pending(queue, action.hook, action.group) ==> r == queue
    ensures !Pending(queue, action.hook, action.group) ==> r == queue + [action]
  {
    if Pending(queue, action.hook, action.group) then queue
    else
      var r := queue + [action];
      assert r[|queue|] == action;
      r
  }

  /** Scheduling the same dataset again while its action is pending adds nothing. */
  lemma RecoveryEnqueueIdempotent(queue: seq<Action>, datasetId: int, url1: string, url2: string)
    ensures var once := EnqueueUnique(queue, RecoveryAction(datasetId, url1));
            EnqueueUnique(once, RecoveryAction(datasetId, url2)) == once
  {
  }

  /** Recovery actions of different datasets are in different groups, so one
      never blocks the other. */
  lemma RecoveryGroupsDistinct(a: int, b: int, url1: string, url2: string)
    requires a != b
    ensures RecoveryAction(a, url1).group != RecoveryAction(b, url2).group
  {
    if IntToString(a) == IntToString(b) {
      IntToStringInjective(a, b);
    }
  }
}
