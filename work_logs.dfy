/**
 * Daily work logs (hrms/app/Http/Controllers/Api/WorkLogController.php): an upsert table keyed
 * by (staff member, log date) shared by store, bulkStore and clockIn; clock-out and edits of one
 * row; and the attendance summary of a period. Dates are day numbers; the user, "now" and the
 * request IP are parameters.
 */
module WorkLogs {
  import opened Wrappers
  import opened Http

  datatype WorkStatus = Present | Absent | HalfDay | OnLeave | Holiday

  function StatusName(s: WorkStatus): string {
    match s
    case Present => "present"
    case Absent => "absent"
    case HalfDay => "half_day"
    case OnLeave => "on_leave"
    case Holiday => "holiday"
  }

  /** The `in:present,absent,half_day,on_leave,holiday` rule. */
  function ParseStatus(s: string): Option<WorkStatus> {
    if s == "present" then Some(Present)
    else if s == "absent" then Some(WorkStatus.Absent)
    else if s == "half_day" then Some(HalfDay)
    else if s == "on_leave" then Some(OnLeave)
    else if s == "holiday" then Some(Holiday)
    else None
  }

  /** The accepted status strings are exactly the five status names, each naming its own status. */
  lemma ParseStatusNames(s: string, st: WorkStatus)
    ensures ParseStatus(StatusName(st)) == Some(st)
    ensures ParseStatus(s) == Some(st) <==> s == StatusName(st)
    ensures ParseStatus(s).Some? <==> s in {"present", "absent", "half_day", "on_leave", "holiday"}
  {
  }

  predicate IsDigit(c: char) {
    '0' <= c <= '9'
  }

  function DigitValue(c: char): int
    requires IsDigit(c)
  {
    c as int - '0' as int
  }

  /** The `date_format:H:i` rule: two-digit hour 00-23, a colon, two-digit minute 00-59. */
  predicate IsHourMinute(s: string) {
    && |s| == 5 && IsDigit(s[0]) && IsDigit(s[1]) && s[2] == ':' && IsDigit(s[3]) && IsDigit(s[4])
    && DigitValue(s[0]) * 10 + DigitValue(s[1]) <= 23
    && DigitValue(s[3]) <= 5
  }

  /** A `staff_members` row: only its id and the user it belongs to matter here. */
  datatype StaffMember = StaffMember(id: nat, userId: Option<nat>)

  /** A `work_logs` row. */
  datatype WorkLog = WorkLog(
    id: nat, staffMemberId: nat, logDate: int, status: WorkStatus,
    clockIn: Option<string>, clockOut: Option<string>, clockInIp: Option<string>, clockOutIp: Option<string>,
    lateMinutes: Option<int>, earlyLeaveMinutes: Option<int>, overtimeMinutes: Option<int>,
    breakMinutes: Option<int>, notes: Option<string>, authorId: Option<nat>)

  /** One attribute of the values array given to `updateOrCreate` / `update`: left alone, or set. */
  datatype Patch<T> = Keep | Put(value: T)

  /** The values array of an `updateOrCreate` or `update` call, column by column. */
  datatype Changes = Changes(
    status: Patch<WorkStatus>, clockIn: Patch<Option<string>>, clockOut: Patch<Option<string>>,
    clockInIp: Patch<Option<string>>, clockOutIp: Patch<Option<string>>,
    lateMinutes: Patch<Option<int>>, earlyLeaveMinutes: Patch<Option<int>>, overtimeMinutes: Patch<Option<int>>,
    breakMinutes: Patch<Option<int>>, notes: Patch<Option<string>>, authorId: Patch<Option<nat>>)

  const NoChanges := Changes(Keep, Keep, Keep, Keep, Keep, Keep, Keep, Keep, Keep, Keep, Keep)

  function Pick<T>(p: Patch<T>, current: T): T {
    match p
    case Keep => current
    case Put(v) => v
  }

  /** The row after `fill($values)`: set columns take the new value, the rest keep theirs. */
  function Apply(row: WorkLog, ch: Changes): WorkLog {
    row.(status := Pick(ch.status, row.status), clockIn := Pick(ch.clockIn, row.clockIn),
         clockOut := Pick(ch.clockOut, row.clockOut), clockInIp := Pick(ch.clockInIp, row.clockInIp),
         clockOutIp := Pick(ch.clockOutIp, row.clockOutIp), lateMinutes := Pick(ch.lateMinutes, row.lateMinutes),
         earlyLeaveMinutes := Pick(ch.earlyLeaveMinutes, row.earlyLeaveMinutes),
         overtimeMinutes := Pick(ch.overtimeMinutes, row.overtimeMinutes),
         breakMinutes := Pick(ch.breakMinutes, row.breakMinutes), notes := Pick(ch.notes, row.notes),
         authorId := Pick(ch.authorId, row.authorId))
  }

  /** The row a create inserts: key columns from the attributes, the rest from the values, NULL otherwise. */
  function NewRow(id: nat, staffMemberId: nat, logDate: int, ch: Changes): WorkLog
    requires ch.status.Put?
  {
    Apply(WorkLog(id, staffMemberId, logDate, ch.status.value, None, None, None, None, None, None, None, None, None, None), ch)
  }

  /** Every column the values array sets holds that value in the row. */
  predicate Reflects(row: WorkLog, ch: Changes) {
    && (ch.status.Put? ==> row.status == ch.status.value)
    && (ch.clockIn.Put? ==> row.clockIn == ch.clockIn.value)
    && (ch.clockOut.Put? ==> row.clockOut == ch.clockOut.value)
    && (ch.clockInIp.Put? ==> row.clockInIp == ch.clockInIp.value)
    && (ch.clockOutIp.Put? ==> row.clockOutIp == ch.clockOutIp.value)
    && (ch.lateMinutes.Put? ==> row.lateMinutes == ch.lateMinutes.value)
    && (ch.earlyLeaveMinutes.Put? ==> row.earlyLeaveMinutes == ch.earlyLeaveMinutes.value)
    && (ch.overtimeMinutes.Put? ==> row.overtimeMinutes == ch.overtimeMinutes.value)
    && (ch.breakMinutes.Put? ==> row.breakMinutes == ch.breakMinutes.value)
    && (ch.notes.Put? ==> row.notes == ch.notes.value)
    && (ch.authorId.Put? ==> row.authorId == ch.authorId.value)
  }

  /** Apply sets exactly what it is given: the given columns take their values, the id and the key never move. */
  lemma ApplyReflects(row: WorkLog, ch: Changes)
    ensures Reflects(Apply(row, ch), ch)
    ensures Apply(row, ch).id == row.id && Apply(row, ch).staffMemberId == row.staffMemberId
    ensures Apply(row, ch).logDate == row.logDate
    ensures ch == NoChanges ==> Apply(row, ch) == row
  {
  }

  predicate NonNegative(m: Option<int>) {
    m.None? || m.value >= 0
  }

  predicate PatchNonNegative(p: Patch<Option<int>>) {
    p.Put? ==> NonNegative(p.value)
  }

  /** The `integer|min:0` rules hold of everything the values array writes into a minute column. */
  predicate MinutesOk(ch: Changes) {
    PatchNonNegative(ch.lateMinutes) && PatchNonNegative(ch.earlyLeaveMinutes)
    && PatchNonNegative(ch.overtimeMinutes) && PatchNonNegative(ch.breakMinutes)
  }

  predicate RowMinutesOk(r: WorkLog) {
    NonNegative(r.lateMinutes) && NonNegative(r.earlyLeaveMinutes)
    && NonNegative(r.overtimeMinutes) && NonNegative(r.breakMinutes)
  }

  predicate HasKey(r: WorkLog, staffMemberId: nat, logDate: int) {
    r.staffMemberId == staffMemberId && r.logDate == logDate
  }

  /**
   * The table as the controller keeps it: ids increase in table order and lie below nextId,
   * no two rows share a (staff member, date) key, and no minute column is negative.
   */
  ghost predicate TableValid(rows: seq<WorkLog>, nextId: nat) {
    && (forall k :: 0 <= k < |rows| ==> rows[k].id < nextId && RowMinutesOk(rows[k]))
    && (forall j, k :: 0 <= j < k < |rows| ==>
          rows[j].id < rows[k].id && !HasKey(rows[k], rows[j].staffMemberId, rows[j].logDate))
  }

  /** `WorkLog::where('staff_member_id', ..)->where('log_date', ..)->first()`: the row's position. */
  function FindKey(rows: seq<WorkLog>, staffMemberId: nat, logDate: int): (r: Option<nat>)
    ensures r.Some? ==> r.value < |rows| && HasKey(rows[r.value], staffMemberId, logDate)
    ensures r.Some? ==> forall j :: 0 <= j < r.value ==> !HasKey(rows[j], staffMemberId, logDate)
    ensures r.None? ==> forall j :: 0 <= j < |rows| ==> !HasKey(rows[j], staffMemberId, logDate)
  {
    if |rows| == 0 then None
    else if HasKey(rows[0], staffMemberId, logDate) then Some(0)
    else match FindKey(rows[1..], staffMemberId, logDate)
      case None => None
      case Some(k) => Some(k + 1)
  }

  function RowFor(rows: seq<WorkLog>, staffMemberId: nat, logDate: int): Option<WorkLog> {
    match FindKey(rows, staffMemberId, logDate)
    case None => None
    case Some(i) => Some(rows[i])
  }

  /** How many rows carry this key. */
  function KeyCount(rows: seq<WorkLog>, staffMemberId: nat, logDate: int): nat {
    if |rows| == 0 then 0
    else KeyCount(rows[..|rows| - 1], staffMemberId, logDate) + if HasKey(rows[|rows| - 1], staffMemberId, logDate) then 1 else 0
  }

  /** `updateOrCreate(['staff_member_id' => s, 'log_date' => d], $values)`. */
  function Upsert(rows: seq<WorkLog>, nextId: nat, staffMemberId: nat, logDate: int, ch: Changes): (seq<WorkLog>, nat)
    requires ch.status.Put?
  {
    match FindKey(rows, staffMemberId, logDate)
    case Some(i) => (rows[i := Apply(rows[i], ch)], nextId)
    case None => (rows + [NewRow(nextId, staffMemberId, logDate, ch)], nextId + 1)
  }

  /** One `updateOrCreate` call of a batch: the key and the values. */
  datatype KeyedChanges = KeyedChanges(staffMemberId: nat, logDate: int, changes: Changes)

  /** The `foreach` of bulkStore: one upsert per entry, in input order. */
  function UpsertAll(rows: seq<WorkLog>, nextId: nat, items: seq<KeyedChanges>): (seq<WorkLog>, nat)
    requires forall k :: 0 <= k < |items| ==> items[k].changes.status.Put?
  {
    if |items| == 0 then (rows, nextId)
    else
      var (r, n) := UpsertAll(rows, nextId, items[..|items| - 1]);
      var last := items[|items| - 1];
      Upsert(r, n, last.staffMemberId, last.logDate, last.changes)
  }

  /**
   * The row item k of a batch finds under its key once its own upsert is done: what that
   * item's `updateOrCreate` returns.
   */
  function Saved(rows: seq<WorkLog>, nextId: nat, items: seq<KeyedChanges>, k: nat): Option<WorkLog>
    requires forall j :: 0 <= j < |items| ==> items[j].changes.status.Put?
    requires k < |items|
  {
    RowFor(UpsertAll(rows, nextId, items[..k + 1]).0, items[k].staffMemberId, items[k].logDate)
  }

  /** The row one more upsert returns extends the rows a batch has collected so far. */
  lemma SavedStep(rows: seq<WorkLog>, nextId: nat, items: seq<KeyedChanges>, i: nat, created: seq<WorkLog>, row: WorkLog)
    requires forall j :: 0 <= j < |items| ==> items[j].changes.status.Put?
    requires i < |items| && |created| == i
    requires forall k :: 0 <= k < i ==>
               Saved(rows, nextId, items, k) == Some(created[k]) && Reflects(created[k], items[k].changes)
    requires RowFor(UpsertAll(rows, nextId, items[..i + 1]).0, items[i].staffMemberId, items[i].logDate) == Some(row)
    requires Reflects(row, items[i].changes)
    ensures forall k :: 0 <= k < i + 1 ==>
              Saved(rows, nextId, items, k) == Some((created + [row])[k]) && Reflects((created + [row])[k], items[k].changes)
  {
  }

  /** One more item of a batch is one more upsert on the table the earlier items left. */
  lemma UpsertAllStep(rows: seq<WorkLog>, nextId: nat, items: seq<KeyedChanges>, i: nat)
    requires forall k :: 0 <= k < |items| ==> items[k].changes.status.Put?
    requires i < |items|
    ensures UpsertAll(rows, nextId, items[..i + 1])
              == Upsert(UpsertAll(rows, nextId, items[..i]).0, UpsertAll(rows, nextId, items[..i]).1,
                        items[i].staffMemberId, items[i].logDate, items[i].changes)
  {
    assert items[..i + 1][..i] == items[..i];
  }

  // ---------------------------------------------------------------------------------------
  // What one upsert does

  /** With unique keys a found key occurs exactly once. */
  lemma {:induction false} UniqueKeyCount(rows: seq<WorkLog>, nextId: nat, staffMemberId: nat, logDate: int)
    requires TableValid(rows, nextId)
    ensures KeyCount(rows, staffMemberId, logDate) == if FindKey(rows, staffMemberId, logDate).Some? then 1 else 0
    decreases |rows|
  {
    if |rows| > 0 {
      var front := rows[..|rows| - 1];
      TableValidPrefix(rows, nextId);
      UniqueKeyCount(front, nextId, staffMemberId, logDate);
      KeyCountStep(rows, nextId, staffMemberId, logDate);
    }
  }

  lemma TableValidPrefix(rows: seq<WorkLog>, nextId: nat)
    requires TableValid(rows, nextId) && |rows| > 0
    ensures TableValid(rows[..|rows| - 1], nextId)
  {
  }

  /** The last row carries the key exactly when the rows before it do not and the whole table does. */
  lemma KeyCountStep(rows: seq<WorkLog>, nextId: nat, staffMemberId: nat, logDate: int)
    requires TableValid(rows, nextId) && |rows| > 0
    ensures var front := rows[..|rows| - 1];
            FindKey(rows, staffMemberId, logDate).Some? <==>
              FindKey(front, staffMemberId, logDate).Some? || HasKey(rows[|rows| - 1], staffMemberId, logDate)
    ensures HasKey(rows[|rows| - 1], staffMemberId, logDate) ==> FindKey(rows[..|rows| - 1], staffMemberId, logDate).None?
  {
    var n := |rows|;
    var front := rows[..n - 1];
    if FindKey(front, staffMemberId, logDate).Some? {
      var j := FindKey(front, staffMemberId, logDate).value;
      assert rows[j] == front[j];
    }
    if FindKey(rows, staffMemberId, logDate).Some? {
      var j := FindKey(rows, staffMemberId, logDate).value;
      if j < n - 1 { assert rows[j] == front[j]; }
    }
  }

  /**
   * An upsert keeps the table valid, leaves exactly one row with its key, holding the given
   * values (over the old row's, or over NULLs for a new row), and changes no other key's row.
   */
  lemma UpsertEffect(rows: seq<WorkLog>, nextId: nat, staffMemberId: nat, logDate: int, ch: Changes)
    requires TableValid(rows, nextId) && ch.status.Put? && MinutesOk(ch)
    ensures var (rows', nextId') := Upsert(rows, nextId, staffMemberId, logDate, ch);
            && TableValid(rows', nextId')
            && KeyCount(rows', staffMemberId, logDate) == 1
            && RowFor(rows', staffMemberId, logDate) == Some(
                 match RowFor(rows, staffMemberId, logDate)
                 case Some(before) => Apply(before, ch)
                 case None => NewRow(nextId, staffMemberId, logDate, ch))
            && Reflects(RowFor(rows', staffMemberId, logDate).value, ch)
            && (forall s, d :: (s != staffMemberId || d != logDate) ==> RowFor(rows', s, d) == RowFor(rows, s, d))
  {
    var (rows', nextId') := Upsert(rows, nextId, staffMemberId, logDate, ch);
    match FindKey(rows, staffMemberId, logDate)
    case Some(i) =>
      UpdateInPlace(rows, nextId, i, ch);
      UniqueKeyCount(rows', nextId', staffMemberId, logDate);
      ApplyReflects(rows[i], ch);
    case None =>
      AppendNew(rows, nextId, staffMemberId, logDate, ch);
      UniqueKeyCount(rows', nextId', staffMemberId, logDate);
      ApplyReflects(WorkLog(nextId, staffMemberId, logDate, ch.status.value, None, None, None, None, None, None, None, None, None, None), ch);
  }

  /** The update branch of an upsert. */
  lemma UpdateInPlace(rows: seq<WorkLog>, nextId: nat, i: nat, ch: Changes)
    requires TableValid(rows, nextId) && MinutesOk(ch) && i < |rows|
    requires FindKey(rows, rows[i].staffMemberId, rows[i].logDate) == Some(i)
    ensures var rows' := rows[i := Apply(rows[i], ch)];
            && TableValid(rows', nextId)
            && FindKey(rows', rows[i].staffMemberId, rows[i].logDate) == Some(i)
            && (forall s, d :: (s != rows[i].staffMemberId || d != rows[i].logDate) ==> RowFor(rows', s, d) == RowFor(rows, s, d))
  {
    var rows' := rows[i := Apply(rows[i], ch)];
    ApplyReflects(rows[i], ch);
    assert TableValid(rows', nextId) by {
      forall j, k | 0 <= j < k < |rows'|
        ensures rows'[j].id < rows'[k].id && !HasKey(rows'[k], rows'[j].staffMemberId, rows'[j].logDate)
      {
        assert HasKey(rows'[k], rows'[j].staffMemberId, rows'[j].logDate)
           == HasKey(rows[k], rows[j].staffMemberId, rows[j].logDate);
      }
    }
    assert HasKey(rows'[i], rows[i].staffMemberId, rows[i].logDate);
    assert FindKey(rows', rows[i].staffMemberId, rows[i].logDate) == Some(i) by {
      forall j | 0 <= j < i ensures !HasKey(rows'[j], rows[i].staffMemberId, rows[i].logDate) {
        assert rows'[j] == rows[j];
      }
      var f' := FindKey(rows', rows[i].staffMemberId, rows[i].logDate);
      assert f'.Some? && f'.value <= i;
    }
    forall s, d | s != rows[i].staffMemberId || d != rows[i].logDate
      ensures RowFor(rows', s, d) == RowFor(rows, s, d)
    {
      FindKeySameKeys(rows, rows', s, d);
    }
  }

  /** The create branch of an upsert. */
  lemma AppendNew(rows: seq<WorkLog>, nextId: nat, staffMemberId: nat, logDate: int, ch: Changes)
    requires TableValid(rows, nextId) && ch.status.Put? && MinutesOk(ch)
    requires FindKey(rows, staffMemberId, logDate).None?
    ensures var rows' := rows + [NewRow(nextId, staffMemberId, logDate, ch)];
            && TableValid(rows', nextId + 1)
            && FindKey(rows', staffMemberId, logDate) == Some(|rows|)
            && (forall s, d :: (s != staffMemberId || d != logDate) ==> RowFor(rows', s, d) == RowFor(rows, s, d))
  {
    var added := NewRow(nextId, staffMemberId, logDate, ch);
    var rows' := rows + [added];
    assert FindKey(rows', staffMemberId, logDate) == Some(|rows|) by {
      forall j | 0 <= j < |rows| ensures !HasKey(rows'[j], staffMemberId, logDate) {
        assert rows'[j] == rows[j];
      }
    }
    forall s, d | s != staffMemberId || d != logDate
      ensures RowFor(rows', s, d) == RowFor(rows, s, d)
    {
      FindKeyAppendOther(rows, added, s, d);
    }
  }

  /** Rows whose keys are unchanged position by position are found at the same place. */
  lemma {:induction false} FindKeySameKeys(rows: seq<WorkLog>, rows': seq<WorkLog>, s: nat, d: int)
    requires |rows'| == |rows|
    requires forall j :: 0 <= j < |rows| ==> rows'[j].staffMemberId == rows[j].staffMemberId && rows'[j].logDate == rows[j].logDate
    requires forall j :: 0 <= j < |rows| && HasKey(rows[j], s, d) ==> rows'[j] == rows[j]
    ensures RowFor(rows', s, d) == RowFor(rows, s, d)
  {
    var f, f' := FindKey(rows, s, d), FindKey(rows', s, d);
    if f.Some? {
      assert HasKey(rows'[f.value], s, d);
      assert f'.Some? && f'.value <= f.value;
    } else {
      assert f'.None? by {
        if f'.Some? { assert HasKey(rows[f'.value], s, d); }
      }
    }
  }

  lemma FindKeyAppendOther(rows: seq<WorkLog>, x: WorkLog, s: nat, d: int)
    requires !HasKey(x, s, d)
    ensures RowFor(rows + [x], s, d) == RowFor(rows, s, d)
  {
    var rows' := rows + [x];
    var f, f' := FindKey(rows, s, d), FindKey(rows', s, d);
    if f.Some? {
      assert rows'[f.value] == rows[f.value];
      assert f'.Some? && f'.value <= f.value;
      assert rows'[f'.value] == rows[f'.value];
    }
  }

  // ---------------------------------------------------------------------------------------
  // What a batch of upserts does

  lemma {:induction false} UpsertAllValid(rows: seq<WorkLog>, nextId: nat, items: seq<KeyedChanges>)
    requires TableValid(rows, nextId)
    requires forall k :: 0 <= k < |items| ==> items[k].changes.status.Put? && MinutesOk(items[k].changes)
    ensures TableValid(UpsertAll(rows, nextId, items).0, UpsertAll(rows, nextId, items).1)
    decreases |items|
  {
    if |items| > 0 {
      var front := items[..|items| - 1];
      UpsertAllValid(rows, nextId, front);
      var (r, n) := UpsertAll(rows, nextId, front);
      var last := items[|items| - 1];
      UpsertEffect(r, n, last.staffMemberId, last.logDate, last.changes);
    }
  }

  /**
   * The last entry of a batch with a given key decides every column that entry sets: a later
   * entry with the same key overwrites an earlier one.
   */
  lemma {:induction false} LastEntryWins(rows: seq<WorkLog>, nextId: nat, items: seq<KeyedChanges>, j: nat)
    requires TableValid(rows, nextId)
    requires forall k :: 0 <= k < |items| ==> items[k].changes.status.Put? && MinutesOk(items[k].changes)
    requires j < |items|
    requires forall k :: j < k < |items| ==>
               items[k].staffMemberId != items[j].staffMemberId || items[k].logDate != items[j].logDate
    ensures var row := RowFor(UpsertAll(rows, nextId, items).0, items[j].staffMemberId, items[j].logDate);
            row.Some? && Reflects(row.value, items[j].changes)
    decreases |items|
  {
    var front := items[..|items| - 1];
    var last := items[|items| - 1];
    UpsertAllValid(rows, nextId, front);
    var (r, n) := UpsertAll(rows, nextId, front);
    UpsertEffect(r, n, last.staffMemberId, last.logDate, last.changes);
    if j < |items| - 1 {
      assert front[j] == items[j];
      LastEntryWins(rows, nextId, front, j);
    }
  }

  /** A key no entry of the batch mentions keeps its row. */
  lemma {:induction false} UntouchedKeysKeepRows(rows: seq<WorkLog>, nextId: nat, items: seq<KeyedChanges>, s: nat, d: int)
    requires TableValid(rows, nextId)
    requires forall k :: 0 <= k < |items| ==> items[k].changes.status.Put? && MinutesOk(items[k].changes)
    requires forall k :: 0 <= k < |items| ==> items[k].staffMemberId != s || items[k].logDate != d
    ensures RowFor(UpsertAll(rows, nextId, items).0, s, d) == RowFor(rows, s, d)
    decreases |items|
  {
    if |items| > 0 {
      var front := items[..|items| - 1];
      var last := items[|items| - 1];
      UpsertAllValid(rows, nextId, front);
      UntouchedKeysKeepRows(rows, nextId, front, s, d);
      var (r, n) := UpsertAll(rows, nextId, front);
      UpsertEffect(r, n, last.staffMemberId, last.logDate, last.changes);
    }
  }

  // ---------------------------------------------------------------------------------------
  // Requests and their validation

  /** The body of a `store` request; a required field that was not sent is None. */
  datatype StoreRequest = StoreRequest(
    staffMemberId: Option<nat>, logDate: Option<int>, status: Option<string>,
    clockIn: Input<string>, clockOut: Input<string>,
    lateMinutes: Input<int>, earlyLeaveMinutes: Input<int>, overtimeMinutes: Input<int>, breakMinutes: Input<int>,
    notes: Input<string>)

  /** One element of bulkStore's `logs` array. */
  datatype BulkEntry = BulkEntry(
    staffMemberId: Option<nat>, logDate: Option<int>, status: Option<string>, clockIn: Input<string>, clockOut: Input<string>)

  /** The body of an `update` request: every field may be left out. */
  datatype UpdateRequest = UpdateRequest(
    status: Input<string>, clockIn: Input<string>, clockOut: Input<string>,
    lateMinutes: Input<int>, earlyLeaveMinutes: Input<int>, overtimeMinutes: Input<int>, breakMinutes: Input<int>,
    notes: Input<string>)

  /** A key that was sent goes into `$validated` (as NULL when sent as null); one not sent stays out. */
  function ToPatch<T>(i: Input<T>): Patch<Option<T>> {
    match i
    case Absent => Keep
    case Null => Put(None)
    case Given(v) => Put(Some(v))
  }

  /** `nullable|date_format:H:i`. */
  predicate ClockOk(i: Input<string>) {
    i.Given? ==> IsHourMinute(i.value)
  }

  /** `nullable|integer|min:0`. */
  predicate MinuteOk(i: Input<int>) {
    i.Given? ==> i.value >= 0
  }

  /** store's rules; on success, the key and the values array (with `author_id` added). */
  function ValidateStore(req: StoreRequest, staffIds: set<nat>, userId: nat): (r: Result<KeyedChanges, ApiError>)
    ensures r.Ok? <==> && req.staffMemberId.Some? && req.staffMemberId.value in staffIds && req.logDate.Some?
                       && req.status.Some? && req.status.value in {"present", "absent", "half_day", "on_leave", "holiday"}
                       && ClockOk(req.clockIn) && ClockOk(req.clockOut)
                       && (req.lateMinutes.Given? ==> req.lateMinutes.value >= 0)
                       && (req.earlyLeaveMinutes.Given? ==> req.earlyLeaveMinutes.value >= 0)
                       && (req.overtimeMinutes.Given? ==> req.overtimeMinutes.value >= 0)
                       && (req.breakMinutes.Given? ==> req.breakMinutes.value >= 0)
    ensures r.Ok? ==> && r.value.staffMemberId == req.staffMemberId.value && r.value.logDate == req.logDate.value
                      && MinutesOk(r.value.changes)
                      && r.value.changes.status == Put(ParseStatus(req.status.value).value)
                      && r.value.changes.authorId == Put(Some(userId))
                      && r.value.changes.clockInIp.Keep? && r.value.changes.clockOutIp.Keep?
    ensures r.Err? ==> r.error.ValidationFailed?
  {
    if req.staffMemberId.None? || req.staffMemberId.value !in staffIds then Err(ValidationFailed("staff_member_id"))
    else if req.logDate.None? then Err(ValidationFailed("log_date"))
    else if req.status.None? || ParseStatus(req.status.value).None? then Err(ValidationFailed("status"))
    else if !ClockOk(req.clockIn) then Err(ValidationFailed("clock_in"))
    else if !ClockOk(req.clockOut) then Err(ValidationFailed("clock_out"))
    else if !MinuteOk(req.lateMinutes) then Err(ValidationFailed("late_minutes"))
    else if !MinuteOk(req.earlyLeaveMinutes) then Err(ValidationFailed("early_leave_minutes"))
    else if !MinuteOk(req.overtimeMinutes) then Err(ValidationFailed("overtime_minutes"))
    else if !MinuteOk(req.breakMinutes) then Err(ValidationFailed("break_minutes"))
    else
      Ok(KeyedChanges(req.staffMemberId.value, req.logDate.value,
        Changes(Put(ParseStatus(req.status.value).value), ToPatch(req.clockIn), ToPatch(req.clockOut), Keep, Keep,
                ToPatch(req.lateMinutes), ToPatch(req.earlyLeaveMinutes), ToPatch(req.overtimeMinutes),
                ToPatch(req.breakMinutes), ToPatch(req.notes), Put(Some(userId)))))
  }

  predicate BulkEntryOk(e: BulkEntry, staffIds: set<nat>) {
    && e.staffMemberId.Some? && e.staffMemberId.value in staffIds && e.logDate.Some?
    && e.status.Some? && ParseStatus(e.status.value).Some? && ClockOk(e.clockIn) && ClockOk(e.clockOut)
  }

  /** The values array of one bulk entry: only the keys with rules survive validation, plus `author_id`. */
  function BulkChanges(e: BulkEntry, staffIds: set<nat>, userId: nat): (k: KeyedChanges)
    requires BulkEntryOk(e, staffIds)
    ensures k.changes.status.Put? && MinutesOk(k.changes)
  {
    KeyedChanges(e.staffMemberId.value, e.logDate.value,
      Changes(Put(ParseStatus(e.status.value).value), ToPatch(e.clockIn), ToPatch(e.clockOut), Keep, Keep,
              Keep, Keep, Keep, Keep, Keep, Put(Some(userId))))
  }

  function AllBulkChanges(entries: seq<BulkEntry>, staffIds: set<nat>, userId: nat): (items: seq<KeyedChanges>)
    requires forall k :: 0 <= k < |entries| ==> BulkEntryOk(entries[k], staffIds)
    ensures |items| == |entries|
    ensures forall k :: 0 <= k < |entries| ==> items[k] == BulkChanges(entries[k], staffIds, userId)
  {
    seq(|entries|, k requires 0 <= k < |entries| => BulkChanges(entries[k], staffIds, userId))
  }

  /** update's rules; on success, the values array. */
  function ValidateUpdate(req: UpdateRequest): (r: Result<Changes, ApiError>)
    ensures r.Ok? <==> && !req.status.Null? && (req.status.Given? ==> ParseStatus(req.status.value).Some?)
                       && ClockOk(req.clockIn) && ClockOk(req.clockOut)
                       && MinuteOk(req.lateMinutes) && MinuteOk(req.earlyLeaveMinutes)
                       && MinuteOk(req.overtimeMinutes) && MinuteOk(req.breakMinutes)
    ensures r.Ok? ==> MinutesOk(r.value) && r.value.authorId.Keep? && r.value.clockInIp.Keep? && r.value.clockOutIp.Keep?
    ensures r.Ok? ==> (req.status.Absent? <==> r.value.status.Keep?)
    ensures r.Err? ==> r.error.ValidationFailed?
  {
    if req.status.Null? || (req.status.Given? && ParseStatus(req.status.value).None?) then Err(ValidationFailed("status"))
    else if !ClockOk(req.clockIn) then Err(ValidationFailed("clock_in"))
    else if !ClockOk(req.clockOut) then Err(ValidationFailed("clock_out"))
    else if !MinuteOk(req.lateMinutes) then Err(ValidationFailed("late_minutes"))
    else if !MinuteOk(req.earlyLeaveMinutes) then Err(ValidationFailed("early_leave_minutes"))
    else if !MinuteOk(req.overtimeMinutes) then Err(ValidationFailed("overtime_minutes"))
    else if !MinuteOk(req.breakMinutes) then Err(ValidationFailed("break_minutes"))
    else
      Ok(Changes(if req.status.Given? then Put(ParseStatus(req.status.value).value) else Keep,
                 ToPatch(req.clockIn), ToPatch(req.clockOut), Keep, Keep,
                 ToPatch(req.lateMinutes), ToPatch(req.earlyLeaveMinutes), ToPatch(req.overtimeMinutes),
                 ToPatch(req.breakMinutes), ToPatch(req.notes), Keep))
  }

  /** `StaffMember::where('user_id', ..)->first()`. */
  function StaffOfUser(staff: seq<StaffMember>, userId: nat): (r: Option<StaffMember>)
    ensures r.Some? ==> r.value.userId == Some(userId)
    ensures r.Some? ==> exists k :: 0 <= k < |staff| && staff[k] == r.value &&
                                    forall j :: 0 <= j < k ==> staff[j].userId != Some(userId)
    ensures r.None? ==> forall k :: 0 <= k < |staff| ==> staff[k].userId != Some(userId)
  {
    if |staff| == 0 then None
    else if staff[0].userId == Some(userId) then Some(staff[0])
    else StaffOfUser(staff[1..], userId)
  }

  /** The primary key of a row. */
  function LogId(r: WorkLog): nat { r.id }

  /** The values clockIn writes. */
  function ClockInChanges(time: string, ip: Option<string>, userId: nat): Changes {
    NoChanges.(status := Put(Present), clockIn := Put(Some(time)), clockInIp := Put(ip), authorId := Put(Some(userId)))
  }

  /** The values clockOut writes. */
  function ClockOutChanges(time: string, ip: Option<string>): Changes {
    NoChanges.(clockOut := Put(Some(time)), clockOutIp := Put(ip))
  }

  /** bulkStore's rules: a non-empty `logs` array whose every entry passes. */
  predicate BulkOk(entries: seq<BulkEntry>, staffIds: set<nat>) {
    |entries| > 0 && forall k :: 0 <= k < |entries| ==> BulkEntryOk(entries[k], staffIds)
  }

  /**
   * Of several bulk entries for one staff member and day, the last decides the row: its status,
   * and its clock times where it sent them.
   */
  lemma BulkLastEntryWins(rows: seq<WorkLog>, nextId: nat, entries: seq<BulkEntry>, staffIds: set<nat>, userId: nat, j: nat)
    requires TableValid(rows, nextId) && BulkOk(entries, staffIds) && j < |entries|
    requires forall k :: j < k < |entries| ==>
               entries[k].staffMemberId != entries[j].staffMemberId || entries[k].logDate != entries[j].logDate
    ensures var row := RowFor(UpsertAll(rows, nextId, AllBulkChanges(entries, staffIds, userId)).0,
                              entries[j].staffMemberId.value, entries[j].logDate.value);
            && row.Some?
            && StatusName(row.value.status) == entries[j].status.value
            && (entries[j].clockIn.Given? ==> row.value.clockIn == Some(entries[j].clockIn.value))
            && (entries[j].clockOut.Given? ==> row.value.clockOut == Some(entries[j].clockOut.value))
            && (entries[j].clockIn.Null? ==> row.value.clockIn.None?)
            && (entries[j].clockOut.Null? ==> row.value.clockOut.None?)
            && row.value.authorId == Some(userId)
  {
    var items := AllBulkChanges(entries, staffIds, userId);
    forall k | j < k < |items|
      ensures items[k].staffMemberId != items[j].staffMemberId || items[k].logDate != items[j].logDate
    {
      assert entries[k].staffMemberId != entries[j].staffMemberId || entries[k].logDate != entries[j].logDate;
    }
    LastEntryWins(rows, nextId, items, j);
    ParseStatusNames(entries[j].status.value, ParseStatus(entries[j].status.value).value);
  }

  /** In a valid table each row is the one its own key finds. */
  lemma OwnKeyFindsRow(rows: seq<WorkLog>, nextId: nat, i: nat)
    requires TableValid(rows, nextId) && i < |rows|
    ensures FindKey(rows, rows[i].staffMemberId, rows[i].logDate) == Some(i)
  {
    var f := FindKey(rows, rows[i].staffMemberId, rows[i].logDate);
    assert f.Some? && f.value <= i;
  }

  // ---------------------------------------------------------------------------------------
  // The table

  class WorkLogTable {
    /** The `work_logs` rows in table order. */
    var rows: seq<WorkLog>
    var nextId: nat
    /** The `staff_members` table, read and never written here. */
    var staff: seq<StaffMember>

    ghost predicate Valid()
      reads this
    {
      TableValid(rows, nextId)
    }

    /** What `exists:staff_members,id` accepts. */
    function StaffIds(): set<nat>
      reads this
    {
      set k | 0 <= k < |staff| :: staff[k].id
    }

    constructor(staff: seq<StaffMember>)
      ensures Valid() && rows == [] && this.staff == staff
    {
      rows := [];
      nextId := 1;
      this.staff := staff;
    }

    /** `WorkLog::updateOrCreate(['staff_member_id' => s, 'log_date' => d], $values)`. */
    method UpdateOrCreate(staffMemberId: nat, logDate: int, ch: Changes) returns (row: WorkLog)
      requires Valid() && ch.status.Put? && MinutesOk(ch)
      modifies this`rows, this`nextId
      ensures (rows, nextId) == Upsert(old(rows), old(nextId), staffMemberId, logDate, ch)
      ensures Valid()
      ensures RowFor(rows, staffMemberId, logDate) == Some(row) && Reflects(row, ch)
      ensures KeyCount(rows, staffMemberId, logDate) == 1
    {
      UpsertEffect(rows, nextId, staffMemberId, logDate, ch);
      var found := FindKey(rows, staffMemberId, logDate);
      if found.Some? {
        row := Apply(rows[found.value], ch);
        rows := rows[found.value := row];
      } else {
        row := NewRow(nextId, staffMemberId, logDate, ch);
        rows := rows + [row];
        nextId := nextId + 1;
      }
    }

    /** `store`: validate, add `author_id`, upsert on (staff member, date). */
    method Store(req: StoreRequest, userId: nat) returns (r: Result<WorkLog, ApiError>)
      requires Valid()
      modifies this`rows, this`nextId
      ensures Valid()
      ensures ValidateStore(req, StaffIds(), userId).Err? ==>
                r == Err(ValidateStore(req, StaffIds(), userId).error) && rows == old(rows) && nextId == old(nextId)
      ensures ValidateStore(req, StaffIds(), userId).Ok? ==>
                var k := ValidateStore(req, StaffIds(), userId).value;
                && (rows, nextId) == Upsert(old(rows), old(nextId), k.staffMemberId, k.logDate, k.changes)
                && r.Ok? && RowFor(rows, k.staffMemberId, k.logDate) == Some(r.value)
                && Reflects(r.value, k.changes) && KeyCount(rows, k.staffMemberId, k.logDate) == 1
    {
      var v := ValidateStore(req, StaffIds(), userId);
      if v.Err? {
        return Err(v.error);
      }
      var row := UpdateOrCreate(v.value.staffMemberId, v.value.logDate, v.value.changes);
      r := Ok(row);
    }

    /** `clockIn`: upsert today's row of the user's staff member with the time, the IP and `present`. */
    method ClockIn(userId: nat, today: int, time: string, ip: Option<string>) returns (r: Result<WorkLog, ApiError>)
      requires Valid()
      modifies this`rows, this`nextId
      ensures Valid()
      ensures StaffOfUser(staff, userId).None? ==>
                r == Err(Rejected(404, "Staff member not found")) && rows == old(rows) && nextId == old(nextId)
      ensures StaffOfUser(staff, userId).Some? ==>
                var member := StaffOfUser(staff, userId).value;
                && (rows, nextId) == Upsert(old(rows), old(nextId), member.id, today, ClockInChanges(time, ip, userId))
                && r.Ok? && RowFor(rows, member.id, today) == Some(r.value) && KeyCount(rows, member.id, today) == 1
                && r.value.clockIn == Some(time) && r.value.clockInIp == ip
                && r.value.status == Present && r.value.authorId == Some(userId)
    {
      var member := StaffOfUser(staff, userId);
      if member.None? {
        return Err(Rejected(404, "Staff member not found"));
      }
      var row := UpdateOrCreate(member.value.id, today, ClockInChanges(time, ip, userId));
      r := Ok(row);
    }

    /** `clockOut`: today's row must exist; only its `clock_out` and `clock_out_ip` change. */
    method ClockOut(userId: nat, today: int, time: string, ip: Option<string>) returns (r: Result<WorkLog, ApiError>)
      requires Valid()
      modifies this`rows
      ensures Valid()
      ensures StaffOfUser(staff, userId).None? ==> r == Err(Rejected(404, "Staff member not found")) && rows == old(rows)
      ensures StaffOfUser(staff, userId).Some? && RowFor(old(rows), StaffOfUser(staff, userId).value.id, today).None? ==>
                r == Err(Rejected(422, "No clock in record found for today")) && rows == old(rows)
      ensures StaffOfUser(staff, userId).Some? && RowFor(old(rows), StaffOfUser(staff, userId).value.id, today).Some? ==>
                var i := FindKey(old(rows), StaffOfUser(staff, userId).value.id, today).value;
                && rows == old(rows)[i := old(rows)[i].(clockOut := Some(time), clockOutIp := ip)]
                && r == Ok(rows[i])
    {
      var member := StaffOfUser(staff, userId);
      if member.None? {
        return Err(Rejected(404, "Staff member not found"));
      }
      var found := FindKey(rows, member.value.id, today);
      if found.None? {
        return Err(Rejected(422, "No clock in record found for today"));
      }
      var i := found.value;
      UpdateInPlace(rows, nextId, i, ClockOutChanges(time, ip));
      rows := rows[i := Apply(rows[i], ClockOutChanges(time, ip))];
      r := Ok(rows[i]);
    }

    /**
     * `bulkStore`: validate the whole array first, then upsert entry by entry in input order;
     * the response lists one row per entry.
     */
    method BulkStore(entries: seq<BulkEntry>, userId: nat) returns (r: Result<seq<WorkLog>, ApiError>)
      requires Valid()
      modifies this`rows, this`nextId
      ensures Valid()
      ensures !BulkOk(entries, StaffIds()) ==>
                r.Err? && r.error.ValidationFailed? && rows == old(rows) && nextId == old(nextId)
      ensures BulkOk(entries, StaffIds()) ==>
                && (rows, nextId) == UpsertAll(old(rows), old(nextId), AllBulkChanges(entries, StaffIds(), userId))
                && r.Ok? && |r.value| == |entries|
                && forall k :: 0 <= k < |entries| ==>
                     && Saved(old(rows), old(nextId), AllBulkChanges(entries, StaffIds(), userId), k) == Some(r.value[k])
                     && Reflects(r.value[k], BulkChanges(entries[k], StaffIds(), userId).changes)
    {
      if !BulkOk(entries, StaffIds()) {
        return Err(ValidationFailed("logs"));
      }
      var items := AllBulkChanges(entries, StaffIds(), userId);
      var created := UpsertEach(items);
      r := Ok(created);
    }

    /** The `foreach` of bulkStore: one `updateOrCreate` per item, collecting the rows. */
    method UpsertEach(items: seq<KeyedChanges>) returns (created: seq<WorkLog>)
      requires Valid()
      requires forall k :: 0 <= k < |items| ==> items[k].changes.status.Put? && MinutesOk(items[k].changes)
      modifies this`rows, this`nextId
      ensures Valid()
      ensures (rows, nextId) == UpsertAll(old(rows), old(nextId), items)
      ensures |created| == |items|
      ensures forall k :: 0 <= k < |items| ==>
                Saved(old(rows), old(nextId), items, k) == Some(created[k]) && Reflects(created[k], items[k].changes)
    {
      created := [];
      for i := 0 to |items|
        invariant Valid()
        invariant (rows, nextId) == UpsertAll(old(rows), old(nextId), items[..i])
        invariant |created| == i
        invariant forall k :: 0 <= k < i ==>
                    Saved(old(rows), old(nextId), items, k) == Some(created[k]) && Reflects(created[k], items[k].changes)
      {
        UpsertAllStep(old(rows), old(nextId), items, i);
        var row := UpdateOrCreate(items[i].staffMemberId, items[i].logDate, items[i].changes);
        SavedStep(old(rows), old(nextId), items, i, created, row);
        created := created + [row];
      }
      assert items[..|items|] == items;
    }

    /** `update` of the bound row: only the validated columns change; the id and the key never do. */
    method Update(id: nat, req: UpdateRequest) returns (r: Result<WorkLog, ApiError>)
      requires Valid()
      modifies this`rows
      ensures Valid()
      ensures BoundIndex(old(rows), LogId, id).None? ==> r == Err(ModelNotFound) && rows == old(rows)
      ensures BoundIndex(old(rows), LogId, id).Some? && ValidateUpdate(req).Err? ==>
                r == Err(ValidateUpdate(req).error) && rows == old(rows)
      ensures BoundIndex(old(rows), LogId, id).Some? && ValidateUpdate(req).Ok? ==>
                var i := BoundIndex(old(rows), LogId, id).value;
                && rows == old(rows)[i := Apply(old(rows)[i], ValidateUpdate(req).value)]
                && r == Ok(rows[i]) && Reflects(rows[i], ValidateUpdate(req).value)
                && rows[i].id == id && rows[i].staffMemberId == old(rows)[i].staffMemberId
                && rows[i].logDate == old(rows)[i].logDate
    {
      var found := BoundIndex(rows, LogId, id);
      if found.None? {
        return Err(ModelNotFound);
      }
      var v := ValidateUpdate(req);
      if v.Err? {
        return Err(v.error);
      }
      var i := found.value;
      OwnKeyFindsRow(rows, nextId, i);
      UpdateInPlace(rows, nextId, i, v.value);
      ApplyReflects(rows[i], v.value);
      rows := rows[i := Apply(rows[i], v.value)];
      r := Ok(rows[i]);
    }
  }

  // ---------------------------------------------------------------------------------------
  // The attendance summary

  datatype Summary = Summary(
    totalDays: int, present: nat, absent: nat, halfDay: nat, onLeave: nat, holiday: nat,
    totalLateMinutes: int, totalOvertimeMinutes: int, totalEarlyLeaveMinutes: int)

  predicate InPeriod(r: WorkLog, staffMemberId: nat, start: int, end: int) {
    r.staffMemberId == staffMemberId && start <= r.logDate <= end
  }

  /** `where('staff_member_id', s)->forPeriod(start, end)->get()`, in table order. */
  function PeriodLogs(rows: seq<WorkLog>, staffMemberId: nat, start: int, end: int): (logs: seq<WorkLog>)
    ensures |logs| <= |rows|
    ensures forall k :: 0 <= k < |logs| ==> logs[k] in rows && InPeriod(logs[k], staffMemberId, start, end)
    ensures forall k :: 0 <= k < |rows| && InPeriod(rows[k], staffMemberId, start, end) ==> rows[k] in logs
  {
    if |rows| == 0 then []
    else
      var last := rows[|rows| - 1];
      PeriodLogs(rows[..|rows| - 1], staffMemberId, start, end) + if InPeriod(last, staffMemberId, start, end) then [last] else []
  }

  /** `$logs->where('status', ..)->count()`. */
  function CountStatus(logs: seq<WorkLog>, st: WorkStatus): nat {
    if |logs| == 0 then 0
    else CountStatus(logs[..|logs| - 1], st) + if logs[|logs| - 1].status == st then 1 else 0
  }

  datatype MinuteColumn = LateMinutes | OvertimeMinutes | EarlyLeaveMinutes

  function Minutes(r: WorkLog, c: MinuteColumn): Option<int> {
    match c
    case LateMinutes => r.lateMinutes
    case OvertimeMinutes => r.overtimeMinutes
    case EarlyLeaveMinutes => r.earlyLeaveMinutes
  }

  /** `$logs->sum(column)`: a NULL adds nothing. */
  function SumMinutes(logs: seq<WorkLog>, c: MinuteColumn): int {
    if |logs| == 0 then 0
    else SumMinutes(logs[..|logs| - 1], c) + Minutes(logs[|logs| - 1], c).GetOr(0)
  }

  /** `summary`: validate, then count and sum the staff member's logs of the period. */
  function Summarize(rows: seq<WorkLog>, staffIds: set<nat>, staffMemberId: Option<nat>, start: Option<int>, end: Option<int>)
    : (r: Result<Summary, ApiError>)
    ensures r.Ok? <==> && staffMemberId.Some? && staffMemberId.value in staffIds
                       && start.Some? && end.Some? && start.value <= end.value
    ensures r.Ok? ==> r.value.totalDays == end.value - start.value + 1 >= 1
    ensures r.Err? ==> r.error.ValidationFailed?
  {
    if staffMemberId.None? || staffMemberId.value !in staffIds then Err(ValidationFailed("staff_member_id"))
    else if start.None? then Err(ValidationFailed("start_date"))
    else if end.None? || end.value < start.value then Err(ValidationFailed("end_date"))
    else
      var logs := PeriodLogs(rows, staffMemberId.value, start.value, end.value);
      Ok(Summary(end.value - start.value + 1,
                 CountStatus(logs, Present), CountStatus(logs, WorkStatus.Absent), CountStatus(logs, HalfDay),
                 CountStatus(logs, OnLeave), CountStatus(logs, Holiday),
                 SumMinutes(logs, LateMinutes), SumMinutes(logs, OvertimeMinutes), SumMinutes(logs, EarlyLeaveMinutes)))
  }

  /** The five status counts split the period's logs: each is at most their number and together they are all of them. */
  lemma {:induction false} StatusCountsPartition(logs: seq<WorkLog>)
    ensures CountStatus(logs, Present) + CountStatus(logs, WorkStatus.Absent) + CountStatus(logs, HalfDay)
            + CountStatus(logs, OnLeave) + CountStatus(logs, Holiday) == |logs|
    ensures forall st: WorkStatus :: CountStatus(logs, st) <= |logs|
  {
    if |logs| > 0 {
      StatusCountsPartition(logs[..|logs| - 1]);
    }
  }

  /** Minute totals are never negative when no stored minute value is. */
  lemma {:induction false} SumMinutesNonNegative(logs: seq<WorkLog>, c: MinuteColumn)
    requires forall k :: 0 <= k < |logs| ==> RowMinutesOk(logs[k])
    ensures SumMinutes(logs, c) >= 0
  {
    if |logs| > 0 {
      SumMinutesNonNegative(logs[..|logs| - 1], c);
    }
  }

  lemma {:induction false} PeriodBeforeStartIsEmpty(rows: seq<WorkLog>, staffMemberId: nat, start: int, end: int)
    requires end < start
    ensures PeriodLogs(rows, staffMemberId, start, end) == []
  {
    if |rows| > 0 {
      PeriodBeforeStartIsEmpty(rows[..|rows| - 1], staffMemberId, start, end);
    }
  }

  /** Extending a period by its last day adds exactly the rows dated that day. */
  lemma {:induction false} PeriodLastDay(rows: seq<WorkLog>, staffMemberId: nat, start: int, end: int)
    requires start <= end
    ensures |PeriodLogs(rows, staffMemberId, start, end)|
              == |PeriodLogs(rows, staffMemberId, start, end - 1)| + KeyCount(rows, staffMemberId, end)
  {
    if |rows| > 0 {
      PeriodLastDay(rows[..|rows| - 1], staffMemberId, start, end);
    }
  }

  /** With one log per staff member and day, a period never holds more logs than days. */
  lemma {:induction false} PeriodLogsFitDays(rows: seq<WorkLog>, nextId: nat, staffMemberId: nat, start: int, end: int)
    requires TableValid(rows, nextId) && start <= end
    ensures |PeriodLogs(rows, staffMemberId, start, end)| <= end - start + 1
    decreases end - start
  {
    PeriodLastDay(rows, staffMemberId, start, end);
    UniqueKeyCount(rows, nextId, staffMemberId, end);
    if start < end {
      PeriodLogsFitDays(rows, nextId, staffMemberId, start, end - 1);
    } else {
      PeriodBeforeStartIsEmpty(rows, staffMemberId, start, end - 1);
    }
  }

  /**
   * On a valid table an accepted summary reports counts that add up to the period's logs,
   * none above the number of days, and non-negative minute totals.
   */
  lemma SummaryBounds(rows: seq<WorkLog>, nextId: nat, staffIds: set<nat>, staffMemberId: nat, start: int, end: int)
    requires TableValid(rows, nextId) && staffMemberId in staffIds && start <= end
    ensures var r := Summarize(rows, staffIds, Some(staffMemberId), Some(start), Some(end));
            var n := |PeriodLogs(rows, staffMemberId, start, end)|;
            && r.Ok?
            && r.value.present + r.value.absent + r.value.halfDay + r.value.onLeave + r.value.holiday == n
            && n <= r.value.totalDays
            && r.value.present <= n && r.value.absent <= n && r.value.halfDay <= n
            && r.value.onLeave <= n && r.value.holiday <= n
            && r.value.totalLateMinutes >= 0 && r.value.totalOvertimeMinutes >= 0 && r.value.totalEarlyLeaveMinutes >= 0
  {
    var logs := PeriodLogs(rows, staffMemberId, start, end);
    StatusCountsPartition(logs);
    PeriodLogsFitDays(rows, nextId, staffMemberId, start, end);
    assert forall k :: 0 <= k < |logs| ==> RowMinutesOk(logs[k]);
    SumMinutesNonNegative(logs, LateMinutes);
    SumMinutesNonNegative(logs, OvertimeMinutes);
    SumMinutesNonNegative(logs, EarlyLeaveMinutes);
  }
}
