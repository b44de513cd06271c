/**
 * Time-off requests: submission, editing and deletion while pending, approval, and the
 * yearly balance per category (hrms/app/Http/Controllers/Api/TimeOffRequestController.php).
 * Dates are day numbers (module Calendar); the authenticated user and "now" are parameters.
 */
module TimeOff {
  import opened Wrappers
  import opened Http
  import opened Calendar

  datatype ApprovalStatus = Pending | Approved | Declined

  /** A `time_off_requests` row. */
  datatype TimeOffRequest = TimeOffRequest(
    id: nat, staffMemberId: nat, categoryId: nat, startDate: int, endDate: int, reason: Option<string>,
    totalDays: int, authorId: nat, approvalStatus: ApprovalStatus,
    approvedBy: Option<nat>, approvalRemarks: Option<string>, approvedAt: Option<int>)

  /** A `time_off_categories` row. */
  datatype TimeOffCategory = TimeOffCategory(id: nat, title: string, annualQuota: int, isActive: bool)

  /** The body of a `store` request; a required field that was not sent is None. */
  datatype StoreRequest = StoreRequest(
    staffMemberId: Option<nat>, categoryId: Option<nat>, startDate: Option<int>, endDate: Option<int>,
    reason: Option<string>)

  /** The body of an `update` request: every field may be left out. */
  datatype UpdateRequest = UpdateRequest(
    categoryId: Input<nat>, startDate: Input<int>, endDate: Input<int>, reason: Input<string>)

  /** One entry of getBalance's `balance` array. */
  datatype BalanceEntry = BalanceEntry(category: TimeOffCategory, quota: int, used: int, remaining: int)

  datatype Balance = Balance(year: int, entries: seq<BalanceEntry>)

  /** Only a pending request may be edited or deleted. */
  predicate IsModifiable(r: TimeOffRequest) {
    r.approvalStatus == Pending
  }

  /** The `in:approved,declined` rule on `action`. */
  function ParseAction(action: string): (s: Option<ApprovalStatus>)
    ensures s.Some? <==> action == "approved" || action == "declined"
    ensures s.Some? ==> s.value != Pending
  {
    if action == "approved" then Some(Approved)
    else if action == "declined" then Some(Declined)
    else None
  }

  function CategoryIds(categories: seq<TimeOffCategory>): set<nat> {
    set c | c in categories :: c.id
  }

  /** The days one request adds to the `used` sum of (staff member, category, year). */
  function Contribution(r: TimeOffRequest, staffMemberId: nat, categoryId: nat, year: int): int {
    if r.staffMemberId == staffMemberId && r.categoryId == categoryId && r.approvalStatus == Approved
       && YearOfDay(r.startDate) == year
    then r.totalDays else 0
  }

  /**
   * The `sum('total_days')` query: approved requests of that staff member in that category
   * whose start date falls in that year.
   */
  function Used(requests: seq<TimeOffRequest>, staffMemberId: nat, categoryId: nat, year: int): int {
    if |requests| == 0 then 0
    else Used(requests[..|requests| - 1], staffMemberId, categoryId, year)
         + Contribution(requests[|requests| - 1], staffMemberId, categoryId, year)
  }

  /** `max(0, quota - used)`. */
  function Remaining(quota: int, used: int): int {
    if quota - used > 0 then quota - used else 0
  }

  /** The remainder is never negative, and is the plain difference while the quota is not exceeded. */
  lemma RemainingBounds(quota: int, used: int)
    ensures Remaining(quota, used) >= 0
    ensures used <= quota ==> Remaining(quota, used) == quota - used
    ensures used > quota ==> Remaining(quota, used) == 0
    ensures Remaining(quota, used) >= quota - used
  {
  }

  function Entry(c: TimeOffCategory, used: int): BalanceEntry {
    BalanceEntry(c, c.annualQuota, used, Remaining(c.annualQuota, used))
  }

  /** `TimeOffCategory::active()->get()`: the active categories in table order. */
  function ActiveCategories(categories: seq<TimeOffCategory>): (active: seq<TimeOffCategory>)
    ensures forall c :: c in active <==> c in categories && c.isActive
    ensures |active| <= |categories|
  {
    if |categories| == 0 then []
    else (if categories[0].isActive then [categories[0]] else []) + ActiveCategories(categories[1..])
  }

  /** The primary key of a row. */
  function RequestId(r: TimeOffRequest): nat { r.id }

  // ---------------------------------------------------------------------------------------
  // How the used sum moves when the table changes

  lemma {:induction false} UsedAppend(s: seq<TimeOffRequest>, x: TimeOffRequest, staff: nat, cat: nat, year: int)
    ensures Used(s + [x], staff, cat, year) == Used(s, staff, cat, year) + Contribution(x, staff, cat, year)
  {
    assert (s + [x])[..|s|] == s;
  }

  /** Replacing one row changes the sum by exactly the difference of the two rows' contributions. */
  lemma {:induction false} UsedUpdate(s: seq<TimeOffRequest>, i: nat, x: TimeOffRequest, staff: nat, cat: nat, year: int)
    requires i < |s|
    ensures Used(s[i := x], staff, cat, year)
            == Used(s, staff, cat, year) - Contribution(s[i], staff, cat, year) + Contribution(x, staff, cat, year)
    decreases |s|
  {
    var n := |s|;
    if i == n - 1 {
      assert s[i := x][..n - 1] == s[..n - 1];
    } else {
      UsedUpdate(s[..n - 1], i, x, staff, cat, year);
      assert s[i := x][..n - 1] == s[..n - 1][i := x];
    }
  }

  /** Removing one row takes away exactly its contribution. */
  lemma {:induction false} UsedRemove(s: seq<TimeOffRequest>, i: nat, staff: nat, cat: nat, year: int)
    requires i < |s|
    ensures Used(s[..i] + s[i + 1..], staff, cat, year) == Used(s, staff, cat, year) - Contribution(s[i], staff, cat, year)
    decreases |s|
  {
    var n := |s|;
    if i == n - 1 {
      assert s[..i] + s[i + 1..] == s[..n - 1];
    } else {
      UsedRemove(s[..n - 1], i, staff, cat, year);
      assert s[..i] + s[i + 1..] == (s[..n - 1][..i] + s[..n - 1][i + 1..]) + [s[n - 1]];
      UsedAppend(s[..n - 1][..i] + s[..n - 1][i + 1..], s[n - 1], staff, cat, year);
    }
  }

  /** Submitting a request leaves every balance as it was: a pending request counts for nothing. */
  lemma StoreKeepsBalance(s: seq<TimeOffRequest>, x: TimeOffRequest, staff: nat, cat: nat, year: int)
    requires x.approvalStatus == Pending
    ensures Used(s + [x], staff, cat, year) == Used(s, staff, cat, year)
  {
    UsedAppend(s, x, staff, cat, year);
  }

  /** Approving a pending request adds its days to the balance of its own staff member, category and year. */
  lemma ApprovalAddsDays(s: seq<TimeOffRequest>, i: nat, x: TimeOffRequest)
    requires i < |s| && s[i].approvalStatus == Pending
    requires x == s[i].(approvalStatus := Approved)
    ensures var r := s[i];
            Used(s[i := x], r.staffMemberId, r.categoryId, YearOfDay(r.startDate))
            == Used(s, r.staffMemberId, r.categoryId, YearOfDay(r.startDate)) + r.totalDays
  {
    var r := s[i];
    UsedUpdate(s, i, x, r.staffMemberId, r.categoryId, YearOfDay(r.startDate));
  }

  /** Declining a request that had been approved gives its days back. */
  lemma DeclineAfterApprovalReturnsDays(s: seq<TimeOffRequest>, i: nat, x: TimeOffRequest)
    requires i < |s| && s[i].approvalStatus == Approved
    requires x == s[i].(approvalStatus := Declined)
    ensures var r := s[i];
            Used(s[i := x], r.staffMemberId, r.categoryId, YearOfDay(r.startDate))
            == Used(s, r.staffMemberId, r.categoryId, YearOfDay(r.startDate)) - r.totalDays
  {
    var r := s[i];
    UsedUpdate(s, i, x, r.staffMemberId, r.categoryId, YearOfDay(r.startDate));
  }

  /** Deleting a pending request leaves every balance as it was. */
  lemma DestroyKeepsBalance(s: seq<TimeOffRequest>, i: nat, staff: nat, cat: nat, year: int)
    requires i < |s| && s[i].approvalStatus == Pending
    ensures Used(s[..i] + s[i + 1..], staff, cat, year) == Used(s, staff, cat, year)
  {
    UsedRemove(s, i, staff, cat, year);
  }

  // ---------------------------------------------------------------------------------------
  // The controller over the `time_off_requests` table

  class TimeOffRequestTable {
    /** `time_off_requests`, in id order. */
    var requests: seq<TimeOffRequest>
    var nextId: nat
    /** The ids the `exists:staff_members,id` rule accepts. */
    var staffIds: set<nat>
    /** `time_off_categories`, in table order. */
    var categories: seq<TimeOffCategory>

    ghost predicate Valid()
      reads this
    {
      forall k :: 0 <= k < |requests| ==>
        requests[k].id < nextId && forall j :: 0 <= j < k ==> requests[j].id < requests[k].id
    }

    constructor (staffIds: set<nat>, categories: seq<TimeOffCategory>)
      ensures Valid()
      ensures requests == [] && this.staffIds == staffIds && this.categories == categories
    {
      requests := [];
      nextId := 1;
      this.staffIds := staffIds;
      this.categories := categories;
    }

    /** store: validate, then create the request as pending. */
    method Store(req: StoreRequest, authorId: nat, totalDays: int) returns (r: Result<TimeOffRequest, ApiError>)
      requires Valid()
      modifies this`requests, this`nextId
      ensures Valid()
      ensures r.Ok? <==> && req.staffMemberId.Some? && req.staffMemberId.value in staffIds
                         && req.categoryId.Some? && req.categoryId.value in CategoryIds(categories)
                         && req.startDate.Some? && req.endDate.Some?
                         && req.endDate.value >= req.startDate.value
      ensures r.Ok? ==> && r.value.approvalStatus == Pending
                        && r.value.staffMemberId == req.staffMemberId.value
                        && r.value.categoryId == req.categoryId.value
                        && r.value.startDate == req.startDate.value && r.value.endDate == req.endDate.value
                        && r.value.reason == req.reason && r.value.authorId == authorId
                        && r.value.approvedBy.None? && r.value.approvalRemarks.None? && r.value.approvedAt.None?
                        && r.value.id == old(nextId) && r.value.totalDays == totalDays
                        && requests == old(requests) + [r.value]
      ensures r.Err? ==> r.error.ValidationFailed? && requests == old(requests)
    {
      if req.staffMemberId.None? || req.staffMemberId.value !in staffIds {
        return Err(ValidationFailed("staff_member_id"));
      }
      if req.categoryId.None? || req.categoryId.value !in CategoryIds(categories) {
        return Err(ValidationFailed("time_off_category_id"));
      }
      if req.startDate.None? {
        return Err(ValidationFailed("start_date"));
      }
      if req.endDate.None? || req.endDate.value < req.startDate.value {
        return Err(ValidationFailed("end_date"));
      }
      var created := TimeOffRequest(
        nextId, req.staffMemberId.value, req.categoryId.value, req.startDate.value, req.endDate.value,
        req.reason, totalDays, authorId, Pending, None, None, None);
      requests := requests + [created];
      nextId := nextId + 1;
      r := Ok(created);
    }

    /** update: refused unless pending; only category, dates and reason can change. */
    method Update(id: nat, req: UpdateRequest) returns (r: Result<TimeOffRequest, ApiError>)
      requires Valid()
      modifies this`requests
      ensures Valid()
      ensures BoundIndex(old(requests), RequestId, id).None? ==> r == Err(ModelNotFound)
      ensures BoundIndex(old(requests), RequestId, id).Some? && !IsModifiable(old(requests)[BoundIndex(old(requests), RequestId, id).value]) ==>
                r == Err(Rejected(422, "Cannot modify a processed request"))
      ensures r.Ok? ==>
                var i := BoundIndex(old(requests), RequestId, id).value;
                var before := old(requests)[i];
                && IsModifiable(before)
                && requests == old(requests)[i := r.value]
                && r.value == before.(
                     categoryId := if req.categoryId.Given? then req.categoryId.value else before.categoryId,
                     startDate := if req.startDate.Given? then req.startDate.value else before.startDate,
                     endDate := if req.endDate.Given? then req.endDate.value else before.endDate,
                     reason := match req.reason
                               case Absent => before.reason
                               case Null => None
                               case Given(s) => Some(s))
      ensures r.Ok? <==> BoundIndex(old(requests), RequestId, id).Some? && IsModifiable(old(requests)[BoundIndex(old(requests), RequestId, id).value])
                         && !req.categoryId.Null? && (req.categoryId.Given? ==> req.categoryId.value in CategoryIds(categories))
                         && !req.startDate.Null? && !req.endDate.Null?
      ensures r.Err? ==> requests == old(requests)
    {
      var found := BoundIndex(requests, RequestId, id);
      if found.None? {
        return Err(ModelNotFound);
      }
      var i := found.value;
      var before := requests[i];
      if before.approvalStatus != Pending {
        return Err(Rejected(422, "Cannot modify a processed request"));
      }
      if req.categoryId.Null? || (req.categoryId.Given? && req.categoryId.value !in CategoryIds(categories)) {
        return Err(ValidationFailed("time_off_category_id"));
      }
      if req.startDate.Null? {
        return Err(ValidationFailed("start_date"));
      }
      if req.endDate.Null? {
        return Err(ValidationFailed("end_date"));
      }
      var after := before;
      if req.categoryId.Given? {
        after := after.(categoryId := req.categoryId.value);
      }
      if req.startDate.Given? {
        after := after.(startDate := req.startDate.value);
      }
      if req.endDate.Given? {
        after := after.(endDate := req.endDate.value);
      }
      match req.reason {
        case Absent =>
        case Null => after := after.(reason := None);
        case Given(s) => after := after.(reason := Some(s));
      }
      requests := requests[i := after];
      r := Ok(after);
    }

    /** processApproval: set the status to the action and record the approver, whatever the current status. */
    method ProcessApproval(id: nat, action: Option<string>, remarks: Option<string>, approverId: nat, now: int)
      returns (r: Result<TimeOffRequest, ApiError>)
      requires Valid()
      modifies this`requests
      ensures Valid()
      ensures BoundIndex(old(requests), RequestId, id).None? ==> r == Err(ModelNotFound)
      ensures BoundIndex(old(requests), RequestId, id).Some? && (action.None? || ParseAction(action.value).None?) ==>
                r == Err(ValidationFailed("action"))
      ensures r.Ok? ==>
                var i := BoundIndex(old(requests), RequestId, id).value;
                && action.Some? && ParseAction(action.value).Some?
                && r.value == old(requests)[i].(approvalStatus := ParseAction(action.value).value,
                                               approvedBy := Some(approverId), approvalRemarks := remarks,
                                               approvedAt := Some(now))
                && requests == old(requests)[i := r.value]
      ensures r.Ok? <==> BoundIndex(old(requests), RequestId, id).Some? && action.Some? && ParseAction(action.value).Some?
      ensures r.Err? ==> requests == old(requests)
    {
      var found := BoundIndex(requests, RequestId, id);
      if found.None? {
        return Err(ModelNotFound);
      }
      if action.None? || ParseAction(action.value).None? {
        return Err(ValidationFailed("action"));
      }
      var i := found.value;
      var after := requests[i].(approvalStatus := ParseAction(action.value).value, approvedBy := Some(approverId),
                                approvalRemarks := remarks, approvedAt := Some(now));
      requests := requests[i := after];
      r := Ok(after);
    }

    /** destroy: only a pending request is deleted. */
    method Destroy(id: nat) returns (r: Result<(), ApiError>)
      requires Valid()
      modifies this`requests
      ensures Valid()
      ensures BoundIndex(old(requests), RequestId, id).None? ==> r == Err(ModelNotFound) && requests == old(requests)
      ensures BoundIndex(old(requests), RequestId, id).Some? ==>
                var i := BoundIndex(old(requests), RequestId, id).value;
                && (IsModifiable(old(requests)[i]) ==> r == Ok(()) && requests == old(requests)[..i] + old(requests)[i + 1..])
                && (!IsModifiable(old(requests)[i]) ==>
                      r == Err(Rejected(422, "Cannot delete a processed request")) && requests == old(requests))
    {
      var found := BoundIndex(requests, RequestId, id);
      if found.None? {
        return Err(ModelNotFound);
      }
      var i := found.value;
      if requests[i].approvalStatus != Pending {
        return Err(Rejected(422, "Cannot delete a processed request"));
      }
      requests := requests[..i] + requests[i + 1..];
      r := Ok(());
    }

    /** getBalance: one entry per active category, in table order. */
    method GetBalance(staffMemberId: Option<nat>, year: Option<int>, currentYear: int) returns (r: Result<Balance, ApiError>)
      ensures r.Err? <==> staffMemberId.None? || staffMemberId.value !in staffIds
      ensures r.Err? ==> r.error == ValidationFailed("staff_member_id")
      ensures r.Ok? ==>
                var active := ActiveCategories(categories);
                && r.value.year == year.GetOr(currentYear)
                && |r.value.entries| == |active|
                && forall k :: 0 <= k < |active| ==>
                     var e := r.value.entries[k];
                     && e.category == active[k]
                     && e.quota == active[k].annualQuota
                     && e.used == Used(requests, staffMemberId.value, active[k].id, r.value.year)
                     && e.remaining == Remaining(e.quota, e.used)
                     && e.remaining >= 0
    {
      if staffMemberId.None? || staffMemberId.value !in staffIds {
        return Err(ValidationFailed("staff_member_id"));
      }
      var y := year.GetOr(currentYear);
      var staff := staffMemberId.value;
      var active := ActiveCategories(categories);
      var balance: seq<BalanceEntry> := [];
      var k := 0;
      while k < |active|
        invariant 0 <= k <= |active|
        invariant |balance| == k
        invariant forall j :: 0 <= j < k ==> balance[j] == Entry(active[j], Used(requests, staff, active[j].id, y))
      {
        var category := active[k];
        var used := Used(requests, staff, category.id, y);
        balance := balance + [BalanceEntry(category, category.annualQuota, used, Remaining(category.annualQuota, used))];
        k := k + 1;
      }
      r := Ok(Balance(y, balance));
    }
  }
}
