/**
 * The `document_locations` table and the resolver that picks the location an upload goes to
 * (hrms/app/Services/DocumentService.php, determineStorageLocation).
 *
 * The resolver creates ONE query builder and every priority step calls `where` on that same
 * builder, so each step's filters are added to those of all earlier steps. The model keeps the
 * builder as a list of filters that only grows, and evaluates `first()` over the table in order.
 */
module StorageLocations {
  import opened Wrappers

  /** location_type 1 is local disk storage. */
  const LocalType: int := 1

  /** A `document_locations` row: `location_type`, nullable `org_id` and nullable `company_id`. */
  datatype Location = Location(id: nat, locationType: int, orgId: Option<int>, companyId: Option<int>)

  datatype Column = OrgIdColumn | CompanyIdColumn | LocationTypeColumn

  /** One clause added to the builder: `where(column, value)` or `whereNull(column)`. */
  datatype Filter = Where(column: Column, value: int) | WhereNull(column: Column)

  /** The builder's accumulated where-clauses, in the order they were added. */
  type Query = seq<Filter>

  function ColumnValue(l: Location, c: Column): Option<int> {
    match c
    case OrgIdColumn => l.orgId
    case CompanyIdColumn => l.companyId
    case LocationTypeColumn => Some(l.locationType)
  }

  /** SQL semantics of one clause: `col = v` never holds of NULL, `col IS NULL` holds only of NULL. */
  predicate Satisfies(l: Location, f: Filter) {
    match f
    case Where(c, v) => ColumnValue(l, c) == Some(v)
    case WhereNull(c) => ColumnValue(l, c).None?
  }

  predicate SatisfiesAll(l: Location, q: Query) {
    forall i :: 0 <= i < |q| ==> Satisfies(l, q[i])
  }

  /** The position of the row `first()` returns: the earliest row that satisfies every clause. */
  function FirstIndex(table: seq<Location>, q: Query): (r: Option<nat>)
    ensures r.Some? ==> r.value < |table| && SatisfiesAll(table[r.value], q)
    ensures r.Some? ==> forall j :: 0 <= j < r.value ==> !SatisfiesAll(table[j], q)
    ensures r.None? ==> forall j :: 0 <= j < |table| ==> !SatisfiesAll(table[j], q)
  {
    if |table| == 0 then None
    else if SatisfiesAll(table[0], q) then Some(0)
    else match FirstIndex(table[1..], q)
      case None => None
      case Some(k) => Some(k + 1)
  }

  /** `$query->first()`. */
  function First(table: seq<Location>, q: Query): Option<Location> {
    match FirstIndex(table, q)
    case None => None
    case Some(i) => Some(table[i])
  }

  /** The identifiers in the upload's `$data`; `Filled` is PHP's `isset($x) && $x`. */
  datatype UploadContext = UploadContext(orgId: Option<int>, companyId: Option<int>)

  predicate Filled(v: Option<int>) {
    v.Some? && v.value != 0
  }

  function OrgStep(ctx: UploadContext): Query {
    if Filled(ctx.orgId) then [Where(OrgIdColumn, ctx.orgId.value)] else []
  }

  function CompanyStep(ctx: UploadContext): Query {
    OrgStep(ctx) + if Filled(ctx.companyId) then [Where(CompanyIdColumn, ctx.companyId.value)] else []
  }

  function GlobalStep(ctx: UploadContext): Query {
    CompanyStep(ctx) + [WhereNull(OrgIdColumn), WhereNull(CompanyIdColumn)]
  }

  function LocalStep(ctx: UploadContext): Query {
    GlobalStep(ctx) + [Where(LocationTypeColumn, LocalType)]
  }

  /** The queries the resolver runs `first()` on, in order: the builder's state at each step. */
  function StepQueries(ctx: UploadContext): seq<Query> {
    (if Filled(ctx.orgId) then [OrgStep(ctx)] else [])
    + (if Filled(ctx.companyId) then [CompanyStep(ctx)] else [])
    + [GlobalStep(ctx), LocalStep(ctx)]
  }

  /** Run the queries in order and return what the first one that finds a row finds. */
  function FirstHit(table: seq<Location>, qs: seq<Query>): Option<Location>
  {
    if |qs| == 0 then None
    else match First(table, qs[0])
      case Some(l) => Some(l)
      case None => FirstHit(table, qs[1..])
  }

  /** FirstHit finds nothing exactly when every query misses. */
  lemma {:induction false} FirstHitMissesAll(table: seq<Location>, qs: seq<Query>)
    ensures FirstHit(table, qs).None? <==> forall k :: 0 <= k < |qs| ==> First(table, qs[k]).None?
    decreases |qs|
  {
    if |qs| > 0 {
      FirstHitMissesAll(table, qs[1..]);
      assert forall k :: 1 <= k < |qs| ==> qs[1..][k - 1] == qs[k];
    }
  }

  /** What FirstHit finds, some query of the list finds. */
  lemma {:induction false} FirstHitFromSomeQuery(table: seq<Location>, qs: seq<Query>)
    requires FirstHit(table, qs).Some?
    ensures exists k :: 0 <= k < |qs| && First(table, qs[k]) == FirstHit(table, qs)
    decreases |qs|
  {
    if First(table, qs[0]).None? {
      FirstHitFromSomeQuery(table, qs[1..]);
      var k :| 0 <= k < |qs[1..]| && First(table, qs[1..][k]) == FirstHit(table, qs[1..]);
      assert qs[1..][k] == qs[k + 1];
    }
  }

  /**
   * What the resolver actually returns, in closed form: only the FIRST filled identifier
   * decides, and a miss there is final.
   */
  function Resolved(table: seq<Location>, ctx: UploadContext): Option<Location> {
    if Filled(ctx.orgId) then First(table, [Where(OrgIdColumn, ctx.orgId.value)])
    else if Filled(ctx.companyId) then First(table, [Where(CompanyIdColumn, ctx.companyId.value)])
    else First(table, [WhereNull(OrgIdColumn), WhereNull(CompanyIdColumn)])
  }

  /**
   * The priority the doc comment of determineStorageLocation describes (org_id > company_id >
   * default, then any local location), each step on a fresh query.
   */
  function DocumentedPriority(table: seq<Location>, ctx: UploadContext): Option<Location> {
    var byOrg := if Filled(ctx.orgId) then First(table, [Where(OrgIdColumn, ctx.orgId.value)]) else None;
    var byCompany := if Filled(ctx.companyId) then First(table, [Where(CompanyIdColumn, ctx.companyId.value)]) else None;
    if byOrg.Some? then byOrg
    else if byCompany.Some? then byCompany
    else var global := First(table, [WhereNull(OrgIdColumn), WhereNull(CompanyIdColumn)]);
    if global.Some? then global
    else First(table, [Where(LocationTypeColumn, LocalType)])
  }

  /** determineStorageLocation: one builder, one more where-clause per step. */
  method DetermineStorageLocation(table: seq<Location>, ctx: UploadContext) returns (location: Option<Location>)
    ensures location == FirstHit(table, StepQueries(ctx))
    ensures location == Resolved(table, ctx)
    ensures location.Some? ==> location.value in table
  {
    AsWrittenIsResolved(table, ctx);
    ghost var qs := StepQueries(ctx);
    ghost var done := 0;  // how many of the queries in qs have been run, all of them misses
    var query: Query := [];
    if Filled(ctx.orgId) {
      query := query + [Where(OrgIdColumn, ctx.orgId.value)];
      assert query == qs[0];
      location := First(table, query);
      if location.Some? {
        return;
      }
      done := 1;
    }
    assert query == OrgStep(ctx);
    if Filled(ctx.companyId) {
      query := query + [Where(CompanyIdColumn, ctx.companyId.value)];
      assert query == qs[done];
      location := First(table, query);
      if location.Some? {
        FirstHitSkipsMisses(table, qs, done);
        return;
      }
      done := done + 1;
    }
    assert query == CompanyStep(ctx);
    query := query + [WhereNull(OrgIdColumn)];
    query := query + [WhereNull(CompanyIdColumn)];
    assert query == GlobalStep(ctx) == qs[done];
    location := First(table, query);
    if location.Some? {
      FirstHitSkipsMisses(table, qs, done);
      return;
    }
    query := query + [Where(LocationTypeColumn, LocalType)];
    assert query == LocalStep(ctx) == qs[done + 1];
    location := First(table, query);
    FirstHitSkipsMisses(table, qs, done + 1);
  }

  /** When the first k queries miss, FirstHit is what query k finds, or what follows it finds. */
  lemma {:induction false} FirstHitSkipsMisses(table: seq<Location>, qs: seq<Query>, k: nat)
    requires k < |qs|
    requires forall j :: 0 <= j < k ==> First(table, qs[j]).None?
    requires First(table, qs[k]).Some? || k == |qs| - 1
    ensures FirstHit(table, qs) == First(table, qs[k])
    decreases k
  {
    if k > 0 {
      FirstHitSkipsMisses(table, qs[1..], k - 1);
    }
  }

  // ---------------------------------------------------------------------------------------
  // Facts about the builder

  /** Each step keeps every clause of the step before it. */
  lemma StepQueriesGrow(ctx: UploadContext, k: nat)
    requires k + 1 < |StepQueries(ctx)|
    ensures StepQueries(ctx)[k] <= StepQueries(ctx)[k + 1]
  {
  }

  /** Adding clauses to a query that found nothing still finds nothing. */
  lemma RefinedQueryMisses(table: seq<Location>, q: Query, extra: Query)
    requires First(table, q).None?
    ensures First(table, q + extra).None?
  {
    forall j | 0 <= j < |table|
      ensures !SatisfiesAll(table[j], q + extra)
    {
      if SatisfiesAll(table[j], q + extra) {
        forall i | 0 <= i < |q|
          ensures Satisfies(table[j], q[i])
        {
          assert (q + extra)[i] == q[i];
        }
        assert false;
      }
    }
  }

  /** A query holding `col = v` and `col IS NULL` for the same column finds nothing. */
  lemma ClashingClausesMiss(table: seq<Location>, q: Query, i: nat, j: nat)
    requires i < |q| && j < |q|
    requires q[i].Where? && q[j].WhereNull? && q[i].column == q[j].column
    ensures First(table, q).None?
  {
    forall k | 0 <= k < |table|
      ensures !SatisfiesAll(table[k], q)
    {
      assert !(Satisfies(table[k], q[i]) && Satisfies(table[k], q[j]));
    }
  }

  /** The step-by-step resolver and its closed form agree on every table and context. */
  lemma AsWrittenIsResolved(table: seq<Location>, ctx: UploadContext)
    ensures FirstHit(table, StepQueries(ctx)) == Resolved(table, ctx)
  {
    var qs := StepQueries(ctx);
    var g := GlobalStep(ctx);
    var localQ := LocalStep(ctx);
    assert localQ == g + [Where(LocationTypeColumn, LocalType)];
    if Filled(ctx.orgId) {
      var o := OrgStep(ctx);
      if First(table, o).None? {
        // Every later query starts with the org clause, so none of them can help.
        RefinedQueryMisses(table, o, CompanyStep(ctx)[|o|..]);
        assert CompanyStep(ctx) == o + CompanyStep(ctx)[|o|..];
        assert g[|CompanyStep(ctx)|].WhereNull? && g[|CompanyStep(ctx)|].column == OrgIdColumn;
        ClashingClausesMiss(table, g, 0, |CompanyStep(ctx)|);
        ClashingClausesMiss(table, localQ, 0, |CompanyStep(ctx)|);
        assert qs == [o] + (if Filled(ctx.companyId) then [CompanyStep(ctx)] else []) + [g, localQ];
        FirstHitMissesAll(table, qs);
      }
    } else if Filled(ctx.companyId) {
      var c := CompanyStep(ctx);
      assert c == [Where(CompanyIdColumn, ctx.companyId.value)];
      assert qs == [c, g, localQ];
      if First(table, c).None? {
        ClashingClausesMiss(table, g, 0, 2);
        ClashingClausesMiss(table, localQ, 0, 2);
        FirstHitMissesAll(table, qs);
      }
    } else {
      assert g == [WhereNull(OrgIdColumn), WhereNull(CompanyIdColumn)];
      assert qs == [g, localQ];
      if First(table, g).None? {
        RefinedQueryMisses(table, g, [Where(LocationTypeColumn, LocalType)]);
        FirstHitMissesAll(table, qs);
      }
    }
  }

  // ---------------------------------------------------------------------------------------
  // Consequences for callers

  /** With org_id filled and some location carrying it, the earliest such location wins. */
  lemma OrgMatchWins(table: seq<Location>, ctx: UploadContext, k: nat)
    requires Filled(ctx.orgId)
    requires k < |table| && table[k].orgId == ctx.orgId
    ensures Resolved(table, ctx).Some?
    ensures Resolved(table, ctx).value.orgId == ctx.orgId
    ensures exists i :: 0 <= i <= k && table[i] == Resolved(table, ctx).value
                     && forall j :: 0 <= j < i ==> table[j].orgId != ctx.orgId
  {
    var q := [Where(OrgIdColumn, ctx.orgId.value)];
    assert SatisfiesAll(table[k], q);
    var i := FirstIndex(table, q).value;
    forall j | 0 <= j < i
      ensures table[j].orgId != ctx.orgId
    {
      assert !SatisfiesAll(table[j], q);
      assert !Satisfies(table[j], q[0]);
    }
    assert SatisfiesAll(table[i], q) && Satisfies(table[i], q[0]);
  }

  /**
   * With org_id filled and no location carrying it, nothing is found, whatever company,
   * global or local locations exist: every later step inherits the org clause.
   */
  lemma {:induction false} OrgMissBlocksEverything(table: seq<Location>, ctx: UploadContext)
    requires Filled(ctx.orgId)
    requires forall j :: 0 <= j < |table| ==> table[j].orgId != ctx.orgId
    ensures FirstHit(table, StepQueries(ctx)) == None
  {
    var q := [Where(OrgIdColumn, ctx.orgId.value)];
    forall j | 0 <= j < |table|
      ensures !SatisfiesAll(table[j], q)
    {
      assert !Satisfies(table[j], q[0]);
    }
    AsWrittenIsResolved(table, ctx);
  }

  /** Without org_id, a filled company_id that no location carries also finds nothing. */
  lemma {:induction false} CompanyMissBlocksDefault(table: seq<Location>, ctx: UploadContext)
    requires !Filled(ctx.orgId) && Filled(ctx.companyId)
    requires forall j :: 0 <= j < |table| ==> table[j].companyId != ctx.companyId
    ensures FirstHit(table, StepQueries(ctx)) == None
  {
    var q := [Where(CompanyIdColumn, ctx.companyId.value)];
    forall j | 0 <= j < |table|
      ensures !SatisfiesAll(table[j], q)
    {
      assert !Satisfies(table[j], q[0]);
    }
    AsWrittenIsResolved(table, ctx);
  }

  /** The final "any local location" step never changes the outcome: dropping it is harmless. */
  lemma LocalFallbackNeverDecides(table: seq<Location>, ctx: UploadContext)
    ensures var qs := StepQueries(ctx);
            FirstHit(table, qs) == FirstHit(table, qs[..|qs| - 1])
  {
    var qs := StepQueries(ctx);
    var n := |qs|;
    var g := GlobalStep(ctx);
    assert qs[n - 2] == g && qs[n - 1] == g + [Where(LocationTypeColumn, LocalType)];
    if First(table, g).None? {
      RefinedQueryMisses(table, g, [Where(LocationTypeColumn, LocalType)]);
    }
    FirstHitDropLast(table, qs);
  }

  /** FirstHit ignores a last query that finds nothing whenever the one before it misses too. */
  lemma {:induction false} FirstHitDropLast(table: seq<Location>, qs: seq<Query>)
    requires |qs| >= 2
    requires First(table, qs[|qs| - 2]).None? ==> First(table, qs[|qs| - 1]).None?
    ensures FirstHit(table, qs) == FirstHit(table, qs[..|qs| - 1])
    decreases |qs|
  {
    var front := qs[..|qs| - 1];
    assert front[0] == qs[0];
    if First(table, qs[0]).None? {
      assert FirstHit(table, qs) == FirstHit(table, qs[1..]);
      assert FirstHit(table, front) == FirstHit(table, front[1..]);
      if |qs| == 2 {
        assert front[1..] == [];
        assert qs[1..][1..] == [];
        assert FirstHit(table, qs[1..]) == First(table, qs[1]);
      } else {
        assert qs[1..][..|qs| - 2] == front[1..];
        FirstHitDropLast(table, qs[1..]);
      }
    }
  }

  /** Whenever the code finds a location, it is the one the documented priority picks. */
  lemma ResolvedAgreesWithDocumented(table: seq<Location>, ctx: UploadContext)
    requires Resolved(table, ctx).Some?
    ensures Resolved(table, ctx) == DocumentedPriority(table, ctx)
  {
  }

  /**
   * Organisation 7 has no location, company 3 has a Wasabi location (type 2), the global
   * default is local: the documented priority picks the Wasabi location, the code finds nothing.
   */
  lemma CompanyFallbackScenario()
    ensures var table := [Location(1, 2, None, Some(3)), Location(2, LocalType, None, None)];
            var ctx := UploadContext(Some(7), Some(3));
            Resolved(table, ctx) == None && DocumentedPriority(table, ctx) == Some(table[0])
  {
    var table := [Location(1, 2, None, Some(3)), Location(2, LocalType, None, None)];
    var o := [Where(OrgIdColumn, 7)];
    assert !Satisfies(table[0], o[0]) && !Satisfies(table[1], o[0]);
    var c := [Where(CompanyIdColumn, 3)];
    assert Satisfies(table[0], c[0]);
  }
}
