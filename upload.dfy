/**
  The upload route of routes/upload.js: the MIME filter in front of it
  (22-35), the POST handler's transaction (95-184) around
  `processOptimizedDailyUpdate` (228-592), the `hasMore` flag of the history
  listing (212) and the overview counts of the freshness listing (619-624).
*/
module Upload {
  import opened Js
  import opened Dates
  import opened Sheet
  import opened Normalise
  import opened Accumulation
  import opened Store
  import opened Resolve
  import opened Detect
  import opened Report
  import opened App

  // ---------------------------------------------------------------------
  // The MIME filter
  // ---------------------------------------------------------------------

  const ALLOWED_TYPES: seq<string> := [
    "application/vnd.openxmlformats-officedocument.spreadsheetml.sheet",
    "application/vnd.ms-excel",
    "text/csv"
  ]

  /** "Invalid file type. Only XLSX, XLS, and CSV files are allowed." */
  const BAD_TYPE: string := "Invalid file type. " + "Only XLSX, XLS, " + "and CSV files are allowed."

  /** multer's `fileFilter`: `cb(null, true)` or `cb(error)`. */
  function FileFilter(mimetype: string): Result<bool> {
    if mimetype in ALLOWED_TYPES then Success(true) else Failure(BAD_TYPE)
  }

  /** Exactly the three spreadsheet types pass; any other file is refused
      with the "Invalid file type" error, which the global handler answers
      with 500, not 403, since its message does not mention CORS. */
  lemma FileFilterMeaning(mimetype: string)
    ensures FileFilter(mimetype).Success? <==>
      mimetype == "application/vnd.openxmlformats-officedocument.spreadsheetml.sheet"
      || mimetype == "application/vnd.ms-excel" || mimetype == "text/csv"
    ensures FileFilter(mimetype).Failure? ==>
      HandleError(FileFilter(mimetype).error) == Reply(500, Internal("Internal server error", BAD_TYPE))
  {
    if FileFilter(mimetype).Failure? {
      assert 'R' !in "Invalid file type. ";
      assert 'R' !in "Only XLSX, XLS, ";
      assert 'R' !in "and CSV files are allowed.";
      Excludes(BAD_TYPE, "CORS", 2);
    }
  }

  // ---------------------------------------------------------------------
  // The history listing's hasMore
  // ---------------------------------------------------------------------

  /** `parseInt(offset)` of the query's offset, 0 when absent; None is NaN. */
  function OffsetParam(q: Option<string>): Option<int> {
    if q.None? then Some(0) else ParseIntText(q.value)
  }

  /** `(parseInt(offset) + rows.length) < parseInt(count)`; NaN compares false. */
  function HasMore(offset: Option<int>, returned: nat, total: int): bool {
    offset.Some? && offset.value + returned < total
  }

  /** The number of rows `LIMIT limit OFFSET offset` returns out of `total`. */
  function PageSize(offset: nat, limit: nat, total: nat): (n: nat)
    ensures n <= limit && (n == 0 || offset + n <= total)
  {
    if offset >= total then 0 else Min(limit, total - offset)
  }

  /** On a page as the query returns it, more rows remain exactly when the
      page was full and did not reach the end; an offset that parses to NaN
      never reports more. */
  lemma HasMorePaging(offset: nat, limit: nat, total: nat, q: Option<string>)
    ensures HasMore(Some(offset), PageSize(offset, limit, total), total) <==> offset + limit < total
    ensures HasMore(Some(offset), PageSize(offset, limit, total), total) ==> PageSize(offset, limit, total) == limit
    ensures OffsetParam(q).None? ==> !HasMore(OffsetParam(q), PageSize(offset, limit, total), total)
    ensures OffsetParam(None) == Some(0)
  {
  }

  // ---------------------------------------------------------------------
  // The freshness overview
  // ---------------------------------------------------------------------

  /** One row of the freshness query: `days_old` (NULL for a branch with no
      inventory) and `total_records`. */
  datatype FreshRow = FreshRow(daysOld: Option<int>, totalRecords: nat)

  datatype Overview = Overview(totalBranches: nat, upToDate: nat, needsUpdate: nat, totalRecords: nat)

  /** `days_old` as a JavaScript comparison reads it: `null` becomes 0. */
  function DaysOld(r: FreshRow): int {
    if r.daysOld.None? then 0 else r.daysOld.value
  }

  predicate UpToDate(r: FreshRow) {
    DaysOld(r) <= 1
  }

  predicate NeedsUpdate(r: FreshRow) {
    DaysOld(r) > 3
  }

  /** Ages two and three, counted in neither figure. */
  predicate Aging(r: FreshRow) {
    2 <= DaysOld(r) <= 3
  }

  function SumRecords(rows: seq<FreshRow>): nat
    decreases |rows|
  {
    if |rows| == 0 then 0 else SumRecords(rows[..|rows| - 1]) + rows[|rows| - 1].totalRecords
  }

  function FreshnessOverview(rows: seq<FreshRow>): Overview {
    Overview(|rows|, |Filter(rows, UpToDate)|, |Filter(rows, NeedsUpdate)|, SumRecords(rows))
  }

  /** Every branch is up to date, aging or in need of an update, and in
      exactly one of these, so the two figures never exceed the number of
      branches. */
  lemma {:induction false} OverviewPartition(rows: seq<FreshRow>)
    ensures var o := FreshnessOverview(rows);
      o.upToDate + o.needsUpdate + |Filter(rows, Aging)| == o.totalBranches
    ensures FreshnessOverview(rows).upToDate + FreshnessOverview(rows).needsUpdate <= |rows|
    decreases |rows|
  {
    if |rows| > 0 {
      OverviewPartition(rows[..|rows| - 1]);
    }
  }

  /** A branch with no inventory at all (NULL `days_old`) counts as up to
      date and never as needing an update. */
  lemma NoDataCountsUpToDate(rows: seq<FreshRow>)
    ensures var o := FreshnessOverview(rows + [FreshRow(None, 0)]);
      && o.upToDate == FreshnessOverview(rows).upToDate + 1
      && o.needsUpdate == FreshnessOverview(rows).needsUpdate
      && o.totalRecords == FreshnessOverview(rows).totalRecords
  {
    var r := rows + [FreshRow(None, 0)];
    assert r[..|r| - 1] == rows;
  }

  // ---------------------------------------------------------------------
  // processOptimizedDailyUpdate
  // ---------------------------------------------------------------------

  /** `createdEntities` */
  datatype Created = Created(branches: nat, products: nat)

  /** The `summary` object stored with the history row. */
  datatype Summary = Summary(changes: seq<Change>, created: Created, range: Option<DateRange>,
                             processingTimeMs: nat, topChanges: seq<Change>)

  /** A row of `upload_history`. */
  datatype HistoryRow = HistoryRow(userId: nat, filename: string, processed: nat, newCount: nat,
                                   updated: nat, skipped: nat, range: Option<DateRange>,
                                   affected: seq<string>, summary: Summary, processingTimeMs: nat)

  /** The object `processOptimizedDailyUpdate` returns. */
  datatype Outcome = Outcome(recordsProcessed: nat, recordsNew: nat, recordsUpdated: nat, recordsSkipped: nat,
                             range: Option<DateRange>, branchesAffected: seq<string>, created: Created,
                             significantChanges: seq<Change>, summary: string, processingTimeMs: nat)

  /** The `$1` and `$2` of the change-detection query. */
  function Bounds(r: Option<DateRange>): Option<(Day, Day)> {
    if r.None? then None else Some((r.value.start, r.value.end))
  }

  function SummaryText(valid: nat, ms: nat, t: Tally): string {
    "Processed " + NatToString(valid) + " records in " + NatToString(ms) + "ms: " + NatToString(t.newCount)
    + " new, " + NatToString(t.updated) + " updated, " + NatToString(t.skipped) + " unchanged"
  }

  /** The history row and the returned object, once the upserts are done. */
  function Finish(acc: Acc, t: Tally, userId: nat, filename: string, ms: nat): (HistoryRow, Outcome) {
    var created := Created(|acc.missingBranches|, |acc.missingProducts|);
    var summary := Summary(SummaryChanges(t.changes), created, acc.range, ms, TopChanges(t.changes));
    (HistoryRow(userId, filename, acc.valid, t.newCount, t.updated, t.skipped, acc.range, t.affected, summary, ms),
     Outcome(acc.valid, t.newCount, t.updated, t.skipped, acc.range, t.affected, created,
             SignificantChanges(t.changes), SummaryText(acc.valid, ms, t), ms))
  }

  /** The loaded maps, the accumulated rows, and the tables and maps after
      the missing branches and products are created (routes/upload.js:232-421). */
  function Resolution(db: Tables, rows: seq<RowObj>, env: Env)
    : Result<(Tables, map<string, nat>, map<string, nat>, Acc)>
  {
    var pm := LoadIds(Materials(db.products));
    var bm := LoadIds(BranchNames(db.branches));
    var acc := Fold(Views(rows, env), pm, bm);
    match BranchStep(db, bm, acc.missingBranches)
    case Failure(e) => Failure(e)
    case Success((db1, bm1)) =>
      match ProductStep(db1, pm, acc)
      case Failure(e) => Failure(e)
      case Success((db2, pm2)) => Success((db2, pm2, bm1, acc))
  }

  /** The whole stage: the tables, the history row and the returned object,
      or the error that aborts the transaction. `noise` gives the two
      random draws of each record, `now` is `CURRENT_TIMESTAMP` and `ms`
      the measured processing time. */
  function Process(db: Tables, rows: seq<RowObj>, env: Env, noise: nat -> Jitter, now: Stamp,
                   userId: nat, filename: string, ms: nat): Result<(Tables, HistoryRow, Outcome)>
  {
    match Resolution(db, rows, env)
    case Failure(e) => Failure(e)
    case Success((db2, pm2, bm2, acc)) =>
      AccumulateInv(rows, env, LoadIds(Materials(db.products)), LoadIds(BranchNames(db.branches)));
      var existing := Lookup(PriorRows(db2, db2.inventory, Bounds(acc.range)));
      match Detection(db2, Entries(acc), pm2, bm2, existing, noise, now)
      case Failure(e) => Failure(e)
      case Success((db3, t)) =>
        var (h, o) := Finish(acc, t, userId, filename, ms);
        Success((db3, h, o))
  }

  /** routes/upload.js:228-592, step by step. */
  method ProcessDailyUpdate(db: Tables, rows: seq<RowObj>, env: Env, noise: nat -> Jitter, now: Stamp,
                            userId: nat, filename: string, ms: nat)
    returns (r: Result<(Tables, HistoryRow, Outcome)>)
    ensures r == Process(db, rows, env, noise, now, userId, filename, ms)
  {
    var pm := LoadIds(Materials(db.products));
    var bm := LoadIds(BranchNames(db.branches));
    var acc := AccumulateRows(rows, env, pm, bm);
    var branches := ResolveBranches(db, bm, acc.missingBranches);
    if branches.Failure? {
      return Failure(branches.error);
    }
    var (db1, bm1) := branches.value;
    var products := ResolveProducts(db1, pm, acc);
    if products.Failure? {
      return Failure(products.error);
    }
    var (db2, pm2) := products.value;
    AccumulateInv(rows, env, pm, bm);
    var existing := Lookup(PriorRows(db2, db2.inventory, Bounds(acc.range)));
    var detected := DetectChanges(db2, Entries(acc), pm2, bm1, existing, noise, now);
    if detected.Failure? {
      return Failure(detected.error);
    }
    var (db3, t) := detected.value;
    var (h, o) := Finish(acc, t, userId, filename, ms);
    r := Success((db3, h, o));
  }

  // ---------------------------------------------------------------------
  // Properties of the stage
  // ---------------------------------------------------------------------

  /** The maps loaded from a table cover every row's name with a row id. */
  lemma LoadedMap(names: seq<string>)
    ensures Covers(LoadIds(names), names) && Positive(LoadIds(names))
  {
    forall i | 0 <= i < |names| ensures Upper(names[i]) in LoadIds(names) {
      LoadIdsLast(names, Upper(names[i]));
    }
    forall u | u in LoadIds(names) ensures LoadIds(names)[u] >= 1 {
      LoadIdsLast(names, u);
    }
  }

  /** Creating the missing branches and products never fails, appends one
      row per missing name to each table, leaves the inventory alone, and
      leaves every accumulated record with both ids. */
  lemma ResolutionSucceeds(db: Tables, rows: seq<RowObj>, env: Env)
    ensures Resolution(db, rows, env).Success?
    ensures var (db2, pm2, bm2, acc) := Resolution(db, rows, env).value;
      && acc == Fold(Views(rows, env), LoadIds(Materials(db.products)), LoadIds(BranchNames(db.branches)))
      && db2 == Tables(db.products + NewProducts(acc.missingProducts, acc),
                       db.branches + NewBranches(acc.missingBranches), db.inventory)
      && forall k | k in acc.recs :: IdOf(pm2, acc.recs[k].itemCode) >= 1 && IdOf(bm2, acc.recs[k].branchName) >= 1
  {
    var pm := LoadIds(Materials(db.products));
    var bm := LoadIds(BranchNames(db.branches));
    var acc := Fold(Views(rows, env), pm, bm);
    AccumulateInv(rows, env, pm, bm);
    AccumulateCover(rows, env, pm, bm);
    LoadedMap(Materials(db.products));
    LoadedMap(BranchNames(db.branches));
    assert Fresh(acc.missingBranches, bm) && Fresh(acc.missingProducts, pm);
    BranchesResolved(db, bm, acc.missingBranches);
    var (db1, bm1) := BranchStep(db, bm, acc.missingBranches).value;
    assert db1.products == db.products;
    ProductsResolved(db1, pm, acc);
    var (db2, pm2) := ProductStep(db1, pm, acc).value;
    ResolvedAfterCreation(acc, pm, bm, pm2, bm1, |db.products|, |db.branches|);
  }

  /** A successful stage returns what `Finish` builds from the
      accumulated records and the tally of their decisions. */
  lemma ProcessShape(db: Tables, rows: seq<RowObj>, env: Env, noise: nat -> Jitter, now: Stamp,
                     userId: nat, filename: string, ms: nat)
    ensures match Resolution(db, rows, env)
      case Failure(_) => false
      case Success((db2, pm2, bm2, acc)) =>
        && (forall i | 0 <= i < |acc.order| :: acc.order[i] in acc.recs)
        && var r := Process(db, rows, env, noise, now, userId, filename, ms);
        var ds := Decisions(Entries(acc), pm2, bm2, Lookup(PriorRows(db2, db2.inventory, Bounds(acc.range))), noise);
        (r.Success? ==> (r.value.1, r.value.2) == Finish(acc, Tallied(ds), userId, filename, ms))
  {
    ResolutionSucceeds(db, rows, env);
    AccumulateInv(rows, env, LoadIds(Materials(db.products)), LoadIds(BranchNames(db.branches)));
  }

  /** When the stage succeeds, every distinct key is counted once as new,
      updated or unchanged, the valid-row count is passed through and the
      affected branches are listed once each. */
  lemma ProcessCounts(db: Tables, rows: seq<RowObj>, env: Env, noise: nat -> Jitter, now: Stamp,
                      userId: nat, filename: string, ms: nat)
    ensures var acc := Fold(Views(rows, env), LoadIds(Materials(db.products)), LoadIds(BranchNames(db.branches)));
      var r := Process(db, rows, env, noise, now, userId, filename, ms);
      r.Success? ==>
        && r.value.2.recordsNew + r.value.2.recordsUpdated + r.value.2.recordsSkipped == |acc.order|
        && r.value.2.recordsProcessed == acc.valid
        && Distinct(r.value.2.branchesAffected)
  {
    ProcessShape(db, rows, env, noise, now, userId, filename, ms);
    ResolutionSucceeds(db, rows, env);
    var (db2, pm2, bm2, acc) := Resolution(db, rows, env).value;
    assert forall i | 0 <= i < |acc.order| :: acc.order[i] in acc.recs;
    TallyCounts(Decisions(Entries(acc), pm2, bm2, Lookup(PriorRows(db2, db2.inventory, Bounds(acc.range))), noise));
  }

  /** The history row records what the returned object reports, with the
      created-entity counts and at most 100 changes and 10 top changes in
      its summary. */
  lemma FinishAgrees(acc: Acc, t: Tally, userId: nat, filename: string, ms: nat)
    ensures var (h, o) := Finish(acc, t, userId, filename, ms);
      && h.processed == o.recordsProcessed == acc.valid
      && h.newCount == o.recordsNew && h.updated == o.recordsUpdated && h.skipped == o.recordsSkipped
      && h.affected == o.branchesAffected && h.summary.created == o.created
      && o.created == Created(|acc.missingBranches|, |acc.missingProducts|)
      && h.range == o.range == acc.range
      && |h.summary.changes| <= SUMMARY_CHANGES && |h.summary.topChanges| <= TOP_CHANGES
      && (forall c | c in o.significantChanges :: c in t.changes && IsSignificant(c))
  {
    SignificantMeaning(t.changes);
  }

  /** ... and no record is skipped for want of a product or branch id. */
  lemma NothingUnresolved(db: Tables, rows: seq<RowObj>, env: Env, noise: nat -> Jitter)
    ensures match Resolution(db, rows, env)
      case Failure(_) => false
      case Success((db2, pm2, bm2, acc)) =>
        && (forall i | 0 <= i < |acc.order| :: acc.order[i] in acc.recs)
        && var existing := Lookup(PriorRows(db2, db2.inventory, Bounds(acc.range)));
           forall i | 0 <= i < |acc.order| :: !Decisions(Entries(acc), pm2, bm2, existing, noise)[i].Unresolved?
  {
    ResolutionSucceeds(db, rows, env);
    var (db2, pm2, bm2, acc) := Resolution(db, rows, env).value;
    AccumulateInv(rows, env, LoadIds(Materials(db.products)), LoadIds(BranchNames(db.branches)));
    var es := Entries(acc);
    forall i | 0 <= i < |es| ensures IdOf(pm2, es[i].rec.itemCode) >= 1 && IdOf(bm2, es[i].rec.branchName) >= 1 {
      assert acc.order[i] in acc.recs;
    }
    NoneUnresolved(es, pm2, bm2, Lookup(PriorRows(db2, db2.inventory, Bounds(acc.range))), noise);
  }

  // ---------------------------------------------------------------------
  // The POST handler
  // ---------------------------------------------------------------------

  /** An uploaded file: its name, its MIME type and the decoded first sheet. */
  datatype File = File(originalName: string, mimetype: string, sheet: seq<seq<Cell>>)

  datatype Body =
    | Refused(error: string)
    | Failed(error: string, details: string)
    | Completed(message: string, processingTime: nat, outcome: Outcome)
    | Rejected(reply: Reply)

  datatype Response = Response(status: nat, body: Body)

  const NO_FILE: string := "No file uploaded."
  const FAILED: string := "Failed to process upload."
  const DONE: string := "Smart daily update completed successfully!"

  /** What the transaction computes from a sheet: the prepared rows run
      through the stage. */
  function Handle(db: Tables, file: File, env: Env, noise: nat -> Jitter, now: Stamp, userId: nat, ms: nat)
    : Result<(Tables, HistoryRow, Outcome)>
  {
    match Prepare(file.sheet)
    case Failure(e) => Failure(e)
    case Success(rows) => Process(db, rows, env, noise, now, userId, file.originalName, ms)
  }

  /** The database the handler works on: the tables and `upload_history`. */
  class Database {
    var tables: Tables
    var history: seq<HistoryRow>

    constructor (t: Tables)
      ensures tables == t && history == []
    {
      tables := t;
      history := [];
    }

    /** `POST /api/upload`: nothing changes unless the whole stage
        succeeds, in which case the tables are those the stage produces and
        one history row is added (BEGIN ... COMMIT, or ROLLBACK on any
        error). `ms` is the stage's own time, `elapsed` the handler's. */
    method Upload(file: Option<File>, env: Env, noise: nat -> Jitter, now: Stamp, userId: nat, ms: nat, elapsed: nat)
      returns (resp: Response)
      modifies this
      ensures file.None? ==> resp == Response(400, Refused(NO_FILE))
      ensures file.Some? && FileFilter(file.value.mimetype).Failure? ==>
        resp == Response(500, Rejected(HandleError(BAD_TYPE)))
      ensures file.Some? && FileFilter(file.value.mimetype).Success? ==>
        match Handle(old(tables), file.value, env, noise, now, userId, ms)
        case Failure(e) => resp == Response(500, Failed(FAILED, e))
        case Success((t, h, o)) => resp == Response(200, Completed(DONE, elapsed, o))
      ensures resp.status == 200 ==>
        var (t, h, o) := Handle(old(tables), file.value, env, noise, now, userId, ms).value;
        tables == t && history == old(history) + [h]
      ensures resp.status != 200 ==> tables == old(tables) && history == old(history)
    {
      if file.None? {
        return Response(400, Refused(NO_FILE));
      }
      var f := file.value;
      var filtered := FileFilter(f.mimetype);
      if filtered.Failure? {
        FileFilterMeaning(f.mimetype);
        return Response(500, Rejected(HandleError(filtered.error)));
      }
      var prepared := Prepare(f.sheet);
      if prepared.Failure? {
        return Response(500, Failed(FAILED, prepared.error));
      }
      var result := ProcessDailyUpdate(tables, prepared.value, env, noise, now, userId, f.originalName, ms);
      if result.Failure? {
        return Response(500, Failed(FAILED, result.error));
      }
      var (t, h, o) := result.value;
      tables := t;
      history := history + [h];
      resp := Response(200, Completed(DONE, elapsed, o));
    }
  }
}
