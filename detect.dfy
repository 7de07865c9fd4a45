/**
  Change detection and the batched inventory upsert of
  `processOptimizedDailyUpdate` (routes/upload.js:423-553): each
  accumulated record whose product and branch have ids is compared with the
  prior inventory row of its key, classified new, updated or unchanged, and
  the new and updated ones are written 13 parameters to a tuple, one
  statement per slice of BATCH_SIZE records.
*/
module Detect {
  import opened Js
  import opened Sheet
  import opened Normalise
  import opened Accumulation
  import opened Store
  import opened Resolve

  /** Parameters per inventory tuple. */
  const WIDTH: nat := 13

  /** The two `Math.random()` draws for a record, already scaled:
      `Math.random() * 20` and `Math.random() * 10`. */
  datatype Jitter = Jitter(avl: real, transit: real)

  predicate InRange(j: Jitter) {
    0.0 <= j.avl < 20.0 && 0.0 <= j.transit < 10.0
  }

  /** An entry of `changes`. */
  datatype Change =
    | New(product: string, branch: string, date: string, value: int)
    | Updated(product: string, branch: string, date: string, oldValue: int, newValue: int, change: int)

  /** An entry of `Array.from(processedData.entries())`. */
  datatype Entry = Entry(key: string, rec: Rec)

  function Entries(acc: Acc): seq<Entry>
    requires forall i | 0 <= i < |acc.order| :: acc.order[i] in acc.recs
  {
    seq(|acc.order|, i requires 0 <= i < |acc.order| => Entry(acc.order[i], acc.recs[acc.order[i]]))
  }

  function Abs(x: int): nat {
    if x < 0 then -x else x
  }

  function Max(a: int, b: int): int {
    if a >= b then a else b
  }

  /** `map.get(name.toUpperCase())`, with 0 standing for `undefined`; both
      fail the `productId && branchId` test. */
  function IdOf(m: map<string, nat>, name: string): nat {
    if Upper(name) in m then m[Upper(name)] else 0
  }

  /** The values written for a record (routes/upload.js:470-482). */
  function Derive(pid: nat, bid: nat, r: Rec, j: Jitter): InvRow {
    var billing := Round(r.billing);
    var avl := Round(r.billing * 1.5 + j.avl);
    var transit := Round(r.billing * 0.3 + j.transit);
    InvRow(pid, bid, Max(0, avl + billing - transit), avl, transit, billing, Round(r.billing * 1.2 + 50.0),
           Round(r.demandPlan), Round(r.skuOpeningStock), Round(r.goodsInTransit),
           Round(r.finalBalanceProduce), Round(r.mtdInvoicing), r.category)
  }

  /** The 13 parameters pushed for a written record, in column order. */
  function InvValues(w: InvRow): seq<Param> {
    [PInt(w.productId), PInt(w.branchId), PInt(w.opStock), PInt(w.avlStock), PInt(w.transit),
     PInt(w.billing), PInt(w.monthPlan), PInt(w.demandPlan), PInt(w.skuOpeningStock),
     PInt(w.goodsInTransit), PInt(w.finalBalanceProduce), PInt(w.mtdInvoicing), PText(w.category)]
  }

  /** What happens to one record: skipped for want of an id, skipped as
      unchanged (its branch still counts as affected), or written. */
  datatype Decision = Unresolved | Unchanged(branch: string) | Write(change: Change, row: InvRow)

  function Decide(e: Entry, pm: map<string, nat>, bm: map<string, nat>, existing: map<string, int>, j: Jitter): Decision {
    var r := e.rec;
    var pid := IdOf(pm, r.itemCode);
    var bid := IdOf(bm, r.branchName);
    if pid == 0 || bid == 0 then Unresolved
    else
      var w := Derive(pid, bid, r, j);
      if e.key in existing then
        if Abs(existing[e.key] - w.billing) > 0 then
          Write(Updated(r.itemCode, r.branchName, r.recordDate, existing[e.key], w.billing, w.billing - existing[e.key]), w)
        else Unchanged(r.branchName)
      else Write(New(r.itemCode, r.branchName, r.recordDate, w.billing), w)
  }

  /** The decision for every entry; `noise(i)` is the jitter drawn for entry `i`. */
  function Decisions(es: seq<Entry>, pm: map<string, nat>, bm: map<string, nat>, existing: map<string, int>,
                     noise: nat -> Jitter): (ds: seq<Decision>)
    ensures |ds| == |es|
  {
    seq(|es|, i requires 0 <= i < |es| => Decide(es[i], pm, bm, existing, noise(i)))
  }

  /** `ds[k]` is the decision for entry `k`. */
  ghost predicate DecidedAt(ds: seq<Decision>, es: seq<Entry>, pm: map<string, nat>, bm: map<string, nat>,
                            existing: map<string, int>, noise: nat -> Jitter, k: nat)
    requires k < |ds| && k < |es|
  {
    ds[k] == Decide(es[k], pm, bm, existing, noise(k))
  }

  lemma DecisionsAll(es: seq<Entry>, pm: map<string, nat>, bm: map<string, nat>, existing: map<string, int>,
                     noise: nat -> Jitter)
    ensures forall k | 0 <= k < |es| :: DecidedAt(Decisions(es, pm, bm, existing, noise), es, pm, bm, existing, noise, k)
  {
  }

  /** The counters, the change list and `branchesAffected`. */
  datatype Tally = Tally(newCount: nat, updated: nat, skipped: nat, changes: seq<Change>, affected: seq<string>)

  const NONE: Tally := Tally(0, 0, 0, [], [])

  function Count(t: Tally, d: Decision): Tally {
    match d
    case Unresolved => t.(skipped := t.skipped + 1)
    case Unchanged(b) => t.(skipped := t.skipped + 1, affected := AddIfAbsent(t.affected, b))
    case Write(c, _) =>
      var t' := if c.New? then t.(newCount := t.newCount + 1) else t.(updated := t.updated + 1);
      t'.(changes := t.changes + [c], affected := AddIfAbsent(t.affected, c.branch))
  }

  function Tallied(ds: seq<Decision>): Tally
    decreases |ds|
  {
    if |ds| == 0 then NONE else Count(Tallied(ds[..|ds| - 1]), ds[|ds| - 1])
  }

  /** The rows written, in order. */
  function Writes(ds: seq<Decision>): seq<InvRow>
    decreases |ds|
  {
    if |ds| == 0 then []
    else Writes(ds[..|ds| - 1]) + (if ds[|ds| - 1].Write? then [ds[|ds| - 1].row] else [])
  }

  function Values(rows: seq<InvRow>): (r: seq<seq<Param>>)
    ensures |r| == |rows| && Width(r, WIDTH)
  {
    seq(|rows|, k requires 0 <= k < |rows| => InvValues(rows[k]))
  }

  /** The upsert statement of one batch. */
  function Statement(rows: seq<InvRow>): Stmt {
    Stmt(Placeholders(|rows|, WIDTH), Flatten(Values(rows)))
  }

  /** The tables after the batches of decisions, stopping at the first
      statement that fails; a batch with nothing to write issues none. */
  function Batches(db: Tables, ds: seq<Decision>, now: Stamp): Result<Tables>
    decreases |ds|
  {
    if |ds| == 0 then Success(db)
    else
      var n := Min(BATCH_SIZE, |ds|);
      var rows := Writes(ds[..n]);
      match (if |rows| == 0 then Success(db) else Upsert(db, Statement(rows), now))
      case Failure(e) => Failure(e)
      case Success(d) => Batches(d, ds[n..], now)
  }

  /** The outcome of the stage: the new tables and the tally, or the
      error of the statement that failed. */
  function Detection(db: Tables, es: seq<Entry>, pm: map<string, nat>, bm: map<string, nat>,
                     existing: map<string, int>, noise: nat -> Jitter, now: Stamp): Result<(Tables, Tally)>
  {
    var ds := Decisions(es, pm, bm, existing, noise);
    match Batches(db, ds, now)
    case Failure(e) => Failure(e)
    case Success(d) => Success((d, Tallied(ds)))
  }

  /** `($p, $(p+1), ..., $(p+12))` */
  function Tuple(p: nat): seq<nat> {
    [p, p + 1, p + 2, p + 3, p + 4, p + 5, p + 6, p + 7, p + 8, p + 9, p + 10, p + 11, p + 12]
  }

  /** The batch loop of routes/upload.js:452-553. */
  method DetectChanges(db: Tables, es: seq<Entry>, pm: map<string, nat>, bm: map<string, nat>,
                       existing: map<string, int>, noise: nat -> Jitter, now: Stamp)
    returns (r: Result<(Tables, Tally)>)
    ensures r == Detection(db, es, pm, bm, existing, noise, now)
  {
    ghost var ds := Decisions(es, pm, bm, existing, noise);
    DecisionsAll(es, pm, bm, existing, noise);
    r := RunBatches(db, es, pm, bm, existing, noise, now, ds);
  }

  /** The loop itself, against the decisions `ds` it makes one by one. */
  method RunBatches(db: Tables, es: seq<Entry>, pm: map<string, nat>, bm: map<string, nat>,
                    existing: map<string, int>, noise: nat -> Jitter, now: Stamp, ghost ds: seq<Decision>)
    returns (r: Result<(Tables, Tally)>)
    requires |ds| == |es| && forall k | 0 <= k < |es| :: DecidedAt(ds, es, pm, bm, existing, noise, k)
    ensures r == match Batches(db, ds, now)
      case Failure(e) => Failure(e)
      case Success(d) => Success((d, Tallied(ds)))
  {
    var t := NONE;
    var cur := db;
    var i := 0;
    while i < |es|
      invariant 0 <= i
      invariant Batches(db, ds, now) == Batches(cur, ds[Min(i, |es|)..], now)
      invariant t == Tallied(ds[..Min(i, |es|)])
      decreases |es| - i
    {
      var end := Min(i + BATCH_SIZE, |es|);
      var tuples, params;
      t, tuples, params := BuildBatch(t, es, i, end, pm, bm, existing, noise, ds);
      var res := Success(cur);
      if |tuples| > 0 {
        res := Upsert(cur, Stmt(tuples, params), now);
      }
      BatchOutcome(cur, ds, i, now, tuples, params, res);
      if res.Failure? {
        return Failure(res.error);
      }
      cur := res.value;
      i := i + BATCH_SIZE;
    }
    assert ds[..|es|] == ds;
    r := Success((cur, t));
  }

  /** `for (const [key, value] of batch)`: the tally after the batch, and
      the batch's tuples and parameters. */
  method BuildBatch(t0: Tally, es: seq<Entry>, i: nat, end: nat, pm: map<string, nat>, bm: map<string, nat>,
                    existing: map<string, int>, noise: nat -> Jitter, ghost ds: seq<Decision>)
    returns (t: Tally, tuples: seq<seq<nat>>, params: seq<Param>)
    requires |ds| == |es| && forall k | 0 <= k < |es| :: DecidedAt(ds, es, pm, bm, existing, noise, k)
    requires i <= end <= |es| && t0 == Tallied(ds[..i])
    ensures t == Tallied(ds[..end])
    ensures tuples == Placeholders(|Writes(ds[i..end])|, WIDTH)
    ensures params == Flatten(Values(Writes(ds[i..end])))
  {
    t, tuples, params := t0, [], [];
    var paramIndex := 1;
    var k := i;
    while k < end
      invariant i <= k <= end
      invariant t == Tallied(ds[..k])
      invariant tuples == Tuples(|Writes(ds[i..k])|)
      invariant params == Flatten(Values(Writes(ds[i..k])))
      invariant paramIndex == WIDTH * |tuples| + 1
    {
      assert DecidedAt(ds, es, pm, bm, existing, noise, k);
      ghost var (t0, tuples0, params0, index0) := (t, tuples, params, paramIndex);
      t, tuples, params, paramIndex := VisitEntry(t, tuples, params, paramIndex, es[k], pm, bm, existing, noise(k), ds[k]);
      EntryStep(ds, i, k, t0, tuples0, params0, index0, t, tuples, params, paramIndex);
      k := k + 1;
    }
    TuplesPlaceholders(|tuples|);
  }

  /** The loop body for one entry; its `continue` is the early return. */
  method VisitEntry(t0: Tally, tuples0: seq<seq<nat>>, params0: seq<Param>, paramIndex0: nat, e: Entry,
                    pm: map<string, nat>, bm: map<string, nat>, existing: map<string, int>, j: Jitter,
                    ghost d: Decision)
    returns (t: Tally, tuples: seq<seq<nat>>, params: seq<Param>, paramIndex: nat)
    requires d == Decide(e, pm, bm, existing, j)
    ensures && t == Count(t0, d)
      && tuples == tuples0 + (if d.Write? then [Tuple(paramIndex0)] else [])
      && params == params0 + (if d.Write? then InvValues(d.row) else [])
      && paramIndex == paramIndex0 + (if d.Write? then WIDTH else 0)
  {
    t, tuples, params, paramIndex := t0, tuples0, params0, paramIndex0;
    var rec := e.rec;
    var pid := IdOf(pm, rec.itemCode);
    var bid := IdOf(bm, rec.branchName);
    if pid == 0 || bid == 0 {
      t := t.(skipped := t.skipped + 1);
      return;
    }
    var w := Derive(pid, bid, rec, j);
    t := t.(affected := AddIfAbsent(t.affected, rec.branchName));
    if e.key in existing {
      if Abs(existing[e.key] - w.billing) > 0 {
        t := t.(changes := t.changes + [Updated(rec.itemCode, rec.branchName, rec.recordDate,
                                                existing[e.key], w.billing, w.billing - existing[e.key])],
                updated := t.updated + 1);
      } else {
        t := t.(skipped := t.skipped + 1);
        return;
      }
    } else {
      t := t.(changes := t.changes + [New(rec.itemCode, rec.branchName, rec.recordDate, w.billing)],
              newCount := t.newCount + 1);
    }
    tuples := tuples + [Tuple(paramIndex)];
    params := params + InvValues(w);
    paramIndex := paramIndex + WIDTH;
  }

  // ---------------------------------------------------------------------
  // Steps of the loop
  // ---------------------------------------------------------------------

  /** The loop's invariant survives one entry. */
  lemma EntryStep(ds: seq<Decision>, i: nat, k: nat,
                  t0: Tally, tuples0: seq<seq<nat>>, params0: seq<Param>, index0: nat,
                  t: Tally, tuples: seq<seq<nat>>, params: seq<Param>, index: nat)
    requires i <= k < |ds|
    requires t0 == Tallied(ds[..k]) && tuples0 == Tuples(|Writes(ds[i..k])|)
    requires params0 == Flatten(Values(Writes(ds[i..k]))) && index0 == WIDTH * |tuples0| + 1
    requires && t == Count(t0, ds[k])
      && tuples == tuples0 + (if ds[k].Write? then [Tuple(index0)] else [])
      && params == params0 + (if ds[k].Write? then InvValues(ds[k].row) else [])
      && index == index0 + (if ds[k].Write? then WIDTH else 0)
    ensures t == Tallied(ds[..k + 1]) && tuples == Tuples(|Writes(ds[i..k + 1])|)
    ensures params == Flatten(Values(Writes(ds[i..k + 1]))) && index == WIDTH * |tuples| + 1
  {
    TalliedSnoc(ds, k);
    BatchStep(ds, i, k);
    TuplesStep(tuples0, tuples, |Writes(ds[i..k])|, ds[k].Write?);
  }

  lemma TalliedSnoc(ds: seq<Decision>, k: nat)
    requires k < |ds|
    ensures Tallied(ds[..k + 1]) == Count(Tallied(ds[..k]), ds[k])
  {
    assert ds[..k + 1][..k] == ds[..k];
  }

  lemma WritesSnoc(ds: seq<Decision>, i: nat, k: nat)
    requires i <= k < |ds|
    ensures Writes(ds[i..k + 1]) == Writes(ds[i..k]) + (if ds[k].Write? then [ds[k].row] else [])
  {
    assert ds[i..k + 1][..k - i] == ds[i..k];
  }

  /** One more entry of a batch: a written one adds a tuple and its
      parameters, any other leaves both alone. */
  lemma BatchStep(ds: seq<Decision>, i: nat, k: nat)
    requires i <= k < |ds|
    ensures var (ws, ws') := (Writes(ds[i..k]), Writes(ds[i..k + 1]));
      && |ws'| == |ws| + (if ds[k].Write? then 1 else 0)
      && Flatten(Values(ws')) == Flatten(Values(ws)) + (if ds[k].Write? then InvValues(ds[k].row) else [])
  {
    WritesSnoc(ds, i, k);
    var ws := Writes(ds[i..k]);
    if ds[k].Write? {
      AppendTuple(ws, ds[k].row);
    } else {
      assert Writes(ds[i..k + 1]) == ws;
      assert Flatten(Values(ws)) + [] == Flatten(Values(ws));
    }
  }

  /** Appending a written row extends the parameters by its values. */
  lemma AppendTuple(rows: seq<InvRow>, w: InvRow)
    ensures Flatten(Values(rows + [w])) == Flatten(Values(rows)) + InvValues(w)
  {
    assert Values(rows + [w]) == Values(rows) + [InvValues(w)];
    FlattenSnoc(Values(rows), InvValues(w));
  }

  /** The tuples the loop pushes, `paramIndex` going up by 13 each time. */
  function Tuples(n: nat): (r: seq<seq<nat>>)
    ensures |r| == n
  {
    if n == 0 then [] else Tuples(n - 1) + [Tuple(WIDTH * (n - 1) + 1)]
  }

  lemma TuplesStep(tuples0: seq<seq<nat>>, tuples: seq<seq<nat>>, n: nat, write: bool)
    requires tuples0 == Tuples(n)
    requires tuples == tuples0 + (if write then [Tuple(WIDTH * |tuples0| + 1)] else [])
    ensures tuples == Tuples(n + if write then 1 else 0)
  {
    if !write {
      assert tuples == tuples0;
    }
  }

  /** They are the placeholders `($1..$13), ($14..$26), ...`. */
  lemma TuplesPlaceholders(n: nat)
    ensures Tuples(n) == Placeholders(n, WIDTH)
  {
    TuplesAt(n);
    var t, q := Tuples(n), Placeholders(n, WIDTH);
    forall k | 0 <= k < n ensures t[k] == q[k] {
      assert |t[k]| == |q[k]| == WIDTH;
      forall j | 0 <= j < WIDTH ensures t[k][j] == q[k][j] {
        assert t[k][j] == WIDTH * k + j + 1;
      }
    }
  }

  /** Tuple `k` pushed by the loop numbers `$(13k+1)` to `$(13k+13)`. */
  lemma {:induction false} TuplesAt(n: nat)
    ensures forall k | 0 <= k < n :: |Tuples(n)[k]| == WIDTH
    ensures forall k, j | 0 <= k < n && 0 <= j < WIDTH :: Tuples(n)[k][j] == WIDTH * k + j + 1
  {
    if n > 0 {
      TuplesAt(n - 1);
      var t := Tuples(n);
      var p := WIDTH * (n - 1) + 1;
      assert t == Tuples(n - 1) + [Tuple(p)];
      forall k | 0 <= k < n - 1 ensures t[k] == Tuples(n - 1)[k] {}
      assert t[n - 1] == Tuple(p);
    }
  }

  /** What one batch of the loop does to the tables that are left to process. */
  lemma BatchOutcome(cur: Tables, ds: seq<Decision>, i: nat, now: Stamp,
                     tuples: seq<seq<nat>>, params: seq<Param>, res: Result<Tables>)
    requires i < |ds|
    requires var ws := Writes(ds[i..Min(i + BATCH_SIZE, |ds|)]);
      tuples == Placeholders(|ws|, WIDTH) && params == Flatten(Values(ws))
    requires res == if |tuples| > 0 then Upsert(cur, Stmt(tuples, params), now) else Success(cur)
    ensures Batches(cur, ds[i..], now) ==
      match res
      case Failure(e) => Failure(e)
      case Success(d) => Batches(d, ds[Min(i + BATCH_SIZE, |ds|)..], now)
  {
    BatchAt(cur, ds, i, now);
  }

  /** The batch starting at `i`. */
  lemma BatchAt(db: Tables, ds: seq<Decision>, i: nat, now: Stamp)
    requires i < |ds|
    ensures var rows := Writes(ds[i..Min(i + BATCH_SIZE, |ds|)]);
      Batches(db, ds[i..], now) ==
        match (if |rows| == 0 then Success(db) else Upsert(db, Statement(rows), now))
        case Failure(e) => Failure(e)
        case Success(d) => Batches(d, ds[Min(i + BATCH_SIZE, |ds|)..], now)
  {
    var rest := ds[i..];
    var n := Min(BATCH_SIZE, |rest|);
    assert rest[..n] == ds[i..Min(i + BATCH_SIZE, |ds|)];
    assert rest[n..] == ds[Min(i + BATCH_SIZE, |ds|)..];
  }

  // ---------------------------------------------------------------------
  // What the stage guarantees
  // ---------------------------------------------------------------------

  lemma RoundMonotone(x: real, y: real)
    requires x <= y
    ensures Round(x) <= Round(y)
  {
  }

  lemma RoundShift(x: real, n: int)
    ensures Round(x + n as real) == Round(x) + n
  {
  }

  /** The derived values: the rounded billing and month plan, stock and
      transit within their jitter of the rounded base amounts, and an opening
      stock that is never negative. */
  lemma DeriveBounds(pid: nat, bid: nat, r: Rec, j: Jitter)
    requires InRange(j)
    ensures var w := Derive(pid, bid, r, j);
      && w.productId == pid && w.branchId == bid
      && w.billing == Round(r.billing) && w.monthPlan == Round(r.billing * 1.2 + 50.0)
      && Round(r.billing * 1.5) <= w.avlStock <= Round(r.billing * 1.5) + 20
      && Round(r.billing * 0.3) <= w.transit <= Round(r.billing * 0.3) + 10
      && w.opStock >= 0 && w.opStock >= w.avlStock + w.billing - w.transit
      && (w.opStock == 0 || w.opStock == w.avlStock + w.billing - w.transit)
  {
    RoundMonotone(r.billing * 1.5, r.billing * 1.5 + j.avl);
    RoundMonotone(r.billing * 1.5 + j.avl, r.billing * 1.5 + 20.0);
    RoundShift(r.billing * 1.5, 20);
    RoundMonotone(r.billing * 0.3, r.billing * 0.3 + j.transit);
    RoundMonotone(r.billing * 0.3 + j.transit, r.billing * 0.3 + 10.0);
    RoundShift(r.billing * 0.3, 10);
  }

  /** The classification of routes/upload.js:466-528: a record is skipped
      when its product or branch has no id; otherwise it is new when no prior
      row has its key, unchanged when the prior billing equals its rounded
      billing, and updated, with `change = new - old`, when they differ. */
  lemma DecideCases(e: Entry, pm: map<string, nat>, bm: map<string, nat>, existing: map<string, int>, j: Jitter)
    ensures var d := Decide(e, pm, bm, existing, j);
      var r := e.rec;
      var resolved := IdOf(pm, r.itemCode) != 0 && IdOf(bm, r.branchName) != 0;
      var b := Round(r.billing);
      && (d.Unresolved? <==> !resolved)
      && (d.Unchanged? <==> resolved && e.key in existing && existing[e.key] == b)
      && (d.Write? && d.change.New? <==> resolved && e.key !in existing)
      && (d.Write? && d.change.Updated? <==> resolved && e.key in existing && existing[e.key] != b)
      && (d.Unchanged? ==> d.branch == r.branchName)
      && (d.Write? ==>
            && d.row == Derive(IdOf(pm, r.itemCode), IdOf(bm, r.branchName), r, j)
            && d.change.product == r.itemCode && d.change.branch == r.branchName
            && d.change.date == r.recordDate)
      && (d.Write? && d.change.New? ==> d.change.value == b)
      && (d.Write? && d.change.Updated? ==>
            && d.change.oldValue == existing[e.key] && d.change.newValue == b
            && d.change.change == d.change.newValue - d.change.oldValue && d.change.change != 0)
  {
  }

  /** Every record is counted once, as new, updated or skipped; the changes
      are the new and updated ones, one per written tuple; and
      `branchesAffected` has no repeats. */
  lemma {:induction false} TallyCounts(ds: seq<Decision>)
    ensures var t := Tallied(ds);
      && t.newCount + t.updated + t.skipped == |ds|
      && |t.changes| == t.newCount + t.updated == |Writes(ds)|
      && Distinct(t.affected)
    decreases |ds|
  {
    if |ds| > 0 {
      var prev := ds[..|ds| - 1];
      TallyCounts(prev);
      var t := Tallied(prev);
      match ds[|ds| - 1]
      case Unresolved =>
      case Unchanged(b) => AddIfAbsentDistinct(t.affected, b);
      case Write(c, _) => AddIfAbsentDistinct(t.affected, c.branch);
    }
  }

  /** The branch of a record that was not skipped for want of an id. */
  predicate Touches(d: Decision, b: string) {
    (d.Unchanged? && d.branch == b) || (d.Write? && d.change.branch == b)
  }

  lemma CountAffected(t: Tally, d: Decision)
    ensures forall b :: b in Count(t, d).affected <==> b in t.affected || Touches(d, b)
  {
  }

  /** `branchesAffected` holds exactly the branches of the records whose
      ids were found, unchanged ones included. */
  lemma {:induction false} AffectedMeaning(ds: seq<Decision>)
    ensures forall b :: b in Tallied(ds).affected <==> exists i :: 0 <= i < |ds| && Touches(ds[i], b)
    decreases |ds|
  {
    if |ds| > 0 {
      var prev := ds[..|ds| - 1];
      AffectedMeaning(prev);
      CountAffected(Tallied(prev), ds[|ds| - 1]);
      forall b ensures b in Tallied(ds).affected <==> exists i :: 0 <= i < |ds| && Touches(ds[i], b) {
        if exists i :: 0 <= i < |prev| && Touches(prev[i], b) {
          var i :| 0 <= i < |prev| && Touches(prev[i], b);
          assert ds[i] == prev[i];
        }
        if exists i :: 0 <= i < |ds| && Touches(ds[i], b) {
          var i :| 0 <= i < |ds| && Touches(ds[i], b);
          if i < |prev| {
            assert prev[i] == ds[i];
          }
        }
      }
    }
  }

  /** The batches issue every written row, in order: the writes of a prefix
      followed by those of the rest. */
  lemma {:induction false} WritesSplit(ds: seq<Decision>, n: nat)
    requires n <= |ds|
    ensures Writes(ds) == Writes(ds[..n]) + Writes(ds[n..])
    decreases |ds|
  {
    if |ds| > n {
      var m := |ds| - 1;
      WritesSplit(ds[..m], n);
      assert ds[..m][..n] == ds[..n];
      assert ds[n..][..m - n] == ds[..m][n..];
    } else {
      assert ds[..n] == ds;
    }
  }

  lemma InvValuesDecode(w: InvRow)
    ensures DecodeInv(InvValues(w)) == Some(w)
  {
  }

  lemma {:induction false} DecodeAllValues(rows: seq<InvRow>)
    ensures DecodeAll(Values(rows)) == Some(rows)
    decreases |rows|
  {
    if |rows| > 0 {
      var n := |rows| - 1;
      DecodeAllValues(rows[..n]);
      assert Values(rows)[..n] == Values(rows[..n]);
      InvValuesDecode(rows[n]);
      assert rows[..n] + [rows[n]] == rows;
    }
  }

  /** Tuple `k` of a batch's statement binds `$(13k+1)..$(13k+13)`, the
      statement carries 13 parameters per tuple, and bound it stands for the
      written rows, so the upsert is the row-by-row upsert of those rows. */
  lemma StatementBinds(db: Tables, rows: seq<InvRow>, now: Stamp)
    ensures |Statement(rows).params| == WIDTH * |rows|
    ensures Bind(Statement(rows)) == Some(Values(rows))
    ensures Upsert(db, Statement(rows), now) ==
      match UpsertRows(db.inventory, rows, now)
      case Failure(e) => Failure(e)
      case Success(inv) => Success(db.(inventory := inv))
  {
    FlattenLength(Values(rows), WIDTH);
    BindRows(Values(rows), WIDTH);
    DecodeAllValues(rows);
  }

  /** A batch that would write one (product, branch) pair twice (the same
      item and branch on two dates, say) makes the whole stage fail with
      "cannot affect row a second time". */
  lemma FirstBatchRepeats(db: Tables, ds: seq<Decision>, now: Stamp)
    requires |ds| > 0 && Repeats(Writes(ds[..Min(BATCH_SIZE, |ds|)]))
    ensures Batches(db, ds, now) == Failure(TWICE)
  {
    var rows := Writes(ds[..Min(BATCH_SIZE, |ds|)]);
    StatementBinds(db, rows, now);
    UpsertRowsFails(db.inventory, rows, now);
  }

  /** A single batch whose rows name distinct pairs succeeds: each written
      row is in the inventory afterwards, every other row is kept, and the
      products and branches are untouched. */
  lemma OneBatch(db: Tables, ds: seq<Decision>, now: Stamp)
    requires |ds| <= BATCH_SIZE && !Repeats(Writes(ds)) && UniquePairs(db.inventory)
    ensures Batches(db, ds, now).Success?
    ensures var d := Batches(db, ds, now).value;
      && d.products == db.products && d.branches == db.branches
      && UniquePairs(d.inventory)
      && (forall w | w in Writes(ds) :: Written(w, now) in d.inventory)
      && (forall x | x in db.inventory && (forall w | w in Writes(ds) :: !(w.productId == x.productId && w.branchId == x.branchId)) ::
            x in d.inventory)
  {
    if |ds| > 0 {
      var rows := Writes(ds);
      assert ds[..Min(BATCH_SIZE, |ds|)] == ds;
      assert ds[Min(BATCH_SIZE, |ds|)..] == [];
      if |rows| > 0 {
        StatementBinds(db, rows, now);
        UpsertRowsFails(db.inventory, rows, now);
        UpsertMeaning(db.inventory, rows, now);
      }
    }
  }

  /** Some slice of BATCH_SIZE decisions writes one pair twice. */
  predicate SliceRepeats(ds: seq<Decision>)
    decreases |ds|
  {
    var n := Min(BATCH_SIZE, |ds|);
    |ds| > 0 && (Repeats(Writes(ds[..n])) || SliceRepeats(ds[n..]))
  }

  /** No later write names the pair of write `k`. */
  predicate LastWrite(ws: seq<InvRow>, k: nat)
    requires k < |ws|
  {
    forall l | k < l < |ws| :: !(ws[l].productId == ws[k].productId && ws[l].branchId == ws[k].branchId)
  }

  /** No write names the pair of row `x`. */
  predicate Unwritten(ws: seq<InvRow>, x: Inv) {
    forall k | 0 <= k < |ws| :: !(ws[k].productId == x.productId && ws[k].branchId == x.branchId)
  }

  /** The batches, whatever their number: they succeed exactly when no slice
      writes a pair twice, and fail otherwise with "cannot affect row a second
      time"; on success the products and branches are untouched, each pair
      still has one row, every pair written holds the row of its last write,
      and the rows of pairs never written are kept. */
  lemma {:induction false} BatchesMeaning(db: Tables, ds: seq<Decision>, now: Stamp)
    requires UniquePairs(db.inventory)
    ensures Batches(db, ds, now).Success? <==> !SliceRepeats(ds)
    ensures Batches(db, ds, now).Failure? ==> Batches(db, ds, now).error == TWICE
    ensures Batches(db, ds, now).Success? ==>
      var (d, ws) := (Batches(db, ds, now).value, Writes(ds));
      && d.products == db.products && d.branches == db.branches
      && UniquePairs(d.inventory)
      && (forall k | 0 <= k < |ws| && LastWrite(ws, k) :: Written(ws[k], now) in d.inventory)
      && (forall x | x in db.inventory && Unwritten(ws, x) :: x in d.inventory)
    decreases |ds|
  {
    if |ds| == 0 {
      assert Writes(ds) == [];
    } else {
      var n := Min(BATCH_SIZE, |ds|);
      var rows := Writes(ds[..n]);
      var first := if |rows| == 0 then Success(db) else Upsert(db, Statement(rows), now);
      FirstSlice(db, rows, now);
      if first.Success? {
        var d1 := first.value;
        BatchesMeaning(d1, ds[n..], now);
        var res := Batches(db, ds, now);
        assert res == Batches(d1, ds[n..], now);
        if res.Success? {
          var d := res.value;
          WritesSplit(ds, n);
          CombineLast(rows, Writes(ds[n..]), d1.inventory, d.inventory, now);
          CombineKept(rows, Writes(ds[n..]), db.inventory, d1.inventory, d.inventory);
        }
      }
    }
  }

  /** The statement of the first slice, or none when it writes nothing. */
  lemma FirstSlice(db: Tables, rows: seq<InvRow>, now: Stamp)
    requires UniquePairs(db.inventory)
    ensures var r := if |rows| == 0 then Success(db) else Upsert(db, Statement(rows), now);
      && (r.Success? <==> !Repeats(rows))
      && (r.Failure? ==> r.error == TWICE)
      && (r.Success? ==>
            && r.value.products == db.products && r.value.branches == db.branches
            && UniquePairs(r.value.inventory)
            && (forall k | 0 <= k < |rows| :: Written(rows[k], now) in r.value.inventory)
            && (forall x | x in db.inventory && Unwritten(rows, x) :: x in r.value.inventory))
  {
    if |rows| > 0 {
      StatementBinds(db, rows, now);
      UpsertRowsFails(db.inventory, rows, now);
      if !Repeats(rows) {
        UpsertMeaning(db.inventory, rows, now);
        var out := UpsertRows(db.inventory, rows, now).value;
        forall x | x in db.inventory && Unwritten(rows, x) ensures x in out {
          var i :| 0 <= i < |db.inventory| && db.inventory[i] == x;
        }
      }
    }
  }

  /** A write of the first slice that no later slice repeats survives them. */
  lemma CombineLast(ws1: seq<InvRow>, ws2: seq<InvRow>, inv1: seq<Inv>, inv2: seq<Inv>, now: Stamp)
    requires forall k | 0 <= k < |ws1| :: Written(ws1[k], now) in inv1
    requires forall x | x in inv1 && Unwritten(ws2, x) :: x in inv2
    requires forall k | 0 <= k < |ws2| && LastWrite(ws2, k) :: Written(ws2[k], now) in inv2
    ensures var ws := ws1 + ws2;
      forall k | 0 <= k < |ws| && LastWrite(ws, k) :: Written(ws[k], now) in inv2
  {
    var ws := ws1 + ws2;
    forall k | 0 <= k < |ws| && LastWrite(ws, k) ensures Written(ws[k], now) in inv2 {
      if k < |ws1| {
        forall l | 0 <= l < |ws2|
          ensures !(ws2[l].productId == Written(ws1[k], now).productId && ws2[l].branchId == Written(ws1[k], now).branchId)
        {
          assert ws[|ws1| + l] == ws2[l];
        }
      } else {
        var j := k - |ws1|;
        forall l | j < l < |ws2| ensures !(ws2[l].productId == ws2[j].productId && ws2[l].branchId == ws2[j].branchId) {
          assert ws[|ws1| + l] == ws2[l];
        }
        assert LastWrite(ws2, j);
      }
    }
  }

  /** A row neither slice group writes survives both. */
  lemma CombineKept(ws1: seq<InvRow>, ws2: seq<InvRow>, inv0: seq<Inv>, inv1: seq<Inv>, inv2: seq<Inv>)
    requires forall x | x in inv0 && Unwritten(ws1, x) :: x in inv1
    requires forall x | x in inv1 && Unwritten(ws2, x) :: x in inv2
    ensures forall x | x in inv0 && Unwritten(ws1 + ws2, x) :: x in inv2
  {
    forall x | x in inv0 && Unwritten(ws1 + ws2, x) ensures x in inv2 {
      var ws := ws1 + ws2;
      forall k | 0 <= k < |ws1| ensures !(ws1[k].productId == x.productId && ws1[k].branchId == x.branchId) {
        assert ws[k] == ws1[k];
      }
      forall k | 0 <= k < |ws2| ensures !(ws2[k].productId == x.productId && ws2[k].branchId == x.branchId) {
        assert ws[|ws1| + k] == ws2[k];
      }
    }
  }

  /** Ids are row positions plus one, so never 0. */
  predicate Positive(m: map<string, nat>) {
    forall u | u in m :: m[u] >= 1
  }

  /** Once the missing products and branches have been created, every
      accumulated record has both ids. */
  lemma ResolvedAfterCreation(acc: Acc, pm: map<string, nat>, bm: map<string, nat>,
                              pm': map<string, nat>, bm': map<string, nat>, pb: nat, bb: nat)
    requires InvCover(acc, pm, bm) && Positive(pm) && Positive(bm)
    requires Extends(pm', pm, acc.missingProducts, pb) && Extends(bm', bm, acc.missingBranches, bb)
    ensures forall k | k in acc.recs :: IdOf(pm', acc.recs[k].itemCode) >= 1 && IdOf(bm', acc.recs[k].branchName) >= 1
  {
    forall k | k in acc.recs ensures IdOf(pm', acc.recs[k].itemCode) >= 1 && IdOf(bm', acc.recs[k].branchName) >= 1 {
      var r := acc.recs[k];
      if r.itemCode !in pm {
        var i :| 0 <= i < |acc.missingProducts| && acc.missingProducts[i] == r.itemCode;
      }
      if r.branchName !in bm {
        var i :| 0 <= i < |acc.missingBranches| && acc.missingBranches[i] == r.branchName;
      }
    }
  }

  /** With every id found, no record is skipped for want of one. */
  lemma NoneUnresolved(es: seq<Entry>, pm: map<string, nat>, bm: map<string, nat>, existing: map<string, int>,
                       noise: nat -> Jitter)
    requires forall i | 0 <= i < |es| :: IdOf(pm, es[i].rec.itemCode) >= 1 && IdOf(bm, es[i].rec.branchName) >= 1
    ensures forall i | 0 <= i < |es| :: !Decisions(es, pm, bm, existing, noise)[i].Unresolved?
  {
    forall i | 0 <= i < |es| ensures !Decisions(es, pm, bm, existing, noise)[i].Unresolved? {
      DecideCases(es[i], pm, bm, existing, noise(i));
    }
  }
}
