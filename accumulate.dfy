/**
  The validation and accumulation loop of `processOptimizedDailyUpdate`
  (routes/upload.js:242-344): rows are visited in batches; each is
  normalised, widens the date range, is rejected or counted valid, records
  its missing branch and product names, and seeds or adds to the record of
  its `date-branch-item` key.
*/
module Accumulation {
  import opened Js
  import opened Dates
  import opened Sheet
  import opened Normalise

  /** Rows, and later records, are processed in slices of this size. */
  const BATCH_SIZE: nat := 500

  datatype DateRange = DateRange(start: Day, end: Day)

  /** The loop's state: `processedData` (keys in insertion order and the
      record of each), the `missingProducts` and `missingBranches` sets (in
      insertion order), `dateRange`, `validRecords` and `invalidRecords`. */
  datatype Acc = Acc(order: seq<string>, recs: map<string, Rec>, missingProducts: seq<string>,
                     missingBranches: seq<string>, range: Option<DateRange>, valid: nat, invalid: nat)

  const EMPTY: Acc := Acc([], map[], [], [], None, 0, 0)

  /** What the loop reads from one row: its normalised outcome, and the
      record it would seed for a new key (None where reading the extra
      fields throws). */
  datatype RowView = RowView(o: Outcome, seed: Option<Rec>)

  function SeedOf(row: RowObj, o: Outcome): Option<Rec> {
    match o
    case Threw => None
    case Normalised(_, date, b, it, q) => NewRecord(row, date, b, it, q)
  }

  function View(row: RowObj, env: Env): RowView {
    var o := NormaliseRow(row, env);
    RowView(o, SeedOf(row, o))
  }

  /** The views of the rows, in order. */
  function Views(rows: seq<RowObj>, env: Env): (vs: seq<RowView>)
    ensures |vs| == |rows|
  {
    seq(|rows|, k requires 0 <= k < |rows| => View(rows[k], env))
  }

  function Min(a: int, b: int): int {
    if a <= b then a else b
  }

  /** The date-range update of routes/upload.js:284-290. */
  function Widen(r: Option<DateRange>, d: Day): DateRange {
    match r
    case None => DateRange(d, d)
    case Some(x) => DateRange(if d < x.start then d else x.start, if d > x.end then d else x.end)
  }

  /** `set.add(x)` on a set kept in insertion order. */
  function AddIfAbsent(s: seq<string>, x: string): seq<string> {
    if x in s then s else s + [x]
  }

  /** The missing-name sets after a row with branch `b` and item `it`. */
  function Note(acc: Acc, b: string, it: string, pm: map<string, nat>, bm: map<string, nat>): Acc {
    acc.(missingProducts := if it in pm then acc.missingProducts else AddIfAbsent(acc.missingProducts, it),
         missingBranches := if b in bm then acc.missingBranches else AddIfAbsent(acc.missingBranches, b))
  }

  /** `record.billing += q` */
  function AddBilling(r: Rec, q: real): (r': Rec)
    ensures r'.billing == r.billing + q
  {
    r.(billing := r.billing + q)
  }

  /** Adding to the record of `key`, or seeding it; a seed that cannot be
      read makes the row invalid. */
  function File(acc: Acc, seed: Option<Rec>, key: string, q: real): Acc {
    if key in acc.recs then
      acc.(recs := acc.recs[key := AddBilling(acc.recs[key], q)],
           valid := acc.valid + 1)
    else
      match seed
      case None => acc.(invalid := acc.invalid + 1)
      case Some(r) => acc.(order := acc.order + [key], recs := acc.recs[key := r], valid := acc.valid + 1)
  }

  /** A row with a non-empty branch and item: it records missing names, then
      adds to the record of its key or seeds a new one. */
  function Admit(acc: Acc, seed: Option<Rec>, date: string, b: string, it: string, q: real,
                 pm: map<string, nat>, bm: map<string, nat>): Acc
  {
    File(Note(acc, b, it, pm, bm), seed, Key(date, b, it), q)
  }

  /** One iteration of the row loop, the catch block included. */
  function Apply(acc: Acc, v: RowView, pm: map<string, nat>, bm: map<string, nat>): Acc {
    match v.o
    case Threw => acc.(invalid := acc.invalid + 1)
    case Normalised(day, date, b, it, q) =>
      var widened := acc.(range := Some(Widen(acc.range, day)));
      if b == "" || it == "" then widened.(invalid := widened.invalid + 1)
      else Admit(widened, v.seed, date, b, it, q, pm, bm)
  }

  /** The state after the rows, in order. `pm` and `bm` are the product and
      branch maps loaded before the loop. */
  function Fold(vs: seq<RowView>, pm: map<string, nat>, bm: map<string, nat>): Acc
    decreases |vs|
  {
    if |vs| == 0 then EMPTY
    else Apply(Fold(vs[..|vs| - 1], pm, bm), vs[|vs| - 1], pm, bm)
  }

  /** The batched row loop of routes/upload.js:242-344. */
  method AccumulateRows(rows: seq<RowObj>, env: Env, pm: map<string, nat>, bm: map<string, nat>)
    returns (acc: Acc)
    ensures acc == Fold(Views(rows, env), pm, bm)
  {
    ghost var vs := Views(rows, env);
    ViewsAll(rows, env);
    acc := EMPTY;
    var i := 0;
    while i < |rows|
      invariant 0 <= i
      invariant acc == Fold(vs[..Min(i, |rows|)], pm, bm)
      decreases |rows| - i
    {
      var end := Min(i + BATCH_SIZE, |rows|);
      acc := ProcessBatch(acc, rows, i, end, env, pm, bm, vs);
      i := i + BATCH_SIZE;
    }
    assert vs[..|rows|] == vs;
  }

  /** `vs[k]` is the view of row `k`. */
  ghost predicate ViewAt(vs: seq<RowView>, rows: seq<RowObj>, env: Env, k: nat)
    requires k < |vs| && k < |rows|
  {
    vs[k] == View(rows[k], env)
  }

  lemma ViewsAll(rows: seq<RowObj>, env: Env)
    ensures forall k | 0 <= k < |rows| :: ViewAt(Views(rows, env), rows, env, k)
  {
  }

  /** `for (const row of data.slice(i, i + BATCH_SIZE))` */
  method ProcessBatch(acc0: Acc, rows: seq<RowObj>, i: nat, end: nat, env: Env,
                      pm: map<string, nat>, bm: map<string, nat>, ghost vs: seq<RowView>)
    returns (acc: Acc)
    requires |vs| == |rows| && forall k | 0 <= k < |rows| :: ViewAt(vs, rows, env, k)
    requires i <= end <= |rows| && acc0 == Fold(vs[..i], pm, bm)
    ensures acc == Fold(vs[..end], pm, bm)
  {
    acc := acc0;
    var k := i;
    while k < end
      invariant i <= k <= end
      invariant acc == Fold(vs[..k], pm, bm)
    {
      acc := ProcessAt(acc, rows, k, env, pm, bm, vs);
      k := k + 1;
    }
  }

  /** The loop body for the row at index `k`. */
  method ProcessAt(acc0: Acc, rows: seq<RowObj>, k: nat, env: Env, pm: map<string, nat>, bm: map<string, nat>,
                   ghost vs: seq<RowView>)
    returns (acc: Acc)
    requires |vs| == |rows| && forall k | 0 <= k < |rows| :: ViewAt(vs, rows, env, k)
    requires k < |rows| && acc0 == Fold(vs[..k], pm, bm)
    ensures acc == Fold(vs[..k + 1], pm, bm)
  {
    assert ViewAt(vs, rows, env, k);
    FoldPrefix(vs, k, pm, bm);
    acc := ProcessRow(acc0, rows[k], env, pm, bm);
  }

  /** Folding one more row of a prefix. */
  lemma FoldPrefix(vs: seq<RowView>, n: nat, pm: map<string, nat>, bm: map<string, nat>)
    requires n < |vs|
    ensures Fold(vs[..n + 1], pm, bm) == Apply(Fold(vs[..n], pm, bm), vs[n], pm, bm)
  {
    assert vs[..n + 1][..n] == vs[..n];
  }

  /** The body of the `try` block for one row; a `trim` that throws lands in
      the `catch`, which counts the row invalid. */
  method ProcessRow(acc0: Acc, row: RowObj, env: Env, pm: map<string, nat>, bm: map<string, nat>)
    returns (acc: Acc)
    ensures acc == Apply(acc0, View(row, env), pm, bm)
  {
    var o := ReadRow(row, env);
    acc := Step(acc0, row, o, pm, bm);
  }

  /** The rest of the `try` block once the row's fields have been read. */
  method Step(acc0: Acc, row: RowObj, o: Outcome, pm: map<string, nat>, bm: map<string, nat>)
    returns (acc: Acc)
    ensures acc == Apply(acc0, RowView(o, SeedOf(row, o)), pm, bm)
  {
    if o.Threw? {
      acc := acc0.(invalid := acc0.invalid + 1);
      return;
    }
    acc := acc0.(range := Some(Widen(acc0.range, o.day)));
    if o.branch == "" || o.item == "" {
      acc := acc.(invalid := acc.invalid + 1);
      return;
    }
    acc := AdmitRow(acc, row, o, pm, bm);
  }

  /** A row with a branch and an item: missing names, then the record. */
  method AdmitRow(acc0: Acc, row: RowObj, o: Outcome, pm: map<string, nat>, bm: map<string, nat>)
    returns (acc: Acc)
    requires o.Normalised?
    ensures acc == Admit(acc0, SeedOf(row, o), o.date, o.branch, o.item, o.qty, pm, bm)
  {
    acc := acc0;
    if o.item !in pm && o.item !in acc.missingProducts {
      acc := acc.(missingProducts := acc.missingProducts + [o.item]);
    }
    if o.branch !in bm && o.branch !in acc.missingBranches {
      acc := acc.(missingBranches := acc.missingBranches + [o.branch]);
    }
    assert acc == Note(acc0, o.branch, o.item, pm, bm);
    acc := FileRow(acc, row, o, Key(o.date, o.branch, o.item));
  }

  /** `processedData.get(key).billing += salesQty`, or `processedData.set`. */
  method FileRow(acc0: Acc, row: RowObj, o: Outcome, key: string) returns (acc: Acc)
    requires o.Normalised?
    ensures acc == File(acc0, SeedOf(row, o), key, o.qty)
  {
    acc := acc0;
    if key in acc.recs {
      acc := acc.(recs := acc.recs[key := AddBilling(acc.recs[key], o.qty)]);
    } else {
      var r := ExtractSeed(row, o);
      if r.None? {
        acc := acc.(invalid := acc.invalid + 1);
        return;
      }
      acc := acc.(order := acc.order + [key], recs := acc.recs[key := r.value]);
    }
    acc := acc.(valid := acc.valid + 1);
  }

  /** The extra columns of a row whose key is new (routes/upload.js:307-332). */
  method ExtractSeed(row: RowObj, o: Outcome) returns (r: Option<Rec>)
    requires o.Normalised?
    ensures r == SeedOf(row, o)
  {
    r := NewRecord(row, o.date, o.branch, o.item, o.qty);
  }

  // ---------------------------------------------------------------------
  // Per-row views used by the lemmas
  // ---------------------------------------------------------------------

  /** The key a row is accumulated under; None for a row rejected before
      its key is formed. */
  function RowKey(v: RowView): Option<string> {
    match v.o
    case Threw => None
    case Normalised(_, date, b, it, _) => if b == "" || it == "" then None else Some(Key(date, b, it))
  }

  /** The quantity a row adds to the record of key `k`. */
  function KeyQty(v: RowView, k: string): real {
    if RowKey(v) == Some(k) then RowQty(v) else 0.0
  }

  /** The quantity a row adds to its key's record. */
  function RowQty(v: RowView): real {
    match v.o
    case Threw => 0.0
    case Normalised(_, _, _, _, q) => q
  }

  /** The row has key `k` and its extra fields can be read. */
  predicate Seeding(v: RowView, k: string) {
    RowKey(v) == Some(k) && v.seed.Some?
  }

  /** The first row that seeds key `k`. */
  function FirstSeed(vs: seq<RowView>, k: string): (f: Option<nat>)
    ensures f.Some? ==> f.value < |vs| && Seeding(vs[f.value], k)
    decreases |vs|
  {
    if |vs| == 0 then None
    else
      var prev := FirstSeed(vs[..|vs| - 1], k);
      if prev.Some? then
        assert vs[..|vs| - 1][prev.value] == vs[prev.value];
        prev
      else if Seeding(vs[|vs| - 1], k) then Some(|vs| - 1)
      else None
  }

  /** Total quantity of the rows with key `k` from index `lo` on. */
  function QtySum(vs: seq<RowView>, k: string, lo: nat): real
    requires lo <= |vs|
    decreases |vs|
  {
    if |vs| == lo then 0.0
    else
      var last := vs[|vs| - 1];
      QtySum(vs[..|vs| - 1], k, lo) + KeyQty(last, k)
  }

  /** The item code a row reports missing-or-present, when branch and item are set. */
  function AdmittedItem(v: RowView): Option<string> {
    match v.o
    case Threw => None
    case Normalised(_, _, b, it, _) => if b == "" || it == "" then None else Some(it)
  }

  function AdmittedBranch(v: RowView): Option<string> {
    match v.o
    case Threw => None
    case Normalised(_, _, b, it, _) => if b == "" || it == "" then None else Some(b)
  }

  /** One record per key, in `order` without repeats, each filed under the
      key formed from its own date, branch and item, which are non-empty. */
  ghost predicate InvRecs(acc: Acc) {
    && Distinct(acc.order)
    && (forall k :: k in acc.recs <==> k in acc.order)
    && (forall k | k in acc.recs ::
         acc.recs[k].branchName != "" && acc.recs[k].itemCode != ""
         && Key(acc.recs[k].recordDate, acc.recs[k].branchName, acc.recs[k].itemCode) == k)
  }

  /** Duplicate-free missing sets holding only names absent from the maps. */
  ghost predicate InvMissing(acc: Acc, pm: map<string, nat>, bm: map<string, nat>) {
    && Distinct(acc.missingProducts) && (forall x | x in acc.missingProducts :: x !in pm)
    && Distinct(acc.missingBranches) && (forall x | x in acc.missingBranches :: x !in bm)
  }

  /** The state invariant of the loop. */
  ghost predicate Inv(acc: Acc, pm: map<string, nat>, bm: map<string, nat>) {
    InvRecs(acc) && InvMissing(acc, pm, bm)
    && (acc.range.Some? ==> acc.range.value.start <= acc.range.value.end)
  }

  /** A seed read from a row carries that row's date, branch and item. */
  predicate SeedFits(v: RowView) {
    v.o.Normalised? && v.seed.Some? ==>
      v.seed.value.recordDate == v.o.date
      && v.seed.value.branchName == v.o.branch && v.seed.value.itemCode == v.o.item
  }

  // ---------------------------------------------------------------------
  // Lemmas
  // ---------------------------------------------------------------------

  lemma ViewSeedFits(row: RowObj, env: Env)
    ensures SeedFits(View(row, env))
  {
    var o := NormaliseRow(row, env);
    if o.Normalised? && SeedOf(row, o).Some? {
      NewRecordSeed(row, o.date, o.branch, o.item, o.qty);
    }
  }

  lemma AddIfAbsentDistinct(s: seq<string>, x: string)
    requires Distinct(s)
    ensures Distinct(AddIfAbsent(s, x))
    ensures forall y :: y in AddIfAbsent(s, x) <==> y in s || y == x
  {
  }

  /** One row is rejected exactly when a `trim` throws, its branch or item is
      empty, or it would seed a new key and reading its extra fields throws.
      The quantity plays no part: it is never NaN, and 0 is accepted. Either
      way exactly one of the two counters goes up. */
  lemma StepCounts(acc: Acc, v: RowView, pm: map<string, nat>, bm: map<string, nat>)
    ensures var a := Apply(acc, v, pm, bm);
      && a.valid + a.invalid == acc.valid + acc.invalid + 1
      && (a.invalid == acc.invalid + 1 <==>
           (RowKey(v).None? || (RowKey(v).value !in acc.recs && v.seed.None?)))
  {
  }

  /** `validRecords + invalidRecords` is the number of rows. */
  lemma {:induction false} FoldCounts(vs: seq<RowView>, pm: map<string, nat>, bm: map<string, nat>)
    ensures Fold(vs, pm, bm).valid + Fold(vs, pm, bm).invalid == |vs|
    decreases |vs|
  {
    if |vs| > 0 {
      FoldCounts(vs[..|vs| - 1], pm, bm);
      StepCounts(Fold(vs[..|vs| - 1], pm, bm), vs[|vs| - 1], pm, bm);
    }
  }

  lemma StepInv(acc: Acc, v: RowView, pm: map<string, nat>, bm: map<string, nat>)
    requires Inv(acc, pm, bm) && SeedFits(v)
    ensures Inv(Apply(acc, v, pm, bm), pm, bm)
  {
    StepInvRecs(acc, v, pm, bm);
    StepInvMissing(acc, v, pm, bm);
    StepRange(acc, v, pm, bm);
  }

  /** Every row whose branch and item could be read widens the range. */
  lemma StepRange(acc: Acc, v: RowView, pm: map<string, nat>, bm: map<string, nat>)
    ensures Apply(acc, v, pm, bm).range == if v.o.Threw? then acc.range else Some(Widen(acc.range, v.o.day))
  {
  }

  lemma StepInvRecs(acc: Acc, v: RowView, pm: map<string, nat>, bm: map<string, nat>)
    requires InvRecs(acc) && SeedFits(v)
    ensures InvRecs(Apply(acc, v, pm, bm))
  {
    var a := Apply(acc, v, pm, bm);
    if RowKey(v).Some? {
      var key := RowKey(v).value;
      if key !in acc.recs && v.seed.Some? {
        assert a.order == acc.order + [key];
        assert key !in acc.order;
        assert a.recs == acc.recs[key := v.seed.value];
      } else {
        assert a.order == acc.order;
      }
    } else {
      assert a.order == acc.order && a.recs == acc.recs;
    }
  }

  lemma StepInvMissing(acc: Acc, v: RowView, pm: map<string, nat>, bm: map<string, nat>)
    requires InvMissing(acc, pm, bm)
    ensures InvMissing(Apply(acc, v, pm, bm), pm, bm)
  {
    if AdmittedItem(v).Some? {
      AddIfAbsentDistinct(acc.missingProducts, v.o.item);
      AddIfAbsentDistinct(acc.missingBranches, v.o.branch);
    }
  }

  /** The loop invariant holds after every prefix of the rows. */
  lemma {:induction false} FoldInv(vs: seq<RowView>, pm: map<string, nat>, bm: map<string, nat>)
    requires forall j | 0 <= j < |vs| :: SeedFits(vs[j])
    ensures Inv(Fold(vs, pm, bm), pm, bm)
    decreases |vs|
  {
    if |vs| > 0 {
      FoldInv(vs[..|vs| - 1], pm, bm);
      StepInv(Fold(vs[..|vs| - 1], pm, bm), vs[|vs| - 1], pm, bm);
    }
  }

  /** For the rows of a sheet: the invariant holds after the loop. */
  lemma AccumulateInv(rows: seq<RowObj>, env: Env, pm: map<string, nat>, bm: map<string, nat>)
    ensures Inv(Fold(Views(rows, env), pm, bm), pm, bm)
  {
    ViewsAll(rows, env);
    SeedsFit(Views(rows, env), rows, env);
    FoldInv(Views(rows, env), pm, bm);
  }

  lemma SeedsFit(vs: seq<RowView>, rows: seq<RowObj>, env: Env)
    requires |vs| == |rows| && forall k | 0 <= k < |rows| :: ViewAt(vs, rows, env, k)
    ensures forall j | 0 <= j < |vs| :: SeedFits(vs[j])
  {
    forall j | 0 <= j < |vs| ensures SeedFits(vs[j]) {
      assert ViewAt(vs, rows, env, j);
      ViewSeedFits(rows[j], env);
    }
  }

  /** How one row changes the record of key `k`. */
  lemma StepRecs(acc: Acc, v: RowView, pm: map<string, nat>, bm: map<string, nat>, k: string)
    ensures var a := Apply(acc, v, pm, bm);
      && (RowKey(v) != Some(k) ==>
           (k in a.recs <==> k in acc.recs) && (k in acc.recs ==> a.recs[k] == acc.recs[k]))
      && (RowKey(v) == Some(k) && k in acc.recs ==>
           k in a.recs && a.recs[k] == AddBilling(acc.recs[k], RowQty(v)))
      && (RowKey(v) == Some(k) && k !in acc.recs ==>
           (k in a.recs <==> v.seed.Some?) && (k in a.recs ==> a.recs[k] == v.seed.value))
  {
  }

  /** FirstSeed is the first row, by index, that seeds the key. */
  lemma {:induction false} FirstSeedMeaning(vs: seq<RowView>, k: string)
    ensures FirstSeed(vs, k).None? <==> forall j | 0 <= j < |vs| :: !Seeding(vs[j], k)
    ensures FirstSeed(vs, k).Some? ==>
      var f := FirstSeed(vs, k).value;
      Seeding(vs[f], k) && forall j | 0 <= j < f :: !Seeding(vs[j], k)
    decreases |vs|
  {
    if |vs| > 0 {
      var prev := vs[..|vs| - 1];
      FirstSeedMeaning(prev, k);
      assert forall j | 0 <= j < |prev| :: prev[j] == vs[j];
    }
  }

  /** There is a record for a key exactly when some row seeds it. */
  lemma {:induction false} FoldHasKey(vs: seq<RowView>, pm: map<string, nat>, bm: map<string, nat>, k: string)
    ensures k in Fold(vs, pm, bm).recs <==> FirstSeed(vs, k).Some?
    decreases |vs|
  {
    if |vs| > 0 {
      var prev := vs[..|vs| - 1];
      FoldHasKey(prev, pm, bm, k);
      StepRecs(Fold(prev, pm, bm), vs[|vs| - 1], pm, bm, k);
    }
  }

  /** In `acc`, the record of key `k` is the first seed among the rows `vs`
      with every later quantity of that key added to its billing. */
  ghost predicate BilledIn(acc: Acc, vs: seq<RowView>, k: string)
    requires FirstSeed(vs, k).Some?
  {
    var f := FirstSeed(vs, k).value;
    k in acc.recs && acc.recs[k] == AddBilling(vs[f].seed.value, QtySum(vs, k, f + 1))
  }

  /** The record of a key is taken from the first row that seeds it, and its
      billing is that row's `SKU Opening stock || salesQty` plus the quantity
      of every later row with the same key. */
  lemma {:induction false} FoldBilling(vs: seq<RowView>, pm: map<string, nat>, bm: map<string, nat>, k: string)
    requires FirstSeed(vs, k).Some?
    ensures BilledIn(Fold(vs, pm, bm), vs, k)
    decreases |vs|
  {
    var prev := vs[..|vs| - 1];
    if FirstSeed(prev, k).Some? {
      FoldBilling(prev, pm, bm, k);
      BilledStep(vs, pm, bm, k);
    } else {
      BilledFirst(vs, pm, bm, k);
    }
  }

  /** A row after the first seed keeps the record billed. */
  lemma BilledStep(vs: seq<RowView>, pm: map<string, nat>, bm: map<string, nat>, k: string)
    requires |vs| > 0 && FirstSeed(vs[..|vs| - 1], k).Some?
    requires BilledIn(Fold(vs[..|vs| - 1], pm, bm), vs[..|vs| - 1], k)
    ensures FirstSeed(vs, k).Some? && BilledIn(Fold(vs, pm, bm), vs, k)
  {
    var prev := vs[..|vs| - 1];
    var f, seed, before := BilledParts(Fold(prev, pm, bm), prev, k);
    FirstSeedSnoc(vs, k);
    FoldRecAfter(vs, pm, bm, k, seed, before);
    BilledLater(vs, Fold(vs, pm, bm), k, f, seed, before);
  }

  /** What BilledIn says, named. */
  lemma BilledParts(acc: Acc, vs: seq<RowView>, k: string) returns (f: nat, seed: Rec, before: real)
    requires FirstSeed(vs, k).Some? && BilledIn(acc, vs, k)
    ensures FirstSeed(vs, k) == Some(f) && f < |vs| && vs[f].seed == Some(seed)
    ensures before == QtySum(vs, k, f + 1)
    ensures k in acc.recs && acc.recs[k] == AddBilling(seed, before)
  {
    f := FirstSeed(vs, k).value;
    seed := vs[f].seed.value;
    before := QtySum(vs, k, f + 1);
  }

  /** A row after the first seed adds its quantity when it has the key. */
  lemma BilledLater(vs: seq<RowView>, a: Acc, k: string, f: nat, seed: Rec, before: real)
    requires |vs| > 0 && FirstSeed(vs, k) == Some(f) && f < |vs| - 1
    requires vs[f].seed == Some(seed) && before == QtySum(vs[..|vs| - 1], k, f + 1)
    requires k in a.recs && a.recs[k] == AddBilling(seed, before + KeyQty(vs[|vs| - 1], k))
    ensures BilledIn(a, vs, k)
  {
    QtySumSnoc(vs, k, f + 1);
  }

  /** The first seed among the rows stays the first when a row is added. */
  lemma FirstSeedSnoc(vs: seq<RowView>, k: string)
    requires |vs| > 0 && FirstSeed(vs[..|vs| - 1], k).Some?
    ensures FirstSeed(vs, k) == FirstSeed(vs[..|vs| - 1], k)
    ensures vs[..|vs| - 1][FirstSeed(vs, k).value] == vs[FirstSeed(vs, k).value]
  {
  }

  /** The record of `k` after one more row. */
  lemma FoldRecAfter(vs: seq<RowView>, pm: map<string, nat>, bm: map<string, nat>, k: string, seed: Rec, before: real)
    requires |vs| > 0
    requires k in Fold(vs[..|vs| - 1], pm, bm).recs && Fold(vs[..|vs| - 1], pm, bm).recs[k] == AddBilling(seed, before)
    ensures k in Fold(vs, pm, bm).recs
    ensures Fold(vs, pm, bm).recs[k] == AddBilling(seed, before + KeyQty(vs[|vs| - 1], k))
  {
    FoldSnoc1(vs, pm, bm);
    BillingStep(Fold(vs[..|vs| - 1], pm, bm), vs[|vs| - 1], pm, bm, k, seed, before);
  }

  lemma QtySumSnoc(vs: seq<RowView>, k: string, lo: nat)
    requires lo < |vs|
    ensures QtySum(vs, k, lo) == QtySum(vs[..|vs| - 1], k, lo) + KeyQty(vs[|vs| - 1], k)
  {
  }

  lemma FoldSnoc1(vs: seq<RowView>, pm: map<string, nat>, bm: map<string, nat>)
    requires |vs| > 0
    ensures Fold(vs, pm, bm) == Apply(Fold(vs[..|vs| - 1], pm, bm), vs[|vs| - 1], pm, bm)
  {
  }

  /** The first seed of a key files its record. */
  lemma BilledFirst(vs: seq<RowView>, pm: map<string, nat>, bm: map<string, nat>, k: string)
    requires FirstSeed(vs, k).Some? && |vs| > 0 && FirstSeed(vs[..|vs| - 1], k).None?
    ensures BilledIn(Fold(vs, pm, bm), vs, k)
  {
    var n := |vs|;
    var prev := vs[..n - 1];
    FoldHasKey(prev, pm, bm, k);
    StepRecs(Fold(prev, pm, bm), vs[n - 1], pm, bm, k);
    assert FirstSeed(vs, k) == Some(n - 1);
    assert QtySum(vs, k, n) == 0.0;
  }

  /** A row adds its quantity to the billing of its key's record. */
  lemma BillingStep(acc: Acc, v: RowView, pm: map<string, nat>, bm: map<string, nat>, k: string,
                    seed: Rec, before: real)
    requires k in acc.recs && acc.recs[k] == AddBilling(seed, before)
    ensures k in Apply(acc, v, pm, bm).recs
    ensures Apply(acc, v, pm, bm).recs[k]
      == AddBilling(seed, before + KeyQty(v, k))
  {
    StepRecs(acc, v, pm, bm, k);
    if RowKey(v) == Some(k) {
      AddBillingTwice(seed, before, RowQty(v));
    }
  }

  lemma AddBillingTwice(r: Rec, a: real, b: real)
    ensures AddBilling(AddBilling(r, a), b) == AddBilling(r, a + b)
  {
  }

  /** The date range of a sequence of rows, widened by every row whose
      branch and item could be read. */
  function RangeOf(vs: seq<RowView>): Option<DateRange>
    decreases |vs|
  {
    if |vs| == 0 then None
    else
      var last := vs[|vs| - 1];
      var r := RangeOf(vs[..|vs| - 1]);
      if last.o.Threw? then r else Some(Widen(r, last.o.day))
  }

  /** The loop's range is RangeOf the rows. */
  lemma {:induction false} FoldRangeOf(vs: seq<RowView>, pm: map<string, nat>, bm: map<string, nat>)
    ensures Fold(vs, pm, bm).range == RangeOf(vs)
    decreases |vs|
  {
    if |vs| > 0 {
      FoldRangeOf(vs[..|vs| - 1], pm, bm);
      StepRange(Fold(vs[..|vs| - 1], pm, bm), vs[|vs| - 1], pm, bm);
    }
  }

  /** The date range spans exactly the days of the rows whose branch and
      item could be read, valid or not: it is empty only when every row
      threw, and otherwise its ends are the least and the greatest such day. */
  lemma FoldRange(vs: seq<RowView>, pm: map<string, nat>, bm: map<string, nat>)
    ensures Fold(vs, pm, bm).range.None? <==> forall j | 0 <= j < |vs| :: vs[j].o.Threw?
    ensures Fold(vs, pm, bm).range.Some? ==>
      var r := Fold(vs, pm, bm).range.value;
      && (forall j | 0 <= j < |vs| && vs[j].o.Normalised? :: r.start <= vs[j].o.day <= r.end)
      && (exists j :: 0 <= j < |vs| && vs[j].o.Normalised? && vs[j].o.day == r.start)
      && (exists j :: 0 <= j < |vs| && vs[j].o.Normalised? && vs[j].o.day == r.end)
  {
    FoldRangeOf(vs, pm, bm);
    RangeSpan(vs);
  }

  lemma {:induction false} RangeSpan(vs: seq<RowView>)
    ensures RangeOf(vs).None? <==> forall j | 0 <= j < |vs| :: vs[j].o.Threw?
    ensures RangeOf(vs).Some? ==>
      var r := RangeOf(vs).value;
      && (forall j | 0 <= j < |vs| && vs[j].o.Normalised? :: r.start <= vs[j].o.day <= r.end)
      && (exists j :: 0 <= j < |vs| && vs[j].o.Normalised? && vs[j].o.day == r.start)
      && (exists j :: 0 <= j < |vs| && vs[j].o.Normalised? && vs[j].o.day == r.end)
    decreases |vs|
  {
    if |vs| > 0 {
      var n := |vs|;
      var prev := vs[..n - 1];
      RangeSpan(prev);
      assert forall j | 0 <= j < |prev| :: prev[j] == vs[j];
      var pr := RangeOf(prev);
      if pr.Some? {
        var r := pr.value;
        var js :| 0 <= js < |prev| && prev[js].o.Normalised? && prev[js].o.day == r.start;
        var je :| 0 <= je < |prev| && prev[je].o.Normalised? && prev[je].o.day == r.end;
        assert vs[js].o.day == r.start;
        assert vs[je].o.day == r.end;
      }
    }
  }

  /** How one row changes the missing sets. */
  lemma StepMissing(acc: Acc, v: RowView, pm: map<string, nat>, bm: map<string, nat>)
    ensures forall x :: x in Apply(acc, v, pm, bm).missingProducts <==>
      x in acc.missingProducts || (x !in pm && AdmittedItem(v) == Some(x))
    ensures forall x :: x in Apply(acc, v, pm, bm).missingBranches <==>
      x in acc.missingBranches || (x !in bm && AdmittedBranch(v) == Some(x))
  {
    match v.o
    case Threw =>
    case Normalised(day, date, b, it, q) =>
      if b != "" && it != "" {
        var w := acc.(range := Some(Widen(acc.range, day)));
        var noted := Note(w, b, it, pm, bm);
        FileKeepsMissing(noted, v.seed, Key(date, b, it), q);
        assert Apply(acc, v, pm, bm) == File(noted, v.seed, Key(date, b, it), q);
      }
  }

  /** Filing a record leaves the missing sets and the range alone. */
  lemma FileKeepsMissing(acc: Acc, seed: Option<Rec>, key: string, q: real)
    ensures File(acc, seed, key, q).missingProducts == acc.missingProducts
    ensures File(acc, seed, key, q).missingBranches == acc.missingBranches
    ensures File(acc, seed, key, q).range == acc.range
  {
  }

  /** Some row admits item code `x`. */
  predicate ItemAdmitted(vs: seq<RowView>, x: string) {
    exists j :: 0 <= j < |vs| && AdmittedItem(vs[j]) == Some(x)
  }

  /** Some row admits branch name `x`. */
  predicate BranchAdmitted(vs: seq<RowView>, x: string) {
    exists j :: 0 <= j < |vs| && AdmittedBranch(vs[j]) == Some(x)
  }

  lemma AdmittedSnoc(vs: seq<RowView>, x: string)
    requires |vs| > 0
    ensures ItemAdmitted(vs, x) <==> ItemAdmitted(vs[..|vs| - 1], x) || AdmittedItem(vs[|vs| - 1]) == Some(x)
    ensures BranchAdmitted(vs, x) <==> BranchAdmitted(vs[..|vs| - 1], x) || AdmittedBranch(vs[|vs| - 1]) == Some(x)
  {
    var prev := vs[..|vs| - 1];
    if ItemAdmitted(prev, x) {
      var j :| 0 <= j < |prev| && AdmittedItem(prev[j]) == Some(x);
      assert vs[j] == prev[j];
    }
    if BranchAdmitted(prev, x) {
      var j :| 0 <= j < |prev| && AdmittedBranch(prev[j]) == Some(x);
      assert vs[j] == prev[j];
    }
    if ItemAdmitted(vs, x) {
      var j :| 0 <= j < |vs| && AdmittedItem(vs[j]) == Some(x);
      if j < |prev| {
        assert vs[j] == prev[j];
      }
    }
    if BranchAdmitted(vs, x) {
      var j :| 0 <= j < |vs| && AdmittedBranch(vs[j]) == Some(x);
      if j < |prev| {
        assert vs[j] == prev[j];
      }
    }
  }

  /** The missing sets hold exactly the admitted item codes (branch names)
      that the loaded product (branch) map lacks. */
  lemma {:induction false} FoldMissing(vs: seq<RowView>, pm: map<string, nat>, bm: map<string, nat>)
    ensures forall x :: x in Fold(vs, pm, bm).missingProducts <==> x !in pm && ItemAdmitted(vs, x)
    ensures forall x :: x in Fold(vs, pm, bm).missingBranches <==> x !in bm && BranchAdmitted(vs, x)
    decreases |vs|
  {
    if |vs| > 0 {
      var prev := vs[..|vs| - 1];
      FoldMissing(prev, pm, bm);
      StepMissing(Fold(prev, pm, bm), vs[|vs| - 1], pm, bm);
      forall x {
        AdmittedSnoc(vs, x);
      }
    }
  }

  // ---------------------------------------------------------------------
  // Upper-cased names, and every record's names either loaded or missing
  // ---------------------------------------------------------------------

  /** The branch and item a row yields are already upper-cased. */
  predicate UpcasedView(v: RowView) {
    v.o.Normalised? ==> Upper(v.o.branch) == v.o.branch && Upper(v.o.item) == v.o.item
  }

  lemma ViewUpcased(row: RowObj, env: Env)
    ensures UpcasedView(View(row, env))
  {
    AssembleUpcased(RecordDay(row, env), BranchCell(row), ItemCell(row), SalesQty(row));
  }

  lemma AssembleUpcased(day: Day, branch: Cell, item: Cell, qty: real)
    ensures var o := Assemble(day, branch, item, qty);
      o.Normalised? ==> Upper(o.branch) == o.branch && Upper(o.item) == o.item
  {
    match (TrimText(branch), TrimText(item))
    case (Some(b), Some(i)) =>
      UpperIdempotent(b);
      UpperIdempotent(i);
    case _ =>
  }

  /** Every name in the missing sets and in the records is upper-cased, and
      each record's item code (branch name) is either in the loaded map or
      in the missing set, so that it has an id once those are created. */
  ghost predicate InvCover(acc: Acc, pm: map<string, nat>, bm: map<string, nat>) {
    && (forall x | x in acc.missingProducts :: Upper(x) == x)
    && (forall x | x in acc.missingBranches :: Upper(x) == x)
    && (forall k | k in acc.recs ::
         && Upper(acc.recs[k].itemCode) == acc.recs[k].itemCode
         && Upper(acc.recs[k].branchName) == acc.recs[k].branchName
         && (acc.recs[k].itemCode in pm || acc.recs[k].itemCode in acc.missingProducts)
         && (acc.recs[k].branchName in bm || acc.recs[k].branchName in acc.missingBranches))
  }

  lemma StepCover(acc: Acc, v: RowView, pm: map<string, nat>, bm: map<string, nat>)
    requires InvCover(acc, pm, bm) && SeedFits(v) && UpcasedView(v)
    ensures InvCover(Apply(acc, v, pm, bm), pm, bm)
  {
    var a := Apply(acc, v, pm, bm);
    StepMissing(acc, v, pm, bm);
    forall k | k in a.recs
      ensures && Upper(a.recs[k].itemCode) == a.recs[k].itemCode
              && Upper(a.recs[k].branchName) == a.recs[k].branchName
              && (a.recs[k].itemCode in pm || a.recs[k].itemCode in a.missingProducts)
              && (a.recs[k].branchName in bm || a.recs[k].branchName in a.missingBranches)
    {
      StepRecs(acc, v, pm, bm, k);
    }
  }

  lemma {:induction false} FoldCover(vs: seq<RowView>, pm: map<string, nat>, bm: map<string, nat>)
    requires forall j | 0 <= j < |vs| :: SeedFits(vs[j]) && UpcasedView(vs[j])
    ensures InvCover(Fold(vs, pm, bm), pm, bm)
    decreases |vs|
  {
    if |vs| > 0 {
      FoldCover(vs[..|vs| - 1], pm, bm);
      StepCover(Fold(vs[..|vs| - 1], pm, bm), vs[|vs| - 1], pm, bm);
    }
  }

  /** For the rows of a sheet: after the loop every name is upper-cased and
      every record's names are loaded or missing. */
  lemma AccumulateCover(rows: seq<RowObj>, env: Env, pm: map<string, nat>, bm: map<string, nat>)
    ensures InvCover(Fold(Views(rows, env), pm, bm), pm, bm)
  {
    var vs := Views(rows, env);
    ViewsAll(rows, env);
    SeedsFit(vs, rows, env);
    forall j | 0 <= j < |vs| ensures UpcasedView(vs[j]) {
      assert ViewAt(vs, rows, env, j);
      ViewUpcased(rows[j], env);
    }
    FoldCover(vs, pm, bm);
  }
}
