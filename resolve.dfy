/**
  Creating the branches and products the upload names but the database
  lacks (routes/upload.js:348-421): one multi-row insert for all missing
  branches, product inserts in slices of BATCH_SIZE, both with
  `ON CONFLICT ... DO NOTHING`, then a re-read that adds the new ids to the
  lookup maps.
*/
module Resolve {
  import opened Js
  import opened Sheet
  import opened Normalise
  import opened Accumulation
  import opened Store

  const BRANCH_STATE: string := "Unknown"
  const BRANCH_MARKET_SHARE: int := 15
  const BRANCH_PENETRATION: int := 70
  const PRODUCT_PRICE: int := 35000
  const PRODUCT_FACTORY_STOCK: int := 0
  const DEFAULT_TONNAGE: real := 1.0
  const DEFAULT_STAR: int := 3
  const DEFAULT_TECHNOLOGY: string := "Non Inv"

  // ---------------------------------------------------------------------
  // Branches
  // ---------------------------------------------------------------------

  /** `branchParams.push(name, 'Unknown', 15, 70)` */
  function BranchValues(name: string): seq<Param> {
    [PText(name), PText(BRANCH_STATE), PInt(BRANCH_MARKET_SHARE), PInt(BRANCH_PENETRATION)]
  }

  function BranchTuples(names: seq<string>): (r: seq<seq<Param>>)
    ensures |r| == |names| && Width(r, 4)
  {
    seq(|names|, i requires 0 <= i < |names| => BranchValues(names[i]))
  }

  /** The branch a missing name becomes. */
  function NewBranch(name: string): Branch {
    Branch(name, BRANCH_STATE, BRANCH_MARKET_SHARE, BRANCH_PENETRATION)
  }

  function NewBranches(names: seq<string>): (r: seq<Branch>)
    ensures |r| == |names|
  {
    seq(|names|, i requires 0 <= i < |names| => NewBranch(names[i]))
  }

  /** The `forEach` that fills the branch parameter array. */
  method BranchParams(names: seq<string>) returns (params: seq<Param>)
    ensures params == Flatten(BranchTuples(names))
  {
    params := [];
    var i := 0;
    while i < |names|
      invariant 0 <= i <= |names|
      invariant params == Flatten(BranchTuples(names[..i]))
    {
      FlattenSnoc(BranchTuples(names[..i]), BranchValues(names[i]));
      assert BranchTuples(names[..i + 1]) == BranchTuples(names[..i]) + [BranchValues(names[i])];
      params := params + [PText(names[i]), PText(BRANCH_STATE), PInt(BRANCH_MARKET_SHARE), PInt(BRANCH_PENETRATION)];
      i := i + 1;
    }
    assert names[..i] == names;
  }

  lemma FlattenSnoc(rows: seq<seq<Param>>, r: seq<Param>)
    ensures Flatten(rows + [r]) == Flatten(rows) + r
  {
    assert (rows + [r])[..|rows|] == rows;
  }

  /** The branch step: nothing when no branch is missing, otherwise the
      insert and the refreshed map. */
  function BranchStep(db: Tables, bm: map<string, nat>, missing: seq<string>): Result<(Tables, map<string, nat>)> {
    if |missing| == 0 then Success((db, bm))
    else
      match InsertBranches(db, Stmt(Placeholders(|missing|, 4), Flatten(BranchTuples(missing))))
      case Failure(e) => Failure(e)
      case Success(db') => Success((db', Refresh(bm, BranchNames(db'.branches), missing)))
  }

  /** routes/upload.js:351-378 */
  method ResolveBranches(db: Tables, bm: map<string, nat>, missing: seq<string>)
    returns (r: Result<(Tables, map<string, nat>)>)
    ensures r == BranchStep(db, bm, missing)
  {
    if |missing| == 0 {
      return Success((db, bm));
    }
    var params := BranchParams(missing);
    var res := InsertBranches(db, Stmt(Placeholders(|missing|, 4), params));
    if res.Failure? {
      return Failure(res.error);
    }
    var db' := res.value;
    r := Success((db', Refresh(bm, BranchNames(db'.branches), missing)));
  }

  // ---------------------------------------------------------------------
  // Products
  // ---------------------------------------------------------------------

  /** Position in `order` of the first accumulated record whose code,
      upper-cased, is `code`: `Array.from(processedData.values()).find(...)`. */
  function FirstWithCode(order: seq<string>, recs: map<string, Rec>, code: string): (r: Option<nat>)
    ensures r.Some? ==> r.value < |order| && order[r.value] in recs && Upper(recs[order[r.value]].itemCode) == code
    ensures r.Some? ==> forall j | 0 <= j < r.value :: !(order[j] in recs && Upper(recs[order[j]].itemCode) == code)
    ensures r.None? ==> forall j | 0 <= j < |order| :: !(order[j] in recs && Upper(recs[order[j]].itemCode) == code)
    decreases |order|
  {
    if |order| == 0 then None
    else if order[0] in recs && Upper(recs[order[0]].itemCode) == code then Some(0)
    else match FirstWithCode(order[1..], recs, code)
      case None => None
      case Some(i) => Some(i + 1)
  }

  /** The record a product is seeded from, if any. */
  function SeedFor(acc: Acc, code: string): Option<Rec> {
    match FirstWithCode(acc.order, acc.recs, code)
    case None => None
    case Some(i) => Some(acc.recs[acc.order[i]])
  }

  /** The product a missing code becomes: the seed's tonnage, star and
      technology where truthy (`productData?.tonnage || 1.0`, ...). */
  function NewProduct(code: string, seed: Option<Rec>): Product {
    match seed
    case None => Product(code, DEFAULT_TONNAGE, DEFAULT_STAR, Str(DEFAULT_TECHNOLOGY), PRODUCT_PRICE, PRODUCT_FACTORY_STOCK)
    case Some(r) =>
      Product(code, if r.tonnage != 0.0 then r.tonnage else DEFAULT_TONNAGE,
              if r.star != 0 then r.star else DEFAULT_STAR,
              Or(r.technology, Str(DEFAULT_TECHNOLOGY)), PRODUCT_PRICE, PRODUCT_FACTORY_STOCK)
  }

  /** The six parameters pushed for a code. */
  function ProductValues(p: Product): seq<Param> {
    [PText(p.material), PReal(p.tonnage), PInt(p.star), PCell(p.technology), PInt(p.price), PInt(p.factoryStock)]
  }

  function NewProducts(codes: seq<string>, acc: Acc): (r: seq<Product>)
    ensures |r| == |codes|
  {
    seq(|codes|, i requires 0 <= i < |codes| => NewProduct(codes[i], SeedFor(acc, codes[i])))
  }

  function ProductTuples(codes: seq<string>, acc: Acc): (r: seq<seq<Param>>)
    ensures |r| == |codes| && Width(r, 6)
  {
    seq(|codes|, i requires 0 <= i < |codes| => ProductValues(NewProducts(codes, acc)[i]))
  }

  /** The `batch.forEach` that fills one batch's parameter array. */
  method ProductParams(batch: seq<string>, acc: Acc) returns (params: seq<Param>)
    ensures params == Flatten(ProductTuples(batch, acc))
  {
    params := [];
    var i := 0;
    while i < |batch|
      invariant 0 <= i <= |batch|
      invariant params == Flatten(ProductTuples(batch[..i], acc))
    {
      var seed := SeedFor(acc, batch[i]);
      var p := NewProduct(batch[i], seed);
      FlattenSnoc(ProductTuples(batch[..i], acc), ProductValues(p));
      assert ProductTuples(batch[..i + 1], acc) == ProductTuples(batch[..i], acc) + [ProductValues(p)];
      params := params + [PText(batch[i]), PReal(p.tonnage), PInt(p.star), PCell(p.technology),
                          PInt(PRODUCT_PRICE), PInt(PRODUCT_FACTORY_STOCK)];
      i := i + 1;
    }
    assert batch[..i] == batch;
  }

  /** One insert statement for a batch of codes. */
  function BatchStmt(batch: seq<string>, acc: Acc): Stmt {
    Stmt(Placeholders(|batch|, 6), Flatten(ProductTuples(batch, acc)))
  }

  /** The tables after inserting `codes` in slices of BATCH_SIZE, stopping at
      the first statement that fails. */
  function ProductBatches(db: Tables, codes: seq<string>, acc: Acc): Result<Tables>
    decreases |codes|
  {
    if |codes| == 0 then Success(db)
    else
      var n := Min(BATCH_SIZE, |codes|);
      match InsertProducts(db, BatchStmt(codes[..n], acc))
      case Failure(e) => Failure(e)
      case Success(d) => ProductBatches(d, codes[n..], acc)
  }

  function ProductStep(db: Tables, pm: map<string, nat>, acc: Acc): Result<(Tables, map<string, nat>)> {
    var missing := acc.missingProducts;
    if |missing| == 0 then Success((db, pm))
    else
      match ProductBatches(db, missing, acc)
      case Failure(e) => Failure(e)
      case Success(db') => Success((db', Refresh(pm, Materials(db'.products), missing)))
  }

  /** routes/upload.js:380-421 */
  method ResolveProducts(db: Tables, pm: map<string, nat>, acc: Acc)
    returns (r: Result<(Tables, map<string, nat>)>)
    ensures r == ProductStep(db, pm, acc)
  {
    var missing := acc.missingProducts;
    if |missing| == 0 {
      return Success((db, pm));
    }
    var cur := db;
    var i := 0;
    while i < |missing|
      invariant ProductBatches(db, missing, acc) == ProductBatches(cur, missing[Min(i, |missing|)..], acc)
      decreases |missing| - i
    {
      var batch := missing[i..Min(i + BATCH_SIZE, |missing|)];
      var params := ProductParams(batch, acc);
      var res := InsertProducts(cur, Stmt(Placeholders(|batch|, 6), params));
      NextBatch(cur, missing, i, acc);
      if res.Failure? {
        return Failure(res.error);
      }
      cur := res.value;
      i := i + BATCH_SIZE;
    }
    r := Success((cur, Refresh(pm, Materials(cur.products), missing)));
  }

  /** One turn of the batch loop. */
  lemma NextBatch(db: Tables, codes: seq<string>, i: nat, acc: Acc)
    requires i < |codes|
    ensures var batch := codes[i..Min(i + BATCH_SIZE, |codes|)];
      ProductBatches(db, codes[i..], acc) ==
        match InsertProducts(db, BatchStmt(batch, acc))
        case Failure(e) => Failure(e)
        case Success(d) => ProductBatches(d, codes[Min(i + BATCH_SIZE, |codes|)..], acc)
  {
    var rest := codes[i..];
    var n := Min(BATCH_SIZE, |rest|);
    assert rest[..n] == codes[i..Min(i + BATCH_SIZE, |codes|)];
    assert rest[n..] == codes[Min(i + BATCH_SIZE, |codes|)..];
  }

  // ---------------------------------------------------------------------
  // What the resolver guarantees
  // ---------------------------------------------------------------------

  /** Names as the normaliser produces them: upper-cased, so that looking
      them up with `toUpperCase` finds them. */
  predicate Upcased(names: seq<string>) {
    forall i | 0 <= i < |names| :: Upper(names[i]) == names[i]
  }

  /** Every row of the table is in the map under its upper-cased name. */
  predicate Covers(m: map<string, nat>, names: seq<string>) {
    forall i | 0 <= i < |names| :: Upper(names[i]) in m
  }

  /** What the resolver relies on about the missing names (the accumulator
      establishes it). */
  predicate Fresh(missing: seq<string>, m: map<string, nat>) {
    Distinct(missing) && Upcased(missing) && forall i | 0 <= i < |missing| :: missing[i] !in m
  }

  /** The map after resolution: each missing name at the id of its new row,
      every earlier entry unchanged, nothing else. */
  predicate Extends(m': map<string, nat>, m: map<string, nat>, missing: seq<string>, base: nat) {
    && (forall i | 0 <= i < |missing| :: missing[i] in m' && m'[missing[i]] == base + i + 1)
    && (forall u | u in m :: u in m' && m'[u] == m[u])
    && (forall u | u in m' :: u in m || u in missing)
  }

  /** No existing row already carries a missing name. */
  lemma NoExistingName(names: seq<string>, m: map<string, nat>, missing: seq<string>, k: nat, i: nat)
    requires Covers(m, names) && Fresh(missing, m) && k < |missing| && i < |names|
    ensures names[i] != missing[k]
  {
    assert Upper(names[i]) in m && missing[k] !in m && Upper(missing[k]) == missing[k];
  }

  /** The last row carrying a missing name is the one just appended for it. */
  lemma LastIsAppended(old_: seq<string>, missing: seq<string>, m: map<string, nat>, k: nat)
    requires Covers(m, old_) && Fresh(missing, m) && k < |missing|
    ensures LastNamed(old_ + missing, missing[k]) == Some(|old_| + k + 1)
  {
    var names := old_ + missing;
    var u := missing[k];
    assert Upper(names[|old_| + k]) == u;
    var r := LastNamed(names, u);
    forall i | |old_| + k < i < |names| ensures Upper(names[i]) != u {
      assert names[i] == missing[i - |old_|];
    }
  }

  /** Appending rows for the missing names and refreshing gives a map that
      extends the old one with the new ids. */
  lemma RefreshAppended(m: map<string, nat>, old_: seq<string>, missing: seq<string>)
    requires Covers(m, old_) && Fresh(missing, m)
    ensures Extends(Refresh(m, old_ + missing, missing), m, missing, |old_|)
  {
    var m' := Refresh(m, old_ + missing, missing);
    forall k | 0 <= k < |missing| ensures missing[k] in m' && m'[missing[k]] == |old_| + k + 1 {
      LastIsAppended(old_, missing, m, k);
      RefreshLast(m, old_ + missing, missing, missing[k]);
    }
    forall u | u in m ensures u in m' && m'[u] == m[u] {
      RefreshLast(m, old_ + missing, missing, u);
    }
    forall u | u in m' ensures u in m || u in missing {
      RefreshLast(m, old_ + missing, missing, u);
    }
  }

  lemma BranchNamesAppend(t: seq<Branch>, names: seq<string>)
    ensures BranchNames(t + NewBranches(names)) == BranchNames(t) + names
  {
  }

  lemma MaterialsAppend(t: seq<Product>, ps: seq<Product>, codes: seq<string>)
    requires |ps| == |codes| && forall i | 0 <= i < |ps| :: ps[i].material == codes[i]
    ensures Materials(t + ps) == Materials(t) + codes
  {
  }

  /** With missing names that are upper-cased, distinct and absent from a map
      covering the table, the branch insert appends one row per name in order,
      with the defaults `'Unknown', 15, 70`, and the refreshed map gives each
      name the id of its new row. */
  lemma BranchesResolved(db: Tables, bm: map<string, nat>, missing: seq<string>)
    requires Covers(bm, BranchNames(db.branches)) && Fresh(missing, bm)
    ensures BranchStep(db, bm, missing).Success?
    ensures var (db', bm') := BranchStep(db, bm, missing).value;
      && db' == db.(branches := db.branches + NewBranches(missing))
      && Extends(bm', bm, missing, |db.branches|)
  {
    if |missing| == 0 {
      assert db.(branches := db.branches + NewBranches(missing)) == db;
    } else {
      var rows := BranchTuples(missing);
      BindRows(rows, 4);
      forall k | 0 <= k < |missing| ensures !HasBranch(db.branches, NewBranches(missing)[k].name) {
        forall i | 0 <= i < |db.branches| ensures db.branches[i].name != missing[k] {
          assert BranchNames(db.branches)[i] == db.branches[i].name;
          NoExistingName(BranchNames(db.branches), bm, missing, k, i);
        }
      }
      InsertNewBranches(db.branches, rows, NewBranches(missing));
      BranchNamesAppend(db.branches, missing);
      RefreshAppended(bm, BranchNames(db.branches), missing);
    }
  }

  /** A bound product row is decoded back to the product it was built from. */
  lemma ProductRowValues(p: Product)
    ensures ProductRow(ProductValues(p)) == Some(p)
  {
  }

  /** None of the codes is the material of a row of `t`. */
  predicate Absent(t: seq<Product>, codes: seq<string>) {
    forall k | 0 <= k < |codes| :: !HasProduct(t, codes[k])
  }

  lemma FreshAbsent(t: seq<Product>, pm: map<string, nat>, codes: seq<string>)
    requires Covers(pm, Materials(t)) && Fresh(codes, pm)
    ensures Absent(t, codes)
  {
    forall k, i | 0 <= k < |codes| && 0 <= i < |t| ensures t[i].material != codes[k] {
      assert Materials(t)[i] == t[i].material;
      NoExistingName(Materials(t), pm, codes, k, i);
    }
  }

  /** After a batch is appended the remaining codes are still absent. */
  lemma AbsentAfter(t: seq<Product>, codes: seq<string>, acc: Acc, n: nat)
    requires Absent(t, codes) && Distinct(codes) && n <= |codes|
    ensures Absent(t + NewProducts(codes[..n], acc), codes[n..])
  {
    var t' := t + NewProducts(codes[..n], acc);
    forall k, i | 0 <= k < |codes| - n && 0 <= i < |t'| ensures t'[i].material != codes[n..][k] {
      if i >= |t| {
        assert t'[i].material == codes[i - |t|];
      }
    }
  }

  /** A bound product batch decodes back to the products it was built from. */
  lemma ProductRowsDecode(batch: seq<string>, acc: Acc)
    ensures forall k | 0 <= k < |batch| :: ProductRow(ProductTuples(batch, acc)[k]) == Some(NewProducts(batch, acc)[k])
  {
    forall k | 0 <= k < |batch| ensures ProductRow(ProductTuples(batch, acc)[k]) == Some(NewProducts(batch, acc)[k]) {
      ProductRowValues(NewProducts(batch, acc)[k]);
    }
  }

  /** Distinct codes give products with distinct materials. */
  lemma DistinctMaterials(batch: seq<string>, acc: Acc)
    requires Distinct(batch)
    ensures forall k, l | 0 <= k < l < |batch| :: NewProducts(batch, acc)[k].material != NewProducts(batch, acc)[l].material
  {
    var ps := NewProducts(batch, acc);
    forall k, l | 0 <= k < l < |batch| ensures ps[k].material != ps[l].material {
      assert ps[k].material == batch[k] && ps[l].material == batch[l];
    }
  }

  /** Absent codes give products that are absent from the table. */
  lemma AbsentProducts(t: seq<Product>, batch: seq<string>, acc: Acc)
    requires Absent(t, batch)
    ensures forall k | 0 <= k < |batch| :: !HasProduct(t, NewProducts(batch, acc)[k].material)
  {
    forall k | 0 <= k < |batch| ensures !HasProduct(t, NewProducts(batch, acc)[k].material) {
      assert NewProducts(batch, acc)[k].material == batch[k];
    }
  }

  /** Inserting one batch of absent, distinct codes appends their products. */
  lemma BatchAppends(d: Tables, batch: seq<string>, acc: Acc)
    requires Absent(d.products, batch) && Distinct(batch)
    ensures InsertProducts(d, BatchStmt(batch, acc)) == Success(d.(products := d.products + NewProducts(batch, acc)))
  {
    BindRows(ProductTuples(batch, acc), 6);
    ProductRowsDecode(batch, acc);
    DistinctMaterials(batch, acc);
    AbsentProducts(d.products, batch, acc);
    InsertNewProducts(d.products, ProductTuples(batch, acc), NewProducts(batch, acc));
  }

  lemma DistinctSlices(codes: seq<string>, n: nat)
    requires Distinct(codes) && n <= |codes|
    ensures Distinct(codes[..n]) && Distinct(codes[n..])
  {
    assert forall i, j | 0 <= i < j < n :: codes[..n][i] == codes[i] && codes[..n][j] == codes[j];
    assert forall i, j | 0 <= i < j < |codes| - n :: codes[n..][i] == codes[n + i] && codes[n..][j] == codes[n + j];
  }

  lemma AbsentPrefix(t: seq<Product>, codes: seq<string>, n: nat)
    requires Absent(t, codes) && n <= |codes|
    ensures Absent(t, codes[..n])
  {
    assert forall k | 0 <= k < n :: codes[..n][k] == codes[k];
  }

  /** The products of two slices are the products of the whole. */
  lemma NewProductsSplit(codes: seq<string>, n: nat, acc: Acc)
    requires n <= |codes|
    ensures NewProducts(codes[..n], acc) + NewProducts(codes[n..], acc) == NewProducts(codes, acc)
  {
    var a, b := NewProducts(codes[..n], acc), NewProducts(codes[n..], acc);
    forall i | 0 <= i < |codes| ensures (a + b)[i] == NewProducts(codes, acc)[i] {
      if i < n {
        assert codes[..n][i] == codes[i];
      } else {
        assert codes[n..][i - n] == codes[i];
      }
    }
  }

  /** The batches together append one product per code, in order. */
  lemma {:induction false} BatchesAppend(db: Tables, codes: seq<string>, acc: Acc)
    requires Absent(db.products, codes) && Distinct(codes)
    ensures ProductBatches(db, codes, acc) == Success(db.(products := db.products + NewProducts(codes, acc)))
    decreases |codes|
  {
    if |codes| == 0 {
      assert db.products + NewProducts(codes, acc) == db.products;
    } else {
      var n := Min(BATCH_SIZE, |codes|);
      var d := db.(products := db.products + NewProducts(codes[..n], acc));
      FirstBatch(db, codes, acc);
      BatchesAppend(d, codes[n..], acc);
      NewProductsSplit(codes, n, acc);
      assert d.products + NewProducts(codes[n..], acc) == db.products + NewProducts(codes, acc);
    }
  }

  /** The first batch appends its products and leaves the other codes
      absent and distinct. */
  lemma FirstBatch(db: Tables, codes: seq<string>, acc: Acc)
    requires |codes| > 0 && Absent(db.products, codes) && Distinct(codes)
    ensures var n := Min(BATCH_SIZE, |codes|);
      var d := db.(products := db.products + NewProducts(codes[..n], acc));
      && ProductBatches(db, codes, acc) == ProductBatches(d, codes[n..], acc)
      && Absent(d.products, codes[n..]) && Distinct(codes[n..])
  {
    var n := Min(BATCH_SIZE, |codes|);
    DistinctSlices(codes, n);
    AbsentPrefix(db.products, codes, n);
    BatchAppends(db, codes[..n], acc);
    AbsentAfter(db.products, codes, acc, n);
  }

  /** With missing codes that are upper-cased, distinct and absent from a map
      covering the table, the product batches append one row per code in
      order, seeded from the first record with that code, and the refreshed
      map gives each code the id of its new row. */
  lemma ProductsResolved(db: Tables, pm: map<string, nat>, acc: Acc)
    requires Covers(pm, Materials(db.products)) && Fresh(acc.missingProducts, pm)
    ensures ProductStep(db, pm, acc).Success?
    ensures var (db', pm') := ProductStep(db, pm, acc).value;
      && db' == db.(products := db.products + NewProducts(acc.missingProducts, acc))
      && Extends(pm', pm, acc.missingProducts, |db.products|)
  {
    var missing := acc.missingProducts;
    if |missing| == 0 {
      assert db.(products := db.products + NewProducts(missing, acc)) == db;
    } else {
      FreshAbsent(db.products, pm, missing);
      BatchesAppend(db, missing, acc);
      var ps := NewProducts(missing, acc);
      MaterialsAppend(db.products, ps, missing);
      RefreshAppended(pm, Materials(db.products), missing);
    }
  }
}
