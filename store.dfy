/**
  The database as the `processOptimizedDailyUpdate` stage sees it: the `products`,
  `branches` and `inventory` tables, multi-row statements with `$n`
  placeholders, and the effect of the three kinds of statement it issues
  (routes/upload.js:362-366, 405-409, 531-551). Row ids are SERIAL: the row
  at position `i` of a table has id `i + 1`.
*/
module Store {
  import opened Js
  import opened Dates

  /** A value bound to a placeholder. */
  datatype Param = PInt(i: int) | PReal(r: real) | PText(s: string) | PCell(c: Cell)

  /** A multi-row `VALUES` list: tuple `k` lists the parameter numbers (`$n`)
      it binds, in column order; `params` is the parameter array. */
  datatype Stmt = Stmt(tuples: seq<seq<nat>>, params: seq<Param>)

  datatype Branch = Branch(name: string, state: string, marketShare: int, penetration: int)

  datatype Product = Product(material: string, tonnage: real, star: int, technology: Cell,
                             price: int, factoryStock: int)

  /** A timestamp: a day and the second within it. */
  datatype Stamp = Stamp(day: Day, second: nat)

  datatype Inv = Inv(productId: nat, branchId: nat, opStock: int, avlStock: int, transit: int,
                     billing: int, monthPlan: int, demandPlan: int, skuOpeningStock: int,
                     goodsInTransit: int, finalBalanceProduce: int, mtdInvoicing: int,
                     category: string, updatedAt: Stamp)

  datatype Tables = Tables(products: seq<Product>, branches: seq<Branch>, inventory: seq<Inv>)

  const TWICE: string := "ON CONFLICT DO UPDATE command cannot affect row a second time"
  const BAD_PARAM: string := "could not determine data type of parameter"

  // ---------------------------------------------------------------------
  // Placeholders
  // ---------------------------------------------------------------------

  /** `n` tuples of `w` placeholders numbered from `$1`:
      tuple `k` is `($(w*k+1), ..., $(w*k+w))`. */
  function Placeholders(n: nat, w: nat): (t: seq<seq<nat>>)
    ensures |t| == n
    ensures forall k | 0 <= k < n :: |t[k]| == w
    ensures forall k, j | 0 <= k < n && 0 <= j < w :: t[k][j] == w * k + j + 1
  {
    seq(n, k requires 0 <= k < n => seq(w, j requires 0 <= j < w => w * k + j + 1))
  }

  /** Every placeholder names a supplied parameter. */
  predicate Bound(s: Stmt) {
    forall k, j | 0 <= k < |s.tuples| && 0 <= j < |s.tuples[k]| :: 1 <= s.tuples[k][j] <= |s.params|
  }

  /** The rows a statement stands for once its placeholders are bound. */
  function Bind(s: Stmt): Option<seq<seq<Param>>> {
    if !Bound(s) then None
    else Some(seq(|s.tuples|, k requires 0 <= k < |s.tuples| =>
           seq(|s.tuples[k]|, j requires 0 <= j < |s.tuples[k]| => s.params[s.tuples[k][j] - 1])))
  }

  /** The parameter array of a statement: the values of each tuple, in order. */
  function Flatten(rows: seq<seq<Param>>): seq<Param>
    decreases |rows|
  {
    if |rows| == 0 then [] else Flatten(rows[..|rows| - 1]) + rows[|rows| - 1]
  }

  predicate Width(rows: seq<seq<Param>>, w: nat) {
    forall k | 0 <= k < |rows| :: |rows[k]| == w
  }

  lemma {:induction false} FlattenLength(rows: seq<seq<Param>>, w: nat)
    requires Width(rows, w)
    ensures |Flatten(rows)| == w * |rows|
    decreases |rows|
  {
    if |rows| > 0 {
      var n := |rows| - 1;
      FlattenLength(rows[..n], w);
      assert w * |rows| == w * n + w;
    }
  }

  /** Parameter `w*k + j` (zero-based) is column `j` of tuple `k`. */
  lemma {:induction false} FlattenAt(rows: seq<seq<Param>>, w: nat, k: nat, j: nat)
    requires Width(rows, w) && k < |rows| && j < w
    ensures w * k + j < |Flatten(rows)| && Flatten(rows)[w * k + j] == rows[k][j]
    decreases |rows|
  {
    var n := |rows| - 1;
    FlattenLength(rows[..n], w);
    if k < n {
      FlattenAt(rows[..n], w, k, j);
    }
  }

  /** Placeholder `j` of tuple `k` names the parameter holding column `j`
      of row `k`. */
  lemma PlaceholderAt(rows: seq<seq<Param>>, w: nat, k: nat, j: nat)
    requires Width(rows, w) && k < |rows| && j < w
    ensures var n := Placeholders(|rows|, w)[k][j];
      1 <= n <= |Flatten(rows)| && Flatten(rows)[n - 1] == rows[k][j]
  {
    FlattenAt(rows, w, k, j);
  }

  /** The tuples `($1..$w), ($(w+1)..$(2w)), ...` over the flattened values
      bind back exactly the rows that were pushed. */
  lemma BindRows(rows: seq<seq<Param>>, w: nat)
    requires Width(rows, w)
    ensures Bind(Stmt(Placeholders(|rows|, w), Flatten(rows))) == Some(rows)
  {
    PlaceholdersName(rows, w);
    BindEach(Placeholders(|rows|, w), Flatten(rows), rows);
  }

  /** Every placeholder names the parameter of its row and column. */
  lemma PlaceholdersName(rows: seq<seq<Param>>, w: nat)
    requires Width(rows, w)
    ensures var ts := Placeholders(|rows|, w);
      && |ts| == |rows| && (forall k | 0 <= k < |ts| :: |ts[k]| == |rows[k]|)
      && forall k, j | 0 <= k < |ts| && 0 <= j < |ts[k]| ::
           1 <= ts[k][j] <= |Flatten(rows)| && Flatten(rows)[ts[k][j] - 1] == rows[k][j]
  {
    var ts := Placeholders(|rows|, w);
    forall k, j | 0 <= k < |ts| && 0 <= j < |ts[k]|
      ensures 1 <= ts[k][j] <= |Flatten(rows)| && Flatten(rows)[ts[k][j] - 1] == rows[k][j]
    {
      assert j < w;
      PlaceholderAt(rows, w, k, j);
    }
  }

  /** A statement binds to `rows` when each placeholder names the parameter
      holding the matching value. */
  lemma BindEach(ts: seq<seq<nat>>, params: seq<Param>, rows: seq<seq<Param>>)
    requires |ts| == |rows| && forall k | 0 <= k < |ts| :: |ts[k]| == |rows[k]|
    requires forall k, j | 0 <= k < |ts| && 0 <= j < |ts[k]| ::
      1 <= ts[k][j] <= |params| && params[ts[k][j] - 1] == rows[k][j]
    ensures Bind(Stmt(ts, params)) == Some(rows)
  {
    var s := Stmt(ts, params);
    assert Bound(s);
    var bound := Bind(s).value;
    assert |bound| == |rows|;
    forall k | 0 <= k < |rows| ensures bound[k] == rows[k] {
      assert |bound[k]| == |rows[k]|;
      forall j | 0 <= j < |rows[k]| ensures bound[k][j] == rows[k][j] {
        assert bound[k][j] == params[ts[k][j] - 1];
      }
    }
    assert bound == rows;
  }

  // ---------------------------------------------------------------------
  // Reference tables
  // ---------------------------------------------------------------------

  function Materials(p: seq<Product>): (m: seq<string>)
    ensures |m| == |p|
  {
    seq(|p|, i requires 0 <= i < |p| => p[i].material)
  }

  function BranchNames(b: seq<Branch>): (m: seq<string>)
    ensures |m| == |b|
  {
    seq(|b|, i requires 0 <= i < |b| => b[i].name)
  }

  /** `new Map(rows.map(r => [r.name.toUpperCase(), r.id]))`: a later row
      overwrites an earlier one with the same upper-cased name. */
  function LoadIds(names: seq<string>): map<string, nat>
    decreases |names|
  {
    if |names| == 0 then map[]
    else LoadIds(names[..|names| - 1])[Upper(names[|names| - 1]) := |names|]
  }

  /** `SELECT id, name ... WHERE UPPER(name) = ANY(wanted)` followed by
      `map.set(name.toUpperCase(), id)` for each row, in table order. */
  function Refresh(m: map<string, nat>, names: seq<string>, wanted: seq<string>): map<string, nat>
    decreases |names|
  {
    if |names| == 0 then m
    else
      var prev := Refresh(m, names[..|names| - 1], wanted);
      var u := Upper(names[|names| - 1]);
      if u in wanted then prev[u := |names|] else prev
  }

  /** The id of the last row whose upper-cased name is `u`. */
  function LastNamed(names: seq<string>, u: string): (r: Option<nat>)
    ensures r.Some? ==> 1 <= r.value <= |names| && Upper(names[r.value - 1]) == u
    ensures r.Some? ==> forall i | r.value <= i < |names| :: Upper(names[i]) != u
    ensures r.None? ==> forall i | 0 <= i < |names| :: Upper(names[i]) != u
    decreases |names|
  {
    if |names| == 0 then None
    else if Upper(names[|names| - 1]) == u then Some(|names|)
    else LastNamed(names[..|names| - 1], u)
  }

  /** The loaded map holds an upper-cased name exactly when some row carries
      it, with the id of the last such row. */
  lemma {:induction false} LoadIdsLast(names: seq<string>, u: string)
    ensures u in LoadIds(names) <==> LastNamed(names, u).Some?
    ensures u in LoadIds(names) ==> LoadIds(names)[u] == LastNamed(names, u).value
    decreases |names|
  {
    if |names| > 0 {
      LoadIdsLast(names[..|names| - 1], u);
    }
  }

  /** Refreshing sets a wanted name to its last row's id and keeps every
      other entry. */
  lemma {:induction false} RefreshLast(m: map<string, nat>, names: seq<string>, wanted: seq<string>, u: string)
    ensures u in Refresh(m, names, wanted) <==> u in m || (u in wanted && LastNamed(names, u).Some?)
    ensures u in Refresh(m, names, wanted) ==>
      Refresh(m, names, wanted)[u] == if u in wanted && LastNamed(names, u).Some? then LastNamed(names, u).value else m[u]
    decreases |names|
  {
    if |names| > 0 {
      RefreshLast(m, names[..|names| - 1], wanted, u);
    }
  }

  /** One bound branch row, or None when its values have the wrong types. */
  function BranchRow(r: seq<Param>): Option<Branch> {
    if |r| == 4 && r[0].PText? && r[1].PText? && r[2].PInt? && r[3].PInt?
    then Some(Branch(r[0].s, r[1].s, r[2].i, r[3].i))
    else None
  }

  function ProductRow(r: seq<Param>): Option<Product> {
    if |r| == 6 && r[0].PText? && r[1].PReal? && r[2].PInt? && r[3].PCell? && r[4].PInt? && r[5].PInt?
    then Some(Product(r[0].s, r[1].r, r[2].i, r[3].c, r[4].i, r[5].i))
    else None
  }

  predicate HasBranch(t: seq<Branch>, name: string) {
    exists i :: 0 <= i < |t| && t[i].name == name
  }

  predicate HasProduct(t: seq<Product>, material: string) {
    exists i :: 0 <= i < |t| && t[i].material == material
  }

  /** `INSERT INTO branches ... ON CONFLICT (name) DO NOTHING`: a row whose
      name is already present (or was inserted earlier by the same statement)
      is dropped. */
  function InsertBranchRows(t: seq<Branch>, rows: seq<seq<Param>>): Result<seq<Branch>>
    decreases |rows|
  {
    if |rows| == 0 then Success(t)
    else
      match InsertBranchRows(t, rows[..|rows| - 1])
      case Failure(e) => Failure(e)
      case Success(t') =>
        match BranchRow(rows[|rows| - 1])
        case None => Failure(BAD_PARAM)
        case Some(b) => Success(if HasBranch(t', b.name) then t' else t' + [b])
  }

  function InsertProductRows(t: seq<Product>, rows: seq<seq<Param>>): Result<seq<Product>>
    decreases |rows|
  {
    if |rows| == 0 then Success(t)
    else
      match InsertProductRows(t, rows[..|rows| - 1])
      case Failure(e) => Failure(e)
      case Success(t') =>
        match ProductRow(rows[|rows| - 1])
        case None => Failure(BAD_PARAM)
        case Some(p) => Success(if HasProduct(t', p.material) then t' else t' + [p])
  }

  function InsertBranches(db: Tables, s: Stmt): Result<Tables> {
    match Bind(s)
    case None => Failure(BAD_PARAM)
    case Some(rows) =>
      match InsertBranchRows(db.branches, rows)
      case Failure(e) => Failure(e)
      case Success(b) => Success(db.(branches := b))
  }

  function InsertProducts(db: Tables, s: Stmt): Result<Tables> {
    match Bind(s)
    case None => Failure(BAD_PARAM)
    case Some(rows) =>
      match InsertProductRows(db.products, rows)
      case Failure(e) => Failure(e)
      case Success(p) => Success(db.(products := p))
  }

  /** Inserting rows whose names are new and distinct appends them all, in order. */
  lemma {:induction false} InsertNewBranches(t: seq<Branch>, rows: seq<seq<Param>>, bs: seq<Branch>)
    requires |rows| == |bs|
    requires forall k | 0 <= k < |rows| :: BranchRow(rows[k]) == Some(bs[k])
    requires forall k | 0 <= k < |bs| :: !HasBranch(t, bs[k].name)
    requires forall k, l | 0 <= k < l < |bs| :: bs[k].name != bs[l].name
    ensures InsertBranchRows(t, rows) == Success(t + bs)
    decreases |rows|
  {
    if |rows| > 0 {
      var n := |rows| - 1;
      InsertNewBranches(t, rows[..n], bs[..n]);
      var t' := t + bs[..n];
      assert !HasBranch(t', bs[n].name) by {
        forall i | 0 <= i < |t'| ensures t'[i].name != bs[n].name {
          if i < |t| { assert t'[i] == t[i]; }
          else { assert t'[i] == bs[..n][i - |t|]; }
        }
      }
      assert t' + [bs[n]] == t + bs;
    } else {
      assert t + bs == t;
    }
  }

  lemma {:induction false} InsertNewProducts(t: seq<Product>, rows: seq<seq<Param>>, ps: seq<Product>)
    requires |rows| == |ps|
    requires forall k | 0 <= k < |rows| :: ProductRow(rows[k]) == Some(ps[k])
    requires forall k | 0 <= k < |ps| :: !HasProduct(t, ps[k].material)
    requires forall k, l | 0 <= k < l < |ps| :: ps[k].material != ps[l].material
    ensures InsertProductRows(t, rows) == Success(t + ps)
    decreases |rows|
  {
    if |rows| > 0 {
      var n := |rows| - 1;
      InsertNewProducts(t, rows[..n], ps[..n]);
      var t' := t + ps[..n];
      assert !HasProduct(t', ps[n].material) by {
        forall i | 0 <= i < |t'| ensures t'[i].material != ps[n].material {
          if i < |t| { assert t'[i] == t[i]; }
          else { assert t'[i] == ps[..n][i - |t|]; }
        }
      }
      assert t' + [ps[n]] == t + ps;
    } else {
      assert t + ps == t;
    }
  }

  // ---------------------------------------------------------------------
  // Inventory upsert
  // ---------------------------------------------------------------------

  /** The values of one bound inventory row, in column order. */
  datatype InvRow = InvRow(productId: nat, branchId: nat, opStock: int, avlStock: int, transit: int,
                           billing: int, monthPlan: int, demandPlan: int, skuOpeningStock: int,
                           goodsInTransit: int, finalBalanceProduce: int, mtdInvoicing: int,
                           category: string)

  predicate AllInts(r: seq<Param>, n: nat)
    requires n <= |r|
  {
    forall j | 0 <= j < n :: r[j].PInt?
  }

  function DecodeInv(r: seq<Param>): Option<InvRow> {
    if |r| == 13 && AllInts(r, 12) && r[12].PText? && r[0].i >= 0 && r[1].i >= 0
    then Some(InvRow(r[0].i, r[1].i, r[2].i, r[3].i, r[4].i, r[5].i, r[6].i, r[7].i, r[8].i,
                     r[9].i, r[10].i, r[11].i, r[12].s))
    else None
  }

  /** The inventory row a statement leaves for `r`: every listed column set
      from the statement and `updated_at` set to the statement's timestamp. */
  function Written(r: InvRow, now: Stamp): Inv {
    Inv(r.productId, r.branchId, r.opStock, r.avlStock, r.transit, r.billing, r.monthPlan,
        r.demandPlan, r.skuOpeningStock, r.goodsInTransit, r.finalBalanceProduce, r.mtdInvoicing,
        r.category, now)
  }

  /** Position of the row of a (product, branch) pair. */
  function FindInv(inv: seq<Inv>, p: nat, b: nat): (r: Option<nat>)
    ensures r.Some? ==> r.value < |inv| && inv[r.value].productId == p && inv[r.value].branchId == b
    ensures r.None? ==> forall i | 0 <= i < |inv| :: !(inv[i].productId == p && inv[i].branchId == b)
    decreases |inv|
  {
    if |inv| == 0 then None
    else if inv[|inv| - 1].productId == p && inv[|inv| - 1].branchId == b then Some(|inv| - 1)
    else FindInv(inv[..|inv| - 1], p, b)
  }

  /** One row of `INSERT INTO inventory ... ON CONFLICT (product_id,
      branch_id) DO UPDATE`: the existing row of the pair is overwritten, or a
      new one is appended. A pair written twice by one statement is an error. */
  function UpsertRows(inv: seq<Inv>, rows: seq<InvRow>, now: Stamp): Result<seq<Inv>>
    decreases |rows|
  {
    if |rows| == 0 then Success(inv)
    else
      var n := |rows| - 1;
      if exists k | 0 <= k < n :: rows[k].productId == rows[n].productId && rows[k].branchId == rows[n].branchId
      then Failure(TWICE)
      else
        match UpsertRows(inv, rows[..n], now)
        case Failure(e) => Failure(e)
        case Success(inv') =>
          match FindInv(inv', rows[n].productId, rows[n].branchId)
          case Some(i) => Success(inv'[i := Written(rows[n], now)])
          case None => Success(inv' + [Written(rows[n], now)])
  }

  function DecodeAll(rows: seq<seq<Param>>): Option<seq<InvRow>>
    decreases |rows|
  {
    if |rows| == 0 then Some([])
    else
      match DecodeAll(rows[..|rows| - 1])
      case None => None
      case Some(prev) =>
        match DecodeInv(rows[|rows| - 1])
        case None => None
        case Some(r) => Some(prev + [r])
  }

  function Upsert(db: Tables, s: Stmt, now: Stamp): Result<Tables> {
    match Bind(s)
    case None => Failure(BAD_PARAM)
    case Some(rows) =>
      match DecodeAll(rows)
      case None => Failure(BAD_PARAM)
      case Some(rs) =>
        match UpsertRows(db.inventory, rs, now)
        case Failure(e) => Failure(e)
        case Success(inv) => Success(db.(inventory := inv))
  }

  /** Each (product, branch) pair has at most one inventory row. */
  predicate UniquePairs(inv: seq<Inv>) {
    forall i, j | 0 <= i < j < |inv| :: !(inv[i].productId == inv[j].productId && inv[i].branchId == inv[j].branchId)
  }

  /** A successful upsert keeps one row per pair, gives every written pair
      the row the statement wrote, and leaves the rows of other pairs as
      they were. */
  lemma {:induction false} UpsertMeaning(inv: seq<Inv>, rows: seq<InvRow>, now: Stamp)
    requires UniquePairs(inv)
    requires UpsertRows(inv, rows, now).Success?
    ensures var out := UpsertRows(inv, rows, now).value;
      && UniquePairs(out)
      && (forall k | 0 <= k < |rows| :: Written(rows[k], now) in out)
      && (forall i | 0 <= i < |inv| && (forall k | 0 <= k < |rows| ::
             !(rows[k].productId == inv[i].productId && rows[k].branchId == inv[i].branchId)) ::
           inv[i] in out)
    decreases |rows|
  {
    if |rows| > 0 {
      var n := |rows| - 1;
      UpsertMeaning(inv, rows[..n], now);
      var inv' := UpsertRows(inv, rows[..n], now).value;
      var out := UpsertRows(inv, rows, now).value;
      UpsertLast(inv', rows[n], now);
      forall k | 0 <= k < n ensures Written(rows[k], now) in out {
        assert rows[..n][k] == rows[k];
      }
      forall i | 0 <= i < |inv| && (forall k | 0 <= k < |rows| ::
          !(rows[k].productId == inv[i].productId && rows[k].branchId == inv[i].branchId))
        ensures inv[i] in out
      {
        assert forall k | 0 <= k < n ::
          !(rows[..n][k].productId == inv[i].productId && rows[..n][k].branchId == inv[i].branchId);
        assert !(rows[n].productId == inv[i].productId && rows[n].branchId == inv[i].branchId);
      }
    }
  }

  /** Writing one row keeps one row per pair, holds the written row and
      keeps every row of another pair. */
  lemma UpsertLast(inv: seq<Inv>, r: InvRow, now: Stamp)
    requires UniquePairs(inv)
    ensures var out := match FindInv(inv, r.productId, r.branchId)
        case Some(i) => inv[i := Written(r, now)]
        case None => inv + [Written(r, now)];
      && UniquePairs(out) && Written(r, now) in out
      && forall x | x in inv && !(x.productId == r.productId && x.branchId == r.branchId) :: x in out
  {
    var w := Written(r, now);
    match FindInv(inv, r.productId, r.branchId)
    case Some(i) => {
      var out := inv[i := w];
      assert out[i] == w;
      forall x | x in inv && !(x.productId == r.productId && x.branchId == r.branchId) ensures x in out {
        var j :| 0 <= j < |inv| && inv[j] == x;
        assert j != i && out[j] == x;
      }
    }
    case None => {
      var out := inv + [w];
      assert out[|inv|] == w;
      forall x | x in inv ensures x in out {
        var j :| 0 <= j < |inv| && inv[j] == x;
        assert out[j] == x;
      }
    }
  }

  /** Two rows of one statement for the same (product, branch) pair. */
  predicate Repeats(rows: seq<InvRow>) {
    exists k, l | 0 <= k < l < |rows| :: rows[k].productId == rows[l].productId && rows[k].branchId == rows[l].branchId
  }

  /** An upsert fails exactly when the statement writes some pair twice, and
      then with the "cannot affect row a second time" error. */
  lemma {:induction false} UpsertRowsFails(inv: seq<Inv>, rows: seq<InvRow>, now: Stamp)
    ensures UpsertRows(inv, rows, now).Failure? <==> Repeats(rows)
    ensures UpsertRows(inv, rows, now).Failure? ==> UpsertRows(inv, rows, now).error == TWICE
    decreases |rows|
  {
    if |rows| > 0 {
      var n := |rows| - 1;
      var prev := rows[..n];
      UpsertRowsFails(inv, prev, now);
      RepeatsSnoc(rows);
    }
  }

  /** A pair repeats in a list when it repeats before the last row or the
      last row repeats an earlier one. */
  lemma RepeatsSnoc(rows: seq<InvRow>)
    requires |rows| > 0
    ensures var n := |rows| - 1;
      Repeats(rows) <==> (Repeats(rows[..n]) ||
        exists k | 0 <= k < n :: rows[k].productId == rows[n].productId && rows[k].branchId == rows[n].branchId)
  {
    var n := |rows| - 1;
    var prev := rows[..n];
    if Repeats(prev) {
      var k, l :| 0 <= k < l < |prev| && prev[k].productId == prev[l].productId && prev[k].branchId == prev[l].branchId;
      assert rows[k] == prev[k] && rows[l] == prev[l];
    }
    if Repeats(rows) {
      var k, l :| 0 <= k < l < |rows| && rows[k].productId == rows[l].productId && rows[k].branchId == rows[l].branchId;
      if l < n {
        assert prev[k] == rows[k] && prev[l] == rows[l];
      }
    }
  }

  // ---------------------------------------------------------------------
  // Existing inventory for change detection
  // ---------------------------------------------------------------------

  /** `updated_at BETWEEN start AND end`, both bounds being midnight. */
  predicate Between(s: Stamp, start: Day, end: Day) {
    start <= s.day && (s.day < end || (s.day == end && s.second == 0))
  }

  /** `${updated_at date}-${branch name upper}-${material upper}` of one
      joined inventory row, or None when the join drops it. */
  function ExistingKey(db: Tables, r: Inv): Option<string> {
    if 1 <= r.productId <= |db.products| && 1 <= r.branchId <= |db.branches| then
      Some(FormatDate(r.updatedAt.day) + "-" + Upper(db.branches[r.branchId - 1].name) + "-" +
           Upper(db.products[r.productId - 1].material))
    else None
  }

  /** One row of the change-detection query: its lookup key and billing. */
  datatype Prior = Prior(key: string, billing: int)

  /** The rows of the query of routes/upload.js:424-440 (inventory joined
      with its product and branch, `updated_at` within the range), in table
      order. With no range (no row was dated) the bounds are NULL and nothing
      matches. */
  function PriorRows(db: Tables, inv: seq<Inv>, range: Option<(Day, Day)>): seq<Prior>
    decreases |inv|
  {
    if |inv| == 0 || range.None? then []
    else
      var prev := PriorRows(db, inv[..|inv| - 1], range);
      var r := inv[|inv| - 1];
      match ExistingKey(db, r)
      case Some(k) => if Between(r.updatedAt, range.value.0, range.value.1) then prev + [Prior(k, r.billing)] else prev
      case None => prev
  }

  /** `existingMap`: a later row with the same key overwrites an earlier one. */
  function Lookup(ps: seq<Prior>): map<string, int>
    decreases |ps|
  {
    if |ps| == 0 then map[]
    else Lookup(ps[..|ps| - 1])[ps[|ps| - 1].key := ps[|ps| - 1].billing]
  }

  /** The position of the last row with key `k`. */
  function LastKeyed(ps: seq<Prior>, k: string): (r: Option<nat>)
    ensures r.Some? ==> r.value < |ps| && ps[r.value].key == k
    ensures r.Some? ==> forall j | r.value < j < |ps| :: ps[j].key != k
    ensures r.None? ==> forall j | 0 <= j < |ps| :: ps[j].key != k
    decreases |ps|
  {
    if |ps| == 0 then None
    else if ps[|ps| - 1].key == k then Some(|ps| - 1)
    else LastKeyed(ps[..|ps| - 1], k)
  }

  /** A key is in the lookup exactly when some row has it; its value is the
      billing of the last such row. */
  lemma {:induction false} LookupLast(ps: seq<Prior>, k: string)
    ensures k in Lookup(ps) <==> LastKeyed(ps, k).Some?
    ensures k in Lookup(ps) ==> Lookup(ps)[k] == ps[LastKeyed(ps, k).value].billing
    decreases |ps|
  {
    if |ps| > 0 {
      LookupLast(ps[..|ps| - 1], k);
    }
  }
}
