/**
  The per-row normaliser of `processOptimizedDailyUpdate`
  (routes/upload.js:250-333): the record date, branch, item code and sales
  quantity of one row object, and the fields of a new accumulated record.
*/
module Normalise {
  import opened Js
  import opened Dates
  import opened Sheet

  /** The clock and the engine's date parser, which the handler reads. */
  datatype Env = Env(today: Day, timeText: string, engineParse: string -> Option<Day>)

  /** Quantity columns, tried in this order. */
  const QTY_FIELDS: seq<string> := ["SKU Opening stock", "Total", "Billing", "BILLING",
    "Final Balance in Products", "Sales Qty.", "sales qty", "salesqty", "Avl_Stock",
    "AVL_STOCK", "OP_Stock", "Transit", "TRANSIT"]

  /** `value.trim()`: None where `trim` is not a method of the value and the
      call throws. */
  function TrimText(c: Cell): Option<string> {
    match c
    case Str(s) => Some(Trim(s))
    case _ => None
  }

  /** `row.Date || row.date || new Date().toISOString()` */
  function DateCell(row: RowObj, env: Env): Cell {
    Or(Or(Get(row, "Date"), Get(row, "date")), Str(NowIso(env.today, env.timeText)))
  }

  function RecordDay(row: RowObj, env: Env): Day {
    ParseDate(DateCell(row, env), env.today, env.engineParse)
  }

  // ---------------------------------------------------------------------
  // Sales quantity
  // ---------------------------------------------------------------------

  /** The first alias column that is truthy and starts with a number. */
  function AliasQty(row: RowObj, fields: seq<string>): Option<real>
    decreases |fields|
  {
    if |fields| == 0 then None
    else
      var c := Get(row, fields[0]);
      if Truthy(c) && ParseFloat(c).Some? then ParseFloat(c)
      else AliasQty(row, fields[1..])
  }

  /** The first of the given columns that holds a positive number, or 0. */
  function FirstPositive(row: RowObj, keys: seq<string>): real
    decreases |keys|
  {
    if |keys| == 0 then 0.0
    else
      var v := ParseFloat(Get(row, keys[0]));
      if v.Some? && v.value > 0.0 then v.value else FirstPositive(row, keys[1..])
  }

  /** The number of the first usable alias column, or 0. */
  function AliasValue(row: RowObj): real {
    var alias := AliasQty(row, QTY_FIELDS);
    if alias.Some? then alias.value else 0.0
  }

  /** The quantity of a row: the first usable alias column, and when that
      gives 0 (or none is usable) the first column of the row, in the order
      of `Object.keys`, holding a positive number. */
  function SalesQty(row: RowObj): real {
    if AliasValue(row) == 0.0 then FirstPositive(row, OwnKeys(row)) else AliasValue(row)
  }

  /** The quantity loops of routes/upload.js:262-279. */
  method SalesQuantity(row: RowObj) returns (qty: real)
    ensures qty == SalesQty(row)
  {
    qty := AliasLoop(row, QTY_FIELDS);
    if qty == 0.0 {
      qty := FallbackLoop(row);
    }
  }

  /** The loop over the alias columns `fields`, left at the first usable
      one; 0 when none is. */
  method AliasLoop(row: RowObj, fields: seq<string>) returns (qty: real)
    ensures qty == if AliasQty(row, fields).Some? then AliasQty(row, fields).value else 0.0
  {
    qty := 0.0;
    var i := 0;
    assert fields[0..] == fields;
    while i < |fields|
      invariant 0 <= i <= |fields|
      invariant AliasQty(row, fields) == AliasQty(row, fields[i..])
      invariant qty == 0.0
    {
      var c := Get(row, fields[i]);
      var p := ParseFloat(c);
      if Truthy(c) && p.Some? {
        qty := p.value;
        break;
      }
      assert fields[i..][1..] == fields[i + 1..];
      i := i + 1;
    }
  }

  /** `Object.keys(row).forEach(...)`: the first column with a positive number. */
  method FallbackLoop(row: RowObj) returns (qty: real)
    ensures qty == FirstPositive(row, OwnKeys(row))
  {
    var keys := OwnKeys(row);
    qty := 0.0;
    var j := 0;
    assert keys[0..] == keys;
    while j < |keys|
      invariant 0 <= j <= |keys|
      invariant qty == 0.0 ==> FirstPositive(row, keys) == FirstPositive(row, keys[j..])
      invariant qty != 0.0 ==> qty == FirstPositive(row, keys)
    {
      var v := ParseFloat(Get(row, keys[j]));
      if v.Some? && v.value > 0.0 && qty == 0.0 {
        qty := v.value;
      }
      assert keys[j..][1..] == keys[j + 1..];
      j := j + 1;
    }
  }

  // ---------------------------------------------------------------------
  // The normalised row
  // ---------------------------------------------------------------------

  /** A row either makes a `.trim()` throw while reading its branch or item,
      or yields its day, that day as `YYYY-MM-DD`, its upper-cased branch and
      item, and its quantity. */
  datatype Outcome = Threw | Normalised(day: Day, date: string, branch: string, item: string, qty: real)

  /** `row.Branch || row.branch || row.BRANCH || 'CHENNAI'` */
  function BranchCell(row: RowObj): Cell {
    Or(Get(row, "Branch"), Or(Get(row, "branch"), Or(Get(row, "BRANCH"), Str("CHENNAI"))))
  }

  /** `row.Model || row.MODEL || ... || row.itemcode || ''` */
  function ItemCell(row: RowObj): Cell {
    Or(Get(row, "Model"), Or(Get(row, "MODEL"), Or(Get(row, "Material"), Or(Get(row, "MATERIAL"),
      Or(Get(row, "Item Code"), Or(Get(row, "item code"), Or(Get(row, "itemcode"), Str(""))))))))
  }

  /** The outcome from the row's date, branch and item cells and quantity. */
  function Assemble(day: Day, branch: Cell, item: Cell, qty: real): Outcome {
    match (TrimText(branch), TrimText(item))
    case (Some(b), Some(i)) => Normalised(day, FormatDate(day), Upper(b), Upper(i), qty)
    case _ => Threw
  }

  function NormaliseRow(row: RowObj, env: Env): Outcome {
    Assemble(RecordDay(row, env), BranchCell(row), ItemCell(row), SalesQty(row))
  }

  /** The opening statements of the row loop's body (routes/upload.js:256-279). */
  method ReadRow(row: RowObj, env: Env) returns (o: Outcome)
    ensures o == NormaliseRow(row, env)
  {
    var day := RecordDay(row, env);
    var branch := BranchCell(row);
    var item := ItemCell(row);
    var qty := SalesQuantity(row);
    o := Assemble(day, branch, item, qty);
  }

  /** The accumulation key `${formattedDate}-${branchName}-${itemCode}`. */
  function Key(date: string, branch: string, item: string): string {
    date + "-" + branch + "-" + item
  }

  /** The accumulated record of one key. */
  datatype Rec = Rec(recordDate: string, branchName: string, itemCode: string, category: string,
                     billing: real, demandPlan: real, skuOpeningStock: real, goodsInTransit: real,
                     finalBalanceProduce: real, mtdInvoicing: real, tonnage: real, star: int,
                     technology: Cell)

  /** `parseFloat(x) || d`: NaN and 0 are falsy. */
  function NumOr(p: Option<real>, d: real): real {
    if p.Some? && p.value != 0.0 then p.value else d
  }

  /** `parseInt(x) || d` */
  function IntOr(p: Option<int>, d: int): int {
    if p.Some? && p.value != 0 then p.value else d
  }

  /** The record a row seeds for a key not yet accumulated
      (routes/upload.js:307-332); None where `trim` or `replace` is called on
      a value that is not a string and throws. */
  function NewRecord(row: RowObj, date: string, branch: string, item: string, qty: real): Option<Rec> {
    var sku := NumOr(ParseFloat(Get(row, "SKU Opening stock")), qty);
    match TrimText(Or(Or(Get(row, "Catg."), Get(row, "Cat E")), Str("")))
    case None => None
    case Some(category) =>
      match Or(Get(row, "Star Rating"), Str(""))
      case Str(starText) =>
        (match Or(Get(row, "Ton"), Str(""))
         case Str(tonText) =>
           Some(Rec(date, branch, item, category,
                    sku,
                    NumOr(ParseFloat(Get(row, "Demand Plan")), 0.0),
                    sku,
                    NumOr(ParseFloat(Get(row, "Goods in Transit")), 0.0),
                    NumOr(ParseFloat(Get(row, "Final Balance to Produce")),
                          NumOr(ParseFloat(Get(row, "Current Balance to Produce")), 0.0)),
                    NumOr(ParseFloat(Get(row, "MTD Invoicing")), 0.0),
                    NumOr(ParseFloatText(ReplaceFirst(tonText, " Tr", "")), 1.0),
                    IntOr(ParseIntText(ReplaceFirst(starText, "*", "")), 3),
                    Or(Get(row, "Technology"), Str("Non Inv"))))
         case _ => None)
      case _ => None
  }

  // ---------------------------------------------------------------------
  // Lemmas
  // ---------------------------------------------------------------------

  lemma {:induction false} FirstPositiveFacts(row: RowObj, keys: seq<string>)
    ensures FirstPositive(row, keys) >= 0.0
    ensures FirstPositive(row, keys) == 0.0 ==>
      forall j | 0 <= j < |keys| :: !(ParseFloat(Get(row, keys[j])).Some? && ParseFloat(Get(row, keys[j])).value > 0.0)
    ensures FirstPositive(row, keys) != 0.0 ==>
      exists j :: 0 <= j < |keys| && ParseFloat(Get(row, keys[j])) == Some(FirstPositive(row, keys))
    decreases |keys|
  {
    if |keys| > 0 {
      FirstPositiveFacts(row, keys[1..]);
      var v := ParseFloat(Get(row, keys[0]));
      if !(v.Some? && v.value > 0.0) && FirstPositive(row, keys) != 0.0 {
        var j :| 0 <= j < |keys[1..]| && ParseFloat(Get(row, keys[1..][j])) == Some(FirstPositive(row, keys));
        assert keys[1..][j] == keys[j + 1];
      }
    }
  }

  lemma {:induction false} AliasQtyFound(row: RowObj, fields: seq<string>)
    ensures AliasQty(row, fields).Some? ==>
      exists j :: 0 <= j < |fields| && Truthy(Get(row, fields[j])) && ParseFloat(Get(row, fields[j])) == AliasQty(row, fields)
    ensures AliasQty(row, fields).None? ==>
      forall j | 0 <= j < |fields| :: !(Truthy(Get(row, fields[j])) && ParseFloat(Get(row, fields[j])).Some?)
    decreases |fields|
  {
    if |fields| > 0 {
      AliasQtyFound(row, fields[1..]);
      var c := Get(row, fields[0]);
      if !(Truthy(c) && ParseFloat(c).Some?) && AliasQty(row, fields).Some? {
        var j :| 0 <= j < |fields[1..]| && Truthy(Get(row, fields[1..][j])) && ParseFloat(Get(row, fields[1..][j])) == AliasQty(row, fields);
        assert fields[1..][j] == fields[j + 1];
      }
    }
  }

  /** A column of the row, read through `row[key]`, is one of its values. */
  lemma GetKey(row: RowObj, k: string)
    requires Valid(row) && k in row.keys
    ensures k in row.vals && Get(row, k) == row.vals[k]
  {
  }

  /** The quantity is never NaN: it is 0 or the number some column of the row
      starts with. */
  lemma SalesQtyFromColumn(row: RowObj)
    requires Valid(row)
    ensures SalesQty(row) != 0.0 ==>
      exists k :: k in row.vals && ParseFloat(row.vals[k]) == Some(SalesQty(row))
  {
    AliasQtyFound(row, QTY_FIELDS);
    var keys := OwnKeys(row);
    FirstPositiveFacts(row, keys);
    assert forall k :: k in keys <==> k in row.keys by { OwnKeysPermutes(row); }
    var alias := AliasQty(row, QTY_FIELDS);
    if alias.Some? && alias.value != 0.0 {
      var j :| 0 <= j < |QTY_FIELDS| && Truthy(Get(row, QTY_FIELDS[j])) && ParseFloat(Get(row, QTY_FIELDS[j])) == alias;
      var k := QTY_FIELDS[j];
      assert Get(row, k) != Undefined;
      assert k in row.vals;
    } else if SalesQty(row) != 0.0 {
      var j :| 0 <= j < |keys| && ParseFloat(Get(row, keys[j])) == Some(FirstPositive(row, keys));
      assert keys[j] in row.keys;
      GetKey(row, keys[j]);
    }
  }

  /** The quantity is 0 exactly when no alias column gives a non-zero number
      and no column holds a positive one. */
  lemma SalesQtyZero(row: RowObj)
    requires Valid(row)
    ensures SalesQty(row) == 0.0 <==>
      (AliasQty(row, QTY_FIELDS).None? || AliasQty(row, QTY_FIELDS).value == 0.0)
      && forall k | k in row.vals :: !(ParseFloat(row.vals[k]).Some? && ParseFloat(row.vals[k]).value > 0.0)
  {
    var keys := OwnKeys(row);
    FirstPositiveFacts(row, keys);
    assert forall k :: k in keys <==> k in row.keys by { OwnKeysPermutes(row); }
    var alias := AliasQty(row, QTY_FIELDS);
    var noAlias := alias.None? || alias.value == 0.0;
    assert noAlias <==> AliasValue(row) == 0.0;
    var fp := FirstPositive(row, keys);
    if noAlias {
      assert SalesQty(row) == fp;
      if fp == 0.0 {
        forall k | k in row.vals ensures !(ParseFloat(row.vals[k]).Some? && ParseFloat(row.vals[k]).value > 0.0) {
          assert k in keys;
          var j :| 0 <= j < |keys| && keys[j] == k;
          GetKey(row, k);
        }
      } else {
        var j :| 0 <= j < |keys| && ParseFloat(Get(row, keys[j])) == Some(fp);
        assert keys[j] in row.keys;
        GetKey(row, keys[j]);
      }
    }
  }

  /** The first usable alias wins over an earlier key column: a row with
      `Total` "7" and `Billing` "9" has quantity 7. */
  lemma AliasOrder()
    ensures SalesQty(RowObj(["Billing", "Total"], map["Billing" := Str("9"), "Total" := Str("7")])) == 7.0
  {
    var row := RowObj(["Billing", "Total"], map["Billing" := Str("9"), "Total" := Str("7")]);
    LeadingNumberOfDigits("7", "");
    LeadingNumberOfDigits("9", "");
    assert "7" + "" == "7" && "9" + "" == "9";
    assert ParseFloat(Str("7")) == Some(7.0);
    assert ParseFloat(Str("9")) == Some(9.0);
    assert AliasQty(row, QTY_FIELDS) == AliasQty(row, QTY_FIELDS[1..]);
  }

  /** The fallback follows `Object.keys`, which lists a numeric header
      before the others: with headers `Units` and `1` holding 5 and 3 and no
      alias column, the quantity is 3. */
  lemma IndexHeaderFirst()
    ensures SalesQty(BuildRow(["Units", "1"], [Str("5"), Str("3")])) == 3.0
  {
    var row := BuildRow(["Units", "1"], [Str("5"), Str("3")]);
    BuildTwo("Units", "1", Str("5"), Str("3"));
    UnitsKeys();
    assert OwnKeys(row) == ["1", "Units"];
    NotAliases();
    NoAliasColumn(row);
    ReadsThree();
    assert Get(row, "1") == Str("3");
    FallbackFirst(row, 3.0);
  }

  lemma UnitsKeys()
    ensures OwnKeys(RowObj(["Units", "1"], map["Units" := Str("5"), "1" := Str("3")])) == ["1", "Units"]
  {
    IndexOne();
    NamedUnits();
    NamedFirst("Units", "1", map["Units" := Str("5"), "1" := Str("3")]);
  }

  lemma IndexOne()
    ensures IsIndexKey("1")
  {
    assert DigitsValue("1") == 1;
  }

  lemma NamedUnits()
    ensures !IsIndexKey("Units")
  {
    assert !IsDigit('U');
  }

  lemma NotAliases()
    ensures "Units" !in QTY_FIELDS && "1" !in QTY_FIELDS
  {
  }

  lemma ReadsThree()
    ensures ParseFloat(Str("3")) == Some(3.0)
  {
    LeadingNumberOfDigits("3", "");
    assert "3" + "" == "3";
  }

  /** Without an alias quantity, the first key `Object.keys` lists decides
      when it holds a positive number. */
  lemma FallbackFirst(row: RowObj, n: real)
    requires AliasValue(row) == 0.0 && |OwnKeys(row)| > 0
    requires ParseFloat(Get(row, OwnKeys(row)[0])) == Some(n) && n > 0.0
    ensures SalesQty(row) == n
  {
  }

  /** The row object of two distinct headers over two truthy cells. */
  lemma BuildTwo(a: string, b: string, x: Cell, y: Cell)
    requires a != b && Truthy(x) && Truthy(y)
    ensures BuildRow([a, b], [x, y]) == RowObj([a, b], map[a := x, b := y])
  {
    assert [a, b][..1] == [a];
    assert [a][..0] == [];
    assert BuildRow([a], [x, y]) == RowObj([a], map[a := x]);
  }

  /** A row whose keys are none of the alias columns has no alias quantity. */
  lemma NoAliasColumn(row: RowObj)
    requires forall k | k in row.vals :: k !in QTY_FIELDS
    ensures AliasValue(row) == 0.0
  {
    AliasQtyFound(row, QTY_FIELDS);
  }

  /** The branch falls back to CHENNAI only when every branch column is
      falsy; a branch column holding a number makes `trim` throw. */
  lemma BranchDefault(row: RowObj, env: Env)
    requires !Truthy(Get(row, "Branch")) && !Truthy(Get(row, "branch")) && !Truthy(Get(row, "BRANCH"))
    requires ItemCell(row).Str?
    ensures NormaliseRow(row, env).Normalised? && NormaliseRow(row, env).branch == "CHENNAI"
  {
    assert BranchCell(row) == Str("CHENNAI");
    DefaultBranch(RecordDay(row, env), ItemCell(row), SalesQty(row));
  }

  lemma DefaultBranch(day: Day, item: Cell, qty: real)
    requires item.Str?
    ensures Assemble(day, Str("CHENNAI"), item, qty).Normalised?
    ensures Assemble(day, Str("CHENNAI"), item, qty).branch == "CHENNAI"
  {
    assert Trim("CHENNAI") == "CHENNAI" by { TrimUnchanged("CHENNAI"); }
    assert Upper("CHENNAI") == "CHENNAI";
  }

  /** A truthy branch column that is not a string makes the row throw. */
  lemma BranchNumberThrows(row: RowObj, env: Env, n: int)
    requires Get(row, "Branch") == Num(n) && n != 0
    ensures NormaliseRow(row, env) == Threw
  {
  }

  /** Different (date, branch, item) triples can share a key when a branch or
      item contains a dash. */
  lemma KeysCollide()
    ensures Key("2024-03-01", "A-B", "C") == Key("2024-03-01", "A", "B-C")
  {
  }

  /** A new record's billing and opening stock are `SKU Opening stock`, or the
      row's quantity when that column is empty, zero or not a number. */
  lemma NewRecordSeed(row: RowObj, date: string, branch: string, item: string, qty: real)
    requires NewRecord(row, date, branch, item, qty).Some?
    ensures var r := NewRecord(row, date, branch, item, qty).value;
      && r.billing == r.skuOpeningStock
      && (ParseFloat(Get(row, "SKU Opening stock")).Some? && ParseFloat(Get(row, "SKU Opening stock")).value != 0.0
          ==> r.billing == ParseFloat(Get(row, "SKU Opening stock")).value)
      && (!(ParseFloat(Get(row, "SKU Opening stock")).Some? && ParseFloat(Get(row, "SKU Opening stock")).value != 0.0)
          ==> r.billing == qty)
      && r.recordDate == date && r.branchName == branch && r.itemCode == item
  {
  }

  /** Extraction of a new record throws exactly when the category column is
      not a string, or the star-rating or tonnage column is a truthy
      non-string. */
  lemma NewRecordThrows(row: RowObj, date: string, branch: string, item: string, qty: real)
    ensures NewRecord(row, date, branch, item, qty).None? <==>
      !Or(Or(Get(row, "Catg."), Get(row, "Cat E")), Str("")).Str?
      || !Or(Get(row, "Star Rating"), Str("")).Str?
      || !Or(Get(row, "Ton"), Str("")).Str?
  {
  }
}
