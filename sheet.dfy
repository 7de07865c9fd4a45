/**
  Sheet preparation in the upload handler (routes/upload.js:132-153): the
  decoded sheet (an array of rows of cells, the first row being headers)
  becomes a list of row objects keyed by trimmed header text.
*/
module Sheet {
  import opened Js

  /** At most this many data rows are processed per upload. */
  const MAX_RECORDS: nat := 10000

  const NO_DATA: string := "No data found in the uploaded file."

  /** A JavaScript object built from one sheet row: its own keys in insertion
      order and the value stored under each key. */
  datatype RowObj = RowObj(keys: seq<string>, vals: map<string, Cell>)

  predicate Distinct(s: seq<string>) {
    forall i, j | 0 <= i < j < |s| :: s[i] != s[j]
  }

  /** The keys list and the value map describe the same set of distinct keys. */
  ghost predicate Valid(r: RowObj) {
    Distinct(r.keys) && forall k :: k in r.vals <==> k in r.keys
  }

  /** `obj[k]`: undefined for a key the object does not have. */
  function Get(r: RowObj, k: string): Cell {
    if k in r.vals then r.vals[k] else Undefined
  }

  /** `obj[k] = v`: a new key goes to the end, an existing key keeps its place. */
  function Put(r: RowObj, k: string, v: Cell): RowObj {
    RowObj(if k in r.vals then r.keys else r.keys + [k], r.vals[k := v])
  }

  // ---------------------------------------------------------------------
  // The order of `Object.keys`
  // ---------------------------------------------------------------------

  /** A key that JavaScript orders as an array index: the canonical decimal
      text (no leading zero) of an integer below 2^32 - 1. */
  predicate IsIndexKey(k: string) {
    |k| > 0 && AllDigits(k) && (|k| == 1 || k[0] != '0') && DigitsValue(k) < 0xFFFF_FFFF
  }

  /** The number an index key stands for. */
  function KeyNumber(k: string): nat {
    if IsIndexKey(k) then DigitsValue(k) else 0
  }

  /** The index keys, in the order given. */
  function IndexKeys(keys: seq<string>): seq<string>
    decreases |keys|
  {
    if |keys| == 0 then []
    else IndexKeys(keys[..|keys| - 1]) + (if IsIndexKey(keys[|keys| - 1]) then [keys[|keys| - 1]] else [])
  }

  /** The other keys, in the order given. */
  function NamedKeys(keys: seq<string>): seq<string>
    decreases |keys|
  {
    if |keys| == 0 then []
    else NamedKeys(keys[..|keys| - 1]) + (if IsIndexKey(keys[|keys| - 1]) then [] else [keys[|keys| - 1]])
  }

  /** Inserting a key after every key of no larger number. */
  function InsertKey(k: string, s: seq<string>): (r: seq<string>)
    ensures multiset(r) == multiset(s) + multiset{k}
    decreases |s|
  {
    if |s| == 0 then [k]
    else if KeyNumber(s[0]) <= KeyNumber(k) then
      assert s == [s[0]] + s[1..];
      [s[0]] + InsertKey(k, s[1..])
    else [k] + s
  }

  /** Keys in ascending numeric order. */
  function SortKeys(s: seq<string>): seq<string>
    decreases |s|
  {
    if |s| == 0 then [] else InsertKey(s[|s| - 1], SortKeys(s[..|s| - 1]))
  }

  /** `Object.keys(obj)`: the array-index keys in ascending numeric order,
      then the other keys in the order they were added. */
  function OwnKeys(r: RowObj): seq<string> {
    SortKeys(IndexKeys(r.keys)) + NamedKeys(r.keys)
  }

  /** `row[index]`: undefined past the end of a short row. */
  function CellAt(row: seq<Cell>, i: nat): Cell {
    if i < |row| then row[i] else Undefined
  }

  /** `row[index] || ''` */
  function Normal(c: Cell): Cell {
    if Truthy(c) then c else Str("")
  }

  /** `data[0].map(header => String(header).trim())` */
  function Headers(first: seq<Cell>): (h: seq<string>)
    ensures |h| == |first|
  {
    seq(|first|, i requires 0 <= i < |first| => Trim(CellString(first[i])))
  }

  /** `headers.forEach((header, index) => { obj[header] = row[index] || '' })` */
  function BuildRow(headers: seq<string>, row: seq<Cell>): RowObj
    decreases |headers|
  {
    if |headers| == 0 then RowObj([], map[])
    else
      var n := |headers| - 1;
      Put(BuildRow(headers[..n], row), headers[n], Normal(CellAt(row, n)))
  }

  /** `Object.values(row).some(value => value !== '')` */
  predicate HasContent(r: RowObj) {
    exists k :: k in r.vals && r.vals[k] != Str("")
  }

  /** `.filter(...)` keeping the rows with content, in order. */
  function Keep(rows: seq<RowObj>): seq<RowObj>
    decreases |rows|
  {
    if |rows| == 0 then []
    else (if HasContent(rows[0]) then [rows[0]] else []) + Keep(rows[1..])
  }

  /** `data.splice(MAX_RECORDS + 1)` when the sheet is longer than MAX_RECORDS. */
  function Truncate(data: seq<seq<Cell>>): seq<seq<Cell>> {
    if |data| > MAX_RECORDS then data[..MAX_RECORDS + 1] else data
  }

  /** The data rows of a sheet as row objects, empty rows dropped. */
  function Prepare(data: seq<seq<Cell>>): Result<seq<RowObj>> {
    if |data| < 2 then Failure(NO_DATA)
    else
      var kept := Truncate(data);
      var headers := Headers(kept[0]);
      var body := kept[1..];
      Success(Keep(seq(|body|, i requires 0 <= i < |body| => BuildRow(headers, body[i]))))
  }

  // ---------------------------------------------------------------------
  // Lemmas
  // ---------------------------------------------------------------------

  /** Every row object has distinct keys, exactly the headers. */
  lemma {:induction false} BuildRowKeys(headers: seq<string>, row: seq<Cell>)
    ensures Valid(BuildRow(headers, row))
    ensures forall k :: k in BuildRow(headers, row).vals <==> k in headers
    decreases |headers|
  {
    if |headers| > 0 {
      var n := |headers| - 1;
      var prev := headers[..n];
      BuildRowKeys(prev, row);
      assert headers == prev + [headers[n]];
    }
  }

  /** Each header holds the normalised cell of its LAST column: a repeated
      header is overwritten by the later column. */
  lemma {:induction false} BuildRowLast(headers: seq<string>, row: seq<Cell>)
    ensures forall j | 0 <= j < |headers| && headers[j] !in headers[j + 1..] ::
      headers[j] in BuildRow(headers, row).vals &&
      BuildRow(headers, row).vals[headers[j]] == Normal(CellAt(row, j))
    decreases |headers|
  {
    if |headers| > 0 {
      var n := |headers| - 1;
      var prev := headers[..n];
      BuildRowLast(prev, row);
      var b := BuildRow(prev, row);
      assert BuildRow(headers, row) == Put(b, headers[n], Normal(CellAt(row, n)));
      forall j | 0 <= j < |headers| && headers[j] !in headers[j + 1..]
        ensures headers[j] in BuildRow(headers, row).vals
        ensures BuildRow(headers, row).vals[headers[j]] == Normal(CellAt(row, j))
      {
        if j < n {
          assert headers[j] != headers[n] by {
            assert headers[n] == headers[j + 1..][n - j - 1];
          }
          assert headers[j] !in prev[j + 1..] by {
            assert headers[j + 1..] == prev[j + 1..] + [headers[n]];
          }
          assert prev[j] == headers[j];
          assert headers[j] in b.vals && b.vals[headers[j]] == Normal(CellAt(row, j));
        }
      }
    }
  }

  /** In a list of distinct strings no entry occurs again later. */
  lemma DistinctNotLater(s: seq<string>, j: nat)
    requires Distinct(s) && j < |s|
    ensures s[j] !in s[j + 1..]
  {
    var t := s[j + 1..];
    forall i | 0 <= i < |t| ensures t[i] != s[j] {
      assert t[i] == s[j + 1 + i];
    }
  }

  /** A normalised value is either a truthy cell or `''`. */
  lemma NormalValues(headers: seq<string>, row: seq<Cell>)
    ensures forall k | k in BuildRow(headers, row).vals ::
      Truthy(BuildRow(headers, row).vals[k]) || BuildRow(headers, row).vals[k] == Str("")
  {
    NormalValuesRec(headers, row);
  }

  lemma {:induction false} NormalValuesRec(headers: seq<string>, row: seq<Cell>)
    ensures forall k | k in BuildRow(headers, row).vals ::
      Truthy(BuildRow(headers, row).vals[k]) || BuildRow(headers, row).vals[k] == Str("")
    decreases |headers|
  {
    if |headers| > 0 {
      NormalValuesRec(headers[..|headers| - 1], row);
    }
  }

  /** With distinct headers a row is kept exactly when one of its cells under
      a header is truthy (a numeric 0 counts as empty). */
  lemma DistinctHeadersContent(headers: seq<string>, row: seq<Cell>)
    requires Distinct(headers)
    ensures HasContent(BuildRow(headers, row)) <==>
      exists j :: 0 <= j < |headers| && Truthy(CellAt(row, j))
  {
    var r := BuildRow(headers, row);
    BuildRowKeys(headers, row);
    BuildRowLast(headers, row);
    NormalValues(headers, row);
    forall j | 0 <= j < |headers| ensures headers[j] !in headers[j + 1..] {
      DistinctNotLater(headers, j);
    }
    if HasContent(r) {
      var k :| k in r.vals && r.vals[k] != Str("");
      var j :| 0 <= j < |headers| && headers[j] == k;
      assert r.vals[headers[j]] == Normal(CellAt(row, j));
    }
    if exists j :: 0 <= j < |headers| && Truthy(CellAt(row, j)) {
      var j :| 0 <= j < |headers| && Truthy(CellAt(row, j));
      assert r.vals[headers[j]] == CellAt(row, j);
      assert Truthy(r.vals[headers[j]]);
    }
  }

  /** Two columns under one header: the later, zero cell hides the earlier
      non-zero one, and the row is dropped. */
  lemma DuplicateHeaderHidesCell()
    ensures !HasContent(BuildRow(["Qty", "Qty"], [Num(5), Num(0)]))
  {
    var r := BuildRow(["Qty", "Qty"], [Num(5), Num(0)]);
    assert r.vals == map["Qty" := Str("")];
  }

  /** The filter keeps exactly the rows with content. */
  lemma {:induction false} KeepMembers(rows: seq<RowObj>)
    ensures |Keep(rows)| <= |rows|
    ensures forall x :: x in Keep(rows) <==> x in rows && HasContent(x)
    decreases |rows|
  {
    if |rows| > 0 {
      KeepMembers(rows[1..]);
      assert rows == [rows[0]] + rows[1..];
    }
  }

  /** Fewer than two sheet rows is the only error, with the "No data found"
      message; otherwise at most MAX_RECORDS row objects come out, each with
      content, and every data row within the limit that has content is one
      of them. */
  lemma PrepareOutcome(data: seq<seq<Cell>>)
    ensures Prepare(data).Failure? <==> |data| < 2
    ensures Prepare(data).Failure? ==> Prepare(data).error == NO_DATA
    ensures Prepare(data).Success? ==>
      var rows := Prepare(data).value;
      && |rows| <= MAX_RECORDS
      && |rows| <= |data| - 1
      && (forall r | r in rows :: HasContent(r))
      && (forall i | 1 <= i < |data| && i <= MAX_RECORDS ::
            HasContent(BuildRow(Headers(data[0]), data[i])) ==> BuildRow(Headers(data[0]), data[i]) in rows)
  {
    if |data| >= 2 {
      var kept := Truncate(data);
      var headers := Headers(kept[0]);
      var body := kept[1..];
      var built := seq(|body|, i requires 0 <= i < |body| => BuildRow(headers, body[i]));
      KeepMembers(built);
      assert kept[0] == data[0];
      forall i | 1 <= i < |data| && i <= MAX_RECORDS
        ensures BuildRow(headers, data[i]) in built
      {
        assert body[i - 1] == data[i];
        assert built[i - 1] == BuildRow(headers, data[i]);
      }
    }
  }

  // ---------------------------------------------------------------------
  // Lemmas on the key order
  // ---------------------------------------------------------------------

  predicate AscendingKeys(s: seq<string>) {
    forall i, j | 0 <= i < j < |s| :: KeyNumber(s[i]) <= KeyNumber(s[j])
  }

  predicate AllIndex(s: seq<string>) {
    forall i | 0 <= i < |s| :: IsIndexKey(s[i])
  }

  lemma {:induction false} InsertKeyAscending(k: string, s: seq<string>)
    requires AscendingKeys(s)
    ensures AscendingKeys(InsertKey(k, s))
    decreases |s|
  {
    if |s| > 0 && KeyNumber(s[0]) <= KeyNumber(k) {
      InsertKeyAscending(k, s[1..]);
      var r := InsertKey(k, s[1..]);
      forall j | 0 <= j < |r| ensures KeyNumber(s[0]) <= KeyNumber(r[j]) {
        assert r[j] in multiset(r);
        if r[j] != k {
          assert r[j] in multiset(s[1..]);
          var m :| 0 <= m < |s[1..]| && s[1..][m] == r[j];
          assert s[m + 1] == r[j];
        }
      }
      assert InsertKey(k, s) == [s[0]] + r;
    }
  }

  lemma {:induction false} SortKeysAscending(s: seq<string>)
    ensures AscendingKeys(SortKeys(s))
    decreases |s|
  {
    if |s| > 0 {
      SortKeysAscending(s[..|s| - 1]);
      InsertKeyAscending(s[|s| - 1], SortKeys(s[..|s| - 1]));
    }
  }

  lemma {:induction false} SortKeysPermutes(s: seq<string>)
    ensures multiset(SortKeys(s)) == multiset(s)
    decreases |s|
  {
    if |s| > 0 {
      SortKeysPermutes(s[..|s| - 1]);
      assert s == s[..|s| - 1] + [s[|s| - 1]];
    }
  }

  /** The two filters split the keys between them. */
  lemma SplitKeys(keys: seq<string>)
    ensures multiset(IndexKeys(keys)) + multiset(NamedKeys(keys)) == multiset(keys)
    ensures AllIndex(IndexKeys(keys))
    ensures forall i | 0 <= i < |NamedKeys(keys)| :: !IsIndexKey(NamedKeys(keys)[i])
  {
    SplitMultiset(keys);
    IndexKeysIndex(keys);
    NamedKeysNamed(keys);
  }

  lemma {:induction false} SplitMultiset(keys: seq<string>)
    ensures multiset(IndexKeys(keys)) + multiset(NamedKeys(keys)) == multiset(keys)
    decreases |keys|
  {
    if |keys| > 0 {
      var prev := keys[..|keys| - 1];
      var x := keys[|keys| - 1];
      SplitMultiset(prev);
      assert keys == prev + [x];
      assert multiset(keys) == multiset(prev) + multiset{x};
    }
  }

  lemma {:induction false} IndexKeysIndex(keys: seq<string>)
    ensures AllIndex(IndexKeys(keys))
    decreases |keys|
  {
    if |keys| > 0 {
      IndexKeysIndex(keys[..|keys| - 1]);
    }
  }

  lemma {:induction false} NamedKeysNamed(keys: seq<string>)
    ensures forall i | 0 <= i < |NamedKeys(keys)| :: !IsIndexKey(NamedKeys(keys)[i])
    decreases |keys|
  {
    if |keys| > 0 {
      NamedKeysNamed(keys[..|keys| - 1]);
    }
  }

  lemma {:induction false} NamedKeysAppend(a: seq<string>, b: seq<string>)
    ensures NamedKeys(a + b) == NamedKeys(a) + NamedKeys(b)
    decreases |b|
  {
    if |b| == 0 {
      assert a + b == a;
    } else {
      var n := |b| - 1;
      NamedKeysAppend(a, b[..n]);
      assert (a + b)[..|a + b| - 1] == a + b[..n];
    }
  }

  lemma {:induction false} NamedKeysOfIndex(s: seq<string>)
    requires AllIndex(s)
    ensures NamedKeys(s) == []
    decreases |s|
  {
    if |s| > 0 {
      NamedKeysOfIndex(s[..|s| - 1]);
    }
  }

  lemma {:induction false} NamedKeysOfNamed(s: seq<string>)
    requires forall i | 0 <= i < |s| :: !IsIndexKey(s[i])
    ensures NamedKeys(s) == s
    decreases |s|
  {
    if |s| > 0 {
      NamedKeysOfNamed(s[..|s| - 1]);
    }
  }

  /** `Object.keys` lists every own key once: the same keys as the row,
      each as often. */
  lemma OwnKeysPermutes(r: RowObj)
    ensures multiset(OwnKeys(r)) == multiset(r.keys)
    ensures forall k :: k in OwnKeys(r) <==> k in r.keys
  {
    SplitKeys(r.keys);
    SortKeysPermutes(IndexKeys(r.keys));
    assert multiset(OwnKeys(r)) == multiset(r.keys);
    forall k ensures k in OwnKeys(r) <==> k in r.keys {
      assert k in OwnKeys(r) <==> k in multiset(OwnKeys(r));
      assert k in r.keys <==> k in multiset(r.keys);
    }
  }

  /** `Object.keys` lists array-index keys before all others and in ascending
      numeric order, and the other keys in the order they were added. */
  lemma OwnKeysOrder(r: RowObj)
    ensures var o := OwnKeys(r);
      && (forall i, j | 0 <= i < j < |o| && IsIndexKey(o[j]) :: IsIndexKey(o[i]) && KeyNumber(o[i]) <= KeyNumber(o[j]))
      && NamedKeys(o) == NamedKeys(r.keys)
  {
    var idx := SortKeys(IndexKeys(r.keys));
    var named := NamedKeys(r.keys);
    SplitKeys(r.keys);
    SortKeysPermutes(IndexKeys(r.keys));
    SortKeysAscending(IndexKeys(r.keys));
    assert AllIndex(idx) by {
      forall i | 0 <= i < |idx| ensures IsIndexKey(idx[i]) {
        assert idx[i] in multiset(IndexKeys(r.keys));
        var m :| 0 <= m < |IndexKeys(r.keys)| && IndexKeys(r.keys)[m] == idx[i];
      }
    }
    var o := idx + named;
    forall i, j | 0 <= i < j < |o| && IsIndexKey(o[j]) ensures IsIndexKey(o[i]) && KeyNumber(o[i]) <= KeyNumber(o[j]) {
      assert j < |idx|;
      assert o[i] == idx[i] && o[j] == idx[j];
    }
    NamedKeysAppend(idx, named);
    NamedKeysOfIndex(idx);
    NamedKeysOfNamed(named);
    assert [] + named == named;
  }

  /** Of a named key and an index key, `Object.keys` lists the index key first. */
  lemma NamedFirst(a: string, b: string, vals: map<string, Cell>)
    requires !IsIndexKey(a) && IsIndexKey(b)
    ensures OwnKeys(RowObj([a, b], vals)) == [b, a]
  {
    assert IndexKeys([a, b]) == [b] by {
      assert [a, b][..1] == [a] && [a][..0] == [];
      assert IndexKeys([a]) == IndexKeys([]) + [];
    }
    assert NamedKeys([a, b]) == [a] by {
      assert [a, b][..1] == [a] && [a][..0] == [];
      assert NamedKeys([a]) == NamedKeys([]) + [a];
    }
    assert SortKeys([b]) == [b] by {
      assert [b][..0] == [];
      assert SortKeys([b]) == InsertKey(b, SortKeys([]));
    }
  }
}
