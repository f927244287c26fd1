/** Rate tables, the rows they are stored as, the DTOs they are served as, and
    the rebuilding of a table from stored rows. */
module Tables {
  import opened Wrappers
  import opened Codes
  import opened Errors

  /** A rate: a BigDecimal the core never computes with. */
  type Rate = real

  /** One entry of a rate table: target code and rate. */
  datatype Entry = Entry(code: Code, rate: Rate)

  predicate DistinctCodes(t: seq<Entry>) {
    forall i, j :: 0 <= i < j < |t| ==> t[i].code != t[j].code
  }

  /** A `Map<String, BigDecimal>` from target code to rate, kept as its
      entries in iteration order; a map holds each key once. */
  type RateTable = t: seq<Entry> | DistinctCodes(t)

  predicate HasCode(t: seq<Entry>, code: Code) {
    exists i :: 0 <= i < |t| && t[i].code == code
  }

  /** A persisted ExchangeRate row: base currency, target code, rate. */
  datatype RateRow = RateRow(base: Code, target: Code, rate: Rate)

  /** ExchangeRateDto: base code, target code, rate. */
  datatype RateDto = RateDto(baseCurrencyCode: Code, currencyCode: Code, rate: Rate)

  predicate DistinctTargets(rows: seq<RateRow>) {
    forall i, j :: 0 <= i < j < |rows| ==> rows[i].target != rows[j].target
  }

  /** The entries rows carry, in row order. */
  function Project(rows: seq<RateRow>): (t: seq<Entry>)
    ensures |t| == |rows|
  {
    seq(|rows|, i requires 0 <= i < |rows| => Entry(rows[i].target, rows[i].rate))
  }

  /** The rows saved for a fetched table (`mapApiResponseToEntities`): one per
      entry, all under `base`, carrying the table's entries in order. */
  function RowsFor(base: Code, t: RateTable): (rows: seq<RateRow>)
    ensures forall r :: r in rows ==> r.base == base
    ensures Project(rows) == t
    ensures DistinctTargets(rows)
  {
    seq(|t|, i requires 0 <= i < |t| => RateRow(base, t[i].code, t[i].rate))
  }

  /** The DTO list served for a table: one DTO per entry, in entry order, each
      carrying the base code. */
  function Dtos(base: Code, t: RateTable): (dtos: seq<RateDto>)
    ensures |dtos| == |t|
    ensures forall i :: 0 <= i < |t| ==>
      dtos[i].baseCurrencyCode == base && Entry(dtos[i].currencyCode, dtos[i].rate) == t[i]
  {
    seq(|t|, i requires 0 <= i < |t| => RateDto(base, t[i].code, t[i].rate))
  }

  /** `findByCurrency`: the stored rows of one base currency, in store order. */
  function RowsOf(rows: seq<RateRow>, base: Code): (r: seq<RateRow>)
    ensures forall x :: x in r <==> x in rows && x.base == base
    ensures |r| <= |rows|
  {
    if rows == [] then []
    else (if rows[0].base == base then [rows[0]] else []) + RowsOf(rows[1..], base)
  }

  lemma {:induction false} RowsOfAppend(a: seq<RateRow>, b: seq<RateRow>, base: Code)
    ensures RowsOf(a + b, base) == RowsOf(a, base) + RowsOf(b, base)
  {
    if a == [] {
      assert a + b == b;
    } else {
      assert (a + b)[1..] == a[1..] + b;
      RowsOfAppend(a[1..], b, base);
    }
  }

  lemma {:induction false} RowsOfAllBase(rows: seq<RateRow>, base: Code)
    requires forall r :: r in rows ==> r.base == base
    ensures RowsOf(rows, base) == rows
  {
    if rows != [] {
      RowsOfAllBase(rows[1..], base);
    }
  }

  lemma RowsOfOtherBase(rows: seq<RateRow>, base: Code)
    requires forall r :: r in rows ==> r.base != base
    ensures RowsOf(rows, base) == []
  {
    if RowsOf(rows, base) != [] {
      assert RowsOf(rows, base)[0] in RowsOf(rows, base);
    }
  }

  /** Rows appended for a table beside older rows of the same base repeat a
      target as soon as the table has a code some older row already has. */
  lemma AppendRepeatsTarget(before: seq<RateRow>, base: Code, t: RateTable, x: Code)
    requires exists r :: r in before && r.target == x
    requires HasCode(t, x)
    ensures !DistinctTargets(before + RowsFor(base, t))
  {
    var r :| r in before && r.target == x;
    var j :| 0 <= j < |before| && before[j] == r;
    var i :| 0 <= i < |t| && t[i].code == x;
    var all := before + RowsFor(base, t);
    assert all[j].target == all[|before| + i].target;
  }

  /** `Collectors.toMap(ExchangeRate::getCode, ExchangeRate::getRate)` over
      rows taken in order: the first row whose target was already seen throws. */
  function BuildTable(rows: seq<RateRow>): (r: Result<RateTable, Error>)
    ensures r.Failure? ==> r.error.OtherException?
    ensures r.Failure? ==> exists i, j :: 0 <= i < j < |rows| && rows[i].target == rows[j].target
                                         && r.error == DuplicateKey(rows[j].target)
    ensures r.Success? ==> r.value == Project(rows)
  {
    if rows == [] then Success([])
    else
      var n := |rows| - 1;
      match BuildTable(rows[..n])
      case Failure(e) =>
        assert forall i :: 0 <= i < n ==> rows[..n][i] == rows[i];
        Failure(e)
      case Success(t) =>
        var last := rows[n];
        if HasCode(t, last.target) then
          assert forall i :: 0 <= i < n ==> t[i].code == rows[i].target;
          Failure(DuplicateKey(last.target))
        else
          assert Project(rows) == t + [Entry(last.target, last.rate)];
          Success(t + [Entry(last.target, last.rate)])
  }

  /** Rebuilding succeeds exactly when no two rows share a target code, and
      then yields the rows' entries in order. */
  lemma BuildTableSpec(rows: seq<RateRow>)
    ensures BuildTable(rows).Success? <==> DistinctTargets(rows)
    ensures BuildTable(rows).Success? ==> BuildTable(rows).value == Project(rows)
  {
    var r := BuildTable(rows);
    if r.Success? {
      forall i, j | 0 <= i < j < |rows|
        ensures rows[i].target != rows[j].target
      {
        assert r.value[i].code == rows[i].target && r.value[j].code == rows[j].target;
      }
    }
  }

  /** Round trip: the rows saved for a table rebuild exactly that table. */
  lemma BuildTableOfRowsFor(base: Code, t: RateTable)
    ensures BuildTable(RowsFor(base, t)) == Success(t)
  {
    BuildTableSpec(RowsFor(base, t));
  }

  /** Rows sharing a target code make the rebuild throw. */
  lemma BuildTableRejectsRepeatedTarget(rows: seq<RateRow>, i: int, j: int)
    requires 0 <= i < j < |rows| && rows[i].target == rows[j].target
    ensures BuildTable(rows).Failure? && BuildTable(rows).error.OtherException?
  {
    BuildTableSpec(rows);
  }
}
