/**
 * The pure part of the loader: from the parsed CSV (a header and rows of optional
 * cells) to the list of at most 50 records that will be inserted.
 */
module Preparation {
  import opened Wrappers
  import opened Text
  import opened Batching

  /** A parsed CSV cell; None is a missing value (pandas NaN). */
  type Cell = Option<string>

  /** A parsed CSV line, positionally aligned with the header. */
  type Row = seq<Cell>

  /** A calendar date as produced by the date parser. */
  datatype Date = Date(year: int, month: int, day: int)

  /** One row to insert: (customer_name, address, birth_date, airflow_run_id). */
  datatype Record = Record(customerName: string, address: Option<string>, birthDate: Option<Date>, runId: string)

  datatype PrepareError =
    /** The ValueError raised when required columns are missing: the missing names and the normalised header. */
    | MissingColumns(missing: set<string>, found: seq<string>)
    /**
     * A required name that labels several columns: the selection then yields all of them, and
     * the single-column step for that name (the date conversion, the name strip) raises.
     */
    | DuplicateColumn(name: string)

  const NameColumn: string := "customer_name"
  const AddressColumn: string := "address"
  const BirthDateColumn: string := "birth_date"
  const Required: set<string> := {NameColumn, AddressColumn, BirthDateColumn}

  /** df.head(50): the most records one load prepares. */
  const MaxRecords: nat := 50

  /** str(c).strip().lower() for one header name. */
  function NormalizeName(h: string): string {
    Lower(Strip(h))
  }

  /** Normalising a header name twice is normalising it once. */
  lemma NormalizeIdempotent(h: string)
    ensures NormalizeName(NormalizeName(h)) == NormalizeName(h)
  {
    var t := Strip(h);
    var l := Lower(t);
    if l != [] {
      LowerKeepsSpace(t, 0);
      LowerKeepsSpace(t, |t| - 1);
    }
    StripOfStripped(l);
    LowerOfLower(l);
  }

  /** df.columns after normalisation: one normalised name per header entry, in order. */
  function NormalizeHeader(header: seq<string>): (cols: seq<string>)
    ensures |cols| == |header|
    ensures forall k :: 0 <= k < |header| ==> cols[k] == NormalizeName(header[k])
  {
    seq(|header|, k requires 0 <= k < |header| => NormalizeName(header[k]))
  }

  /** expected - set(df.columns) */
  function MissingFrom(cols: seq<string>): set<string> {
    set c | c in Required && c !in cols
  }

  /** The position of the first column with the given name. */
  function IndexOf(cols: seq<string>, name: string): (i: nat)
    requires name in cols
    ensures i < |cols| && cols[i] == name
    ensures name !in cols[..i]
  {
    if cols[0] == name then 0
    else
      var j := IndexOf(cols[1..], name);
      assert cols[..j + 1] == [cols[0]] + cols[1..][..j];
      j + 1
  }

  /** The test "this column carries the name", as a function value. */
  function Named(name: string): string -> bool {
    c => c == name
  }

  /** More than one column carries the name. */
  predicate Duplicated(cols: seq<string>, name: string) {
    Count(cols, Named(name)) > 1
  }

  lemma {:induction false} CountAppend<A>(a: seq<A>, b: seq<A>, keep: A -> bool)
    ensures Count(a + b, keep) == Count(a, keep) + Count(b, keep)
  {
    if a == [] {
      assert a + b == b;
    } else {
      assert (a + b)[0] == a[0] && (a + b)[1..] == a[1..] + b;
      CountAppend(a[1..], b, keep);
    }
  }

  lemma {:induction false} CountNamedZero(s: seq<string>, name: string)
    ensures Count(s, Named(name)) == 0 <==> name !in s
  {
    if s != [] {
      CountNamedZero(s[1..], name);
      assert s == [s[0]] + s[1..];
    }
  }

  /** The columns before the first one carrying the name, that one, and the rest. */
  lemma SplitAtFirst(cols: seq<string>, name: string) returns (f: nat)
    requires name in cols
    ensures f < |cols| && cols[f] == name
    ensures forall m :: 0 <= m < f ==> cols[m] != name
    ensures Count(cols, Named(name)) == 1 + Count(cols[f + 1..], Named(name))
  {
    f := IndexOf(cols, name);
    forall m | 0 <= m < f
      ensures cols[m] != name
    {
      assert cols[..f][m] == cols[m];
    }
    var before, after := cols[..f], cols[f + 1..];
    assert cols == before + ([cols[f]] + after);
    CountAppend(before, [cols[f]] + after, Named(name));
    CountAppend([cols[f]], after, Named(name));
    CountNamedZero(before, name);
    assert Count([cols[f]], Named(name)) == 1 by {
      assert [cols[f]][1..] == [];
    }
  }

  /** A name is duplicated exactly when two different positions carry it. */
  lemma DuplicatedIff(cols: seq<string>, name: string)
    ensures Duplicated(cols, name) <==>
      exists i, j :: 0 <= i < j < |cols| && cols[i] == name && cols[j] == name
  {
    if Duplicated(cols, name) {
      CountNamedZero(cols, name);
      var f := SplitAtFirst(cols, name);
      CountNamedZero(cols[f + 1..], name);
      var m :| 0 <= m < |cols[f + 1..]| && cols[f + 1..][m] == name;
      assert cols[f + 1 + m] == name;
    }
    if exists i, j :: 0 <= i < j < |cols| && cols[i] == name && cols[j] == name {
      var i, j :| 0 <= i < j < |cols| && cols[i] == name && cols[j] == name;
      var f := SplitAtFirst(cols, name);
      assert cols[f + 1..][j - f - 1] == name;
      CountNamedZero(cols[f + 1..], name);
    }
  }

  /**
   * The number of values in each record tuple: the customer name, one value per column named
   * address, the birth date and the run id (the name and the date are single columns whenever
   * preparation succeeds).
   */
  function TupleWidth(cols: seq<string>): nat {
    3 + Count(cols, Named(AddressColumn))
  }

  /** With an address column present, the tuples have four values exactly when it is not duplicated. */
  lemma WidthIff(cols: seq<string>)
    requires AddressColumn in cols
    ensures TupleWidth(cols) == 4 <==> !Duplicated(cols, AddressColumn)
  {
    CountNamedZero(cols, AddressColumn);
  }

  /** Where the three required columns sit in a row. */
  datatype Projection = Projection(nameAt: nat, addressAt: nat, birthDateAt: nat)

  /** df[["customer_name", "address", "birth_date"]] */
  function ProjectionOf(cols: seq<string>): Projection
    requires MissingFrom(cols) == {}
  {
    assert NameColumn in cols && AddressColumn in cols && BirthDateColumn in cols by {
      assert NameColumn !in MissingFrom(cols) && AddressColumn !in MissingFrom(cols) && BirthDateColumn !in MissingFrom(cols);
    }
    Projection(IndexOf(cols, NameColumn), IndexOf(cols, AddressColumn), IndexOf(cols, BirthDateColumn))
  }

  /** A cell of a row; a row shorter than the header reads as missing there. */
  function CellAt(row: Row, j: nat): Cell {
    if j < |row| then row[j] else None
  }

  /** astype(str): a missing value becomes the text "nan". */
  function AsText(c: Cell): string {
    match c
    case None => "nan"
    case Some(s) => s
  }

  /** pd.to_datetime(..., errors="coerce").dt.date for one cell: missing or unparseable gives None. */
  function DateOf(c: Cell, parseDate: string -> Option<Date>): Option<Date> {
    match c
    case None => None
    case Some(s) => parseDate(s)
  }

  /** The record a row becomes, before the empty-name filter. */
  function ToRecord(row: Row, p: Projection, runId: string, parseDate: string -> Option<Date>): Record {
    Record(Strip(AsText(CellAt(row, p.nameAt))), CellAt(row, p.addressAt), DateOf(CellAt(row, p.birthDateAt), parseDate), runId)
  }

  /** df["customer_name"] != "" after the strip. */
  predicate Kept(row: Row, p: Projection) {
    Strip(AsText(CellAt(row, p.nameAt))) != ""
  }

  /** The elements of s that keep accepts, each mapped through f, in order. */
  function FilterMap<A, B>(s: seq<A>, keep: A -> bool, f: A -> B): seq<B> {
    if s == [] then []
    else (if keep(s[0]) then [f(s[0])] else []) + FilterMap(s[1..], keep, f)
  }

  /** The number of elements of s that keep accepts. */
  function Count<A>(s: seq<A>, keep: A -> bool): (n: nat)
    ensures n <= |s|
  {
    if s == [] then 0 else (if keep(s[0]) then 1 else 0) + Count(s[1..], keep)
  }

  lemma {:induction false} FilterMapLength<A, B>(s: seq<A>, keep: A -> bool, f: A -> B)
    ensures |FilterMap(s, keep, f)| == Count(s, keep)
  {
    if s != [] {
      FilterMapLength(s[1..], keep, f);
    }
  }

  /** Element k of a filter-map is the image of the (k+1)-th accepted element. */
  lemma {:induction false} FilterMapAt<A, B>(s: seq<A>, keep: A -> bool, f: A -> B, k: nat) returns (i: nat)
    requires k < |FilterMap(s, keep, f)|
    ensures i < |s| && keep(s[i])
    ensures Count(s[..i], keep) == k
    ensures FilterMap(s, keep, f)[k] == f(s[i])
  {
    var rest := FilterMap(s[1..], keep, f);
    var k': nat;
    if keep(s[0]) {
      assert FilterMap(s, keep, f) == [f(s[0])] + rest;
      if k == 0 {
        assert s[..0] == [];
        return 0;
      }
      k' := k - 1;
    } else {
      assert FilterMap(s, keep, f) == rest;
      k' := k;
    }
    var j := FilterMapAt(s[1..], keep, f, k');
    i := j + 1;
    assert s[..i][1..] == s[1..][..j];
    assert s[..i][0] == s[0];
  }

  /** A row that passes the filter gives a non-empty, already stripped name. */
  lemma KeptRecord(row: Row, p: Projection, runId: string, parseDate: string -> Option<Date>)
    requires Kept(row, p)
    ensures ToRecord(row, p, runId, parseDate).customerName != ""
    ensures Strip(ToRecord(row, p, runId, parseDate).customerName) == ToRecord(row, p, runId, parseDate).customerName
  {
    StripIdempotent(AsText(CellAt(row, p.nameAt)));
  }

  /** The filter as a function value. */
  function KeepRow(p: Projection): Row -> bool {
    row => Kept(row, p)
  }

  /** The conversion to a record as a function value. */
  function RowToRecord(p: Projection, runId: string, parseDate: string -> Option<Date>): Row -> Record {
    row => ToRecord(row, p, runId, parseDate)
  }

  /** The number of rows that pass the name filter. */
  function CountKept(rows: seq<Row>, p: Projection): nat {
    Count(rows, KeepRow(p))
  }

  /** The rows that pass the name filter, as records, in source order. */
  function Survivors(rows: seq<Row>, p: Projection, runId: string, parseDate: string -> Option<Date>): seq<Record> {
    FilterMap(rows, KeepRow(p), RowToRecord(p, runId, parseDate))
  }

  /**
   * load_data up to the list of records: normalise the header, fail if a required
   * column is missing, fail if the birth date and then if the name is not a single column,
   * project, strip the names and drop empty ones, keep the first 50.
   */
  function Prepare(header: seq<string>, rows: seq<Row>, runId: string, parseDate: string -> Option<Date>): Result<seq<Record>, PrepareError> {
    var cols := NormalizeHeader(header);
    match Check(cols)
    case Some(e) => Failure(e)
    case None => Success(FirstSurvivors(rows, ProjectionOf(cols), runId, parseDate))
  }

  /**
   * The checks on the normalised header, in the order load_data meets them: a missing required
   * column, then a birth_date that is not a single column, then such a customer_name.
   */
  function Check(cols: seq<string>): (r: Option<PrepareError>)
    ensures r.None? <==> MissingFrom(cols) == {} && !Duplicated(cols, BirthDateColumn) && !Duplicated(cols, NameColumn)
  {
    var missing := MissingFrom(cols);
    if missing != {} then Some(MissingColumns(missing, cols))
    else if Duplicated(cols, BirthDateColumn) then Some(DuplicateColumn(BirthDateColumn))
    else if Duplicated(cols, NameColumn) then Some(DuplicateColumn(NameColumn))
    else None
  }

  /** df.head(50) of the surviving records. */
  function FirstSurvivors(rows: seq<Row>, p: Projection, runId: string, parseDate: string -> Option<Date>): seq<Record> {
    var kept := Survivors(rows, p, runId, parseDate);
    kept[..Min(MaxRecords, |kept|)]
  }

  /** The column positions used for a header that has all required columns. */
  function ProjectionFor(header: seq<string>): Projection
    requires MissingFrom(NormalizeHeader(header)) == {}
  {
    ProjectionOf(NormalizeHeader(header))
  }

  /** The required names that no header entry normalises to. */
  ghost predicate Unmatched(header: seq<string>, e: string) {
    e in Required && forall h :: h in header ==> NormalizeName(h) != e
  }

  lemma MissingIffUnmatched(header: seq<string>, e: string)
    ensures e in MissingFrom(NormalizeHeader(header)) <==> Unmatched(header, e)
  {
    var cols := NormalizeHeader(header);
    if e in cols {
      var k :| 0 <= k < |cols| && cols[k] == e;
      assert header[k] in header;
    }
    if !Unmatched(header, e) && e in Required {
      var h :| h in header && NormalizeName(h) == e;
      var k :| 0 <= k < |header| && header[k] == h;
      assert cols[k] == e;
    }
  }

  /**
   * Preparation fails exactly when some required name matches no normalised header entry,
   * whatever the rows hold; the error names exactly those columns and the normalised header.
   */
  lemma PrepareFailsIffMissing(header: seq<string>, rows: seq<Row>, runId: string, parseDate: string -> Option<Date>)
    ensures (Prepare(header, rows, runId, parseDate).Failure? && Prepare(header, rows, runId, parseDate).error.MissingColumns?)
      <==> exists e :: Unmatched(header, e)
    ensures Prepare(header, rows, runId, parseDate).Failure? && Prepare(header, rows, runId, parseDate).error.MissingColumns? ==>
      && Prepare(header, rows, runId, parseDate).error.found == NormalizeHeader(header)
      && forall e :: e in Prepare(header, rows, runId, parseDate).error.missing <==> Unmatched(header, e)
  {
    var missing := MissingFrom(NormalizeHeader(header));
    forall e ensures e in missing <==> Unmatched(header, e) {
      MissingIffUnmatched(header, e);
    }
    if missing != {} {
      var e :| e in missing;
      assert Unmatched(header, e);
    }
  }

  /**
   * With every required column present, preparation fails on a duplicated birth_date first,
   * then on a duplicated customer_name, and succeeds otherwise; a duplicated address alone
   * does not stop it.
   */
  lemma PrepareFailsOnDuplicate(header: seq<string>, rows: seq<Row>, runId: string, parseDate: string -> Option<Date>)
    requires MissingFrom(NormalizeHeader(header)) == {}
    ensures var cols := NormalizeHeader(header);
      && (Duplicated(cols, BirthDateColumn) ==>
            Prepare(header, rows, runId, parseDate) == Failure(DuplicateColumn(BirthDateColumn)))
      && (!Duplicated(cols, BirthDateColumn) && Duplicated(cols, NameColumn) ==>
            Prepare(header, rows, runId, parseDate) == Failure(DuplicateColumn(NameColumn)))
      && (Prepare(header, rows, runId, parseDate).Success? <==>
            !Duplicated(cols, BirthDateColumn) && !Duplicated(cols, NameColumn))
  {
  }

  /**
   * A successful preparation yields min(50, number of rows passing the filter) records,
   * each with the run's id and a non-empty, already stripped customer name.
   */
  lemma PreparedRecords(header: seq<string>, rows: seq<Row>, runId: string, parseDate: string -> Option<Date>)
    requires Prepare(header, rows, runId, parseDate).Success?
    ensures MissingFrom(NormalizeHeader(header)) == {}
    ensures |Prepare(header, rows, runId, parseDate).value| == Min(MaxRecords, CountKept(rows, ProjectionFor(header)))
    ensures forall r :: r in Prepare(header, rows, runId, parseDate).value ==>
      r.runId == runId && r.customerName != "" && Strip(r.customerName) == r.customerName
  {
    var p := ProjectionFor(header);
    var recs := Prepare(header, rows, runId, parseDate).value;
    FilterMapLength(rows, KeepRow(p), RowToRecord(p, runId, parseDate));
    forall r | r in recs
      ensures r.runId == runId && r.customerName != "" && Strip(r.customerName) == r.customerName
    {
      var k :| 0 <= k < |recs| && recs[k] == r;
      var i := SurvivorAt(rows, p, runId, parseDate, k);
      KeptRecord(rows[i], p, runId, parseDate);
    }
  }

  lemma SurvivorAt(rows: seq<Row>, p: Projection, runId: string, parseDate: string -> Option<Date>, k: nat) returns (i: nat)
    requires k < |Survivors(rows, p, runId, parseDate)|
    ensures i < |rows| && Kept(rows[i], p)
    ensures CountKept(rows[..i], p) == k
    ensures Survivors(rows, p, runId, parseDate)[k] == ToRecord(rows[i], p, runId, parseDate)
  {
    i := FilterMapAt(rows, KeepRow(p), RowToRecord(p, runId, parseDate), k);
  }

  /**
   * Record k of a successful preparation comes from the (k+1)-th row that passes the name
   * filter: the records are the first passing rows, in source order, none skipped.
   */
  lemma SourceRowOf(header: seq<string>, rows: seq<Row>, runId: string, parseDate: string -> Option<Date>, k: nat) returns (i: nat)
    requires Prepare(header, rows, runId, parseDate).Success?
    requires k < |Prepare(header, rows, runId, parseDate).value|
    ensures MissingFrom(NormalizeHeader(header)) == {}
    ensures i < |rows| && Kept(rows[i], ProjectionFor(header))
    ensures CountKept(rows[..i], ProjectionFor(header)) == k
    ensures Prepare(header, rows, runId, parseDate).value[k] == ToRecord(rows[i], ProjectionFor(header), runId, parseDate)
  {
    PreparedValue(header, rows, runId, parseDate);
    i := SurvivorAt(rows, ProjectionFor(header), runId, parseDate, k);
  }

  /** A successful preparation passed every check and holds the first surviving records. */
  lemma PreparedValue(header: seq<string>, rows: seq<Row>, runId: string, parseDate: string -> Option<Date>)
    requires Prepare(header, rows, runId, parseDate).Success?
    ensures Check(NormalizeHeader(header)).None? && MissingFrom(NormalizeHeader(header)) == {}
    ensures Prepare(header, rows, runId, parseDate).value == FirstSurvivors(rows, ProjectionFor(header), runId, parseDate)
  {
  }

  /**
   * A row passes the name filter unless its name is present but all whitespace; a missing
   * name reads as "nan" and passes.
   */
  lemma KeptIff(row: Row, p: Projection)
    ensures Kept(row, p) <==>
      (CellAt(row, p.nameAt).None? || exists j :: 0 <= j < |CellAt(row, p.nameAt).value| && !IsSpace(CellAt(row, p.nameAt).value[j]))
    ensures CellAt(row, p.nameAt).None? ==> Kept(row, p) && Strip(AsText(CellAt(row, p.nameAt))) == "nan"
  {
    StripEmptyIffAllSpace(AsText(CellAt(row, p.nameAt)));
    StripOfStripped("nan");
  }

  /**
   * Missing values become nulls, never errors: the address is null exactly when its cell is
   * missing, and the birth date exactly when its cell is missing or does not parse.
   */
  lemma NullMapping(row: Row, p: Projection, runId: string, parseDate: string -> Option<Date>)
    ensures ToRecord(row, p, runId, parseDate).address.None? <==> CellAt(row, p.addressAt).None?
    ensures ToRecord(row, p, runId, parseDate).address.Some? ==> ToRecord(row, p, runId, parseDate).address == CellAt(row, p.addressAt)
    ensures ToRecord(row, p, runId, parseDate).birthDate.None? <==>
      (CellAt(row, p.birthDateAt).None? || parseDate(CellAt(row, p.birthDateAt).value).None?)
    ensures ToRecord(row, p, runId, parseDate).birthDate.Some? ==>
      ToRecord(row, p, runId, parseDate).birthDate == parseDate(CellAt(row, p.birthDateAt).value)
  {
  }
}
