/**
 * The DAG's two tasks: create the target table if it is missing, then load the CSV's
 * prepared records into it in batches, committing after each batch.
 */
module Tasks {
  import opened Wrappers
  import opened ConnString
  import opened Batching
  import opened Preparation
  import opened Store

  /** The number of records one executemany call sends. */
  const BatchSize: nat := 50

  datatype LoadError =
    | Invalid(error: PrepareError)                      // a missing or duplicated required column
    | InsertFailed(committed: nat, progress: seq<nat>)  // a database error during the batch loop

  datatype LoadOutcome =
    | Failed(error: LoadError)
    | NoRecords                                         // "No records to insert."
    | Done(inserted: nat, progress: seq<nat>)

  /** Whether a batch sent as tuples of width values commits on an existing table. */
  function Admits(accepts: seq<Record> -> bool, width: nat): seq<Record> -> bool {
    batch => width == |InsertColumns| && accepts(batch)
  }

  /** The table after rows are committed to it; nothing can be committed to an absent table. */
  function AfterInsert(t: Table, recs: seq<Record>): Table {
    if t.Present? then Present(t.schema, t.rows + recs) else t
  }

  /** The number of batches the server commits before the first one it refuses. */
  function CommittedBatches(t: Table, batches: seq<seq<Record>>, accepts: seq<Record> -> bool): nat {
    if t.Absent? then 0 else FirstRejected(batches, accepts)
  }

  /**
   * The outcome of the batch loop when its first k batches commit and batch k, if there is
   * one, fails: the records and counts reported so far.
   */
  function LoopOutcome(records: seq<Record>, k: nat): LoadOutcome
    requires k <= |Batches(records, BatchSize)|
  {
    var batches := Batches(records, BatchSize);
    if k == |batches| then Done(|records|, Progress(records, BatchSize))
    else Failed(InsertFailed(|Flatten(batches[..k])|, Progress(records, BatchSize)[..k]))
  }

  /** When every batch commits, the table ends with all the records appended, in order. */
  lemma CommittedAll(t: Table, records: seq<Record>, accepts: seq<Record> -> bool)
    requires CommittedBatches(t, Batches(records, BatchSize), accepts) == |Batches(records, BatchSize)|
    ensures records != [] ==> t.Present?
    ensures AfterInsert(t, Flatten(Batches(records, BatchSize)[..CommittedBatches(t, Batches(records, BatchSize), accepts)]))
      == AfterInsert(t, records)
  {
    var batches := Batches(records, BatchSize);
    FlattenBatches(records, BatchSize);
    assert batches[..|batches|] == batches;
    if records != [] {
      BatchAt(records, BatchSize, 0);
    }
  }

  /** A server that accepts every batch into an existing table commits them all. */
  lemma AcceptedEverywhere(t: Table, records: seq<Record>, accepts: seq<Record> -> bool)
    requires t.Present? && forall b :: accepts(b)
    ensures CommittedBatches(t, Batches(records, BatchSize), accepts) == |Batches(records, BatchSize)|
  {
    FirstRejectedUnique(Batches(records, BatchSize), accepts, |Batches(records, BatchSize)|);
  }

  /** create_table_if_missed */
  method CreateTableIfMissed(db: SqlServer, conn: Connection)
    modifies db
    ensures db.sessions == old(db.sessions) + [BuildConnStr(conn)]
    ensures db.table == CreateIfAbsent(old(db.table), TargetSchema)
  {
    db.Connect(BuildConnStr(conn));
    db.ExecuteCreateIfAbsent(TargetSchema);
  }

  /**
   * The batch loop of load_data: for i in range(0, total, 50), executemany the slice
   * records[i:i + 50], commit, and log min(i + 50, total); a database error ends the loop
   * with the batches committed so far left in place. Each record goes out as a tuple of
   * width values.
   */
  method InsertBatches(db: SqlServer, records: seq<Record>, width: nat) returns (outcome: LoadOutcome)
    modifies db
    ensures db.sessions == old(db.sessions)
    ensures var batches := Batches(records, BatchSize);
      var k := CommittedBatches(old(db.table), batches, Admits(db.accepts, width));
      db.table == AfterInsert(old(db.table), Flatten(batches[..k])) && outcome == LoopOutcome(records, k)
  {
    var total := |records|;
    ghost var t0 := db.table;
    ghost var k := 0;
    var progress: seq<nat> := [];
    var i := 0;
    LoopStart(records, t0, Admits(db.accepts, width));
    while i < total
      invariant LoopState(records, t0, Admits(db.accepts, width), i, k, progress)
      invariant db.table == AfterInsert(t0, Flatten(Batches(records, BatchSize)[..k]))
      invariant db.sessions == old(db.sessions)
      decreases total - i
    {
      var batch := records[i..Min(i + BatchSize, total)];
      var ok := db.ExecuteManyAndCommit(batch, width);
      if !ok {
        LoopStops(records, t0, Admits(db.accepts, width), i, k, progress);
        return Failed(InsertFailed(i, progress));
      }
      LoopStep(records, t0, Admits(db.accepts, width), i, k, progress);
      progress := progress + [Min(i + BatchSize, total)];
      i := i + BatchSize;
      k := k + 1;
    }
    LoopEnds(records, t0, Admits(db.accepts, width), i, k, progress);
    return Done(total, progress);
  }

  /**
   * The batch loop's state before the pass at offset i: k batches committed, the remaining
   * batches and counts are those from offset i on, the counts logged so far are the first k,
   * and the records committed are exactly the first min(i, total).
   */
  ghost predicate LoopState(records: seq<Record>, t0: Table, accepts: seq<Record> -> bool, i: nat, k: nat, progress: seq<nat>) {
    && k <= |Batches(records, BatchSize)|
    && Batches(records, BatchSize)[k..] == BatchesFrom(records, i, BatchSize)
    && Progress(records, BatchSize)[k..] == ProgressFrom(i, |records|, BatchSize)
    && progress == Progress(records, BatchSize)[..k]
    && (k > 0 ==> t0.Present?)
    && (forall j :: 0 <= j < k ==> accepts(Batches(records, BatchSize)[j]))
    && Flatten(Batches(records, BatchSize)[..k]) == records[..Min(i, |records|)]
  }

  lemma LoopStart(records: seq<Record>, t0: Table, accepts: seq<Record> -> bool)
    ensures LoopState(records, t0, accepts, 0, 0, [])
  {
    assert Batches(records, BatchSize)[..0] == [];
  }

  /** A committed pass moves the state on by one batch and one logged count. */
  lemma LoopStep(records: seq<Record>, t0: Table, accepts: seq<Record> -> bool, i: nat, k: nat, progress: seq<nat>)
    requires LoopState(records, t0, accepts, i, k, progress) && i < |records|
    requires t0.Present? && accepts(records[i..Min(i + BatchSize, |records|)])
    ensures LoopState(records, t0, accepts, i + BatchSize, k + 1, progress + [Min(i + BatchSize, |records|)])
    ensures var before := AfterInsert(t0, Flatten(Batches(records, BatchSize)[..k]));
      AfterInsert(t0, Flatten(Batches(records, BatchSize)[..k + 1]))
        == Present(before.schema, before.rows + records[i..Min(i + BatchSize, |records|)])
  {
    var batches := Batches(records, BatchSize);
    var counts := Progress(records, BatchSize);
    BatchStep(records, BatchSize, i, k);
    ProgressStep(records, BatchSize, i, k);
    FlattenStep(records, BatchSize, i, k);
    assert counts[..k + 1] == counts[..k] + [counts[k]];
    assert t0.rows + (Flatten(batches[..k]) + batches[k]) == (t0.rows + Flatten(batches[..k])) + batches[k];
  }

  /** A refused pass at batch k means exactly k batches commit, and the loop reports that. */
  lemma LoopStops(records: seq<Record>, t0: Table, accepts: seq<Record> -> bool, i: nat, k: nat, progress: seq<nat>)
    requires LoopState(records, t0, accepts, i, k, progress) && i < |records|
    requires !(t0.Present? && accepts(records[i..Min(i + BatchSize, |records|)]))
    ensures k < |Batches(records, BatchSize)|
    ensures CommittedBatches(t0, Batches(records, BatchSize), accepts) == k
    ensures LoopOutcome(records, k) == Failed(InsertFailed(i, progress))
  {
    BatchStep(records, BatchSize, i, k);
    if t0.Present? {
      FirstRejectedUnique(Batches(records, BatchSize), accepts, k);
    }
  }

  /** Past the last offset every batch has committed and the loop reports all counts. */
  lemma LoopEnds(records: seq<Record>, t0: Table, accepts: seq<Record> -> bool, i: nat, k: nat, progress: seq<nat>)
    requires LoopState(records, t0, accepts, i, k, progress) && i >= |records|
    ensures CommittedBatches(t0, Batches(records, BatchSize), accepts) == k
    ensures LoopOutcome(records, k) == Done(|records|, progress)
  {
    var batches := Batches(records, BatchSize);
    var counts := Progress(records, BatchSize);
    if t0.Present? {
      FirstRejectedUnique(batches, accepts, k);
    }
    assert BatchesFrom(records, i, BatchSize) == [];
    assert batches[..k] == batches && counts[..k] == counts;
  }

  /**
   * load_data: prepare the records; stop with an error for a missing or duplicated column, or
   * quietly when no record survives, in both cases before any connection is opened; otherwise
   * open one session and run the batch loop with tuples of one value per selected column and
   * the run id.
   */
  method LoadData(db: SqlServer, conn: Connection, header: seq<string>, rows: seq<Row>, runId: string,
                  parseDate: string -> Option<Date>) returns (outcome: LoadOutcome)
    modifies db
    ensures var prep := Prepare(header, rows, runId, parseDate);
      prep.Failure? ==>
        outcome == Failed(Invalid(prep.error)) && db.table == old(db.table) && db.sessions == old(db.sessions)
    ensures var prep := Prepare(header, rows, runId, parseDate);
      prep.Success? ==> db.sessions == old(db.sessions) + Opened(prep.value, conn)
    ensures var prep := Prepare(header, rows, runId, parseDate);
      prep.Success? && prep.value == [] ==> outcome == NoRecords && db.table == old(db.table)
    ensures var prep := Prepare(header, rows, runId, parseDate);
      prep.Success? && prep.value != [] ==>
        var recs := prep.value;
        var batches := Batches(recs, BatchSize);
        var k := CommittedBatches(old(db.table), batches, Admits(db.accepts, TupleWidth(NormalizeHeader(header))));
        && db.table == AfterInsert(old(db.table), Flatten(batches[..k]))
        && outcome == LoopOutcome(recs, k)
        && (outcome.Done? ==> old(db.table).Present? && db.table == Present(old(db.table).schema, old(db.table).rows + recs))
        && (Duplicated(NormalizeHeader(header), AddressColumn) ==>
              outcome == Failed(InsertFailed(0, [])) && db.table == old(db.table))
  {
    var prep := Prepare(header, rows, runId, parseDate);
    if prep.Failure? {
      return Failed(Invalid(prep.error));
    }
    var records := prep.value;
    if |records| == 0 {
      assert db.sessions + Opened(records, conn) == db.sessions;
      return NoRecords;
    }
    var width := TupleWidth(NormalizeHeader(header));
    PreparedWidth(header, rows, runId, parseDate);
    outcome := LoadPrepared(db, conn, records, width);
  }

  /** The part of load_data after preparation: one session, then the batch loop. */
  method LoadPrepared(db: SqlServer, conn: Connection, records: seq<Record>, width: nat) returns (outcome: LoadOutcome)
    requires records != []
    modifies db
    ensures var batches := Batches(records, BatchSize);
      var k := CommittedBatches(old(db.table), batches, Admits(db.accepts, width));
      && db.sessions == old(db.sessions) + [BuildConnStr(conn)]
      && db.table == AfterInsert(old(db.table), Flatten(batches[..k]))
      && outcome == LoopOutcome(records, k)
    ensures width != |InsertColumns| ==> outcome == Failed(InsertFailed(0, [])) && db.table == old(db.table)
    ensures outcome.Done? ==> old(db.table).Present? && db.table == Present(old(db.table).schema, old(db.table).rows + records)
  {
    ghost var t0 := db.table;
    db.Connect(BuildConnStr(conn));
    outcome := InsertBatches(db, records, width);
    if outcome.Done? {
      CommittedAll(t0, records, Admits(db.accepts, width));
    }
    if width != |InsertColumns| {
      WrongWidth(records, t0, db.accepts, width);
    }
  }

  /** After a successful preparation the tuples are too wide exactly when the address is duplicated. */
  lemma PreparedWidth(header: seq<string>, rows: seq<Row>, runId: string, parseDate: string -> Option<Date>)
    requires Prepare(header, rows, runId, parseDate).Success?
    ensures Duplicated(NormalizeHeader(header), AddressColumn) <==> TupleWidth(NormalizeHeader(header)) != |InsertColumns|
  {
    var cols := NormalizeHeader(header);
    PreparedValue(header, rows, runId, parseDate);
    assert AddressColumn !in MissingFrom(cols);
    WidthIff(cols);
  }

  /** Against an existing table and a server that accepts every batch, tuples of the right width all commit. */
  lemma FullLoad(t: Table, records: seq<Record>, accepts: seq<Record> -> bool, width: nat)
    requires t.Present? && (forall b :: accepts(b)) && width == |InsertColumns|
    ensures var batches := Batches(records, BatchSize);
      AfterInsert(t, Flatten(batches[..CommittedBatches(t, batches, Admits(accepts, width))]))
        == Present(t.schema, t.rows + records)
  {
    AcceptedEverywhere(t, records, Admits(accepts, width));
    CommittedAll(t, records, Admits(accepts, width));
  }

  /** Tuples of the wrong width are refused at the first batch: nothing commits and nothing is logged. */
  lemma WrongWidth(records: seq<Record>, t: Table, accepts: seq<Record> -> bool, width: nat)
    requires records != [] && width != |InsertColumns|
    ensures CommittedBatches(t, Batches(records, BatchSize), Admits(accepts, width)) == 0
    ensures LoopOutcome(records, 0) == Failed(InsertFailed(0, []))
    ensures AfterInsert(t, Flatten(Batches(records, BatchSize)[..0])) == t
  {
    var batches := Batches(records, BatchSize);
    BatchAt(records, BatchSize, 0);
    if t.Present? {
      FirstRejectedUnique(batches, Admits(accepts, width), 0);
      assert t.rows + [] == t.rows;
    }
    assert batches[..0] == [];
  }

  /**
   * Because at most MaxRecords (50) records survive preparation and a batch holds 50, the loop
   * runs at most once: a load either commits every prepared record or leaves the table as it was.
   */
  lemma LoadAllOrNothing(header: seq<string>, rows: seq<Row>, runId: string, parseDate: string -> Option<Date>,
                         t: Table, accepts: seq<Record> -> bool)
    requires Prepare(header, rows, runId, parseDate).Success?
    ensures var recs := Prepare(header, rows, runId, parseDate).value;
      var batches := Batches(recs, BatchSize);
      var after := AfterInsert(t, Flatten(batches[..CommittedBatches(t, batches, accepts)]));
      && |batches| <= 1
      && (after == t || after == AfterInsert(t, recs))
  {
    PreparedRecords(header, rows, runId, parseDate);
    SmallLoad(Prepare(header, rows, runId, parseDate).value, t, accepts);
  }

  /** A load of at most one batch's worth of records commits all of them or none. */
  lemma SmallLoad(recs: seq<Record>, t: Table, accepts: seq<Record> -> bool)
    requires |recs| <= BatchSize
    ensures var batches := Batches(recs, BatchSize);
      var after := AfterInsert(t, Flatten(batches[..CommittedBatches(t, batches, accepts)]));
      && |batches| <= 1
      && (after == t || after == AfterInsert(t, recs))
  {
    var batches := Batches(recs, BatchSize);
    if recs == [] {
      assert batches == [];
    } else {
      OneBatch(recs, BatchSize);
      assert batches[..0] == [] && batches[..1] == [recs];
      assert Flatten([recs]) == recs + Flatten([]);
    }
  }

  /**
   * Nothing de-duplicates: running the load twice against a server that accepts every batch
   * appends the prepared records twice and opens two sessions, unless the address is a
   * duplicated column, whose over-wide tuples leave the table as it was.
   */
  method LoadTwice(db: SqlServer, conn: Connection, header: seq<string>, rows: seq<Row>, runId: string,
                   parseDate: string -> Option<Date>)
    requires db.table.Present?
    requires forall b :: db.accepts(b)
    requires Prepare(header, rows, runId, parseDate).Success?
    modifies db
    ensures var recs := Prepare(header, rows, runId, parseDate).value;
      !Duplicated(NormalizeHeader(header), AddressColumn) ==>
        db.table == Present(old(db.table).schema, old(db.table).rows + recs + recs)
    ensures Duplicated(NormalizeHeader(header), AddressColumn) ==> db.table == old(db.table)
    ensures var recs := Prepare(header, rows, runId, parseDate).value;
      db.sessions == old(db.sessions) + Opened(recs, conn) + Opened(recs, conn)
  {
    LoadOnce(db, conn, header, rows, runId, parseDate);
    LoadOnce(db, conn, header, rows, runId, parseDate);
  }

  /** The sessions one load opens: a single one, unless no record survives preparation. */
  function Opened(recs: seq<Record>, conn: Connection): (r: seq<string>)
    ensures recs == [] ==> r == []
    ensures recs != [] ==> r == [BuildConnStr(conn)]
  {
    if recs == [] then [] else [BuildConnStr(conn)]
  }

  /**
   * One load against a server that accepts every batch appends all prepared records, in a
   * session of its own when there are any; with a duplicated address column nothing commits.
   */
  method LoadOnce(db: SqlServer, conn: Connection, header: seq<string>, rows: seq<Row>, runId: string,
                  parseDate: string -> Option<Date>)
    requires db.table.Present?
    requires forall b :: db.accepts(b)
    requires Prepare(header, rows, runId, parseDate).Success?
    modifies db
    ensures !Duplicated(NormalizeHeader(header), AddressColumn) ==>
      db.table == Present(old(db.table).schema, old(db.table).rows + Prepare(header, rows, runId, parseDate).value)
    ensures Duplicated(NormalizeHeader(header), AddressColumn) ==> db.table == old(db.table)
    ensures var recs := Prepare(header, rows, runId, parseDate).value;
      db.sessions == old(db.sessions) + Opened(recs, conn)
  {
    var recs := Prepare(header, rows, runId, parseDate).value;
    ghost var t0 := db.table;
    if !Duplicated(NormalizeHeader(header), AddressColumn) {
      PreparedWidth(header, rows, runId, parseDate);
      FullLoad(t0, recs, db.accepts, TupleWidth(NormalizeHeader(header)));
    }
    var _ := LoadData(db, conn, header, rows, runId, parseDate);
    if recs == [] {
      assert t0.rows + recs == t0.rows;
    }
  }
}
