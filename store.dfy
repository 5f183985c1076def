/**
 * The SQL Server side as far as the loader sees it: whether the target table exists,
 * its columns, the rows committed to it, and the sessions opened against the server.
 */
module Store {
  import opened Preparation

  /** Column types used by the table definition. */
  datatype SqlType = Int | NVarChar(width: nat) | SqlDate | DateTime2

  datatype ColumnDef = ColumnDef(name: string, sqlType: SqlType, nullable: bool, identity: bool, hasDefault: bool)

  /** The CREATE TABLE statement's columns. */
  const TargetSchema: seq<ColumnDef> := [
    ColumnDef("id", Int, false, true, false),
    ColumnDef("customer_name", NVarChar(150), false, false, false),
    ColumnDef("address", NVarChar(250), true, false, false),
    ColumnDef("birth_date", SqlDate, true, false, false),
    ColumnDef("airflow_run_id", NVarChar(250), true, false, false),
    ColumnDef("loaded_at", DateTime2, true, false, true)
  ]

  /** The INSERT statement's column list, in the order of a record's fields. */
  const InsertColumns: seq<string> := ["customer_name", "address", "birth_date", "airflow_run_id"]

  /**
   * The INSERT names only columns of the table, and supplies every column that is NOT NULL
   * and has neither an identity nor a default.
   */
  lemma InsertFitsSchema()
    ensures forall n :: n in InsertColumns ==> exists c :: c in TargetSchema && c.name == n
    ensures forall c :: c in TargetSchema && !c.nullable && !c.identity && !c.hasDefault ==> c.name in InsertColumns
  {
    assert TargetSchema[1].name == InsertColumns[0];
    assert TargetSchema[2].name == InsertColumns[1];
    assert TargetSchema[3].name == InsertColumns[2];
    assert TargetSchema[4].name == InsertColumns[3];
  }

  /** The target table: absent, or present with its columns and its committed rows in insertion order. */
  datatype Table = Absent | Present(schema: seq<ColumnDef>, rows: seq<Record>)

  /** IF OBJECT_ID(table) IS NULL CREATE TABLE ...: only an absent table is created, empty. */
  function CreateIfAbsent(t: Table, schema: seq<ColumnDef>): Table {
    if t.Absent? then Present(schema, []) else t
  }

  /** After a create the table exists; an existing table, its columns and its rows are left alone. */
  lemma CreateKeepsExisting(t: Table, schema: seq<ColumnDef>)
    ensures CreateIfAbsent(t, schema).Present?
    ensures t.Present? ==> CreateIfAbsent(t, schema) == t
    ensures t.Absent? ==> CreateIfAbsent(t, schema) == Present(schema, [])
  {
  }

  /** A second create is a no-op, whatever schema it asks for. */
  lemma CreateIdempotent(t: Table, first: seq<ColumnDef>, second: seq<ColumnDef>)
    ensures CreateIfAbsent(CreateIfAbsent(t, first), second) == CreateIfAbsent(t, first)
  {
  }

  /** The server a run talks to. */
  class SqlServer {
    /** The target table. */
    var table: Table
    /** The connection strings of the sessions opened so far, in order. */
    var sessions: seq<string>
    /**
     * Whether an INSERT of the given batch succeeds on an existing table (it may fail for
     * reasons this model does not look into, such as a value too long for its column).
     */
    const accepts: seq<Record> -> bool

    constructor (table: Table, accepts: seq<Record> -> bool)
      ensures this.table == table && this.accepts == accepts && sessions == []
    {
      this.table := table;
      this.accepts := accepts;
      sessions := [];
    }

    /** pyodbc.connect: opens a session with the given connection string. */
    method Connect(connStr: string)
      modifies this`sessions
      ensures sessions == old(sessions) + [connStr]
    {
      sessions := sessions + [connStr];
    }

    /** Runs the conditional CREATE TABLE (in autocommit mode). */
    method ExecuteCreateIfAbsent(schema: seq<ColumnDef>)
      modifies this`table
      ensures table == CreateIfAbsent(old(table), schema)
    {
      if table.Absent? {
        table := Present(schema, []);
      }
    }

    /**
     * executemany of one batch, each record sent as a tuple of width values, followed by
     * commit: the statement has one parameter marker per insert column, so tuples of any
     * other width are refused. On success the batch's rows are appended after the existing
     * ones; on failure (no table, the wrong width, or the server refuses the batch) nothing
     * of the batch stays visible.
     */
    method ExecuteManyAndCommit(batch: seq<Record>, width: nat) returns (ok: bool)
      modifies this`table
      ensures ok == (old(table).Present? && width == |InsertColumns| && accepts(batch))
      ensures ok ==> table == Present(old(table).schema, old(table).rows + batch)
      ensures !ok ==> table == old(table)
    {
      ok := table.Present? && width == |InsertColumns| && accepts(batch);
      if ok {
        table := Present(table.schema, table.rows + batch);
      }
    }
  }
}
