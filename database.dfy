/** The bike table behind the shared database connection: a map from primary
    key (`rahmennr`) to the remaining columns, changed in place by the
    prepared INSERT and UPDATE statements and read by the prepared SELECT.
    A statement can also throw for reasons outside the program (a lost
    connection, a driver error); each statement takes that exception as an
    explicit `fault` parameter, so that the environment's choice is visible in
    the contracts. */
module Database {
  import opened Wrappers
  import opened Scalars

  /** The non-key columns of one row of the bike table. Columns are nullable;
      the colour is stored as the name of the enum constant. */
  datatype Row = Row(
    markeType: Option<string>,
    text: Option<string>,
    preis: Option<Decimal>,
    date: Option<Date>,
    farbe: Option<string>)

  /** The bike table, keyed by `rahmennr`. */
  type Table = map<string, Row>

  /** An SQLException, identified by its SQLSTATE, which a driver may leave
      null. */
  datatype StoreError = SqlException(sqlState: Option<string>)

  /** The SQLSTATE of a unique or primary-key constraint violation. */
  const UniqueViolationState := "23505"

  /** The exception an INSERT of a present key throws. */
  const UniqueViolation := SqlException(Some(UniqueViolationState))

  /** The table after executing a statement, and the exception it threw. */
  datatype Step = Step(table: Table, error: Option<StoreError>)

  /** INSERT of a full row. It never overwrites a row that exists: inserting
      a present key fails with the key conflict. A failed insert writes
      nothing. */
  function Insert(t: Table, key: string, row: Row, fault: Option<StoreError>): (s: Step)
    ensures s.error.None? <==> fault.None? && key !in t
    ensures fault.Some? ==> s.error == fault
    ensures fault.None? && key in t ==> s.error == Some(UniqueViolation)
    ensures s.error.Some? ==> s.table == t
    ensures s.error.None? ==> s.table == t[key := row]
    ensures forall k :: k in t ==> k in s.table && s.table[k] == t[k]
  {
    if fault.Some? then Step(t, fault)
    else if key in t then Step(t, Some(UniqueViolation))
    else Step(t[key := row], None)
  }

  /** UPDATE of all non-key columns of the row with the given key. It never
      adds or removes a row and throws only what the environment throws; a
      key with no row is left alone (zero rows affected). */
  function Update(t: Table, key: string, row: Row, fault: Option<StoreError>): (s: Step)
    ensures s.error == fault
    ensures s.table.Keys == t.Keys
    ensures forall k :: k in t && k != key ==> s.table[k] == t[k]
    ensures s.error.None? && key in t ==> s.table[key] == row
    ensures s.error.Some? || key !in t ==> s.table == t
  {
    if fault.Some? then Step(t, fault)
    else if key in t then Step(t[key := row], None)
    else Step(t, None)
  }

  /** SELECT by key: the row with that key, if any. */
  function Query(t: Table, key: string, fault: Option<StoreError>): (r: Result<Option<Row>, StoreError>)
    ensures r.Err? <==> fault.Some?
    ensures fault.Some? ==> r == Err(fault.value)
    ensures r.Ok? ==> (r.value.Some? <==> key in t)
    ensures r.Ok? && key in t ==> r.value == Some(t[key])
  {
    if fault.Some? then Err(fault.value)
    else if key in t then Ok(Some(t[key]))
    else Ok(None)
  }

  /** The single shared connection and the table it reaches. */
  class Store {
    var table: Table

    constructor (initial: Table)
      ensures table == initial
    {
      table := initial;
    }

    /** Executes the prepared INSERT statement. */
    method ExecuteInsert(key: string, row: Row, fault: Option<StoreError>) returns (error: Option<StoreError>)
      modifies this
      ensures Step(table, error) == Insert(old(table), key, row, fault)
    {
      var s := Insert(table, key, row, fault);
      table, error := s.table, s.error;
    }

    /** Executes the prepared UPDATE statement. */
    method ExecuteUpdate(key: string, row: Row, fault: Option<StoreError>) returns (error: Option<StoreError>)
      modifies this
      ensures Step(table, error) == Update(old(table), key, row, fault)
    {
      var s := Update(table, key, row, fault);
      table, error := s.table, s.error;
    }

    /** Executes the prepared SELECT statement; it changes nothing. */
    method ExecuteQuery(key: string, fault: Option<StoreError>) returns (r: Result<Option<Row>, StoreError>)
      ensures r == Query(table, key, fault)
    {
      r := Query(table, key, fault);
    }
  }
}
