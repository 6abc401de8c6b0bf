/** The bike entity (src/model/Bike.java): its six nullable fields, the
    fail-fast validator `fillAndKill`, the keyed lookup `select`, the
    insert-default-update `save`, and identity by frame number. */
module Bikes {
  import opened Wrappers
  import opened Scalars
  import opened Farben
  import opened Database

  /** The current values of a bike's six fields; `None` stands for null. */
  datatype Record = Record(
    rahmennr: Option<string>,
    markeType: Option<string>,
    text: Option<string>,
    preis: Option<Decimal>,
    date: Option<Date>,
    farbe: Option<Farbe>)

  /** The fields of a bike built from its frame number alone. */
  function KeyOnly(key: Option<string>): Record
  {
    Record(key, None, None, None, None, None)
  }

  // ---------------------------------------------------------------------
  // Validation (fillAndKill)

  const MsgRahmennrMissing := "Rahmennummer muss angegeben werden!"
  const MsgRahmennrShort := "Rahmennummer muss zumindest 5 Stellen haben!"
  const MsgMarkeTypeMissing := "Marke und Type muss angegeben werden!"
  const MsgMarkeTypeShort := "Marke und Type muss zumindest 3 Stellen haben!"
  const MsgTextMissing := "Text muss angegeben werden!"
  const MsgPreisMissing := "Preis muss angegeben werden!"
  const MsgDateMissing := "Verfügbarkeitsdatum muss angegeben werden!"
  const MsgFarbeMissing := "Farbe muss angegeben werden!"

  /** A bike that may be written to the table: a frame number of at least five
      characters, a brand/type of at least three, a non-empty text, and a
      price, date and colour. */
  predicate Valid(r: Record)
  {
    && r.rahmennr.Some? && |r.rahmennr.value| >= 5
    && r.markeType.Some? && |r.markeType.value| >= 3
    && r.text.Some? && |r.text.value| > 0
    && r.preis.Some?
    && r.date.Some?
    && r.farbe.Some?
  }

  /** The validator run before every write: passes exactly on valid bikes and
      otherwise throws with the message of the first check that fails. */
  function FillAndKill(r: Record): (res: Outcome<string>)
    ensures res.Pass? <==> Valid(r)
  {
    if r.rahmennr.None? then Fail(MsgRahmennrMissing)
    else if |r.rahmennr.value| < 5 then Fail(MsgRahmennrShort)
    else if r.markeType.None? then Fail(MsgMarkeTypeMissing)
    else if |r.markeType.value| < 3 then Fail(MsgMarkeTypeShort)
    else if r.text.None? || |r.text.value| == 0 then Fail(MsgTextMissing)
    else if r.preis.None? then Fail(MsgPreisMissing)
    else if r.date.None? then Fail(MsgDateMissing)
    else if r.farbe.None? then Fail(MsgFarbeMissing)
    else Pass
  }

  /** The eight rules of the validator, each stated on its own. */
  datatype Rule =
    | RahmennrGiven | RahmennrLongEnough
    | MarkeTypeGiven | MarkeTypeLongEnough
    | TextGiven | PreisGiven | DateGiven | FarbeGiven

  /** The order in which the rules are checked. */
  const Order: seq<Rule> := [
    RahmennrGiven, RahmennrLongEnough, MarkeTypeGiven, MarkeTypeLongEnough,
    TextGiven, PreisGiven, DateGiven, FarbeGiven]

  /** Whether one rule holds of a record. A length rule says nothing about an
      absent field; its presence rule covers that case. */
  predicate Holds(rule: Rule, r: Record)
  {
    match rule
    case RahmennrGiven => r.rahmennr.Some?
    case RahmennrLongEnough => r.rahmennr.Some? ==> |r.rahmennr.value| >= 5
    case MarkeTypeGiven => r.markeType.Some?
    case MarkeTypeLongEnough => r.markeType.Some? ==> |r.markeType.value| >= 3
    case TextGiven => r.text.Some? && |r.text.value| > 0
    case PreisGiven => r.preis.Some?
    case DateGiven => r.date.Some?
    case FarbeGiven => r.farbe.Some?
  }

  /** The message reported when a rule is the first one broken. */
  function Message(rule: Rule): string
  {
    match rule
    case RahmennrGiven => MsgRahmennrMissing
    case RahmennrLongEnough => MsgRahmennrShort
    case MarkeTypeGiven => MsgMarkeTypeMissing
    case MarkeTypeLongEnough => MsgMarkeTypeShort
    case TextGiven => MsgTextMissing
    case PreisGiven => MsgPreisMissing
    case DateGiven => MsgDateMissing
    case FarbeGiven => MsgFarbeMissing
  }

  /** The first rule of `rules` that the record breaks, if any. */
  function FirstBroken(rules: seq<Rule>, r: Record): (res: Option<Rule>)
    ensures res.None? <==> forall i :: 0 <= i < |rules| ==> Holds(rules[i], r)
    ensures res.Some? ==>
      exists i :: (0 <= i < |rules| && rules[i] == res.value && !Holds(rules[i], r)
        && forall j :: 0 <= j < i ==> Holds(rules[j], r))
  {
    if rules == [] then None
    else if !Holds(rules[0], r) then Some(rules[0])
    else
      var rest := FirstBroken(rules[1..], r);
      assert forall i :: 1 <= i < |rules| ==> rules[i] == rules[1..][i - 1];
      rest
  }

  // ---------------------------------------------------------------------
  // Columns of a stored row

  /** The non-key columns `save` binds for a bike: the other fields as they
      are, and the colour by a name that `valueOf` reads back. */
  function RowOf(r: Record): (row: Row)
    ensures row.markeType == r.markeType && row.text == r.text
    ensures row.preis == r.preis && row.date == r.date
    ensures row.farbe.Some? <==> r.farbe.Some?
    ensures r.farbe.Some? ==> ValueOf(row.farbe.value) == r.farbe
  {
    Row(r.markeType, r.text, r.preis, r.date,
        if r.farbe.Some? then Some(Name(r.farbe.value)) else None)
  }

  /** The exceptions `select` can throw. Reading a row whose date is null
      dereferences null; `Farbe.valueOf` throws on a null or unknown name. */
  datatype SelectError =
    | NullDate
    | NullFarbe
    | UnknownFarbe(name: string)
    | QueryFailed(cause: StoreError)

  /** The bike `select` builds from a stored row: the key comes from the row,
      the date must be non-null, and the colour name must name a constant. */
  function RecordOf(key: string, row: Row): (res: Result<Record, SelectError>)
    ensures res.Ok? ==> res.value.rahmennr == Some(key) && RowOf(res.value) == row
    ensures res.Err? <==> row.date.None? || row.farbe.None? || ValueOf(row.farbe.value).None?
  {
    if row.date.None? then Err(NullDate)
    else if row.farbe.None? then Err(NullFarbe)
    else match ValueOf(row.farbe.value)
      case None => Err(UnknownFarbe(row.farbe.value))
      case Some(f) =>
        ValueOfNamesResult(row.farbe.value);
        Ok(Record(Some(key), row.markeType, row.text, row.preis, row.date, Some(f)))
  }

  /** Every row of the table reads back as a valid bike. */
  ghost predicate StoredRowsValid(t: Table)
  {
    forall k :: k in t ==> RecordOf(k, t[k]).Ok? && Valid(RecordOf(k, t[k]).value)
  }

  // ---------------------------------------------------------------------
  // select and save, as functions of the table

  /** `select(key)`: the bike stored under `key`, or a bike holding only the
      key when there is none. A missing key is never an error; only a failing
      query or an incomplete stored row is. */
  function Lookup(t: Table, key: string, fault: Option<StoreError>): (res: Result<Record, SelectError>)
    ensures res.Ok? ==> res.value.rahmennr == Some(key)
    ensures fault.None? && key !in t ==> res == Ok(KeyOnly(Some(key)))
    ensures res.Ok? && key in t ==> RowOf(res.value) == t[key]
    ensures res.Err? <==> fault.Some? || (key in t && RecordOf(key, t[key]).Err?)
    ensures fault.Some? ==> res == Err(QueryFailed(fault.value))
  {
    match Query(t, key, fault)
    case Err(e) => Err(QueryFailed(e))
    case Ok(None) => Ok(KeyOnly(Some(key)))
    case Ok(Some(row)) => RecordOf(key, row)
  }

  /** The runtime exception a dereference of null throws. */
  datatype JavaError = NullPointerException

  /** The exceptions `save` can throw: the validator's, a rethrown
      SQLException, or the NullPointerException of reading a null SQLSTATE. */
  datatype SaveError = Invalid(message: string) | Sql(cause: StoreError) | Runtime(error: JavaError)

  /** The table after a save, and how the save ended. */
  datatype Saved = Saved(table: Table, outcome: Outcome<SaveError>)

  /** `save()`: validate; then INSERT; if the insert throws with SQLSTATE
      23505, UPDATE the row with the same key; rethrow any other exception.
      A save that fails has changed nothing. A save that completes has stored
      the bike's fields under its key, unless the insert threw 23505 for a key
      that had no row: then the update matches no row and nothing is stored. */
  function SaveTo(t: Table, r: Record, insertFault: Option<StoreError>, updateFault: Option<StoreError>): (s: Saved)
    ensures s.outcome.Pass? ==> Valid(r)
    ensures s.outcome.Pass? ==>
      || s.table == t[r.rahmennr.value := RowOf(r)]
      || (r.rahmennr.value !in t && insertFault == Some(UniqueViolation) && s.table == t)
    ensures s.outcome.Fail? ==> s.table == t
  {
    match FillAndKill(r)
    case Fail(msg) => Saved(t, Fail(Invalid(msg)))
    case Pass =>
      var key, row := r.rahmennr.value, RowOf(r);
      var ins := Insert(t, key, row, insertFault);
      if ins.error.None? then Saved(ins.table, Pass)
      else match ins.error.value.sqlState
        case None => Saved(ins.table, Fail(Runtime(NullPointerException)))
        case Some(state) =>
          if state == UniqueViolationState then
            var upd := Update(ins.table, key, row, updateFault);
            Saved(upd.table, if upd.error.None? then Pass else Fail(Sql(upd.error.value)))
          else Saved(ins.table, Fail(Sql(ins.error.value)))
  }

  // ---------------------------------------------------------------------
  // The mutable bike object

  class Bike {
    var rahmennr: Option<string>
    var markeType: Option<string>
    var text: Option<string>
    var preis: Option<Decimal>
    var date: Option<Date>
    var farbe: Option<Farbe>

    /** The current values of the six fields. */
    function Fields(): Record
      reads this
    {
      Record(rahmennr, markeType, text, preis, date, farbe)
    }

    /** Builds a bike that holds only its frame number. */
    constructor FromKey(rahmennr: Option<string>)
      ensures Fields() == KeyOnly(rahmennr)
    {
      this.rahmennr := rahmennr;
      markeType, text, preis, date, farbe := None, None, None, None, None;
    }

    /** Builds a bike with all six fields given. */
    constructor (rahmennr: Option<string>, markeType: Option<string>, text: Option<string>,
                 preis: Option<Decimal>, date: Option<Date>, farbe: Option<Farbe>)
      ensures Fields() == Record(rahmennr, markeType, text, preis, date, farbe)
    {
      this.rahmennr, this.markeType, this.text := rahmennr, markeType, text;
      this.preis, this.date, this.farbe := preis, date, farbe;
    }

    method SetRahmennr(v: Option<string>)
      modifies this
      ensures Fields() == old(Fields()).(rahmennr := v)
    {
      rahmennr := v;
    }

    method SetMarkeType(v: Option<string>)
      modifies this
      ensures Fields() == old(Fields()).(markeType := v)
    {
      markeType := v;
    }

    method SetText(v: Option<string>)
      modifies this
      ensures Fields() == old(Fields()).(text := v)
    {
      text := v;
    }

    method SetPreis(v: Option<Decimal>)
      modifies this
      ensures Fields() == old(Fields()).(preis := v)
    {
      preis := v;
    }

    method SetDate(v: Option<Date>)
      modifies this
      ensures Fields() == old(Fields()).(date := v)
    {
      date := v;
    }

    method SetFarbe(v: Option<Farbe>)
      modifies this
      ensures Fields() == old(Fields()).(farbe := v)
    {
      farbe := v;
    }

    /** `equals`: the same object, or another bike with an equal frame
        number; never an object of another class. Comparing a bike whose
        frame number is null with any other bike throws, because the
        comparison dereferences it. */
    function Equals(o: object?): (r: Result<bool, JavaError>)
      reads this, o
      ensures o == null || !(o is Bike) ==> r == Ok(false)
      ensures r.Ok? && o is Bike ==> (r.value <==> (o as Bike).rahmennr == rahmennr)
      ensures r.Err? <==> o is Bike && o != this && rahmennr.None?
    {
      if this == o then Ok(true)
      else if o == null || !(o is Bike) then Ok(false)
      else if rahmennr.None? then Err(NullPointerException)
      else Ok((o as Bike).rahmennr == rahmennr)
    }

    /** Writes this bike to the table: nothing is written when validation
        fails; otherwise insert, falling back to update on a key conflict. */
    method Save(db: Store, insertFault: Option<StoreError>, updateFault: Option<StoreError>)
      returns (outcome: Outcome<SaveError>)
      modifies db
      ensures Saved(db.table, outcome) == SaveTo(old(db.table), Fields(), insertFault, updateFault)
      ensures StoredRowsValid(old(db.table)) ==> StoredRowsValid(db.table)
    {
      var check := FillAndKill(Fields());
      if check.Fail? {
        return Fail(Invalid(check.error));
      }
      var row := RowOf(Fields());
      var error := db.ExecuteInsert(rahmennr.value, row, insertFault);
      if error.Some? {
        if error.value.sqlState.None? {
          return Fail(Runtime(NullPointerException));
        } else if error.value.sqlState.value == UniqueViolationState {
          var updateError := db.ExecuteUpdate(rahmennr.value, row, updateFault);
          if updateError.Some? {
            return Fail(Sql(updateError.value));
          }
        } else {
          return Fail(Sql(error.value));
        }
      }
      outcome := Pass;
      if StoredRowsValid(old(db.table)) {
        SavePreservesStoredRowsValid(old(db.table), Fields(), insertFault, updateFault);
      }
    }
  }

  /** `select(key)`: builds a new bike from the stored row, or one holding
      only the key. The table is not changed. */
  method Select(db: Store, key: string, fault: Option<StoreError>) returns (r: Result<Bike, SelectError>)
    ensures r.Ok? ==> fresh(r.value) && Lookup(db.table, key, fault) == Ok(r.value.Fields())
    ensures r.Err? ==> Lookup(db.table, key, fault) == Err(r.error)
  {
    var found := db.ExecuteQuery(key, fault);
    if found.Err? {
      r := Err(QueryFailed(found.error));
    } else if found.value.None? {
      var bike := new Bike.FromKey(Some(key));
      r := Ok(bike);
    } else {
      var read := RecordOf(key, found.value.value);
      if read.Err? {
        r := Err(read.error);
      } else {
        var f := read.value;
        var bike := new Bike(f.rahmennr, f.markeType, f.text, f.preis, f.date, f.farbe);
        r := Ok(bike);
      }
    }
  }

  /** A completed save of a valid bike keeps every row readable as a valid
      bike: the row it writes reads back as the bike itself. */
  lemma SavePreservesStoredRowsValid(t: Table, r: Record, insertFault: Option<StoreError>, updateFault: Option<StoreError>)
    requires StoredRowsValid(t)
    ensures StoredRowsValid(SaveTo(t, r, insertFault, updateFault).table)
  {
  }
}
