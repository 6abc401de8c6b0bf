/** Properties of the bike model that relate several operations or hold for
    all inputs: the validator's fail-fast order, the insert-default-update
    contract of `save`, the select/save round trip, and key identity. */
module BikeProperties {
  import opened Wrappers
  import opened Scalars
  import opened Farben
  import opened Database
  import opened Bikes

  // ---------------------------------------------------------------------
  // Validation

  /** Checking a list of rules checks its head first. */
  lemma FirstBrokenStep(rule: Rule, rest: seq<Rule>, r: Record)
    ensures FirstBroken([rule] + rest, r) == if Holds(rule, r) then FirstBroken(rest, r) else Some(rule)
  {
  }

  /** The validator reports exactly the first rule, in the fixed order, that
      the record breaks, and passes when none is broken. */
  lemma {:induction false} FillAndKillReportsFirstBroken(r: Record)
    ensures FillAndKill(r) == match FirstBroken(Order, r)
      case None => Pass
      case Some(rule) => Fail(Message(rule))
  {
    FirstBrokenStep(RahmennrGiven, [RahmennrLongEnough, MarkeTypeGiven, MarkeTypeLongEnough, TextGiven, PreisGiven, DateGiven, FarbeGiven], r);
    FirstBrokenStep(RahmennrLongEnough, [MarkeTypeGiven, MarkeTypeLongEnough, TextGiven, PreisGiven, DateGiven, FarbeGiven], r);
    FirstBrokenStep(MarkeTypeGiven, [MarkeTypeLongEnough, TextGiven, PreisGiven, DateGiven, FarbeGiven], r);
    FirstBrokenStep(MarkeTypeLongEnough, [TextGiven, PreisGiven, DateGiven, FarbeGiven], r);
    FirstBrokenStep(TextGiven, [PreisGiven, DateGiven, FarbeGiven], r);
    FirstBrokenStep(PreisGiven, [DateGiven, FarbeGiven], r);
    FirstBrokenStep(DateGiven, [FarbeGiven], r);
    FirstBrokenStep(FarbeGiven, [], r);
    assert Order == [RahmennrGiven, RahmennrLongEnough, MarkeTypeGiven, MarkeTypeLongEnough, TextGiven, PreisGiven, DateGiven, FarbeGiven];
  }

  /** A record is valid exactly when every rule holds. */
  lemma ValidIffAllRulesHold(r: Record)
    ensures Valid(r) <==> forall i :: 0 <= i < |Order| ==> Holds(Order[i], r)
  {
    FillAndKillReportsFirstBroken(r);
  }

  /** The eight failure messages are pairwise distinct, so the message names
      the rule that was broken. */
  lemma MessagesDistinct(a: Rule, b: Rule)
    requires Message(a) == Message(b)
    ensures a == b
  {
  }

  /** A frame number shorter than five characters is always reported as such,
      whatever the other fields hold. */
  lemma ShortRahmennrReported(r: Record)
    requires r.rahmennr.Some? && |r.rahmennr.value| < 5
    ensures FillAndKill(r) == Fail("Rahmennummer muss zumindest 5 Stellen haben!")
  {
  }

  // ---------------------------------------------------------------------
  // Stored rows

  /** The columns written for a bike with a date and a colour read back as
      that same bike. */
  lemma RowRoundTrip(r: Record)
    requires r.rahmennr.Some? && r.date.Some? && r.farbe.Some?
    ensures RecordOf(r.rahmennr.value, RowOf(r)) == Ok(r)
  {
  }

  /** On a table whose rows were all written by `save`, `select` of any key
      succeeds: the stored date and colour are never null or unknown. A key
      with a row yields a valid bike. */
  lemma SelectTotalOnStoredRows(t: Table, key: string)
    requires StoredRowsValid(t)
    ensures Lookup(t, key, None).Ok?
    ensures key in t ==> Valid(Lookup(t, key, None).value)
  {
  }

  // ---------------------------------------------------------------------
  // save

  /** An invalid bike is rejected with the validator's message before any
      statement is executed: the table is unchanged, whatever the store
      would have done. */
  lemma InvalidSaveChangesNothing(t: Table, r: Record, insertFault: Option<StoreError>, updateFault: Option<StoreError>)
    requires !Valid(r)
    ensures SaveTo(t, r, insertFault, updateFault) == Saved(t, Fail(Invalid(FillAndKill(r).error)))
    ensures SaveTo(t, r, insertFault, updateFault) == SaveTo(t, r, None, None)
  {
  }

  /** A valid bike saved while the store throws nothing of its own ends
      stored under its key, whether the key was new (insert) or already
      present (conflict, then update); every other row is unchanged. */
  lemma ValidSaveStoresFields(t: Table, r: Record, insertFault: Option<StoreError>, updateFault: Option<StoreError>)
    requires Valid(r) && insertFault.None?
    requires r.rahmennr.value in t ==> updateFault.None?
    ensures SaveTo(t, r, insertFault, updateFault) == Saved(t[r.rahmennr.value := RowOf(r)], Pass)
  {
  }

  /** An insert exception whose SQLSTATE is present and not 23505 is rethrown
      unchanged; the update is not attempted and the table is unchanged. */
  lemma InsertFailurePropagates(t: Table, r: Record, state: string, updateFault: Option<StoreError>)
    requires Valid(r) && state != UniqueViolationState
    ensures SaveTo(t, r, Some(SqlException(Some(state))), updateFault)
      == Saved(t, Fail(Sql(SqlException(Some(state)))))
  {
  }

  /** An insert exception with a null SQLSTATE is not rethrown: comparing the
      state dereferences null, so `save` throws a NullPointerException instead
      and the update is not attempted. */
  lemma NullStateThrowsNullPointer(t: Table, r: Record, updateFault: Option<StoreError>)
    requires Valid(r)
    ensures SaveTo(t, r, Some(SqlException(None)), updateFault)
      == Saved(t, Fail(Runtime(NullPointerException)))
  {
  }

  /** The branch is chosen by SQLSTATE alone: an insert exception with state
      23505 is handled exactly like the conflict of a present key. */
  lemma ConflictStateTakesUpdate(t: Table, r: Record, updateFault: Option<StoreError>)
    requires Valid(r) && r.rahmennr.value in t
    ensures SaveTo(t, r, Some(UniqueViolation), updateFault) == SaveTo(t, r, None, updateFault)
  {
  }

  /** If the insert of a new key throws with state 23505 (another unique
      constraint, say), the update matches no row and `save` completes
      without storing anything. */
  lemma ConflictStateOnAbsentKeyStoresNothing(t: Table, r: Record)
    requires Valid(r) && r.rahmennr.value !in t
    ensures SaveTo(t, r, Some(UniqueViolation), None) == Saved(t, Pass)
  {
  }

  /** Whenever the fallback update runs (after the conflict of a present
      key, or after any insert exception with state 23505), an exception it
      throws is rethrown unchanged and the table is unchanged. */
  lemma UpdateFailurePropagates(t: Table, r: Record, insertFault: Option<StoreError>, e: StoreError)
    requires Valid(r)
    requires (insertFault.None? && r.rahmennr.value in t) || insertFault == Some(UniqueViolation)
    ensures SaveTo(t, r, insertFault, Some(e)) == Saved(t, Fail(Sql(e)))
  {
  }

  /** An exception with state 23505 escapes `save` only when the update
      threw it: the insert's conflict is always handled. */
  lemma ConflictNeverEscapes(t: Table, r: Record, insertFault: Option<StoreError>, updateFault: Option<StoreError>)
    ensures SaveTo(t, r, insertFault, updateFault).outcome == Fail(Sql(UniqueViolation))
      ==> updateFault == Some(UniqueViolation)
  {
  }

  /** A completed save followed by a select of the same key returns the saved
      bike with identical field values, unless the insert of a new key threw
      with state 23505; then select finds no row. */
  lemma SaveThenSelect(t: Table, r: Record, insertFault: Option<StoreError>, updateFault: Option<StoreError>)
    requires SaveTo(t, r, insertFault, updateFault).outcome.Pass?
    ensures r.rahmennr.value in t || insertFault != Some(UniqueViolation)
      ==> Lookup(SaveTo(t, r, insertFault, updateFault).table, r.rahmennr.value, None) == Ok(r)
    ensures r.rahmennr.value !in t && insertFault == Some(UniqueViolation)
      ==> Lookup(SaveTo(t, r, insertFault, updateFault).table, r.rahmennr.value, None) == Ok(KeyOnly(r.rahmennr))
  {
  }

  /** Two successive saves under the same key leave exactly one row for that
      key, holding the second bike's values: the first inserts, the second
      updates. */
  lemma SaveTwiceKeepsLatest(t: Table, first: Record, second: Record)
    requires Valid(first) && Valid(second) && first.rahmennr == second.rahmennr
    ensures SaveTo(SaveTo(t, first, None, None).table, second, None, None)
      == Saved(t[second.rahmennr.value := RowOf(second)], Pass)
    ensures |SaveTo(SaveTo(t, first, None, None).table, second, None, None).table.Keys|
      == |(t.Keys + {second.rahmennr.value})|
  {
    ValidSaveStoresFields(t, first, None, None);
    var t1 := t[first.rahmennr.value := RowOf(first)];
    ValidSaveStoresFields(t1, second, None, None);
    assert t1[second.rahmennr.value := RowOf(second)] == t[second.rahmennr.value := RowOf(second)];
    assert t[second.rahmennr.value := RowOf(second)].Keys == t.Keys + {second.rahmennr.value};
  }

  /** The worked example: a valid bike with price 450.00 is saved into an
      empty table and read back with exactly that price. */
  lemma SaveExampleAB1234()
    ensures
      var bike := Record(Some("AB1234"), Some("Trek X1"), Some("Good condition"),
                         Some(Decimal(45000, 2)), Some(Date(19000)), Some(Blau));
      var s := SaveTo(map[], bike, None, None);
      s.outcome == Pass && Lookup(s.table, "AB1234", None) == Ok(bike)
      && Lookup(s.table, "AB1234", None).value.preis == Some(Decimal(45000, 2))
  {
  }

  // ---------------------------------------------------------------------
  // equals

  /** Every bike equals itself, even one whose frame number is null. */
  lemma EqualsReflexive(a: Bike)
    ensures a.Equals(a) == Ok(true)
  {
  }

  /** Bikes with the same frame number are equal whatever their other
      fields hold; bikes with different frame numbers are never equal. */
  lemma EqualsByKeyOnly(a: Bike, b: Bike)
    requires a.rahmennr.Some?
    ensures a.Equals(b) == Ok(a.rahmennr == b.rahmennr)
  {
  }

  /** A bike never equals an object of another class, even when its own
      frame number is null. */
  lemma EqualsRejectsOtherClasses(a: Bike, o: object)
    requires !(o is Bike)
    ensures a.Equals(o) == Ok(false)
  {
  }

  /** Between bikes that both have a frame number, equality is symmetric and
      transitive. */
  lemma EqualsEquivalence(a: Bike, b: Bike, c: Bike)
    requires a.rahmennr.Some? && b.rahmennr.Some? && c.rahmennr.Some?
    ensures a.Equals(b) == b.Equals(a)
    ensures a.Equals(b) == Ok(true) && b.Equals(c) == Ok(true) ==> a.Equals(c) == Ok(true)
  {
  }
}
