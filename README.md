# Bike record: validation, select and insert-default-update save

This project models the `Bike` entity of a small desktop form for bicycles
(`src/model/Bike.java`, with the colour enum `src/model/Farbe.java`) and
proves properties of that model in Dafny.

A bike has six nullable fields: frame number `rahmennr` (the primary key),
brand/type `markeType`, description `text`, price `preis` (an exact decimal),
availability `date` and colour `farbe` (`Rot | Gruen | Gelb | Blau`).
The model covers four operations:

- `fillAndKill` is a fail-fast validator with eight messages. It runs before every write.
- `save` validates the bike, then INSERTs it. If the insert fails with the primary-key
  conflict (SQLSTATE 23505), it UPDATEs the row with the same frame number instead.
  Any other failure is rethrown.
- `select(key)` reads the row with that key. It returns the full bike, or a bike holding
  only the key when no row exists.
- `equals` compares frame numbers only.

Layout:

- `wrappers.dfy` (`Wrappers`): `Option` stands for a nullable reference. `Result` and
  `Outcome` stand for a call that may throw.
- `scalars.dfy` (`Scalars`): `Decimal` (unscaled value and scale, as `BigDecimal`) and
  `Date` (a day number). Only their equality matters here.
- `farbe.dfy` (`Farben`): the colour enum, its names (`toString`), and `valueOf`.
- `database.dfy` (`Database`): the bike table as a `map` from frame number to the other
  columns. It is held by a `Store` class whose statement methods change `table` in
  place. Each method is proved equal to a pure function (`Insert`, `Update`, `Query`).
- `bike.dfy` (`Bikes`): the `Record` value of a bike's fields and the validator. It also
  holds the pure specifications of select (`Lookup`) and save (`SaveTo`), and the mutable
  `Bike` class. The class has the six fields, both constructors, the setters, `Equals`
  and `Save`. The static `Select` method is in this module too.
- `bike_properties.dfy` (`BikeProperties`): lemmas that relate the operations.

The database driver can fail on any statement for reasons outside the program
(a lost connection, say). Each such failure is an explicit `fault` parameter
that holds the SQLException the driver would throw, so the contracts show what
happens in every case. An SQLException is identified by its SQLSTATE, which
may be null. `Database.UniqueViolation` is the exception with SQLSTATE 23505
that an insert of a present key throws. As in the source, `save` branches on
the SQLSTATE alone, whichever statement or constraint caused it.

## Model

| member | source | states |
|---|---|---|
| `Farben.ValueOf` | src/model/Bike.java:79 | `Farbe.valueOf` accepts exactly the four constant names; any other text is rejected |
| `Farben.Name` | src/model/Bike.java:250 | the colour is written as the constant's name, one of the four, and `valueOf` reads that name back as the same constant |
| `Farben.ValueOfNamesResult` | src/model/Bike.java:79 | a text that `valueOf` accepts is exactly the name of the constant it returns |
| `Database.Insert` | src/model/Bike.java:244-252 | INSERT throws the environment's exception when there is one. Otherwise it throws the key conflict (SQLSTATE 23505) exactly when the key is present, and succeeds exactly when it is absent. A failed insert leaves the table unchanged. A successful one adds the row under the key and never overwrites an existing row |
| `Database.Update` | src/model/Bike.java:260-268 | UPDATE throws exactly the environment's exception. It keeps the set of keys and leaves every other key's row alone. On success it replaces the row of a present key. A key without a row, or a failure, leaves the table unchanged |
| `Database.Query` | src/model/Bike.java:67-72 | SELECT by key throws exactly when the environment throws, and then that exception. Otherwise it finds a row exactly when the key is in the table, and that row is the stored one |
| `Database.Store.ExecuteInsert` | src/model/Bike.java:252 | executing the insert statement changes the table and reports errors as `Insert` describes |
| `Database.Store.ExecuteUpdate` | src/model/Bike.java:268 | executing the update statement changes the table and reports errors as `Update` describes |
| `Database.Store.ExecuteQuery` | src/model/Bike.java:69 | executing the select statement returns what `Query` describes and changes nothing |
| `Bikes.FillAndKill` | src/model/Bike.java:185-226 | validation passes exactly when the frame number has at least 5 characters, brand/type at least 3, the text is non-empty, and price, date and colour are present |
| `Bikes.FirstBroken` | src/model/Bike.java:187-225 | returns no rule exactly when every rule holds. Otherwise it returns a broken rule such that every earlier rule holds |
| `BikeProperties.FillAndKillReportsFirstBroken` | src/model/Bike.java:187-225 | the validator fails with the message of the first rule broken in the fixed order (frame number null, frame number short, brand/type null, brand/type short, text, price, date, colour). It passes when none is broken |
| `BikeProperties.ValidIffAllRulesHold` | src/model/Bike.java:185-226 | a bike is valid exactly when each of the eight rules holds |
| `BikeProperties.MessagesDistinct` | src/model/Bike.java:189-224 | the eight failure messages are pairwise distinct |
| `BikeProperties.ShortRahmennrReported` | src/model/Bike.java:192-195 | a frame number of fewer than 5 characters is always reported as too short, whatever the other fields hold |
| `Bikes.RecordOf` | src/model/Bike.java:74-80 | reading a row yields a bike keyed by the row's key whose columns are the row's columns. It fails exactly when the date is null or the colour is null or not a constant's name |
| `Bikes.RowOf` | src/model/Bike.java:245-250 | the columns bound for a bike are its brand/type, text, price and date as they are, and its colour by a name that `valueOf` reads back as the same colour |
| `BikeProperties.RowRoundTrip` | src/model/Bike.java:245-250 | the columns written for a bike with a date and a colour read back as the same bike |
| `Bikes.Lookup` | src/model/Bike.java:65-88 | select always returns a bike with the requested key. A missing key gives a bike with every other field absent and is never an error. A present key gives the stored row's values. It fails exactly when the query throws (and then with that exception) or the stored row cannot be read as a bike |
| `Bikes.Select` | src/model/Bike.java:65-88 | builds a new bike whose fields are what `Lookup` gives, or throws what `Lookup` reports. The table is not changed |
| `BikeProperties.SelectTotalOnStoredRows` | src/model/Bike.java:74-80 | on a table whose rows all read back as valid bikes, select never fails, and a present key yields a valid bike |
| `Bikes.SaveTo` | src/model/Bike.java:237-275 | a save that completes had a valid bike. It has stored the bike's columns under its key with all else unchanged, unless the insert of a new key threw SQLSTATE 23505; then the table is unchanged. A save that fails leaves the table unchanged |
| `Bikes.Bike.Save` | src/model/Bike.java:237-275 | the object's save ends with the table and outcome `SaveTo` gives for its current fields. It keeps every stored row valid |
| `Bikes.SavePreservesStoredRowsValid` | src/model/Bike.java:239-252 | since validation precedes every write, a save keeps every stored row readable as a valid bike |
| `BikeProperties.InvalidSaveChangesNothing` | src/model/Bike.java:239 | an invalid bike is rejected with the validator's message, the table is unchanged, and no store fault can matter because no statement runs |
| `BikeProperties.ValidSaveStoresFields` | src/model/Bike.java:241-269 | a valid bike saved while the store throws no exception of its own ends stored under its key. This holds whether the key was new (insert) or present (conflict, then update). Other rows are unchanged |
| `BikeProperties.InsertFailurePropagates` | src/model/Bike.java:254-273 | an insert exception whose SQLSTATE is present and not 23505 is rethrown unchanged. The update is not attempted and the table is unchanged |
| `BikeProperties.NullStateThrowsNullPointer` | src/model/Bike.java:257 | an insert exception with a null SQLSTATE is not rethrown. Save throws a NullPointerException instead, and the update is not attempted |
| `BikeProperties.ConflictStateTakesUpdate` | src/model/Bike.java:257-268 | the branch depends only on the SQLSTATE: an exception with state 23505 on a present key is handled exactly like the key conflict itself |
| `BikeProperties.ConflictStateOnAbsentKeyStoresNothing` | src/model/Bike.java:257-268 | if inserting a new key throws state 23505, the update matches no row and save completes without storing anything |
| `BikeProperties.UpdateFailurePropagates` | src/model/Bike.java:260-268 | whenever the fallback update runs (after the conflict of a present key, or after any insert exception with state 23505), an exception it throws is rethrown unchanged, with the table unchanged |
| `BikeProperties.ConflictNeverEscapes` | src/model/Bike.java:256-269 | an exception with SQLSTATE 23505 leaves save only when the update threw it: the insert's conflict is always handled |
| `BikeProperties.SaveThenSelect` | src/model/Bike.java:237-275 | after a completed save, select of the same key returns the saved bike with identical fields. The one exception is an insert of a new key that threw state 23505; then select returns the key-only bike |
| `BikeProperties.SaveTwiceKeepsLatest` | src/model/Bike.java:231-232 | two saves under one key leave one row for it, holding the second bike's values. When the key was not yet stored, the first save inserts and the second updates |
| `BikeProperties.SaveExampleAB1234` | src/model/Bike.java:237-275 | a bike priced 450.00 saved into an empty table is read back with exactly that price |
| `Bikes.Bike.Equals` | src/model/Bike.java:289-303 | equals is false for null and for any object of another class. For another bike it holds exactly when the frame numbers are equal. It throws exactly when a bike with a null frame number is compared with a different bike |
| `BikeProperties.EqualsReflexive` | src/model/Bike.java:291-294 | every bike equals itself |
| `BikeProperties.EqualsByKeyOnly` | src/model/Bike.java:300-302 | for a bike with a frame number, equality with any bike is frame-number equality, whatever the other fields hold |
| `BikeProperties.EqualsRejectsOtherClasses` | src/model/Bike.java:295-298 | a bike never equals an object of another class, even when its own frame number is null |
| `BikeProperties.EqualsEquivalence` | src/model/Bike.java:289-303 | among bikes with frame numbers, equals is symmetric and transitive |
| `Bikes.Bike.FromKey` | src/model/Bike.java:34-37 | the key-only constructor sets the frame number and leaves every other field absent |
| `Bikes.Bike.constructor` | src/model/Bike.java:48-56 | the full constructor sets all six fields to the arguments |
| `Bikes.Bike.SetRahmennr` | src/model/Bike.java:95-98 | sets the frame number and changes no other field |
| `Bikes.Bike.SetMarkeType` | src/model/Bike.java:110-113 | sets brand/type and changes no other field |
| `Bikes.Bike.SetText` | src/model/Bike.java:125-128 | sets the text and changes no other field |
| `Bikes.Bike.SetPreis` | src/model/Bike.java:140-143 | sets the price and changes no other field |
| `Bikes.Bike.SetDate` | src/model/Bike.java:160-163 | sets the date and changes no other field |
| `Bikes.Bike.SetFarbe` | src/model/Bike.java:175-178 | sets the colour and changes no other field |

## Left out

- The SQL text of the three statements lives in `database.Database`, and `database.Database` is not part of this model.
  The UPDATE is modelled as intended: it sets all non-key columns of the row keyed by `rahmennr`.
  The source binds `rahmennr` as parameter 4 and date and colour as parameters 5 and 6 (src/model/Bike.java:261-266), which differs from the INSERT order.
  Whether that matches the hidden SQL is an unverified assumption.
- The database connection's lifecycle is not modelled: it is opened once at start-up and closed at shutdown (`src/main/TheMain.java`).
- A lookup key of null is not modelled. The form always passes the text field's content, and what SQL does with a null key depends on the hidden statement.
- Driver failures are explicit `fault` parameters. The model does not say when they happen. An SQLException is reduced to its SQLSTATE: its message and vendor code are not modelled.
- Concurrent writers between the failed insert and the update are not modelled. The application is single-user.
- Getters and the JavaFX `...Property()` accessors are plain reads of the class's fields. Observability and binding are presentation concerns.
- `toString` is left out because it only builds a display string. `Farbe.values()` and `Farbe.valuesAsObservableList` are left out because they only list the constants for the UI.
- The JavaFX controller `src/controllerview/BikeC.java` is left out: it is the presentation layer.
- `BigDecimal` arithmetic and scale normalisation by the database column are not modelled, nor is `LocalDate` calendar logic: prices and dates are compared by equality only.
- String lengths count Dafny characters (Unicode scalar values). Java's `length()` counts UTF-16 code units, which differ for characters outside the Basic Multilingual Plane.
- A database with case-insensitive key collation is not modelled: keys match exactly.
