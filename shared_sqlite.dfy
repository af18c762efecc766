/**
 The shared key-value store: a process-wide instance over one table of
 string keys (the primary key) and string values. Every key and value is
 turned into its string form on the way in; the typed getters read the
 string back and parse it, falling back to the caller's default.

 The persisted table is a map held by a `Database` object, which stands for
 the database file: every store instance created over the same file sees
 the same table. Storage failures are inputs: the outcome of the insert for
 a write, and a flag saying that the read raised an SQLException.
 */
module SharedSqlite {
  import opened JavaLang

  /** A key or value handed to the store, by the Java type it has at the call. */
  datatype JavaValue =
    | JString(s: string)
    | JInt(i: int32)
    | JLong(l: int64)
    | JBool(b: bool)
    | JChar(c: char)
    | JNull

  /**
   `String.valueOf` of a key or value: a string as it is, numbers and booleans
   in the form their own parsers read back, a char as a one-character string,
   and null as "null".
   */
  function ValueOf(v: JavaValue): (r: string)
    ensures v.JString? ==> r == v.s
    ensures v.JInt? ==> IntegerValueOf(r) == Some(v.i)
    ensures v.JLong? ==> LongValueOf(r) == Some(v.l)
    ensures v.JBool? ==> BooleanValueOf(r) == v.b
    ensures v.JChar? ==> r == [v.c]
    ensures v.JNull? ==> r == "null"
  {
    match v
    case JString(s) => s
    case JInt(i) => IntegerRoundTrip(i); DecimalString(i)
    case JLong(l) => LongRoundTrip(l); DecimalString(l)
    case JBool(b) => BooleanRoundTrip(b); BooleanString(b)
    case JChar(c) => [c]
    case JNull => "null"
  }

  /** What `insertWithOnConflict` did: the row id it returned, or an SQLException. */
  datatype InsertResult = RowId(id: int) | SqlFailure

  /** The message of the NullPointerException `getInstance` throws before `initialize`. */
  const NOT_INITIALIZED: string :=
    "The class has never been initialized. Use initialize(context) first to create a new instance"

  datatype InstanceResult = Instance(store: SharedSqlite) | NullPointerException(message: string)

  /** The database file `shared_values_database` and its one table `shared_values_table`. */
  class Database {
    var table: map<string, string>

    /** A new file: the table is created (by `onCreate`) with no rows. */
    constructor ()
      ensures table == map[]
    {
      table := map[];
    }
  }

  // ---------------------------------------------------------------------
  // Reads: lookup, then parse, falling back to the default

  /**
   `getStringValue(dataKey, defaultValue)`: the stored string of the key, or
   the default when no row has that key or the read fails. A stored empty
   string is a hit like any other. The default may be Java's null (None).
   */
  function StringValue(table: map<string, string>, dataKey: JavaValue, defaultValue: Option<string>,
                       readFails: bool): (r: Option<string>)
    ensures !readFails && ValueOf(dataKey) in table ==> r == Some(table[ValueOf(dataKey)])
    ensures readFails || ValueOf(dataKey) !in table ==> r == defaultValue
  {
    var key := ValueOf(dataKey);
    if !readFails && key in table then Some(table[key]) else defaultValue
  }

  /**
   `getIntValue(dataKey, defaultValue)`: `Integer.valueOf` of the stored
   string, or the default when there is no row, the read fails or the string
   does not parse. The default is a boxed `Integer` and may be null (None).
   */
  function IntValue(table: map<string, string>, dataKey: JavaValue, defaultValue: Option<int32>,
                    readFails: bool): (r: Option<int32>)
    ensures readFails || ValueOf(dataKey) !in table ==> r == defaultValue
    ensures !readFails && ValueOf(dataKey) in table ==>
              r == (if IntegerValueOf(table[ValueOf(dataKey)]).Some? then IntegerValueOf(table[ValueOf(dataKey)])
                    else defaultValue)
  {
    match StringValue(table, dataKey, None, readFails)
    case None => defaultValue
    case Some(s) =>
      match IntegerValueOf(s)
      case Some(n) => Some(n)
      case None => defaultValue
  }

  /**
   `getLongValue(dataKey, defaultValue)`: `Long.valueOf` of the stored string,
   or the (possibly null) default when there is no row, the read fails or the
   string does not parse.
   */
  function LongValue(table: map<string, string>, dataKey: JavaValue, defaultValue: Option<int64>,
                     readFails: bool): (r: Option<int64>)
    ensures readFails || ValueOf(dataKey) !in table ==> r == defaultValue
    ensures !readFails && ValueOf(dataKey) in table ==>
              r == (if LongValueOf(table[ValueOf(dataKey)]).Some? then LongValueOf(table[ValueOf(dataKey)])
                    else defaultValue)
  {
    match StringValue(table, dataKey, None, readFails)
    case None => defaultValue
    case Some(s) =>
      match LongValueOf(s)
      case Some(n) => Some(n)
      case None => defaultValue
  }

  /**
   `getBooleanValue(dataKey, defaultValue)`: `Boolean.valueOf` of the stored
   string, which never throws, or the (possibly null) default when there is
   no row or the read fails.
   */
  function BooleanValue(table: map<string, string>, dataKey: JavaValue, defaultValue: Option<bool>,
                        readFails: bool): (r: Option<bool>)
    ensures readFails || ValueOf(dataKey) !in table ==> r == defaultValue
    ensures !readFails && ValueOf(dataKey) in table ==> r == Some(BooleanValueOf(table[ValueOf(dataKey)]))
  {
    match StringValue(table, dataKey, None, readFails)
    case None => defaultValue
    case Some(s) => Some(BooleanValueOf(s))
  }

  // ---------------------------------------------------------------------
  // The store object

  class SharedSqlite {
    const db: Database

    constructor (db: Database)
      ensures this.db == db
    {
      this.db := db;
    }

    /** A schema version bump drops the table and creates it again: every row is gone. */
    method OnUpgrade(oldVersion: int32, newVersion: int32)
      modifies db
      ensures db.table == map[]
    {
      db.table := map[];
    }

    /**
     `addOrUpdate`: insert-or-replace of one row. It reports success exactly
     when the insert returned a row id above -1; only then does the table change.
     */
    method AddOrUpdate(dataKey: string, value: string, insert: InsertResult) returns (pass: bool)
      modifies db
      ensures pass <==> insert.RowId? && insert.id > -1
      ensures pass ==> db.table == old(db.table)[dataKey := value]
      ensures !pass ==> db.table == old(db.table)
    {
      pass := false;
      match insert
      case SqlFailure =>
      case RowId(rowId) =>
        if rowId > -1 {
          db.table := db.table[dataKey := value];
          pass := true;
        }
    }

    /** `addValue`: `addOrUpdate` of the string forms of key and value. */
    method AddValue(dataKey: JavaValue, value: JavaValue, insert: InsertResult) returns (pass: bool)
      modifies db
      ensures pass <==> insert.RowId? && insert.id > -1
      ensures pass ==> db.table == old(db.table)[ValueOf(dataKey) := ValueOf(value)]
      ensures !pass ==> db.table == old(db.table)
    {
      pass := AddOrUpdate(ValueOf(dataKey), ValueOf(value), insert);
    }

    /** `getStringValue`, step by step: start from the default, overwrite it with the row's value if one is found. */
    method GetStringValue(dataKey: JavaValue, defaultValue: Option<string>, readFails: bool)
      returns (value: Option<string>)
      ensures value == StringValue(db.table, dataKey, defaultValue, readFails)
    {
      value := defaultValue;
      if !readFails {
        var key := ValueOf(dataKey);
        if key in db.table {
          value := Some(db.table[key]);
        }
      }
    }
  }

  /** The static field `mInstance` of the store class, with `initialize` and `getInstance`. */
  class Registry {
    var instance: SharedSqlite?

    constructor ()
      ensures instance == null
    {
      instance := null;
    }

    /** `initialize(context)`: a new instance over the context's database replaces any earlier one. */
    method Initialize(context: Database)
      modifies this
      ensures instance != null && fresh(instance) && instance.db == context
    {
      instance := new SharedSqlite(context);
    }

    /** `getInstance`: the most recent instance, or a NullPointerException if there is none. */
    method GetInstance() returns (r: InstanceResult)
      ensures instance == null ==> r == NullPointerException(NOT_INITIALIZED)
      ensures instance != null ==> r == Instance(instance)
    {
      if instance == null {
        r := NullPointerException(NOT_INITIALIZED);
      } else {
        r := Instance(instance);
      }
    }
  }

  /**
   Calling `initialize` twice is not idempotent: the second call installs a
   different instance, though both work on the same table, which keeps its rows.
   */
  method InitializeTwice(registry: Registry, context: Database) returns (first: SharedSqlite, second: SharedSqlite)
    modifies registry
    ensures first != second && registry.instance == second
    ensures first.db == context && second.db == context
    ensures context.table == old(context.table)
  {
    registry.Initialize(context);
    first := registry.instance;
    registry.Initialize(context);
    second := registry.instance;
  }

  // ---------------------------------------------------------------------
  // Properties of the model

  /** Upsert: a second write to the same key replaces the first; every other key keeps its value. */
  lemma UpsertReplaces(table: map<string, string>, k: string, v1: string, v2: string)
    ensures table[k := v1][k := v2] == table[k := v2]
    ensures (table[k := v1][k := v2]).Keys == table.Keys + {k}
    ensures forall other :: other in table && other != k ==> table[k := v1][k := v2][other] == table[other]
  {
  }

  /** After a successful `addValue(k, v)` the string getter returns `String.valueOf(v)`, whatever the default. */
  lemma StringAfterAdd(table: map<string, string>, k: JavaValue, v: JavaValue, defaultValue: Option<string>)
    ensures StringValue(table[ValueOf(k) := ValueOf(v)], k, defaultValue, false) == Some(ValueOf(v))
  {
  }

  /** Writing one key leaves what every other key reads unchanged. */
  lemma AddLeavesOtherKeys(table: map<string, string>, k: JavaValue, v: JavaValue, other: JavaValue,
                           defaultValue: Option<string>)
    requires ValueOf(other) != ValueOf(k)
    ensures StringValue(table[ValueOf(k) := ValueOf(v)], other, defaultValue, false)
         == StringValue(table, other, defaultValue, false)
  {
  }

  /** A key with no row reads as the default; a stored empty string reads as "" and not as the default. */
  lemma AbsentVersusEmpty(table: map<string, string>, k: JavaValue, defaultValue: Option<string>)
    ensures ValueOf(k) !in table ==> StringValue(table, k, defaultValue, false) == defaultValue
    ensures StringValue(table[ValueOf(k) := ""], k, defaultValue, false) == Some("")
  {
  }

  /** An int written with `addValue` reads back with `getIntValue`. */
  lemma IntAfterAdd(table: map<string, string>, k: JavaValue, n: int32, defaultValue: Option<int32>)
    ensures IntValue(table[ValueOf(k) := ValueOf(JInt(n))], k, defaultValue, false) == Some(n)
  {
    IntegerRoundTrip(n);
  }

  /** A long written with `addValue` reads back with `getLongValue`. */
  lemma LongAfterAdd(table: map<string, string>, k: JavaValue, n: int64, defaultValue: Option<int64>)
    ensures LongValue(table[ValueOf(k) := ValueOf(JLong(n))], k, defaultValue, false) == Some(n)
  {
    LongRoundTrip(n);
  }

  /** A long read back with `getIntValue` gives the long if it fits in an int, else the default. */
  lemma LongReadAsInt(table: map<string, string>, k: JavaValue, n: int64, defaultValue: Option<int32>)
    ensures IntValue(table[ValueOf(k) := ValueOf(JLong(n))], k, defaultValue, false)
         == if INT_MIN <= n <= INT_MAX then Some(n as int32) else defaultValue
  {
    LongAsInteger(n);
  }

  /** The typed getters give the default when the stored string is no numeral, e.g. "abc" or "". */
  lemma NumbersFallBack(table: map<string, string>, k: JavaValue, di: Option<int32>, dl: Option<int64>)
    ensures IntValue(table[ValueOf(k) := "abc"], k, di, false) == di
    ensures IntValue(table[ValueOf(k) := ""], k, di, false) == di
    ensures LongValue(table[ValueOf(k) := "abc"], k, dl, false) == dl
    ensures LongValue(table[ValueOf(k) := ""], k, dl, false) == dl
  {
    ParseRejectsNonNumerals(INT_MIN, INT_MAX);
    ParseRejectsNonNumerals(LONG_MIN, LONG_MAX);
  }

  /** Absent key or failing read: every getter returns its own default. */
  lemma AbsentGivesDefaults(table: map<string, string>, k: JavaValue, readFails: bool,
                            ds: Option<string>, di: Option<int32>, dl: Option<int64>, db: Option<bool>)
    requires readFails || ValueOf(k) !in table
    ensures StringValue(table, k, ds, readFails) == ds
    ensures IntValue(table, k, di, readFails) == di
    ensures LongValue(table, k, dl, readFails) == dl
    ensures BooleanValue(table, k, db, readFails) == db
  {
  }

  /**
   For a present key `getBooleanValue` is true exactly when the stored string
   is "true" in some letter case, and the default plays no part.
   */
  lemma BooleanPresentIgnoresDefault(table: map<string, string>, k: JavaValue, d1: Option<bool>, d2: Option<bool>)
    requires ValueOf(k) in table
    ensures BooleanValue(table, k, d1, false) == Some(EqualsIgnoreCase(table[ValueOf(k)], "true"))
    ensures BooleanValue(table, k, d1, false) == BooleanValue(table, k, d2, false)
  {
  }

  /** A boolean written with `addValue` reads back with `getBooleanValue`. */
  lemma BooleanAfterAdd(table: map<string, string>, k: JavaValue, b: bool, defaultValue: Option<bool>)
    ensures BooleanValue(table[ValueOf(k) := ValueOf(JBool(b))], k, defaultValue, false) == Some(b)
  {
    BooleanRoundTrip(b);
  }

  /** After `onUpgrade` every getter returns its default. */
  lemma UpgradeForgetsAll(k: JavaValue, ds: Option<string>, di: Option<int32>, dl: Option<int64>, db: Option<bool>)
    ensures StringValue(map[], k, ds, false) == ds
    ensures IntValue(map[], k, di, false) == di
    ensures LongValue(map[], k, dl, false) == dl
    ensures BooleanValue(map[], k, db, false) == db
  {
  }

  /**
   With a null default the typed getters return null exactly when no usable
   value is stored: no row, a failed read, or (for the numbers) a string
   that does not parse.
   */
  lemma NullDefaultMeansNoValue(table: map<string, string>, k: JavaValue, readFails: bool)
    ensures IntValue(table, k, None, readFails).Some?
        <==> !readFails && ValueOf(k) in table && IntegerValueOf(table[ValueOf(k)]).Some?
    ensures LongValue(table, k, None, readFails).Some?
        <==> !readFails && ValueOf(k) in table && LongValueOf(table[ValueOf(k)]).Some?
    ensures BooleanValue(table, k, None, readFails).Some? <==> !readFails && ValueOf(k) in table
  {
  }

  /** Store 7 under "level": the int getter reads 7 and the string getter reads "7". */
  lemma LevelExample(table: map<string, string>)
    ensures IntValue(table["level" := ValueOf(JInt(7))], JString("level"), Some(0), false) == Some(7)
    ensures StringValue(table["level" := ValueOf(JInt(7))], JString("level"), Some("none"), false) == Some("7")
  {
  }
}
