# SharedSqlite and VolumeView in Dafny

This project models two small Android library components and proves properties of the models.

**SharedSqlite** is a process-wide key-value store over one SQLite table, `shared_values_table`. The table has a `key` text column, which is the primary key, and a `value` text column. `addValue(key, value)` writes `String.valueOf` of both as an insert-or-replace. `getStringValue(key, default)` returns the stored string, or the default when no row has that key. `getIntValue`, `getLongValue` and `getBooleanValue` read the string and parse it with `Integer.valueOf`, `Long.valueOf` and `Boolean.valueOf`. They fall back to the default when the key is absent or the parse throws. The static field `mInstance` holds the current store. `initialize` replaces it, and `getInstance` throws a NullPointerException while it is still null.

**VolumeView** is a volume meter widget. `initViews` lays out n bars with n - 1 separators between them in a container, in a flat or a triangle style. It paints the first `filledBars` bars with the "filled" colour and sets the cursor `mVolume` to `filledBars`. `setVolume`, `volumeUp` and `volumeDown` repaint bars and move the cursor. The cursor is saved with the view state and re-applied through `setVolume` on restore.

Files:
- `java_lang.dfy` (module `JavaLang`) covers the Java integer types and the `String.valueOf` forms the components use. It also holds the parsers `Integer.valueOf`, `Long.valueOf` and `Boolean.valueOf`. Its main result is that printing an integer and parsing it back gives the integer exactly when it is in range.
- `shared_sqlite.dfy` (module `SharedSqlite`) models the store.
  - The table is a `map<string, string>` held by a `Database` object. That object stands for the database file, so every store instance created over the same file sees the same rows.
  - The store class has the write methods and the step-by-step `getStringValue`.
  - The typed getters are functions over the map: lookup, then parse.
- `volume_view.dfy` (module `VolumeView`) models the widget.
  - The widget is a class. Its fields are the container's children (a `seq<Child>`), the bar views by their colour (a `seq<Shade>`), and the `int` fields `mVolume` and `mTotalViews`.
  - `initViews` and `setVolume` keep their loops. The other methods change one bar and the cursor.

Several failures are inputs to the model, because they come from calls into code that is not modelled:
- storage failures: what `insertWithOnConflict` returned, or the SQLException it raised, for writes, and a flag saying that the read raised an SQLException, for reads;
- the IndexOutOfBoundsException raised by the list of bar views, which the methods return as an `Outcome`.

Java `int` arithmetic is written out with two's-complement wrap-around where it can matter:
- `mNumberOfBars * 2 - 1` in `initViews`. A negative attribute value of -2^30 becomes Integer.MAX_VALUE children.
- `mVolume--` in `volumeDown`. Integer.MIN_VALUE becomes Integer.MAX_VALUE, after which the lookup throws.

The widget's operations disagree about what the cursor means:
- `initViews`, `volumeUp` and `volumeDown` keep the filled bars equal to the first `mVolume` bars.
- `setVolume(v)` fills bars 0..v, which is v + 1 bars, and sets `mVolume` to v.

The model proves both. It also proves that a `volumeDown` right after `setVolume(v)` leaves a gap. Restoring a saved state goes through `setVolume`. So when the saved meter's filled bars were exactly its first `mVolume`, and `mVolume` is below the restored view's bar count, the restored meter shows one bar more than the saved one did. A meter last painted by `setVolume` comes back with the same bars. When `mVolume` is at or above the bar count, restoring changes nothing.

Each `initialize` installs a new instance, so calling it twice is not idempotent. The store keeps no count of open connections: every operation calls `getWritableDatabase` and then `close`.

## Model

| member | source | states |
|---|---|---|
| JavaLang.Wrap32 | VolumeView/VolumeView/src/com/volumeview/VolumeView.java:136 | the `int` result of an exact value: the value itself when in range, one 2^32 off just outside it, and always congruent to it modulo 2^32 |
| JavaLang.NatDigits | SharedSqlite/src/com/sharedsqlite/SharedSqlite.java:120 | the numeral of a natural number is a non-empty string of decimal digits with no leading zero |
| JavaLang.NatDigitsValue | SharedSqlite/src/com/sharedsqlite/SharedSqlite.java:120 | the digits of n denote n |
| JavaLang.DecimalString | SharedSqlite/src/com/sharedsqlite/SharedSqlite.java:120 | `String.valueOf` of an int or long: starts with '-' exactly for negative numbers, and is otherwise all digits |
| JavaLang.ParseDecimal | SharedSqlite/src/com/sharedsqlite/SharedSqlite.java:189 | a string that parses yields a value inside the requested range; the empty string never parses |
| JavaLang.IntegerValueOf | SharedSqlite/src/com/sharedsqlite/SharedSqlite.java:189 | `Integer.valueOf` is the signed decimal parse into the 32-bit range; what it promises is proved in IntegerRoundTrip, LongAsInteger, IntegerPlusSign and ParseRejectsNonNumerals |
| JavaLang.LongValueOf | SharedSqlite/src/com/sharedsqlite/SharedSqlite.java:210 | `Long.valueOf` is the signed decimal parse into the 64-bit range; what it promises is proved in LongRoundTrip and ParseRejectsNonNumerals |
| JavaLang.DecimalRoundTrip | SharedSqlite/src/com/sharedsqlite/SharedSqlite.java:189 | parsing the decimal form of any integer gives it back if it lies in the range, and fails otherwise |
| JavaLang.IntegerRoundTrip | SharedSqlite/src/com/sharedsqlite/SharedSqlite.java:189 | `Integer.valueOf(String.valueOf(n)) == n` for every 32-bit n |
| JavaLang.LongRoundTrip | SharedSqlite/src/com/sharedsqlite/SharedSqlite.java:210 | `Long.valueOf(String.valueOf(n)) == n` for every 64-bit n |
| JavaLang.LongAsInteger | SharedSqlite/src/com/sharedsqlite/SharedSqlite.java:189 | a long's decimal form parses as an int exactly when the long fits in 32 bits |
| JavaLang.ParseRejectsNonNumerals | SharedSqlite/src/com/sharedsqlite/SharedSqlite.java:188-190 | "abc", "", "-", " 7" and "7 " never parse |
| JavaLang.IntegerPlusSign | SharedSqlite/src/com/sharedsqlite/SharedSqlite.java:189 | a leading '+' is accepted: "+7" parses as 7 |
| JavaLang.BooleanString | SharedSqlite/src/com/sharedsqlite/SharedSqlite.java:120 | `String.valueOf(b)` is "true" exactly when b holds and "false" otherwise |
| JavaLang.EqualsIgnoreCase | SharedSqlite/src/com/sharedsqlite/SharedSqlite.java:273 | `equalsIgnoreCase` is reflexive and matches only strings of equal length |
| JavaLang.BooleanValueOf | SharedSqlite/src/com/sharedsqlite/SharedSqlite.java:273 | `Boolean.valueOf` is true only for four-character strings; it is total and never throws |
| JavaLang.BooleanRoundTrip | SharedSqlite/src/com/sharedsqlite/SharedSqlite.java:273 | `Boolean.valueOf(String.valueOf(b)) == b` |
| JavaLang.BooleanSamples | SharedSqlite/src/com/sharedsqlite/SharedSqlite.java:273 | "TRUE", "True", "tRuE" read as true; "yes", "1", "" and "true " read as false |
| SharedSqlite.Database.constructor | SharedSqlite/src/com/sharedsqlite/SharedSqlite.java:57-66 | a newly created database file has an empty table |
| SharedSqlite.ValueOf | SharedSqlite/src/com/sharedsqlite/SharedSqlite.java:120 | `String.valueOf` of a key or value: a string is kept as it is, an int, long or boolean is written in the form its parser reads back, a char becomes a one-character string, and null becomes "null" |
| SharedSqlite.StringValue | SharedSqlite/src/com/sharedsqlite/SharedSqlite.java:134-172 | the stored string of the key when the read succeeds and a row exists; the caller's default otherwise |
| SharedSqlite.IntValue | SharedSqlite/src/com/sharedsqlite/SharedSqlite.java:184-193 | the (possibly null) default when there is no row or the read fails; otherwise the parsed int, or the default when `Integer.valueOf` throws; the round trip is IntAfterAdd, the fallbacks are NumbersFallBack and NullDefaultMeansNoValue |
| SharedSqlite.LongValue | SharedSqlite/src/com/sharedsqlite/SharedSqlite.java:205-214 | the (possibly null) default when there is no row or the read fails; otherwise the parsed long, or the default when `Long.valueOf` throws; the round trip is LongAfterAdd, the fallbacks are NumbersFallBack and NullDefaultMeansNoValue |
| SharedSqlite.BooleanValue | SharedSqlite/src/com/sharedsqlite/SharedSqlite.java:268-277 | the (possibly null) default when there is no row or the read fails; otherwise `Boolean.valueOf` of the string, independent of the default (BooleanPresentIgnoresDefault) |
| SharedSqlite.SharedSqlite.constructor | SharedSqlite/src/com/sharedsqlite/SharedSqlite.java:52-54 | a store instance works on the database of the context it was created with |
| SharedSqlite.SharedSqlite.OnUpgrade | SharedSqlite/src/com/sharedsqlite/SharedSqlite.java:69-73 | dropping and re-creating the table leaves it empty |
| SharedSqlite.SharedSqlite.AddOrUpdate | SharedSqlite/src/com/sharedsqlite/SharedSqlite.java:79-109 | success exactly when the insert returned a row id above -1, and then the key maps to the value with every other row unchanged; on failure or SQLException it returns false and the table is unchanged |
| SharedSqlite.SharedSqlite.AddValue | SharedSqlite/src/com/sharedsqlite/SharedSqlite.java:119-122 | the same upsert on the `String.valueOf` forms of key and value |
| SharedSqlite.SharedSqlite.GetStringValue | SharedSqlite/src/com/sharedsqlite/SharedSqlite.java:134-172 | the step-by-step read returns exactly `StringValue` of the current table |
| SharedSqlite.Registry.constructor | SharedSqlite/src/com/sharedsqlite/SharedSqlite.java:25 | the static instance starts out null |
| SharedSqlite.Registry.Initialize | SharedSqlite/src/com/sharedsqlite/SharedSqlite.java:31-33 | installs a newly allocated instance over the given database |
| SharedSqlite.Registry.GetInstance | SharedSqlite/src/com/sharedsqlite/SharedSqlite.java:41-47 | a NullPointerException with the source's message while no instance exists; otherwise the most recently installed instance |
| SharedSqlite.InitializeTwice | SharedSqlite/src/com/sharedsqlite/SharedSqlite.java:31-33 | two `initialize` calls install two different instances over the same, unchanged table: the call is not idempotent |
| SharedSqlite.UpsertReplaces | SharedSqlite/src/com/sharedsqlite/SharedSqlite.java:92 | writing k twice equals writing the second value once; the key set gains only k and every other key keeps its value |
| SharedSqlite.StringAfterAdd | SharedSqlite/src/com/sharedsqlite/SharedSqlite.java:119-122 | after a successful `addValue(k, v)` the string getter returns `String.valueOf(v)` whatever the default |
| SharedSqlite.AddLeavesOtherKeys | SharedSqlite/src/com/sharedsqlite/SharedSqlite.java:92 | writing one key changes what no other key reads |
| SharedSqlite.AbsentVersusEmpty | SharedSqlite/src/com/sharedsqlite/SharedSqlite.java:137-152 | an absent key reads as the default; a stored "" reads as "" and not as the default |
| SharedSqlite.IntAfterAdd | SharedSqlite/src/com/sharedsqlite/SharedSqlite.java:184-193 | an int written with `addValue` is read back by `getIntValue`, whatever the default |
| SharedSqlite.LongAfterAdd | SharedSqlite/src/com/sharedsqlite/SharedSqlite.java:205-214 | a long written with `addValue` is read back by `getLongValue`, whatever the default |
| SharedSqlite.LongReadAsInt | SharedSqlite/src/com/sharedsqlite/SharedSqlite.java:184-193 | a long read with `getIntValue` gives the long if it fits in 32 bits and the default otherwise |
| SharedSqlite.NumbersFallBack | SharedSqlite/src/com/sharedsqlite/SharedSqlite.java:184-214 | a stored "abc" or "" makes `getIntValue` and `getLongValue` return their defaults |
| SharedSqlite.AbsentGivesDefaults | SharedSqlite/src/com/sharedsqlite/SharedSqlite.java:184-193 | with the key absent or the read failing, every getter returns its own default |
| SharedSqlite.BooleanPresentIgnoresDefault | SharedSqlite/src/com/sharedsqlite/SharedSqlite.java:268-277 | for a present key `getBooleanValue` is true exactly when the stored string equals "true" ignoring case, and the default makes no difference |
| SharedSqlite.BooleanAfterAdd | SharedSqlite/src/com/sharedsqlite/SharedSqlite.java:268-277 | a boolean written with `addValue` is read back by `getBooleanValue` |
| SharedSqlite.UpgradeForgetsAll | SharedSqlite/src/com/sharedsqlite/SharedSqlite.java:69-73 | after an upgrade every read returns its default |
| SharedSqlite.NullDefaultMeansNoValue | SharedSqlite/src/com/sharedsqlite/SharedSqlite.java:184-277 | with a null default, `getIntValue` and `getLongValue` return non-null exactly when a row is read and its string parses, and `getBooleanValue` exactly when a row is read |
| SharedSqlite.LevelExample | SharedSqlite/src/com/sharedsqlite/SharedSqlite.java:119-193 | storing int 7 under "level" reads back as 7 from `getIntValue` and as "7" from `getStringValue` |
| VolumeView.VolumeView.constructor | VolumeView/VolumeView/src/com/volumeview/VolumeView.java:168-174 | a new widget has no children, no bar views and a zero cursor |
| VolumeView.VolumeView.InitViews | VolumeView/VolumeView/src/com/volumeview/VolumeView.java:176-221 | appends exactly the layout of `mTotalViews` = 2n - 1 (in `int` arithmetic) children and one shade per bar; sets `mVolume` to `filledBars`; on an empty widget with 0 <= filledBars <= n <= 2^30 the filled bars are exactly the first `mVolume` (above 2^30, 2n - 1 wraps negative and no bars are laid out) |
| VolumeView.VolumeView.SetVolume | VolumeView/VolumeView/src/com/volumeview/VolumeView.java:108-121 | for v below the bar count the cursor becomes v and bar i is filled exactly when i <= v; otherwise nothing changes |
| VolumeView.VolumeView.VolumeUp | VolumeView/VolumeView/src/com/volumeview/VolumeView.java:123-133 | negative cursor: IndexOutOfBounds, nothing changed; cursor inside the list: that bar filled, cursor + 1, other bars unchanged; otherwise no-op; preserves the prefix invariant |
| VolumeView.VolumeView.VolumeDown | VolumeView/VolumeView/src/com/volumeview/VolumeView.java:135-144 | the cursor drops by one in `int` arithmetic; a non-negative result empties that bar, or throws IndexOutOfBounds past the list; a negative result resets it to 0; the cursor is never negative afterwards; preserves the prefix invariant |
| VolumeView.VolumeView.OnSaveInstanceState | VolumeView/VolumeView/src/com/volumeview/VolumeView.java:73-78 | the saved bundle carries the cursor |
| VolumeView.VolumeView.OnRestoreInstanceState | VolumeView/VolumeView/src/com/volumeview/VolumeView.java:81-90 | a bundle is re-applied exactly as `setVolume` of its int (0 when it has none); any other state leaves the bars alone |
| VolumeView.SaveAndRestore | VolumeView/VolumeView/src/com/volumeview/VolumeView.java:73-90 | saving a cursor below the target's bar count and restoring it recovers the cursor and paints bars 0..cursor |
| VolumeView.RestoreShowsOneMore | VolumeView/VolumeView/src/com/volumeview/VolumeView.java:73-121 | when the saved meter's filled bars are its first `mVolume` and `mVolume` is below the target's bar count, the restored meter has the prefix of length `mVolume` + 1 filled, not the prefix of length `mVolume` |
| VolumeView.TotalViews | VolumeView/VolumeView/src/com/volumeview/VolumeView.java:180 | `mNumberOfBars * 2 - 1` in `int` arithmetic: exactly 2n - 1 for 1 <= n <= 2^30, negative for n > 2^30, and congruent to 2n - 1 modulo 2^32 |
| VolumeView.LayoutShape | VolumeView/VolumeView/src/com/volumeview/VolumeView.java:180-220 | for 1 <= n <= 2^30 the layout has 2n - 1 children, bars exactly at even indices, and n bar views |
| VolumeView.LayoutEmptyOutsideRange | VolumeView/VolumeView/src/com/volumeview/VolumeView.java:180-182 | no layout when n <= 0 (above -2^30) or when 2n - 1 wraps negative (n > 2^30) |
| VolumeView.NegativeBarCountWraps | VolumeView/VolumeView/src/com/volumeview/VolumeView.java:180 | a bar count of -2^30 yields `mTotalViews` = Integer.MAX_VALUE |
| VolumeView.TriangleWeights | VolumeView/VolumeView/src/com/volumeview/VolumeView.java:196-200 | in the triangle style bar j (from 1) has top weight n - j and bottom weight j, which add up to n |
| VolumeView.InitialPrefix | VolumeView/VolumeView/src/com/volumeview/VolumeView.java:181-191 | with 0 <= filledBars <= n, bar k of the initial layout is filled exactly when k < filledBars |
| VolumeView.UpExtendsPrefix | VolumeView/VolumeView/src/com/volumeview/VolumeView.java:123-133 | filling the bar at cursor v of a length-v prefix gives a length-(v + 1) prefix |
| VolumeView.DownShrinksPrefix | VolumeView/VolumeView/src/com/volumeview/VolumeView.java:135-144 | emptying bar v - 1 of a length-v prefix gives a length-(v - 1) prefix |
| VolumeView.SetVolumeFillsOneMore | VolumeView/VolumeView/src/com/volumeview/VolumeView.java:108-121 | `setVolume(v)` with 0 <= v < count leaves the prefix of length v + 1 filled, never the prefix of length v, so it breaks the invariant the other operations keep |
| VolumeView.NegativeVolumeEmptiesAll | VolumeView/VolumeView/src/com/volumeview/VolumeView.java:109-117 | `setVolume` with a negative v empties every bar |
| VolumeView.PrefixIsGapless | VolumeView/VolumeView/src/com/volumeview/VolumeView.java:123-144 | a meter whose filled bars are a prefix has no empty bar below a filled one; with SetThenDownLeavesGap this shows that the bars after `setVolume` then `volumeDown` are no prefix of any length |
| VolumeView.SetThenDownLeavesGap | VolumeView/VolumeView/src/com/volumeview/VolumeView.java:108-144 | `volumeDown` right after `setVolume(v)` (0 < v < count) leaves an empty bar below a filled one |

## Left out

- SQLite I/O is not modelled: `getWritableDatabase`, `query` and the `Cursor`, `insertWithOnConflict`, `close`, `execSQL` and `Log` are foreign calls. The table is a map, and a failure of these calls is an input to the model. The cursor's column lookup always finds the `value` column of the fixed schema, so `columnIndex > -1` is not a separate case.
- `onCreate` is not a separate operation: the model's table always exists. A new `Database` starts empty, and `OnUpgrade` leaves an empty table.
- `getDoubleValue` and `getFloatValue` are not modelled, because they depend on floating-point parsing. For the same reason, double and float keys and values are not modelled.
- SharedSqlite.IntValue, SharedSqlite.LongValue and SharedSqlite.BooleanValue: the boxed default and result are an `Option`, with None for null. A caller that unboxes a null result into a primitive gets a NullPointerException in its own code, and that is not modelled.
- SharedSqlite.JavaValue covers string, int, long, boolean, char and null keys and values. Other types (short, byte, arbitrary objects with their own `toString`) are not modelled.
- JavaLang.ParseDecimal accepts ASCII digits only. Java's `Character.digit` also accepts other Unicode decimal digits, such as full-width ones. The leading '+' follows the OpenJDK parser.
- JavaLang.EqualsIgnoreCase folds ASCII letters only. Java's `equalsIgnoreCase` uses full Unicode case mapping.
- Exceptions other than SQLException (runtime exceptions from the platform) propagate out of `addOrUpdate` and `getStringValue` in Java. They are not modelled.
- No reference-counted connection handle is modelled, because the code has none. It only calls `getWritableDatabase` and `close` on the platform helper, whose internals are not part of this model.
- Concurrency is not modelled: the code takes no locks.
- SharedSqlite/src/com/sharedsqlite/SharedSqliteDatabase.java is not part of this model. It holds only the statements that SharedSqlite.java also builds, and it refers to a type that does not exist.
- The Android view machinery in VolumeView is not modelled:
  - inflation, `LayoutParams`, `setBackgroundColor` and `invalidate`. Colours become the Filled/Empty shade.
  - reading the `TypedArray` attributes in `setAttributes`. The attribute values are constructor parameters.
  - the `LayoutStyle.values()[i]` lookup.
  - the parent's part of the saved `Bundle`, and `dispatchSaveInstanceState`/`dispatchRestoreInstanceState`.
- The float weights `mBarSize` and `mSeperatorSize` are not modelled. The float counter `j` in `initViews` becomes an `int`. A float stops counting exactly past 2^24 bars, and that is not modelled.
- VolumeView.VolumeView.Valid bounds the list of bar views by Integer.MAX_VALUE, the largest size a Java list can report. VolumeView.VolumeView.InitViews requires that its appends stay within that bound.
- VolumeView/Sample/src/com/example/sample/MainActivity.java is not part of this model. It only wires buttons to `volumeUp`, `volumeDown` and `setVolume`.
