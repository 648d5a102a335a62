# Column metadata of the sqlboiler database drivers

This project models `drivers/column.go` from sqlboiler's driver layer in Dafny.
The generator's introspectors describe each table column with a `Column`
record. Templates then use two projectors and three filters over a table's
column list:

- `ColumnNames` gives the column names, position by position.
- `ColumnDBTypes` maps each title-cased column name to the column's native
  database type. A later column overwrites an earlier one with the same key.
- `FilterColumnsByAuto`, `FilterColumnsByDefault` and `FilterColumnsByEnum`
  keep the columns that pass a test, in input order. The tests are:
  auto-generated by the engine, has a non-empty default, and native type
  starts with `enum`.

Everything lives in one module, `Drivers`, in `column.dfy`:

- `Column` is a datatype. Go's `ArrType *string` is an `Option<string>`. Go's
  `Type` field is named `goType`, because `type` is a Dafny keyword.
- Each Go function is a method with the same single loop.
  - `ColumnNames` writes into a fresh array of the input's length, as
    `make([]string, len(cols))` does.
  - `ColumnDBTypes` updates a map.
  - Each filter appends to a sequence.
- Each method is proved against a specification:
  - `ColumnNames` states its result directly.
  - `ColumnDBTypes` equals the function `TypeMap`.
  - Each filter equals `Select(k, cols)`. Here `k` is a `Criterion`: the
    filter's test with its direction selector. `Keeps(k, c)` is the test
    exactly as each loop writes it.
- Lemmas about `Select` and `TypeMap` state what callers rely on:
  - the result is an order-preserving subsequence;
  - exactly the passing indices are kept;
  - a filter and its flipped selector partition the input;
  - filtering is idempotent;
  - map keys are exactly the normalised names;
  - the last writer wins;
  - the map has at most one entry per column.

The identifier title-casing routine (`strmangle.TitleCase`) is not part of
this model. It is a parameter `norm: string -> string` of `ColumnDBTypes` and
`TypeMap`, and no lemma depends on its casing rules.

## Model

| member | source | states |
|---|---|---|
| `Drivers.ColumnNames` | drivers/column.go:40-47 | the result has the input's length and holds `cols[i].name` at every index `i`; so an empty input gives an empty result |
| `Drivers.ColumnDBTypes` | drivers/column.go:50-58 | the map built by the loop equals `TypeMap(norm, cols)`; an empty input gives the empty map |
| `Drivers.TypeMapKeys` | drivers/column.go:53-55 | the map's key set is exactly `{ norm(c.name) : c in cols }` |
| `Drivers.TypeMapLastWriterWins` | drivers/column.go:53-55 | for the last column, in input order, whose name normalises to a key, the key is present and maps to that column's `dbType` |
| `Drivers.TypeMapSize` | drivers/column.go:50-58 | the map has at most as many entries as there are columns |
| `Drivers.TypeMapOneEntryPerColumn` | drivers/column.go:53-55 | when normalised names are pairwise distinct, there is exactly one entry per column, holding that column's own `dbType` |
| `Drivers.TypeMapExample` | drivers/column.go:53-55 | with a normaliser sending "id" to "ID" and "user_name" to "UserName", columns id:integer and user_name:text give `{"ID": "integer", "UserName": "text"}` |
| `Drivers.Column` | drivers/column.go:11-37 | the column record: name, Go type, native type, default, the nullable/unique/validated flags, and the dialect extras (Postgres array element type as an optional string and UDT name, MySQL full type, MS SQL auto-generated flag) |
| `Drivers.HasPrefix` | drivers/column.go:91 | Go's `strings.HasPrefix`, written as "long enough and the leading slice equals the prefix", holds exactly when `prefix` is a prefix of `s` |
| `Drivers.Keeps` | drivers/column.go:65-91 | the test each filter's loop applies (lines 65, 78 and 91), written as the source writes it; it holds iff `autoGenerated == auto` for the auto filter, iff "default non-empty" equals `defaults` for the default filter, and iff `enum` is a prefix of `dbType` for the enum filter |
| `Drivers.FlipNegates` | drivers/column.go:61-84 | flipping the selector of the auto or default filter negates its test, which is what lets one function serve both directions |
| `Drivers.TypeMap` | drivers/column.go:50-58 | the map after inserting `norm(name) := dbType` for each column in input order, later writes overwriting earlier ones |
| `Drivers.TypeMapEntriesFromColumns` | drivers/column.go:53-55 | every entry of the map is some column's normalised name paired with that same column's `dbType` |
| `Drivers.Select` | drivers/column.go:64-68 | the filtered sequence is no longer than the input, and each of its elements is an input column that passes the test |
| `Drivers.PositionsIncreasing` | drivers/column.go:64-68 | the input indices the filter keeps are in range and strictly increasing |
| `Drivers.PositionsExact` | drivers/column.go:64-68 | an input index is kept iff its column passes the test |
| `Drivers.SelectAtPositions` | drivers/column.go:64-68 | the filtered sequence has one element per kept index, and element `j` is the input column at the `j`-th kept index |
| `Drivers.SelectIsSubsequence` | drivers/column.go:61-71 | the result is an order-preserving subsequence of the input, made of exactly the columns at the indices that pass the test |
| `Drivers.SelectMembers` | drivers/column.go:61-71 | a column occurs in the result iff it occurs in the input and passes the test; elements are unchanged input columns |
| `Drivers.SelectAppend` | drivers/column.go:64-68 | filtering `a + b` gives the filtered `a` followed by the filtered `b`, so relative order is kept |
| `Drivers.SelectAllKept` | drivers/column.go:64-68 | when every input column passes, the filter returns the input unchanged |
| `Drivers.SelectIdempotent` | drivers/column.go:61-97 | filtering an already filtered list with the same test changes nothing |
| `Drivers.SelectPartition` | drivers/column.go:61-84 | for the auto and default filters, the multisets of the `true` and `false` results add up to the multiset of the input |
| `Drivers.SelectPartitionLength` | drivers/column.go:61-84 | for the auto and default filters, the lengths of the `true` and `false` results add up to the input's length |
| `Drivers.SelectDisjoint` | drivers/column.go:61-84 | for the auto and default filters, no column is in both the `true` and the `false` result |
| `Drivers.FilterColumnsByAuto` | drivers/column.go:61-71 | the appended result equals `Select(ByAuto(auto), columns)`: in input order, exactly the columns with `autoGenerated == auto` |
| `Drivers.FilterColumnsByDefault` | drivers/column.go:74-84 | the appended result equals `Select(ByDefault(defaults), columns)`: in input order, exactly the columns whose default is non-empty iff `defaults` |
| `Drivers.FilterColumnsByEnum` | drivers/column.go:87-97 | the appended result equals `Select(ByEnum, columns)`: in input order, exactly the columns whose `dbType` starts with `enum` (case-sensitive) |
| `Drivers.EnumPrefixBoundary` | drivers/column.go:91 | "enum_status" and "enum" have the prefix `enum`; "ENUM_STATUS" and "enu" do not |
| `Drivers.EnumFilterExample` | drivers/column.go:87-97 | of an `enum_status` column and an `ENUM_STATUS` column, the enum filter keeps only the first |

## Left out

- `strmangle.TitleCase` is not part of this model. It is an injected `norm: string -> string`, and its casing rules are not modelled.
- The fields `goType`, `udtName`, `fullDBType`, `arrType`, `nullable`, `unique` and `validated` are carried as plain data. No operation here reads them, and their meaning comes from the introspectors and type translators, which are not part of this model.
- Go's distinction between a `nil` slice and an empty slice is not modelled. Each filter returns `[]` where Go returns `nil`, and no caller logic covered here can tell them apart.
- Strings are sequences of characters, while Go strings are byte sequences: `len(c.Default)` counts bytes and `strings.HasPrefix` compares bytes (drivers/column.go:78, 91). The filters' results are unaffected, because a string is empty in bytes iff it is empty in characters, and the prefix `enum` is ASCII, so it is a byte prefix iff it is a character prefix.
- Go's map iteration order is not modelled, because a Dafny `map` has no order.
- Unique column names and non-empty native types are invariants of the introspectors, and nothing here checks them. Only `TypeMapOneEntryPerColumn` assumes distinct normalised names, and it states that assumption as its precondition.
