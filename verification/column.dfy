/** Column metadata of the code generator's database drivers: the Column
    record, the two projectors (names, normalised-name to native-type map) and
    the three filters (auto-generated, has-default, enum). */
module Drivers {

  datatype Option<T> = None | Some(value: T)

  /** One database column as the introspectors report it. The dialect-specific
      extras (`arrType`, `udtName`, `fullDBType`) are carried but never read
      here; `autoGenerated` is the MS SQL "value produced by the engine" flag. */
  datatype Column = Column(
    name: string,
    goType: string,
    dbType: string,
    default: string,
    nullable: bool,
    unique: bool,
    validated: bool,
    arrType: Option<string>,
    udtName: string,
    fullDBType: string,
    autoGenerated: bool
  )

  /** Go's strings.HasPrefix: `s` is at least as long as `prefix` and starts with it. */
  predicate HasPrefix(s: string, prefix: string): (r: bool)
    ensures r <==> prefix <= s
  {
    |prefix| <= |s| && s[..|prefix|] == prefix
  }

  /** The test each filter applies to a column, with its direction selector. */
  datatype Criterion =
    | ByAuto(auto: bool)          // FilterColumnsByAuto(auto, ...)
    | ByDefault(defaults: bool)   // FilterColumnsByDefault(defaults, ...)
    | ByEnum                      // FilterColumnsByEnum(...)

  /** The condition each filter's loop tests, written as the source writes it;
      each selector condition is plain equality with the selector. */
  predicate Keeps(k: Criterion, c: Column): (r: bool)
    ensures k.ByAuto? ==> (r <==> c.autoGenerated == k.auto)
    ensures k.ByDefault? ==> (r <==> (c.default != "") == k.defaults)
    ensures k.ByEnum? ==> (r <==> "enum" <= c.dbType)
  {
    match k
    case ByAuto(auto) => (auto && c.autoGenerated) || (!auto && !c.autoGenerated)
    case ByDefault(defaults) => (defaults && |c.default| != 0) || (!defaults && |c.default| == 0)
    case ByEnum => HasPrefix(c.dbType, "enum")
  }

  /** The same filter with its selector flipped (the enum filter has no flip). */
  function Flip(k: Criterion): Criterion
  {
    match k
    case ByAuto(auto) => ByAuto(!auto)
    case ByDefault(defaults) => ByDefault(!defaults)
    case ByEnum => ByEnum
  }

  /** Flipping the selector of the auto or default filter negates its test. */
  lemma FlipNegates(k: Criterion, c: Column)
    requires !k.ByEnum?
    ensures Keeps(Flip(k), c) <==> !Keeps(k, c)
  {
  }

  /** The columns of `cols` that `k` keeps, in input order: what the
      filters' append loop builds after each step. */
  function Select(k: Criterion, cols: seq<Column>): (r: seq<Column>)
    ensures |r| <= |cols|
    ensures forall i :: 0 <= i < |r| ==> r[i] in cols && Keeps(k, r[i])
  {
    if cols == [] then []
    else
      var last := cols[|cols| - 1];
      Select(k, cols[..|cols| - 1]) + (if Keeps(k, last) then [last] else [])
  }

  /** The indices of the columns `k` keeps, in increasing order. */
  ghost function Positions(k: Criterion, cols: seq<Column>): seq<nat>
  {
    if cols == [] then []
    else
      Positions(k, cols[..|cols| - 1]) + (if Keeps(k, cols[|cols| - 1]) then [|cols| - 1] else [])
  }

  /** The kept indices are in range and strictly increasing. */
  lemma {:induction false} PositionsIncreasing(k: Criterion, cols: seq<Column>)
    ensures forall j :: 0 <= j < |Positions(k, cols)| ==> Positions(k, cols)[j] < |cols|
    ensures forall j1, j2 :: 0 <= j1 < j2 < |Positions(k, cols)| ==>
      Positions(k, cols)[j1] < Positions(k, cols)[j2]
  {
    if cols != [] {
      PositionsIncreasing(k, cols[..|cols| - 1]);
    }
  }

  /** An index is among the kept ones iff its column passes the test. */
  lemma {:induction false} PositionsExact(k: Criterion, cols: seq<Column>, i: int)
    requires 0 <= i < |cols|
    ensures i in Positions(k, cols) <==> Keeps(k, cols[i])
  {
    var n := |cols| - 1;
    var init := cols[..n];
    PositionsIncreasing(k, init);
    if i < n {
      assert cols[i] == init[i];
      PositionsExact(k, init, i);
    }
  }

  /** Select holds, position by position, the columns at the kept indices. */
  lemma {:induction false} SelectAtPositions(k: Criterion, cols: seq<Column>)
    ensures |Positions(k, cols)| == |Select(k, cols)|
    ensures forall j :: 0 <= j < |Select(k, cols)| ==>
      Positions(k, cols)[j] < |cols| && Select(k, cols)[j] == cols[Positions(k, cols)[j]]
  {
    PositionsIncreasing(k, cols);
    if cols != [] {
      var n := |cols| - 1;
      var init := cols[..n];
      SelectAtPositions(k, init);
      PositionsIncreasing(k, init);
      var r, pos := Select(k, cols), Positions(k, cols);
      forall j | 0 <= j < |r| ensures r[j] == cols[pos[j]] {
        if j < |Select(k, init)| {
          assert r[j] == Select(k, init)[j];
          assert pos[j] == Positions(k, init)[j];
        }
      }
    }
  }

  /** Select picks out exactly the kept indices, in increasing order: the
      result is an order-preserving subsequence of the input, and an index of
      the input is used iff its column passes the test. */
  lemma {:induction false} SelectIsSubsequence(k: Criterion, cols: seq<Column>)
    ensures var pos := Positions(k, cols);
      && |pos| == |Select(k, cols)|
      && (forall j :: 0 <= j < |pos| ==> pos[j] < |cols| && Select(k, cols)[j] == cols[pos[j]])
      && (forall j1, j2 :: 0 <= j1 < j2 < |pos| ==> pos[j1] < pos[j2])
      && (forall i :: 0 <= i < |cols| ==> (i in pos <==> Keeps(k, cols[i])))
  {
    SelectAtPositions(k, cols);
    PositionsIncreasing(k, cols);
    forall i | 0 <= i < |cols| ensures i in Positions(k, cols) <==> Keeps(k, cols[i]) {
      PositionsExact(k, cols, i);
    }
  }

  /** A column is in the result iff it is in the input and passes the test. */
  lemma {:induction false} SelectMembers(k: Criterion, cols: seq<Column>)
    ensures forall c :: c in Select(k, cols) <==> c in cols && Keeps(k, c)
  {
    SelectIsSubsequence(k, cols);
    var pos := Positions(k, cols);
    forall c | c in cols && Keeps(k, c) ensures c in Select(k, cols) {
      var i :| 0 <= i < |cols| && cols[i] == c;
      var j :| 0 <= j < |pos| && pos[j] == i;
    }
  }

  /** Filtering distributes over concatenation: no reordering across parts. */
  lemma {:induction false} SelectAppend(k: Criterion, a: seq<Column>, b: seq<Column>)
    ensures Select(k, a + b) == Select(k, a) + Select(k, b)
  {
    if b != [] {
      var n := |b| - 1;
      assert (a + b)[..|a + b| - 1] == a + b[..n];
      SelectAppend(k, a, b[..n]);
    } else {
      assert a + b == a;
    }
  }

  /** A sequence whose every column passes is left as it is. */
  lemma {:induction false} SelectAllKept(k: Criterion, cols: seq<Column>)
    requires forall c :: c in cols ==> Keeps(k, c)
    ensures Select(k, cols) == cols
  {
    if cols != [] {
      var n := |cols| - 1;
      var init := cols[..n];
      assert cols == init + [cols[n]];
      SelectAllKept(k, init);
      assert Keeps(k, cols[n]);
    }
  }

  /** Filtering twice with the same test gives the same result as once. */
  lemma SelectIdempotent(k: Criterion, cols: seq<Column>)
    ensures Select(k, Select(k, cols)) == Select(k, cols)
  {
    SelectAllKept(k, Select(k, cols));
  }

  /** A filter and its flip split the input exactly: their multisets add up
      to the input's. */
  lemma {:induction false} SelectPartition(k: Criterion, cols: seq<Column>)
    requires !k.ByEnum?
    ensures multiset(Select(k, cols)) + multiset(Select(Flip(k), cols)) == multiset(cols)
  {
    if cols != [] {
      var n := |cols| - 1;
      var init, last := cols[..n], cols[n];
      SelectPartition(k, init);
      FlipNegates(k, last);
      var yes, no := Select(k, init), Select(Flip(k), init);
      assert cols == init + [last];
      assert multiset(cols) == multiset(init) + multiset{last};
      if Keeps(k, last) {
        assert Select(Flip(k), cols) == no;
        assert multiset(Select(k, cols)) == multiset(yes + [last]) == multiset(yes) + multiset{last};
      } else {
        assert Select(k, cols) == yes;
        assert multiset(Select(Flip(k), cols)) == multiset(no + [last]) == multiset(no) + multiset{last};
      }
    }
  }

  /** The lengths of a filter's result and its flip's add up to the input's. */
  lemma SelectPartitionLength(k: Criterion, cols: seq<Column>)
    requires !k.ByEnum?
    ensures |Select(k, cols)| + |Select(Flip(k), cols)| == |cols|
  {
    SelectPartition(k, cols);
    assert |multiset(Select(k, cols)) + multiset(Select(Flip(k), cols))| == |multiset(cols)|;
  }

  /** No column lands on both sides of a filter and its flip. */
  lemma {:induction false} SelectDisjoint(k: Criterion, cols: seq<Column>)
    requires !k.ByEnum?
    ensures multiset(Select(k, cols)) !! multiset(Select(Flip(k), cols))
  {
    var yes, no := Select(k, cols), Select(Flip(k), cols);
    forall c | c in multiset(yes) ensures c !in multiset(no) {
      FlipNegates(k, c);
    }
  }

  /** The map built by ColumnDBTypes: each column in turn writes its native
      type under its normalised name, so later columns overwrite earlier ones. */
  function TypeMap(norm: string -> string, cols: seq<Column>): map<string, string>
  {
    if cols == [] then map[]
    else
      var last := cols[|cols| - 1];
      TypeMap(norm, cols[..|cols| - 1])[norm(last.name) := last.dbType]
  }

  /** Every entry is some column's normalised name paired with that same
      column's native type. */
  lemma {:induction false} TypeMapEntriesFromColumns(norm: string -> string, cols: seq<Column>, key: string)
    requires key in TypeMap(norm, cols)
    ensures exists i :: 0 <= i < |cols| && norm(cols[i].name) == key && TypeMap(norm, cols)[key] == cols[i].dbType
  {
    var n := |cols| - 1;
    if key != norm(cols[n].name) {
      TypeMapEntriesFromColumns(norm, cols[..n], key);
      var i :| 0 <= i < n && norm(cols[..n][i].name) == key && TypeMap(norm, cols[..n])[key] == cols[..n][i].dbType;
      assert cols[i] == cols[..n][i];
    }
  }

  /** The keys are exactly the normalised names of the columns. */
  lemma {:induction false} TypeMapKeys(norm: string -> string, cols: seq<Column>)
    ensures TypeMap(norm, cols).Keys == set c | c in cols :: norm(c.name)
  {
    if cols != [] {
      var n := |cols| - 1;
      TypeMapKeys(norm, cols[..n]);
      assert cols == cols[..n] + [cols[n]];
      assert (set c | c in cols :: norm(c.name))
          == (set c | c in cols[..n] :: norm(c.name)) + {norm(cols[n].name)};
    }
  }

  /** Column i is the last one whose name normalises to its key. */
  ghost predicate LastWithKey(norm: string -> string, cols: seq<Column>, i: int)
  {
    0 <= i < |cols| &&
    forall j :: i < j < |cols| ==> norm(cols[j].name) != norm(cols[i].name)
  }

  /** Last writer wins: each key holds the native type of the last column,
      in input order, whose name normalises to that key. */
  lemma {:induction false} TypeMapLastWriterWins(norm: string -> string, cols: seq<Column>, i: int)
    requires LastWithKey(norm, cols, i)
    ensures norm(cols[i].name) in TypeMap(norm, cols)
    ensures TypeMap(norm, cols)[norm(cols[i].name)] == cols[i].dbType
  {
    var n := |cols| - 1;
    if i < n {
      assert cols[i] == cols[..n][i];
      assert LastWithKey(norm, cols[..n], i);
      TypeMapLastWriterWins(norm, cols[..n], i);
    }
  }

  /** The map never has more entries than there are columns. */
  lemma {:induction false} TypeMapSize(norm: string -> string, cols: seq<Column>)
    ensures |TypeMap(norm, cols)| <= |cols|
  {
    if cols != [] {
      var n := |cols| - 1;
      TypeMapSize(norm, cols[..n]);
      var m := TypeMap(norm, cols[..n]);
      var key := norm(cols[n].name);
      assert m[key := cols[n].dbType].Keys == m.Keys + {key};
    }
  }

  /** When the normalised names are pairwise distinct there is one entry per
      column, holding that column's own native type. */
  lemma {:induction false} TypeMapOneEntryPerColumn(norm: string -> string, cols: seq<Column>)
    requires forall i, j :: 0 <= i < j < |cols| ==> norm(cols[i].name) != norm(cols[j].name)
    ensures |TypeMap(norm, cols)| == |cols|
    ensures forall i :: 0 <= i < |cols| ==>
      norm(cols[i].name) in TypeMap(norm, cols) && TypeMap(norm, cols)[norm(cols[i].name)] == cols[i].dbType
  {
    if cols != [] {
      var n := |cols| - 1;
      var init := cols[..n];
      TypeMapOneEntryPerColumn(norm, init);
      var key := norm(cols[n].name);
      forall other | other in TypeMap(norm, init) ensures other != key {
        TypeMapEntriesFromColumns(norm, init, other);
        var i :| 0 <= i < n && norm(init[i].name) == other && TypeMap(norm, init)[other] == init[i].dbType;
        assert init[i] == cols[i];
      }
    }
    forall i | 0 <= i < |cols|
      ensures norm(cols[i].name) in TypeMap(norm, cols)
      ensures TypeMap(norm, cols)[norm(cols[i].name)] == cols[i].dbType
    {
      TypeMapLastWriterWins(norm, cols, i);
    }
  }

  /** A column with the given name and native type and every other field empty. */
  function PlainColumn(name: string, dbType: string): Column
  {
    Column(name, "", dbType, "", false, false, false, None, "", "", false)
  }

  /** Under a title-casing normaliser, "id" and "user_name" become the keys
      "ID" and "UserName" holding their native types. */
  lemma TypeMapExample(norm: string -> string)
    requires norm("id") == "ID" && norm("user_name") == "UserName"
    ensures TypeMap(norm, [PlainColumn("id", "integer"), PlainColumn("user_name", "text")])
      == map["ID" := "integer", "UserName" := "text"]
  {
  }

  /** ColumnNames: the name of each column, position by position. */
  method ColumnNames(cols: seq<Column>) returns (names: seq<string>)
    ensures |names| == |cols|
    ensures forall i :: 0 <= i < |cols| ==> names[i] == cols[i].name
  {
    var buf := new string[|cols|];
    for i := 0 to |cols|
      invariant forall j :: 0 <= j < i ==> buf[j] == cols[j].name
    {
      buf[i] := cols[i].name;
    }
    names := buf[..];
  }

  /** ColumnDBTypes: normalised name to native type; `norm` stands for the
      identifier title-casing routine the generator uses. */
  method ColumnDBTypes(norm: string -> string, cols: seq<Column>) returns (types: map<string, string>)
    ensures types == TypeMap(norm, cols)
    ensures cols == [] ==> types == map[]  // the empty-input case, spelled out
  {
    types := map[];
    for i := 0 to |cols|
      invariant types == TypeMap(norm, cols[..i])
    {
      var c := cols[i];
      assert cols[..i + 1][..i] == cols[..i];
      types := types[norm(c.name) := c.dbType];
    }
    assert cols[..|cols|] == cols;
  }

  /** FilterColumnsByAuto: the columns whose auto-generated flag equals `auto`. */
  method FilterColumnsByAuto(auto: bool, columns: seq<Column>) returns (cols: seq<Column>)
    ensures cols == Select(ByAuto(auto), columns)
    ensures forall c :: c in cols <==> c in columns && c.autoGenerated == auto
  {
    cols := [];
    for i := 0 to |columns|
      invariant cols == Select(ByAuto(auto), columns[..i])
    {
      var c := columns[i];
      assert columns[..i + 1][..i] == columns[..i];
      if (auto && c.autoGenerated) || (!auto && !c.autoGenerated) {
        cols := cols + [c];
      }
    }
    assert columns[..|columns|] == columns;
    SelectMembers(ByAuto(auto), columns);
  }

  /** FilterColumnsByDefault: the columns whose default is non-empty iff `defaults`. */
  method FilterColumnsByDefault(defaults: bool, columns: seq<Column>) returns (cols: seq<Column>)
    ensures cols == Select(ByDefault(defaults), columns)
    ensures forall c :: c in cols <==> c in columns && (c.default != "") == defaults
  {
    cols := [];
    for i := 0 to |columns|
      invariant cols == Select(ByDefault(defaults), columns[..i])
    {
      var c := columns[i];
      assert columns[..i + 1][..i] == columns[..i];
      if (defaults && |c.default| != 0) || (!defaults && |c.default| == 0) {
        cols := cols + [c];
      }
    }
    assert columns[..|columns|] == columns;
    SelectMembers(ByDefault(defaults), columns);
  }

  /** FilterColumnsByEnum: the columns whose native type starts with the
      lower-case literal "enum" (case-sensitive). */
  method FilterColumnsByEnum(columns: seq<Column>) returns (cols: seq<Column>)
    ensures cols == Select(ByEnum, columns)
    ensures forall c :: c in cols <==> c in columns && "enum" <= c.dbType
  {
    cols := [];
    for i := 0 to |columns|
      invariant cols == Select(ByEnum, columns[..i])
    {
      var c := columns[i];
      assert columns[..i + 1][..i] == columns[..i];
      if HasPrefix(c.dbType, "enum") {
        cols := cols + [c];
      }
    }
    assert columns[..|columns|] == columns;
    SelectMembers(ByEnum, columns);
  }

  /** The case-sensitivity boundary of the enum test: "enum_status" passes,
      "ENUM_STATUS" and the too-short "enu" do not. */
  lemma EnumPrefixBoundary()
    ensures HasPrefix("enum_status", "enum")
    ensures !HasPrefix("ENUM_STATUS", "enum")
    ensures !HasPrefix("enu", "enum")
    ensures HasPrefix("enum", "enum")
  {
    assert "enum_status"[..4] == "enum";
    assert "ENUM_STATUS"[0] != "enum"[0];
  }

  /** Of an "enum_status" and an "ENUM_STATUS" column, the enum filter keeps
      only the first. */
  lemma EnumFilterExample()
    ensures Select(ByEnum, [PlainColumn("state", "enum_status"), PlainColumn("mode", "ENUM_STATUS")])
      == [PlainColumn("state", "enum_status")]
  {
    var a, b := PlainColumn("state", "enum_status"), PlainColumn("mode", "ENUM_STATUS");
    EnumPrefixBoundary();
    assert [a, b][..1] == [a];
    assert [a][..0] == [];
  }
}
