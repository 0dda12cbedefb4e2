/** The conversion of a data frame into a column mapping (`from_df`).
    A frame is modelled abstractly: its columns in iteration order, each a
    name and the column's values, and its row index with the index's
    `name`, its level `names` and its values. `.tolist()` is the identity on
    the value sequences. */
module Frames {
  import opened Wrappers

  datatype Column<T> = Column(name: string, values: seq<T>)

  datatype Index<T> = Index(name: Option<string>, names: seq<Option<string>>, values: seq<T>)

  datatype Frame<T> = Frame(columns: seq<Column<T>>, index: Index<T>)

  /** The exception `"_".join(...)` raises on a level name that is not a string. */
  datatype FrameError = JoinTypeError

  /** Python's `"_".join(parts)`. */
  function Join(parts: seq<string>): (s: string)
    ensures parts == [] ==> s == ""
    ensures |parts| >= 1 ==> |s| >= |parts[0]| && s[..|parts[0]|] == parts[0]
    ensures |parts| >= 2 ==> |s| > |parts[0]| && s[|parts[0]|] == '_'
    ensures |parts| == 1 ==> s == parts[0]
    decreases |parts|
  {
    if parts == [] then ""
    else if |parts| == 1 then parts[0]
    else parts[0] + "_" + Join(parts[1..])
  }

  /** Truthiness of `index.name`: set and not the empty string. */
  predicate HasName<T>(ix: Index<T>) {
    ix.name.Some? && ix.name.value != ""
  }

  /** `index.names and not all([x is None for x in index.names])`. */
  predicate SomeLevelNamed<T>(ix: Index<T>) {
    |ix.names| > 0 && exists i :: 0 <= i < |ix.names| && ix.names[i].Some?
  }

  predicate AllLevelsNamed<T>(ix: Index<T>) {
    forall i :: 0 <= i < |ix.names| ==> ix.names[i].Some?
  }

  /** The level names, when every one of them is set. */
  function LevelNames<T>(ix: Index<T>): (r: seq<string>)
    requires AllLevelsNamed(ix)
    ensures |r| == |ix.names| && forall i :: 0 <= i < |r| ==> Some(r[i]) == ix.names[i]
    decreases |ix.names|
  {
    if ix.names == [] then []
    else [ix.names[0].value] + LevelNames(ix.(names := ix.names[1..]))
  }

  /** The level names that are set, in level order. */
  function NamedLevels(names: seq<Option<string>>): (r: seq<string>)
    ensures |r| <= |names|
    ensures forall i :: 0 <= i < |names| && names[i].Some? ==> names[i].value in r
    ensures forall s :: s in r ==> Some(s) in names
    decreases |names|
  {
    if names == [] then []
    else (if names[0].Some? then [names[0].value] else []) + NamedLevels(names[1..])
  }

  /** The key of the synthetic index column, AS WRITTEN at
      bokeh/models/sources.py:103-108: the join fails with a TypeError when
      the guard lets through a level name that is None. */
  function IndexKeyAsWritten<T>(ix: Index<T>): (r: Result<string, FrameError>)
    ensures HasName(ix) ==> r == Success(ix.name.value)
    ensures !HasName(ix) && SomeLevelNamed(ix) && AllLevelsNamed(ix) ==> r == Success(Join(LevelNames(ix)))
    ensures !HasName(ix) && !SomeLevelNamed(ix) ==> r == Success("index")
    ensures r.Failure? <==> !HasName(ix) && SomeLevelNamed(ix) && !AllLevelsNamed(ix)
  {
    if HasName(ix) then Success(ix.name.value)
    else if SomeLevelNamed(ix) then
      if AllLevelsNamed(ix) then Success(Join(LevelNames(ix))) else Failure(JoinTypeError)
    else Success("index")
  }

  /** A two-level index whose first level is unnamed and whose second is
      named "b" passes the guard and then makes the join fail. */
  lemma PartlyNamedIndexFails<T>(values: seq<T>)
    ensures IndexKeyAsWritten(Index(None, [None, Some("b")], values)) == Failure(JoinTypeError)
  {
    var ix := Index(None, [None, Some("b")], values);
    assert ix.names[1].Some?;
    assert !ix.names[0].Some?;
  }

  /** The key of the synthetic index column, as intended: `index.name` if it
      is non-empty, else the underscore-joined names of the named levels if
      there is one, else "index". */
  function IndexKey<T>(ix: Index<T>): (key: string)
    ensures HasName(ix) ==> key == ix.name.value
    ensures !HasName(ix) && SomeLevelNamed(ix) ==> key == Join(NamedLevels(ix.names))
    ensures !HasName(ix) && !SomeLevelNamed(ix) ==> key == "index"
  {
    if HasName(ix) then ix.name.value
    else if SomeLevelNamed(ix) then Join(NamedLevels(ix.names))
    else "index"
  }

  lemma {:induction false} NamedLevelsAll<T>(names: seq<Option<string>>, ix: Index<T>)
    requires ix.names == names && AllLevelsNamed(ix)
    ensures NamedLevels(names) == LevelNames(ix)
    decreases |names|
  {
    if names != [] {
      NamedLevelsAll(names[1..], ix.(names := names[1..]));
    }
  }

  /** Wherever the code as written yields a key, the intended rule yields
      the same key; and the intended rule never fails. */
  lemma IndexKeyAgrees<T>(ix: Index<T>)
    ensures IndexKeyAsWritten(ix).Success? ==> IndexKeyAsWritten(ix).value == IndexKey(ix)
  {
    if !HasName(ix) && SomeLevelNamed(ix) && AllLevelsNamed(ix) {
      NamedLevelsAll(ix.names, ix);
    }
  }

  /** The dict filled by `for colname in data: new_data[colname] = ...`:
      columns are written in order, so a later column overrides an earlier
      one with the same name. */
  function ColumnMap<T>(cols: seq<Column<T>>): (m: map<string, seq<T>>)
    ensures m.Keys == Names(cols)
    decreases |cols|
  {
    if cols == [] then
      assert Names(cols) == {};
      map[]
    else
      NamesSnoc(cols);
      ColumnMap(cols[..|cols| - 1])[cols[|cols| - 1].name := cols[|cols| - 1].values]
  }

  /** The column names of the frame, the last one split off. */
  lemma NamesSnoc<T>(cols: seq<Column<T>>)
    requires cols != []
    ensures Names(cols) == Names(cols[..|cols| - 1]) + {cols[|cols| - 1].name}
  {
  }

  /** The keys are exactly the column names, and each name holds the values
      of the last column carrying it. */
  lemma {:induction false} ColumnMapSpec<T>(cols: seq<Column<T>>)
    ensures ColumnMap(cols).Keys == Names(cols)
    ensures forall i :: 0 <= i < |cols| && LastWithName(cols, i) ==>
              ColumnMap(cols)[cols[i].name] == cols[i].values
    decreases |cols|
  {
    if cols != [] {
      var init, last := cols[..|cols| - 1], cols[|cols| - 1];
      var m := ColumnMap(init);
      assert ColumnMap(cols) == m[last.name := last.values];
      ColumnMapSpec(init);
      NamesSnoc(cols);
      forall i | 0 <= i < |cols| && LastWithName(cols, i)
        ensures ColumnMap(cols)[cols[i].name] == cols[i].values
      {
        if i < |init| {
          LastWithNameInit(cols, i);
        }
      }
    } else {
      assert Names(cols) == {};
    }
  }

  lemma LastWithNameInit<T>(cols: seq<Column<T>>, i: int)
    requires 0 <= i < |cols| - 1 && LastWithName(cols, i)
    ensures LastWithName(cols[..|cols| - 1], i) && cols[i] == cols[..|cols| - 1][i]
    ensures cols[i].name != cols[|cols| - 1].name
  {
  }

  /** The names of a frame's columns. */
  function Names<T>(cols: seq<Column<T>>): set<string> {
    set i | 0 <= i < |cols| :: cols[i].name
  }

  /** Column `i` is the last one carrying its name. */
  predicate LastWithName<T>(cols: seq<Column<T>>, i: int)
    requires 0 <= i < |cols|
  {
    forall j :: i < j < |cols| ==> cols[j].name != cols[i].name
  }

  /** `from_df`, AS WRITTEN: the columns, then the index under its key. */
  function FromDfAsWritten<T>(f: Frame<T>): (r: Result<map<string, seq<T>>, FrameError>)
    ensures r.Failure? <==> IndexKeyAsWritten(f.index).Failure?
    ensures r.Success? ==>
      var key := IndexKeyAsWritten(f.index).value;
      && r.value.Keys == Names(f.columns) + {key}
      && r.value[key] == f.index.values
  {
    match IndexKeyAsWritten(f.index)
    case Success(key) => Success(ColumnMap(f.columns)[key := f.index.values])
    case Failure(e) => Failure(e)
  }

  /** `from_df` with the intended index key. */
  function FromDf<T>(f: Frame<T>): (m: map<string, seq<T>>)
    ensures IndexKey(f.index) in m && m[IndexKey(f.index)] == f.index.values
    ensures m.Keys == Names(f.columns) + {IndexKey(f.index)}
  {
    ColumnMapSpec(f.columns);
    ColumnMap(f.columns)[IndexKey(f.index) := f.index.values]
  }

  /** Every column of the frame is a key of the result, holding the values
      of the last column with that name unless the index took that key. */
  lemma FromDfColumns<T>(f: Frame<T>, i: int)
    requires 0 <= i < |f.columns|
    ensures f.columns[i].name in FromDf(f)
    ensures LastWithName(f.columns, i) && f.columns[i].name != IndexKey(f.index) ==>
              FromDf(f)[f.columns[i].name] == f.columns[i].values
  {
    ColumnMapSpec(f.columns);
  }

  /** The intended conversion agrees with the code wherever the code succeeds. */
  lemma FromDfAgrees<T>(f: Frame<T>)
    ensures FromDfAsWritten(f).Success? ==> FromDfAsWritten(f).value == FromDf(f)
  {
    IndexKeyAgrees(f.index);
  }

  /** An unnamed single-level index is stored under "index". */
  lemma UnnamedIndexKey<T>(values: seq<T>)
    ensures IndexKey(Index(None, [None], values)) == "index"
    ensures IndexKeyAsWritten(Index(None, [None], values)) == Success("index")
  {
  }

  /** An index named "date" is stored under "date". */
  lemma NamedIndexKey<T>(values: seq<T>)
    ensures IndexKey(Index(Some("date"), [Some("date")], values)) == "date"
    ensures IndexKeyAsWritten(Index(Some("date"), [Some("date")], values)) == Success("date")
  {
  }
}
