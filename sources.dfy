/** The data source objects: `ColumnDataSource`, which holds a mapping from
    column names to columns plus the list `column_names` and updates both in
    place, and the `ColumnsRef` values that `columns(...)` builds. */
module Sources {
  import opened Wrappers
  import opened Naming
  import opened Frames
  import opened Tables

  /** "These named columns of that source": the source by identity. */
  datatype ColumnsRef = ColumnsRef(source: object, columns: seq<string>)

  /** What the constructor can be handed as its data: a dict, a data frame,
      or any other value. */
  datatype RawData<T> = DictData(m: map<string, seq<T>>) | FrameData(f: Frame<T>) | OtherData

  /** The `ValueError` raised for data that is neither a dict nor a frame,
      and the error `from_df` raises while converting a frame. */
  datatype ConstructError = InvalidArgument | ConversionError(cause: FrameError)

  /** The `data` value the constructor works on: the `data` keyword if
      given, else a single positional argument, else an empty dict. */
  function SuppliedData<T>(args: seq<RawData<T>>, kwData: Option<RawData<T>>): (raw: RawData<T>)
    ensures kwData.Some? ==> raw == kwData.value
    ensures kwData.None? && |args| == 1 ==> raw == args[0]
    ensures kwData.None? && |args| != 1 ==> raw == DictData(map[])
  {
    if kwData.Some? then kwData.value
    else if |args| == 1 then args[0]
    else DictData(map[])
  }

  /** The mapping the constructor loads, or the error it raises: the
      `ValueError` for a value that is neither a dict nor a frame, or the
      error of converting the frame with `from_df` as coded. */
  function ResolveData<T>(args: seq<RawData<T>>, kwData: Option<RawData<T>>): (r: Result<map<string, seq<T>>, ConstructError>)
    ensures kwData.None? && |args| != 1 ==> r == Success(map[])
    ensures r.Failure? <==>
      || SuppliedData(args, kwData).OtherData?
      || (SuppliedData(args, kwData).FrameData? && FromDfAsWritten(SuppliedData(args, kwData).f).Failure?)
    ensures SuppliedData(args, kwData).OtherData? ==> r == Failure(InvalidArgument)
    ensures SuppliedData(args, kwData).DictData? ==> r == Success(SuppliedData(args, kwData).m)
    ensures SuppliedData(args, kwData).FrameData? && FromDfAsWritten(SuppliedData(args, kwData).f).Success? ==>
              r == Success(FromDf(SuppliedData(args, kwData).f))
  {
    match SuppliedData(args, kwData)
    case DictData(m) => Success(m)
    case FrameData(f) =>
      FromDfAgrees(f);
      (match FromDfAsWritten(f)
       case Success(m) => Success(m)
       case Failure(e) => Failure(ConversionError(e)))
    case OtherData => Failure(InvalidArgument)
  }

  /** With no argument the source starts empty; a single positional dict
      is the data; a frame goes through `from_df`, whose failure on a partly
      named index makes construction fail; a value that is neither dict nor
      frame is refused; the `data` keyword wins over a positional argument. */
  lemma ResolveCases<T>(m: map<string, seq<T>>, m2: map<string, seq<T>>, f: Frame<T>, v: seq<T>)
    ensures ResolveData<T>([], None) == Success(map[])
    ensures ResolveData([DictData(m)], None) == Success(m)
    ensures ResolveData([FrameData(f)], None).Success? <==> FromDfAsWritten(f).Success?
    ensures ResolveData([FrameData(Frame([], Index(None, [None, Some("b")], v)))], None)
              == Failure(ConversionError(JoinTypeError))
    ensures ResolveData<T>([OtherData], None) == Failure(InvalidArgument)
    ensures ResolveData([DictData(m2)], Some(DictData(m))) == Success(m)
  {
    PartlyNamedIndexFails(v);
  }

  /** The constructor's loop has added exactly the keys of `m` outside
      `remaining`, each once and with its column from `m`. */
  ghost predicate Loaded<T>(t: Table<T>, m: map<string, seq<T>>, remaining: set<string>) {
    && t.data.Keys == m.Keys - remaining
    && (forall k :: k in t.data ==> t.data[k] == m[k])
    && Consistent(t)
    && |t.columnNames| == |t.data|
  }

  lemma LoadedStep<T>(t: Table<T>, m: map<string, seq<T>>, remaining: set<string>, name: string)
    requires remaining <= m.Keys && name in remaining && Loaded(t, m, remaining)
    ensures Loaded(AddStep(t, m[name], Some(name)).table, m, remaining - {name})
  {
    AddFreshConsistent(t, m[name], Some(name));
    var r := AddStep(t, m[name], Some(name)).table;
    assert r.data == t.data[name := m[name]] && name !in t.data;
    assert r.data.Keys == m.Keys - (remaining - {name});
    assert |r.columnNames| == |t.columnNames| + 1;
  }

  class ColumnDataSource<T> {
    var columnNames: seq<string>
    var selected: seq<int>
    var data: map<string, seq<T>>

    /** The list and the mapping together, as a value. */
    function State(): Table<T>
      reads this
    {
      Table(columnNames, data)
    }

    /** Loads `m` column by column through `add`, in the dict's (unspecified)
        iteration order. */
    constructor (m: map<string, seq<T>>)
      ensures data == m && Consistent(State())
      ensures |columnNames| == |m|
      ensures selected == []
    {
      columnNames := [];
      selected := [];
      data := map[];
      new;
      var remaining := m.Keys;
      while remaining != {}
        invariant remaining <= m.Keys
        invariant Loaded(State(), m, remaining)
        invariant selected == []
        decreases remaining
      {
        var name :| name in remaining;
        LoadedStep(State(), m, remaining, name);
        var _ := Add(m[name], Some(name));
        remaining := remaining - {name};
      }
      assert data.Keys == m.Keys;
    }

    /** `ColumnDataSource(*args, data=...)`: resolves the data, raising on a
        value that is neither a dict nor a frame, then loads it. */
    static method Create(args: seq<RawData<T>>, kwData: Option<RawData<T>>) returns (r: Result<ColumnDataSource<T>, ConstructError>)
      ensures ResolveData(args, kwData).Failure? ==> r == Failure(ResolveData(args, kwData).error)
      ensures ResolveData(args, kwData).Success? ==>
        && r.Success? && fresh(r.value)
        && r.value.data == ResolveData(args, kwData).value
        && Consistent(r.value.State())
        && r.value.selected == []
    {
      match ResolveData(args, kwData)
      case Failure(e) =>
        r := Failure(e);
      case Success(m) =>
        var source := new ColumnDataSource(m);
        r := Success(source);
    }

    /** `add(col, name)`: without a name, counts up from the number of keys
        to the first free default name; appends the name and sets the key. */
    method Add(col: seq<T>, name: Option<string>) returns (used: string)
      modifies this
      ensures Added(State(), used) == AddStep(old(State()), col, name)
      ensures selected == old(selected)
    {
      if name.Some? {
        used := name.value;
      } else {
        var keys := data.Keys;
        var n := |data|;
        while SeriesName(n) in keys
          invariant |data| <= n
          invariant FirstFree(keys, n) == FirstFree(keys, |data|)
          modifies {}
          decreases keys - SeriesNamesIn(0, n)
        {
          SeriesNameNotBelow(n);
          assert SeriesNamesIn(0, n + 1) == SeriesNamesIn(0, n) + {SeriesName(n)};
          n := n + 1;
        }
        used := SeriesName(n);
      }
      columnNames := columnNames + [used];
      data := data[used := col];
    }

    /** `remove(name)`: drops the first occurrence from `column_names`, then
        the key from `data`; reports the warning instead of raising. */
    method Remove(name: string) returns (warned: bool)
      modifies this
      ensures Removed(State(), warned) == RemoveStep(old(State()), name)
      ensures selected == old(selected)
    {
      if name !in columnNames {
        warned := true;
        return;
      }
      columnNames := RemoveFirst(columnNames, name);
      if name in data {
        data := data - {name};
        warned := false;
      } else {
        warned := true;
      }
    }

    /** `columns(*names)`: a reference to this very source and to the given
        names, in argument order, whether or not they are keys. */
    function Columns(names: seq<string>): (r: ColumnsRef)
      ensures r.source == this && r.columns == names
    {
      ColumnsRef(this, names)
    }
  }
}
