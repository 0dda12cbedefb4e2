# ColumnDataSource, modelled in Dafny

This project models the data sources of Bokeh's `bokeh/models/sources.py`.
It covers `ColumnDataSource`, a table of named columns, and the `ColumnsRef`
values that `DataSource.columns` builds. A column data source keeps two
pieces of state side by side:

- `data`, a mapping from column name to a sequence of values;
- `column_names`, a list of names.

`add` appends a column. When no name is given it generates a fresh default
name `"Series n"`: it counts upward from the number of keys until the name is
not a key. `remove` drops the first occurrence of a name from the list and
then deletes the key. A failure of either step gives a warning, and what was
already done stays done. The constructor takes its data as the `data` keyword
or as a single positional argument, with an empty dict as the default. It
converts a data frame with `from_df` and refuses any other non-dict value. It
then loads the dict column by column through `add`.

Layout:

- `wrappers.dfy`: `Option` and `Result`.
- `naming.dfy`: the decimal rendering behind `"Series %d"`. It proves that
  parsing the rendering gives the number back, so the default names are
  pairwise distinct. It also defines `FirstFree`, the search that `add`'s loop
  performs, and proves that the search ends within `len(data)` steps.
- `frames.dfy`: `from_df` over an abstract frame. A frame is its columns, plus
  the index's `name`, its level `names` and its values. `.tolist()` is the
  identity.
- `tables.dfy`: the pair (`column_names`, `data`) as a value. `AddStep` and
  `RemoveStep` give the effect of `add` and `remove` on it, with lemmas about
  both. These include the add-then-remove round trip, the numbering of
  repeated unnamed adds, and when the list stays consistent with the keys.
- `sources.dfy`: the class `ColumnDataSource`. Its fields are `columnNames`,
  `selected` and `data`, and `Add` and `Remove` update them in place. `Add`
  keeps the source's counting `while` loop. Each method's postcondition ties
  the new state to `AddStep` or `RemoveStep` applied to the old state. The
  file also has the constructor, the argument resolution (`ResolveData`,
  `Create`) and `Columns`.

For a multi-level index with some levels unnamed and some named, the code
raises a TypeError. Its guard evidently meant to accept that case. The model
keeps the code as written, and the constructor fails there as the program
does. It also gives the corrected rule; see "## Findings".

The warning of `remove` is the method's `warned` result. The `ValueError` of
the constructor is `Failure(InvalidArgument)`, and the TypeError from
converting a frame is `Failure(ConversionError(JoinTypeError))`. Python dicts iterate in an
order the model does not fix, so the constructor picks keys with `:|`. It
promises only that `column_names` lists every key exactly once.

## Model

| member | source | states |
|---|---|---|
| `Naming.Decimal` | bokeh/models/sources.py:142-144 | `%d` gives a non-empty digit string with no leading zero, except for 0 itself |
| `Naming.ParseDecimalOfDecimal` | bokeh/models/sources.py:142-144 | the `%d` rendering of a natural is a digit string that parses back to the same number |
| `Naming.DecimalInjective` | bokeh/models/sources.py:142-144 | distinct numbers render differently |
| `Naming.SeriesNameParses` | bokeh/models/sources.py:142-144 | `"Series %d" % n` is `"Series "` followed by digits that read back as n |
| `Naming.SeriesNameInjective` | bokeh/models/sources.py:142-144 | `"Series a"` equals `"Series b"` exactly when a = b |
| `Naming.SeriesNamesInCard` | bokeh/models/sources.py:141-143 | the names `"Series lo"` .. `"Series hi-1"` are hi - lo distinct strings |
| `Naming.FirstFree` | bokeh/models/sources.py:141-144 | the search from n returns an m >= n whose name is not a key, and every name it skipped is a key; it terminates because the remaining candidate keys shrink |
| `Naming.FirstFreeBound` | bokeh/models/sources.py:141-143 | the loop runs at most `len(data)` times past its start |
| `Tables.DefaultNameFresh` | bokeh/models/sources.py:140-144 | the generated name is not a key, its number is between `len(data)` and `2*len(data)`, and every number skipped names a key |
| `Tables.AddStep` | bokeh/models/sources.py:140-147 | the effect of `add`: the returned name is the given one, or a name that was not a key; `column_names` grows by one and ends with it; the column is stored under it |
| `Tables.AddNamed` | bokeh/models/sources.py:145-147 | a named add returns the name, appends it at the end of `column_names`, stores the column under it and leaves every other key and value as it was |
| `Tables.AddUnnamed` | bokeh/models/sources.py:140-147 | an unnamed add returns `"Series n"` with n at least the old key count, a name that was not a key, and otherwise acts as a named add of it |
| `Tables.AddFreshConsistent` | bokeh/models/sources.py:145-146 | adding under a name that is not a key keeps `column_names` a duplicate-free listing of the keys |
| `Tables.AddExistingDuplicates` | bokeh/models/sources.py:145-146 | adding under an existing key overwrites its column and lists the name twice |
| `Tables.FirstIndex` | bokeh/models/sources.py:163 | the position `list.remove` deletes: an occurrence of the name with none earlier |
| `Tables.RemoveFirst` | bokeh/models/sources.py:163 | `list.remove` shortens the list by one and removes one copy of the name from its multiset |
| `Tables.RemoveStep` | bokeh/models/sources.py:162-167 | the effect of `remove`: it warns exactly when the name is missing from the list or from the keys; an unlisted name changes nothing; a listed name leaves the list, and the key goes with it when present |
| `Tables.RemovePresent` | bokeh/models/sources.py:162-164 | removing a listed key drops only its first occurrence and the key, keeps all other values, and raises no warning |
| `Tables.RemoveUnlisted` | bokeh/models/sources.py:162-167 | removing an unlisted name changes neither field, even when it is a key, and warns |
| `Tables.RemoveListedMissing` | bokeh/models/sources.py:162-167 | removing a listed name that is no key still drops its first occurrence, keeps `data`, and warns |
| `Tables.RemoveWarns` | bokeh/models/sources.py:162-167 | the warning is issued exactly when the name is missing from the list or from the keys; a listed name always leaves the list |
| `Tables.RemoveConsistent` | bokeh/models/sources.py:162-164 | on a consistent source, remove keeps it consistent and warns exactly when the name is not a key |
| `Tables.AddThenRemove` | bokeh/models/sources.py:145-164 | add under a name that is neither listed nor a key, then remove it: the state is restored and there is no warning |
| `Tables.AddUnnamedThenRemove` | bokeh/models/sources.py:140-164 | on a consistent source, removing the generated name right after an unnamed add restores the state |
| `Tables.AddUnnamedFromEmpty` | bokeh/models/sources.py:140-147 | from an empty source, N unnamed adds return `"Series 0"` .. `"Series N-1"` in order, which then are the column names and the keys holding the columns |
| `Frames.Join` | bokeh/models/sources.py:106 | `"_".join`: empty for no parts, the part itself for one, and otherwise the first part followed by `_` |
| `Frames.IndexKeyAsWritten` | bokeh/models/sources.py:103-108 | the index key as coded: a non-empty `index.name`; else, when every level is named, the `_`-joined level names; else, when no level is named, `"index"`; it fails exactly when some but not all levels are named |
| `Frames.PartlyNamedIndexFails` | bokeh/models/sources.py:105-106 | levels named `[None, "b"]` pass the guard and make the join fail |
| `Frames.IndexKey` | bokeh/models/sources.py:103-108 | the intended key: a non-empty `index.name`, else the joined names of the named levels if there is one, else `"index"` |
| `Frames.IndexKeyAgrees` | bokeh/models/sources.py:103-108 | wherever the code yields a key, the intended rule yields the same one |
| `Frames.ColumnMap` | bokeh/models/sources.py:100-102 | the dict the column loop fills has exactly the frame's column names as keys |
| `Frames.ColumnMapSpec` | bokeh/models/sources.py:100-102 | the column loop's dict has exactly the frame's column names as keys, each holding the values of the last column with that name |
| `Frames.FromDfAsWritten` | bokeh/models/sources.py:99-109 | `from_df` as coded: it fails exactly when the index key fails; otherwise the keys are the column names plus the index key, which holds the index values |
| `Frames.FromDf` | bokeh/models/sources.py:99-109 | the result's keys are the column names plus the index key, and the index key holds the index values, so it overrides a column of that name |
| `Frames.FromDfColumns` | bokeh/models/sources.py:101-108 | every frame column is a key; unless the index took its name, it holds that column's values |
| `Frames.FromDfAgrees` | bokeh/models/sources.py:99-109 | the intended conversion equals the coded one wherever the coded one succeeds |
| `Frames.UnnamedIndexKey` | bokeh/models/sources.py:107-108 | an unnamed single-level index is stored under `"index"` |
| `Frames.NamedIndexKey` | bokeh/models/sources.py:103-104 | an index named `"date"` is stored under `"date"` |
| `Sources.SuppliedData` | bokeh/models/sources.py:72-75 | the `data` keyword if given; else a lone positional argument; else `{}` (two or more positional arguments are ignored) |
| `Sources.ResolveData` | bokeh/models/sources.py:72-81 | no data gives `{}`; a dict is used as is; a frame goes through `from_df` as coded; construction fails exactly for a value that is neither dict nor frame (`ValueError`) or a frame whose conversion fails (the TypeError of the join) |
| `Sources.ResolveCases` | bokeh/models/sources.py:72-81 | no argument gives an empty source; a single positional dict is the data; a frame succeeds exactly when `from_df` does, and an index with levels `[None, "b"]` makes construction fail; another value is refused; the `data` keyword wins over a positional argument |
| `Sources.ColumnDataSource.constructor` | bokeh/models/sources.py:82-83 | loading a dict through `add` gives `data` equal to it and `column_names` listing each key once |
| `Sources.ColumnDataSource.Create` | bokeh/models/sources.py:68-84 | construction fails with the resolution error, or yields a fresh source whose `data` is the resolved mapping and whose names list each key once |
| `Sources.ColumnDataSource.Add` | bokeh/models/sources.py:128-147 | the new (`column_names`, `data`) and the returned name are those of `AddStep` on the old state; `selected` is untouched |
| `Sources.ColumnDataSource.Remove` | bokeh/models/sources.py:149-167 | the new state and the warning flag are those of `RemoveStep` on the old state; it never fails; `selected` is untouched |
| `Sources.ColumnDataSource.Columns` | bokeh/models/sources.py:21-32 | the reference's source is this very object and its columns are the given names in argument order |

## Left out

- `push_notebook` (bokeh/models/sources.py:169-196) is left out: it does notebook display, JSON serialisation and emits JavaScript.
- `to_df` (bokeh/models/sources.py:111-126) is left out: it only hands the data to the pandas `DataFrame` constructor, and its failures come from pandas.
- `ServerDataSource` is left out: it declares fields and has no logic.
- The property framework is left out. This includes the forwarding of leftover keyword arguments to the base constructor (line 84), so an explicit `column_names` or `selected` keyword is not modelled. `selected` starts empty and no operation changes it.
- `DataSource` is not a separate class. The model has no inheritance, and `columns` is a member of `ColumnDataSource`.
- The pandas import and the `isinstance` test are a tagged variant, `RawData`. The message text of the `ValueError` and of the warning is not modelled.
- Column labels, keys and level names are strings. A non-string index name or level name (an `int`, say) is not modelled.
- Frames whose columns share a label are modelled as "the last column wins". In pandas, `data[colname]` then returns a sub-frame, which has no `tolist`.
- The equal-length assumption on columns is documented in the source but never checked, so it is not modelled.
- `Sources.ColumnDataSource.constructor`: it does not fix the order of `column_names`, because dict iteration order is not something the model can observe.

## Findings

| source | as written | input that shows it | evidently intended | confidence | as-written member | corrected member |
|---|---|---|---|---|---|---|
| bokeh/models/sources.py:105-106 | the guard `not all(x is None ...)` lets through level lists with some `None` entries, and `"_".join` then raises TypeError | an unnamed two-level index with level names `[None, "b"]` | name the index column after the joined named levels (here `"b"`), which is the case the guard `not all(x is None ...)` admits | high that it raises, medium on the intended naming; not executed | `Frames.PartlyNamedIndexFails` | `Frames.IndexKey` |

`Frames.FromDf` uses the corrected `Frames.IndexKey`.
`Frames.IndexKeyAsWritten` and `Frames.FromDfAsWritten` keep the behaviour as
coded. The constructor (`Sources.ResolveData`) converts frames as coded, so
construction fails on a partly named index as the program does. `Frames.IndexKeyAgrees` and `Frames.FromDfAgrees` prove that the two
versions agree on every input the code accepts.
