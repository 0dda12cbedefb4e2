/** The state of a column data source as a value — its `column_names` list
    and its `data` mapping — and the effect of `add` and `remove` on it. The
    class in module Sources changes its fields exactly as these functions say. */
module Tables {
  import opened Wrappers
  import opened Naming

  datatype Table<T> = Table(columnNames: seq<string>, data: map<string, seq<T>>)

  /** The state after `add` and the name it returned. */
  datatype Added<T> = Added(table: Table<T>, used: string)

  /** The state after `remove` and whether it issued its warning. */
  datatype Removed<T> = Removed(table: Table<T>, warned: bool)

  /** `column_names` lists the keys of `data`, each exactly once. The source
      does not enforce this; `add` and `remove` can break it. */
  ghost predicate Consistent<T>(t: Table<T>) {
    && (forall k :: k in t.columnNames <==> k in t.data)
    && NoDuplicates(t.columnNames)
  }

  ghost predicate NoDuplicates(s: seq<string>) {
    forall i, j :: 0 <= i < j < |s| ==> s[i] != s[j]
  }

  /** Dropping position `i` from a list without duplicates drops exactly the
      element there and keeps the list free of duplicates. */
  lemma DropAt(s: seq<string>, i: nat)
    requires i < |s| && NoDuplicates(s)
    ensures var r := s[..i] + s[i + 1..];
      && NoDuplicates(r)
      && forall k :: k in r <==> k in s && k != s[i]
  {
  }

  /** The number of the name `add` generates: the first `n`, counting from
      the number of keys, for which `"Series n"` is not a key. */
  function DefaultNumber<T>(data: map<string, seq<T>>): nat {
    FirstFree(data.Keys, |data|)
  }

  function DefaultName<T>(data: map<string, seq<T>>): string {
    SeriesName(DefaultNumber(data))
  }

  /** The generated name is fresh, is numbered at least `|data|`, skips only
      numbers whose names are taken, and is found within `|data|` steps. */
  lemma DefaultNameFresh<T>(data: map<string, seq<T>>)
    ensures DefaultName(data) !in data
    ensures |data| <= DefaultNumber(data) <= 2 * |data|
    ensures forall k: nat :: |data| <= k < DefaultNumber(data) ==> SeriesName(k) in data
  {
    FirstFreeBound(data.Keys, |data|);
  }

  /** `add(col, name)`: append the name to `column_names`, then set the key. */
  function AddStep<T>(t: Table<T>, col: seq<T>, name: Option<string>): (r: Added<T>)
    ensures name.Some? ==> r.used == name.value
    ensures name.None? ==> r.used !in t.data
    ensures |r.table.columnNames| == |t.columnNames| + 1 && r.table.columnNames[|t.columnNames|] == r.used
    ensures r.used in r.table.data && r.table.data[r.used] == col
  {
    DefaultNameFresh(t.data);
    var used := if name.Some? then name.value else DefaultName(t.data);
    Added(Table(t.columnNames + [used], t.data[used := col]), used)
  }

  /** With an explicit name `add` returns it, appends it at the end of
      `column_names` (whether or not it was there), stores the column under it
      (overwriting any previous column of that name), and leaves every other
      key as it was. */
  lemma AddNamed<T>(t: Table<T>, col: seq<T>, name: string)
    ensures var r := AddStep(t, col, Some(name));
      && r.used == name
      && |r.table.columnNames| == |t.columnNames| + 1
      && r.table.columnNames[..|t.columnNames|] == t.columnNames
      && r.table.columnNames[|t.columnNames|] == name
      && name in r.table.data && r.table.data[name] == col
      && (forall k :: k != name ==> (k in r.table.data <==> k in t.data))
      && (forall k :: k != name && k in t.data ==> r.table.data[k] == t.data[k])
  {
  }

  /** Without a name `add` returns `"Series n"` for some `n` at least the old
      number of keys, a name that was not a key before the call, and otherwise
      changes the table as a named `add` of that name does. */
  lemma AddUnnamed<T>(t: Table<T>, col: seq<T>)
    ensures var r := AddStep(t, col, None);
      && r.used !in t.data
      && (exists n: nat :: |t.data| <= n && r.used == SeriesName(n))
      && r == AddStep(t, col, Some(r.used))
      && |r.table.data| == |t.data| + 1
  {
  }

  /** The index of the first occurrence of `x` in `s`. */
  function FirstIndex(s: seq<string>, x: string): (i: nat)
    requires x in s
    ensures i < |s| && s[i] == x && x !in s[..i]
    decreases |s|
  {
    if s[0] == x then 0
    else
      var j := FirstIndex(s[1..], x);
      assert s[..j + 1] == [s[0]] + s[1..][..j];
      1 + j
  }

  /** Python's `list.remove`, on a list that contains the element. */
  function RemoveFirst(s: seq<string>, x: string): (r: seq<string>)
    requires x in s
    ensures |r| == |s| - 1
    ensures multiset(r) == multiset(s) - multiset{x}
  {
    var i := FirstIndex(s, x);
    assert s == s[..i] + [s[i]] + s[i + 1..];
    s[..i] + s[i + 1..]
  }

  /** `remove(name)`: remove `name` from `column_names`, then delete the key;
      a failure of either step issues the warning and keeps what was done. */
  function RemoveStep<T>(t: Table<T>, name: string): (r: Removed<T>)
    ensures r.warned <==> name !in t.columnNames || name !in t.data
    ensures name !in t.columnNames ==> r.table == t
    ensures name in t.columnNames ==> |r.table.columnNames| == |t.columnNames| - 1
    ensures r.table.data.Keys == if name in t.columnNames then t.data.Keys - {name} else t.data.Keys
  {
    if name !in t.columnNames then Removed(t, true)
    else
      var names := RemoveFirst(t.columnNames, name);
      if name in t.data then Removed(Table(names, t.data - {name}), false)
      else Removed(Table(names, t.data), true)
  }

  /** `remove` of a listed name that is a key: the first occurrence leaves
      the list, the key leaves the map, nothing else changes, no warning. */
  lemma RemovePresent<T>(t: Table<T>, name: string)
    requires name in t.columnNames && name in t.data
    ensures var r := RemoveStep(t, name);
      var i := FirstIndex(t.columnNames, name);
      && !r.warned
      && r.table.columnNames == t.columnNames[..i] + t.columnNames[i + 1..]
      && r.table.data.Keys == t.data.Keys - {name}
      && (forall k :: k in r.table.data ==> r.table.data[k] == t.data[k])
  {
  }

  /** `remove` of a name that is not listed changes nothing and warns,
      even if the name is a key. */
  lemma RemoveUnlisted<T>(t: Table<T>, name: string)
    requires name !in t.columnNames
    ensures RemoveStep(t, name) == Removed(t, true)
  {
  }

  /** `remove` of a listed name that is not a key still drops its first
      occurrence from the list, keeps the map, and warns. */
  lemma RemoveListedMissing<T>(t: Table<T>, name: string)
    requires name in t.columnNames && name !in t.data
    ensures var r := RemoveStep(t, name);
      var i := FirstIndex(t.columnNames, name);
      && r.warned
      && r.table.columnNames == t.columnNames[..i] + t.columnNames[i + 1..]
      && r.table.data == t.data
  {
  }

  /** The warning is issued exactly when one of the two removals fails. */
  lemma RemoveWarns<T>(t: Table<T>, name: string)
    ensures RemoveStep(t, name).warned <==> name !in t.columnNames || name !in t.data
    ensures name in t.columnNames ==> |RemoveStep(t, name).table.columnNames| == |t.columnNames| - 1
  {
  }

  lemma FirstIndexOfAppended(s: seq<string>, x: string)
    requires x !in s
    ensures FirstIndex(s + [x], x) == |s|
  {
  }

  /** `add(col, name)` followed by `remove(name)` restores the table when the
      name was neither listed nor a key. */
  lemma AddThenRemove<T>(t: Table<T>, col: seq<T>, name: string)
    requires name !in t.columnNames && name !in t.data
    ensures RemoveStep(AddStep(t, col, Some(name)).table, name) == Removed(t, false)
  {
    var a := AddStep(t, col, Some(name)).table;
    FirstIndexOfAppended(t.columnNames, name);
    assert a.columnNames[..|t.columnNames|] == t.columnNames;
    assert a.data - {name} == t.data;
  }

  /** On a consistent table, removing the generated name right after an
      unnamed `add` restores the table. */
  lemma AddUnnamedThenRemove<T>(t: Table<T>, col: seq<T>)
    requires Consistent(t)
    ensures var r := AddStep(t, col, None);
      RemoveStep(r.table, r.used) == Removed(t, false)
  {
    AddUnnamed(t, col);
    AddThenRemove(t, col, AddStep(t, col, None).used);
  }

  /** `add` with a name that is not yet a key keeps the table consistent. */
  lemma AddFreshConsistent<T>(t: Table<T>, col: seq<T>, name: Option<string>)
    requires Consistent(t)
    requires name.None? || name.value !in t.data
    ensures Consistent(AddStep(t, col, name).table)
  {
  }

  /** `add` with a name that is already a key lists it twice and overwrites
      its column. */
  lemma AddExistingDuplicates<T>(t: Table<T>, col: seq<T>, name: string)
    requires Consistent(t) && name in t.data
    ensures var r := AddStep(t, col, Some(name)).table;
      && !Consistent(r)
      && r.data.Keys == t.data.Keys && r.data[name] == col
      && multiset(r.columnNames)[name] == 2
  {
    var r := AddStep(t, col, Some(name)).table;
    var i := FirstIndex(t.columnNames, name);
    assert r.columnNames[i] == r.columnNames[|t.columnNames|];
    assert multiset(t.columnNames)[name] == 1 by {
      var s := t.columnNames;
      assert s == s[..i] + [name] + s[i + 1..];
      DropAt(s, i);
    }
  }

  /** `remove` on a consistent table keeps it consistent, and it warns
      exactly when the name is not a column. */
  lemma RemoveConsistent<T>(t: Table<T>, name: string)
    requires Consistent(t)
    ensures Consistent(RemoveStep(t, name).table)
    ensures RemoveStep(t, name).warned <==> name !in t.data
  {
  }

  /** The names and the final state of a run of unnamed `add` calls. */
  datatype Run<T> = Run(table: Table<T>, used: seq<string>)

  function AddUnnamedRun<T>(t: Table<T>, cols: seq<seq<T>>): Run<T>
    decreases |cols|
  {
    if cols == [] then Run(t, [])
    else
      var p := AddUnnamedRun(t, cols[..|cols| - 1]);
      var a := AddStep(p.table, cols[|cols| - 1], None);
      Run(a.table, p.used + [a.used])
  }

  /** On a table whose keys are "Series 0" .. "Series (k-1)", the next
      generated name is "Series k". */
  lemma DefaultAfterSeries<T>(data: map<string, seq<T>>, k: nat)
    requires data.Keys == SeriesNamesIn(0, k)
    ensures DefaultNumber(data) == k
  {
    SeriesNamesInCard(0, k);
    SeriesNameNotBelow(k);
  }

  /** The outcome of N unnamed calls from empty: "Series i" for the i-th. */
  ghost predicate NumberedRun<T>(r: Run<T>, cols: seq<seq<T>>) {
    NumberedNames(r.used, |cols|) && r.table.columnNames == r.used && NumberedData(r.table.data, cols)
  }

  ghost predicate NumberedNames(used: seq<string>, n: nat) {
    |used| == n && forall i :: 0 <= i < n ==> used[i] == SeriesName(i)
  }

  ghost predicate NumberedData<T>(data: map<string, seq<T>>, cols: seq<seq<T>>) {
    && data.Keys == SeriesNamesIn(0, |cols|)
    && forall i :: 0 <= i < |cols| ==> data[SeriesName(i)] == cols[i]
  }

  lemma NumberedNamesStep(used: seq<string>, n: nat)
    requires NumberedNames(used, n)
    ensures NumberedNames(used + [SeriesName(n)], n + 1)
  {
  }

  lemma NumberedDataStep<T>(data: map<string, seq<T>>, init: seq<seq<T>>, col: seq<T>)
    requires NumberedData(data, init)
    ensures NumberedData(data[SeriesName(|init|) := col], init + [col])
  {
    var k := |init|;
    var cols := init + [col];
    var d := data[SeriesName(k) := col];
    assert SeriesNamesIn(0, k + 1) == SeriesNamesIn(0, k) + {SeriesName(k)};
    forall i | 0 <= i < |cols| ensures d[SeriesName(i)] == cols[i] {
      if i < k {
        SeriesNameInjective(i, k);
        assert cols[i] == init[i];
      }
    }
  }

  /** One more unnamed `add` extends a numbered run by the next number. */
  lemma NumberedStep<T>(p: Run<T>, init: seq<seq<T>>, col: seq<T>)
    requires NumberedRun(p, init)
    ensures var a := AddStep(p.table, col, None);
      NumberedRun(Run(a.table, p.used + [a.used]), init + [col])
  {
    var k := |init|;
    DefaultAfterSeries(p.table.data, k);
    var a := AddStep(p.table, col, None);
    assert a.used == SeriesName(k);
    NumberedNamesStep(p.used, k);
    NumberedDataStep(p.table.data, init, col);
  }

  /** Starting from an empty source, N unnamed `add` calls return
      "Series 0", "Series 1", ..., "Series N-1" in order; these are then the
      column names and the keys. */
  lemma {:induction false} AddUnnamedFromEmpty<T>(cols: seq<seq<T>>)
    ensures NumberedRun(AddUnnamedRun(Table([], map[]), cols), cols)
    decreases |cols|
  {
    if cols == [] {
      assert SeriesNamesIn(0, 0) == {};
    } else {
      var init, c := cols[..|cols| - 1], cols[|cols| - 1];
      assert init + [c] == cols;
      AddUnnamedFromEmpty(init);
      NumberedStep(AddUnnamedRun(Table([], map[]), init), init, c);
    }
  }
}
