/**
 * The reduce steps of flow/dataset_reduce.go: `LocalReduceBy` turns a
 * step into a call of the program itself that runs a registered reducer
 * over the key fields; `ReduceBy`, `Reduce` and `ReduceByKey` chain local
 * reduces, with a merge into one shard between them when the dataset has
 * several shards.
 */
module Reducing {
  import opened Outcomes
  import opened Numerals
  import opened SortOptions

  /** `script.Command`: an executable and its arguments. */
  datatype Command = Command(path: string, args: seq<string>)

  /** The step `add1ShardTo1Step` (not part of this model) adds, with the fields `LocalReduceBy` sets. */
  class Step {
    var name: string
    var isPipe: bool
    var isGoCode: bool
    var description: string
    var command: Option<Command>

    constructor()
      ensures name == "" && isPipe && !isGoCode && description == "" && command == None
    {
      name := "";
      isPipe := true;
      isGoCode := false;
      description := "";
      command := None;
    }
  }

  /** The text of each key index, in key order; none without a sort option. */
  method KeyPositions(sortOption: SortOption?) returns (keyPositions: seq<string>)
    ensures sortOption == null ==> keyPositions == []
    ensures sortOption != null ==> keyPositions == KeyTexts(sortOption.orderByList)
  {
    keyPositions := [];
    if sortOption != null {
      var indexes := sortOption.Indexes();
      for i := 0 to |indexes|
        invariant |keyPositions| == i
        invariant forall k :: 0 <= k < i ==> keyPositions[k] == IntToString(indexes[k])
      {
        keyPositions := keyPositions + [IntToString(indexes[i])];
      }
    }
  }

  /** The texts of the key indexes, in key order. */
  function KeyTexts(keys: seq<OrderByEntry>): seq<string>
  {
    seq(|keys|, k requires 0 <= k < |keys| => IntToString(keys[k].index))
  }

  /** `-gleam.keyFields`: the key positions joined by commas, or `0`, which combines all rows, when there are none. */
  function KeyFields(keyPositions: seq<string>): string
  {
    if |keyPositions| > 0 then Join(keyPositions, ",") else "0"
  }

  /** The reducer reads the key indexes back from `-gleam.keyFields` by splitting it on commas. */
  lemma KeyFieldsRoundTrip(keys: seq<OrderByEntry>)
    requires |keys| > 0
    ensures var parts := Split(KeyFields(KeyTexts(keys)), ',');
            |parts| == |keys| &&
            forall k :: 0 <= k < |parts| ==> IsIntText(parts[k]) && ParseInt(parts[k]) == keys[k].index
  {
    var texts := KeyTexts(keys);
    forall k | 0 <= k < |texts|
      ensures ',' !in texts[k]
    {
      var t := IntToString(keys[k].index);
      assert forall j :: 0 <= j < |t| ==> t[j] != ',';
    }
    SplitJoin(texts, ',');
    forall k | 0 <= k < |texts|
      ensures ParseInt(texts[k]) == keys[k].index
    {
      IntRoundTrip(keys[k].index);
    }
  }

  /** The arguments of the reducer's command: the program's own arguments, then the reducer and the key fields. */
  function ReducerArgs(osArgs: seq<string>, reducerId: string, keyFields: string): (args: seq<string>)
    requires |osArgs| >= 1
    ensures |args| == |osArgs| + 3
    ensures args[..|osArgs| - 1] == osArgs[1..]
    ensures args[|osArgs| - 1..] == ["-gleam.reducer", reducerId, "-gleam.keyFields", keyFields]
  {
    osArgs[1..] + ["-gleam.reducer", reducerId] + ["-gleam.keyFields", keyFields]
  }

  /**
   * `LocalReduceBy`: the step runs Go code (the program itself, found by
   * `os.Executable`), not a pipe, described by the reducer's name.  The
   * executable path and the reducer's name are parameters.
   */
  method LocalReduceBy(step: Step, name: string, reducerId: string, sortOption: SortOption?,
                       osArgs: seq<string>, executable: string, reducerName: string)
    requires |osArgs| >= 1
    modifies step
    ensures step.name == name && !step.isPipe && step.isGoCode && step.description == reducerName
    ensures var positions := if sortOption == null then [] else KeyTexts(sortOption.orderByList);
            step.command == Some(Command(executable, ReducerArgs(osArgs, reducerId, KeyFields(positions))))
  {
    step.name := name;
    step.isPipe := false;
    step.isGoCode := true;
    var keyPositions := KeyPositions(sortOption);
    var keyFields := "0";
    if |keyPositions| > 0 {
      keyFields := Join(keyPositions, ",");
    }
    step.description := reducerName;
    var args := osArgs[1..];
    args := args + ["-gleam.reducer", reducerId];
    args := args + ["-gleam.keyFields", keyFields];
    step.command := Some(Command(executable, args));
  }

  // ---------------------------------------------------------------------
  // Reduce pipelines

  /** The dataset operations a reduce chains; a sort option is its list of keys. */
  datatype Stage =
    | LocalSort(name: string, keys: seq<OrderByEntry>)
    | LocalReduce(name: string, reducerId: string, groupKeys: Option<seq<OrderByEntry>>)
    | MergeSortedTo(name: string, partitions: nat)
    | MergeTo(name: string, partitions: nat)

  /** `ReduceBy`: sort and reduce each shard; with several shards, merge the sorted shards into one and reduce again. */
  function ReduceBy(name: string, reducerId: string, keys: seq<OrderByEntry>, shards: nat): seq<Stage>
  {
    var n := name + ".ReduceBy";
    var local := [LocalSort(n, keys), LocalReduce(n + ".LocalReduceBy", reducerId, Some(keys))];
    if shards > 1 then local + [MergeSortedTo(n, 1), LocalReduce(n + ".LocalReduceBy2", reducerId, Some(keys))]
    else local
  }

  /** `Reduce`: reduce each shard over all rows; with several shards, merge into one and reduce again. */
  function Reduce(name: string, reducerId: string, shards: nat): seq<Stage>
  {
    var n := name + ".Reduce";
    var local := [LocalReduce(n + ".LocalReduce", reducerId, None)];
    if shards > 1 then local + [MergeTo(n, 1), LocalReduce(n + ".LocalReduce2", reducerId, None)]
    else local
  }

  /** `ReduceByKey`: `ReduceBy` on the sort option `Field(1)`. */
  function ReduceByKey(name: string, reducerId: string, shards: nat): seq<Stage>
  {
    ReduceBy(name, reducerId, [OrderByEntry(1, Ascending)], shards)
  }

  /** The shards a dataset has after the stages: local stages keep the count, a merge leaves its partition count. */
  function ShardsAfter(stages: seq<Stage>, shards: nat): nat
  {
    if stages == [] then shards
    else
      var s := stages[|stages| - 1];
      var before := ShardsAfter(stages[..|stages| - 1], shards);
      if s.MergeSortedTo? || s.MergeTo? then s.partitions else before
  }

  /** The last stage is a local reduce with the given reducer. */
  predicate EndsWithReduce(stages: seq<Stage>, reducerId: string)
  {
    |stages| > 0 && stages[|stages| - 1].LocalReduce? && stages[|stages| - 1].reducerId == reducerId
  }

  /**
   * A reduce by key ends with one local reduce over all the data: at
   * most one shard is left, the second reduce is added exactly when there
   * were several shards, and every reduce uses the same keys.
   */
  lemma ReduceByCombines(name: string, reducerId: string, keys: seq<OrderByEntry>, shards: nat)
    ensures var stages := ReduceBy(name, reducerId, keys, shards);
            EndsWithReduce(stages, reducerId) &&
            ShardsAfter(stages, shards) == (if shards > 1 then 1 else shards) &&
            (|stages| == 4 <==> shards > 1) &&
            forall i :: 0 <= i < |stages| && stages[i].LocalReduce? ==> stages[i].groupKeys == Some(keys)
  {
    var stages := ReduceBy(name, reducerId, keys, shards);
    assert stages[..|stages| - 1][..|stages| - 2] == stages[..|stages| - 2];
    if shards > 1 {
      assert stages[..3][..2][..1] == stages[..1];
    } else {
      assert |stages| == 2;
      assert stages[..1] == [stages[0]];
      assert stages[..1][..0] == [];
      assert ShardsAfter(stages[..1], shards) == shards;
    }
  }

  /** `ReduceByKey` groups every reduce by the first field, ascending. */
  lemma ReduceByKeyCombines(name: string, reducerId: string, shards: nat)
    ensures var stages := ReduceByKey(name, reducerId, shards);
            EndsWithReduce(stages, reducerId) &&
            ShardsAfter(stages, shards) == (if shards > 1 then 1 else shards) &&
            forall i :: 0 <= i < |stages| && stages[i].LocalReduce? ==> stages[i].groupKeys == Some([OrderByEntry(1, Ascending)])
  {
    ReduceByCombines(name, reducerId, [OrderByEntry(1, Ascending)], shards);
  }


  /** The same for `Reduce`, whose reduces see all rows as one group. */
  lemma ReduceCombines(name: string, reducerId: string, shards: nat)
    ensures var stages := Reduce(name, reducerId, shards);
            EndsWithReduce(stages, reducerId) &&
            ShardsAfter(stages, shards) == (if shards > 1 then 1 else shards) &&
            (|stages| == 3 <==> shards > 1) &&
            forall i :: 0 <= i < |stages| && stages[i].LocalReduce? ==> stages[i].groupKeys == None
  {
    var stages := Reduce(name, reducerId, shards);
    if shards > 1 {
      assert stages[..2][..1][..0] == [];
    } else {
      assert stages[..0] == [];
    }
  }
}
