/**
 * The executor of one task group (distributed/executor/executor.go): it
 * starts every instruction of the set as a stage of a pipeline, chaining
 * stage k's output piper to stage k+1's input, wires the first stage to
 * the input shards and the last one to the output shards, and runs each
 * stage either as a built-in function or as a subprocess it retries at
 * most three times.
 *
 * Goroutines, channels and processes are not modelled: a stage launch is
 * recorded as a value, the subprocess is an oracle returning an error and
 * the input counter, and the event the final `select` receives is a
 * parameter.
 */
module Executing {
  import opened Outcomes
  import opened Encoding
  import opened Numerals

  // ---------------------------------------------------------------------
  // Instructions

  datatype ShardLocation = ShardLocation(name: string, address: string, onDisk: bool)

  /** Where a stage reads: a piper's reading end, a shard (read by a dialing goroutine), or a line reader wrapped into rows. */
  datatype Reader = PipeReader(piper: nat) | ShardReader(location: ShardLocation) | RowReader(source: Reader)

  /** Where a stage writes: a piper's writing end, or a shard (written by a dialing goroutine for `readerCount` readers). */
  datatype Writer = PipeWriter(piper: nat) | ShardWriter(location: ShardLocation, readerCount: int)

  /** `pb.Script`: whether it runs as a pipe, and the command line the executor rewrites. */
  class Script {
    const isPipe: bool
    var path: string
    var args: seq<string>

    constructor(isPipe: bool, path: string, args: seq<string>)
      ensures this.isPipe == isPipe && this.path == path && this.args == args
    {
      this.isPipe := isPipe;
      this.path := path;
      this.args := args;
    }
  }

  /**
   * `pb.Instruction`: a built-in function (what
   * `InstructionRunner.GetInstructionFunction` finds, returning its error)
   * or a script, and the shard locations the set's first and last stages use.
   */
  datatype Instruction = Instruction(
    name: string,
    stepId: int,
    taskId: int,
    script: Option<Script>,
    runFunction: Option<(seq<Reader>, seq<Writer>) -> Option<string>>,
    inputShardLocations: seq<ShardLocation>,
    outputShardLocations: seq<ShardLocation>)

  datatype InstructionSet = InstructionSet(
    flowHashCode: nat,
    isProfiling: bool,
    readerCount: int,
    instructions: seq<Instruction>)

  /** `pb.InstructionStat`: the subprocess runner counts the input it read. */
  class InstructionStat {
    const stepId: int
    const taskId: int
    var inputCounter: int

    constructor(stepId: int, taskId: int)
      ensures this.stepId == stepId && this.taskId == taskId && inputCounter == 0
    {
      this.stepId := stepId;
      this.taskId := taskId;
      inputCounter := 0;
    }
  }

  /** The arguments of the goroutine started for one stage. */
  datatype Launch = Launch(
    index: nat,
    prevIsPipe: bool,
    inPiper: nat,
    outPiper: nat,
    isFirst: bool,
    isLast: bool,
    readerCount: int)

  /** The event the final `select` receives first. */
  datatype Event = Finished | IoError(ioErr: Option<string>) | ExeError(exeErr: Option<string>)

  /** The error the final `select` returns for an event: none when every stage finished. */
  function EventError(event: Event): (err: Option<string>)
    ensures event.Finished? ==> err.None?
    ensures event.IoError? ==> err == event.ioErr
    ensures event.ExeError? ==> err == event.exeErr
  {
    match event
    case Finished => None
    case IoError(e) => e
    case ExeError(e) => e
  }

  // ---------------------------------------------------------------------
  // Stage wiring

  /** Whether the stage before stage `k` ran a pipe script: false for the first stage and after a stage without a script. */
  function PrevIsPipe(instructions: seq<Instruction>, k: nat): (prev: bool)
    requires k < |instructions|
    ensures prev <==> k > 0 && instructions[k - 1].script.Some? && instructions[k - 1].script.value.isPipe
  {
    if k == 0 then false
    else match instructions[k - 1].script
      case Some(s) => s.isPipe
      case None => false
  }

  /**
   * The stage launches of an instruction set.  Stage k reads piper k and
   * writes piper k+1, so each stage reads what the one before writes;
   * only the first stage is first and only the last is last.
   */
  function Launches(tasks: InstructionSet): (ls: seq<Launch>)
    ensures |ls| == |tasks.instructions|
    ensures forall k :: 0 <= k < |ls| ==> ls[k].index == k && ls[k].readerCount == tasks.readerCount
    ensures |ls| > 0 ==> ls[0].inPiper == 0
    ensures forall k :: 0 <= k < |ls| - 1 ==> ls[k + 1].inPiper == ls[k].outPiper
    ensures forall k :: 0 <= k < |ls| ==> ls[k].outPiper != ls[k].inPiper
    ensures forall k :: 0 <= k < |ls| ==> (ls[k].isFirst <==> k == 0) && (ls[k].isLast <==> k == |ls| - 1)
    ensures forall k :: 0 <= k < |ls| ==> ls[k].prevIsPipe == PrevIsPipe(tasks.instructions, k)
  {
    var n := |tasks.instructions|;
    seq(n, k requires 0 <= k < n =>
          Launch(k, PrevIsPipe(tasks.instructions, k), k, k + 1, k == 0, k == n - 1, tasks.readerCount))
  }

  /** `setupReaders`: a later stage reads its input piper; the first reads every input shard, in order. */
  function ReadersFor(i: Instruction, inPiper: nat, isFirst: bool): (readers: seq<Reader>)
    ensures !isFirst ==> readers == [PipeReader(inPiper)]
    ensures isFirst ==> |readers| == |i.inputShardLocations| &&
                        forall k :: 0 <= k < |readers| ==> readers[k] == ShardReader(i.inputShardLocations[k])
  {
    if !isFirst then [PipeReader(inPiper)]
    else seq(|i.inputShardLocations|, k requires 0 <= k < |i.inputShardLocations| => ShardReader(i.inputShardLocations[k]))
  }

  /** `setupWriters`: an earlier stage writes its output piper; the last writes every output shard, in order. */
  function WritersFor(i: Instruction, outPiper: nat, isLast: bool, readerCount: int): (writers: seq<Writer>)
    ensures !isLast ==> writers == [PipeWriter(outPiper)]
    ensures isLast ==> |writers| == |i.outputShardLocations| &&
                       forall k :: 0 <= k < |writers| ==> writers[k] == ShardWriter(i.outputShardLocations[k], readerCount)
  {
    if !isLast then [PipeWriter(outPiper)]
    else seq(|i.outputShardLocations|, k requires 0 <= k < |i.outputShardLocations| =>
               ShardWriter(i.outputShardLocations[k], readerCount))
  }

  method SetupReaders(i: Instruction, inPiper: nat, isFirst: bool) returns (readers: seq<Reader>)
    ensures readers == ReadersFor(i, inPiper, isFirst)
  {
    readers := [];
    if !isFirst {
      readers := readers + [PipeReader(inPiper)];
    } else {
      for k := 0 to |i.inputShardLocations|
        invariant |readers| == k
        invariant forall j :: 0 <= j < k ==> readers[j] == ShardReader(i.inputShardLocations[j])
      {
        readers := readers + [ShardReader(i.inputShardLocations[k])];
      }
    }
  }

  method SetupWriters(i: Instruction, outPiper: nat, isLast: bool, readerCount: int) returns (writers: seq<Writer>)
    ensures writers == WritersFor(i, outPiper, isLast, readerCount)
  {
    writers := [];
    if !isLast {
      writers := writers + [PipeWriter(outPiper)];
    } else {
      for k := 0 to |i.outputShardLocations|
        invariant |writers| == k
        invariant forall j :: 0 <= j < k ==> writers[j] == ShardWriter(i.outputShardLocations[j], readerCount)
      {
        writers := writers + [ShardWriter(i.outputShardLocations[k], readerCount)];
      }
    }
  }

  /** Within a set, every stage but the last writes exactly the one piper the next stage reads. */
  lemma PipelineConnected(tasks: InstructionSet, k: nat)
    requires k + 1 < |tasks.instructions|
    ensures var ls := Launches(tasks);
            var w := WritersFor(tasks.instructions[k], ls[k].outPiper, ls[k].isLast, ls[k].readerCount);
            var r := ReadersFor(tasks.instructions[k + 1], ls[k + 1].inPiper, ls[k + 1].isFirst);
            |w| == 1 && |r| == 1 && w[0].PipeWriter? && r[0].PipeReader? && w[0].piper == r[0].piper
  {
  }

  /** The readers a function gets: each wrapped into a row reader when the previous stage was a pipe. */
  function Wrapped(readers: seq<Reader>): (rs: seq<Reader>)
    ensures |rs| == |readers| && forall k :: 0 <= k < |rs| ==> rs[k] == RowReader(readers[k])
  {
    seq(|readers|, k requires 0 <= k < |readers| => RowReader(readers[k]))
  }

  method WrapReaders(readers: seq<Reader>) returns (tmpReaders: seq<Reader>)
    ensures tmpReaders == Wrapped(readers)
  {
    tmpReaders := [];
    for k := 0 to |readers|
      invariant |tmpReaders| == k && forall j :: 0 <= j < k ==> tmpReaders[j] == RowReader(readers[j])
    {
      tmpReaders := tmpReaders + [RowReader(readers[k])];
    }
  }

  // ---------------------------------------------------------------------
  // The command line of a script

  /** The flags a non-pipe script gets: the executor's address, the flow's hash code, the step and its task. */
  function CommandFlags(grpcAddress: string, flowHashCode: nat, stepId: int, taskId: int): seq<string>
  {
    ["-gleam.executor", grpcAddress,
     "-flow.hashcode", NatToString(flowHashCode),
     "-flow.stepId", IntToString(stepId),
     "-flow.taskId", IntToString(taskId)]
  }

  /** The subprocess reads back the values of its flags: each value follows its name. */
  lemma CommandFlagsRoundTrip(grpcAddress: string, flowHashCode: nat, stepId: int, taskId: int)
    ensures var f := CommandFlags(grpcAddress, flowHashCode, stepId, taskId);
            |f| == 8 && f[0] == "-gleam.executor" && f[1] == grpcAddress &&
            f[2] == "-flow.hashcode" && IsDecimal(f[3]) && ParseDecimal(f[3]) == flowHashCode &&
            f[4] == "-flow.stepId" && IsIntText(f[5]) && ParseInt(f[5]) == stepId &&
            f[6] == "-flow.taskId" && IsIntText(f[7]) && ParseInt(f[7]) == taskId
  {
    var h, st, t := NatToString(flowHashCode), IntToString(stepId), IntToString(taskId);
    assert CommandFlags(grpcAddress, flowHashCode, stepId, taskId)
        == ["-gleam.executor", grpcAddress, "-flow.hashcode", h, "-flow.stepId", st, "-flow.taskId", t];
    DecimalRoundTrip(flowHashCode);
    IntRoundTrip(stepId);
    IntRoundTrip(taskId);
  }

  /** The position just after the last `/` of `s`, or 0. */
  function AfterLastSlash(s: string): (i: nat)
    ensures i <= |s|
    ensures i > 0 ==> s[i - 1] == '/'
    ensures forall k :: i <= k < |s| ==> s[k] != '/'
  {
    if s == [] then 0
    else if s[|s| - 1] == '/' then |s|
    else AfterLastSlash(s[..|s| - 1])
  }

  /** `s` without its trailing slashes. */
  function TrimTrailingSlashes(s: string): (t: string)
    ensures |t| <= |s| && t == s[..|t|]
    ensures t == [] || t[|t| - 1] != '/'
    ensures forall k :: |t| <= k < |s| ==> s[k] == '/'
  {
    if s != [] && s[|s| - 1] == '/' then TrimTrailingSlashes(s[..|s| - 1]) else s
  }

  /** `filepath.Base`: the last element of a slash-separated path; `.` for an empty path, `/` for one of slashes only. */
  function Base(path: string): (b: string)
    ensures path == [] ==> b == "."
    ensures b != [] && (b == "/" || '/' !in b)
    ensures path != [] && (forall k :: 0 <= k < |path| ==> path[k] == '/') ==> b == "/"
  {
    if path == [] then "."
    else
      var t := TrimTrailingSlashes(path);
      if t == [] then "/" else t[AfterLastSlash(t)..]
  }

  /** The base of a path is its last element: what follows the last slash, trailing slashes aside. */
  lemma BaseOfElement(dir: string, name: string, trailing: nat)
    requires name != [] && '/' !in name
    ensures Base(dir + "/" + name + seq(trailing, _ => '/')) == name
  {
    var path := dir + "/" + name + seq(trailing, _ => '/');
    var prefix := dir + "/" + name;
    TrimSlashesOf(prefix, trailing);
    assert prefix[|dir| + 1..] == name;
    AfterSlashOf(dir, name);
  }

  lemma TrimSlashesOf(prefix: string, trailing: nat)
    requires prefix != [] && prefix[|prefix| - 1] != '/'
    ensures TrimTrailingSlashes(prefix + seq(trailing, _ => '/')) == prefix
    decreases trailing
  {
    if trailing > 0 {
      var s := prefix + seq(trailing, _ => '/');
      assert s[..|s| - 1] == prefix + seq(trailing - 1, _ => '/');
      TrimSlashesOf(prefix, trailing - 1);
    } else {
      assert prefix + seq(0, _ => '/') == prefix;
    }
  }

  lemma AfterSlashOf(dir: string, name: string)
    requires '/' !in name
    ensures AfterLastSlash(dir + "/" + name) == |dir| + 1
    decreases |name|
  {
    var s := dir + "/" + name;
    if name == [] {
      assert s[|s| - 1] == '/';
    } else {
      assert s[|s| - 1] == name[|name| - 1];
      assert s[..|s| - 1] == dir + "/" + name[..|name| - 1];
      AfterSlashOf(dir, name[..|name| - 1]);
    }
  }

  /** `filepath.Join` of a directory and a file name, without the cleaning of the result. */
  function JoinPath(dir: string, elem: string): (p: string)
    ensures dir == [] ==> p == elem
    ensures dir != [] ==> p == dir + "/" + elem
  {
    if dir == [] then elem else dir + "/" + elem
  }

  // ---------------------------------------------------------------------
  // Retrying a subprocess

  /** One run of the subprocess: its error and how much input it had read. */
  datatype Attempt = Attempt(err: Option<string>, inputCounter: int)

  /** An attempt worth repeating: it failed before reading any input. */
  predicate Retryable(a: Attempt)
  {
    a.err.Some? && a.inputCounter == 0
  }

  /**
   * The retry rule: one to three attempts; every attempt before the last
   * failed before reading input; the loop stops early only at an attempt
   * that succeeded or had read input; the reported error is the last
   * attempt's.
   */
  predicate RetryStops(run: (string, seq<string>, nat) -> Attempt, path: string, args: seq<string>,
                       attempts: nat, err: Option<string>)
  {
    1 <= attempts <= 3 &&
    (forall x :: 0 <= x < attempts - 1 ==> Retryable(run(path, args, x))) &&
    (attempts < 3 ==> !Retryable(run(path, args, attempts - 1))) &&
    err == run(path, args, attempts - 1).err
  }

  /** The retry rule leaves no choice: the number of attempts and the error are determined by the runs. */
  lemma RetryStopsUnique(run: (string, seq<string>, nat) -> Attempt, path: string, args: seq<string>,
                          a1: nat, e1: Option<string>, a2: nat, e2: Option<string>)
    requires RetryStops(run, path, args, a1, e1) && RetryStops(run, path, args, a2, e2)
    ensures a1 == a2 && e1 == e2
  {
  }

  /** A run that read input is never repeated, and an error is reported exactly when the last run failed. */
  lemma RetryAfterInput(run: (string, seq<string>, nat) -> Attempt, path: string, args: seq<string>,
                         attempts: nat, err: Option<string>)
    requires RetryStops(run, path, args, attempts, err)
    ensures run(path, args, 0).inputCounter != 0 ==> attempts == 1 && err == run(path, args, 0).err
    ensures err.Some? <==> run(path, args, attempts - 1).err.Some?
  {
  }

  /**
   * The retry loop: runs the command until it succeeds, has read input,
   * or has been tried three times; the stat holds the last run's input
   * counter.  `run` is the subprocess, by attempt number.
   */
  method RetryCommand(path: string, args: seq<string>, stat: InstructionStat,
                      run: (string, seq<string>, nat) -> Attempt)
    returns (attempts: nat, err: Option<string>)
    modifies stat
    ensures RetryStops(run, path, args, attempts, err)
    ensures stat.inputCounter == run(path, args, attempts - 1).inputCounter
  {
    var x := 0;
    while true
      invariant 0 <= x < 3
      invariant forall k :: 0 <= k < x ==> Retryable(run(path, args, k))
      decreases 3 - x
    {
      var a := run(path, args, x);
      stat.inputCounter := a.inputCounter;
      err := a.err;
      if err.None? || stat.inputCounter != 0 || x == 2 {
        attempts := x + 1;
        return;
      }
      x := x + 1;
    }
  }

  // ---------------------------------------------------------------------
  // Executing one instruction

  /** What one stage did. */
  datatype StageRun =
    | FunctionRun(readers: seq<Reader>, writers: seq<Writer>, funcErr: Option<string>)
    | NoScript
    | IndexPanic                     // `readers[0]` or `writers[0]` of an empty list
    | CommandRun(attempts: nat, commandErr: Option<string>)

  /** The error a stage sends to the execution error channel, if any. */
  function ExeErrorOf(name: string, r: StageRun): (e: Option<string>)
    ensures e.Some? <==> (r.FunctionRun? && r.funcErr.Some?) || r.NoScript? || (r.CommandRun? && r.commandErr.Some?)
  {
    match r
    case FunctionRun(_, _, Some(e)) => Some("Failed executing function " + name + ": " + e)
    case NoScript => Some("no script provided in instruction")
    case CommandRun(_, Some(e)) => Some("Failed executing command " + name + ": " + e)
    case _ => None
  }

  /** The objects running an instruction may change: its script. */
  function ScriptOf(i: Instruction): set<object>
  {
    if i.script.Some? then {i.script.value} else {}
  }

  // ---------------------------------------------------------------------
  // The executor

  /** The stats of a launch: one per instruction, in order, with no input counted yet. */
  predicate NewStats(stats: seq<InstructionStat>, all: seq<Instruction>)
    reads stats
  {
    && |stats| == |all|
    && forall k :: 0 <= k < |stats| ==>
         stats[k].stepId == all[k].stepId && stats[k].taskId == all[k].taskId && stats[k].inputCounter == 0
  }

  class Executor {
    const dir: string
    const instructions: InstructionSet
    var stats: seq<InstructionStat>
    var grpcAddress: string
    var launches: seq<Launch>
    var cancelled: bool

    /** `NewExecutor`. */
    constructor(dir: string, instructions: InstructionSet)
      ensures this.dir == dir && this.instructions == instructions
      ensures stats == [] && grpcAddress == "" && launches == [] && !cancelled
    {
      this.dir := dir;
      this.instructions := instructions;
      stats := [];
      grpcAddress := "";
      launches := [];
      cancelled := false;
    }

    /**
     * The loop of `ExecuteInstructionSet`: one stat per instruction,
     * appended in order, and one stage launch per instruction, each
     * reading the piper the stage before writes.
     */
    method LaunchStages()
      modifies this
      ensures launches == old(launches) + Launches(instructions)
      ensures |stats| == |old(stats)| + |instructions.instructions| && stats[..|old(stats)|] == old(stats)
      ensures NewStats(stats[|old(stats)|..], instructions.instructions)
      ensures forall st :: st in stats[|old(stats)|..] ==> fresh(st)
      ensures grpcAddress == old(grpcAddress) && cancelled == old(cancelled)
    {
      var all := instructions.instructions;
      var n := |all|;
      ghost var added: seq<InstructionStat> := [];
      ghost var expected := Launches(instructions);
      var prevIsPipe := false;
      var prevOutputPiper := 0;
      for index := 0 to n
        invariant prevOutputPiper == index
        invariant index < n ==> prevIsPipe == PrevIsPipe(all, index)
        invariant launches == old(launches) + expected[..index]
        invariant stats == old(stats) + added && |added| == index
        invariant NewStats(added, all[..index])
        invariant forall st :: st in added ==> fresh(st)
        invariant grpcAddress == old(grpcAddress) && cancelled == old(cancelled)
      {
        var instr := all[index];
        var inputPiper := prevOutputPiper;
        var outputPiper := prevOutputPiper + 1;
        var stat := new InstructionStat(instr.stepId, instr.taskId);
        stats := stats + [stat];
        added := added + [stat];
        launches := launches + [Launch(index, prevIsPipe, inputPiper, outputPiper, index == 0, index == n - 1,
                                       instructions.readerCount)];
        assert expected[..index + 1] == expected[..index] + [expected[index]];
        prevOutputPiper := outputPiper;
        if instr.script.Some? {
          prevIsPipe := instr.script.value.isPipe;
        } else {
          prevIsPipe := false;
        }
      }
      assert expected[..n] == expected;
      assert stats[|old(stats)|..] == added;
      assert all[..n] == all;
    }

    /**
     * `ExecuteInstructionSet`: listens on `listenAddress`, launches the
     * stages, then returns the error of the first event, cancelling the
     * stages when there is one.
     */
    method ExecuteInstructionSet(listenAddress: string, event: Event) returns (err: Option<string>)
      modifies this
      ensures grpcAddress == listenAddress
      ensures launches == old(launches) + Launches(instructions)
      ensures |stats| == |old(stats)| + |instructions.instructions| && stats[..|old(stats)|] == old(stats)
      ensures NewStats(stats[|old(stats)|..], instructions.instructions)
      ensures forall st :: st in stats[|old(stats)|..] ==> fresh(st)
      ensures err == EventError(event)
      ensures cancelled <==> old(cancelled) || err.Some?
    {
      grpcAddress := listenAddress;
      LaunchStages();
      err := EventError(event);
      if err.Some? {
        cancelled := true;
      }
    }

    /** The command line of a non-pipe script: the executor's flags are appended and the executable is looked up in the executor's directory. */
    method PrepareCommand(script: Script, stepId: int, taskId: int)
      modifies script
      ensures script.args == old(script.args) + CommandFlags(grpcAddress, instructions.flowHashCode, stepId, taskId)
                             + (if instructions.isProfiling then ["-gleam.profiling"] else [])
      ensures script.path == JoinPath(dir, Base(old(script.path)))
    {
      script.args := script.args + CommandFlags(grpcAddress, instructions.flowHashCode, stepId, taskId);
      if instructions.isProfiling {
        script.args := script.args + ["-gleam.profiling"];
      } else {
        assert script.args + [] == script.args;
      }
      var executablePath := Base(script.path);
      script.path := JoinPath(dir, executablePath);
    }

    /**
     * `executeInstruction`: wires the stage, then runs its built-in
     * function (with row readers after a pipe) or its script, preparing
     * the command line of a non-pipe script first.  `run` is the
     * subprocess.
     */
    method ExecuteInstruction(l: Launch, i: Instruction, stat: InstructionStat,
                              run: (string, seq<string>, nat) -> Attempt)
      returns (r: StageRun)
      modifies ScriptOf(i), stat
      ensures i.runFunction.Some? ==>
                var readers := ReadersFor(i, l.inPiper, l.isFirst);
                var passed := if l.prevIsPipe then Wrapped(readers) else readers;
                var writers := WritersFor(i, l.outPiper, l.isLast, l.readerCount);
                r == FunctionRun(passed, writers, i.runFunction.value(passed, writers))
      ensures i.runFunction.None? && i.script.None? ==> r == NoScript
      ensures i.runFunction.None? && i.script.Some? ==>
                (r.IndexPanic? || r.CommandRun?) &&
                (r.IndexPanic? <==> ReadersFor(i, l.inPiper, l.isFirst) == [] ||
                                    WritersFor(i, l.outPiper, l.isLast, l.readerCount) == [])
      ensures i.runFunction.None? && i.script.Some? && !i.script.value.isPipe ==>
                var s := i.script.value;
                s.args == old(s.args) + CommandFlags(grpcAddress, instructions.flowHashCode, i.stepId, i.taskId)
                          + (if instructions.isProfiling then ["-gleam.profiling"] else []) &&
                s.path == JoinPath(dir, Base(old(s.path)))
      ensures (i.runFunction.Some? || (i.script.Some? && i.script.value.isPipe)) && i.script.Some? ==>
                unchanged(i.script.value)
      ensures r.CommandRun? ==> RetryStops(run, i.script.value.path, i.script.value.args, r.attempts, r.commandErr)
    {
      var readers := SetupReaders(i, l.inPiper, l.isFirst);
      var writers := SetupWriters(i, l.outPiper, l.isLast, l.readerCount);
      if i.runFunction.Some? {
        if l.prevIsPipe {
          readers := WrapReaders(readers);
        }
        var e := i.runFunction.value(readers, writers);
        return FunctionRun(readers, writers, e);
      }
      if i.script.None? {
        return NoScript;
      }
      var script := i.script.value;
      if !script.isPipe {
        PrepareCommand(script, i.stepId, i.taskId);
      }
      if |readers| == 0 || |writers| == 0 {
        return IndexPanic;
      }
      var attempts, err := RetryCommand(script.path, script.args, stat, run);
      return CommandRun(attempts, err);
    }
  }
}
