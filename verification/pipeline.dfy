/**
  `main`: the stages of the ETL job run in a fixed order, each success is
  followed by a fixed log message, and the first stage that raises ends the
  job with a single `ETL Job Failed: <e>` log entry; the exception is caught
  and `main` returns normally. The log is an append-only sequence of
  messages whose writes always succeed; timestamps are not modelled.
 */
module Pipeline {
  import opened Wrappers

  /** The name of the database table the data set is loaded into. */
  const TableName: string := "Largest_Banks"

  /** The three read queries, in the order they are run. */
  const Queries: seq<string> := [
    "SELECT * FROM " + TableName,
    "SELECT AVG(MC_GBP_Billion) FROM " + TableName,
    "SELECT Name from " + TableName + " LIMIT 5"
  ]

  /** A piece of work `main` performs that may raise. */
  datatype Stage =
    | ExtractStage
    | TransformStage
    | SaveCsvStage
    | ConnectStage
    | LoadDbStage
    | QueryStage(statement: string)

  /** A stage and the message logged once it completes, if any (queries log nothing). */
  datatype Step = Step(stage: Stage, logged: Option<string>)

  // The longer messages are written as two joined literals: the verifier cannot read
  // single characters of a long literal, and `FixedMessagesAreNotFailures` needs the first.
  const Preliminaries: string := "Preliminaries complete." + " Initiating ETL process"
  const Extracted: string := "Data extraction complete." + " Initiating Transformation process"
  const Transformed: string := "Data transformation complete." + " Initiating Loading process"
  const SavedCsv: string := "Data saved to CSV file"
  const Connected: string := "SQL Connection initiated"
  const LoadedDb: string := "Data loaded to Database as a table," + " Executing queries"
  const ProcessComplete: string := "Process Complete"
  const ConnectionClosed: string := "Server Connection closed"
  const FailurePrefix: string := "ETL Job Failed: "

  /** The stages of `main` in execution order, with their completion messages. */
  const Steps: seq<Step> := [
    Step(ExtractStage, Some(Extracted)),
    Step(TransformStage, Some(Transformed)),
    Step(SaveCsvStage, Some(SavedCsv)),
    Step(ConnectStage, Some(Connected)),
    Step(LoadDbStage, Some(LoadedDb)),
    Step(QueryStage(Queries[0]), None),
    Step(QueryStage(Queries[1]), None),
    Step(QueryStage(Queries[2]), None)
  ]

  /** The log of a run in which no stage raises. */
  const SuccessLog: seq<string> := [
    Preliminaries, Extracted, Transformed, SavedCsv, Connected, LoadedDb, ProcessComplete, ConnectionClosed
  ]

  /** The stages of `main`, in the order they run. */
  const AllStages: seq<Stage> := [
    ExtractStage, TransformStage, SaveCsvStage, ConnectStage, LoadDbStage,
    QueryStage(Queries[0]), QueryStage(Queries[1]), QueryStage(Queries[2])
  ]

  /** The stage that raises during a run, and the text of its exception. */
  datatype Fault = Fault(stage: Stage, message: string)

  /** What a run leaves behind: the log messages appended and the stages started. */
  datatype Report = Report(log: seq<string>, executed: seq<Stage>)

  /** The log entry written by the catch-all handler. */
  function FailureEntry(message: string): string {
    FailurePrefix + message
  }

  /** Whether `stage` raises under `fault`. */
  predicate Raises(fault: Option<Fault>, stage: Stage) {
    fault.Some? && fault.value.stage == stage
  }

  /** The message a completed step logs, as a sequence of zero or one entries. */
  function Logged(step: Step): seq<string> {
    match step.logged
    case Some(m) => [m]
    case None => []
  }

  /** The messages of the completed steps, in order. */
  function Messages(steps: seq<Step>): seq<string>
    decreases |steps|
  {
    if |steps| == 0 then [] else Logged(steps[0]) + Messages(steps[1..])
  }

  /** The stages of the given steps, in order. */
  function StagesOf(steps: seq<Step>): seq<Stage> {
    seq(|steps|, k requires 0 <= k < |steps| => steps[k].stage)
  }

  /**
    The stages run one after the other; the first one that raises is
    started but its completion message is replaced by the failure entry,
    and nothing after it runs. Yields the log, the stages started and
    whether a stage raised.
   */
  function RunSteps(steps: seq<Step>, fault: Option<Fault>): (Report, bool)
    decreases |steps|
  {
    if |steps| == 0 then (Report([], []), false)
    else if Raises(fault, steps[0].stage) then
      (Report([FailureEntry(fault.value.message)], [steps[0].stage]), true)
    else
      var (rest, failed) := RunSteps(steps[1..], fault);
      (Report(Logged(steps[0]) + rest.log, [steps[0].stage] + rest.executed), failed)
  }

  /**
    `main`: log the preliminaries, run the stages, and on success log the
    end of the process and the closing of the connection. Never fails.
   */
  function Main(fault: Option<Fault>): Report {
    var (body, failed) := RunSteps(Steps, fault);
    Report([Preliminaries] + body.log + (if failed then [] else [ProcessComplete, ConnectionClosed]), body.executed)
  }
}

/** Facts about the log and the stages of a run of `Pipeline.Main`. */
module PipelineFacts {
  import opened Wrappers
  import opened Pipeline

  /** A log entry written by the catch-all handler. */
  predicate IsFailureEntry(entry: string) {
    |FailurePrefix| <= |entry| && entry[..|FailurePrefix|] == FailurePrefix
  }

  /** `fault` names a stage that some step runs. */
  predicate HitsSome(steps: seq<Step>, fault: Option<Fault>) {
    exists k :: 0 <= k < |steps| && Raises(fault, steps[k].stage)
  }

  /** Step `k` is the first whose stage raises. */
  predicate FirstRaising(steps: seq<Step>, fault: Option<Fault>, k: nat) {
    && k < |steps|
    && Raises(fault, steps[k].stage)
    && forall j :: 0 <= j < k ==> !Raises(fault, steps[j].stage)
  }

  /** When no step raises, every step runs and logs its message, and the run is not failed. */
  lemma {:induction false} RunStepsClean(steps: seq<Step>, fault: Option<Fault>)
    requires !HitsSome(steps, fault)
    ensures RunSteps(steps, fault) == (Report(Messages(steps), StagesOf(steps)), false)
    decreases |steps|
  {
    if |steps| > 0 {
      assert !Raises(fault, steps[0].stage);
      assert !HitsSome(steps[1..], fault) by {
        forall k | 0 <= k < |steps[1..]|
          ensures !Raises(fault, steps[1..][k].stage)
        {
          assert steps[1..][k] == steps[k + 1];
        }
      }
      RunStepsClean(steps[1..], fault);
      assert StagesOf(steps) == [steps[0].stage] + StagesOf(steps[1..]);
    }
  }

  /**
    When step `k` is the first to raise, the steps before it run and log
    their messages, step `k` is started, its message is replaced by the one
    failure entry, and the run is failed.
   */
  lemma {:induction false} RunStepsFault(steps: seq<Step>, fault: Option<Fault>, k: nat)
    requires FirstRaising(steps, fault, k)
    ensures RunSteps(steps, fault) ==
      (Report(Messages(steps[..k]) + [FailureEntry(fault.value.message)], StagesOf(steps[..k + 1])), true)
    decreases k
  {
    if k == 0 {
      assert StagesOf(steps[..1]) == [steps[0].stage];
      assert steps[..0] == [];
      assert Messages(steps[..0]) == [];
      assert Messages(steps[..0]) + [FailureEntry(fault.value.message)] == [FailureEntry(fault.value.message)];
    } else {
      assert FirstRaising(steps[1..], fault, k - 1) by {
        assert forall j :: 0 <= j < k - 1 ==> steps[1..][j] == steps[j + 1];
      }
      assert !Raises(fault, steps[0].stage);
      RunStepsFault(steps[1..], fault, k - 1);
      var entry := FailureEntry(fault.value.message);
      assert steps[1..][..k - 1] == steps[..k][1..];
      assert steps[1..][..k] == steps[..k + 1][1..];
      assert Messages(steps[..k]) == Logged(steps[0]) + Messages(steps[1..][..k - 1]);
      assert Logged(steps[0]) + (Messages(steps[1..][..k - 1]) + [entry])
          == Messages(steps[..k]) + [entry];
      assert StagesOf(steps[..k + 1]) == [steps[0].stage] + StagesOf(steps[1..][..k]);
    }
  }

  /** The stages of `main` are pairwise different, so a fault names at most one of them. */
  lemma StagesDistinct()
    ensures StagesOf(Steps) == AllStages
    ensures forall i, j :: 0 <= i < j < |AllStages| ==> AllStages[i] != AllStages[j]
  {
  }

  /**
    A run in which no stage raises logs exactly the eight messages in order
    and runs every stage, the three queries last and in their listed order.
   */
  lemma MainSucceeds(fault: Option<Fault>)
    requires fault.None? || fault.value.stage !in AllStages
    ensures Main(fault) == Report(SuccessLog, AllStages)
  {
    StagesDistinct();
    assert !HitsSome(Steps, fault) by {
      if fault.Some? {
        forall k | 0 <= k < |Steps| ensures !Raises(fault, Steps[k].stage) {
          assert Steps[k].stage == AllStages[k];
        }
      }
    }
    RunStepsClean(Steps, fault);
    MessagesBefore(|Steps|);
    assert Steps[..|Steps|] == Steps;
  }

  /**
    A run whose stage `k` raises `message` logs the preliminaries, the
    messages of the stages before it, and then the single failure entry; it
    starts stages 0 to `k` and nothing after.
   */
  lemma MainFails(k: nat, message: string)
    requires k < |AllStages|
    ensures Main(Some(Fault(AllStages[k], message))) ==
      Report([Preliminaries] + Messages(Steps[..k]) + [FailureEntry(message)], AllStages[..k + 1])
  {
    var fault := Some(Fault(AllStages[k], message));
    StagesDistinct();
    assert FirstRaising(Steps, fault, k);
    RunStepsFault(Steps, fault, k);
    assert StagesOf(Steps[..k + 1]) == AllStages[..k + 1];
  }

  /** Adding one step at the end adds its message, if any, at the end. */
  lemma {:induction false} MessagesSnoc(steps: seq<Step>, step: Step)
    ensures Messages(steps + [step]) == Messages(steps) + Logged(step)
    decreases |steps|
  {
    if |steps| == 0 {
      assert [step][1..] == [];
      assert Messages(steps + [step]) == Logged(step) + Messages([]);
    } else {
      assert (steps + [step])[1..] == steps[1..] + [step];
      MessagesSnoc(steps[1..], step);
    }
  }

  /** The preliminaries and the messages of the stages before stage `k`: a prefix of the successful log. */
  lemma {:induction false} MessagesBefore(k: nat)
    requires k <= |AllStages|
    ensures [Preliminaries] + Messages(Steps[..k]) == SuccessLog[..1 + if k <= 5 then k else 5]
    decreases k
  {
    if k == 0 {
      assert Steps[..0] == [];
    } else {
      MessagesBefore(k - 1);
      assert Steps[..k] == Steps[..k - 1] + [Steps[k - 1]];
      MessagesSnoc(Steps[..k - 1], Steps[k - 1]);
      if k <= 5 {
        assert Logged(Steps[k - 1]) == [SuccessLog[k]];
        assert SuccessLog[..1 + k] == SuccessLog[..k] + [SuccessLog[k]];
      } else {
        assert Logged(Steps[k - 1]) == [];
      }
    }
  }

  /** A run whose extraction raises logs the preliminaries and the failure entry only. */
  lemma MainFailsAtExtract(message: string)
    ensures Main(Some(Fault(ExtractStage, message))) ==
      Report([Preliminaries, FailureEntry(message)], [ExtractStage])
  {
  }

  /** A run whose transformation raises logs the preliminaries, the extraction message and the failure entry. */
  lemma MainFailsAtTransform(message: string)
    ensures Main(Some(Fault(TransformStage, message))) ==
      Report([Preliminaries, Extracted, FailureEntry(message)], [ExtractStage, TransformStage])
  {
    MainFails(1, message);
    MessagesBefore(1);
    assert SuccessLog[..2] == [Preliminaries, Extracted];
    assert AllStages[..2] == [ExtractStage, TransformStage];
  }

  /** None of the fixed messages looks like a failure entry. */
  lemma FixedMessagesAreNotFailures()
    ensures forall i :: 0 <= i < |SuccessLog| ==> !IsFailureEntry(SuccessLog[i])
  {
    assert FailurePrefix[0] == 'E';
    assert Preliminaries[0] == 'P' && Extracted[0] == 'D' && Transformed[0] == 'D';
    assert SavedCsv[0] == 'D' && Connected[0] == 'S' && LoadedDb[0] == 'D';
    assert ProcessComplete[0] == 'P' && ConnectionClosed[0] == 'S';
  }

  /**
    The failure contract of `main`: whatever stage raises, the log is a
    prefix of the successful log followed by exactly one failure entry;
    neither "Process Complete" nor "Server Connection closed" is written.
   */
  lemma MainFailureLog(k: nat, message: string)
    requires k < |AllStages|
    ensures var log := Main(Some(Fault(AllStages[k], message))).log;
      && 2 <= |log| <= |SuccessLog|
      && log[..|log| - 1] == SuccessLog[..|log| - 1]
      && log[|log| - 1] == FailureEntry(message)
      && IsFailureEntry(log[|log| - 1])
      && (forall i :: 0 <= i < |log| - 1 ==> !IsFailureEntry(log[i]))
      && ProcessComplete !in log
      && ConnectionClosed !in log
  {
    MainFails(k, message);
    MessagesBefore(k);
    FixedMessagesAreNotFailures();
    var log := Main(Some(Fault(AllStages[k], message))).log;
    var j := 1 + if k <= 5 then k else 5;
    assert log == SuccessLog[..j] + [FailureEntry(message)];
    assert log[..|log| - 1] == SuccessLog[..j];
    assert FailureEntry(message)[..|FailurePrefix|] == FailurePrefix;
    assert FailureEntry(message)[0] == 'E';
    forall i | 0 <= i < |log| ensures log[i] != ProcessComplete && log[i] != ConnectionClosed {
      if i < j {
        assert log[i] == SuccessLog[i];
      } else {
        assert log[i][0] == 'E';
      }
    }
  }

  /**
    A run whose stage `k` raises logs "Data transformation complete..."
    exactly when the raising stage comes after the transformation.
   */
  lemma TransformedLoggedIff(k: nat, message: string)
    requires k < |AllStages|
    ensures Transformed in Main(Some(Fault(AllStages[k], message))).log <==> k >= 2
  {
    MainFails(k, message);
    MessagesBefore(k);
    FixedMessagesAreNotFailures();
    var log := Main(Some(Fault(AllStages[k], message))).log;
    var j := 1 + if k <= 5 then k else 5;
    assert log == SuccessLog[..j] + [FailureEntry(message)];
    assert Transformed[0] == 'D' && FailureEntry(message)[0] == 'E';
    if k >= 2 {
      assert log[2] == SuccessLog[2] == Transformed;
    } else {
      forall i | 0 <= i < |log| ensures log[i] != Transformed {
        if i < j {
          assert log[i] == SuccessLog[i];
          assert SuccessLog[i] == Preliminaries || SuccessLog[i] == Extracted;
          assert Preliminaries[0] == 'P';
          assert |Extracted| != |Transformed|;
        } else {
          assert log[i] == FailureEntry(message);
        }
      }
    }
  }

  /** "Data transformation complete..." is logged exactly when no stage up to the transformation raises. */
  lemma TransformedLoggedIffLate(fault: Option<Fault>)
    requires fault.None? || fault.value.stage in AllStages
    ensures Transformed in Main(fault).log <==>
      fault.None? || (fault.value.stage != ExtractStage && fault.value.stage != TransformStage)
  {
    if fault.None? {
      MainSucceeds(fault);
      assert SuccessLog[2] == Transformed;
    } else {
      var k :| 0 <= k < |AllStages| && AllStages[k] == fault.value.stage;
      StagesDistinct();
      TransformedLoggedIff(k, fault.value.message);
    }
  }

  /**
    Whichever stage of `main` raises, if any, the log starts with the
    preliminaries and ends with "Server Connection closed" exactly when none
    raised, and with the failure entry otherwise.
   */
  lemma MainAlwaysReports(fault: Option<Fault>)
    requires fault.None? || fault.value.stage in AllStages
    ensures var log := Main(fault).log;
      && |log| >= 2
      && log[0] == Preliminaries
      && (log[|log| - 1] == ConnectionClosed <==> fault.None?)
      && (log[|log| - 1] != ConnectionClosed ==> IsFailureEntry(log[|log| - 1]))
  {
    FixedMessagesAreNotFailures();
    assert !IsFailureEntry(SuccessLog[7]);
    if fault.None? {
      MainSucceeds(fault);
    } else {
      var k :| 0 <= k < |AllStages| && AllStages[k] == fault.value.stage;
      MainFailureLog(k, fault.value.message);
      MainFails(k, fault.value.message);
    }
  }
}
