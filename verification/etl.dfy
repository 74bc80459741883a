/**
  One run of the whole job: the outcomes of the extraction and the
  transformation decide whether those stages raise, while writing the CSV,
  connecting to the database, loading the table and running the queries
  are outside the model and may raise as a given fault says.
 */
module Etl {
  import opened Wrappers
  import Extraction
  import Transformation
  import opened Pipeline

  /** A stage of `main` whose outcome the model does not compute: the CSV file, the database and the queries. */
  predicate IsSinkStage(stage: Stage) {
    stage in AllStages[2..]
  }

  /** What a run produces: its report and, when the job got that far, the transformed data set. */
  datatype Outcome = Outcome(report: Report, dataset: Option<seq<Transformation.Record>>)

  /** Which stage of the run raises, if any: extraction first, then transformation, then the given sink fault. */
  function RunFault(
    rows: seq<Extraction.Row>, rates: Transformation.Rates, parse: Transformation.Parser,
    convert: Transformation.Converter, sinkFault: Option<Fault>): Option<Fault>
  {
    match Extraction.Extract(rows)
    case Failure(e) => Some(Fault(ExtractStage, Extraction.ErrorMessage(e)))
    case Success(raw) =>
      match Transformation.Transform(raw, rates, parse, convert)
      case Failure(e) => Some(Fault(TransformStage, Transformation.ErrorMessage(e)))
      case Success(_) => if sinkFault.Some? && IsSinkStage(sinkFault.value.stage) then sinkFault else None
  }

  /** `main` on a given table, rate map and sink behaviour. */
  function RunEtl(
    rows: seq<Extraction.Row>, rates: Transformation.Rates, parse: Transformation.Parser,
    convert: Transformation.Converter, sinkFault: Option<Fault>): Outcome
  {
    var report := Main(RunFault(rows, rates, parse, convert, sinkFault));
    match Extraction.Extract(rows)
    case Failure(_) => Outcome(report, None)
    case Success(raw) =>
      match Transformation.Transform(raw, rates, parse, convert)
      case Failure(_) => Outcome(report, None)
      case Success(dataset) => Outcome(report, Some(dataset))
  }
}

/** End-to-end facts about `Etl.RunEtl`. */
module EtlFacts {
  import opened Wrappers
  import Extraction
  import Transformation
  import TransformationFacts
  import opened Pipeline
  import opened PipelineFacts
  import opened Etl

  /**
    A table with a row of one or two cells stops the job right after the
    preliminaries with "ETL Job Failed: list index out of range"; no data
    set is built and nothing after the extraction runs.
   */
  lemma ShortRowFailsJob(
    rows: seq<Extraction.Row>, rates: Transformation.Rates, parse: Transformation.Parser,
    convert: Transformation.Converter, sinkFault: Option<Fault>)
    requires exists i :: 0 <= i < |rows| && !Extraction.Readable(rows[i])
    ensures RunEtl(rows, rates, parse, convert, sinkFault) ==
      Outcome(Report([Preliminaries, FailurePrefix + "list index out of range"], [ExtractStage]), None)
  {
    Extraction.ExtractSucceedsIff(rows);
    MainFailsAtExtract("list index out of range");
  }

  /**
    A readable table whose transformation raises `e` stops the job after
    the extraction message with one failure entry carrying `e`'s text.
   */
  lemma TransformErrorFailsJob(
    rows: seq<Extraction.Row>, rates: Transformation.Rates, parse: Transformation.Parser,
    convert: Transformation.Converter, sinkFault: Option<Fault>)
    requires Extraction.Extract(rows).Success?
    requires Transformation.Transform(Extraction.Extract(rows).value, rates, parse, convert).Failure?
    ensures var e := Transformation.Transform(Extraction.Extract(rows).value, rates, parse, convert).error;
      RunEtl(rows, rates, parse, convert, sinkFault) ==
      Outcome(Report([Preliminaries, Extracted, FailurePrefix + Transformation.ErrorMessage(e)],
                     [ExtractStage, TransformStage]), None)
  {
    var e := Transformation.Transform(Extraction.Extract(rows).value, rates, parse, convert).error;
    var message := Transformation.ErrorMessage(e);
    assert RunFault(rows, rates, parse, convert, sinkFault) == Some(Fault(TransformStage, message));
    MainFailsAtTransform(message);
  }

  /**
    A rate map without "EUR" (but with "GBP") fails the job with
    "ETL Job Failed: 'EUR'" once every amount parses, however many rows
    the table has.
   */
  lemma MissingEurFailsJob(
    rows: seq<Extraction.Row>, rates: Transformation.Rates, parse: Transformation.Parser,
    convert: Transformation.Converter, sinkFault: Option<Fault>)
    requires Extraction.Extract(rows).Success?
    requires forall r :: r in Extraction.Extract(rows).value ==> parse(Transformation.StripCommas(r.usdText)).Some?
    requires "GBP" in rates && "EUR" !in rates
    ensures RunEtl(rows, rates, parse, convert, sinkFault).report.log ==
      [Preliminaries, Extracted, FailurePrefix + "'EUR'"]
  {
    var raw := Extraction.Extract(rows).value;
    assert forall k :: 0 <= k < |raw| ==> raw[k] in raw;
    TransformationFacts.TransformMissingEur(raw, rates, parse, convert);
    assert Transformation.ErrorMessage(Transformation.MissingRate("EUR")) == "'EUR'";
    TransformErrorFailsJob(rows, rates, parse, convert, sinkFault);
  }

  /**
    When extraction and transformation succeed and no sink stage raises,
    the job logs the eight messages and yields the transformed data set.
   */
  lemma CleanRunCompletes(
    rows: seq<Extraction.Row>, rates: Transformation.Rates, parse: Transformation.Parser,
    convert: Transformation.Converter)
    requires Extraction.Extract(rows).Success?
    requires Transformation.Transform(Extraction.Extract(rows).value, rates, parse, convert).Success?
    ensures RunEtl(rows, rates, parse, convert, None) ==
      Outcome(Report(SuccessLog, AllStages),
              Some(Transformation.Transform(Extraction.Extract(rows).value, rates, parse, convert).value))
  {
    MainSucceeds(None);
  }

  /**
    However the run goes, `main` returns a report whose last entry is either
    "Server Connection closed" or the one failure entry.
   */
  lemma RunAlwaysReports(
    rows: seq<Extraction.Row>, rates: Transformation.Rates, parse: Transformation.Parser,
    convert: Transformation.Converter, sinkFault: Option<Fault>)
    ensures var log := RunEtl(rows, rates, parse, convert, sinkFault).report.log;
      && |log| >= 2
      && log[0] == Preliminaries
      && (log[|log| - 1] == ConnectionClosed <==> RunFault(rows, rates, parse, convert, sinkFault) == None)
      && (log[|log| - 1] != ConnectionClosed ==> IsFailureEntry(log[|log| - 1]))
  {
    RunEtlShape(rows, rates, parse, convert, sinkFault);
    MainAlwaysReports(RunFault(rows, rates, parse, convert, sinkFault));
  }

  /** The report of a run is `main` under the run's fault; a data set exists unless extraction or transformation raised. */
  lemma RunEtlShape(
    rows: seq<Extraction.Row>, rates: Transformation.Rates, parse: Transformation.Parser,
    convert: Transformation.Converter, sinkFault: Option<Fault>)
    ensures var o, f := RunEtl(rows, rates, parse, convert, sinkFault), RunFault(rows, rates, parse, convert, sinkFault);
      && o.report == Main(f)
      && (f.None? || f.value.stage in AllStages)
      && (o.dataset.Some? <==> f.None? || (f.value.stage != ExtractStage && f.value.stage != TransformStage))
  {
  }

  /**
    The log tells whether a data set was built: it exists exactly when
    "Data transformation complete..." was logged, whichever later stage
    then raises.
   */
  lemma DatasetIffTransformedLogged(
    rows: seq<Extraction.Row>, rates: Transformation.Rates, parse: Transformation.Parser,
    convert: Transformation.Converter, sinkFault: Option<Fault>)
    ensures var o := RunEtl(rows, rates, parse, convert, sinkFault);
      o.dataset.Some? <==> Transformed in o.report.log
  {
    RunEtlShape(rows, rates, parse, convert, sinkFault);
    TransformedLoggedIffLate(RunFault(rows, rates, parse, convert, sinkFault));
  }
}
