/**
  The structural part of `transform`: commas are removed from each USD text,
  every text is parsed as a float, and three converted columns are added from
  the exchange-rate map. Float parsing and the multiply-and-round step are
  parameters of the model, so the contracts speak of record count, order,
  names and failures, not of floating-point values.
 */
module Transformation {
  import opened Wrappers
  import opened Extraction

  /** Parses a text as a float, or yields `None` where Python's `float` would raise. */
  type Parser = string -> Option<real>

  /** `round(amount * rate, 2)` for an amount in USD and an exchange rate. */
  type Converter = (real, real) -> real

  /** The exchange-rate table read from the rates CSV: currency code to rate. */
  type Rates = map<string, real>

  /** One row of the final data frame, its fields in column order. */
  datatype Record = Record(name: string, usd: real, gbp: real, eur: real, inr: real)

  /**
    Documentation only: the final column names, which the fields of `Record`
    stand for, in order: the extracted ones followed by the three converted ones.
   */
  const FinalColumns: seq<string> := Columns + ["MC_GBP_Billion", "MC_EUR_Billion", "MC_INR_Billion"]

  /** The currencies looked up in the rate map, in the order they are looked up. */
  const Currencies: seq<string> := ["GBP", "EUR", "INR"]

  /**
    `ValueError` from converting a (comma-free) text to float, or `KeyError`
    from looking up a currency missing from the rate map.
   */
  datatype TransformError = NotAFloat(text: string) | MissingRate(currency: string)

  /** The text of the exception, as `str(e)` renders it in the failure log entry. */
  function ErrorMessage(e: TransformError): string {
    match e
    case NotAFloat(t) => "could not convert string to float: '" + t + "'"
    case MissingRate(c) => "'" + c + "'"
  }

  /** `text.replace(",", "")`: the text without its commas. */
  function StripCommas(text: string): (r: string)
    ensures ',' !in r
    ensures |r| <= |text|
    decreases |text|
  {
    if |text| == 0 then ""
    else
      var rest := StripCommas(text[1..]);
      assert text == [text[0]] + text[1..];
      if text[0] == ',' then rest else [text[0]] + rest
  }

  /** Record `k` is the first whose comma-free USD text does not parse. */
  predicate FirstUnparsable(raw: seq<RawRecord>, parse: Parser, k: nat)
    requires k < |raw|
  {
    && parse(StripCommas(raw[k].usdText)).None?
    && forall j :: 0 <= j < k ==> parse(StripCommas(raw[j].usdText)).Some?
  }

  /** Currency `i` is the first of `Currencies` missing from the rate map. */
  predicate FirstMissing(rates: Rates, i: nat)
    requires i < |Currencies|
  {
    && Currencies[i] !in rates
    && forall j :: 0 <= j < i ==> Currencies[j] in rates
  }

  /**
    `astype(float)` over the comma-stripped USD column: element by element,
    the first text that does not parse raises.
   */
  function ParseAll(raw: seq<RawRecord>, parse: Parser): (r: Result<seq<real>, TransformError>)
    ensures r.Success? <==> forall k :: 0 <= k < |raw| ==> parse(StripCommas(raw[k].usdText)).Some?
    ensures r.Success? ==>
      && |r.value| == |raw|
      && forall k :: 0 <= k < |raw| ==> parse(StripCommas(raw[k].usdText)) == Some(r.value[k])
    ensures r.Failure? ==>
      exists k :: 0 <= k < |raw| && FirstUnparsable(raw, parse, k) && r.error == NotAFloat(StripCommas(raw[k].usdText))
    decreases |raw|
  {
    if |raw| == 0 then Success([])
    else
      var n := |raw| - 1;
      var front := raw[..n];
      var text := StripCommas(raw[n].usdText);
      assert forall k :: 0 <= k < n ==> front[k] == raw[k];
      match ParseAll(front, parse)
      case Failure(e) =>
        assert forall k :: 0 <= k < n && FirstUnparsable(front, parse, k) ==> FirstUnparsable(raw, parse, k);
        Failure(e)
      case Success(done) =>
        match parse(text)
        case None =>
          assert FirstUnparsable(raw, parse, n);
          Failure(NotAFloat(text))
        case Some(x) => Success(done + [x])
  }

  /** The record with its USD amount parsed and its three converted columns added. */
  function Enrich(name: string, usd: real, rates: Rates, convert: Converter): Record
    requires forall c :: c in Currencies ==> c in rates
  {
    Record(name, usd, convert(usd, rates["GBP"]), convert(usd, rates["EUR"]), convert(usd, rates["INR"]))
  }

  /**
    `transform`: the USD column is stripped of commas and parsed first, then
    `GBP`, `EUR` and `INR` are looked up in turn and a column is added for
    each; the first exception ends the transformation with no data set.
   */
  function Transform(raw: seq<RawRecord>, rates: Rates, parse: Parser, convert: Converter): (r: Result<seq<Record>, TransformError>)
    ensures r.Success? <==>
      && (forall k :: 0 <= k < |raw| ==> parse(StripCommas(raw[k].usdText)).Some?)
      && (forall c :: c in Currencies ==> c in rates)
    ensures r.Success? ==>
      && |r.value| == |raw|
      && forall k :: 0 <= k < |raw| ==>
           var usd := parse(StripCommas(raw[k].usdText)).value;
           && r.value[k].name == raw[k].name
           && r.value[k].usd == usd
           && r.value[k].gbp == convert(usd, rates["GBP"])
           && r.value[k].eur == convert(usd, rates["EUR"])
           && r.value[k].inr == convert(usd, rates["INR"])
    ensures r.Failure? && r.error.NotAFloat? ==>
      exists k :: 0 <= k < |raw| && FirstUnparsable(raw, parse, k) && r.error.text == StripCommas(raw[k].usdText)
    ensures r.Failure? && r.error.MissingRate? ==>
      && (forall k :: 0 <= k < |raw| ==> parse(StripCommas(raw[k].usdText)).Some?)
      && exists i :: 0 <= i < |Currencies| && FirstMissing(rates, i) && r.error.currency == Currencies[i]
  {
    match ParseAll(raw, parse)
    case Failure(e) => Failure(e)
    case Success(usd) =>
      if "GBP" !in rates then assert FirstMissing(rates, 0); Failure(MissingRate("GBP"))
      else if "EUR" !in rates then assert FirstMissing(rates, 1); Failure(MissingRate("EUR"))
      else if "INR" !in rates then assert FirstMissing(rates, 2); Failure(MissingRate("INR"))
      else Success(seq(|raw|, k requires 0 <= k < |raw| => Enrich(raw[k].name, usd[k], rates, convert)))
  }
}

/** Facts about comma removal and `Transformation.Transform` that relate several calls. */
module TransformationFacts {
  import opened Wrappers
  import opened Extraction
  import opened Transformation

  /** A text without commas is left as it is. */
  lemma {:induction false} StripCommasKeepsCommaFree(text: string)
    requires ',' !in text
    ensures StripCommas(text) == text
    decreases |text|
  {
    if |text| > 0 {
      StripCommasKeepsCommaFree(text[1..]);
      assert text == [text[0]] + text[1..];
    }
  }

  /** Comma removal keeps every other character, as many times as it occurs. */
  lemma {:induction false} StripCommasKeepsOthers(text: string)
    ensures forall c :: c != ',' ==> multiset(StripCommas(text))[c] == multiset(text)[c]
    decreases |text|
  {
    if |text| > 0 {
      StripCommasKeepsOthers(text[1..]);
      assert text == [text[0]] + text[1..];
      assert multiset(text) == multiset([text[0]]) + multiset(text[1..]);
      if text[0] != ',' {
        assert StripCommas(text) == [text[0]] + StripCommas(text[1..]);
        assert multiset(StripCommas(text)) == multiset([text[0]]) + multiset(StripCommas(text[1..]));
      }
    }
  }

  /** Removing commas a second time changes nothing. */
  lemma StripCommasIdempotent(text: string)
    ensures StripCommas(StripCommas(text)) == StripCommas(text)
  {
  }

  /**
    Comma removal keeps the order of the other characters: the text of two
    parts joined is the comma-free first part followed by the comma-free
    second part.
   */
  lemma {:induction false} StripCommasConcat(a: string, b: string)
    ensures StripCommas(a + b) == StripCommas(a) + StripCommas(b)
    decreases |a|
  {
    if |a| == 0 {
      assert a + b == b;
    } else {
      StripCommasConcat(a[1..], b);
      assert (a + b)[1..] == a[1..] + b;
      assert (a + b)[0] == a[0];
    }
  }

  /** A single character is dropped when it is a comma and kept otherwise. */
  lemma StripCommasChar(c: char)
    ensures StripCommas([c]) == if c == ',' then [] else [c]
  {
  }

  /**
    Transforming a table in two parts: when both parts transform, the whole
    transforms to the records of the first part followed by those of the
    second, so records never move and never mix.
   */
  lemma TransformConcat(a: seq<RawRecord>, b: seq<RawRecord>, rates: Rates, parse: Parser, convert: Converter)
    requires Transform(a, rates, parse, convert).Success?
    requires Transform(b, rates, parse, convert).Success?
    ensures Transform(a + b, rates, parse, convert) ==
      Success(Transform(a, rates, parse, convert).value + Transform(b, rates, parse, convert).value)
  {
    var ra, rb := Transform(a, rates, parse, convert).value, Transform(b, rates, parse, convert).value;
    var ab := a + b;
    assert forall k :: 0 <= k < |ab| ==> ab[k] == if k < |a| then a[k] else b[k - |a|];
    var r := Transform(ab, rates, parse, convert);
    assert r.Success?;
    assert r.value == ra + rb;
  }

  /**
    With "GBP" present, "EUR" missing and every amount parsing, the
    transformation raises `KeyError('EUR')`, whatever the number of records.
   */
  lemma TransformMissingEur(raw: seq<RawRecord>, rates: Rates, parse: Parser, convert: Converter)
    requires forall k :: 0 <= k < |raw| ==> parse(StripCommas(raw[k].usdText)).Some?
    requires "GBP" in rates && "EUR" !in rates
    ensures Transform(raw, rates, parse, convert) == Failure(MissingRate("EUR"))
  {
    var t := Transform(raw, rates, parse, convert);
    assert !t.Success?;
    assert !t.error.NotAFloat?;
    var i :| 0 <= i < |Currencies| && FirstMissing(rates, i) && t.error.currency == Currencies[i];
    assert i == 1;
  }
}

/** The worked example of a single bank converted with three rates. */
module TransformationExample {
  import opened Wrappers
  import opened Extraction
  import opened Transformation
  import opened TransformationFacts

  /** A parser that knows one text, enough for the example. */
  function ParseExample(text: string): Option<real> {
    if text == "1000.00" then Some(1000.0) else None
  }

  /** Multiplication without rounding; every product in the example already has two decimals. */
  function TimesRate(usd: real, rate: real): real {
    usd * rate
  }

  /** A comma between two comma-free parts disappears and the parts are joined. */
  lemma StripSeparator(left: string, right: string)
    requires ',' !in left && ',' !in right
    ensures StripCommas(left + "," + right) == left + right
  {
    StripCommasKeepsCommaFree(left);
    StripCommasKeepsCommaFree(right);
    StripCommasChar(',');
    StripCommasConcat(left, ",");
    assert StripCommas(left + ",") == left;
    StripCommasConcat(left + ",", right);
    assert StripCommas(left + "," + right) == StripCommas(left + ",") + StripCommas(right);
  }

  /** Removing the thousands separator from "1,000.00". */
  lemma StripExample()
    ensures StripCommas("1,000.00") == "1000.00"
  {
    assert "1,000.00" == "1" + "," + "000.00";
    StripSeparator("1", "000.00");
  }

  /** "1,000.00" USD at rates 0.8, 0.93 and 82.5 gives 800, 930 and 82500. */
  lemma BankAExample()
    ensures Transform([RawRecord("Bank A", "1,000.00")], map["GBP" := 0.8, "EUR" := 0.93, "INR" := 82.5], ParseExample, TimesRate)
         == Success([Record("Bank A", 1000.0, 800.0, 930.0, 82500.0)])
  {
    var raw := [RawRecord("Bank A", "1,000.00")];
    StripExample();
    var rates := map["GBP" := 0.8, "EUR" := 0.93, "INR" := 82.5];
    assert ParseExample(StripCommas(raw[0].usdText)) == Some(1000.0);
    assert rates["GBP"] == 0.8 && rates["EUR"] == 0.93 && rates["INR"] == 82.5;
    var r := Transform(raw, rates, ParseExample, TimesRate);
    assert r.Success?;
    var rec := r.value[0];
    assert rec.name == "Bank A" && rec.usd == 1000.0;
    assert rec.gbp == 800.0 && rec.eur == 930.0 && rec.inr == 82500.0;
    assert r.value == [rec];
  }
}
