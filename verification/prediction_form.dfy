/**
 * The prediction form component (src/assets/components/PredictionForm.js):
 * five input fields holding JavaScript values, the change handler that
 * applies the shorthand parser to text ending in K, M or B, the request
 * built on submission, and the loading of the latest data.
 *
 * React state becomes the fields of `PredictionForm`; the network replies
 * the handlers await become parameters of the methods.
 */
module Form {
  import opened Wrappers
  import opened Decimal
  import opened Shorthand

  /** The five input fields, in the order the request lists them. */
  const FieldNames: seq<string> :=
    ["population", "total_debt", "total_housing_units", "avg_property_tax", "CA_lag1"]

  /** One of the letters K, M, B in either case. */
  predicate IsSuffixChar(c: char) {
    c == 'K' || c == 'M' || c == 'B' || c == 'k' || c == 'm' || c == 'b'
  }

  /** `/[KMBkmb]$/.test(value.trim())`. */
  predicate EndsWithSuffix(value: string) {
    var t := Trim(value);
    t != [] && IsSuffixChar(t[|t| - 1])
  }

  /** The value `handleChange` stores for the typed text `value`: text is kept as typed or becomes "". */
  function ChangedValue(value: string): (v: Value)
    ensures v.Text? ==> v.s == value || v.s == ""
  {
    if EndsWithSuffix(value) then ParseShorthand(value) else Text(value)
  }

  /**
   * What an input shows for the value it holds. Shorthand applies exactly
   * when the value is a truthy number (non-zero and not NaN) and the field
   * is not the consumer-debt one; text, 0 and NaN are shown as they are.
   */
  function FieldText(name: string, v: Value): (shown: Value)
    ensures shown == v || shown == FormatShorthand(v)
    ensures name == "total_debt" ==> shown == v
    ensures !(v.Num? && Truthy(v)) ==> shown == v
    ensures name != "total_debt" && v.Num? && Truthy(v) ==> shown == FormatShorthand(v)
  {
    if name != "total_debt" && Truthy(v) && v.Num? then FormatShorthand(v) else v
  }

  /** The request body: each field through `parseFloat`; `None` is NaN. */
  datatype Inputs = Inputs(
    population: Option<real>,
    totalDebt: Option<real>,
    totalHousingUnits: Option<real>,
    avgPropertyTax: Option<real>,
    caLag1: Option<real>)

  /** The record shown in the modal and passed to `onPrediction`; `price` is `None` when the reply has no `predicted_price`. */
  datatype Prediction = Prediction(price: Option<real>, inputs: Inputs, timestamp: string)

  /** How a submission ended: the request failed, or the reply carried this price. */
  datatype Reply = Failed | Answered(predictedPrice: Option<real>)

  /** `parseFloat(formData[name])`; a missing field reads as `undefined`, which parses to NaN. */
  function FieldNumber(data: map<string, Value>, name: string): Option<real> {
    if name in data then ParseFloatValue(data[name]) else None
  }

  function RequestOf(data: map<string, Value>): Inputs {
    Inputs(
      FieldNumber(data, "population"),
      FieldNumber(data, "total_debt"),
      FieldNumber(data, "total_housing_units"),
      FieldNumber(data, "avg_property_tax"),
      FieldNumber(data, "CA_lag1"))
  }

  /** The request component that carries the field `name`. */
  function Component(inputs: Inputs, name: string): Option<real>
    requires name in FieldNames
  {
    if name == "population" then inputs.population
    else if name == "total_debt" then inputs.totalDebt
    else if name == "total_housing_units" then inputs.totalHousingUnits
    else if name == "avg_property_tax" then inputs.avgPropertyTax
    else inputs.caLag1
  }

  /** `data.x || ''`: a missing or falsy value from the reply becomes "". */
  function OrEmpty(data: map<string, Value>, name: string): Value {
    if name in data && Truthy(data[name]) then data[name] else Text("")
  }

  /** The values used when the latest data cannot be fetched. */
  function FallbackData(): map<string, Value> {
    map[
      "population" := Num(39431263.0),
      "total_debt" := Num(17.796),
      "total_housing_units" := Num(14338000.0),
      "avg_property_tax" := Num(713392.78),
      "CA_lag1" := Num(700000.0)]
  }

  /** The form state after the latest data arrived as `data`. */
  function LoadedData(data: map<string, Value>): (loaded: map<string, Value>)
    ensures loaded.Keys == set name | name in FieldNames
    ensures forall name | name in FieldNames ::
      (Truthy(loaded[name]) <==> name in data && Truthy(data[name]))
      && (loaded[name] == Text("") || (name in data && loaded[name] == data[name]))
  {
    map name | name in FieldNames :: OrEmpty(data, name)
  }

  class PredictionForm {
    var formData: map<string, Value>
    var loading: bool
    var modalData: Option<Prediction>
    var isModalOpen: bool

    /** Every input field has a value. */
    ghost predicate Valid()
      reads this
    {
      forall name | name in FieldNames :: name in formData
    }

    constructor ()
      ensures Valid()
      ensures formData == map name | name in FieldNames :: Text("")
      ensures !loading && modalData == None && !isModalOpen
    {
      formData := map name | name in FieldNames :: Text("");
      loading := false;
      modalData := None;
      isModalOpen := false;
    }

    /** `handleChange`: the named field takes the typed value, parsed when it ends in a suffix. */
    method HandleChange(name: string, value: string)
      requires Valid()
      modifies this
      ensures Valid()
      ensures formData == old(formData)[name := ChangedValue(value)]
      ensures forall other | other in old(formData) && other != name ::
        other in formData && formData[other] == old(formData)[other]
      ensures loading == old(loading) && modalData == old(modalData) && isModalOpen == old(isModalOpen)
    {
      var stored: Value;
      if EndsWithSuffix(value) {
        stored := ParseShorthand(value);
      } else {
        stored := Text(value);
      }
      assert stored == ChangedValue(value);
      formData := formData[name := stored];
    }

    /**
     * `handleSubmit`: on a reply, the modal shows the price with the parsed
     * inputs and is opened, and the same inputs go to the `onPrediction`
     * callback when there is one, each with its own time stamp. A failed
     * request changes nothing.
     */
    method HandleSubmit(reply: Reply, hasCallback: bool, modalTime: string, callbackTime: string)
      returns (notified: Option<Prediction>)
      modifies this
      ensures formData == old(formData) && loading == old(loading)
      ensures reply.Failed? ==>
        modalData == old(modalData) && isModalOpen == old(isModalOpen) && notified == None
      ensures reply.Answered? ==>
        modalData == Some(Prediction(reply.predictedPrice, RequestOf(formData), modalTime)) && isModalOpen
      ensures notified.Some? <==> reply.Answered? && hasCallback
      ensures notified.Some? ==>
        notified.value.inputs == modalData.value.inputs && notified.value.price == modalData.value.price
        && notified.value.timestamp == callbackTime
    {
      var predictionData := RequestOf(formData);
      notified := None;
      match reply
      case Failed =>
      case Answered(price) =>
        modalData := Some(Prediction(price, predictionData, modalTime));
        isModalOpen := true;
        if hasCallback {
          notified := Some(Prediction(price, predictionData, callbackTime));
        }
    }

    /**
     * `loadLatestData`: the fields take the reply's values, "" for missing
     * or falsy ones, or the fixed fallback values when the request fails.
     */
    method LoadLatestData(latest: Option<map<string, Value>>)
      modifies this
      ensures Valid() && !loading
      ensures latest.Some? ==> formData == LoadedData(latest.value)
      ensures latest.None? ==> formData == FallbackData()
      ensures modalData == old(modalData) && isModalOpen == old(isModalOpen)
    {
      loading := true;
      match latest {
        case Some(data) =>
          formData := map name | name in FieldNames :: OrEmpty(data, name);
        case None =>
          formData := FallbackData();
      }
      loading := false;
    }
  }

  // ---------------------------------------------------------------------
  // Properties

  /** Text that does not end in a suffix letter is stored exactly as typed. */
  lemma ChangedValueKeepsPlainText(value: string)
    requires !EndsWithSuffix(value)
    ensures ChangedValue(value) == Text(value)
  {
  }

  /**
   * Text ending in a suffix letter is never stored as text other than "":
   * it becomes a number, NaN or "".
   */
  lemma ChangedValueOfSuffixed(value: string)
    requires EndsWithSuffix(value)
    ensures ChangedValue(value).Text? ==> ChangedValue(value).s == ""
    ensures ChangedValue(value) == ParseShorthand(value)
  {
  }

  /** Typing digits and dots followed by k, m or b in either case stores the scaled number. */
  lemma {:induction false} ChangedValueScaled(value: string, prefix: string, c: char)
    requires Trim(value) == prefix + [c]
    requires prefix != [] && forall i | 0 <= i < |prefix| :: IsDigit(prefix[i]) || prefix[i] == '.'
    requires IsSuffixLetter(UpperChar(c))
    ensures ChangedValue(value) == Scaled(ParseFloat(prefix), Multiplier(UpperChar(c)))
  {
    SuffixLetterChar(c);
    assert EndsWithSuffix(value);
    ParseShorthandSuffixed(value, prefix, c);
  }

  /** A character that upper-cases to a suffix letter is one of the six the handler tests. */
  lemma SuffixLetterChar(c: char)
    requires IsSuffixLetter(UpperChar(c))
    ensures IsSuffixChar(c)
  {
  }

  /**
   * Typing back the text shown for a number of at least 1e3 stores the
   * number that text stands for.
   */
  lemma {:induction false} RetypedDisplay(n: real)
    requires n >= Thousand
    ensures FormatShorthand(Num(n)).Text?
    ensures ChangedValue(FormatShorthand(Num(n)).s) == Num(ShownValue(n))
  {
    var q, d, c := SuffixBranch(n);
    var t := ToFixed(q, d) + [c];
    ToFixedEnds(q, d);
    assert t[0] == ToFixed(q, d)[0];
    TrimOfTrimmed(t);
    ChangedValueOfSuffixed(t);
    ShorthandRoundTrip(n);
  }

  /**
   * Every field but the consumer-debt one shows a number of at least 1e3 in
   * shorthand, and typing that text back stores the number it stands for;
   * the consumer-debt field shows its value as it is.
   */
  lemma FieldTextRetyped(name: string, n: real)
    requires name in FieldNames && n >= Thousand
    ensures name != "total_debt" ==> FieldText(name, Num(n)) == FormatShorthand(Num(n))
    ensures name != "total_debt" ==> ChangedValue(FieldText(name, Num(n)).s) == Num(ShownValue(n))
    ensures name == "total_debt" ==> FieldText(name, Num(n)) == Num(n)
  {
    RetypedDisplay(n);
  }

  /** The request depends only on the five named fields. */
  lemma RequestIgnoresOtherFields(data: map<string, Value>, name: string, v: Value)
    requires name !in FieldNames
    ensures RequestOf(data[name := v]) == RequestOf(data)
  {
  }

  /** Changing one field changes only its own request component. */
  lemma RequestAfterChange(data: map<string, Value>, name: string, v: Value)
    requires name in FieldNames
    ensures forall other | other in FieldNames ::
      Component(RequestOf(data[name := v]), other)
      == if other == name then ParseFloatValue(v) else Component(RequestOf(data), other)
  {
  }

  /** With the fallback values, every request component is the number shown. */
  lemma FallbackRequest()
    ensures RequestOf(FallbackData())
      == Inputs(Some(39431263.0), Some(17.796), Some(14338000.0), Some(713392.78), Some(700000.0))
  {
  }

  /** A reply without any of the fields leaves all five blank, and the request all NaN. */
  lemma EmptyReplyBlanksForm(data: map<string, Value>)
    requires forall name | name in FieldNames :: name !in data
    ensures forall name | name in FieldNames :: LoadedData(data)[name] == Text("")
    ensures RequestOf(LoadedData(data)) == Inputs(None, None, None, None, None)
  {
    assert ParseFloatValue(Text("")) == None by {
      assert ScanDecimal("") == None;
    }
  }
}
