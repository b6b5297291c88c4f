/**
 * The market price predictor: a crop name of at least two characters, and
 * a result card with the flow's summary and its price trend drawn as given.
 */
module PricePredictor {
  import opened Wrappers
  import opened Forms

  datatype CropValues = CropValues(cropName: string)

  const CropNameMessage := "Please enter a valid crop name."

  /** `formSchema`: the crop name needs at least two characters. */
  function Errors(v: CropValues): (errs: seq<FieldError>)
    ensures errs == [] <==> |v.cropName| >= 2
    ensures errs != [] ==> errs == [FieldError("cropName", CropNameMessage)]
  {
    MinLength("cropName", v.cropName, 2, CropNameMessage)
  }

  const Defaults := CropValues("")

  lemma DefaultsRejected()
    ensures Errors(Defaults) == [FieldError("cropName", CropNameMessage)]
  {
  }

  const FailureDescription := "Failed to get price prediction. Please try again."

  /** One point of the predicted trend; `price` is an opaque number. */
  datatype TrendPoint = TrendPoint(day: string, price: real)

  /**
   * The flow's reply. Nothing bounds the number of trend points: "seven
   * days" is only what the prompt asks the model for.
   */
  datatype PredictionReply = PredictionReply(predictionSummary: string, priceTrend: seq<TrendPoint>)

  method Mount() returns (form: FormController<CropValues, PredictionReply>)
    ensures fresh(form)
    ensures form.values == Defaults && form.validate == Errors
    ensures form.failureDescription == FailureDescription
    ensures form.fieldErrors == [] && !form.submitted
    ensures form.result == None && !form.pending && form.requests == [] && form.toasts == []
    ensures form.Valid()
  {
    form := new FormController(Defaults, Errors, FailureDescription);
  }

  /** The result card: its title, the summary paragraph, and the chart's data. */
  datatype PredictionCard = PredictionCard(title: string, summary: string, chart: seq<TrendPoint>)

  /**
   * The card for a reply. The title names the crop field's value at render
   * time (`form.getValues`); the chart gets the trend exactly as returned,
   * whatever its length, with no point dropped, added or reordered.
   */
  function Card(currentCropName: string, reply: PredictionReply): (card: PredictionCard)
    ensures card.title == "Prediction for " + currentCropName
    ensures card.summary == reply.predictionSummary
    ensures |card.chart| == |reply.priceTrend|
    ensures forall i :: 0 <= i < |card.chart| ==> card.chart[i] == reply.priceTrend[i]
  {
    PredictionCard("Prediction for " + currentCropName, reply.predictionSummary, reply.priceTrend)
  }

  /** Any trend, of any length, reaches the chart unchanged. */
  lemma ChartIsTrend(name: string, summary: string, trend: seq<TrendPoint>)
    ensures Card(name, PredictionReply(summary, trend)).chart == trend
  {
    var chart := Card(name, PredictionReply(summary, trend)).chart;
    assert |chart| == |trend|;
    assert forall i :: 0 <= i < |chart| ==> chart[i] == trend[i];
  }
}
