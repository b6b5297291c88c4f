/**
 * The agricultural advice form: crop type, crop condition (picked from a
 * list), location and specific details, each with a minimum length.
 */
module AgriculturalAdvice {
  import opened Wrappers
  import opened Forms

  datatype AdviceValues = AdviceValues(cropType: string, cropCondition: string, location: string, specificDetails: string)

  const CropTypeMessage := "Please enter a valid crop type."
  const CropConditionMessage := "Please select a crop condition."
  const LocationMessage := "Please enter a valid location."
  const DetailsMessage := "Please describe the challenges you are facing in more detail."

  /** The error of each rule, in the schema's field order. */
  const RuleErrors := [
    FieldError("cropType", CropTypeMessage), FieldError("cropCondition", CropConditionMessage),
    FieldError("location", LocationMessage), FieldError("specificDetails", DetailsMessage)]

  /**
   * `formSchema`: crop type at least 2 characters, condition at least 3,
   * location at least 2 and details at least 10. zod reports every failing
   * field, in the schema's field order.
   */
  function Errors(v: AdviceValues): (errs: seq<FieldError>)
    ensures errs == [] <==>
      |v.cropType| >= 2 && |v.cropCondition| >= 3 && |v.location| >= 2 && |v.specificDetails| >= 10
    ensures forall e :: e in errs ==> e in RuleErrors
  {
    MinLength("cropType", v.cropType, 2, CropTypeMessage)
    + MinLength("cropCondition", v.cropCondition, 3, CropConditionMessage)
    + MinLength("location", v.location, 2, LocationMessage)
    + MinLength("specificDetails", v.specificDetails, 10, DetailsMessage)
  }

  /** A field is flagged exactly when it is one of the four and its rule fails. */
  lemma ErrorsFlag(v: AdviceValues, g: string)
    ensures Flags(Errors(v), g) <==>
      || (g == "cropType" && |v.cropType| < 2)
      || (g == "cropCondition" && |v.cropCondition| < 3)
      || (g == "location" && |v.location| < 2)
      || (g == "specificDetails" && |v.specificDetails| < 10)
  {
    var a := MinLength("cropType", v.cropType, 2, CropTypeMessage);
    var b := MinLength("cropCondition", v.cropCondition, 3, CropConditionMessage);
    var c := MinLength("location", v.location, 2, LocationMessage);
    var d := MinLength("specificDetails", v.specificDetails, 10, DetailsMessage);
    assert Errors(v) == a + b + c + d;
    MinLengthFlags("cropType", v.cropType, 2, CropTypeMessage, g);
    MinLengthFlags("cropCondition", v.cropCondition, 3, CropConditionMessage, g);
    MinLengthFlags("location", v.location, 2, LocationMessage, g);
    MinLengthFlags("specificDetails", v.specificDetails, 10, DetailsMessage, g);
    FlagsOfAppend(a, b, g);
    FlagsOfAppend(a + b, c, g);
    FlagsOfAppend(a + b + c, d, g);
  }

  /** Each of the four fields is flagged exactly when its own rule fails. */
  lemma ErrorsFlagFields(v: AdviceValues)
    ensures Flags(Errors(v), "cropType") <==> |v.cropType| < 2
    ensures Flags(Errors(v), "cropCondition") <==> |v.cropCondition| < 3
    ensures Flags(Errors(v), "location") <==> |v.location| < 2
    ensures Flags(Errors(v), "specificDetails") <==> |v.specificDetails| < 10
  {
    ErrorsFlag(v, "cropType");
    ErrorsFlag(v, "cropCondition");
    ErrorsFlag(v, "location");
    ErrorsFlag(v, "specificDetails");
  }

  /** The values the condition picker offers. */
  const ConditionOptions := ["healthy", "diseased", "stressed", "pest-infested"]

  /** Whatever condition is picked, the condition rule is met. */
  lemma EveryConditionOptionAccepted(v: AdviceValues)
    requires v.cropCondition in ConditionOptions
    ensures !Flags(Errors(v), "cropCondition")
  {
    ErrorsFlagFields(v);
  }

  const Defaults := AdviceValues("", "", "", "")

  /** Submitting the untouched form flags all four fields. */
  lemma DefaultsRejected()
    ensures Errors(Defaults) != []
    ensures Flags(Errors(Defaults), "cropType") && Flags(Errors(Defaults), "cropCondition")
    ensures Flags(Errors(Defaults), "location") && Flags(Errors(Defaults), "specificDetails")
  {
    ErrorsFlagFields(Defaults);
  }

  const FailureDescription := "Failed to get expert advice. Please try again."

  datatype AdviceReply = AdviceReply(advice: string)

  method Mount() returns (form: FormController<AdviceValues, AdviceReply>)
    ensures fresh(form)
    ensures form.values == Defaults && form.validate == Errors
    ensures form.failureDescription == FailureDescription
    ensures form.fieldErrors == [] && !form.submitted
    ensures form.result == None && !form.pending && form.requests == [] && form.toasts == []
    ensures form.Valid()
  {
    form := new FormController(Defaults, Errors, FailureDescription);
  }
}
