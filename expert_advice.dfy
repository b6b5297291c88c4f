/**
 * The expert advice form: crop details, location and current challenges,
 * each with a minimum length.
 */
module ExpertAdvice {
  import opened Wrappers
  import opened Forms

  datatype ExpertValues = ExpertValues(cropDetails: string, location: string, currentChallenges: string)

  const CropDetailsMessage := "Please enter valid crop details."
  const LocationMessage := "Please enter a valid location."
  const ChallengesMessage := "Please describe the challenges you are facing in more detail."

  /** The error of each rule, in the schema's field order. */
  const RuleErrors := [
    FieldError("cropDetails", CropDetailsMessage), FieldError("location", LocationMessage),
    FieldError("currentChallenges", ChallengesMessage)]

  /**
   * `formSchema`: crop details at least 2 characters, location at least 2
   * and challenges at least 10, every failing field reported in order.
   */
  function Errors(v: ExpertValues): (errs: seq<FieldError>)
    ensures errs == [] <==> |v.cropDetails| >= 2 && |v.location| >= 2 && |v.currentChallenges| >= 10
    ensures forall e :: e in errs ==> e in RuleErrors
  {
    MinLength("cropDetails", v.cropDetails, 2, CropDetailsMessage)
    + MinLength("location", v.location, 2, LocationMessage)
    + MinLength("currentChallenges", v.currentChallenges, 10, ChallengesMessage)
  }

  /** A field is flagged exactly when it is one of the three and its rule fails. */
  lemma ErrorsFlag(v: ExpertValues, g: string)
    ensures Flags(Errors(v), g) <==>
      || (g == "cropDetails" && |v.cropDetails| < 2)
      || (g == "location" && |v.location| < 2)
      || (g == "currentChallenges" && |v.currentChallenges| < 10)
  {
    var a := MinLength("cropDetails", v.cropDetails, 2, CropDetailsMessage);
    var b := MinLength("location", v.location, 2, LocationMessage);
    var c := MinLength("currentChallenges", v.currentChallenges, 10, ChallengesMessage);
    assert Errors(v) == a + b + c;
    MinLengthFlags("cropDetails", v.cropDetails, 2, CropDetailsMessage, g);
    MinLengthFlags("location", v.location, 2, LocationMessage, g);
    MinLengthFlags("currentChallenges", v.currentChallenges, 10, ChallengesMessage, g);
    FlagsOfAppend(a, b, g);
    FlagsOfAppend(a + b, c, g);
  }

  /** Each of the three fields is flagged exactly when its own rule fails. */
  lemma ErrorsFlagFields(v: ExpertValues)
    ensures Flags(Errors(v), "cropDetails") <==> |v.cropDetails| < 2
    ensures Flags(Errors(v), "location") <==> |v.location| < 2
    ensures Flags(Errors(v), "currentChallenges") <==> |v.currentChallenges| < 10
  {
    ErrorsFlag(v, "cropDetails");
    ErrorsFlag(v, "location");
    ErrorsFlag(v, "currentChallenges");
  }

  const Defaults := ExpertValues("", "", "")

  lemma DefaultsRejected()
    ensures Errors(Defaults) != []
    ensures Flags(Errors(Defaults), "cropDetails") && Flags(Errors(Defaults), "location")
    ensures Flags(Errors(Defaults), "currentChallenges")
  {
    ErrorsFlagFields(Defaults);
  }

  const FailureDescription := "Failed to get expert advice. Please try again."

  datatype AdviceReply = AdviceReply(advice: string)

  method Mount() returns (form: FormController<ExpertValues, AdviceReply>)
    ensures fresh(form)
    ensures form.values == Defaults && form.validate == Errors
    ensures form.failureDescription == FailureDescription
    ensures form.fieldErrors == [] && !form.submitted
    ensures form.result == None && !form.pending && form.requests == [] && form.toasts == []
    ensures form.Valid()
  {
    form := new FormController(Defaults, Errors, FailureDescription);
  }
}
