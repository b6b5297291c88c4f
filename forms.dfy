/**
 * What the five forms share: zod minimum-length rules, and the submit
 * protocol around an AI flow. A form holds its current values; submitting
 * validates them, and only valid values reach the flow. A submission clears
 * `result` and is pending until the flow settles. The flow's reply is then
 * stored exactly, or on a failure `result` stays null and an error toast
 * is raised. Every submit button is disabled while a submission is pending.
 */
module Forms {
  import opened Wrappers

  /** A message shown under one field of the form. */
  datatype FieldError = FieldError(field: string, message: string)

  /**
   * `z.string().min(n, message)` on one field. zod compares `.length`; the
   * model counts characters.
   */
  function MinLength(field: string, value: string, n: nat, message: string): (errs: seq<FieldError>)
    ensures errs == [] <==> |value| >= n
    ensures errs != [] ==> errs == [FieldError(field, message)]
  {
    if |value| >= n then [] else [FieldError(field, message)]
  }

  /** Whether some error is reported for the given field. */
  predicate Flags(errs: seq<FieldError>, field: string) {
    exists i :: 0 <= i < |errs| && errs[i].field == field
  }

  /** A single rule flags its own field, exactly when the value is too short. */
  lemma MinLengthFlags(field: string, value: string, n: nat, message: string, g: string)
    ensures Flags(MinLength(field, value, n, message), g) <==> g == field && |value| < n
  {
    var errs := MinLength(field, value, n, message);
    if |value| < n {
      assert errs[0].field == field;
    }
  }

  /** A field is flagged in a concatenation iff it is flagged in one of the parts. */
  lemma FlagsOfAppend(a: seq<FieldError>, b: seq<FieldError>, g: string)
    ensures Flags(a + b, g) <==> Flags(a, g) || Flags(b, g)
  {
    var s := a + b;
    if Flags(s, g) {
      var i :| 0 <= i < |s| && s[i].field == g;
      if i < |a| { assert s[i] == a[i]; }
      else { assert s[i] == b[i - |a|]; }
    }
    if Flags(a, g) {
      var i :| 0 <= i < |a| && a[i].field == g;
      assert s[i] == a[i];
    }
    if Flags(b, g) {
      var i :| 0 <= i < |b| && b[i].field == g;
      assert s[|a| + i] == b[i];
    }
  }

  /** A destructive toast: title and description. */
  datatype Toast = Toast(title: string, description: string)

  const ErrorTitle := "An error occurred"

  /** How the awaited flow call ends: with its reply, or by throwing. */
  datatype Outcome<R> = Replied(reply: R) | Failed

  /**
   * One form component: its react-hook-form values and errors, and its
   * `result`, `isPending` and toast state. `requests` lists the values
   * handed to the flow, in order.
   */
  class FormController<V, R> {
    const validate: V -> seq<FieldError>
    const failureDescription: string
    var values: V
    var submitted: bool
    var fieldErrors: seq<FieldError>
    var result: Option<R>
    var pending: bool
    var requests: seq<V>
    var toasts: seq<Toast>

    /**
     * A pending submission has cleared the result and called the flow, a
     * result comes from some call, and every toast belongs to one finished
     * call.
     */
    ghost predicate Valid()
      reads this
    {
      && (pending ==> result.None? && |requests| > 0)
      && (result.Some? ==> |requests| > 0)
      && |toasts| + (if pending then 1 else 0) <= |requests|
    }

    /** `useForm({ defaultValues })` together with `useState(null)` for the result. */
    constructor (defaults: V, validate: V -> seq<FieldError>, failureDescription: string)
      ensures this.validate == validate && this.failureDescription == failureDescription
      ensures values == defaults && !submitted && fieldErrors == []
      ensures result == None && !pending && requests == [] && toasts == []
      ensures Valid()
    {
      this.validate := validate;
      this.failureDescription := failureDescription;
      values := defaults;
      submitted := false;
      fieldErrors := [];
      result := None;
      pending := false;
      requests := [];
      toasts := [];
    }

    /**
     * A field's `onChange`. After the first submit attempt the form
     * re-validates on every change.
     */
    method Edit(v: V)
      requires Valid()
      modifies this
      ensures values == v
      ensures fieldErrors == if submitted then validate(v) else old(fieldErrors)
      ensures submitted == old(submitted) && result == old(result) && pending == old(pending)
      ensures requests == old(requests) && toasts == old(toasts)
      ensures Valid()
    {
      values := v;
      if submitted {
        fieldErrors := validate(v);
      }
    }

    /** `form.setValue(name, value)`: changes the value without validating. */
    method SetValue(v: V)
      requires Valid()
      modifies this
      ensures values == v
      ensures submitted == old(submitted) && fieldErrors == old(fieldErrors)
      ensures result == old(result) && pending == old(pending)
      ensures requests == old(requests) && toasts == old(toasts)
      ensures Valid()
    {
      values := v;
    }

    /** `form.clearErrors(name)` for a form with a single field. */
    method ClearErrors()
      requires Valid()
      modifies this
      ensures fieldErrors == []
      ensures values == old(values) && submitted == old(submitted)
      ensures result == old(result) && pending == old(pending)
      ensures requests == old(requests) && toasts == old(toasts)
      ensures Valid()
    {
      fieldErrors := [];
    }

    /**
     * `form.handleSubmit(onSubmit)`. While pending the button is disabled
     * and nothing happens. Otherwise the values are validated; invalid values
     * only show their errors, and valid ones start a submission: `result` is
     * set to null and the values go to the flow unchanged.
     */
    method Submit() returns (called: bool)
      requires Valid()
      modifies this
      ensures old(pending) ==> !called && unchanged(this)
      ensures !old(pending) ==> called == (validate(values) == [])
      ensures !old(pending) ==> submitted && fieldErrors == validate(values)
      ensures called ==> result == None && pending && requests == old(requests) + [values]
      ensures !called ==> result == old(result) && pending == old(pending) && requests == old(requests)
      ensures values == old(values) && toasts == old(toasts)
      ensures Valid()
    {
      if pending {
        return false;
      }
      submitted := true;
      fieldErrors := validate(values);
      called := fieldErrors == [];
      if called {
        result := None;
        pending := true;
        requests := requests + [values];
      }
    }

    /**
     * The awaited flow call ends: its reply becomes `result`, or `result`
     * stays null and the form's error toast is raised.
     */
    method Settle(outcome: Outcome<R>)
      requires Valid() && pending
      modifies this
      ensures !pending
      ensures outcome.Replied? ==> result == Some(outcome.reply) && toasts == old(toasts)
      ensures outcome.Failed? ==> result == None && toasts == old(toasts) + [Toast(ErrorTitle, failureDescription)]
      ensures values == old(values) && submitted == old(submitted) && fieldErrors == old(fieldErrors)
      ensures requests == old(requests)
      ensures Valid()
    {
      pending := false;
      match outcome
      case Replied(reply) =>
        result := Some(reply);
      case Failed =>
        toasts := toasts + [Toast(ErrorTitle, failureDescription)];
    }

    /**
     * A whole submission run to completion, with `flow` standing for the
     * AI flow: the result is exactly the flow's reply on the submitted
     * values, or null with one more toast.
     */
    method SubmitAndAwait(flow: V -> Outcome<R>) returns (called: bool)
      requires Valid()
      modifies this
      ensures old(pending) ==> !called && unchanged(this)
      ensures !old(pending) ==> called == (validate(values) == []) && !pending
      ensures !old(pending) ==> submitted && fieldErrors == validate(values)
      ensures called ==> requests == old(requests) + [values]
      ensures called && flow(values).Replied? ==> result == Some(flow(values).reply) && toasts == old(toasts)
      ensures called && flow(values).Failed? ==>
        result == None && toasts == old(toasts) + [Toast(ErrorTitle, failureDescription)]
      ensures !called ==> result == old(result) && requests == old(requests) && toasts == old(toasts)
      ensures values == old(values)
      ensures Valid()
    {
      called := Submit();
      if called {
        Settle(flow(values));
      }
    }

    /** The loading card `{isPending && ...}`. */
    function ShowsLoading(): (shown: bool)
      reads this
      ensures shown <==> pending
    {
      pending
    }

    /** The result card `{result && ...}`. */
    function ShowsResult(): (shown: bool)
      reads this
      ensures shown <==> result.Some?
    {
      result.Some?
    }

    /** The loading card and a result card are never on screen together. */
    lemma LoadingHidesResult()
      requires Valid()
      ensures !(ShowsLoading() && ShowsResult())
    {
    }
  }
}
