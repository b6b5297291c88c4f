/**
 * The government scheme finder: one free-text query of at least five
 * characters, and a result card listing the schemes the flow returned.
 */
module SchemeFinder {
  import opened Wrappers
  import opened Forms
  import Decimal

  datatype QueryValues = QueryValues(query: string)

  const QueryMessage := "Please enter a more detailed query."

  /** `formSchema`: the query needs at least five characters. */
  function Errors(v: QueryValues): (errs: seq<FieldError>)
    ensures errs == [] <==> |v.query| >= 5
    ensures errs != [] ==> errs == [FieldError("query", QueryMessage)]
  {
    MinLength("query", v.query, 5, QueryMessage)
  }

  const Defaults := QueryValues("")

  /** The form starts out invalid: submitting it untouched only shows the message. */
  lemma DefaultsRejected()
    ensures Errors(Defaults) == [FieldError("query", QueryMessage)]
  {
  }

  const FailureDescription := "Failed to find schemes. Please try again."

  /** One scheme of the flow's reply. */
  datatype Scheme = Scheme(schemeName: string, description: string, eligibility: string, applicationLink: string)

  datatype SchemesReply = SchemesReply(schemes: seq<Scheme>)

  /** The form as mounted: empty query, no result, nothing pending. */
  method Mount() returns (form: FormController<QueryValues, SchemesReply>)
    ensures fresh(form)
    ensures form.values == Defaults && form.validate == Errors
    ensures form.failureDescription == FailureDescription
    ensures form.fieldErrors == [] && !form.submitted
    ensures form.result == None && !form.pending && form.requests == [] && form.toasts == []
    ensures form.Valid()
  {
    form := new FormController(Defaults, Errors, FailureDescription);
  }

  /** An `<AccordionItem>`: its value, trigger text, and the scheme it shows. */
  datatype AccordionItem = AccordionItem(value: string, title: string, scheme: Scheme)

  /** The result card: the scheme count, then the accordion or the empty-list message. */
  datatype ResultCard =
    | SchemesAccordion(count: nat, defaultOpen: string, items: seq<AccordionItem>)
    | NoSchemesFound(count: nat)

  /** `` `item-${index}` `` */
  function ItemValue(index: nat): string {
    "item-" + Decimal.NatToString(index)
  }

  function Items(schemes: seq<Scheme>): (items: seq<AccordionItem>)
    ensures |items| == |schemes|
    ensures forall i :: 0 <= i < |items| ==>
      items[i] == AccordionItem(ItemValue(i), schemes[i].schemeName, schemes[i])
  {
    seq(|schemes|, i requires 0 <= i < |schemes| =>
      AccordionItem(ItemValue(i), schemes[i].schemeName, schemes[i]))
  }

  /**
   * The card rendered for a reply. An empty list is a result, not an
   * error: the card says so instead of listing items. Otherwise there is
   * one item per scheme in reply order, every item has its own value, and
   * the first one starts open.
   */
  function Card(reply: SchemesReply): (card: ResultCard)
    ensures card.count == |reply.schemes|
    ensures card.NoSchemesFound? <==> reply.schemes == []
    ensures card.SchemesAccordion? ==>
      && |card.items| == |reply.schemes|
      && (forall i :: 0 <= i < |card.items| ==> card.items[i].scheme == reply.schemes[i])
      && (forall i, j :: 0 <= i < j < |card.items| ==> card.items[i].value != card.items[j].value)
      && card.defaultOpen == card.items[0].value
  {
    var schemes := reply.schemes;
    if |schemes| > 0 then
      var items := Items(schemes);
      assert forall i, j :: 0 <= i < j < |items| ==> items[i].value != items[j].value by {
        forall i, j | 0 <= i < j < |items| ensures items[i].value != items[j].value {
          Decimal.PrefixedKeysDistinct("item-", i, j);
        }
      }
      SchemesAccordion(|schemes|, "item-0", items)
    else
      NoSchemesFound(0)
  }

  /** What the result area shows for the form's `result` state. */
  function ResultArea(result: Option<SchemesReply>): (area: Option<ResultCard>)
    ensures area.Some? <==> result.Some?
    ensures result.Some? ==> area == Some(Card(result.value))
  {
    match result
    case None => None
    case Some(reply) => Some(Card(reply))
  }
}
