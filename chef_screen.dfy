/** The manager screen's form: four text/choice fields, the validation of
    "Add Dish" and the form reset after a successful add or on "Reset". */
module ChefScreen {
  import opened Menu
  import opened JsString

  /** What `parseFloat(price)` produced: NaN or a number. */
  datatype ParsedNumber = NaN | Number(value: real)

  /** What one press of "Add Dish" does: show the name alert, show the price
      alert, or call `add` once with the given draft. */
  datatype SubmitOutcome = NameAlert | PriceAlert | Added(draft: Draft)

  /** The alert texts. */
  const NameAlertText: string := "Enter dish name."
  const PriceAlertText: string := "Enter valid price."

  /** The message a press of "Add Dish" shows: none when the dish is added,
      otherwise the alert text of the check that failed. */
  function AlertText(o: SubmitOutcome): (r: Option<string>)
    ensures r.None? <==> o.Added?
    ensures o.NameAlert? ==> r == Some(NameAlertText)
    ensures o.PriceAlert? ==> r == Some(PriceAlertText)
    ensures r.Some? ==> r.value != []
  {
    match o
    case NameAlert => Some(NameAlertText)
    case PriceAlert => Some(PriceAlertText)
    case Added(_) => None
  }

  /** A blank name shows "Enter dish name."; a non-blank name with a NaN or
      negative price shows "Enter valid price."; otherwise nothing is shown. */
  lemma AlertOfValidate(name: string, desc: string, course: Course, parsed: ParsedNumber)
    ensures var t := AlertText(Validate(name, desc, course, parsed));
            && (t == Some(NameAlertText) <==> AllWhitespace(name))
            && (t == Some(PriceAlertText) <==> !AllWhitespace(name) && (parsed.NaN? || parsed.value < 0.0))
            && (t == None <==> !AllWhitespace(name) && parsed.Number? && parsed.value >= 0.0)
  {
    assert NameAlertText != PriceAlertText by { assert NameAlertText[6] == 'd' && PriceAlertText[6] == 'v'; }
  }

  /** The checks of `submit`, in their order: a name that is blank after
      trimming is refused first; then a price that is NaN or negative; else
      `add` receives the trimmed name, the trimmed description, the selected
      course and the parsed price. */
  function Validate(name: string, desc: string, course: Course, parsed: ParsedNumber): (r: SubmitOutcome)
    ensures r.NameAlert? <==> AllWhitespace(name)
    ensures r.PriceAlert? <==> !AllWhitespace(name) && (parsed.NaN? || parsed.value < 0.0)
    ensures r.Added? <==> !AllWhitespace(name) && parsed.Number? && parsed.value >= 0.0
    ensures r.Added? ==> r.draft == Draft(Trim(name), Some(Trim(desc)), course, parsed.value)
  {
    TrimEmptyIff(name);
    if Trim(name) == [] then NameAlert
    else if parsed.NaN? || parsed.value < 0.0 then PriceAlert
    else Added(Draft(Trim(name), Some(Trim(desc)), course, parsed.value))
  }

  /** The name is checked before the price: a blank name reports the name
      alert whatever the price, even an invalid one. */
  lemma BlankNameWins(name: string, desc: string, course: Course, parsed: ParsedNumber)
    requires forall i :: 0 <= i < |name| ==> IsWhitespace(name[i])
    ensures Validate(name, desc, course, parsed) == NameAlert
  {
  }

  /** A price of exactly 0 is accepted. */
  lemma ZeroPriceAccepted(name: string, desc: string, course: Course)
    requires exists i :: 0 <= i < |name| && !IsWhitespace(name[i])
    ensures Validate(name, desc, course, Number(0.0)) == Added(Draft(Trim(name), Some(Trim(desc)), course, 0.0))
  {
  }

  /** Every draft that reaches `add` satisfies the dish invariants: its name
      is non-blank and already trimmed, its description is trimmed and its
      price is not negative. */
  lemma AddedDraftWellFormed(name: string, desc: string, course: Course, parsed: ParsedNumber)
    requires Validate(name, desc, course, parsed).Added?
    ensures var d := Validate(name, desc, course, parsed).draft;
            && d.name != [] && !AllWhitespace(d.name) && Trim(d.name) == d.name
            && d.description.Some? && Trim(d.description.value) == d.description.value
            && d.price >= 0.0 && d.course == course
  {
    TrimIdempotent(name);
    TrimIdempotent(desc);
    TrimEmptyIff(Trim(name));
  }

  /** The form state of the manager screen. */
  class ChefForm {
    var name: string
    var desc: string
    var course: Course
    var price: string

    /** The empty form: name "", description "", course Mains, price "". */
    predicate IsDefault()
      reads this
    {
      name == "" && desc == "" && course == Mains && price == ""
    }

    constructor ()
      ensures IsDefault()
    {
      name, desc, course, price := "", "", Mains, "";
    }

    /** `submit`, given what `parseFloat(price)` returns. On an alert the
        form is left as it is; after the call of `add` the form is reset. */
    method Submit(parsed: ParsedNumber) returns (outcome: SubmitOutcome)
      modifies this
      ensures outcome == Validate(old(name), old(desc), old(course), parsed)
      ensures outcome.Added? ==> IsDefault()
      ensures !outcome.Added? ==> name == old(name) && desc == old(desc) && course == old(course) && price == old(price)
    {
      outcome := Validate(name, desc, course, parsed);
      if outcome.Added? {
        Reset();
      }
    }

    /** The "Reset" button: the defaults again, and no call of `add`. */
    method Reset()
      modifies this
      ensures IsDefault()
    {
      name := "";
      desc := "";
      course := Mains;
      price := "";
    }
  }
}
