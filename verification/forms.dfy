/**
  What the two form front-ends have in common: the option list of every
  categorical select box, the ranges of the numeric widgets, and the record
  both of them send, with every one of the nineteen fields filled in.
*/
module Forms {
  import opened Wrappers
  import opened Api

  const YesNo: seq<string> := ["Yes", "No"]
  const InternetAddOn: seq<string> := ["Yes", "No", "No internet service"]

  /** The option list of each categorical field, in the order of CatFields. */
  const Options: seq<seq<string>> := [
    ["Male", "Female"],
    YesNo,
    YesNo,
    YesNo,
    ["Yes", "No", "No phone service"],
    ["DSL", "Fiber optic", "No"],
    InternetAddOn,
    InternetAddOn,
    InternetAddOn,
    InternetAddOn,
    InternetAddOn,
    InternetAddOn,
    ["Month-to-month", "One year", "Two year"],
    YesNo,
    ["Electronic check", "Mailed check", "Bank transfer (automatic)", "Credit card (automatic)"]]

  /** The senior-citizen select box offers 0 and 1. */
  type SeniorFlag = x: int | 0 <= x <= 1

  /** The tenure widget takes whole months from 0 to 72. */
  type TenureMonths = x: int | 0 <= x <= 72

  /** The monthly-charges widget takes amounts from 0 to 200. */
  type MonthlyCharge = x: real | 0.0 <= x <= 200.0

  /** The fifteen categorical selections. */
  datatype Choices = Choices(
    gender: string,
    partner: string,
    dependents: string,
    phoneservice: string,
    multiplelines: string,
    internetservice: string,
    onlinesecurity: string,
    onlinebackup: string,
    deviceprotection: string,
    techsupport: string,
    streamingtv: string,
    streamingmovies: string,
    contract: string,
    paperlessbilling: string,
    paymentmethod: string)
  {
    /** The selections in the order of CatFields. */
    function Values(): (vs: seq<string>)
      ensures |vs| == |CatFields|
    {
      [gender, partner, dependents, phoneservice, multiplelines, internetservice,
       onlinesecurity, onlinebackup, deviceprotection, techsupport, streamingtv,
       streamingmovies, contract, paperlessbilling, paymentmethod]
    }

    /** Every selection is one of its select box's options. */
    predicate FromOptions()
    {
      forall m :: 0 <= m < |CatFields| ==> Values()[m] in Options[m]
    }
  }

  /** What the select boxes can produce: a choice from each option list. */
  type Selection = c: Choices | c.FromOptions()
    witness Choices("Male", "Yes", "Yes", "Yes", "Yes", "DSL", "Yes", "Yes", "Yes", "Yes",
                    "Yes", "Yes", "Month-to-month", "Yes", "Electronic check")

  /**
    The record a form sends: the widget values, every categorical field
    present with its selection.
  */
  function FormRecord(seniorcitizen: SeniorFlag, tenure: TenureMonths, monthlycharges: MonthlyCharge,
                      totalcharges: real, choices: Choices): (x: ChurnInput)
    ensures x.Numbers() == [seniorcitizen as real, tenure as real, monthlycharges, totalcharges]
    ensures forall m :: 0 <= m < |CatFields| ==> x.Categoricals()[m] == Some(choices.Values()[m])
  {
    ChurnInput(seniorcitizen, tenure as real, monthlycharges, totalcharges,
      Some(choices.gender), Some(choices.partner), Some(choices.dependents),
      Some(choices.phoneservice), Some(choices.multiplelines), Some(choices.internetservice),
      Some(choices.onlinesecurity), Some(choices.onlinebackup), Some(choices.deviceprotection),
      Some(choices.techsupport), Some(choices.streamingtv), Some(choices.streamingmovies),
      Some(choices.contract), Some(choices.paperlessbilling), Some(choices.paymentmethod))
  }
}
