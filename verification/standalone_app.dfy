/**
  The standalone form: it loads the same artifacts as the endpoint, builds the
  record from its widgets, and runs the same encoding and model in process.
*/
module StandaloneApp {
  import opened Wrappers
  import opened Encoding
  import opened Api
  import opened Forms

  /** This form's total-charges widget takes amounts from 0 to 8000. */
  type TotalCharge = x: real | 0.0 <= x <= 8000.0

  /** The widget values when the button is pressed. */
  datatype Form = Form(
    seniorcitizen: SeniorFlag,
    tenure: TenureMonths,
    monthlycharges: MonthlyCharge,
    totalcharges: TotalCharge,
    choices: Selection)

  /**
    The record built from the widgets: every field is present, the numbers
    lie in the widgets' ranges, and every categorical value is one of its
    field's options.
  */
  function Data(f: Form): (x: ChurnInput)
    ensures x.seniorcitizen == 0 || x.seniorcitizen == 1
    ensures 0.0 <= x.tenure <= 72.0 && 0.0 <= x.monthlycharges <= 200.0 && 0.0 <= x.totalcharges <= 8000.0
    ensures forall m :: 0 <= m < |CatFields| ==> x.Categoricals()[m].Some? && x.Categoricals()[m].value in Options[m]
  {
    var x := FormRecord(f.seniorcitizen, f.tenure, f.monthlycharges, f.totalcharges, f.choices);
    assert x.Numbers()[0] == f.seniorcitizen as real;
    x
  }

  /**
    Each categorical field of the form contributes exactly one indicator
    column to the expansion: the one named after its selection.
  */
  lemma OneDummyPerField(f: Form, m: nat)
    requires m < |CatFields|
    ensures forall w :: DummyName(CatFields[m], w) in GetDummies(Data(f).AsFields()) <==> w == f.choices.Values()[m]
  {
    var rec := Data(f).AsFields();
    AsFieldsWellFormed(Data(f));
    forall w ensures DummyName(CatFields[m], w) in GetDummies(rec) <==> w == f.choices.Values()[m] {
      DummyPresent(rec, |NumCols| + m, w);
    }
  }

  /**
    When the expected columns hold the indicator of every option, no selection
    of the form is absorbed: its indicator is an expected column and is 1.
  */
  lemma SelectionsNeverAbsorbed(art: Artifacts, f: Form, m: nat, i: nat)
    requires art.scaler.Fits() && m < |CatFields|
    requires forall n, o :: 0 <= n < |CatFields| && o in Options[n] ==> DummyName(CatFields[n], o) in art.columns
    requires i == IndexOf(art.columns, DummyName(CatFields[m], f.choices.Values()[m]))
    ensures EncodedInput(art, Data(f))[i] == 1.0
  {
    CategoryOneHot(art, Data(f), m, i, f.choices.Values()[m]);
  }

  /**
    The button handler: encode the form's record exactly as the endpoint does
    and read the positive-class probability, which lies in [0, 1].
  */
  method PredictButton(art: Artifacts, f: Form) returns (prob: real)
    requires art.Ready()
    ensures prob == art.model(EncodedInput(art, Data(f)))[1]
    ensures 0.0 <= prob <= 1.0
  {
    var row := EncodeRow(Data(f).AsFields(), art.columns, art.scaler);
    prob := ChurnProbability(art.model, row);
  }
}
