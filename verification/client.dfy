/**
  The client front-end: it sends the form's values to the prediction
  endpoint and shows the returned probability with a risk band.
*/
module Client {
  import opened Wrappers
  import opened Encoding
  import opened Api
  import opened Forms

  /** This form's total-charges widget takes amounts from 0 to 10000. */
  type TotalCharge = x: real | 0.0 <= x <= 10000.0

  /** The widget values when the button is pressed. */
  datatype Form = Form(
    seniorcitizen: SeniorFlag,
    tenure: TenureMonths,
    monthlycharges: MonthlyCharge,
    totalcharges: TotalCharge,
    choices: Selection)

  /** The value the payload gives field i of FieldNames: the widget's value as JSON. */
  function PayloadValue(f: Form, i: nat): Json
    requires i < |FieldNames|
  {
    if i == 0 then JInt(f.seniorcitizen)
    else if i == 1 then JInt(f.tenure)
    else if i == 2 then JReal(f.monthlycharges)
    else if i == 3 then JReal(f.totalcharges)
    else JStr(f.choices.Values()[i - |NumCols|])
  }

  /**
    The JSON request body: exactly the nineteen field names of the record as
    keys, each with its widget value.
  */
  function Payload(f: Form): (body: map<string, Json>)
    ensures body.Keys == set n | n in FieldNames
    ensures forall i :: 0 <= i < |FieldNames| ==> body[FieldNames[i]] == PayloadValue(f, i)
  {
    FieldNamesWellFormed();
    map i | 0 <= i < |FieldNames| :: FieldNames[i] := PayloadValue(f, i)
  }

  /** No field of a payload the form can send has a validation error. */
  lemma PayloadValid(f: Form)
    ensures forall i :: 0 <= i < |FieldNames| ==> FieldError(Payload(f), i).None?
  {
    var body := Payload(f);
    forall i | 0 <= i < |FieldNames| ensures FieldError(body, i).None? {
      assert FieldNames[i] in body;
      assert Acceptable(i, PayloadValue(f, i));
    }
  }

  /** The payload gives every categorical field its selection. */
  lemma PayloadText(f: Form, m: nat)
    requires m < |CatFields|
    ensures GivenText(Payload(f), m) == Some(f.choices.Values()[m])
  {
    var body := Payload(f);
    assert FieldNames[|NumCols| + m] == CatFields[m];
    assert body[CatFields[m]] == PayloadValue(f, |NumCols| + m);
  }

  /**
    The endpoint accepts every payload the form can send, and the record it
    validates is the form's record: the widget numbers and every selection.
  */
  lemma PayloadAccepted(f: Form)
    ensures ParseInput(Payload(f)) == Success(FormRecord(f.seniorcitizen, f.tenure, f.monthlycharges, f.totalcharges, f.choices))
  {
    var body := Payload(f);
    var x := FormRecord(f.seniorcitizen, f.tenure, f.monthlycharges, f.totalcharges, f.choices);
    PayloadValid(f);
    forall k | 0 <= k < |NumCols| ensures NumCols[k] in body && body[NumCols[k]] == PayloadValue(f, k) {
      assert FieldNames[k] == NumCols[k];
    }
    forall m | 0 <= m < |CatFields| ensures GivenText(body, m) == x.Categoricals()[m] {
      PayloadText(f, m);
    }
    AcceptedBody(body, x);
  }

  // ---------------------------------------------------------------------------
  // Showing the reply
  // ---------------------------------------------------------------------------

  datatype Band = Low | Medium | High

  /** The risk band of a probability; each threshold belongs to the higher band. */
  function RiskBand(prob: real): (b: Band)
    ensures b == High <==> prob >= 0.7
    ensures b == Medium <==> 0.4 <= prob < 0.7
    ensures b == Low <==> prob < 0.4
  {
    if prob >= 0.7 then High
    else if prob >= 0.4 then Medium
    else Low
  }

  /** The order of the bands. */
  function Rank(b: Band): nat
  {
    match b
    case Low => 0
    case Medium => 1
    case High => 2
  }

  /** A higher probability never gets a lower band. */
  lemma RiskBandMonotone(p: real, q: real)
    requires p <= q
    ensures Rank(RiskBand(p)) <= Rank(RiskBand(q))
  {
  }

  /** The endpoint's reply: the status code and, on success, the body's probability. */
  datatype Reply = Reply(statusCode: int, churnProbability: real)

  /** What the page shows: a risk band with the probability, or an error message. */
  datatype Message = Risk(band: Band, prob: real) | ApiError

  /**
    A reply with status 200 shows its probability under the band it falls in;
    any other status shows the error message and neither band nor probability.
  */
  function ShowReply(reply: Reply): (msg: Message)
    ensures msg.ApiError? <==> reply.statusCode != 200
    ensures msg.Risk? ==> msg.prob == reply.churnProbability
    ensures msg.Risk? ==> (msg.band == High <==> msg.prob >= 0.7)
    ensures msg.Risk? ==> (msg.band == Medium <==> 0.4 <= msg.prob < 0.7)
    ensures msg.Risk? ==> (msg.band == Low <==> msg.prob < 0.4)
  {
    if reply.statusCode == 200 then Risk(RiskBand(reply.churnProbability), reply.churnProbability)
    else ApiError
  }
}
