/**
  The prediction endpoint: the request record with its four required numeric
  fields and fifteen optional categorical ones, the validation of a JSON
  request body into that record, and the handler that encodes the record and
  returns the positive-class probability.
*/
module Api {
  import opened Wrappers
  import opened Encoding

  /** A JSON value of a request body, as far as the record's fields use it. */
  datatype Json = JInt(i: int) | JReal(r: real) | JStr(s: string) | JNull

  /** The request record: numeric fields are required, categorical ones default to none. */
  datatype ChurnInput = ChurnInput(
    seniorcitizen: int,
    tenure: real,
    monthlycharges: real,
    totalcharges: real,
    gender: Option<string>,
    partner: Option<string>,
    dependents: Option<string>,
    phoneservice: Option<string>,
    multiplelines: Option<string>,
    internetservice: Option<string>,
    onlinesecurity: Option<string>,
    onlinebackup: Option<string>,
    deviceprotection: Option<string>,
    techsupport: Option<string>,
    streamingtv: Option<string>,
    streamingmovies: Option<string>,
    contract: Option<string>,
    paperlessbilling: Option<string>,
    paymentmethod: Option<string>)
  {
    /** The categorical fields, in declaration order. */
    function Categoricals(): (cats: seq<Option<string>>)
      ensures |cats| == |CatFields|
    {
      [gender, partner, dependents, phoneservice, multiplelines, internetservice,
       onlinesecurity, onlinebackup, deviceprotection, techsupport, streamingtv,
       streamingmovies, contract, paperlessbilling, paymentmethod]
    }

    /** The same record with its categorical fields replaced. */
    function WithCategoricals(cats: seq<Option<string>>): (r: ChurnInput)
      requires |cats| == |CatFields|
      ensures r.Categoricals() == cats
      ensures r.seniorcitizen == seniorcitizen && r.tenure == tenure
      ensures r.monthlycharges == monthlycharges && r.totalcharges == totalcharges
    {
      var r := ChurnInput(seniorcitizen, tenure, monthlycharges, totalcharges,
        cats[0], cats[1], cats[2], cats[3], cats[4], cats[5], cats[6], cats[7],
        cats[8], cats[9], cats[10], cats[11], cats[12], cats[13], cats[14]);
      assert r.Categoricals() == cats by {
        assert forall m :: 0 <= m < |CatFields| ==> r.Categoricals()[m] == cats[m];
      }
      r
    }

    /** The raw numbers, in the order of the numeric columns. */
    function Numbers(): seq<real>
    {
      [seniorcitizen as real, tenure, monthlycharges, totalcharges]
    }

    /** The record as the fields of a one-row frame, numeric fields first. */
    function AsFields(): (rec: seq<Field>)
      ensures |rec| == |FieldNames|
      ensures forall i :: 0 <= i < |rec| ==> rec[i].name == FieldNames[i]
      ensures forall k :: 0 <= k < |NumCols| ==> rec[k].cell == Number(Numbers()[k])
      ensures forall m :: 0 <= m < |CatFields| ==>
        rec[|NumCols| + m].cell == OptionCell(Categoricals()[m])
    {
      seq(|NumCols|, k requires 0 <= k < |NumCols| => Field(NumCols[k], Number(Numbers()[k])))
      + seq(|CatFields|, m requires 0 <= m < |CatFields| => Field(CatFields[m], OptionCell(Categoricals()[m])))
    }
  }

  /** A record is determined by its numbers and its categorical fields. */
  lemma SameFieldsSameRecord(x: ChurnInput, y: ChurnInput)
    requires forall k :: 0 <= k < |NumCols| ==> x.Numbers()[k] == y.Numbers()[k]
    requires forall m :: 0 <= m < |CatFields| ==> x.Categoricals()[m] == y.Categoricals()[m]
    ensures x == y
  {
    assert x.Numbers()[0] == y.Numbers()[0];
    assert x.Numbers()[1] == y.Numbers()[1];
    assert x.Numbers()[2] == y.Numbers()[2];
    assert x.Numbers()[3] == y.Numbers()[3];
    assert x.Categoricals()[0] == y.Categoricals()[0];
    assert x.Categoricals()[1] == y.Categoricals()[1];
    assert x.Categoricals()[2] == y.Categoricals()[2];
    assert x.Categoricals()[3] == y.Categoricals()[3];
    assert x.Categoricals()[4] == y.Categoricals()[4];
    assert x.Categoricals()[5] == y.Categoricals()[5];
    assert x.Categoricals()[6] == y.Categoricals()[6];
    assert x.Categoricals()[7] == y.Categoricals()[7];
    assert x.Categoricals()[8] == y.Categoricals()[8];
    assert x.Categoricals()[9] == y.Categoricals()[9];
    assert x.Categoricals()[10] == y.Categoricals()[10];
    assert x.Categoricals()[11] == y.Categoricals()[11];
    assert x.Categoricals()[12] == y.Categoricals()[12];
    assert x.Categoricals()[13] == y.Categoricals()[13];
    assert x.Categoricals()[14] == y.Categoricals()[14];
  }

  /** The categorical field names, in declaration order. */
  const CatFields: seq<string> := [
    "gender", "partner", "dependents", "phoneservice", "multiplelines",
    "internetservice", "onlinesecurity", "onlinebackup", "deviceprotection",
    "techsupport", "streamingtv", "streamingmovies", "contract",
    "paperlessbilling", "paymentmethod"]

  /** All nineteen field names of the record. */
  const FieldNames: seq<string> := NumCols + CatFields

  /** A present string becomes a string cell, an absent one a missing cell. */
  function OptionCell(o: Option<string>): Cell
  {
    match o
    case Some(s) => Text(s)
    case None => Missing
  }

  /** No two field names coincide and none contains '_'. */
  lemma FieldNamesWellFormed()
    ensures forall i :: 0 <= i < |FieldNames| ==> '_' !in FieldNames[i]
    ensures forall i, j :: 0 <= i < j < |FieldNames| ==> FieldNames[i] != FieldNames[j]
  {
  }

  /** Every record yields a well-formed frame, so dummy columns never collide. */
  lemma AsFieldsWellFormed(x: ChurnInput)
    ensures WellFormed(x.AsFields())
  {
    FieldNamesWellFormed();
  }

  // ---------------------------------------------------------------------------
  // Request validation
  // ---------------------------------------------------------------------------

  /** A field the body lacks although it is required, or gives a value of the wrong type. */
  datatype ValidationError = MissingField(field: string) | WrongType(field: string)

  /** Whether a body value is accepted for field i of FieldNames. */
  predicate Acceptable(i: nat, v: Json)
    requires i < |FieldNames|
  {
    if i == 0 then v.JInt?
    else if i < |NumCols| then v.JInt? || v.JReal?
    else v.JStr? || v.JNull?
  }

  /**
    The validation error of field i, if any: a numeric field must be present,
    and a present field must have a value of its type (an integer for
    seniorcitizen, an integer or a float for the other numeric fields, a
    string or null for a categorical field).
  */
  function FieldError(body: map<string, Json>, i: nat): (e: Option<ValidationError>)
    requires i < |FieldNames|
  {
    var name := FieldNames[i];
    if name !in body then (if i < |NumCols| then Some(MissingField(name)) else None)
    else if Acceptable(i, body[name]) then None
    else Some(WrongType(name))
  }

  /** The errors of fields from, from + 1, ..., in declaration order. */
  function Errors(body: map<string, Json>, from: nat): (errs: seq<ValidationError>)
    requires from <= |FieldNames|
    decreases |FieldNames| - from
    ensures forall i :: from <= i < |FieldNames| && FieldError(body, i).Some? ==> FieldError(body, i).value in errs
    ensures forall e :: e in errs ==> exists i :: from <= i < |FieldNames| && FieldError(body, i) == Some(e)
  {
    if from == |FieldNames| then []
    else
      var rest := Errors(body, from + 1);
      match FieldError(body, from)
      case Some(e) => [e] + rest
      case None => rest
  }

  /** The number a numeric body value stands for. */
  function GivenNumber(v: Json): real
  {
    match v
    case JInt(i) => i as real
    case JReal(x) => x
    case _ => 0.0
  }

  /** The value a body gives categorical field m: none when absent or null. */
  function GivenText(body: map<string, Json>, m: nat): Option<string>
    requires m < |CatFields|
  {
    var name := CatFields[m];
    if name in body && body[name].JStr? then Some(body[name].s) else None
  }

  /**
    The record a body describes once its numeric fields are known to be
    present: the integer flag, the three numbers and the fifteen texts.
  */
  function RecordOf(body: map<string, Json>): (x: ChurnInput)
    requires forall k :: 0 <= k < |NumCols| ==> NumCols[k] in body
    requires body[NumCols[0]].JInt?
    ensures x.seniorcitizen == body[NumCols[0]].i
    ensures forall k :: 0 <= k < |NumCols| ==> x.Numbers()[k] == GivenNumber(body[NumCols[k]])
    ensures forall m :: 0 <= m < |CatFields| ==> x.Categoricals()[m] == GivenText(body, m)
  {
    ChurnInput(
      body[NumCols[0]].i, GivenNumber(body[NumCols[1]]),
      GivenNumber(body[NumCols[2]]), GivenNumber(body[NumCols[3]]),
      GivenText(body, 0), GivenText(body, 1), GivenText(body, 2), GivenText(body, 3),
      GivenText(body, 4), GivenText(body, 5), GivenText(body, 6), GivenText(body, 7),
      GivenText(body, 8), GivenText(body, 9), GivenText(body, 10), GivenText(body, 11),
      GivenText(body, 12), GivenText(body, 13), GivenText(body, 14))
  }

  /**
    Validation of a request body into the record. Every field is checked and
    all errors are reported together; keys that are not fields are ignored.
  */
  function ParseInput(body: map<string, Json>): (r: Result<ChurnInput, seq<ValidationError>>)
    ensures r.Success? <==> forall i :: 0 <= i < |FieldNames| ==> FieldError(body, i).None?
    ensures r.Failure? ==> && r.error != []
                           && forall i :: 0 <= i < |FieldNames| && FieldError(body, i).Some? ==> FieldError(body, i).value in r.error
  {
    var errs := Errors(body, 0);
    if errs != [] then
      assert errs[0] in errs;
      Failure(errs)
    else
      assert FieldError(body, 0).None? && FieldError(body, 1).None?;
      assert FieldError(body, 2).None? && FieldError(body, 3).None?;
      Success(RecordOf(body))
  }

  /**
    An accepted body yields the record of its values: its numbers, its
    strings, and none for every categorical field it leaves out or sets null.
  */
  lemma ParseInputValues(body: map<string, Json>)
    requires ParseInput(body).Success?
    ensures forall k :: 0 <= k < |NumCols| ==>
      NumCols[k] in body && ParseInput(body).value.Numbers()[k] == GivenNumber(body[NumCols[k]])
    ensures forall m :: 0 <= m < |CatFields| ==> ParseInput(body).value.Categoricals()[m] == GivenText(body, m)
    ensures forall m :: 0 <= m < |CatFields| && CatFields[m] !in body ==> ParseInput(body).value.Categoricals()[m] == None
  {
    assert FieldError(body, 0).None? && FieldError(body, 1).None?;
    assert FieldError(body, 2).None? && FieldError(body, 3).None?;
    assert ParseInput(body).value == RecordOf(body);
  }

  /** A body without errors is accepted as the record that has its values. */
  lemma AcceptedBody(body: map<string, Json>, x: ChurnInput)
    requires forall i :: 0 <= i < |FieldNames| ==> FieldError(body, i).None?
    requires forall k :: 0 <= k < |NumCols| ==> NumCols[k] in body
    requires body[NumCols[0]] == JInt(x.seniorcitizen)
    requires forall k :: 1 <= k < |NumCols| ==> GivenNumber(body[NumCols[k]]) == x.Numbers()[k]
    requires forall m :: 0 <= m < |CatFields| ==> GivenText(body, m) == x.Categoricals()[m]
    ensures ParseInput(body) == Success(x)
  {
    ParseInputValues(body);
    SameFieldsSameRecord(x, ParseInput(body).value);
  }

  /** A body that lacks a numeric field is rejected with that field named; it never defaults to 0. */
  lemma MissingNumberRejected(body: map<string, Json>, k: nat)
    requires k < |NumCols| && NumCols[k] !in body
    ensures ParseInput(body).Failure? && MissingField(NumCols[k]) in ParseInput(body).error
  {
    assert FieldNames[k] == NumCols[k];
    assert FieldError(body, k) == Some(MissingField(NumCols[k]));
  }

  // ---------------------------------------------------------------------------
  // The handler
  // ---------------------------------------------------------------------------

  /** The response body: {"churn_probability": p}. */
  datatype Response = Response(churnProbability: real)

  /** The model input the handler builds for a record. */
  function EncodedInput(art: Artifacts, x: ChurnInput): seq<real>
    requires art.scaler.Fits()
  {
    Encoded(art.columns, art.scaler, GetDummies(x.AsFields()))
  }

  /**
    The prediction handler: expand the record, add the missing expected
    columns, reorder, rescale the numeric slice, and answer with the
    probability of the positive class.
  */
  method Predict(art: Artifacts, input: ChurnInput) returns (response: Response)
    requires art.Ready()
    ensures response.churnProbability == art.model(EncodedInput(art, input))[1]
    ensures 0.0 <= response.churnProbability <= 1.0
  {
    var row := EncodeRow(input.AsFields(), art.columns, art.scaler);
    response := Response(ChurnProbability(art.model, row));
  }

  // ---------------------------------------------------------------------------
  // What the handler promises about a record
  // ---------------------------------------------------------------------------

  /** The encoded row has one entry per expected column. */
  lemma EncodedLength(art: Artifacts, x: ChurnInput)
    requires art.scaler.Fits()
    ensures |EncodedInput(art, x)| == |art.columns|
  {
  }

  /**
    A categorical value whose indicator column is not expected gives the same
    model input as leaving the field out, and raises no error.
  */
  lemma UnseenCategoryIsAbsent(art: Artifacts, x: ChurnInput, m: nat)
    requires art.scaler.Fits() && m < |CatFields| && x.Categoricals()[m].Some?
    requires DummyName(CatFields[m], x.Categoricals()[m].value) !in art.columns
    ensures EncodedInput(art, x) == EncodedInput(art, x.WithCategoricals(x.Categoricals()[m := None]))
  {
    var rec := x.AsFields();
    var k := |NumCols| + m;
    ClearedAsFields(x, m);
    AsFieldsWellFormed(x);
    UnseenValueActsAbsent(rec, k, art.columns, art.scaler);
  }

  /** Clearing categorical field m clears exactly its cell among the record's fields. */
  lemma ClearedAsFields(x: ChurnInput, m: nat)
    requires m < |CatFields|
    ensures var k := |NumCols| + m;
      x.WithCategoricals(x.Categoricals()[m := None]).AsFields()
      == x.AsFields()[k := Field(x.AsFields()[k].name, Missing)]
  {
    var k := |NumCols| + m;
    var y := x.WithCategoricals(x.Categoricals()[m := None]);
    var a, b := y.AsFields(), x.AsFields()[k := Field(x.AsFields()[k].name, Missing)];
    assert y.Numbers() == x.Numbers();
    forall i | 0 <= i < |a| ensures a[i] == b[i] {
      if i >= |NumCols| {
        assert a[i].cell == OptionCell(y.Categoricals()[i - |NumCols|]);
      }
    }
  }

  /**
    At an expected indicator column f_w of categorical field f, the model
    input holds 1 when f is w and 0 otherwise, absent fields included.
  */
  lemma CategoryOneHot(art: Artifacts, x: ChurnInput, m: nat, i: nat, w: string)
    requires art.scaler.Fits() && m < |CatFields| && i < |art.columns|
    requires art.columns[i] == DummyName(CatFields[m], w)
    ensures EncodedInput(art, x)[i] == if x.Categoricals()[m] == Some(w) then 1.0 else 0.0
  {
    AsFieldsWellFormed(x);
    OneHotAt(x.AsFields(), |NumCols| + m, art.columns, art.scaler, i, w);
  }

  /**
    At the expected column of numeric field k the model input is the scaler's
    transform of the raw number; every other position is an unscaled 0 or 1.
  */
  lemma NumericScaled(art: Artifacts, x: ChurnInput, i: nat)
    requires art.scaler.Fits() && i < |art.columns|
    ensures art.columns[i] in NumCols ==>
      EncodedInput(art, x)[i] == art.scaler.Apply(NumIndex(art.columns[i]), x.Numbers()[NumIndex(art.columns[i])])
    ensures art.columns[i] !in NumCols ==> EncodedInput(art, x)[i] in {0.0, 1.0}
  {
    var rec := x.AsFields();
    AsFieldsWellFormed(x);
    if art.columns[i] in NumCols {
      var k := NumIndex(art.columns[i]);
      NumericAt(rec, k, art.columns, art.scaler, i);
    } else {
      assert forall j :: 0 <= j < |rec| && rec[j].cell.Number? ==> j < |NumCols|;
      OnlyNumericScaled(rec, art.columns, art.scaler, i);
    }
  }
}
