# Customer churn: the feature-encoding pipeline

This project models how the customer-churn service turns one customer record into the numeric row its trained logistic-regression model expects, and what it does with the answer. There are three front ends.

- **The `/predict` endpoint** (`api/app.py`). It validates a JSON body into a `ChurnInput` record. It then runs the encoding pipeline:
  1. one-hot expansion (`get_dummies`);
  2. a loop that adds every expected column the frame lacks, with value 0;
  3. a reorder onto the expected columns;
  4. an in-place rescaling of the four numeric columns.

  It answers with the probability of the positive class.
- **The standalone form** (`app.py`). Widgets with fixed ranges and option lists fill every field of the record, and the same pipeline runs locally.
- **The client form** (`streamlit_app.py`). It sends the widget values as a JSON payload to the endpoint and shows the answer as a Low, Medium or High risk band, or as an error message.

The modules follow the same split:

- `Encoding` (`encoding.dfy`) holds the pipeline shared by the endpoint and the standalone form:
  - the `churn` filter on the stored column list;
  - `get_dummies` under its naming rule `field + "_" + value`;
  - the reconcile loop, a method over a map;
  - the reorder;
  - the scaling, a method that updates an array in place;
  - the artifacts and the positive-class probability.
- `Api` (`api.dfy`): the `ChurnInput` record, validation of a request body, and the handler.
- `Forms` (`forms.dfy`): the option lists and the widget ranges that both forms share.
- `StandaloneApp` (`standalone_app.dfy`): the standalone form's record and its predict button.
- `Client` (`client.dfy`): the client's payload, its acceptance by the endpoint, and the risk band.

Representation choices:

- The one-row DataFrame is a `map<string, real>` from column name to value.
- A record is a sequence of named cells. A cell is a number, a text, or missing (`None`).
- The fitted scaler is a per-column affine map `x * factor[k] + shift[k]`. This covers the usual standard and min-max scalers.
- The classifier is a function parameter. Its only contract (`Probabilistic`) is that it returns two non-negative numbers that sum to 1.
- `predict_proba` on the one-row frame becomes a call on the encoded row.

## Model

| member | source | states |
|---|---|---|
| Encoding.DropLabel | api/app.py:16 | the filtered column list has no `churn` entry, keeps every other entry, and holds nothing that was not stored |
| Encoding.DropLabelAppend | api/app.py:16 | filtering distributes over concatenation, so it works entry by entry |
| Encoding.DropLabelKeepsOrder | api/app.py:16 | two kept entries appear in the filtered list in their stored order |
| Encoding.Load | app.py:10 | the loaded artifacts carry the stored columns without `churn` and with every other stored column |
| Encoding.LoadReady | api/app.py:10-16 | loading yields artifacts that satisfy `Ready()`, which both handlers require and which includes the absence of `churn` from the expected columns; their columns are exactly the filtered stored list |
| Encoding.DummyNameInjective | api/app.py:43 | for field names without `_`, the dummy name `f_v` determines both the field and the value |
| Encoding.DummyNameNotNumeric | api/app.py:13 | no dummy column is one of the four numeric columns |
| Encoding.GetDummies | api/app.py:42-43 | every number and every present text produces its column, and every column of the frame comes from some field |
| Encoding.GetDummiesValue | api/app.py:42-43 | a numeric field's column holds its number, and a text field's `f_v` column holds 1 |
| Encoding.DummyPresent | api/app.py:43 | `f_w` is a column of the expanded frame exactly when field `f` holds the text `w`; a missing field produces none |
| Encoding.DummyNotFromNumber | api/app.py:43 | an `f_w` column can only come from field `f` holding `w` |
| Encoding.AddMissingColumns | api/app.py:46-48 | existing columns keep their values; every expected column is present afterwards; only expected columns are added, each with 0; a frame that already has every expected column is returned unchanged, so a second run changes nothing |
| Encoding.ScaleNumeric | api/app.py:53 | the array afterwards is the old row with each numeric position replaced by the scaler's transform of it, and every other position unchanged |
| Encoding.EncodeRow | api/app.py:42-53 | the row has one entry per expected column, and entry `i` is determined by `columns[i]` alone (its frame value or 0, rescaled if numeric) |
| Encoding.OneHotAt | api/app.py:43-51 | the position of `f_w` is 1 when `f` holds `w` and 0 otherwise, including when `f` is absent or holds another value |
| Encoding.NumericAt | api/app.py:53 | the position of a numeric field holds the scaler's transform of that field's number |
| Encoding.OnlyNumericScaled | api/app.py:53 | when only numeric fields hold numbers, every non-numeric position is left unscaled and is an indicator (its value is 1 or 0) |
| Encoding.UnseenValueActsAbsent | api/app.py:43-51 | a value whose dummy is not an expected column encodes exactly as if the field were absent, without error |
| Encoding.ChurnProbability | api/app.py:55 | the probability read from column 1 lies in [0, 1] and is one minus the probability of the other class |
| Api.ChurnInput.WithCategoricals | api/app.py:23-37 | replacing the categorical fields leaves the four numbers unchanged |
| Api.ChurnInput.AsFields | api/app.py:42 | the record's frame has the nineteen fields in declaration order; numbers are numbers, and each categorical field is its text or missing |
| Api.SameFieldsSameRecord | api/app.py:18-37 | a record is determined by its four numbers and fifteen categorical values |
| Api.FieldNamesWellFormed | api/app.py:18-37 | the field names are distinct and contain no `_` |
| Api.AsFieldsWellFormed | api/app.py:18-37 | every record expands into a frame whose dummy names are unambiguous |
| Api.Errors | api/app.py:18-37 | every field's error is reported, and nothing else is |
| Api.RecordOf | api/app.py:18-37 | the record built from a body holds the body's integer flag, its three numbers, and each categorical field's text (or none) |
| Api.ParseInput | api/app.py:18-37 | a body is accepted exactly when no field has an error; a rejection lists at least one error and every field's error |
| Api.ParseInputValues | api/app.py:19-37 | an accepted body yields its numbers and texts, and a categorical field that the body leaves out defaults to none |
| Api.AcceptedBody | api/app.py:18-37 | a body without errors is accepted as exactly the record holding its values |
| Api.MissingNumberRejected | api/app.py:19-22 | a body without one of the four numeric fields is rejected, naming that field; it never defaults |
| Api.Predict | api/app.py:39-56 | the response is element 1 of the model's output on the encoded record, and it lies in [0, 1] |
| Api.EncodedLength | api/app.py:46-51 | the encoded record has exactly one entry per expected column |
| Api.UnseenCategoryIsAbsent | api/app.py:43-51 | a categorical value with no expected dummy column encodes exactly like the field set to none |
| Api.CategoryOneHot | api/app.py:43-51 | for expected column `f_w`, the entry is 1 when the record's field `f` is `w` and 0 otherwise |
| Api.NumericScaled | api/app.py:53 | a numeric position holds the scaler's transform of the record's number, and every other position holds 0 or 1 |
| Forms.FormRecord | app.py:107-127 | the record a form fills has the widget numbers and the widget selection for every categorical field |
| StandaloneApp.Data | app.py:78-127 | the record has every field populated: senior in {0, 1}, tenure in [0, 72], monthly in [0, 200], total in [0, 8000], each categorical value from that field's option list |
| StandaloneApp.OneDummyPerField | app.py:107-131 | each categorical field contributes exactly one dummy column, the one for its selection |
| StandaloneApp.SelectionsNeverAbsorbed | app.py:130-139 | when the expected columns cover the option lists, the selected option's position is 1 |
| StandaloneApp.PredictButton | app.py:130-143 | the displayed probability is element 1 of the model's output on the encoded record, and it lies in [0, 1] |
| Client.Payload | streamlit_app.py:89-109 | the payload has exactly the nineteen record field names as keys, each holding its widget's value |
| Client.PayloadValid | streamlit_app.py:89-109 | no field of the payload has a validation error at the endpoint |
| Client.PayloadText | streamlit_app.py:89-109 | each categorical field of the payload carries the widget's selection |
| Client.PayloadAccepted | streamlit_app.py:89-112 | the endpoint accepts every payload the form can send, as the record holding the form's values |
| Client.RiskBand | streamlit_app.py:117-122 | High exactly when p >= 0.7, Medium exactly when 0.4 <= p < 0.7, and Low exactly when p < 0.4; exactly one band applies |
| Client.RiskBandMonotone | streamlit_app.py:117-122 | a higher probability never gets a lower band |
| Client.ShowReply | streamlit_app.py:114-125 | a non-200 status shows the error and no band; a 200 shows the returned probability with its band |

## Left out

- Loading the model, the column list and the scaler from their pickles is file I/O. The artifacts are parameters of the handler and of the forms.
- pandas and scikit-learn internals are not modelled. `get_dummies` is modelled by its naming rule, the scaler as a per-column affine map, and `predict_proba` as a function parameter whose output is taken to be a distribution over two classes.
- Floating-point arithmetic is modelled with exact reals. Dummy columns are 0/1 whatever their pandas dtype.
- Pydantic coercion is reduced to JSON integers, reals, strings and null:
  - `seniorcitizen` needs an integer;
  - the three charges take an integer or a real;
  - a categorical field takes a string or null.

  Numeric strings, booleans and the other lax conversions are not modelled.
- Api.ParseInput: an error names the field and its kind (missing or wrong type), not pydantic's full message.
- The endpoint does not reject negative or non-finite numbers, and it has no schema-mismatch check, so the model adds neither.
- Encoding.EncodeRow: a numeric column missing from the expected columns is a pandas KeyError. A numeric column listed twice makes the scaler's input the wrong shape. Both are preconditions (`HasNumericColumns`), not error results.
- The HTTP transport, FastAPI routing, Streamlit rendering, spinners, help text and the two-decimal formatting of the displayed probability are not modelled. The client's call to the endpoint becomes a `Reply` of status code and probability.
- Encoding.Probabilistic: `predict_proba` raises an error when the row's width or feature names differ from those the classifier was fitted on (an HTTP 500 at the endpoint). The model does not include this failure: the classifier is taken to return a distribution for a row of any width. The expected column list is the training column list, so the two agree for loaded artifacts.
- The batch dimension of `predict_proba` is not modelled: the model is applied to the single encoded row, and element `[0][1]` is read as element 1.
- The standalone form builds its `data` dictionary with the same nineteen fields as the endpoint's record. It is therefore modelled as that record, with every categorical field present.
- Frames are modelled as maps from column name to value, so two record fields producing the same column cannot be represented. The field names contain no `_`, and this is proved (`Api.FieldNamesWellFormed`, `Encoding.DummyNameInjective`).
