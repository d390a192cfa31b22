/**
 * The `/predict` handler of chat.py. A request either carries a PDF upload,
 * whose text is searched for the five fields, or a form with the five values;
 * the values go to the classifier and its answer picks one of two messages.
 * Every failure along the way picks a message of its own, except two that
 * raise exceptions the handler does not catch.
 *
 * The PDF text extractor, the float conversion of form strings and the
 * scaler-plus-logistic-regression classifier are parameters: what the model
 * states holds for every extractor result, every conversion and every
 * classifier.
 */
module RequestHandler {
  import opened Wrappers
  import opened FieldParser
  import opened Extraction

  /** The six messages the handler can render. */
  datatype Outcome = AtRisk | LooksGood | PdfReadError | PdfFieldsMissing | FormInvalid | NoData

  /** The `prediction_text` rendered for each outcome. */
  function Message(o: Outcome): string {
    match o
    case AtRisk => "Based on your test results, you may be at risk for the disease. Please consult with a doctor."
    case LooksGood => "Your test results look good. However, it's always a good idea to consult with a doctor."
    case PdfReadError => "Error reading the PDF file."
    case PdfFieldsMissing => "Could not extract values from the PDF. Please ensure it follows the expected format."
    case FormInvalid => "Please enter valid numerical values in the form."
    case NoData => "Please provide valid data through either a form or a PDF file."
  }

  /** An exception that leaves the handler. */
  datatype Fault =
    | MissingFormKey(key: string)   // `request.form[key]` raises a KeyError subclass
    | UnparsableBmi                 // `float()` of the BMI capture raises ValueError

  /** What the client gets: a rendered page, or the error response of an escaped exception. */
  datatype Response = Rendered(outcome: Outcome) | Aborted(fault: Fault)

  /**
   * The `file` part of the request: its file name and what
   * `extract_text_from_pdf` returns for it (None when the extractor raised).
   */
  datatype Upload = Upload(filename: string, text: Option<string>)

  datatype Request = Request(file: Option<Upload>, form: map<string, string>)

  /** The form fields, in the order the handler reads them and the classifier takes them. */
  const FormKeys: seq<string> := ["age", "cholesterol", "bp", "glucose", "bmi"]

  /** `float(request.form[key])`: a number, a missing key, or a ValueError. */
  datatype FieldRead = Number(x: real) | KeyMissing | NotANumber

  function ReadField(form: map<string, string>, key: string, parse: string -> Option<real>): (r: FieldRead)
    ensures r == KeyMissing <==> key !in form
    ensures r == NotANumber <==> key in form && parse(form[key]).None?
    ensures r.Number? ==> key in form && parse(form[key]) == Some(r.x)
  {
    if key !in form then KeyMissing
    else match parse(form[key])
      case None => NotANumber
      case Some(x) => Number(x)
  }

  /** The outcome of a block of conversions run in order, stopping at the first that raises. */
  datatype FormRead = Read(values: seq<real>) | Missing(key: string) | Invalid(key: string)

  /** Every field before the `j`-th reads as a number. */
  predicate NumbersBefore(form: map<string, string>, keys: seq<string>, parse: string -> Option<real>, j: nat) {
    && j <= |keys|
    && (forall k :: 0 <= k < j ==> ReadField(form, keys[k], parse).Number?)
  }

  /**
   * The conversions of `keys` in order. The result is every value when every
   * conversion succeeds; otherwise it is the failure of the first field that
   * fails, and the fields after it are never looked at.
   */
  function ReadForm(form: map<string, string>, keys: seq<string>, parse: string -> Option<real>): (r: FormRead)
    ensures r.Read? ==>
              && |r.values| == |keys|
              && forall k :: 0 <= k < |keys| ==> ReadField(form, keys[k], parse) == Number(r.values[k])
    ensures r.Missing? ==>
              exists j :: 0 <= j < |keys| && NumbersBefore(form, keys, parse, j)
                && keys[j] == r.key && ReadField(form, keys[j], parse) == KeyMissing
    ensures r.Invalid? ==>
              exists j :: 0 <= j < |keys| && NumbersBefore(form, keys, parse, j)
                && keys[j] == r.key && ReadField(form, keys[j], parse) == NotANumber
  {
    if keys == [] then Read([])
    else
      match ReadField(form, keys[0], parse)
      case KeyMissing =>
        assert NumbersBefore(form, keys, parse, 0);
        Missing(keys[0])
      case NotANumber =>
        assert NumbersBefore(form, keys, parse, 0);
        Invalid(keys[0])
      case Number(x) =>
        var rest := ReadForm(form, keys[1..], parse);
        match rest
        case Read(vs) =>
          assert forall k :: 1 <= k < |keys| ==> keys[k] == keys[1..][k - 1];
          Read([x] + vs)
        case Missing(key) =>
          var j :| 0 <= j < |keys[1..]| && NumbersBefore(form, keys[1..], parse, j)
                   && keys[1..][j] == key && ReadField(form, keys[1..][j], parse) == KeyMissing;
          assert NumbersBefore(form, keys, parse, j + 1) by {
            assert forall k :: 1 <= k < j + 1 ==> keys[k] == keys[1..][k - 1];
          }
          rest
        case Invalid(key) =>
          var j :| 0 <= j < |keys[1..]| && NumbersBefore(form, keys[1..], parse, j)
                   && keys[1..][j] == key && ReadField(form, keys[1..][j], parse) == NotANumber;
          assert NumbersBefore(form, keys, parse, j + 1) by {
            assert forall k :: 1 <= k < j + 1 ==> keys[k] == keys[1..][k - 1];
          }
          rest
  }

  /** The classifier's prediction 1 means at risk; any other prediction means the results look good. */
  function Verdict(prediction: int): (o: Outcome)
    ensures o == AtRisk <==> prediction == 1
    ensures o == LooksGood <==> prediction != 1
  {
    if prediction == 1 then AtRisk else LooksGood
  }

  /** The request has a `file` part with a non-empty file name, so the PDF branch runs. */
  predicate HasUpload(req: Request) {
    req.file.Some? && req.file.value.filename != ""
  }

  /** The response for a PDF text, given what the extraction made of it. */
  function PdfResponse(e: Extraction, classify: Vitals -> int): (resp: Response)
    ensures resp == Rendered(PdfFieldsMissing) <==> e == FieldsMissing
    ensures resp == Aborted(UnparsableBmi) <==> e == BmiNotANumber
    ensures e.Extracted? ==> resp == Rendered(Verdict(classify(e.values)))
  {
    match e
    case FieldsMissing => Rendered(PdfFieldsMissing)
    case BmiNotANumber => Aborted(UnparsableBmi)
    case Extracted(v) => Rendered(Verdict(classify(v)))
  }

  /**
   * The specification of the handler: the response for a request, given the
   * float conversion of form strings and the classifier.
   */
  function Decide(req: Request, extract: string -> Extraction, parse: string -> Option<real>, classify: Vitals -> int): (r: Response)
    ensures r != Rendered(NoData)
    ensures HasUpload(req) ==> r != Rendered(FormInvalid) && !(r.Aborted? && r.fault.MissingFormKey?)
    ensures !HasUpload(req) ==> r != Rendered(PdfReadError) && r != Rendered(PdfFieldsMissing) && r != Aborted(UnparsableBmi)
    ensures r.Aborted? && r.fault.MissingFormKey? ==> r.fault.key in FormKeys && r.fault.key !in req.form
  {
    if HasUpload(req) then
      var text := req.file.value.text;
      if text.None? || text.value == "" then Rendered(PdfReadError)
      else PdfResponse(extract(text.value), classify)
    else
      match ReadForm(req.form, FormKeys, parse)
      case Missing(key) => Aborted(MissingFormKey(key))
      case Invalid(_) => Rendered(FormInvalid)
      case Read(vs) => Rendered(Verdict(classify(Vitals(vs[0], vs[1], vs[2], vs[3], vs[4]))))
  }

  /**
   * The handler as written: five values that start out unset, two branches
   * that set them or return early, and a final check that all five are set.
   * The final check never fails, so the NoData message is never rendered.
   */
  method Predict(req: Request, extract: string -> Extraction, parse: string -> Option<real>, classify: Vitals -> int) returns (resp: Response)
    ensures resp == Decide(req, extract, parse, classify)
    ensures resp != Rendered(NoData)
  {
    var age: Option<real> := None;
    var cholesterol: Option<real> := None;
    var bp: Option<real> := None;
    var glucose: Option<real> := None;
    var bmi: Option<real> := None;

    if req.file.Some? && req.file.value.filename != "" {
      var text := req.file.value.text;
      if text.Some? && text.value != "" {
        var values := extract(text.value);
        match values {
          case Extracted(v) =>
            age, cholesterol, bp, glucose, bmi := Some(v.age), Some(v.cholesterol), Some(v.bloodPressure), Some(v.glucose), Some(v.bmi);
          case FieldsMissing =>
            return Rendered(PdfFieldsMissing);
          case BmiNotANumber =>
            return Aborted(UnparsableBmi);
        }
      } else {
        return Rendered(PdfReadError);
      }
    } else {
      var form := req.form;
      ReadFormSteps(form, parse);
      match ReadField(form, "age", parse) {
        case KeyMissing => return Aborted(MissingFormKey("age"));
        case NotANumber => return Rendered(FormInvalid);
        case Number(x) => age := Some(x);
      }
      match ReadField(form, "cholesterol", parse) {
        case KeyMissing => return Aborted(MissingFormKey("cholesterol"));
        case NotANumber => return Rendered(FormInvalid);
        case Number(x) => cholesterol := Some(x);
      }
      match ReadField(form, "bp", parse) {
        case KeyMissing => return Aborted(MissingFormKey("bp"));
        case NotANumber => return Rendered(FormInvalid);
        case Number(x) => bp := Some(x);
      }
      match ReadField(form, "glucose", parse) {
        case KeyMissing => return Aborted(MissingFormKey("glucose"));
        case NotANumber => return Rendered(FormInvalid);
        case Number(x) => glucose := Some(x);
      }
      match ReadField(form, "bmi", parse) {
        case KeyMissing => return Aborted(MissingFormKey("bmi"));
        case NotANumber => return Rendered(FormInvalid);
        case Number(x) => bmi := Some(x);
      }
    }

    if age.Some? && cholesterol.Some? && bp.Some? && glucose.Some? && bmi.Some? {
      var prediction := classify(Vitals(age.value, cholesterol.value, bp.value, glucose.value, bmi.value));
      if prediction == 1 {
        resp := Rendered(AtRisk);
      } else {
        resp := Rendered(LooksGood);
      }
    } else {
      resp := Rendered(NoData);
    }
  }

  /** ReadForm over the five form keys, one key at a time. */
  lemma ReadFormSteps(form: map<string, string>, parse: string -> Option<real>)
    ensures ReadForm(form, FormKeys, parse)
         == match ReadField(form, "age", parse)
            case KeyMissing => Missing("age")
            case NotANumber => Invalid("age")
            case Number(a) =>
              match ReadField(form, "cholesterol", parse)
              case KeyMissing => Missing("cholesterol")
              case NotANumber => Invalid("cholesterol")
              case Number(c) =>
                match ReadField(form, "bp", parse)
                case KeyMissing => Missing("bp")
                case NotANumber => Invalid("bp")
                case Number(p) =>
                  match ReadField(form, "glucose", parse)
                  case KeyMissing => Missing("glucose")
                  case NotANumber => Invalid("glucose")
                  case Number(g) =>
                    match ReadField(form, "bmi", parse)
                    case KeyMissing => Missing("bmi")
                    case NotANumber => Invalid("bmi")
                    case Number(m) => Read([a, c, p, g, m])
  {
    var ks := FormKeys;
    assert ks[1..] == ["cholesterol", "bp", "glucose", "bmi"];
    assert ks[1..][1..] == ["bp", "glucose", "bmi"];
    assert ks[1..][1..][1..] == ["glucose", "bmi"];
    assert ks[1..][1..][1..][1..] == ["bmi"];
    assert ks[1..][1..][1..][1..][1..] == [];
    ReadFormFirst(form, ks, parse);
    ReadFormFirst(form, ks[1..], parse);
    ReadFormFirst(form, ks[1..][1..], parse);
    ReadFormFirst(form, ks[1..][1..][1..], parse);
    ReadFormFirst(form, ks[1..][1..][1..][1..], parse);
  }

  /** One step of ReadForm: the first field, then the rest. */
  lemma ReadFormFirst(form: map<string, string>, keys: seq<string>, parse: string -> Option<real>)
    requires keys != []
    ensures ReadForm(form, keys, parse)
         == match ReadField(form, keys[0], parse)
            case KeyMissing => Missing(keys[0])
            case NotANumber => Invalid(keys[0])
            case Number(x) =>
              match ReadForm(form, keys[1..], parse)
              case Read(vs) => Read([x] + vs)
              case other => other
  {
  }

  // ---------------------------------------------------------------------------
  // Properties of the decision
  // ---------------------------------------------------------------------------

  /** The feature vector the classifier receives, in the order of FormKeys. */
  function Features(v: Vitals): (fs: seq<real>)
    ensures |fs| == |FormKeys|
  {
    [v.age, v.cholesterol, v.bloodPressure, v.glucose, v.bmi]
  }

  /**
   * The values `v` reach the classifier: the field extraction of the uploaded
   * PDF's text yields them, or, without an upload, each form field converts
   * to its value of `v`.
   */
  ghost predicate ReachesClassifier(req: Request, extract: string -> Extraction, parse: string -> Option<real>, v: Vitals) {
    if HasUpload(req) then
      var text := req.file.value.text;
      text.Some? && text.value != "" && extract(text.value) == Extracted(v)
    else
      forall i :: 0 <= i < |FormKeys| ==> ReadField(req.form, FormKeys[i], parse) == Number(Features(v)[i])
  }

  /** When every form field converts, the values go to the classifier in the order of FormKeys. */
  lemma FormValuesReachClassifier(req: Request, extract: string -> Extraction, parse: string -> Option<real>,
                                  classify: Vitals -> int, v: Vitals)
    requires !HasUpload(req) && ReachesClassifier(req, extract, parse, v)
    ensures ReadForm(req.form, FormKeys, parse) == Read(Features(v))
    ensures Decide(req, extract, parse, classify) == Rendered(Verdict(classify(v)))
  {
    var r := ReadForm(req.form, FormKeys, parse);
    if !r.Read? {
      var j :| 0 <= j < |FormKeys| && NumbersBefore(req.form, FormKeys, parse, j) && !ReadField(req.form, FormKeys[j], parse).Number?;
      assert false;
    }
    assert r.values == Features(v);
  }

  /** The classifier sees the values that reach it, whichever branch produced them, and nothing else produces a verdict. */
  lemma VerdictExactly(req: Request, extract: string -> Extraction, parse: string -> Option<real>, classify: Vitals -> int)
    ensures Decide(req, extract, parse, classify) == Rendered(AtRisk) <==>
              exists v :: ReachesClassifier(req, extract, parse, v) && classify(v) == 1
    ensures Decide(req, extract, parse, classify) == Rendered(LooksGood) <==>
              exists v :: ReachesClassifier(req, extract, parse, v) && classify(v) != 1
  {
    var d := Decide(req, extract, parse, classify);
    if d == Rendered(AtRisk) || d == Rendered(LooksGood) {
      if HasUpload(req) {
        var v := extract(req.file.value.text.value).values;
        assert ReachesClassifier(req, extract, parse, v);
      } else {
        var vs := ReadForm(req.form, FormKeys, parse).values;
        var v := Vitals(vs[0], vs[1], vs[2], vs[3], vs[4]);
        assert Features(v) == vs;
        assert ReachesClassifier(req, extract, parse, v);
      }
    }
    forall v | ReachesClassifier(req, extract, parse, v)
      ensures d == Rendered(Verdict(classify(v)))
    {
      if !HasUpload(req) {
        FormValuesReachClassifier(req, extract, parse, classify, v);
      }
    }
  }

  /**
   * A file part with a non-empty file name decides the response on its own:
   * the form and the conversion of form strings are never consulted.
   */
  lemma UploadShadowsForm(req: Request, form: map<string, string>, extract: string -> Extraction,
                          parse: string -> Option<real>, parse': string -> Option<real>, classify: Vitals -> int)
    requires HasUpload(req)
    ensures Decide(req.(form := form), extract, parse', classify) == Decide(req, extract, parse, classify)
  {
  }

  /**
   * An upload whose text is missing or empty renders the PDF read error, and
   * nothing else renders it, whatever the field extraction does.
   */
  lemma PdfReadErrorExactly(req: Request, extract: string -> Extraction, parse: string -> Option<real>, classify: Vitals -> int)
    ensures Decide(req, extract, parse, classify) == Rendered(PdfReadError) <==>
              HasUpload(req) && (req.file.value.text.None? || req.file.value.text.value == "")
  {
  }

  /** An upload whose text lacks one of the five fields renders the extraction error, and nothing else renders it. */
  lemma PdfFieldsMissingExactly(req: Request, parse: string -> Option<real>, classify: Vitals -> int)
    ensures Decide(req, ExtractValues, parse, classify) == Rendered(PdfFieldsMissing) <==>
              && HasUpload(req) && req.file.value.text.Some? && req.file.value.text.value != ""
              && exists f :: Capture(req.file.value.text.value, f).None?
  {
    if HasUpload(req) && req.file.value.text.Some? && req.file.value.text.value != "" {
      var e := ExtractValues(req.file.value.text.value);
      assert Decide(req, ExtractValues, parse, classify) == PdfResponse(e, classify);
    }
  }

  /**
   * The request fails with the uncaught ValueError exactly when its PDF text
   * has all five fields and the BMI capture is no number.
   */
  lemma UnparsableBmiExactly(req: Request, parse: string -> Option<real>, classify: Vitals -> int)
    ensures Decide(req, ExtractValues, parse, classify) == Aborted(UnparsableBmi) <==>
              && HasUpload(req) && req.file.value.text.Some? && req.file.value.text.value != ""
              && AllFound(req.file.value.text.value)
              && var bmi := Capture(req.file.value.text.value, Bmi).value;
                 bmi == "." || multiset(bmi)['.'] >= 2
  {
    if HasUpload(req) && req.file.value.text.Some? && req.file.value.text.value != "" {
      var e := ExtractValues(req.file.value.text.value);
      assert Decide(req, ExtractValues, parse, classify) == PdfResponse(e, classify);
    }
  }

  /** Every response other than a verdict is reached without calling the classifier. */
  lemma FailuresIgnoreClassifier(req: Request, extract: string -> Extraction, parse: string -> Option<real>,
                                 c1: Vitals -> int, c2: Vitals -> int)
    requires Decide(req, extract, parse, c1) != Rendered(AtRisk) && Decide(req, extract, parse, c1) != Rendered(LooksGood)
    ensures Decide(req, extract, parse, c2) == Decide(req, extract, parse, c1)
  {
  }

  /**
   * Without an upload, the first form field in FormKeys order that does not
   * convert decides: a missing key escapes as an error, a non-number renders
   * the form error, and the later fields do not matter.
   */
  lemma FirstBadFieldDecides(req: Request, extract: string -> Extraction, parse: string -> Option<real>,
                             classify: Vitals -> int, j: nat)
    requires !HasUpload(req) && j < |FormKeys|
    requires NumbersBefore(req.form, FormKeys, parse, j)
    requires !ReadField(req.form, FormKeys[j], parse).Number?
    ensures ReadField(req.form, FormKeys[j], parse) == KeyMissing ==>
              Decide(req, extract, parse, classify) == Aborted(MissingFormKey(FormKeys[j]))
    ensures ReadField(req.form, FormKeys[j], parse) == NotANumber ==>
              Decide(req, extract, parse, classify) == Rendered(FormInvalid)
  {
    var r := ReadForm(req.form, FormKeys, parse);
    if !r.Read? {
      var j' :| 0 <= j' < |FormKeys| && NumbersBefore(req.form, FormKeys, parse, j') && FormKeys[j'] == r.key
               && !ReadField(req.form, FormKeys[j'], parse).Number?;
      assert j' == j;
    }
  }
}
