/**
 * `extract_values_from_text` of chat.py: the five field searches combined.
 * The result is all or nothing: the five numbers when every search finds its
 * field, and no numbers at all when any one of them fails. Turning the BMI
 * capture into a number can fail as well (a capture such as "." or "1.2.3"),
 * and in the source that failure is an exception nothing catches.
 */
module Extraction {
  import opened Wrappers
  import opened Decimals
  import opened FieldParser

  /** The five values of one patient, in the order of the classifier's feature vector. */
  datatype Vitals = Vitals(age: real, cholesterol: real, bloodPressure: real, glucose: real, bmi: real)

  /** What `extract_values_from_text` does with a text. */
  datatype Extraction =
    | Extracted(values: Vitals)
    | FieldsMissing   // it returns None
    | BmiNotANumber   // `float()` raises ValueError on the BMI capture

  lemma DigitCaptureIsDigits(s: string)
    requires AllCapture(s, false)
    ensures AllDigits(s)
  {
  }

  lemma DotCaptureIsDigitsAndDots(s: string)
    requires AllCapture(s, true)
    ensures DigitsAndDots(s)
  {
  }

  /** `float()` of a `\d+` capture: always a number, the capture read in base ten. */
  function IntegerValue(capture: string): (v: real)
    requires AllCapture(capture, false)
    ensures v >= 0.0 && v == v.Floor as real
  {
    DigitCaptureIsDigits(capture);
    DigitsValue(capture) as real
  }

  /** `float()` of the `[\d.]+` capture of BMI, None where it raises ValueError. */
  function BmiValue(capture: string): (r: Option<real>)
    requires |capture| > 0 && AllCapture(capture, true)
    ensures r.None? <==> capture == "." || multiset(capture)['.'] >= 2
  {
    DotCaptureIsDigitsAndDots(capture);
    ParseDecimal(capture)
  }

  /** All five searches succeed. */
  predicate AllFound(text: string) {
    forall f :: Capture(text, f).Some?
  }

  /** Five successful searches are all the searches there are. */
  lemma FoundEach(text: string)
    requires Capture(text, Age).Some? && Capture(text, Cholesterol).Some?
    requires Capture(text, BloodPressure).Some? && Capture(text, Glucose).Some?
    requires Capture(text, Bmi).Some?
    ensures AllFound(text)
  {
    forall f ensures Capture(text, f).Some? {
      match f
      case Age => case Cholesterol => case BloodPressure => case Glucose => case Bmi =>
    }
  }

  /** One failed search is some search that failed. */
  lemma MissingOne(text: string)
    requires || Capture(text, Age).None? || Capture(text, Cholesterol).None?
             || Capture(text, BloodPressure).None? || Capture(text, Glucose).None?
             || Capture(text, Bmi).None?
    ensures exists f :: Capture(text, f).None?
  {
    if Capture(text, Age).None? { assert Capture(text, Age).None?; }
    else if Capture(text, Cholesterol).None? { assert Capture(text, Cholesterol).None?; }
    else if Capture(text, BloodPressure).None? { assert Capture(text, BloodPressure).None?; }
    else if Capture(text, Glucose).None? { assert Capture(text, Glucose).None?; }
    else { assert Capture(text, Bmi).None?; }
  }

  function ExtractValues(text: string): (r: Extraction)
    ensures r == FieldsMissing <==> exists f :: Capture(text, f).None?
    ensures r == BmiNotANumber <==>
              AllFound(text) && (Capture(text, Bmi).value == "." || multiset(Capture(text, Bmi).value)['.'] >= 2)
    ensures r.Extracted? ==>
              && AllFound(text)
              && r.values.age == IntegerValue(Capture(text, Age).value)
              && r.values.cholesterol == IntegerValue(Capture(text, Cholesterol).value)
              && r.values.bloodPressure == IntegerValue(Capture(text, BloodPressure).value)
              && r.values.glucose == IntegerValue(Capture(text, Glucose).value)
              && Some(r.values.bmi) == BmiValue(Capture(text, Bmi).value)
  {
    var age, cholesterol, bp, glucose, bmi :=
      Capture(text, Age), Capture(text, Cholesterol), Capture(text, BloodPressure),
      Capture(text, Glucose), Capture(text, Bmi);
    if age.Some? && cholesterol.Some? && bp.Some? && glucose.Some? && bmi.Some? then
      FoundEach(text);
      match BmiValue(bmi.value)
      case None => BmiNotANumber
      case Some(b) =>
        Extracted(Vitals(IntegerValue(age.value), IntegerValue(cholesterol.value),
                         IntegerValue(bp.value), IntegerValue(glucose.value), b))
    else
      MissingOne(text);
      FieldsMissing
  }

  /** The result of the extraction once the five captures are known. */
  lemma ExtractValuesOfCaptures(text: string, age: string, cholesterol: string, bp: string, glucose: string, bmi: string)
    requires Capture(text, Age) == Some(age) && Capture(text, Cholesterol) == Some(cholesterol)
    requires Capture(text, BloodPressure) == Some(bp) && Capture(text, Glucose) == Some(glucose)
    requires Capture(text, Bmi) == Some(bmi)
    ensures AllCapture(age, false) && AllCapture(cholesterol, false) && AllCapture(bp, false)
    ensures AllCapture(glucose, false) && |bmi| > 0 && AllCapture(bmi, true)
    ensures ExtractValues(text)
         == match BmiValue(bmi)
            case None => BmiNotANumber
            case Some(b) => Extracted(Vitals(IntegerValue(age), IntegerValue(cholesterol), IntegerValue(bp), IntegerValue(glucose), b))
  {
    FoundEach(text);
  }

  /**
   * `text` is `a`, then the report line of field `f` with value `v`, then
   * `b`, and no occurrence of the field's label starts inside `a`.
   */
  predicate LineIn(text: string, a: string, f: Field, v: string, b: string) {
    && text == a + Line(Label(f), v) + b
    && forall k :: 0 <= k < |a| ==> !(Label(f) <= text[k..])
  }

  /** The search for a field captures the value of its report line. */
  lemma CaptureOfLine(text: string, a: string, f: Field, v: string, b: string)
    requires |v| > 0 && AllCapture(v, AllowsDot(f)) && LineIn(text, a, f, v, b)
    ensures Capture(text, f) == Some(v)
  {
    var line := Line(Label(f), v);
    assert text == a + (line + b);
    ReportLineCapture(a, Label(f), v, b, AllowsDot(f));
  }

  /**
   * A text that holds the five report lines, each after text in which its own
   * label never starts, gives the numbers of those lines, whatever the order
   * of the lines and whatever text lies around them.
   */
  lemma ExtractValuesOfLines(text: string, age: string, cholesterol: string, bp: string, glucose: string, bmi: string,
                             a1: string, b1: string, a2: string, b2: string, a3: string, b3: string,
                             a4: string, b4: string, a5: string, b5: string)
    requires |age| > 0 && AllCapture(age, false) && |cholesterol| > 0 && AllCapture(cholesterol, false)
    requires |bp| > 0 && AllCapture(bp, false) && |glucose| > 0 && AllCapture(glucose, false)
    requires |bmi| > 0 && AllCapture(bmi, true)
    requires LineIn(text, a1, Age, age, b1) && LineIn(text, a2, Cholesterol, cholesterol, b2)
    requires LineIn(text, a3, BloodPressure, bp, b3) && LineIn(text, a4, Glucose, glucose, b4)
    requires LineIn(text, a5, Bmi, bmi, b5)
    ensures ExtractValues(text)
         == match BmiValue(bmi)
            case None => BmiNotANumber
            case Some(m) => Extracted(Vitals(IntegerValue(age), IntegerValue(cholesterol), IntegerValue(bp), IntegerValue(glucose), m))
  {
    CaptureOfLine(text, a1, Age, age, b1);
    CaptureOfLine(text, a2, Cholesterol, cholesterol, b2);
    CaptureOfLine(text, a3, BloodPressure, bp, b3);
    CaptureOfLine(text, a4, Glucose, glucose, b4);
    CaptureOfLine(text, a5, Bmi, bmi, b5);
    ExtractValuesOfCaptures(text, age, cholesterol, bp, glucose, bmi);
  }

  /** One missing field is enough for no values at all, whatever the other four searches find. */
  lemma OneMissingFieldLosesAll(text: string, f: Field)
    requires Capture(text, f).None?
    ensures ExtractValues(text) == FieldsMissing
  {
  }

  /**
   * Each field depends on its own search only: two texts in which every search
   * captures the same run give the same result, however the lines are arranged.
   */
  lemma ExtractionDependsOnlyOnCaptures(t1: string, t2: string)
    requires forall f :: Capture(t1, f) == Capture(t2, f)
    ensures ExtractValues(t1) == ExtractValues(t2)
  {
    assert Capture(t1, Age) == Capture(t2, Age);
    assert Capture(t1, Cholesterol) == Capture(t2, Cholesterol);
    assert Capture(t1, BloodPressure) == Capture(t2, BloodPressure);
    assert Capture(t1, Glucose) == Capture(t2, Glucose);
    assert Capture(t1, Bmi) == Capture(t2, Bmi);
  }
}
