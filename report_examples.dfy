/**
 * Worked examples of the field searches and of the whole extraction on small
 * report texts, derived from the general lemmas about leftmost greedy matching.
 */
module ReportExamples {
  import opened Wrappers
  import opened UnicodeChars
  import opened Decimals
  import opened FieldParser
  import opened Extraction

  /** No two neighbouring characters of `a` spell the first two of `tag`, and the last is not its first. */
  predicate TagFree(a: string, tag: string)
    requires |tag| >= 2
  {
    forall k :: 0 <= k < |a| ==> a[k] != tag[0] || (k + 1 < |a| && a[k + 1] != tag[1])
  }

  lemma TagFreeAppend(a1: string, a2: string, tag: string)
    requires |tag| >= 2 && TagFree(a1, tag) && TagFree(a2, tag)
    ensures TagFree(a1 + a2, tag)
  {
    var a := a1 + a2;
    forall k | 0 <= k < |a| ensures a[k] != tag[0] || (k + 1 < |a| && a[k + 1] != tag[1]) {
      if k < |a1| {
        assert a1[k] != tag[0] || (k + 1 < |a1| && a1[k + 1] != tag[1]);
        assert a[k] == a1[k];
        if k + 1 < |a1| { assert a[k + 1] == a1[k + 1]; }
      } else {
        var j := k - |a1|;
        assert a2[j] != tag[0] || (j + 1 < |a2| && a2[j + 1] != tag[1]);
        assert a[k] == a2[k - |a1|];
        if k + 1 < |a| { assert a[k + 1] == a2[k + 1 - |a1|]; }
      }
    }
  }

  /** No occurrence of the tag starts in tag-free text. */
  lemma TagNotInPrefix(a: string, rest: string, tag: string)
    requires |tag| >= 2 && TagFree(a, tag)
    ensures forall k :: 0 <= k < |a| ==> !(tag <= (a + rest)[k..])
  {
    forall k | 0 <= k < |a| ensures !(tag <= (a + rest)[k..]) {
      var s := (a + rest)[k..];
      assert a[k] != tag[0] || (k + 1 < |a| && a[k + 1] != tag[1]);
      assert s[0] == a[k];
      if k + 1 < |a| { assert s[1] == a[k + 1]; }
    }
  }

  /** Labels are case-sensitive: a lower-case `age:` is no Age field. */
  lemma LabelsAreCaseSensitive()
    ensures Capture("age: 5", Age) == None
  {
    var text := "age: 5";
    forall i | 0 <= i <= |text| ensures !("Age:" <= text[i..]) {
      if i < |text| { assert text[i..][0] == text[i]; }
    }
    NoTagNoCapture(text, "Age:", false);
  }

  lemma PatientLine()
    ensures "Patient" + Line("Age:", "52") + "" == "PatientAge: 52\n"
  {
  }

  /** There is no word boundary before a label: `PatientAge:` contains `Age:`. */
  lemma LabelsNeedNoWordBoundary()
    ensures Capture("PatientAge: 52\n", Age) == Some("52")
  {
    var a := "Patient";
    assert TagFree(a, "Age:") by {
      forall k | 0 <= k < |a| ensures a[k] != 'A' { }
    }
    TagNotInPrefix(a, Line("Age:", "52") + "", "Age:");
    assert AllCapture("52", false);
    ReportLineCapture(a, "Age:", "52", "", false);
    PatientLine();
  }

  /** A text with an `Age:` label without a number, then one with a number, then another one. */
  const SecondTry: string := "Age: n/a " + Line("Age:", "52") + "Age: 99"

  lemma SecondTryMissesFirst()
    ensures forall k :: 0 <= k < 9 ==> MatchAt(SecondTry, k, "Age:", false).None?
  {
    var a, rest := "Age: n/a ", Line("Age:", "52") + "Age: 99";
    assert SecondTry == a + rest;
    assert SecondTry[..5] == "Age: ";
    assert SecondTry[..9] == a;
    AsciiDigits('n');
    NoMatchWithoutGroup(SecondTry, 0, "Age:", false, 5);
    forall k | 1 <= k < 9 ensures MatchAt(SecondTry, k, "Age:", false).None? {
      assert SecondTry[k] == a[k];
      NoMatchOffTag(SecondTry, k, "Age:", false);
    }
  }

  lemma SecondTryRest()
    ensures FindField(Line("Age:", "52") + "Age: 99", "Age:", false) == Some("52")
  {
    assert AllCapture("52", false);
    ReportLineCapture("", "Age:", "52", "Age: 99", false);
    assert "" + Line("Age:", "52") + "Age: 99" == Line("Age:", "52") + "Age: 99";
  }

  /**
   * An earlier label without a number does not block a later one, and the
   * first label with a number wins over every later one.
   */
  lemma FirstLabelWithNumberWins()
    ensures Capture(SecondTry, Age) == Some("52")
  {
    var a, rest := "Age: n/a ", Line("Age:", "52") + "Age: 99";
    assert SecondTry == a + rest;
    SecondTryMissesFirst();
    FindFieldSkipsUnmatchedPrefix(a, rest, "Age:", false);
    SecondTryRest();
  }

  /** The first row of the training data written out as a report, with the BMI line's value left open. */
  function Report(bmi: string): string {
    Line("Age:", "45") + Line("Cholesterol:", "220") + Line("Blood Pressure:", "130")
    + Line("Glucose:", "100") + Line("BMI:", bmi)
  }

  /** The ways of grouping five lines that the line lemmas need. */
  lemma Regroup(l1: string, l2: string, l3: string, l4: string, l5: string)
    ensures l1 + l2 + l3 + l4 + l5 == "" + l1 + (l2 + l3 + l4 + l5)
    ensures l1 + l2 + l3 + l4 + l5 == l1 + l2 + (l3 + l4 + l5)
    ensures l1 + l2 + l3 + l4 + l5 == l1 + l2 + l3 + (l4 + l5)
    ensures l1 + l2 + l3 + l4 + l5 == l1 + l2 + l3 + l4 + l5 + ""
  {
    assert "" + l1 == l1;
    assert l1 + l2 + l3 + l4 + l5 == l1 + (l2 + l3 + l4 + l5);
    assert l1 + l2 + l3 + l4 + l5 == l1 + l2 + (l3 + l4 + l5);
    assert l1 + l2 + l3 + l4 + l5 == l1 + l2 + l3 + (l4 + l5);
  }

  lemma ReportAge(bmi: string)
    ensures Capture(Report(bmi), Age) == Some("45")
  {
    var rest := Line("Cholesterol:", "220") + Line("Blood Pressure:", "130") + Line("Glucose:", "100") + Line("BMI:", bmi);
    assert AllCapture("45", false);
    ReportLineCapture("", "Age:", "45", rest, false);
    Regroup(Line("Age:", "45"), Line("Cholesterol:", "220"), Line("Blood Pressure:", "130"), Line("Glucose:", "100"), Line("BMI:", bmi));
  }

  lemma ReportCholesterol(bmi: string)
    ensures Capture(Report(bmi), Cholesterol) == Some("220")
  {
    var a := Line("Age:", "45");
    var rest := Line("Blood Pressure:", "130") + Line("Glucose:", "100") + Line("BMI:", bmi);
    assert a == "Age: 45\n";
    TagNotInPrefix(a, Line("Cholesterol:", "220") + rest, "Cholesterol:");
    assert AllCapture("220", false);
    ReportLineCapture(a, "Cholesterol:", "220", rest, false);
    Regroup(a, Line("Cholesterol:", "220"), Line("Blood Pressure:", "130"), Line("Glucose:", "100"), Line("BMI:", bmi));
  }

  lemma ReportBloodPressure(bmi: string)
    ensures Capture(Report(bmi), BloodPressure) == Some("130")
  {
    var tag := "Blood Pressure:";
    var l1, l2 := Line("Age:", "45"), Line("Cholesterol:", "220");
    var rest := Line("Glucose:", "100") + Line("BMI:", bmi);
    assert l1 == "Age: 45\n" && l2 == "Cholesterol: 220\n";
    TagFreeAppend(l1, l2, tag);
    TagNotInPrefix(l1 + l2, Line(tag, "130") + rest, tag);
    assert AllCapture("130", false);
    ReportLineCapture(l1 + l2, tag, "130", rest, false);
    Regroup(l1, l2, Line(tag, "130"), Line("Glucose:", "100"), Line("BMI:", bmi));
  }

  lemma ReportGlucose(bmi: string)
    ensures Capture(Report(bmi), Glucose) == Some("100")
  {
    var tag := "Glucose:";
    var l1, l2, l3 := Line("Age:", "45"), Line("Cholesterol:", "220"), Line("Blood Pressure:", "130");
    var rest := Line("BMI:", bmi);
    assert l1 == "Age: 45\n" && l2 == "Cholesterol: 220\n" && l3 == "Blood Pressure: 130\n";
    TagFreeAppend(l1, l2, tag);
    TagFreeAppend(l1 + l2, l3, tag);
    TagNotInPrefix(l1 + l2 + l3, Line(tag, "100") + rest, tag);
    assert AllCapture("100", false);
    ReportLineCapture(l1 + l2 + l3, tag, "100", rest, false);
  }

  lemma ReportBmi(bmi: string)
    requires |bmi| > 0 && AllCapture(bmi, true)
    ensures Capture(Report(bmi), Bmi) == Some(bmi)
  {
    var tag := "BMI:";
    var l1, l2, l3, l4 := Line("Age:", "45"), Line("Cholesterol:", "220"), Line("Blood Pressure:", "130"), Line("Glucose:", "100");
    assert l1 == "Age: 45\n" && l2 == "Cholesterol: 220\n" && l3 == "Blood Pressure: 130\n" && l4 == "Glucose: 100\n";
    TagFreeAppend(l1, l2, tag);
    TagFreeAppend(l1 + l2, l3, tag);
    TagFreeAppend(l1 + l2 + l3, l4, tag);
    TagNotInPrefix(l1 + l2 + l3 + l4, Line(tag, bmi) + "", tag);
    ReportLineCapture(l1 + l2 + l3 + l4, tag, bmi, "", true);
    Regroup(l1, l2, l3, l4, Line(tag, bmi));
  }

  /** The four whole numbers of the report, as `float()` reads them. */
  lemma ReportNumbers()
    ensures AllCapture("45", false) && IntegerValue("45") == 45.0
    ensures AllCapture("220", false) && IntegerValue("220") == 220.0
    ensures AllCapture("130", false) && IntegerValue("130") == 130.0
    ensures AllCapture("100", false) && IntegerValue("100") == 100.0
  {
    AsciiDigits('0'); AsciiDigits('1'); AsciiDigits('2'); AsciiDigits('3'); AsciiDigits('4'); AsciiDigits('5');
    assert "45"[..1] == "4" && "4"[..0] == "";
    assert "220"[..2] == "22" && "22"[..1] == "2" && "2"[..0] == "";
    assert "130"[..2] == "13" && "13"[..1] == "1" && "1"[..0] == "";
    assert "100"[..2] == "10" && "10"[..1] == "1";
  }

  /** The report's extraction: the training row's numbers, or a crash when its BMI value is no number. */
  lemma ReportExtraction(bmi: string)
    requires |bmi| > 0 && AllCapture(bmi, true)
    ensures ExtractValues(Report(bmi))
         == match BmiValue(bmi)
            case None => BmiNotANumber
            case Some(b) => Extracted(Vitals(45.0, 220.0, 130.0, 100.0, b))
  {
    ReportAge(bmi);
    ReportCholesterol(bmi);
    ReportBloodPressure(bmi);
    ReportGlucose(bmi);
    ReportBmi(bmi);
    ExtractValuesOfCaptures(Report(bmi), "45", "220", "130", "100", bmi);
    ReportNumbers();
  }

  lemma PointValueOfSample()
    ensures AllDigits("24") && AllDigits("5") && PointValue("24", "5") == 24.5
  {
    AsciiDigits('2'); AsciiDigits('4'); AsciiDigits('5');
    assert "24"[..1] == "2" && "2"[..0] == "" && "5"[..0] == "";
    assert DigitsValue("24") == 24 && DigitsValue("5") == 5;
    assert Pow10(1) == 10;
  }

  /** `float("24.5")` is 24.5. */
  lemma SampleBmiValue()
    ensures AllCapture("24.5", true) && BmiValue("24.5") == Some(24.5)
  {
    PointValueOfSample();
    ParseDecimalPoint("24", "5");
    assert "24" + "." + "5" == "24.5";
  }

  /** The sample report yields the numbers of the training row. */
  lemma SampleReportExtracted()
    ensures ExtractValues(Report("24.5")) == Extracted(Vitals(45.0, 220.0, 130.0, 100.0, 24.5))
  {
    SampleBmiValue();
    ReportExtraction("24.5");
  }

  /** The sample report with its lines in the opposite order. */
  function ReversedReport(): string {
    Line("BMI:", "24.5") + Line("Glucose:", "100") + Line("Blood Pressure:", "130")
    + Line("Cholesterol:", "220") + Line("Age:", "45")
  }

  /** A report line after tag-free text is a line of the text in the sense of `LineIn`. */
  lemma LineAfterTagFree(a: string, f: Field, v: string, b: string)
    requires TagFree(a, Label(f))
    ensures LineIn(a + Line(Label(f), v) + b, a, f, v, b)
  {
    TagNotInPrefix(a, Line(Label(f), v) + b, Label(f));
    assert a + Line(Label(f), v) + b == a + (Line(Label(f), v) + b);
  }

  lemma ReversedBmi()
    ensures LineIn(ReversedReport(), "", Bmi, "24.5",
                   Line("Glucose:", "100") + Line("Blood Pressure:", "130") + Line("Cholesterol:", "220") + Line("Age:", "45"))
  {
    Regroup(Line("BMI:", "24.5"), Line("Glucose:", "100"), Line("Blood Pressure:", "130"), Line("Cholesterol:", "220"), Line("Age:", "45"));
  }

  lemma ReversedGlucose()
    ensures LineIn(ReversedReport(), Line("BMI:", "24.5"), Glucose, "100",
                   Line("Blood Pressure:", "130") + Line("Cholesterol:", "220") + Line("Age:", "45"))
  {
    var m := Line("BMI:", "24.5");
    assert m == "BMI: 24.5\n";
    LineAfterTagFree(m, Glucose, "100", Line("Blood Pressure:", "130") + Line("Cholesterol:", "220") + Line("Age:", "45"));
    Regroup(m, Line("Glucose:", "100"), Line("Blood Pressure:", "130"), Line("Cholesterol:", "220"), Line("Age:", "45"));
  }

  lemma ReversedBeforeBloodPressure()
    ensures TagFree(Line("BMI:", "24.5") + Line("Glucose:", "100"), "Blood Pressure:")
  {
    var m, g := Line("BMI:", "24.5"), Line("Glucose:", "100");
    assert m == "BMI: 24.5\n" && g == "Glucose: 100\n";
    TagFreeAppend(m, g, "Blood Pressure:");
  }

  lemma ReversedBloodPressure()
    ensures LineIn(ReversedReport(), Line("BMI:", "24.5") + Line("Glucose:", "100"), BloodPressure, "130",
                   Line("Cholesterol:", "220") + Line("Age:", "45"))
  {
    var m, g := Line("BMI:", "24.5"), Line("Glucose:", "100");
    ReversedBeforeBloodPressure();
    LineAfterTagFree(m + g, BloodPressure, "130", Line("Cholesterol:", "220") + Line("Age:", "45"));
    Regroup(m, g, Line("Blood Pressure:", "130"), Line("Cholesterol:", "220"), Line("Age:", "45"));
  }

  lemma ReversedBeforeCholesterol()
    ensures TagFree(Line("BMI:", "24.5") + Line("Glucose:", "100") + Line("Blood Pressure:", "130"), "Cholesterol:")
  {
    var m, g, p := Line("BMI:", "24.5"), Line("Glucose:", "100"), Line("Blood Pressure:", "130");
    assert m == "BMI: 24.5\n" && g == "Glucose: 100\n" && p == "Blood Pressure: 130\n";
    TagFreeAppend(m, g, "Cholesterol:");
    TagFreeAppend(m + g, p, "Cholesterol:");
  }

  lemma ReversedCholesterol()
    ensures LineIn(ReversedReport(), Line("BMI:", "24.5") + Line("Glucose:", "100") + Line("Blood Pressure:", "130"),
                   Cholesterol, "220", Line("Age:", "45"))
  {
    var m, g, p := Line("BMI:", "24.5"), Line("Glucose:", "100"), Line("Blood Pressure:", "130");
    ReversedBeforeCholesterol();
    LineAfterTagFree(m + g + p, Cholesterol, "220", Line("Age:", "45"));
    Regroup(m, g, p, Line("Cholesterol:", "220"), Line("Age:", "45"));
  }

  lemma ReversedBeforeAge()
    ensures TagFree(Line("BMI:", "24.5") + Line("Glucose:", "100") + Line("Blood Pressure:", "130") + Line("Cholesterol:", "220"), "Age:")
  {
    var m, g, p, c := Line("BMI:", "24.5"), Line("Glucose:", "100"), Line("Blood Pressure:", "130"), Line("Cholesterol:", "220");
    assert m == "BMI: 24.5\n" && g == "Glucose: 100\n" && p == "Blood Pressure: 130\n" && c == "Cholesterol: 220\n";
    TagFreeAppend(m, g, "Age:");
    TagFreeAppend(m + g, p, "Age:");
    TagFreeAppend(m + g + p, c, "Age:");
  }

  lemma ReversedAge()
    ensures LineIn(ReversedReport(), Line("BMI:", "24.5") + Line("Glucose:", "100") + Line("Blood Pressure:", "130")
                   + Line("Cholesterol:", "220"), Age, "45", "")
  {
    var m, g, p, c := Line("BMI:", "24.5"), Line("Glucose:", "100"), Line("Blood Pressure:", "130"), Line("Cholesterol:", "220");
    ReversedBeforeAge();
    LineAfterTagFree(m + g + p + c, Age, "45", "");
    Regroup(m, g, p, c, Line("Age:", "45"));
  }

  /** The order of the report lines does not matter: the reversed report yields the same numbers. */
  lemma ReversedReportExtracted()
    ensures ExtractValues(ReversedReport()) == ExtractValues(Report("24.5"))
  {
    var m, g, p, c, a := Line("BMI:", "24.5"), Line("Glucose:", "100"), Line("Blood Pressure:", "130"), Line("Cholesterol:", "220"), Line("Age:", "45");
    ReversedBmi();
    ReversedGlucose();
    ReversedBloodPressure();
    ReversedCholesterol();
    ReversedAge();
    ReportNumbers();
    SampleBmiValue();
    ExtractValuesOfLines(ReversedReport(), "45", "220", "130", "100", "24.5",
                         m + g + p + c, "", m + g + p, a, m + g, c + a, m, p + c + a, "", g + p + c + a);
    SampleReportExtracted();
  }

  /** A BMI value with two points makes `float()` fail once all five fields are found. */
  lemma TwoPointBmiIsNotANumber()
    ensures ExtractValues(Report("1.2.3")) == BmiNotANumber
  {
    assert AllCapture("1.2.3", true);
    ReportExtraction("1.2.3");
    assert multiset("1.2.3")['.'] == 2;
  }
}
