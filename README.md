# chat.py: the PDF field parser and the `/predict` decision, in Dafny

The Flask application in `chat.py` takes a patient's age, cholesterol, blood
pressure, glucose and BMI. The values come from an uploaded lab report in PDF
form or from a web form. A logistic-regression classifier gets the five values
and the page shows one of six messages. This project models the two parts of
`chat.py` that hold checkable logic:

- `extract_values_from_text` (the labelled-field parser). It runs five
  independent `re.search` calls with the patterns `Age:\s*(\d+)`,
  `Cholesterol:\s*(\d+)`, `Blood Pressure:\s*(\d+)`, `Glucose:\s*(\d+)` and
  `BMI:\s*([\d.]+)`, then converts the five groups with `float()`. It returns
  the five numbers only when all five searches succeed.
- the branch structure of `predict`. A file part with a non-empty file name
  sends the request down the PDF branch, otherwise the five form fields are
  converted. The classifier's answer picks the verdict message, and each
  failure picks a message of its own.

Modules:

- `Wrappers`: the `Option` type.
- `UnicodeChars`: Python's `\d` (the Unicode decimal digits, category Nd,
  as of Unicode 15.0) and `\s` (the characters `str.isspace()` accepts).
- `Decimals`: what `float()` makes of a digit run and of a `[\d.]+` run, as an
  exact real number.
- `FieldParser`: one match attempt (`MatchAt`). It has a greedy white-space
  run and a greedy group, and it is proved equal to the regular-expression
  reading with greedy quantifiers. It also holds the leftmost search
  (`FindField`) and the lemmas on how text around a match affects it.
- `Extraction`: the five searches combined, all or nothing.
- `ReportExamples`: worked examples on concrete report texts. They cover the
  first training row written out as a report, labels that are case-sensitive
  and have no word boundary, and an earlier label without a number that does
  not block a later one.
- `RequestHandler`: the six outcomes and their messages, and form reading
  that stops at the first failing field. `Decide` is the specification and
  `Predict` is the handler written as the source writes it: five values start
  unset, the branches set them or return early, then a final check runs.

Behaviour of chat.py the model keeps:

- A missing form key raises Flask's `KeyError` subclass. `except ValueError`
  does not catch it (chat.py:87-93), so the model gives
  `Aborted(MissingFormKey(key))`, not the form-error message.
- A BMI capture such as `"1.2.3"` or `"."` makes `float()` raise inside
  `extract_values_from_text` (chat.py:50). Nothing catches it, so the model
  gives `Aborted(UnparsableBmi)`: the function does not return None.
- Whether the upload is "non-empty" is decided by its file name
  (chat.py:69), not by its content. An extractor result of `""` counts as a
  read error, as `None` does (chat.py:73).
- The form branch reads five fields, `bmi` included (chat.py:88-92).
- "First match wins" means the leftmost position where the whole pattern
  matches. An `Age:` with no number after it is skipped.

## Model

| member | source | states |
|---|---|---|
| UnicodeChars.IsDigitFromIsSomeBlock | chat.py:43-47 | a character is a `\d` digit exactly when its code point lies in one of the 68 blocks of ten decimal digits |
| UnicodeChars.AsciiDigits | chat.py:43-47 | below U+0080, `\d` accepts exactly '0' to '9', and each has its usual value |
| UnicodeChars.DigitIsNotSpace | chat.py:43-47 | no character is both `\d` and `\s`, and '.' is neither, so the white-space run before a group can never eat part of the group |
| UnicodeChars.AsciiDigit | chat.py:50 | the ASCII digit for a value below ten is a `\d` digit with that value |
| Decimals.DigitsValueOfNatToDigits | chat.py:50 | reading the decimal spelling of a number back with `float()` gives the number (round trip) |
| Decimals.DigitsValueAppend | chat.py:50 | appending digits shifts the value by a power of ten and adds the low-order digits' value |
| Decimals.ParseDecimal | chat.py:50 | `float()` of a digits-and-dots string fails exactly for the empty string, a lone '.' and two or more dots; without a dot it is the digits' value |
| Decimals.ParseDecimalPoint | chat.py:50 | `float("w.f")` is the whole part plus the fraction digits divided by ten to the number of fraction digits |
| Decimals.ParseDecimalTrailingDot | chat.py:50 | a trailing '.' does not change the value (`"24."` reads as `"24"`) |
| Decimals.ParseDecimalTrailingZero | chat.py:50 | a trailing zero in the fraction does not change the value (`"24.50"` reads as `"24.5"`) |
| FieldParser.Label | chat.py:43-47 | each field's label is a non-empty literal ending in ':' |
| FieldParser.Group | chat.py:43-47 | the group after the white space, when there is one, is a non-empty run of `\d` digits (or of digits and dots for BMI) |
| FieldParser.MatchAt | chat.py:43-47 | an attempt at one position succeeds only with a non-empty run of capture characters |
| FieldParser.SearchFrom | chat.py:43-47 | the search from i reports a position at or after i and within the text |
| FieldParser.Capture | chat.py:43-47 | each of the five searches, when it succeeds, captures a non-empty run of its own pattern's class |
| FieldParser.SpaceRunIsMaximal | chat.py:43-47 | the `\s*` run is maximal: it is all white space and stops at a character that is not white space |
| FieldParser.CaptureRunIsMaximal | chat.py:43-47 | the `\d+` / `[\d.]+` run is maximal: it is all capture characters and stops at the first character outside the class |
| FieldParser.MatchAtIsGreedyRegexMatch | chat.py:43-47 | an attempt at position i succeeds exactly when the pattern matches there at all; it captures the forced white space and the longest group, and every other match at i has a shorter or equal group |
| FieldParser.SearchFromFindsFirst | chat.py:43-47 | the search from i finds the first position from i on where the pattern matches, and fails only when it matches at none of them |
| FieldParser.FindField | chat.py:43-47 | a capture is a non-empty run of capture characters |
| FieldParser.FindFieldIsLeftmostMatch | chat.py:43-47 | `re.search` fails exactly when no position matches; otherwise it returns the capture at the leftmost matching position |
| FieldParser.FirstMatchWins | chat.py:43-47 | once the leftmost matching position is known, no later occurrence of the label affects the capture |
| FieldParser.MatchAtOfRegexMatch | chat.py:43-47 | a match whose group is followed by the end of text or by a character outside the class is exactly what the attempt captures |
| FieldParser.NoMatchOffTag | chat.py:43-47 | no attempt succeeds at a character other than the label's first |
| FieldParser.NoMatchWithoutGroup | chat.py:43-47 | a label followed by white space and then a character outside the class does not match at that position |
| FieldParser.NoTagNoCapture | chat.py:43-47 | where the label occurs nowhere, the search finds nothing |
| FieldParser.LineCapture | chat.py:43-47 | a line of the form label, space, value, line break is read back as that value (round trip) |
| FieldParser.ReportLineCapture | chat.py:43-47 | such a line, after text in which the label never starts and before any text, is read back as its value |
| FieldParser.FindFieldIgnoresLaterText | chat.py:43-47 | text after a match that ends at a character outside the class does not change the capture |
| FieldParser.FindFieldSkipsUnmatchedPrefix | chat.py:43-47 | text in which no attempt matches is skipped: the search over it plus the rest finds what the search over the rest finds |
| FieldParser.FindFieldIgnoresEarlierText | chat.py:43-47 | text before the match in which the label never starts does not change the capture |
| Extraction.IntegerValue | chat.py:50 | `float()` of a `\d+` capture always succeeds and gives a non-negative whole number |
| Extraction.BmiValue | chat.py:50 | `float()` of the BMI capture fails exactly when the capture is "." or holds two or more dots |
| Extraction.ExtractValues | chat.py:42-52 | no values exactly when some search fails; the BMI crash exactly when all five searches succeed and the BMI capture is no number; otherwise every value is `float()` of its own field's capture |
| Extraction.ExtractValuesOfCaptures | chat.py:49-50 | once the five captures are known, the result is the four whole numbers and the BMI value, or the BMI crash |
| Extraction.OneMissingFieldLosesAll | chat.py:49-52 | a single failed search gives no values at all, never a partial tuple |
| Extraction.ExtractionDependsOnlyOnCaptures | chat.py:43-50 | the result depends on the text only through the five captures: two texts whose five searches capture the same runs give the same result |
| Extraction.CaptureOfLine | chat.py:43-47 | a field's report line, after text in which that field's label never starts, is what the field's search captures |
| Extraction.ExtractValuesOfLines | chat.py:43-50 | a text holding the five report lines, each after text in which its own label never starts, gives the four whole numbers and the BMI value of those lines (or the BMI crash), whatever the order of the lines and the text around them |
| ReportExamples.LabelsAreCaseSensitive | chat.py:43 | `age: 5` has no Age field |
| ReportExamples.LabelsNeedNoWordBoundary | chat.py:43 | `PatientAge: 52` has the Age field 52 |
| ReportExamples.FirstLabelWithNumberWins | chat.py:43 | in `Age: n/a Age: 52` followed by `Age: 99`, the Age field is 52 |
| ReportExamples.ReportExtraction | chat.py:42-52 | a five-line report of the first training row gives the numbers 45, 220, 130 and 100 plus its BMI line's value, or the BMI crash |
| ReportExamples.SampleReportExtracted | chat.py:42-52 | the report with `BMI: 24.5` gives exactly the first training row (chat.py:15-19) |
| ReportExamples.ReversedReportExtracted | chat.py:42-52 | the sample report with its five lines in the opposite order gives the same result as the sample report |
| ReportExamples.TwoPointBmiIsNotANumber | chat.py:47-50 | the report with `BMI: 1.2.3` has all five fields found and then fails in `float()` |
| RequestHandler.ReadField | chat.py:88-93 | `float(request.form[key])` is a missing key exactly when the key is absent, a ValueError exactly when the key is present and the conversion fails, and otherwise the converted number |
| RequestHandler.ReadForm | chat.py:87-95 | the conversions run in order: all values when all succeed, otherwise the failure of the first field that fails, with every earlier field a number |
| RequestHandler.ReadFormSteps | chat.py:88-92 | the five form conversions, one key at a time, in the order age, cholesterol, bp, glucose, bmi |
| RequestHandler.Verdict | chat.py:103-106 | prediction 1 means at risk and any other prediction means the results look good, in both directions |
| RequestHandler.PdfResponse | chat.py:75-80 | after extraction, the extraction error is rendered exactly when fields are missing, the BMI crash happens exactly when the BMI value is no number, and extracted values go to the classifier |
| RequestHandler.Decide | chat.py:69-111 | the response never is the "provide valid data" fallback; with a non-empty file name (chat.py:69) it never comes from the form, without one it never comes from the PDF; an escaped missing-key error names one of the five form keys that the form lacks |
| RequestHandler.Predict | chat.py:59-111 | the handler as written returns the response `Decide` specifies, and never the "provide valid data" fallback |
| RequestHandler.FormValuesReachClassifier | chat.py:87-102 | when every form field converts, the values reach the classifier in the order age, cholesterol, bp, glucose, bmi |
| RequestHandler.VerdictExactly | chat.py:97-108 | a verdict is rendered exactly when some values reach the classifier; it is "at risk" exactly when the classifier says 1 for them |
| RequestHandler.UploadShadowsForm | chat.py:69-84 | with a non-empty file name, neither the form nor the form conversions matter |
| RequestHandler.PdfReadErrorExactly | chat.py:72-83 | the PDF read error is rendered exactly for an upload whose text is None or empty |
| RequestHandler.PdfFieldsMissingExactly | chat.py:75-80 | the extraction error is rendered exactly for an upload with non-empty text in which one of the five searches fails |
| RequestHandler.UnparsableBmiExactly | chat.py:75-77 | the uncaught BMI ValueError happens exactly for an upload with non-empty text in which all five fields are found and the BMI capture is no number |
| RequestHandler.FailuresIgnoreClassifier | chat.py:69-102 | every response other than a verdict is the same whatever the classifier does |
| RequestHandler.FirstBadFieldDecides | chat.py:87-95 | without an upload, the first form field that does not convert decides: a missing key escapes as an error, a non-number renders the form error |

## Left out

- RequestHandler.Predict: it takes the field extraction as a parameter `extract`, and so does `Decide`. chat.py calls `extract_values_from_text` (chat.py:75). The lemmas about fields (`PdfFieldsMissingExactly`, `UnparsableBmiExactly`) state the response with `ExtractValues` in that place. The other lemmas hold for every extraction function.
- RequestHandler.Message: the six strings are copied exactly (chat.py:79, 82, 94, 104, 106, 110). Nothing is proved about them; they are distinct by inspection.
- Flask routing, `request.files` / `request.form` access and `render_template` (chat.py:1, 11, 55-57, 80, 113-115) are web I/O. A request is a value holding an optional file part and a form map. A response names the outcome, and the HTML page is not modelled.
- The HTTP response of an escaped exception (an HTTP error response, with the debugger page under `debug=True`, chat.py:115) is not modelled. `Aborted` only names the exception.
- RequestHandler.Decide / Predict: non-finite values are not modelled. On the form path `float()` accepts `"inf"` and `"nan"`; on the PDF path a digit run of 309 or more digits converts to infinity. `scaler.transform` and `model.predict` (chat.py:100-102) then raise a ValueError that nothing catches, so the request fails. In the model `parse` returns a real or None and `classify` is total, so such a request renders the form error or a verdict.
- `extract_text_from_pdf` and pdfminer (chat.py:32-39) are foreign binary I/O. An upload carries the extractor's result as `Option<string>`, with None for a caught exception.
- The scaler and logistic-regression fit and prediction (chat.py:13-30, 99-102) are floating-point numerics in scikit-learn with module-level state. The classifier is a parameter `classify: Vitals -> int`, so nothing about its answer for the training rows is claimed.
- `float()` of form strings (chat.py:88-92) accepts forms such as `"1e3"`, `"inf"` and surrounding white space. It is a parameter `parse: string -> Option<real>`, with None for a ValueError.
- Extraction.IntegerValue and Decimals.ParseDecimal: values are exact reals. Rounding to a binary double, and the overflow of very long digit runs to infinity, are not modelled.
- The file part's `filename` is a string; a part whose `filename` is None is not modelled.
- The digit table follows Unicode 15.0; Python versions built on other Unicode versions accept slightly different `\d` sets.
