/**
 * The labelled-field parser of chat.py (`extract_values_from_text`). It runs
 * five independent `re.search` calls over one text, each with a pattern
 * `<Label>\s*(\d+)` (`[\d.]+` for BMI), and returns the five numbers only
 * when all five searches succeed.
 */
module FieldParser {
  import opened Wrappers
  import opened UnicodeChars

  /** The five fields of a lab report, in the order of the feature vector. */
  datatype Field = Age | Cholesterol | BloodPressure | Glucose | Bmi

  /** The literal text each pattern starts with (matched case-sensitively, no word boundary). */
  function Label(f: Field): (l: string)
    ensures |l| > 0 && l[|l| - 1] == ':'
  {
    match f
    case Age => "Age:"
    case Cholesterol => "Cholesterol:"
    case BloodPressure => "Blood Pressure:"
    case Glucose => "Glucose:"
    case Bmi => "BMI:"
  }

  /** BMI's capture group is `[\d.]+`; the other four capture `\d+`. */
  predicate AllowsDot(f: Field) {
    f == Bmi
  }

  /** One character of a capture group: `\d`, or `[\d.]` when dots are allowed. */
  predicate IsCaptureChar(c: char, allowDot: bool) {
    IsDigit(c) || (allowDot && c == '.')
  }

  predicate AllCapture(s: string, allowDot: bool) {
    forall k :: 0 <= k < |s| ==> IsCaptureChar(s[k], allowDot)
  }

  // ---------------------------------------------------------------------------
  // One match attempt at a fixed position
  // ---------------------------------------------------------------------------

  /** The end of the run of white space in `s` that starts at `i` (greedy `\s*`). */
  function SpaceRun(s: string, i: nat): (j: nat)
    requires i <= |s|
    ensures i <= j <= |s|
    decreases |s| - i
  {
    if i < |s| && IsSpace(s[i]) then SpaceRun(s, i + 1) else i
  }

  /** The end of the run of capture characters in `s` that starts at `i` (greedy `\d+` or `[\d.]+`). */
  function CaptureRun(s: string, i: nat, allowDot: bool): (j: nat)
    requires i <= |s|
    ensures i <= j <= |s|
    decreases |s| - i
  {
    if i < |s| && IsCaptureChar(s[i], allowDot) then CaptureRun(s, i + 1, allowDot) else i
  }

  /** SpaceRun stops at the first character that is not white space: the run is the longest. */
  lemma {:induction false} SpaceRunIsMaximal(s: string, i: nat)
    requires i <= |s|
    ensures forall k :: i <= k < SpaceRun(s, i) ==> IsSpace(s[k])
    ensures SpaceRun(s, i) < |s| ==> !IsSpace(s[SpaceRun(s, i)])
    decreases |s| - i
  {
    if i < |s| && IsSpace(s[i]) {
      SpaceRunIsMaximal(s, i + 1);
    }
  }

  /** CaptureRun stops at the first character outside the group's class: the group is the longest. */
  lemma {:induction false} CaptureRunIsMaximal(s: string, i: nat, allowDot: bool)
    requires i <= |s|
    ensures forall k :: i <= k < CaptureRun(s, i, allowDot) ==> IsCaptureChar(s[k], allowDot)
    ensures CaptureRun(s, i, allowDot) < |s| ==> !IsCaptureChar(s[CaptureRun(s, i, allowDot)], allowDot)
    decreases |s| - i
  {
    if i < |s| && IsCaptureChar(s[i], allowDot) {
      CaptureRunIsMaximal(s, i + 1, allowDot);
    }
  }

  /**
   * The part of the pattern after the tag, `\s*(run)`, tried at `start`: the
   * group, or None when no capture character follows the white space.
   */
  function Group(text: string, start: nat, allowDot: bool): (r: Option<string>)
    requires start <= |text|
    ensures r.Some? ==> |r.value| > 0 && AllCapture(r.value, allowDot)
  {
    var b := SpaceRun(text, start);
    var c := CaptureRun(text, b, allowDot);
    CaptureRunIsMaximal(text, b, allowDot);
    if b < c then Some(text[b..c]) else None
  }

  /**
   * What the regex engine captures when it tries the pattern `tag\s*(run)`
   * at position `i` of `text`, or None when the attempt fails there.
   */
  function MatchAt(text: string, i: nat, tag: string, allowDot: bool): (r: Option<string>)
    requires i <= |text|
    ensures r.Some? ==> |r.value| > 0 && AllCapture(r.value, allowDot)
  {
    if tag <= text[i..] then Group(text, i + |tag|, allowDot) else None
  }

  /**
   * The regular-expression reading of the pattern, with no preference among
   * matches: the tag occurs at `i`, `text[i + |tag|..b]` is white space and
   * the group `text[b..c]` is a non-empty run of capture characters.
   */
  ghost predicate RegexMatch(text: string, i: nat, tag: string, allowDot: bool, b: nat, c: nat) {
    && i + |tag| <= b < c <= |text|
    && text[i..i + |tag|] == tag
    && (forall k :: i + |tag| <= k < b ==> IsSpace(text[k]))
    && (forall k :: b <= k < c ==> IsCaptureChar(text[k], allowDot))
  }

  /** Capture characters are never white space, so a greedy `\s*` cannot eat the start of the group. */
  lemma CaptureCharIsNotSpace(c: char, allowDot: bool)
    requires IsCaptureChar(c, allowDot)
    ensures !IsSpace(c)
  {
    DigitIsNotSpace(c);
  }

  /** A white-space run that ends on a non-space character is the one SpaceRun finds. */
  lemma SpaceRunForced(s: string, a: nat, b: nat)
    requires a <= b < |s|
    requires forall k :: a <= k < b ==> IsSpace(s[k])
    requires !IsSpace(s[b])
    ensures SpaceRun(s, a) == b
  {
    SpaceRunIsMaximal(s, a);
  }

  /** Every run of capture characters from `b` ends no later than CaptureRun's. */
  lemma CaptureRunLongest(s: string, b: nat, c: nat, allowDot: bool)
    requires b <= c <= |s|
    requires forall k :: b <= k < c ==> IsCaptureChar(s[k], allowDot)
    ensures c <= CaptureRun(s, b, allowDot)
  {
    CaptureRunIsMaximal(s, b, allowDot);
  }

  /** A run of capture characters that ends on another character is the one CaptureRun finds. */
  lemma CaptureRunForced(s: string, b: nat, c: nat, allowDot: bool)
    requires b <= c < |s|
    requires forall k :: b <= k < c ==> IsCaptureChar(s[k], allowDot)
    requires !IsCaptureChar(s[c], allowDot)
    ensures CaptureRun(s, b, allowDot) == c
  {
    CaptureRunIsMaximal(s, b, allowDot);
  }

  /**
   * MatchAt succeeds exactly where the pattern matches at all, and it
   * captures what a backtracking engine with greedy quantifiers captures:
   * the white-space run is forced (digits and dots are never white space) and
   * the group is the longest one possible.
   */
  lemma MatchAtIsGreedyRegexMatch(text: string, i: nat, tag: string, allowDot: bool)
    requires i <= |text|
    ensures MatchAt(text, i, tag, allowDot).Some? <==> exists b: nat, c: nat :: RegexMatch(text, i, tag, allowDot, b, c)
    ensures MatchAt(text, i, tag, allowDot).Some? ==>
      exists b: nat, c: nat :: && RegexMatch(text, i, tag, allowDot, b, c)
                     && MatchAt(text, i, tag, allowDot).value == text[b..c]
                     && forall b': nat, c': nat :: RegexMatch(text, i, tag, allowDot, b', c') ==> b' == b && c' <= c
  {
    if tag <= text[i..] {
      var s := i + |tag|;
      var b := SpaceRun(text, s);
      var c := CaptureRun(text, b, allowDot);
      SpaceRunIsMaximal(text, s);
      CaptureRunIsMaximal(text, b, allowDot);
      forall b': nat, c': nat | RegexMatch(text, i, tag, allowDot, b', c')
        ensures b' == b && b < c && c' <= c
      {
        CaptureCharIsNotSpace(text[b'], allowDot);
        SpaceRunForced(text, s, b');
        CaptureRunLongest(text, b', c', allowDot);
      }
      if b < c {
        assert text[i..i + |tag|] == tag;
        assert RegexMatch(text, i, tag, allowDot, b, c);
      }
    } else {
      forall b: nat, c: nat | RegexMatch(text, i, tag, allowDot, b, c)
        ensures false
      {
      }
    }
  }

  // ---------------------------------------------------------------------------
  // re.search: the leftmost position where an attempt succeeds
  // ---------------------------------------------------------------------------

  /** `j` is the first position from `i` on where the pattern matches. */
  ghost predicate FirstMatchFrom(text: string, tag: string, allowDot: bool, i: nat, j: nat) {
    && i <= j <= |text|
    && MatchAt(text, j, tag, allowDot).Some?
    && forall k :: i <= k < j ==> MatchAt(text, k, tag, allowDot).None?
  }

  /** `i` is the leftmost position of `text` where the pattern matches. */
  ghost predicate FirstMatchAt(text: string, tag: string, allowDot: bool, i: nat) {
    FirstMatchFrom(text, tag, allowDot, 0, i)
  }

  /** The position of the match `re.search` finds when it tries `i`, `i + 1`, ..., `|text|` in turn. */
  function SearchFrom(text: string, tag: string, allowDot: bool, i: nat): (p: Option<nat>)
    requires i <= |text|
    ensures p.Some? ==> i <= p.value <= |text|
    decreases |text| - i
  {
    if MatchAt(text, i, tag, allowDot).Some? then Some(i)
    else if i == |text| then None
    else SearchFrom(text, tag, allowDot, i + 1)
  }

  /** SearchFrom finds the first position from `i` on where the pattern matches, and fails only when there is none. */
  lemma {:induction false} SearchFromFindsFirst(text: string, tag: string, allowDot: bool, i: nat)
    requires i <= |text|
    ensures SearchFrom(text, tag, allowDot, i).Some? ==> FirstMatchFrom(text, tag, allowDot, i, SearchFrom(text, tag, allowDot, i).value)
    ensures SearchFrom(text, tag, allowDot, i).None? ==> forall j :: i <= j <= |text| ==> MatchAt(text, j, tag, allowDot).None?
    decreases |text| - i
  {
    if MatchAt(text, i, tag, allowDot).None? && i < |text| {
      SearchFromFindsFirst(text, tag, allowDot, i + 1);
    }
  }

  /**
   * `re.search(tag + r'\s*(run)', text).group(1)`, or None when the search
   * finds nothing.
   */
  function FindField(text: string, tag: string, allowDot: bool): (r: Option<string>)
    ensures r.Some? ==> |r.value| > 0 && AllCapture(r.value, allowDot)
  {
    match SearchFrom(text, tag, allowDot, 0)
    case None => None
    case Some(p) => MatchAt(text, p, tag, allowDot)
  }

  /**
   * The search fails exactly when the pattern matches at no position, and
   * otherwise captures what the pattern captures at the leftmost position
   * where it matches.
   */
  lemma FindFieldIsLeftmostMatch(text: string, tag: string, allowDot: bool)
    ensures FindField(text, tag, allowDot).None? <==> forall i :: 0 <= i <= |text| ==> MatchAt(text, i, tag, allowDot).None?
    ensures FindField(text, tag, allowDot).Some? ==>
              exists i: nat :: FirstMatchAt(text, tag, allowDot, i) && MatchAt(text, i, tag, allowDot) == FindField(text, tag, allowDot)
  {
    SearchFromFindsFirst(text, tag, allowDot, 0);
    match SearchFrom(text, tag, allowDot, 0)
    case None =>
    case Some(p) => assert FirstMatchAt(text, tag, allowDot, p);
  }

  /** The capture of one of the five searches of `extract_values_from_text`. */
  function Capture(text: string, f: Field): (r: Option<string>)
    ensures r.Some? ==> |r.value| > 0 && AllCapture(r.value, AllowsDot(f))
  {
    FindField(text, Label(f), AllowsDot(f))
  }

  /** A match ended by the end of the text or by a non-capture character is what MatchAt captures. */
  lemma MatchAtOfRegexMatch(text: string, i: nat, tag: string, allowDot: bool, b: nat, c: nat)
    requires RegexMatch(text, i, tag, allowDot, b, c)
    requires c == |text| || !IsCaptureChar(text[c], allowDot)
    ensures MatchAt(text, i, tag, allowDot) == Some(text[b..c])
  {
    assert tag <= text[i..] by { assert text[i..][..|tag|] == text[i..i + |tag|]; }
    CaptureCharIsNotSpace(text[b], allowDot);
    SpaceRunForced(text, i + |tag|, b);
    CaptureRunLongest(text, b, c, allowDot);
    if c < |text| {
      CaptureRunForced(text, b, c, allowDot);
    }
  }

  /** No match starts at a character other than the tag's first. */
  lemma NoMatchOffTag(text: string, i: nat, tag: string, allowDot: bool)
    requires i < |text| && |tag| > 0 && text[i] != tag[0]
    ensures MatchAt(text, i, tag, allowDot) == None
  {
    assert text[i..][0] == text[i];
  }

  /** The tag followed by white space and a character that cannot start the group does not match. */
  lemma NoMatchWithoutGroup(text: string, i: nat, tag: string, allowDot: bool, b: nat)
    requires i + |tag| <= b < |text|
    requires forall k :: i + |tag| <= k < b ==> IsSpace(text[k])
    requires !IsSpace(text[b]) && !IsCaptureChar(text[b], allowDot)
    ensures MatchAt(text, i, tag, allowDot) == None
  {
    if tag <= text[i..] {
      SpaceRunForced(text, i + |tag|, b);
      CaptureRunForced(text, b, b, allowDot);
    }
  }

  /** A report line: a label, one space, a value and a line break. */
  function Line(tag: string, v: string): string {
    tag + " " + v + "\n"
  }

  /** A line holding just the tag, one space and a group is read back as that group. */
  lemma LineCapture(tag: string, v: string, allowDot: bool)
    requires |v| > 0 && AllCapture(v, allowDot)
    ensures FindField(Line(tag, v), tag, allowDot) == Some(v)
  {
    var line := Line(tag, v);
    var b, c := |tag| + 1, |tag| + 1 + |v|;
    assert line[..|tag|] == tag && line[b..c] == v;
    assert line[|tag|] == ' ' && line[c] == '\n';
    DigitIsNotSpace('\n');
    AsciiDigits('\n');
    MatchAtOfRegexMatch(line, 0, tag, allowDot, b, c);
    FirstMatchWins(line, tag, allowDot, 0);
  }

  /**
   * A report line `tag v` found after text in which no occurrence of the tag
   * starts: the search captures `v`, whatever follows the line.
   */
  lemma ReportLineCapture(a: string, tag: string, v: string, b: string, allowDot: bool)
    requires |v| > 0 && AllCapture(v, allowDot)
    requires forall k :: 0 <= k < |a| ==> !(tag <= (a + (Line(tag, v) + b))[k..])
    ensures FindField(a + Line(tag, v) + b, tag, allowDot) == Some(v)
  {
    var line := Line(tag, v);
    LineCapture(tag, v, allowDot);
    assert line[|line| - 1] == '\n';
    AsciiDigits('\n');
    assert !IsCaptureChar(line[|line| - 1], allowDot);
    FindFieldIgnoresLaterText(line, b, tag, allowDot);
    assert FindField(line + b, tag, allowDot) == Some(v);
    assert a + line + b == a + (line + b);
    FindFieldIgnoresEarlierText(a, line + b, tag, allowDot);
  }

  /** Where the tag occurs nowhere, the search finds nothing. */
  lemma NoTagNoCapture(text: string, tag: string, allowDot: bool)
    requires forall i :: 0 <= i <= |text| ==> !(tag <= text[i..])
    ensures FindField(text, tag, allowDot) == None
  {
    FindFieldIsLeftmostMatch(text, tag, allowDot);
  }

  /** The leftmost match decides: no later occurrence of the tag is looked at. */
  lemma FirstMatchWins(text: string, tag: string, allowDot: bool, i: nat)
    requires FirstMatchAt(text, tag, allowDot, i)
    ensures FindField(text, tag, allowDot) == MatchAt(text, i, tag, allowDot)
  {
    FindFieldIsLeftmostMatch(text, tag, allowDot);
    var r := FindField(text, tag, allowDot);
    var i': nat :| FirstMatchAt(text, tag, allowDot, i') && MatchAt(text, i', tag, allowDot) == r;
    if i' < i {
      assert MatchAt(text, i', tag, allowDot).None?;
    }
  }

  /**
   * The group tried at `start` in `a` gives the same result in `a + b` when
   * it must stop before the non-capture character at `c`.
   */
  lemma GroupAppend(a: string, b: string, start: nat, allowDot: bool, c: nat)
    requires start < c < |a|
    requires IsCaptureChar(a[c - 1], allowDot) && !IsCaptureChar(a[c], allowDot)
    ensures Group(a + b, start, allowDot) == Group(a, start, allowDot)
  {
    var t := a + b;
    var e := SpaceRun(a, start);
    SpaceRunIsMaximal(a, start);
    CaptureCharIsNotSpace(a[c - 1], allowDot);
    assert e < c;
    SpaceRunForced(t, start, e);
    var f := CaptureRun(a, e, allowDot);
    CaptureRunIsMaximal(a, e, allowDot);
    assert f <= c;
    CaptureRunForced(t, e, f, allowDot);
    assert t[e..f] == a[e..f];
  }

  /** An attempt at `j` in `a` that must stop before the non-capture character at `c` gives the same result in `a + b`. */
  lemma MatchAtAppend(a: string, b: string, j: nat, tag: string, allowDot: bool, c: nat)
    requires j + |tag| < c < |a|
    requires IsCaptureChar(a[c - 1], allowDot) && !IsCaptureChar(a[c], allowDot)
    ensures MatchAt(a + b, j, tag, allowDot) == MatchAt(a, j, tag, allowDot)
  {
    var t := a + b;
    assert t[j..][..|tag|] == a[j..][..|tag|];
    if tag <= a[j..] {
      GroupAppend(a, b, j + |tag|, allowDot, c);
    }
  }

  /** A successful attempt in `a` that is closed off by a non-capture character ends on a capture character inside `a`. */
  lemma MatchEndsInside(a: string, i: nat, tag: string, allowDot: bool) returns (c: nat)
    requires i <= |a| && MatchAt(a, i, tag, allowDot).Some?
    requires |a| > 0 && !IsCaptureChar(a[|a| - 1], allowDot)
    ensures i + |tag| < c < |a|
    ensures IsCaptureChar(a[c - 1], allowDot) && !IsCaptureChar(a[c], allowDot)
  {
    var e := SpaceRun(a, i + |tag|);
    c := CaptureRun(a, e, allowDot);
    CaptureRunIsMaximal(a, e, allowDot);
  }

  /** Text after the first match cannot change the capture, once the match is closed off by a non-capture character. */
  lemma FindFieldIgnoresLaterText(a: string, b: string, tag: string, allowDot: bool)
    requires FindField(a, tag, allowDot).Some?
    requires |a| > 0 && !IsCaptureChar(a[|a| - 1], allowDot)
    ensures FindField(a + b, tag, allowDot) == FindField(a, tag, allowDot)
  {
    FindFieldIsLeftmostMatch(a, tag, allowDot);
    var i: nat :| FirstMatchAt(a, tag, allowDot, i) && MatchAt(a, i, tag, allowDot) == FindField(a, tag, allowDot);
    var c := MatchEndsInside(a, i, tag, allowDot);
    forall j | 0 <= j <= i
      ensures MatchAt(a + b, j, tag, allowDot) == MatchAt(a, j, tag, allowDot)
    {
      MatchAtAppend(a, b, j, tag, allowDot, c);
    }
    FirstMatchWins(a + b, tag, allowDot, i);
  }

  /** White-space runs inside `b` are the same runs, shifted, inside `a + b`. */
  lemma {:induction false} SpaceRunShift(a: string, b: string, k: nat)
    requires k <= |b|
    ensures SpaceRun(a + b, |a| + k) == |a| + SpaceRun(b, k)
    decreases |b| - k
  {
    if k < |b| {
      assert (a + b)[|a| + k] == b[k];
      if IsSpace(b[k]) {
        SpaceRunShift(a, b, k + 1);
      }
    }
  }

  /** Capture runs inside `b` are the same runs, shifted, inside `a + b`. */
  lemma {:induction false} CaptureRunShift(a: string, b: string, k: nat, allowDot: bool)
    requires k <= |b|
    ensures CaptureRun(a + b, |a| + k, allowDot) == |a| + CaptureRun(b, k, allowDot)
    decreases |b| - k
  {
    if k < |b| {
      assert (a + b)[|a| + k] == b[k];
      if IsCaptureChar(b[k], allowDot) {
        CaptureRunShift(a, b, k + 1, allowDot);
      }
    }
  }

  lemma SliceOfSuffix(a: string, b: string, e: nat, f: nat)
    requires e <= f <= |b|
    ensures (a + b)[|a| + e..|a| + f] == b[e..f]
  {
    assert (a + b)[|a|..] == b;
    assert (a + b)[|a| + e..|a| + f] == (a + b)[|a|..][e..f];
  }

  /** The group tried inside `b` sees the same text inside `a + b`. */
  lemma GroupShift(a: string, b: string, start: nat, allowDot: bool)
    requires start <= |b|
    ensures Group(a + b, |a| + start, allowDot) == Group(b, start, allowDot)
  {
    SpaceRunShift(a, b, start);
    var e := SpaceRun(b, start);
    CaptureRunShift(a, b, e, allowDot);
    var f := CaptureRun(b, e, allowDot);
    SliceOfSuffix(a, b, e, f);
  }

  /** An attempt inside `b` sees the same text inside `a + b`. */
  lemma MatchAtShift(a: string, b: string, j: nat, tag: string, allowDot: bool)
    requires j <= |b|
    ensures MatchAt(a + b, |a| + j, tag, allowDot) == MatchAt(b, j, tag, allowDot)
  {
    assert (a + b)[|a| + j..] == b[j..];
    if tag <= b[j..] {
      GroupShift(a, b, j + |tag|, allowDot);
    }
  }

  /** Every attempt of the search inside `b` is the same attempt, shifted, inside `a + b`. */
  lemma MatchesOfSuffix(a: string, b: string, tag: string, allowDot: bool)
    ensures forall k :: |a| <= k <= |a| + |b| ==> MatchAt(a + b, k, tag, allowDot) == MatchAt(b, k - |a|, tag, allowDot)
  {
    forall k | |a| <= k <= |a| + |b|
      ensures MatchAt(a + b, k, tag, allowDot) == MatchAt(b, k - |a|, tag, allowDot)
    {
      MatchAtShift(a, b, k - |a|, tag, allowDot);
    }
  }

  /** The leftmost match inside `b`, shifted, is the leftmost inside `a + b` when nothing in `a` matches. */
  lemma SkipToMatch(a: string, b: string, tag: string, allowDot: bool, i: nat)
    requires forall k :: 0 <= k < |a| ==> MatchAt(a + b, k, tag, allowDot).None?
    requires FirstMatchAt(b, tag, allowDot, i)
    ensures FindField(a + b, tag, allowDot) == MatchAt(b, i, tag, allowDot)
  {
    var t := a + b;
    MatchesOfSuffix(a, b, tag, allowDot);
    assert MatchAt(t, |a| + i, tag, allowDot) == MatchAt(b, i, tag, allowDot);
    forall k | |a| <= k < |a| + i ensures MatchAt(t, k, tag, allowDot).None? {
      assert MatchAt(t, k, tag, allowDot) == MatchAt(b, k - |a|, tag, allowDot);
    }
    FirstMatchWins(t, tag, allowDot, |a| + i);
  }

  /** Nothing inside `a + b` matches when nothing in `a` and nothing in `b` does. */
  lemma SkipToNoMatch(a: string, b: string, tag: string, allowDot: bool)
    requires forall k :: 0 <= k < |a| ==> MatchAt(a + b, k, tag, allowDot).None?
    requires forall k :: 0 <= k <= |b| ==> MatchAt(b, k, tag, allowDot).None?
    ensures FindField(a + b, tag, allowDot) == None
  {
    var t := a + b;
    MatchesOfSuffix(a, b, tag, allowDot);
    FindFieldIsLeftmostMatch(t, tag, allowDot);
    forall k | |a| <= k <= |t| ensures MatchAt(t, k, tag, allowDot).None? {
      assert MatchAt(t, k, tag, allowDot) == MatchAt(b, k - |a|, tag, allowDot);
    }
  }

  /**
   * Text in which no attempt of the search matches is skipped: an earlier
   * occurrence of the tag without a group after it does not block a later match.
   */
  lemma FindFieldSkipsUnmatchedPrefix(a: string, b: string, tag: string, allowDot: bool)
    requires forall k :: 0 <= k < |a| ==> MatchAt(a + b, k, tag, allowDot).None?
    ensures FindField(a + b, tag, allowDot) == FindField(b, tag, allowDot)
  {
    FindFieldIsLeftmostMatch(b, tag, allowDot);
    var r := FindField(b, tag, allowDot);
    if r.Some? {
      var i: nat :| FirstMatchAt(b, tag, allowDot, i) && MatchAt(b, i, tag, allowDot) == r;
      SkipToMatch(a, b, tag, allowDot, i);
    } else {
      SkipToNoMatch(a, b, tag, allowDot);
    }
  }

  /** Text before the first match is irrelevant as long as no occurrence of the tag starts in it. */
  lemma FindFieldIgnoresEarlierText(a: string, b: string, tag: string, allowDot: bool)
    requires forall k :: 0 <= k < |a| ==> !(tag <= (a + b)[k..])
    ensures FindField(a + b, tag, allowDot) == FindField(b, tag, allowDot)
  {
    FindFieldSkipsUnmatchedPrefix(a, b, tag, allowDot);
  }
}
