/** The browser-side input rules of the registration and login pages: field
    validation on blur, phone sanitising, case normalisation, keeping the
    primary-specialization choice consistent with the ticked boxes, the age
    read-out, and the checks run before the instructor form is submitted.
    DOM effects (CSS classes, alerts, spinners) become returned values. */
module ClientRules {
  import opened Common

  /** A value `trim()` turns into "": JavaScript treats it as empty. */
  predicate JsBlank(s: string) { AllSpace(s, IsJsSpace) }

  /** `!value.trim()`: the value is empty once trimmed. */
  function TrimsToEmpty(v: string): (b: bool)
    ensures b <==> JsBlank(v)
  {
    TrimEmptyIffAllSpace(v, IsJsSpace);
    Trim(v, IsJsSpace) == []
  }

  // ---------------------------------------------------------------------------
  // Field validation on blur
  // ---------------------------------------------------------------------------

  /** A character allowed by `[^\s@]`. */
  predicate Plain(c: char) { !IsJsSpace(c) && c != '@' }

  predicate AllPlain(s: string) { forall k :: 0 <= k < |s| ==> Plain(s[k]) }

  /** What `/^[^\s@]+@[^\s@]+\.[^\s@]+$/` accepts: a non-empty local part, one
      `@`, then a domain with no `@` or whitespace holding a `.` that is neither
      its first nor its last character. `i` is the `@`, `j` the chosen `.`. */
  ghost predicate EmailPattern(s: string) {
    exists i, j :: 0 < i && i + 1 < j < |s| - 1 && s[i] == '@' && s[j] == '.'
                   && AllPlain(s[..i]) && AllPlain(s[i + 1..])
  }

  /** `/^[0-9]{11}$/` as a JavaScript pattern: `$` only matches at the very end. */
  predicate PhonePattern(s: string) { |s| == 11 && AllDigits(s) }

  /** Position of the first `c` in `s`, or -1. */
  function IndexOf(s: string, c: char): (r: int)
    ensures -1 <= r < |s|
    ensures r == -1 ==> forall k :: 0 <= k < |s| ==> s[k] != c
    ensures r >= 0 ==> s[r] == c && forall k :: 0 <= k < r ==> s[k] != c
  {
    if |s| == 0 then -1
    else if s[0] == c then 0
    else
      var t := IndexOf(s[1..], c);
      if t == -1 then -1 else t + 1
  }

  /** The email pattern decided by a scan: split at the first `@`, then look
      for a `.` strictly inside the domain. */
  predicate IsEmailShape(s: string) {
    var at := IndexOf(s, '@');
    && at > 0
    && at + 3 <= |s|
    && AllPlain(s[..at])
    && AllPlain(s[at + 1..])
    && '.' in s[at + 2..|s| - 1]
  }

  /** The scan accepts exactly the strings the pattern matches. */
  lemma EmailShapeIffPattern(s: string)
    ensures IsEmailShape(s) <==> EmailPattern(s)
  {
    if IsEmailShape(s) { ShapeMatchesPattern(s); }
    if EmailPattern(s) { PatternPassesScan(s); }
  }

  /** A string the scan accepts has an `@` and a `.` placed as the pattern wants. */
  lemma ShapeMatchesPattern(s: string)
    requires IsEmailShape(s)
    ensures EmailPattern(s)
  {
    var at := IndexOf(s, '@');
    var d := s[at + 2..|s| - 1];
    var k :| 0 <= k < |d| && d[k] == '.';
    var j := at + 2 + k;
    assert s[j] == '.';
    assert 0 < at && at + 1 < j < |s| - 1 && s[at] == '@' && s[j] == '.'
           && AllPlain(s[..at]) && AllPlain(s[at + 1..]);
  }

  /** In a string the pattern matches, the `@` is the first one, so the scan
      splits there and finds the `.`. */
  lemma PatternPassesScan(s: string)
    requires EmailPattern(s)
    ensures IsEmailShape(s)
  {
    var i, j :| 0 < i && i + 1 < j < |s| - 1 && s[i] == '@' && s[j] == '.'
                && AllPlain(s[..i]) && AllPlain(s[i + 1..]);
    FirstAt(s, i);
    var d := s[i + 2..|s| - 1];
    assert d[j - (i + 2)] == '.';
  }

  /** An `@` preceded only by plain characters is the first `@`. */
  lemma FirstAt(s: string, i: nat)
    requires i < |s| && s[i] == '@' && AllPlain(s[..i])
    ensures IndexOf(s, '@') == i
  {
    var at := IndexOf(s, '@');
    assert at != -1 by { assert s[i] == '@'; }
  }

  /** One form control as `validateField` sees it. */
  datatype Field = Field(required: bool, isEmailType: bool, name: string, value: string)

  /** `validateField`: a required control must not be blank after trimming;
      a non-empty email-type control must match the email pattern; a non-empty
      control named `phone` (and only that name) must be eleven ASCII digits. */
  function ValidateField(f: Field): (ok: bool)
    ensures f.required && JsBlank(f.value) ==> !ok
    ensures ok <==> && (!f.required || !JsBlank(f.value))
                    && (!f.isEmailType || f.value == [] || EmailPattern(f.value))
                    && (f.name != "phone" || f.value == [] || PhonePattern(f.value))
  {
    EmailShapeIffPattern(f.value);
    if f.required && TrimsToEmpty(f.value) then false
    else if f.isEmailType && f.value != [] && !IsEmailShape(f.value) then false
    else if f.name == "phone" && f.value != [] && !PhonePattern(f.value) then false
    else true
  }

  // ---------------------------------------------------------------------------
  // Phone sanitising
  // ---------------------------------------------------------------------------

  /** `value.replace(/\D/g, '')`: keeps the ASCII digits, in order. */
  function DigitsOnly(s: string): (r: string)
    ensures AllDigits(r) && |r| <= |s|
    ensures forall c {:trigger c in r} :: c in r <==> c in s && IsDigit(c)
    ensures AllDigits(s) ==> r == s
  {
    if s == [] then []
    else
      var rest := DigitsOnly(s[1..]);
      assert s == [s[0]] + s[1..];
      if IsDigit(s[0]) then [s[0]] + rest else rest
  }

  /** `replace` works character by character, keeping order and repeats: a
      single character is kept exactly when it is a digit, and the result for
      a concatenation is the concatenation of the results. Together these
      determine `DigitsOnly` on every string. */
  lemma {:induction false} DigitsOnlyAppend(a: string, b: string)
    ensures DigitsOnly(a + b) == DigitsOnly(a) + DigitsOnly(b)
  {
    if a == [] {
      assert a + b == b;
    } else {
      var ab := a + b;
      assert ab[0] == a[0] && ab[1..] == a[1..] + b;
      var rest, tail := DigitsOnly(a[1..]), DigitsOnly(b);
      DigitsOnlyAppend(a[1..], b);
      if IsDigit(a[0]) {
        assert DigitsOnly(ab) == [a[0]] + (rest + tail);
        assert DigitsOnly(a) == [a[0]] + rest;
        assert [a[0]] + (rest + tail) == ([a[0]] + rest) + tail;
      } else {
        assert DigitsOnly(ab) == rest + tail;
        assert DigitsOnly(a) == rest;
      }
    }
  }

  lemma DigitsOnlyOne(c: char)
    ensures DigitsOnly([c]) == if IsDigit(c) then [c] else []
  {
    assert [c][1..] == [];
  }

  /** The phone input handler: drop non-digits, then cut to eleven characters. */
  function SanitizePhone(s: string): (r: string)
    ensures AllDigits(r) && |r| <= 11
    ensures |r| <= |DigitsOnly(s)| && r == DigitsOnly(s)[..|r|]
    ensures |r| < 11 ==> r == DigitsOnly(s)
  {
    var d := DigitsOnly(s);
    if |d| > 11 then d[..11] else d
  }

  /** Sanitising an already sanitised phone changes nothing. */
  lemma SanitizePhoneIdempotent(s: string)
    ensures SanitizePhone(SanitizePhone(s)) == SanitizePhone(s)
  {
    var r := SanitizePhone(s);
    assert DigitsOnly(r) == r;
  }

  /** A sanitised phone of full length passes the browser's phone check. */
  lemma SanitizedFullPhoneIsValid(s: string)
    requires |SanitizePhone(s)| == 11
    ensures PhonePattern(SanitizePhone(s))
    ensures ValidateField(Field(true, false, "phone", SanitizePhone(s)))
  {
    var r := SanitizePhone(s);
    assert IsDigit(r[0]);
  }

  // ---------------------------------------------------------------------------
  // Case normalisation
  // ---------------------------------------------------------------------------

  /** Position `i` begins a word: `\b\w` matches there. */
  predicate WordStart(s: string, i: int)
    requires 0 <= i < |s|
  {
    IsWordChar(s[i]) && (i == 0 || !IsWordChar(s[i - 1]))
  }

  /** The `.capitalize-words` handler: lower-case everything, then upper-case
      each character that starts a word. */
  function CapitalizeWords(s: string): (r: string)
    ensures |r| == |s|
    ensures forall i :: 0 <= i < |s| ==>
              r[i] == (if WordStart(s, i) then ToUpper(ToLower(s[i])) else ToLower(s[i]))
  {
    var l := LowerAscii(s);
    assert forall i :: 0 <= i < |s| ==> WordStart(l, i) == WordStart(s, i) by {
      forall i | 0 <= i < |s| ensures WordStart(l, i) == WordStart(s, i) {
        CaseKeepsWordChar(s[i]);
        if i > 0 { CaseKeepsWordChar(s[i - 1]); }
      }
    }
    seq(|l|, i requires 0 <= i < |l| => if WordStart(l, i) then ToUpper(l[i]) else l[i])
  }

  /** Capitalising keeps the text up to case and keeps the word boundaries. */
  lemma CapitalizeWordsKeepsText(s: string)
    ensures LowerAscii(CapitalizeWords(s)) == LowerAscii(s)
    ensures forall i :: 0 <= i < |s| ==> WordStart(CapitalizeWords(s), i) == WordStart(s, i)
  {
    var r := CapitalizeWords(s);
    forall i | 0 <= i < |s|
      ensures ToLower(r[i]) == ToLower(s[i])
      ensures IsWordChar(r[i]) == IsWordChar(s[i])
    {
      CaseKeepsWordChar(s[i]);
      CaseKeepsWordChar(ToLower(s[i]));
    }
  }

  /** In a capitalised text every word starts upper-case and every other ASCII
      letter is lower-case. */
  lemma CapitalizeWordsShape(s: string)
    ensures forall i :: 0 <= i < |s| && WordStart(s, i) ==> !('a' <= CapitalizeWords(s)[i] <= 'z')
    ensures forall i :: 0 <= i < |s| && !WordStart(s, i) ==> !('A' <= CapitalizeWords(s)[i] <= 'Z')
  {
  }

  /** Typing into an already capitalised field leaves it as it is. */
  lemma CapitalizeWordsIdempotent(s: string)
    ensures CapitalizeWords(CapitalizeWords(s)) == CapitalizeWords(s)
  {
    var r := CapitalizeWords(s);
    var rr := CapitalizeWords(r);
    CapitalizeWordsKeepsText(s);
    forall i | 0 <= i < |s| ensures rr[i] == r[i] {
      assert ToLower(r[i]) == LowerAscii(r)[i] == LowerAscii(s)[i] == ToLower(s[i]);
    }
  }

  /** The `.lowercase-email` handler. */
  function LowercaseEmail(s: string): (r: string)
    ensures |r| == |s|
    ensures forall i :: 0 <= i < |s| ==> r[i] == ToLower(s[i])
    ensures forall i :: 0 <= i < |r| ==> !('A' <= r[i] <= 'Z')
  {
    LowerAscii(s)
  }

  lemma LowercaseEmailIdempotent(s: string)
    ensures LowercaseEmail(LowercaseEmail(s)) == LowercaseEmail(s)
  {
    var r := LowercaseEmail(s);
    forall i | 0 <= i < |s| ensures LowercaseEmail(r)[i] == r[i] {
      CaseKeepsWordChar(s[i]);
    }
  }

  // ---------------------------------------------------------------------------
  // Primary specialization options
  // ---------------------------------------------------------------------------

  datatype Checkbox = Checkbox(value: string, checked: bool)

  /** An `<option>` of the primary-specialization `<select>`. */
  datatype Choice = Choice(value: string, disabled: bool)

  /** `v` is the value of some ticked specialization box. */
  predicate IsChecked(boxes: seq<Checkbox>, v: string) {
    exists i :: 0 <= i < |boxes| && boxes[i].checked && boxes[i].value == v
  }

  /** The values of the ticked boxes, in page order. */
  function CheckedValues(boxes: seq<Checkbox>): (r: seq<string>)
    ensures forall v :: v in r <==> IsChecked(boxes, v)
  {
    if boxes == [] then []
    else
      var rest := CheckedValues(boxes[1..]);
      assert forall v :: IsChecked(boxes, v) <==>
        (boxes[0].checked && boxes[0].value == v) || IsChecked(boxes[1..], v) by {
        forall v ensures IsChecked(boxes, v) <==>
          (boxes[0].checked && boxes[0].value == v) || IsChecked(boxes[1..], v) {
          if IsChecked(boxes, v) {
            var i :| 0 <= i < |boxes| && boxes[i].checked && boxes[i].value == v;
            if i > 0 { assert boxes[1..][i - 1] == boxes[i]; }
          }
          if IsChecked(boxes[1..], v) {
            var i :| 0 <= i < |boxes[1..]| && boxes[1..][i].checked && boxes[1..][i].value == v;
            assert boxes[i + 1] == boxes[1..][i];
          }
        }
      }
      if boxes[0].checked then [boxes[0].value] + rest else rest
  }

  /** The order in which `CheckedValues` lists the ticked values: a single box
      contributes its value exactly when it is ticked, and the result for a
      concatenation of boxes is the concatenation of the results. Together
      these determine `CheckedValues` on every page, in page order. */
  lemma {:induction false} CheckedValuesAppend(a: seq<Checkbox>, b: seq<Checkbox>)
    ensures CheckedValues(a + b) == CheckedValues(a) + CheckedValues(b)
  {
    if a == [] {
      assert a + b == b;
    } else {
      var ab := a + b;
      assert ab[0] == a[0] && ab[1..] == a[1..] + b;
      var rest, tail := CheckedValues(a[1..]), CheckedValues(b);
      CheckedValuesAppend(a[1..], b);
      if a[0].checked {
        assert CheckedValues(ab) == [a[0].value] + (rest + tail);
        assert CheckedValues(a) == [a[0].value] + rest;
        assert [a[0].value] + (rest + tail) == ([a[0].value] + rest) + tail;
      } else {
        assert CheckedValues(ab) == rest + tail;
        assert CheckedValues(a) == rest;
      }
    }
  }

  lemma CheckedValuesOne(x: Checkbox)
    ensures CheckedValues([x]) == if x.checked then [x.value] else []
  {
    assert [x][1..] == [];
  }

  /** One option after the refresh: a valued option is disabled exactly when
      its value is not ticked; the empty placeholder option is left alone. */
  function RefreshChoice(o: Choice, checked: seq<string>): Choice {
    if o.value != [] && o.value !in checked then o.(disabled := true)
    else if o.value != [] then o.(disabled := false)
    else o
  }

  /** `updatePrimarySpecializationOptions`: refreshes every option, and clears
      the selection when the selected value is no longer ticked. */
  function UpdatePrimaryOptions(boxes: seq<Checkbox>, options: seq<Choice>, selected: string)
    : (r: (seq<Choice>, string))
    ensures |r.0| == |options|
    ensures forall i :: 0 <= i < |options| ==> r.0[i].value == options[i].value
    ensures forall i :: 0 <= i < |options| && options[i].value != [] ==>
              (!r.0[i].disabled <==> IsChecked(boxes, options[i].value))
    ensures forall i :: 0 <= i < |options| && options[i].value == [] ==> r.0[i] == options[i]
    ensures r.1 == [] || IsChecked(boxes, r.1)
    ensures r.1 == selected || r.1 == []
    ensures IsChecked(boxes, selected) ==> r.1 == selected
  {
    var checked := CheckedValues(boxes);
    var opts := seq(|options|, i requires 0 <= i < |options| => RefreshChoice(options[i], checked));
    var sel := if selected != [] && selected !in checked then [] else selected;
    (opts, sel)
  }

  // ---------------------------------------------------------------------------
  // Age read-out
  // ---------------------------------------------------------------------------

  /** A calendar day as the browser's `Date` getters report it. */
  datatype Date = Date(year: int, month: int, day: int)

  /** `a` is the same day as `b` or earlier. */
  predicate OnOrBefore(a: Date, b: Date) {
    a.year < b.year || (a.year == b.year && (a.month < b.month || (a.month == b.month && a.day <= b.day)))
  }

  /** The `n`-th anniversary of `birth`. */
  function Anniversary(birth: Date, n: int): Date { birth.(year := birth.year + n) }

  /** The age computation: the difference of the years, less one when the
      birthday has not come yet this year. The result is the number of
      anniversaries reached by `today`. */
  function Age(today: Date, birth: Date): (age: int)
    ensures OnOrBefore(Anniversary(birth, age), today)
    ensures !OnOrBefore(Anniversary(birth, age + 1), today)
  {
    var age := today.year - birth.year;
    var m := today.month - birth.month;
    if m < 0 || (m == 0 && today.day < birth.day) then age - 1 else age
  }

  /** The anniversary count is the only number with the property `Age` promises. */
  lemma AgeIsUnique(today: Date, birth: Date, n: int)
    requires OnOrBefore(Anniversary(birth, n), today)
    requires !OnOrBefore(Anniversary(birth, n + 1), today)
    ensures n == Age(today, birth)
  {
  }

  /** What the age element shows: the age when it is at least 0, otherwise the
      dash (`None`); an unparsable birth date (`None`, a NaN age) shows the dash. */
  function AgeDisplay(today: Date, birth: Option<Date>): (shown: Option<int>)
    ensures shown.Some? <==> birth.Some? && OnOrBefore(birth.value, today)
    ensures shown.Some? ==> shown.value == Age(today, birth.value) && shown.value >= 0
  {
    match birth
    case None => None
    case Some(b) =>
      var age := Age(today, b);
      assert age >= 0 <==> OnOrBefore(b, today) by {
        if age < 0 { assert !OnOrBefore(Anniversary(b, 0), today); }
      }
      if age >= 0 then Some(age) else None
  }

  // ---------------------------------------------------------------------------
  // Instructor form: step check and final submit
  // ---------------------------------------------------------------------------

  /** Removes the certification entries that are blank after trimming. */
  function DropBlankCertifications(certs: seq<string>): (kept: seq<string>)
    ensures |kept| <= |certs|
    ensures forall c {:trigger c in kept} :: c in kept <==> c in certs && !JsBlank(c)
  {
    if certs == [] then []
    else
      var rest := DropBlankCertifications(certs[1..]);
      assert certs == [certs[0]] + certs[1..];
      if JsBlank(certs[0]) then rest else [certs[0]] + rest
  }

  /** `filter` keeps order and repeats: a single entry is kept exactly when it
      is not blank, and the result for a concatenation is the concatenation of
      the results. Together these determine `DropBlankCertifications`. */
  lemma {:induction false} DropBlankCertificationsAppend(a: seq<string>, b: seq<string>)
    ensures DropBlankCertifications(a + b) == DropBlankCertifications(a) + DropBlankCertifications(b)
  {
    if a == [] {
      assert a + b == b;
    } else {
      var ab := a + b;
      assert ab[0] == a[0] && ab[1..] == a[1..] + b;
      var rest, tail := DropBlankCertifications(a[1..]), DropBlankCertifications(b);
      DropBlankCertificationsAppend(a[1..], b);
      if !JsBlank(a[0]) {
        assert DropBlankCertifications(ab) == [a[0]] + (rest + tail);
        assert DropBlankCertifications(a) == [a[0]] + rest;
        assert [a[0]] + (rest + tail) == ([a[0]] + rest) + tail;
      } else {
        assert DropBlankCertifications(ab) == rest + tail;
        assert DropBlankCertifications(a) == rest;
      }
    }
  }

  lemma DropBlankCertificationsOne(c: string)
    ensures DropBlankCertifications([c]) == if JsBlank(c) then [] else [c]
  {
    assert [c][1..] == [];
  }

  datatype Verdict = Submit | NeedSpecialization | NeedPrimary

  /** The instructor form's submit handler: it first drops the blank
      certification entries, then blocks submission when no specialization is
      ticked or, when the primary `<select>` is on the page, none is chosen. */
  function InstructorSubmit(certs: seq<string>, boxes: seq<Checkbox>, primary: Option<string>)
    : (r: (seq<string>, Verdict))
    ensures r.0 == DropBlankCertifications(certs)
    ensures r.1 == NeedSpecialization <==> forall i :: 0 <= i < |boxes| ==> !boxes[i].checked
    ensures r.1 == Submit <==>
              (exists i :: 0 <= i < |boxes| && boxes[i].checked) && (primary.None? || primary.value != [])
  {
    var kept := DropBlankCertifications(certs);
    var ticked := CheckedValues(boxes);
    assert ticked == [] <==> forall i :: 0 <= i < |boxes| ==> !boxes[i].checked by {
      if ticked != [] { assert IsChecked(boxes, ticked[0]); }
      if exists i :: 0 <= i < |boxes| && boxes[i].checked {
        var i :| 0 <= i < |boxes| && boxes[i].checked;
        assert IsChecked(boxes, boxes[i].value);
      }
    }
    if |ticked| == 0 then (kept, NeedSpecialization)
    else if primary.Some? && primary.value == [] then (kept, NeedPrimary)
    else (kept, Submit)
  }

  /** A required control of one wizard step, with the text of its label when it has one. */
  datatype StepInput = StepInput(caption: Option<string>, value: string)

  /** A required-field marker `" *"` starts at position `i` of `t`. */
  predicate MarkAt(t: string, i: int) {
    0 <= i && i + 1 < |t| && t[i] == ' ' && t[i + 1] == '*'
  }

  /** Where the first marker starts, or -1 when there is none. */
  function FirstMark(t: string): (m: int)
    ensures -1 <= m
    ensures m == -1 ==> forall i :: !MarkAt(t, i)
    ensures m >= 0 ==> MarkAt(t, m) && forall j :: 0 <= j < m ==> !MarkAt(t, j)
  {
    if |t| < 2 then -1
    else if MarkAt(t, 0) then 0
    else
      var k := FirstMark(t[1..]);
      assert forall i :: 1 <= i ==> (MarkAt(t, i) <==> MarkAt(t[1..], i - 1));
      if k == -1 then -1 else k + 1
  }

  /** `text.replace(' *', '')`: removes the first required-field marker, and
      only that one; a text without a marker is left as it is. */
  function DropRequiredMark(t: string): (r: string)
    ensures FirstMark(t) == -1 ==> r == t
    ensures FirstMark(t) >= 0 ==> r == t[..FirstMark(t)] + t[FirstMark(t) + 2..]
    ensures |r| == |t| || |r| == |t| - 2
  {
    if |t| < 2 then t
    else if MarkAt(t, 0) then
      assert t[..0] + t[2..] == t[2..];
      t[2..]
    else
      var rest := DropRequiredMark(t[1..]);
      DropRequiredMarkStep(t, rest);
      [t[0]] + rest
  }

  /** A text not starting with a marker: its first marker is the first marker
      of its tail, one position further on. */
  lemma DropRequiredMarkStep(t: string, rest: string)
    requires |t| >= 2 && !MarkAt(t, 0)
    requires FirstMark(t[1..]) == -1 ==> rest == t[1..]
    requires FirstMark(t[1..]) >= 0 ==>
               rest == t[1..][..FirstMark(t[1..])] + t[1..][FirstMark(t[1..]) + 2..]
    ensures FirstMark(t) == -1 ==> [t[0]] + rest == t
    ensures FirstMark(t) >= 0 ==> [t[0]] + rest == t[..FirstMark(t)] + t[FirstMark(t) + 2..]
  {
    var u := t[1..];
    var k := FirstMark(u);
    assert FirstMark(t) == if k == -1 then -1 else k + 1;
    if k == -1 {
      assert [t[0]] + u == t;
    } else {
      assert rest == u[..k] + u[k + 2..];
      SplitAroundMark(t, k + 1);
    }
  }

  /** Cutting two characters at `m >= 1` out of `t` keeps the first character in front. */
  lemma SplitAroundMark(t: string, m: nat)
    requires 1 <= m && m + 1 < |t|
    ensures t[..m] + t[m + 2..] == [t[0]] + (t[1..][..m - 1] + t[1..][m + 1..])
  {
    assert t[..m] == [t[0]] + t[1..][..m - 1];
    assert t[m + 2..] == t[1..][m + 1..];
  }

  /** What one input adds to the list of empty fields. */
  function BlankLabel(x: StepInput): seq<string> {
    if JsBlank(x.value) && x.caption.Some? then [DropRequiredMark(x.caption.value)] else []
  }

  /** No input of the step is blank after trimming. */
  predicate AllFilled(inputs: seq<StepInput>) {
    forall i :: 0 <= i < |inputs| ==> !JsBlank(inputs[i].value)
  }

  /** The labels of the blank inputs, in order. */
  function BlankLabels(inputs: seq<StepInput>): seq<string> {
    if inputs == [] then []
    else BlankLabels(inputs[..|inputs| - 1]) + BlankLabel(inputs[|inputs| - 1])
  }

  /** How the step summary grows when one more input is looked at. */
  lemma StepPrefix(inputs: seq<StepInput>, k: nat)
    requires k < |inputs|
    ensures BlankLabels(inputs[..k + 1]) == BlankLabels(inputs[..k]) + BlankLabel(inputs[k])
    ensures AllFilled(inputs[..k + 1]) <==> AllFilled(inputs[..k]) && !JsBlank(inputs[k].value)
  {
    assert inputs[..k + 1][..k] == inputs[..k];
  }

  /** `validateStep`: every required control of the step is checked (no early
      exit); the step is valid exactly when none is blank after trimming, and
      the labels of the blank ones are collected for the error message. */
  method ValidateStep(inputs: seq<StepInput>) returns (valid: bool, emptyFields: seq<string>)
    ensures valid <==> AllFilled(inputs)
    ensures emptyFields == BlankLabels(inputs)
  {
    valid := true;
    emptyFields := [];
    var k := 0;
    while k < |inputs|
      invariant 0 <= k <= |inputs|
      invariant valid <==> AllFilled(inputs[..k])
      invariant emptyFields == BlankLabels(inputs[..k])
    {
      var x := inputs[k];
      StepPrefix(inputs, k);
      var blank := TrimsToEmpty(x.value);
      if blank {
        if x.caption.Some? {
          emptyFields := emptyFields + [DropRequiredMark(x.caption.value)];
        }
        valid := false;
      }
      k := k + 1;
    }
    assert inputs[..k] == inputs;
  }
}
