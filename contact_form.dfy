/** The contact form of `ContactForm.tsx`: the field rules of
    `validateForm`, and the form state that `handleInputChange` and
    `handleSubmit` update. The web form service's answer is an input. */
module ContactForm {
  import opened Wrappers
  import opened Text

  datatype Field = NameField | EmailField | SubjectField | MessageField

  datatype FormData = FormData(name: string, email: string, subject: string, message: string)

  const EmptyForm := FormData("", "", "", "")

  /** `formData[field]`. */
  function Value(d: FormData, f: Field): string {
    match f
    case NameField => d.name
    case EmailField => d.email
    case SubjectField => d.subject
    case MessageField => d.message
  }

  /** `{ ...d, [field]: v }`. */
  function WithValue(d: FormData, f: Field, v: string): (r: FormData)
    ensures forall g :: Value(r, g) == if g == f then v else Value(d, g)
  {
    match f
    case NameField => d.(name := v)
    case EmailField => d.(email := v)
    case SubjectField => d.(subject := v)
    case MessageField => d.(message := v)
  }

  // ---------------------------------------------------------------------
  // The e-mail pattern `^[^\s@]+@[^\s@]+\.[^\s@]+$`

  /** `[^\s@]`. */
  predicate Plain(c: char) {
    !IsSpace(c) && c != '@'
  }

  /** Every character of `s` is in the class `p`. */
  predicate AllIn(s: string, p: char -> bool) {
    forall i :: 0 <= i < |s| ==> p(s[i])
  }

  predicate AllPlain(s: string) {
    AllIn(s, Plain)
  }

  /** The shape of the pattern over a character class `p`: three non-empty
      runs of class characters around one `@` and one `.`. */
  ghost predicate DottedAddress(s: string, p: char -> bool) {
    exists a: string, b: string, c: string ::
      a != [] && b != [] && c != [] && AllIn(a, p) && AllIn(b, p) && AllIn(c, p)
      && s == a + "@" + b + "." + c
  }

  /** What the pattern accepts, read off the pattern. */
  ghost predicate MatchesEmailPattern(s: string) {
    DottedAddress(s, Plain)
  }

  /** A domain over the class `p`: class characters with a `.` that is
      neither the first nor the last one. */
  predicate DottedIn(d: string, p: char -> bool) {
    AllIn(d, p) && exists j :: 0 < j < |d| - 1 && d[j] == '.'
  }

  /** A non-empty run of class characters before the first `@`, and a
      dotted domain after it. */
  predicate CutAtFirstAt(s: string, p: char -> bool) {
    var k := Text.IndexOf(s, '@');
    0 < k < |s| && AllIn(s[..k], p) && DottedIn(s[k + 1..], p)
  }

  /** A direct test for the pattern, as a scan for the first `@`. */
  predicate EmailTest(s: string) {
    CutAtFirstAt(s, Plain)
  }

  lemma AllInSlice(s: string, lo: nat, hi: nat, p: char -> bool)
    requires AllIn(s, p) && lo <= hi <= |s|
    ensures AllIn(s[lo..hi], p)
  {
    forall i | 0 <= i < hi - lo ensures p(s[lo..hi][i]) {
      assert s[lo..hi][i] == s[lo + i];
    }
  }

  /** Cutting at an `@` and at a `.` inside the rest gives the shape. */
  lemma CutIsAddress(s: string, k: nat, j: nat, p: char -> bool)
    requires 0 < k < |s| && s[k] == '@'
    requires AllIn(s[..k], p) && AllIn(s[k + 1..], p)
    requires 0 < j < |s[k + 1..]| - 1 && s[k + 1..][j] == '.'
    ensures DottedAddress(s, p)
  {
    var d := s[k + 1..];
    var a, b, c := s[..k], d[..j], d[j + 1..];
    AllInSlice(d, 0, j, p);
    AllInSlice(d, j + 1, |d|, p);
    assert d == b + "." + c by {
      assert d == d[..j] + [d[j]] + d[j + 1..];
    }
    assert s == a + "@" + b + "." + c by {
      assert s == s[..k] + [s[k]] + s[k + 1..];
    }
  }

  lemma AllInConcat(x: string, y: string, p: char -> bool)
    requires AllIn(x, p) && AllIn(y, p)
    ensures AllIn(x + y, p)
  {
    forall i | 0 <= i < |x + y| ensures p((x + y)[i]) {
      if i >= |x| {
        assert (x + y)[i] == y[i - |x|];
      }
    }
  }

  /** The shape, when `@` is outside the class and `.` inside it, cuts at
      the first `@`. */
  lemma AddressCut(s: string, p: char -> bool)
    requires DottedAddress(s, p) && !p('@') && p('.')
    ensures CutAtFirstAt(s, p)
  {
    var a: string, b: string, c: string :|
      a != [] && b != [] && c != [] && AllIn(a, p) && AllIn(b, p) && AllIn(c, p)
      && s == a + "@" + b + "." + c;
    var d := b + "." + c;
    assert s == a + ['@'] + d;
    assert '@' !in a by {
      forall i | 0 <= i < |a| ensures a[i] != '@' {
        assert p(a[i]);
      }
    }
    IndexOfAfter(a, '@', d);
    var k := |a|;
    assert s[..k] == a && s[k + 1..] == d;
    assert d[|b|] == '.';
    AllInConcat(b, ".", p);
    AllInConcat(b + ".", c, p);
    assert DottedIn(d, p);
  }

  lemma EmailTestSound(s: string)
    requires EmailTest(s)
    ensures MatchesEmailPattern(s)
  {
    var k := Text.IndexOf(s, '@');
    var j :| 0 < j < |s[k + 1..]| - 1 && s[k + 1..][j] == '.';
    CutIsAddress(s, k, j, Plain);
  }

  lemma EmailTestComplete(s: string)
    requires MatchesEmailPattern(s)
    ensures EmailTest(s)
  {
    AddressCut(s, Plain);
  }

  /** The direct test accepts exactly what the pattern accepts. */
  lemma EmailTestIff(s: string)
    ensures EmailTest(s) <==> MatchesEmailPattern(s)
  {
    if EmailTest(s) {
      EmailTestSound(s);
    }
    if MatchesEmailPattern(s) {
      EmailTestComplete(s);
    }
  }

  /** The pattern is matched against the untrimmed value: surrounding white
      space makes an address fail. */
  lemma PaddedEmailFails(s: string, c: char)
    requires IsSpace(c)
    ensures !EmailTest([c] + s) && !EmailTest(s + [c])
  {
    var t := [c] + s;
    var k := Text.IndexOf(t, '@');
    if 0 < k < |t| {
      assert t[..k][0] == c;
    }
    var u := s + [c];
    var m := Text.IndexOf(u, '@');
    if 0 < m < |u| && AllPlain(u[..m]) {
      var d := u[m + 1..];
      assert d[|d| - 1] == c;
    }
  }

  // ---------------------------------------------------------------------
  // Field rules

  /** The shortest trimmed value each length-checked field accepts. */
  function MinLength(f: Field): nat {
    match f
    case NameField => 2
    case EmailField => 0
    case SubjectField => 5
    case MessageField => 10
  }

  function RequiredMessage(f: Field): string {
    match f
    case NameField => "Name is required"
    case EmailField => "Email is required"
    case SubjectField => "Subject is required"
    case MessageField => "Message is required"
  }

  function InvalidMessage(f: Field): string {
    match f
    case NameField => "Name must be at least 2 characters"
    case EmailField => "Please enter a valid email address"
    case SubjectField => "Subject must be at least 5 characters"
    case MessageField => "Message must be at least 10 characters"
  }

  /** The message one field gets, if any: blank values are required; the
      e-mail must match the pattern; the others need a minimum trimmed length. */
  function FieldError(f: Field, v: string): (r: Option<string>)
  {
    if IsBlank(v) then Some(RequiredMessage(f))
    else if f == EmailField then (if EmailTest(v) then None else Some(InvalidMessage(f)))
    else if |Trim(v)| < MinLength(f) then Some(InvalidMessage(f))
    else None
  }

  /** `newErrors[field] = message` when the field has one. */
  function Record(errors: map<Field, string>, f: Field, message: Option<string>): map<Field, string> {
    if message.Some? then errors[f := message.value] else errors
  }

  lemma RecordFacts(errors: map<Field, string>, f: Field, message: Option<string>, g: Field)
    ensures g in Record(errors, f, message) <==> (g == f && message.Some?) || g in errors
    ensures g in Record(errors, f, message) ==>
              Record(errors, f, message)[g] == if g == f && message.Some? then message.value else errors[g]
  {
  }

  /** The four fields checked in turn by `rule`, each message recorded. */
  function CheckFields(d: FormData, rule: (Field, string) -> Option<string>): map<Field, string> {
    var e1 := Record(map[], NameField, rule(NameField, d.name));
    var e2 := Record(e1, EmailField, rule(EmailField, d.email));
    var e3 := Record(e2, SubjectField, rule(SubjectField, d.subject));
    Record(e3, MessageField, rule(MessageField, d.message))
  }

  lemma CheckFieldsOf(d: FormData, rule: (Field, string) -> Option<string>, f: Field)
    ensures f in CheckFields(d, rule) <==> rule(f, Value(d, f)).Some?
    ensures f in CheckFields(d, rule) ==> CheckFields(d, rule)[f] == rule(f, Value(d, f)).value
  {
    var m1, m2, m3, m4 := rule(NameField, d.name), rule(EmailField, d.email),
                          rule(SubjectField, d.subject), rule(MessageField, d.message);
    var e1 := Record(map[], NameField, m1);
    var e2 := Record(e1, EmailField, m2);
    var e3 := Record(e2, SubjectField, m3);
    RecordFacts(map[], NameField, m1, f);
    RecordFacts(e1, EmailField, m2, f);
    RecordFacts(e2, SubjectField, m3, f);
    RecordFacts(e3, MessageField, m4, f);
  }

  /** `validateForm`: the messages for the four fields, checked in turn. */
  function ValidateForm(d: FormData): map<Field, string> {
    CheckFields(d, FieldError)
  }

  /** Each field has a message exactly when its rule fails, and it is that
      rule's message. */
  lemma ValidateFormFields(d: FormData, f: Field)
    ensures f in ValidateForm(d) <==> FieldError(f, Value(d, f)).Some?
    ensures f in ValidateForm(d) ==> ValidateForm(d)[f] == FieldError(f, Value(d, f)).value
  {
    CheckFieldsOf(d, FieldError, f);
  }

  /** `Object.keys(newErrors).length === 0`. */
  predicate FormValid(d: FormData) {
    ValidateForm(d) == map[]
  }

  /** The form is valid exactly when no field has a message. */
  lemma FormValidIff(d: FormData)
    ensures FormValid(d) <==> forall f :: FieldError(f, Value(d, f)).None?
  {
    var errors := ValidateForm(d);
    if !FormValid(d) {
      var f :| f in errors;
      ValidateFormFields(d, f);
    } else {
      forall f ensures FieldError(f, Value(d, f)).None? {
        ValidateFormFields(d, f);
      }
    }
  }

  /** A blank value gets the "required" message, whatever else holds. */
  lemma RequiredFirst(f: Field, v: string)
    requires IsBlank(v)
    ensures FieldError(f, v) == Some(RequiredMessage(f))
  {
  }

  /** A non-blank name, subject or message fails exactly when its trimmed
      length is below the minimum. */
  lemma LengthRule(f: Field, v: string)
    requires f != EmailField && !IsBlank(v)
    ensures FieldError(f, v).Some? <==> |Trim(v)| < MinLength(f)
    ensures FieldError(f, v).Some? ==> FieldError(f, v).value == InvalidMessage(f)
  {
  }

  /** A non-blank e-mail fails exactly when it does not match the pattern. */
  lemma EmailRule(v: string)
    requires !IsBlank(v)
    ensures FieldError(EmailField, v).Some? <==> !MatchesEmailPattern(v)
  {
    EmailTestIff(v);
  }

  // ---------------------------------------------------------------------
  // Form state

  /** The answer to a submission: `data.success`, a failure answer, or a
      thrown error. */
  datatype SubmitOutcome = Sent | Refused | Unreachable

  class ContactFormState {
    var data: FormData
    var errors: map<Field, string>
    var isSubmitting: bool
    var isSubmitted: bool

    /** Outside a submission the form is never marked as submitting. */
    predicate Idle()
      reads this
    {
      !isSubmitting
    }

    constructor()
      ensures data == EmptyForm && errors == map[] && !isSubmitting && !isSubmitted
      ensures Idle()
    {
      data := EmptyForm;
      errors := map[];
      isSubmitting := false;
      isSubmitted := false;
    }

    /** `handleInputChange`: only field `f` changes, and only its message is
        cleared. */
    method HandleInputChange(f: Field, v: string)
      modifies this
      ensures data == WithValue(old(data), f, v)
      ensures errors == old(errors) - {f}
      ensures isSubmitting == old(isSubmitting) && isSubmitted == old(isSubmitted)
    {
      data := WithValue(data, f, v);
      if f in errors {
        errors := errors - {f};
      }
    }

    /** `validateForm` as the component calls it: it stores the messages
        and tells whether there are none. */
    method Validate() returns (valid: bool)
      modifies this
      ensures errors == ValidateForm(old(data)) && (valid <==> FormValid(old(data)))
      ensures data == old(data) && isSubmitting == old(isSubmitting) && isSubmitted == old(isSubmitted)
    {
      errors := ValidateForm(data);
      valid := errors == map[];
    }

    /** `handleSubmit`: the form is validated first; an invalid form is not
        sent. `started` says whether the message was sent, `alerted` whether
        the failure alert was shown. */
    method HandleSubmit(outcome: SubmitOutcome) returns (started: bool, alerted: bool)
      requires Idle()
      modifies this
      ensures errors == ValidateForm(old(data))
      ensures started <==> FormValid(old(data))
      ensures started && outcome == Sent ==> data == EmptyForm && isSubmitted
      ensures !(started && outcome == Sent) ==> data == old(data) && isSubmitted == old(isSubmitted)
      ensures alerted <==> started && outcome != Sent
      ensures Idle()
    {
      ghost var submitted := data;
      var valid := Validate();
      assert valid <==> FormValid(submitted);
      started, alerted := false, false;
      if !valid {
        return;
      }
      started := true;
      isSubmitting := true;
      if outcome == Sent {
        isSubmitted := true;
        data := EmptyForm;
      } else {
        alerted := true;
      }
      isSubmitting := false;
    }

    /** "Send Another Message". */
    method SendAnother()
      modifies this
      ensures !isSubmitted
      ensures data == old(data) && errors == old(errors) && isSubmitting == old(isSubmitting)
    {
      isSubmitted := false;
    }
  }
}
