/**
 * The organization form's client-side checks (frontend-v2/src/pages/organization/OrganizationForm.tsx):
 * the error computation of `validateForm` (a blank name; an email that fails the pattern
 * `^[^\s@]+@[^\s@]+\.[^\s@]+$`) and `handleChange`'s update of one field and its error.
 */
module OrganizationForm {
  import opened Wrappers
  import opened Text

  /** The characters JavaScript's `\s` and `String.prototype.trim` treat as white space. */
  predicate IsWhitespace(c: char) {
    || c == '\t' || c == '\n' || c == '\U{000B}' || c == '\U{000C}' || c == '\r' || c == ' '
    || c == '\U{00A0}' || c == '\U{1680}' || ('\U{2000}' <= c <= '\U{200A}')
    || c == '\U{2028}' || c == '\U{2029}' || c == '\U{202F}' || c == '\U{205F}'
    || c == '\U{3000}' || c == '\U{FEFF}'
  }

  predicate AllWhitespace(s: string) {
    forall k :: 0 <= k < |s| ==> IsWhitespace(s[k])
  }

  /** The position of the first character at or after i that is not white space (|s| if none). */
  function SkipLeading(s: string, i: nat): (k: nat)
    requires i <= |s|
    ensures i <= k <= |s|
    ensures forall m :: i <= m < k ==> IsWhitespace(s[m])
    ensures k < |s| ==> !IsWhitespace(s[k])
    decreases |s| - i
  {
    if i < |s| && IsWhitespace(s[i]) then SkipLeading(s, i + 1) else i
  }

  /** The end of s[lo..j] once its trailing white space is dropped. */
  function SkipTrailing(s: string, lo: nat, j: nat): (k: nat)
    requires lo <= j <= |s|
    ensures lo <= k <= j
    ensures forall m :: k <= m < j ==> IsWhitespace(s[m])
    ensures k > lo ==> !IsWhitespace(s[k - 1])
    decreases j
  {
    if j > lo && IsWhitespace(s[j - 1]) then SkipTrailing(s, lo, j - 1) else j
  }

  /** `String.prototype.trim`: the string without its leading and trailing white space. */
  function Trim(s: string): (r: string)
    ensures exists i, j :: 0 <= i <= j <= |s| && r == s[i..j]
                           && (forall m :: 0 <= m < i ==> IsWhitespace(s[m]))
                           && (forall m :: j <= m < |s| ==> IsWhitespace(s[m]))
    ensures r != [] ==> !IsWhitespace(r[0]) && !IsWhitespace(r[|r| - 1])
  {
    var i := SkipLeading(s, 0);
    var j := SkipTrailing(s, i, |s|);
    s[i..j]
  }

  /** `!s.trim()` holds exactly of the strings made only of white space, the empty one included. */
  lemma BlankIffTrimEmpty(s: string)
    ensures Trim(s) == [] <==> AllWhitespace(s)
  {
    var i := SkipLeading(s, 0);
    var j := SkipTrailing(s, i, |s|);
    assert Trim(s) == s[i..j];
    if AllWhitespace(s) {
      assert i == |s|;
    }
  }

  // ---------------------------------------------------------------------------------------
  // The email pattern

  /** `[^\s@]`. */
  predicate LocalChar(c: char) {
    !IsWhitespace(c) && c != '@'
  }

  predicate AllLocalChars(s: string) {
    forall k :: 0 <= k < |s| ==> LocalChar(s[k])
  }

  /**
   * `^[^\s@]+@[^\s@]+\.[^\s@]+$` matched with its '@' at position i and the literal '.' at
   * position j: three non-empty runs of characters that are neither white space nor '@'.
   */
  ghost predicate MatchesAt(s: string, i: int, j: int) {
    && 0 < i && i + 1 < j && j + 1 < |s|
    && s[i] == '@' && s[j] == '.'
    && AllLocalChars(s[..i]) && AllLocalChars(s[i + 1..j]) && AllLocalChars(s[j + 1..])
  }

  /** The reading of the regular expression: some choice of '@' and '.' positions matches. */
  ghost predicate MatchesEmailPattern(s: string) {
    exists i, j :: MatchesAt(s, i, j)
  }

  /** The executable test: one '@' not at the start, nothing but `[^\s@]` around it, a '.' inside the domain. */
  predicate ValidEmail(s: string) {
    match IndexOf(s, '@')
    case None => false
    case Some(at) =>
      && at > 0 && AllLocalChars(s[..at]) && AllLocalChars(s[at + 1..])
      && exists p :: at + 1 < p < |s| - 1 && s[p] == '.'
  }

  /** The test accepts exactly the strings the pattern matches. */
  lemma ValidEmailIffPattern(s: string)
    ensures ValidEmail(s) <==> MatchesEmailPattern(s)
  {
    if ValidEmail(s) {
      var at := IndexOf(s, '@').value;
      var p :| at + 1 < p < |s| - 1 && s[p] == '.';
      assert s[at + 1..p] == s[at + 1..][..p - at - 1];
      assert s[p + 1..] == s[at + 1..][p - at..];
      assert MatchesAt(s, at, p);
    }
    if MatchesEmailPattern(s) {
      var i, j :| MatchesAt(s, i, j);
      assert '@' !in s[..i] by {
        forall k | 0 <= k < i ensures s[..i][k] != '@' { }
      }
      assert IndexOf(s, '@') == Some(i) by {
        var f := IndexOf(s, '@');
        assert s[i] == '@';
        assert f.Some?;
      }
      assert AllLocalChars(s[i + 1..]) by {
        var d := s[i + 1..];
        forall k | 0 <= k < |d| ensures LocalChar(d[k]) {
          var n := i + 1 + k;
          if n < j { assert d[k] == s[i + 1..j][n - i - 1]; }
          else if n > j { assert d[k] == s[j + 1..][n - j - 1]; }
        }
      }
    }
  }

  /** How many times c occurs in s. */
  function Occurrences(s: string, c: char): nat {
    if |s| == 0 then 0 else Occurrences(s[..|s| - 1], c) + if s[|s| - 1] == c then 1 else 0
  }

  lemma {:induction false} NoOccurrences(s: string, c: char)
    requires forall k :: 0 <= k < |s| ==> s[k] != c
    ensures Occurrences(s, c) == 0
    decreases |s|
  {
    if |s| > 0 {
      NoOccurrences(s[..|s| - 1], c);
    }
  }

  /** A character found at position i and nowhere else occurs once. */
  lemma {:induction false} SingleOccurrence(s: string, c: char, i: nat)
    requires i < |s| && s[i] == c
    requires forall k :: 0 <= k < |s| && k != i ==> s[k] != c
    ensures Occurrences(s, c) == 1
    decreases |s|
  {
    var front := s[..|s| - 1];
    if i == |s| - 1 {
      NoOccurrences(front, c);
    } else {
      SingleOccurrence(front, c, i);
    }
  }

  /**
   * An accepted email has no white space and exactly one '@', and after the '@' a '.' with at
   * least one character on either side.
   */
  lemma AcceptedEmailShape(s: string)
    requires ValidEmail(s)
    ensures forall k :: 0 <= k < |s| ==> !IsWhitespace(s[k])
    ensures Occurrences(s, '@') == 1
    ensures var at := IndexOf(s, '@').value;
            exists p :: at + 1 < p < |s| - 1 && s[p] == '.'
  {
    var at := IndexOf(s, '@').value;
    AcceptedEmailChars(s, at);
    SingleOccurrence(s, '@', at);
  }

  /** Outside the '@' every character of an accepted email is `[^\s@]`. */
  lemma AcceptedEmailChars(s: string, at: nat)
    requires ValidEmail(s) && IndexOf(s, '@') == Some(at)
    ensures forall k :: 0 <= k < |s| && k != at ==> LocalChar(s[k])
    ensures !IsWhitespace(s[at])
  {
    var local, domain := s[..at], s[at + 1..];
    forall k | 0 <= k < |s| && k != at ensures LocalChar(s[k]) {
      if k < at { assert s[k] == local[k]; } else { assert s[k] == domain[k - at - 1]; }
    }
  }

  // ---------------------------------------------------------------------------------------
  // Form state

  type FormData = map<string, string>

  /** The `fieldErrors` object: a key present with None is a key set to `undefined`. */
  type FieldErrors = map<string, Option<string>>

  const NameRequired := "Organization name is required"
  const InvalidEmail := "Please enter a valid email address"

  /** The form's initial state: every field an empty string. */
  const InitialForm: FormData := map["name" := "", "email" := "", "phone" := "", "website" := "", "address" := ""]

  /** `if (fieldErrors[name])`: the key holds a non-empty string. */
  predicate Truthy(errors: FieldErrors, key: string) {
    key in errors && errors[key].Some? && errors[key].value != ""
  }

  /** The errors object `validateForm` builds from the form data. */
  function ComputeErrors(form: FormData): (errors: FieldErrors)
    requires "name" in form && "email" in form
    ensures errors.Keys <= {"name", "email"}
    ensures "name" in errors <==> AllWhitespace(form["name"])
    ensures "email" in errors <==> form["email"] != "" && !MatchesEmailPattern(form["email"])
    ensures "name" in errors ==> errors["name"] == Some(NameRequired)
    ensures "email" in errors ==> errors["email"] == Some(InvalidEmail)
  {
    BlankIffTrimEmpty(form["name"]);
    ValidEmailIffPattern(form["email"]);
    var withName := if Trim(form["name"]) == [] then map["name" := Some(NameRequired)] else map[];
    if form["email"] != "" && !ValidEmail(form["email"]) then withName["email" := Some(InvalidEmail)] else withName
  }

  /** The form passes exactly when the name has a non-blank character and the email is empty or matches. */
  lemma FormAccepted(form: FormData)
    requires "name" in form && "email" in form
    ensures ComputeErrors(form) == map[] <==>
              (exists k :: 0 <= k < |form["name"]| && !IsWhitespace(form["name"][k]))
              && (form["email"] == "" || MatchesEmailPattern(form["email"]))
  {
    var e := ComputeErrors(form);
    if e != map[] {
      var key :| key in e;
      assert key == "name" || key == "email";
    }
  }

  /** An empty email field never produces an email error. */
  lemma EmptyEmailNoError(form: FormData)
    requires "name" in form && "email" in form && form["email"] == ""
    ensures "email" !in ComputeErrors(form)
  {
  }

  /** `handleChange`'s two state updates as values: set the field; clear its error only when it is set. */
  function ChangeField(form: FormData, errors: FieldErrors, name: string, value: string): (FormData, FieldErrors) {
    (form[name := value], if Truthy(errors, name) then errors[name := None] else errors)
  }

  /**
   * A change touches only the named field and the named error, leaves that error falsy, and
   * keeps the form's fields.
   */
  lemma ChangeFieldEffect(form: FormData, errors: FieldErrors, name: string, value: string)
    ensures var (form', errors') := ChangeField(form, errors, name, value);
            && form'[name] == value && form'.Keys == form.Keys + {name}
            && (forall k :: k in form && k != name ==> form'[k] == form[k])
            && !Truthy(errors', name)
            && errors'.Keys == errors.Keys
            && (forall k :: k in errors && k != name ==> errors'[k] == errors[k])
  {
  }

  class OrganizationFormState {
    var formData: FormData
    var fieldErrors: FieldErrors

    ghost predicate Valid()
      reads this`formData
    {
      "name" in formData && "email" in formData
    }

    constructor()
      ensures Valid() && formData == InitialForm && fieldErrors == map[]
    {
      formData := InitialForm;
      fieldErrors := map[];
    }

    /** `handleChange`: `setFormData({...formData, [name]: value})`, then clear a set error of that field. */
    method HandleChange(name: string, value: string)
      requires Valid()
      modifies this
      ensures Valid()
      ensures (formData, fieldErrors) == ChangeField(old(formData), old(fieldErrors), name, value)
    {
      formData := formData[name := value];
      if Truthy(fieldErrors, name) {
        fieldErrors := fieldErrors[name := None];
      }
    }

    /** `validateForm`: replace the errors with the computed ones; succeed when there are none. */
    method ValidateForm() returns (ok: bool)
      requires Valid()
      modifies this`fieldErrors
      ensures Valid()
      ensures fieldErrors == ComputeErrors(formData)
      ensures ok <==> fieldErrors == map[]
    {
      fieldErrors := ComputeErrors(formData);
      ok := |fieldErrors.Keys| == 0;
    }
  }
}
