/**
 * The sign-in / sign-up form of frontend/src/components/Login.js: its
 * field state, the ordered validation chain whose first failing check
 * decides the message, and the mode switch that resets the form.
 */
module Login {
  import opened Wrappers
  import opened JsText

  datatype FormData = FormData(
    username: string,
    email: string,
    password: string,
    confirmPassword: string,
    role: string,
    baseId: string)

  /** The form as the component starts it and as every reset leaves it. */
  const DefaultForm := FormData("", "", "", "", "logistics_officer", "1")

  /** The `name` attributes of the form's inputs. */
  datatype Field = Username | Email | Password | ConfirmPassword | Role | BaseId

  function Get(f: FormData, field: Field): string {
    match field
    case Username => f.username
    case Email => f.email
    case Password => f.password
    case ConfirmPassword => f.confirmPassword
    case Role => f.role
    case BaseId => f.baseId
  }

  /** `{ ...prev, [name]: value }`. */
  function WithField(f: FormData, field: Field, value: string): (r: FormData)
    ensures Get(r, field) == value
    ensures forall other :: other != field ==> Get(r, other) == Get(f, other)
  {
    match field
    case Username => f.(username := value)
    case Email => f.(email := value)
    case Password => f.(password := value)
    case ConfirmPassword => f.(confirmPassword := value)
    case Role => f.(role := value)
    case BaseId => f.(baseId := value)
  }

  // ---------------------------------------------------------------------
  // The e-mail pattern /\S+@\S+\.\S+/ (unanchored)

  /** The pattern matches `s` with its `@` at `at` and its `.` at `dot`:
      one or more non-space characters end right before the `@`, the run
      between `@` and `.` is non-empty and has no white space, and a
      non-space character follows the `.`. */
  predicate EmailMatchAt(s: string, at: int, dot: int) {
    && 0 < at && at + 1 < dot && dot + 1 < |s|
    && s[at] == '@' && s[dot] == '.'
    && !IsWhitespace(s[at - 1]) && !IsWhitespace(s[dot + 1])
    && forall k :: at < k < dot ==> !IsWhitespace(s[k])
  }

  /** What `/\S+@\S+\.\S+/.test(s)` means. */
  ghost predicate MatchesEmailPattern(s: string) {
    exists at, dot :: EmailMatchAt(s, at, dot)
  }

  /** Scans the non-space run that starts at `start` (positions before `k`
      already checked) for a `.` that ends an `@`-run and is followed by a
      non-space character. */
  function DotInRun(s: string, start: nat, k: nat): bool
    requires start <= k
    decreases |s| - k
  {
    if k >= |s| || IsWhitespace(s[k]) then false
    else if k > start && s[k] == '.' && k + 1 < |s| && !IsWhitespace(s[k + 1]) then true
    else DotInRun(s, start, k + 1)
  }

  /** Tries every `@` from position `at` on. */
  function EmailFrom(s: string, at: nat): bool
    decreases |s| - at
  {
    if at >= |s| then false
    else if s[at] == '@' && at > 0 && !IsWhitespace(s[at - 1]) && DotInRun(s, at + 1, at + 1) then true
    else EmailFrom(s, at + 1)
  }

  /** `/\S+@\S+\.\S+/.test(s)`: a matching string has an `@`, a `.`
      and at least five characters. */
  function EmailPatternTest(s: string): (r: bool)
    ensures r ==> |s| >= 5 && '@' in s && '.' in s
  {
    EmailFromSpec(s, 0);
    EmailMatchHasMarks(s);
    EmailFrom(s, 0)
  }

  lemma EmailMatchHasMarks(s: string)
    ensures (exists at, dot :: 0 <= at && EmailMatchAt(s, at, dot)) ==> |s| >= 5 && '@' in s && '.' in s
  {
    if exists at, dot :: 0 <= at && EmailMatchAt(s, at, dot) {
      var at, dot :| 0 <= at && EmailMatchAt(s, at, dot);
      assert s[at] == '@' && s[dot] == '.';
    }
  }

  lemma {:induction false} DotInRunSpec(s: string, at: nat, k: nat)
    requires at + 1 <= k <= |s|
    requires forall m :: at < m < k ==> !IsWhitespace(s[m])
    requires at < |s| && s[at] == '@' && at > 0 && !IsWhitespace(s[at - 1])
    ensures DotInRun(s, at + 1, k) <==> exists dot :: k <= dot && EmailMatchAt(s, at, dot)
    decreases |s| - k
  {
    if k == |s| || IsWhitespace(s[k]) {
    } else if k > at + 1 && s[k] == '.' && k + 1 < |s| && !IsWhitespace(s[k + 1]) {
      assert EmailMatchAt(s, at, k);
    } else {
      DotInRunSpec(s, at, k + 1);
      if exists dot :: k <= dot && EmailMatchAt(s, at, dot) {
        var dot :| k <= dot && EmailMatchAt(s, at, dot);
        assert dot != k;
      }
    }
  }

  lemma {:induction false} EmailFromSpec(s: string, from: nat)
    ensures EmailFrom(s, from) <==> exists at, dot :: from <= at && EmailMatchAt(s, at, dot)
    decreases |s| - from
  {
    if from < |s| {
      EmailFromSpec(s, from + 1);
      if s[from] == '@' && from > 0 && !IsWhitespace(s[from - 1]) {
        DotInRunSpec(s, from, from + 1);
      }
      if exists at, dot :: from <= at && EmailMatchAt(s, at, dot) {
        var at, dot :| from <= at && EmailMatchAt(s, at, dot);
        if at == from {
          DotInRunSpec(s, from, from + 1);
          assert EmailFrom(s, from);
        } else {
          assert EmailFrom(s, from + 1);
        }
      }
    }
  }

  /** The scan decides exactly the unanchored pattern. */
  lemma EmailPatternTestSpec(s: string)
    ensures EmailPatternTest(s) <==> MatchesEmailPattern(s)
  {
    EmailFromSpec(s, 0);
  }

  // ---------------------------------------------------------------------
  // validateForm

  const UsernameRequired := "Username is required"
  const EmailRequired := "Email is required"
  const InvalidEmail := "Please enter a valid email address"
  const PasswordTooShort := "Password must be at least 6 characters long"
  const PasswordMismatch := "Passwords do not match"
  const PasswordRequired := "Password is required"

  /** The message `validateForm` reports, or None when the form passes.
      Each mode reports only its own messages, and a passing form has a
      username that is not blank. */
  function ValidationError(isSignup: bool, f: FormData): (r: Option<string>)
    ensures isSignup && r.Some? ==>
      r.value in {UsernameRequired, EmailRequired, InvalidEmail, PasswordTooShort, PasswordMismatch}
    ensures !isSignup && r.Some? ==> r.value in {UsernameRequired, PasswordRequired}
    ensures r.None? ==> Trim(f.username) != [] && !AllWhitespace(f.username)
    ensures isSignup && r.None? ==> f.password == f.confirmPassword && |f.password| >= 3
  {
    TrimEmptyIffBlank(f.username);
    if isSignup then
      if Trim(f.username) == "" then Some(UsernameRequired)
      else if Trim(f.email) == "" then Some(EmailRequired)
      else if !EmailPatternTest(f.email) then Some(InvalidEmail)
      else if Utf16Length(f.password) < 6 then Some(PasswordTooShort)
      else if f.password != f.confirmPassword then Some(PasswordMismatch)
      else None
    else
      if Trim(f.username) == "" then Some(UsernameRequired)
      else if Trim(f.password) == "" then Some(PasswordRequired)
      else None
  }

  /** Sign-in: the username is checked before the password, each only for
      being blank; nothing else is checked. */
  lemma SignInValidation(f: FormData)
    ensures ValidationError(false, f) == Some(UsernameRequired) <==> AllWhitespace(f.username)
    ensures ValidationError(false, f) == Some(PasswordRequired)
      <==> !AllWhitespace(f.username) && AllWhitespace(f.password)
    ensures ValidationError(false, f) == None
      <==> !AllWhitespace(f.username) && !AllWhitespace(f.password)
  {
    TrimEmptyIffBlank(f.username);
    TrimEmptyIffBlank(f.password);
  }

  /** Sign-up: the five checks run in order and the first failing one
      decides the message. */
  lemma SignUpValidation(f: FormData)
    ensures ValidationError(true, f) == Some(UsernameRequired) <==> AllWhitespace(f.username)
    ensures ValidationError(true, f) == Some(EmailRequired)
      <==> !AllWhitespace(f.username) && AllWhitespace(f.email)
    ensures ValidationError(true, f) == Some(InvalidEmail)
      <==> !AllWhitespace(f.username) && !AllWhitespace(f.email) && !MatchesEmailPattern(f.email)
    ensures ValidationError(true, f) == Some(PasswordTooShort)
      <==> !AllWhitespace(f.username) && MatchesEmailPattern(f.email)
           && Utf16Length(f.password) < 6
    ensures ValidationError(true, f) == Some(PasswordMismatch)
      <==> !AllWhitespace(f.username) && MatchesEmailPattern(f.email)
           && Utf16Length(f.password) >= 6 && f.password != f.confirmPassword
    ensures ValidationError(true, f) == None
      <==> !AllWhitespace(f.username) && MatchesEmailPattern(f.email)
           && Utf16Length(f.password) >= 6 && f.password == f.confirmPassword
  {
    TrimEmptyIffBlank(f.username);
    TrimEmptyIffBlank(f.email);
    EmailPatternTestSpec(f.email);
    if MatchesEmailPattern(f.email) {
      var at, dot :| EmailMatchAt(f.email, at, dot);
      assert !IsWhitespace(f.email[at]);
    }
  }

  /** The sign-up length check reads the password untrimmed: six spaces
      pass it, although the same password is blank for sign-in. */
  lemma BlankPasswordPassesSignUpLength(f: FormData)
    requires f.password == "      "
    ensures Utf16Length(f.password) >= 6
    ensures ValidationError(true, f) != Some(PasswordTooShort) || !MatchesEmailPattern(f.email)
      || AllWhitespace(f.username)
    ensures ValidationError(false, f) != None
  {
    SignUpValidation(f);
    SignInValidation(f);
  }

  // ---------------------------------------------------------------------
  // Component state

  datatype LoginState = LoginState(isSignup: bool, form: FormData, error: string, successMessage: string)

  /** `handleInputChange`: the named field takes the value and any error is
      cleared. */
  function InputChanged(s: LoginState, field: Field, value: string): LoginState {
    s.(form := WithField(s.form, field, value), error := "")
  }

  /** `handleModeSwitch`. */
  function ModeSwitched(s: LoginState): LoginState {
    LoginState(!s.isSignup, DefaultForm, "", "")
  }

  /** Switching twice restores the mode and leaves a freshly reset form. */
  lemma ModeSwitchTwice(s: LoginState)
    ensures ModeSwitched(ModeSwitched(s)).isSignup == s.isSignup
    ensures ModeSwitched(ModeSwitched(s)) == ModeSwitched(s).(isSignup := s.isSignup)
  {
  }

  /** Typing into a field touches only that field and the error. */
  lemma InputChangeTouchesOneField(s: LoginState, field: Field, value: string)
    ensures var t := InputChanged(s, field, value);
      && Get(t.form, field) == value
      && (forall other :: other != field ==> Get(t.form, other) == Get(s.form, other))
      && t.error == "" && t.isSignup == s.isSignup && t.successMessage == s.successMessage
  {
  }

  class LoginForm {
    var isSignup: bool
    var formData: FormData
    var error: string
    var successMessage: string

    function State(): LoginState
      reads this
    {
      LoginState(isSignup, formData, error, successMessage)
    }

    constructor ()
      ensures State() == LoginState(false, DefaultForm, "", "")
    {
      isSignup := false;
      formData := DefaultForm;
      error := "";
      successMessage := "";
    }

    method HandleInputChange(field: Field, value: string)
      modifies this
      ensures State() == InputChanged(old(State()), field, value)
    {
      formData := WithField(formData, field, value);
      if error != "" {
        error := "";
      }
    }

    /** `validateForm`: reports the first failure through `error` and
        leaves everything else alone. */
    method ValidateForm() returns (ok: bool)
      modifies this
      ensures ok <==> ValidationError(old(isSignup), old(formData)).None?
      ensures error == if ok then old(error) else ValidationError(old(isSignup), old(formData)).value
      ensures isSignup == old(isSignup) && formData == old(formData)
      ensures successMessage == old(successMessage)
    {
      var v := ValidationError(isSignup, formData);
      if v.Some? {
        error := v.value;
        return false;
      }
      return true;
    }

    method HandleModeSwitch()
      modifies this
      ensures State() == ModeSwitched(old(State()))
    {
      isSignup := !isSignup;
      error := "";
      successMessage := "";
      formData := DefaultForm;
    }
  }
}
