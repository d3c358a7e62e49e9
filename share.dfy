/** The share dialog: it checks the typed address in a fixed order (present, then well formed),
    sends the share request with the chosen permission, and turns the backend's answer into a
    success line or an error message. */
module Share {
  import opened Common
  import opened Text

  // ---------------------------------------------------------------------------
  // The address check

  /** A character of the class `[^\s@]`. */
  predicate Plain(c: char) {
    !IsWhitespace(c) && c != '@'
  }

  predicate PlainBetween(s: string, lo: int, hi: int) {
    forall k :: lo <= k < hi && 0 <= k < |s| ==> Plain(s[k])
  }

  /** `/^[^\s@]+@[^\s@]+\.[^\s@]+$/.test(s)`: the text splits as a non-empty plain run, `@`, a
      non-empty plain run, `.`, and a non-empty plain run, with `i` and `j` the positions of
      the `@` and of the dot the regular expression settles on. */
  predicate MatchesEmailRegex(s: string) {
    exists i, j :: 0 < i && i + 1 < j && j + 1 < |s| && s[i] == '@' && s[j] == '.'
                   && PlainBetween(s, 0, i) && PlainBetween(s, i + 1, j) && PlainBetween(s, j + 1, |s|)
  }

  predicate NoWhitespace(s: string) {
    forall k :: 0 <= k < |s| ==> !IsWhitespace(s[k])
  }

  /** The same rule in words: no white space anywhere, exactly one `@`, something before it,
      and a dot in the domain that is neither the domain's first nor its last character. */
  predicate WellFormedEmail(s: string) {
    NoWhitespace(s)
    && exists i :: 0 < i < |s| && s[i] == '@'
                   && (forall k :: 0 <= k < |s| && k != i ==> s[k] != '@')
                   && (exists j :: i + 1 < j < |s| - 1 && s[j] == '.')
  }

  lemma RegexImpliesWellFormed(s: string)
    requires MatchesEmailRegex(s)
    ensures WellFormedEmail(s)
  {
    var i, j :| 0 < i && i + 1 < j && j + 1 < |s| && s[i] == '@' && s[j] == '.'
                && PlainBetween(s, 0, i) && PlainBetween(s, i + 1, j) && PlainBetween(s, j + 1, |s|);
    forall k | 0 <= k < |s| && k != i ensures Plain(s[k]) {
      if k < i { assert PlainBetween(s, 0, i); }
      else if k < j { assert PlainBetween(s, i + 1, j); }
      else if k == j { assert s[k] == '.'; }
      else { assert PlainBetween(s, j + 1, |s|); }
    }
    assert !IsWhitespace(s[i]);
    assert i + 1 < j < |s| - 1 && s[j] == '.';
  }

  lemma WellFormedImpliesRegex(s: string)
    requires WellFormedEmail(s)
    ensures MatchesEmailRegex(s)
  {
    var i :| 0 < i < |s| && s[i] == '@'
             && (forall k :: 0 <= k < |s| && k != i ==> s[k] != '@')
             && (exists j :: i + 1 < j < |s| - 1 && s[j] == '.');
    var j :| i + 1 < j < |s| - 1 && s[j] == '.';
    assert PlainBetween(s, 0, i) && PlainBetween(s, i + 1, j) && PlainBetween(s, j + 1, |s|);
  }

  /** `validateEmail` accepts exactly the well-formed addresses. */
  lemma EmailRegexCharacterized(s: string)
    ensures MatchesEmailRegex(s) <==> WellFormedEmail(s)
  {
    if MatchesEmailRegex(s) { RegexImpliesWellFormed(s); }
    if WellFormedEmail(s) { WellFormedImpliesRegex(s); }
  }

  /** An address with white space anywhere, surrounding spaces included, is refused. */
  lemma WhitespaceRejected(s: string, k: nat)
    requires k < |s| && IsWhitespace(s[k])
    ensures !MatchesEmailRegex(s)
  {
    if MatchesEmailRegex(s) { RegexImpliesWellFormed(s); }
  }

  /** An accepted address is its own trimmed form, so the request carries exactly the text
      that the success line repeats. */
  lemma AcceptedIsTrimmed(s: string)
    requires MatchesEmailRegex(s)
    ensures Trim(s) == s && Trim(s) != ""
  {
    RegexImpliesWellFormed(s);
    TrimIdentity(s);
  }

  // ---------------------------------------------------------------------------
  // Messages

  const EmptyEmailText := "Please enter an email address"
  const InvalidEmailText := "Please enter a valid email address"
  const NotRegisteredText := "User with this email is not registered in the system"
  const AlreadySharedText := "Dashboard is already shared with this user"
  const ShareFailedText := "Failed to share dashboard. Please try again."

  /** The catch block's message: 404 and 409 have their own texts, anything else shows the
      error's message or, when it has none, the default text. */
  function ShareErrorMessage(status: Option<int>, message: Option<string>): (r: string)
    ensures status == Some(404) ==> r == NotRegisteredText
    ensures status == Some(409) ==> r == AlreadySharedText
    ensures status != Some(404) && status != Some(409) && message.Some? && message.value != "" ==> r == message.value
    ensures status != Some(404) && status != Some(409) && !(message.Some? && message.value != "") ==> r == ShareFailedText
    ensures r != ""
  {
    if status == Some(404) then NotRegisteredText
    else if status == Some(409) then AlreadySharedText
    else if message.Some? && message.value != "" then message.value
    else ShareFailedText
  }

  /** The status decides before the message does: 404 and 409 show their texts whatever the
      error's message says. */
  lemma StatusBeatsMessage(status: int, m1: Option<string>, m2: Option<string>)
    requires status == 404 || status == 409
    ensures ShareErrorMessage(Some(status), m1) == ShareErrorMessage(Some(status), m2)
  {
  }

  // ---------------------------------------------------------------------------
  // The dialog

  datatype Permission = View | Edit

  /** The share request. */
  datatype ShareCall = ShareCall(dashboardId: string, email: string, permission: Permission)

  /** `shareDashboardWithUser(dashboardId, email.trim(), permission)`. */
  function ShareRequest(dashboardId: string, email: string, p: Permission): ShareCall {
    ShareCall(dashboardId, Trim(email), p)
  }

  /** The two checks of `handleShare`, in order: the message of the first that fails, or
      nothing when the address may be sent. */
  function Validate(email: string): (r: Option<string>)
    ensures r == Some(EmptyEmailText) <==> Trim(email) == ""
    ensures r == Some(InvalidEmailText) <==> Trim(email) != "" && !MatchesEmailRegex(email)
    ensures r.None? <==> Trim(email) != "" && MatchesEmailRegex(email)
  {
    if Trim(email) == "" then Some(EmptyEmailText)
    else if !MatchesEmailRegex(email) then Some(InvalidEmailText)
    else None
  }

  /** Since the check runs on the untrimmed text, an address with a blank around it (or
      inside it) is refused as invalid, never sent trimmed. */
  lemma PaddedAddressRefused(email: string, k: nat)
    requires k < |email| && IsWhitespace(email[k]) && !AllWhitespace(email)
    ensures Validate(email) == Some(InvalidEmailText)
  {
    WhitespaceRejected(email, k);
    TrimEmptyIffBlank(email);
  }

  /** An address that passes both checks goes out exactly as typed. */
  lemma AcceptedAddressSentAsTyped(dashboardId: string, email: string, p: Permission)
    requires Validate(email).None?
    ensures ShareRequest(dashboardId, email, p).email == email
  {
    AcceptedIsTrimmed(email);
  }

  /** How the awaited share call ends: success, or an error carrying an optional HTTP status and
      an optional message. */
  datatype ShareOutcome = Shared | Rejected(status: Option<int>, message: Option<string>)

  /** The dialog's form: the typed address, the chosen permission and the two messages. */
  datatype Form = Form(email: string, permission: Permission, error: string, success: string)

  /** What `handleShare` does to the form, and the request it sends, for the awaited
      call's `outcome`. A refused address sets its message and sends nothing; otherwise both
      messages are cleared, the request is sent, and the answer is reported. */
  function ShareStep(dashboardId: string, f: Form, outcome: ShareOutcome): (r: (Form, Option<ShareCall>))
    ensures Validate(f.email).Some? ==> r == (f.(error := Validate(f.email).value), None)
    ensures Validate(f.email).None? ==> r.1 == Some(ShareRequest(dashboardId, f.email, f.permission))
    ensures Validate(f.email).None? && outcome.Shared? ==>
              r.0 == Form("", View, "", "Dashboard shared successfully with " + f.email)
    ensures Validate(f.email).None? && outcome.Rejected? ==>
              r.0 == f.(error := ShareErrorMessage(outcome.status, outcome.message), success := "")
  {
    var refusal := Validate(f.email);
    if refusal.Some? then (f.(error := refusal.value), None)
    else
      var call := Some(ShareRequest(dashboardId, f.email, f.permission));
      if outcome.Shared? then (Form("", View, "", "Dashboard shared successfully with " + f.email), call)
      else (f.(error := ShareErrorMessage(outcome.status, outcome.message), success := ""), call)
  }

  /** A successful share resets the form, and the success line names the address that was
      sent. */
  lemma SharedAddressNamed(dashboardId: string, f: Form)
    requires Validate(f.email).None?
    ensures var (g, call) := ShareStep(dashboardId, f, Shared);
      call.Some? && g.success == "Dashboard shared successfully with " + call.value.email
      && g.email == "" && g.permission == View && g.error == ""
  {
    AcceptedAddressSentAsTyped(dashboardId, f.email, f.permission);
  }

  /** A rejected share keeps what the user typed, so it can be corrected and sent again. */
  lemma RejectionKeepsInput(dashboardId: string, f: Form, status: Option<int>, message: Option<string>)
    ensures ShareStep(dashboardId, f, Rejected(status, message)).0.email == f.email
    ensures ShareStep(dashboardId, f, Rejected(status, message)).0.permission == f.permission
    ensures ShareStep(dashboardId, f, Rejected(status, message)).0.error != ""
  {
    if Validate(f.email).Some? {
      assert Validate(f.email).value != "";
    }
  }

  class ShareDialog {
    const dashboardId: string
    var email: string
    var permission: Permission
    var error: string
    var success: string
    var isLoading: bool

    constructor(dashboardId: string)
      ensures this.dashboardId == dashboardId
      ensures email == "" && permission == View && error == "" && success == "" && !isLoading
    {
      this.dashboardId := dashboardId;
      email := "";
      permission := View;
      error := "";
      success := "";
      isLoading := false;
    }

    /** The form's fields together. */
    function FormState(): Form
      reads this
    {
      Form(email, permission, error, success)
    }

    method SetEmail(text: string)
      modifies this
      ensures email == text
      ensures permission == old(permission) && error == old(error) && success == old(success) && isLoading == old(isLoading)
    {
      email := text;
    }

    method SetPermission(p: Permission)
      modifies this
      ensures permission == p
      ensures email == old(email) && error == old(error) && success == old(success) && isLoading == old(isLoading)
    {
      permission := p;
    }

    /** `handleShare`, with the awaited call's `outcome`: the form and the request follow
        `ShareStep`; loading is off at the end of a sent request and untouched by a refusal. */
    method Share(outcome: ShareOutcome) returns (call: Option<ShareCall>)
      modifies this
      ensures (FormState(), call) == ShareStep(dashboardId, old(FormState()), outcome)
      ensures isLoading == if call.Some? then false else old(isLoading)
    {
      var step := ShareStep(dashboardId, FormState(), outcome);
      call := step.1;
      if call.Some? {
        isLoading := true;
      }
      email, permission, error, success := step.0.email, step.0.permission, step.0.error, step.0.success;
      if call.Some? {
        isLoading := false;
      }
    }

    /** `handleClose`: the form is reset (a save in flight keeps its loading flag). */
    method Close()
      modifies this
      ensures email == "" && permission == View && error == "" && success == ""
      ensures isLoading == old(isLoading)
    {
      email := "";
      permission := View;
      error := "";
      success := "";
    }
  }
}
