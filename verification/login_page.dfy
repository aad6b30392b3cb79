/**
 * The login page: the form's two validation rules, and the `loading` flag that shows while a
 * submission is in flight.
 *
 * The e-mail rule is the pattern `^[A-Z0-9._%+-]+@[A-Z0-9.-]+\.[A-Z]{2,}$` with the `i` flag.
 * `MatchesPattern` reads it as a grammar (some split of the text into its parts); `IsEmailShape`
 * decides it by looking only at the first `@` and the last `.`, and the two are proved equal.
 */
module LoginPage {
  import opened Types

  const EmailRequired: string := "Email é obrigatório"
  const EmailInvalid: string := "Email inválido"
  const PasswordRequired: string := "Senha é obrigatória"
  const PasswordTooShort: string := "Senha deve ter pelo menos 3 caracteres"
  const PasswordMinLength: nat := 3

  const LoginSucceeded: string := "Login realizado com sucesso!"
  const LoginFailed: string := "Erro ao fazer login"
  const DashboardPath: string := "/dashboard"

  /** `[A-Z]` under the `i` flag: an ASCII letter of either case. */
  predicate IsLetter(c: char)
  {
    ('A' <= c <= 'Z') || ('a' <= c <= 'z')
  }

  predicate IsDigit(c: char)
  {
    '0' <= c <= '9'
  }

  /** `[A-Z0-9._%+-]`. */
  predicate IsLocalChar(c: char)
  {
    IsLetter(c) || IsDigit(c) || c == '.' || c == '_' || c == '%' || c == '+' || c == '-'
  }

  /** `[A-Z0-9.-]`. */
  predicate IsDomainChar(c: char)
  {
    IsLetter(c) || IsDigit(c) || c == '.' || c == '-'
  }

  /** `[A-Z0-9._%+-]+`. */
  predicate LocalPart(s: string)
  {
    |s| >= 1 && forall k :: 0 <= k < |s| ==> IsLocalChar(s[k])
  }

  /** `[A-Z0-9.-]+`. */
  predicate DomainPart(s: string)
  {
    |s| >= 1 && forall k :: 0 <= k < |s| ==> IsDomainChar(s[k])
  }

  /** `[A-Z]{2,}`. */
  predicate TopLevel(s: string)
  {
    |s| >= 2 && forall k :: 0 <= k < |s| ==> IsLetter(s[k])
  }

  /** The whole of `s` matches the pattern with its `@` at `i` and the `.` before the last part at `j`. */
  predicate MatchesAt(s: string, i: int, j: int)
  {
    && 0 <= i < j < |s|
    && s[i] == '@' && s[j] == '.'
    && LocalPart(s[..i]) && DomainPart(s[i + 1..j]) && TopLevel(s[j + 1..])
  }

  /** The pattern matches `s`: some split of `s` fits it. */
  ghost predicate MatchesPattern(s: string)
  {
    exists i, j :: MatchesAt(s, i, j)
  }

  /** The position of the first `c` in `s`, if any. */
  function IndexOf(s: string, c: char): (k: Option<nat>)
    ensures k.None? <==> c !in s
    ensures k.Some? ==> k.value < |s| && s[k.value] == c && c !in s[..k.value]
  {
    if s == [] then None
    else if s[0] == c then Some(0)
    else
      var rest := IndexOf(s[1..], c);
      if rest.None? then None
      else
        assert s[..rest.value + 1] == [s[0]] + s[1..][..rest.value];
        Some(rest.value + 1)
  }

  /** The position of the last `c` in `s`, if any. */
  function LastIndexOf(s: string, c: char): (k: Option<nat>)
    ensures k.None? <==> c !in s
    ensures k.Some? ==> k.value < |s| && s[k.value] == c && c !in s[k.value + 1..]
  {
    if s == [] then None
    else if s[|s| - 1] == c then Some(|s| - 1)
    else
      var rest := LastIndexOf(s[..|s| - 1], c);
      if rest.None? then
        assert s == s[..|s| - 1] + [s[|s| - 1]];
        None
      else
        assert s[rest.value + 1..] == s[..|s| - 1][rest.value + 1..] + [s[|s| - 1]];
        rest
  }

  /** The executable test: split at the first `@` and at the last `.`. */
  predicate IsEmailShape(s: string)
  {
    var at := IndexOf(s, '@');
    var dot := LastIndexOf(s, '.');
    at.Some? && dot.Some? && MatchesAt(s, at.value, dot.value)
  }

  /** A character that occurs at position `i` and nowhere before it is found first there. */
  lemma FirstAt(s: string, c: char, i: nat)
    requires i < |s| && s[i] == c && c !in s[..i]
    ensures IndexOf(s, c) == Some(i)
  {
  }

  /** A character that occurs at position `j` and nowhere after it is found last there. */
  lemma LastAt(s: string, c: char, j: nat)
    requires j < |s| && s[j] == c && c !in s[j + 1..]
    ensures LastIndexOf(s, c) == Some(j)
  {
  }

  /** In a match, the `@` is the first one and the `.` is the last one. */
  lemma MatchIsCanonical(s: string, i: int, j: int)
    requires MatchesAt(s, i, j)
    ensures IndexOf(s, '@') == Some(i) && LastIndexOf(s, '.') == Some(j)
  {
    assert '@' !in s[..i] by {
      forall k | 0 <= k < i ensures s[..i][k] != '@' {
        assert IsLocalChar(s[..i][k]);
      }
    }
    FirstAt(s, '@', i);
    assert '.' !in s[j + 1..] by {
      forall k | j < k < |s| ensures s[k] != '.' {
        assert IsLetter(s[j + 1..][k - j - 1]);
      }
    }
    LastAt(s, '.', j);
  }

  /** The executable test accepts exactly the texts the pattern matches. */
  lemma EmailShapeIsPattern(s: string)
    ensures IsEmailShape(s) <==> MatchesPattern(s)
  {
    if MatchesPattern(s) {
      var i, j :| MatchesAt(s, i, j);
      MatchIsCanonical(s, i, j);
    }
  }

  /**
   * The e-mail field's error: `Email é obrigatório` for an empty field, `Email inválido` when the
   * pattern does not match, and none otherwise.
   */
  function EmailError(email: string): (err: Option<string>)
    ensures err == Some(EmailRequired) <==> email == ""
    ensures err == Some(EmailInvalid) <==> email != "" && !MatchesPattern(email)
    ensures err.None? <==> MatchesPattern(email)
  {
    EmailShapeIsPattern(email);
    if email == "" then Some(EmailRequired)
    else if !IsEmailShape(email) then Some(EmailInvalid)
    else None
  }

  /**
   * An accepted e-mail is a local part, exactly one `@`, a domain, and a last `.` followed by at
   * least two letters.
   */
  lemma AcceptedEmailParts(email: string) returns (local: string, domain: string, top: string)
    requires EmailError(email).None?
    ensures email == local + "@" + domain + "." + top
    ensures LocalPart(local) && DomainPart(domain) && TopLevel(top)
    ensures '@' !in local && '@' !in domain && '@' !in top
  {
    var i, j :| MatchesAt(email, i, j);
    local, domain, top := email[..i], email[i + 1..j], email[j + 1..];
    assert email == local + "@" + domain + "." + top;
  }

  /**
   * The password field's error: `Senha é obrigatória` for an empty field, the minimum-length
   * message for one or two characters, and none from three on.
   */
  function PasswordError(password: string): (err: Option<string>)
    ensures err == Some(PasswordRequired) <==> password == ""
    ensures err == Some(PasswordTooShort) <==> 0 < |password| < PasswordMinLength
    ensures err.None? <==> |password| >= PasswordMinLength
  {
    if password == "" then Some(PasswordRequired)
    else if |password| < PasswordMinLength then Some(PasswordTooShort)
    else None
  }

  /** A toast notification. */
  datatype Toast = Success(text: string) | Failure(text: string)

  /** The state of the login form. */
  class LoginForm {
    var loading: bool
    /** The page the router was last sent to, if any. */
    var location: Option<string>
    /** The last toast shown, if any. */
    var toast: Option<Toast>

    constructor ()
      ensures !loading && location == None && toast == None
    {
      loading := false;
      location := None;
      toast := None;
    }

    /** The start of `onSubmit`: the button shows its spinner. */
    method BeginSubmit()
      modifies this
      ensures loading
      ensures location == old(location) && toast == old(toast)
    {
      loading := true;
    }

    /**
     * The end of `onSubmit`, with the login call's reply (`None` when it threw): a success goes to
     * the dashboard, a failure shows its own message or a generic one, and a throw the internal
     * error.  Loading ends whatever the outcome.
     */
    method FinishSubmit(reply: Option<ApiResponse<User>>)
      modifies this
      ensures !loading
      ensures reply.Some? && reply.value.Ok? ==> toast == Some(Success(LoginSucceeded)) && location == Some(DashboardPath)
      ensures reply.Some? && reply.value.Err?
              ==> && toast == Some(Failure(if reply.value.error != "" then reply.value.error else LoginFailed))
                  && location == old(location)
      ensures reply.None? ==> toast == Some(Failure(InternalError)) && location == old(location)
    {
      if reply.None? {
        toast := Some(Failure(InternalError));
      } else if reply.value.Ok? {
        toast := Some(Success(LoginSucceeded));
        location := Some(DashboardPath);
      } else if reply.value.error != "" {
        toast := Some(Failure(reply.value.error));
      } else {
        toast := Some(Failure(LoginFailed));
      }
      loading := false;
    }

    /**
     * A press of the submit button.  `email` is the field's value after the browser's sanitisation,
     * and `browserAccepts` is the verdict of the browser's own check of the `type="email"` field,
     * which runs before the form's rules.  When the browser refuses or a field is in error, nothing
     * is sent and nothing changes; otherwise the submission runs to its end.  Either way the form
     * is not loading afterwards when it was not before.
     */
    method Submit(email: string, password: string, browserAccepts: bool, reply: Option<ApiResponse<User>>)
      returns (sent: bool)
      modifies this
      ensures sent <==> browserAccepts && EmailError(email).None? && PasswordError(password).None?
      ensures !sent ==> loading == old(loading) && location == old(location) && toast == old(toast)
      ensures sent ==> !loading
      ensures sent && reply.Some? && reply.value.Ok? ==> location == Some(DashboardPath)
    {
      if browserAccepts && EmailError(email).None? && PasswordError(password).None? {
        BeginSubmit();
        FinishSubmit(reply);
        sent := true;
      } else {
        sent := false;
      }
    }
  }
}
