/**
 * The hand-written input checks of the single-file application (`app.py`):
 * an e-mail needs something before its first '@' and a '.' somewhere after it;
 * a password needs an upper-case letter and one of the characters "!@#$%&*?.".
 */
module Validation {
  import opened Wrappers
  import opened Strings

  /** The characters that count as "special" in a password. */
  const Specials: string := "!@#$%&*?."

  /**
   * `validar_email`: false without an '@' or when the first '@' is the first
   * character; otherwise true exactly when a '.' occurs at or after that '@'.
   * Nothing else is looked at, so "user@.com" passes.
   */
  function ValidEmail(email: string): (r: bool)
    ensures r <==> exists p :: 0 < p < |email| && email[p] == '@' && '@' !in email[..p] && '.' in email[p..]
  {
    match IndexOf(email, '@')
    case None => false
    case Some(p) =>
      if p == 0 then
        assert forall q :: 0 < q < |email| && email[q] == '@' ==> email[..q][0] == '@';
        false
      else
        '.' in email[p..]
  }

  /** `validar_password` as a statement about the whole string. */
  predicate StrongPassword(password: string) {
    HasUpper(password) && exists i :: 0 <= i < |password| && password[i] in Specials
  }

  /**
   * `validar_password`: one pass over the characters, setting (never clearing) a
   * flag for an upper-case letter and one for a special character.
   */
  method CheckPassword(password: string) returns (ok: bool)
    ensures ok <==> StrongPassword(password)
  {
    var hasUpper := false;
    var hasSpecial := false;
    for k := 0 to |password|
      invariant hasUpper <==> exists i :: 0 <= i < k && IsUpper(password[i])
      invariant hasSpecial <==> exists i :: 0 <= i < k && password[i] in Specials
    {
      if IsUpper(password[k]) {
        hasUpper := true;
      }
      if password[k] in Specials {
        hasSpecial := true;
      }
    }
    ok := hasUpper && hasSpecial;
  }

  /** The check is looser than the regular-expression one: "user@.com" is accepted. */
  lemma AcceptsDotRightAfterAt()
    ensures ValidEmail("user@.com")
  {
    assert "user@.com"[4] == '@' && "user@.com"[4..][1] == '.';
    assert "user@.com"[..4] == "user";
  }

  lemma AcceptsPlainAddress()
    ensures ValidEmail("user@x.co")
  {
    assert "user@x.co"[4] == '@' && "user@x.co"[4..][2] == '.';
    assert "user@x.co"[..4] == "user";
  }

  lemma RejectsMissingDomain()
    ensures !ValidEmail("user@")
  {
    assert "user@"[4..] == "@";
  }

  lemma RejectsEmptyLocalPart()
    ensures !ValidEmail("@x.com")
  {
    assert "@x.com"[..0] == "";
  }
}
