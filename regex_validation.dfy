/**
 * The regular-expression input checks of the Flask application
 * (`app_flask/app.py`), for ASCII text:
 *
 *   e-mail    ^[\w.-]+@[\w.-]+\.\w{2,}$
 *   password  ^(?=.*[A-Z])(?=.*\d).{6,}$
 *
 * Each pattern is given twice: as the set of strings the pattern describes
 * (a ghost predicate that follows the pattern piece by piece, with the
 * backtracking matcher's freedom written as `exists`), and as the
 * deterministic check the program uses; a lemma proves them equal.
 * `$` matches at the end of the string or just before a final '\n', as it
 * does in Python's `re`; `\w` is [A-Za-z0-9_] and `\d` is [0-9].
 */
module RegexValidation {
  import opened Wrappers
  import opened Strings

  /** `\w` */
  predicate IsWordChar(c: char) {
    IsUpper(c) || IsLower(c) || IsDigit(c) || c == '_'
  }

  /** `[\w.-]` */
  predicate IsNameChar(c: char) {
    IsWordChar(c) || c == '.' || c == '-'
  }

  predicate AllWord(s: string) {
    forall i :: 0 <= i < |s| ==> IsWordChar(s[i])
  }

  predicate AllName(s: string) {
    forall i :: 0 <= i < |s| ==> IsNameChar(s[i])
  }

  predicate NoNewline(s: string) {
    '\n' !in s
  }

  /** `$` matches at position `n` of `s`. */
  predicate EndAnchor(s: string, n: int) {
    n == |s| || (0 <= n == |s| - 1 && s[n] == '\n')
  }

  // ---------------------------------------------------------------- e-mail

  /** `[\w.-]+\.\w{2,}` matches all of `d`. */
  ghost predicate DomainPattern(d: string) {
    exists k :: 1 <= k && k + 3 <= |d| && d[k] == '.' && AllName(d[..k]) && AllWord(d[k + 1..])
  }

  /** `[\w.-]+@` followed by the domain part matches all of `t`. */
  ghost predicate AddressPattern(t: string) {
    exists i :: 1 <= i < |t| && t[i] == '@' && AllName(t[..i]) && DomainPattern(t[i + 1..])
  }

  /** `re.match(r"^[\w.-]+@[\w.-]+\.\w{2,}$", s)` succeeds. */
  ghost predicate EmailPattern(s: string) {
    exists n :: 0 <= n <= |s| && EndAnchor(s, n) && AddressPattern(s[..n])
  }

  /** The string without one final '\n', if it has one. */
  function Chomp(s: string): (r: string)
    ensures r == s || (|s| > 0 && s[|s| - 1] == '\n' && r == s[..|s| - 1])
    ensures EndAnchor(s, |r|) && r == s[..|r|]
    ensures |s| > 0 && s[|s| - 1] == '\n' ==> |r| == |s| - 1
  {
    if |s| > 0 && s[|s| - 1] == '\n' then s[..|s| - 1] else s
  }

  /** The position of the last character of `s` outside `\w`. */
  function LastNonWord(s: string): (r: Option<nat>)
    ensures r.None? <==> AllWord(s)
    ensures r.Some? ==> r.value < |s| && !IsWordChar(s[r.value]) && AllWord(s[r.value + 1..])
  {
    if |s| == 0 then None
    else if !IsWordChar(s[|s| - 1]) then Some(|s| - 1)
    else
      var r := LastNonWord(s[..|s| - 1]);
      assert r.Some? ==> s[r.value + 1..] == s[..|s| - 1][r.value + 1..] + [s[|s| - 1]];
      r
  }

  /** The domain part: only name characters, the last non-word one a '.' with a name before it and two word characters after it. */
  function DomainOk(d: string): bool {
    AllName(d) &&
    match LastNonWord(d)
    case None => false
    case Some(k) => 1 <= k && k + 3 <= |d| && d[k] == '.'
  }

  /** Everything before the first '@' is a non-empty name, everything after it a domain. */
  function AddressOk(t: string): bool {
    match IndexOf(t, '@')
    case None => false
    case Some(i) => 1 <= i && AllName(t[..i]) && DomainOk(t[i + 1..])
  }

  /** `validar_email` of the Flask application. */
  function ValidEmail(email: string): bool {
    AddressOk(Chomp(email))
  }

  lemma {:induction false} DomainOkIsPattern(d: string)
    ensures DomainOk(d) <==> DomainPattern(d)
  {
    if DomainOk(d) {
      var k := LastNonWord(d).value;
      assert AllName(d[..k]);
    }
    if DomainPattern(d) {
      var k :| 1 <= k && k + 3 <= |d| && d[k] == '.' && AllName(d[..k]) && AllWord(d[k + 1..]);
      forall i | 0 <= i < |d| ensures IsNameChar(d[i]) {
        if i < k { assert d[..k][i] == d[i]; }
        if i > k { assert d[k + 1..][i - k - 1] == d[i]; }
      }
      var r := LastNonWord(d);
      if r.None? {
        assert !IsWordChar(d[k]);
      } else if r.value < k {
        assert !IsWordChar(d[k]);
      }
    }
  }

  /** An '@' with only name characters before it is the first '@'. */
  lemma OnlyFirstAt(t: string, j: nat)
    requires j < |t| && t[j] == '@' && AllName(t[..j])
    ensures IndexOf(t, '@') == Some(j)
  {
  }

  lemma AddressOkSound(t: string)
    requires AddressOk(t)
    ensures AddressPattern(t)
  {
    var i := IndexOf(t, '@').value;
    DomainOkIsPattern(t[i + 1..]);
    assert 1 <= i < |t| && t[i] == '@' && AllName(t[..i]) && DomainPattern(t[i + 1..]);
  }

  lemma AddressOkComplete(t: string)
    requires AddressPattern(t)
    ensures AddressOk(t)
  {
    var j :| 1 <= j < |t| && t[j] == '@' && AllName(t[..j]) && DomainPattern(t[j + 1..]);
    var d := t[j + 1..];
    DomainOkIsPattern(d);
    OnlyFirstAt(t, j);
  }

  lemma AddressOkIsPattern(t: string)
    ensures AddressOk(t) <==> AddressPattern(t)
  {
    if AddressOk(t) { AddressOkSound(t); }
    if AddressPattern(t) { AddressOkComplete(t); }
  }

  /** A matched address ends in `\w`, so never in the '\n' that `$` may leave behind. */
  lemma AddressEndsWithWordChar(u: string)
    requires AddressPattern(u)
    ensures |u| > 0 && IsWordChar(u[|u| - 1])
  {
    var i :| 1 <= i < |u| && u[i] == '@' && AllName(u[..i]) && DomainPattern(u[i + 1..]);
    var d := u[i + 1..];
    var k :| 1 <= k && k + 3 <= |d| && d[k] == '.' && AllName(d[..k]) && AllWord(d[k + 1..]);
    assert d[k + 1..][|d| - k - 2] == u[|u| - 1];
  }

  /** The deterministic check accepts exactly the strings the e-mail pattern matches. */
  lemma {:induction false} ValidEmailMatchesPattern(email: string)
    ensures ValidEmail(email) <==> EmailPattern(email)
  {
    var t := Chomp(email);
    AddressOkIsPattern(t);
    if EmailPattern(email) {
      var n :| 0 <= n <= |email| && EndAnchor(email, n) && AddressPattern(email[..n]);
      AddressEndsWithWordChar(email[..n]);
      assert n == |t|;
    }
    if ValidEmail(email) {
      assert email[..|t|] == t;
    }
  }

  /** Every `name@name.tld` with a non-empty name part, ASCII name characters and a top-level part of two or more word characters is accepted. */
  lemma {:induction false} AcceptsWellFormedAddress(local: string, host: string, tld: string)
    requires |local| >= 1 && AllName(local)
    requires |host| >= 1 && AllName(host)
    requires |tld| >= 2 && AllWord(tld)
    ensures ValidEmail(local + "@" + host + "." + tld)
  {
    var d := host + "." + tld;
    var e := local + "@" + d;
    assert e == local + "@" + host + "." + tld;
    assert e[|e| - 1] == d[|d| - 1] == tld[|tld| - 1];
    assert Chomp(e) == e;
    assert e[..|local|] == local && e[|local|] == '@' && e[|local| + 1..] == d;
    assert d[..|host|] == host && d[|host|] == '.' && d[|host| + 1..] == tld;
    DomainOkIsPattern(d);
    OnlyFirstAt(e, |local|);
  }

  lemma AcceptsPlainAddress()
    ensures ValidEmail("user@example.com")
  {
    var local, host, tld := "user", "example", "com";
    assert local + "@" + host + "." + tld == "user@example.com";
    assert AllName(local) && AllName(host) && AllWord(tld);
    AcceptsWellFormedAddress(local, host, tld);
  }

  lemma AcceptsUnderscoreAndSubdomain()
    ensures ValidEmail("test_user@domain.co.uk")
  {
    var local, host, tld := "test_user", "domain.co", "uk";
    assert local + "@" + host + "." + tld == "test_user@domain.co.uk";
    assert AllName(local) && AllName(host) && AllWord(tld);
    AcceptsWellFormedAddress(local, host, tld);
  }

  lemma AcceptsDottedLocalPart()
    ensures ValidEmail("juan.perez@gmail.com")
  {
    var local, host, tld := "juan.perez", "gmail", "com";
    assert local + "@" + host + "." + tld == "juan.perez@gmail.com";
    assert AllName(local) && AllName(host) && AllWord(tld);
    AcceptsWellFormedAddress(local, host, tld);
  }

  lemma RejectsAddressWithoutAt()
    ensures !ValidEmail("bad-email")
  {
    assert '@' !in "bad-email";
    assert Chomp("bad-email") == "bad-email";
  }

  lemma RejectsEmptyDomain()
    ensures !ValidEmail("user@")
  {
    assert Chomp("user@") == "user@";
    assert "user@"[..4] == "user";
    OnlyFirstAt("user@", 4);
    assert "user@"[5..] == "";
  }

  lemma RejectsEmptyLocalPart()
    ensures !ValidEmail("@example.com")
  {
    assert Chomp("@example.com") == "@example.com";
  }

  lemma RejectsDotRightAfterAt()
    ensures !ValidEmail("user@.com")
  {
    assert Chomp("user@.com") == "user@.com";
    assert "user@.com"[..4] == "user";
    OnlyFirstAt("user@.com", 4);
    assert "user@.com"[5..] == ".com";
    DomainOkIsPattern(".com");
  }

  // -------------------------------------------------------------- password

  /** `re.match(r"^(?=.*[A-Z])(?=.*\d).{6,}$", s)` succeeds (`.` never matches '\n'). */
  ghost predicate PasswordPattern(s: string) {
    (exists j :: 0 <= j < |s| && NoNewline(s[..j]) && IsUpper(s[j])) &&
    (exists j :: 0 <= j < |s| && NoNewline(s[..j]) && IsDigit(s[j])) &&
    (exists n :: 6 <= n <= |s| && NoNewline(s[..n]) && EndAnchor(s, n))
  }

  /**
   * `validar_password` of the Flask application. On a string without newlines:
   * at least six characters, one of them in A-Z and one in 0-9.
   */
  function ValidPassword(password: string): (r: bool)
    ensures NoNewline(password) ==> (r <==> |password| >= 6 && HasUpper(password) && HasDigit(password))
  {
    var t := Chomp(password);
    assert NoNewline(password) ==> t == password by {
      if NoNewline(password) && |password| > 0 { assert password[|password| - 1] in password; }
    }
    |t| >= 6 && NoNewline(t) && HasUpper(t) && HasDigit(t)
  }

  /** The deterministic check accepts exactly the strings the password pattern matches. */
  lemma {:induction false} ValidPasswordMatchesPattern(password: string)
    ensures ValidPassword(password) <==> PasswordPattern(password)
  {
    var s, t := password, Chomp(password);
    if ValidPassword(s) {
      var j :| 0 <= j < |t| && IsUpper(t[j]);
      assert s[..j] == t[..j];
      var m :| 0 <= m < |t| && IsDigit(t[m]);
      assert s[..m] == t[..m];
      assert s[..|t|] == t;
    }
    if PasswordPattern(s) {
      var n :| 6 <= n <= |s| && NoNewline(s[..n]) && EndAnchor(s, n);
      if n == |s| {
        assert s[..n] == s;
        if |s| > 0 { assert s[|s| - 1] in s[..n]; }
      }
      assert t == s[..n];
      var j :| 0 <= j < |s| && NoNewline(s[..j]) && IsUpper(s[j]);
      var m :| 0 <= m < |s| && NoNewline(s[..m]) && IsDigit(s[m]);
      assert j < n && m < n;
      assert t[j] == s[j] && t[m] == s[m];
    }
  }

  lemma AcceptsPasswordExamples()
    ensures ValidPassword("MyPass9") && ValidPassword("Password1") && ValidPassword("Secure123")
  {
    assert "MyPass9"[0] == 'M' && "MyPass9"[6] == '9';
    assert "Password1"[0] == 'P' && "Password1"[8] == '1';
    assert "Secure123"[0] == 'S' && "Secure123"[6] == '1';
  }

  lemma RejectsPasswordExamples()
    ensures !ValidPassword("Pass1") && !ValidPassword("PASSWORD") && !ValidPassword("password123")
    ensures !ValidPassword("pass")
  {
    assert forall i :: 0 <= i < 8 ==> !IsDigit("PASSWORD"[i]);
    assert forall i :: 0 <= i < 11 ==> !IsUpper("password123"[i]);
  }
}
