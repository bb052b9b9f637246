/**
 * The credential policy of src/my_validators.py: two checks that walk an
 * ordered list of rules and report the message of the first rule that fails.
 */
module Validators {
  import opened Optional

  /** The result of a check: a status flag and a human-readable message. */
  datatype Verdict = Verdict(status: bool, message: string)

  const PasswordTooShort := "Password must have at least 8 characters"
  const PasswordNoLowercase := "Password must contain at least one lowercase letter"
  const PasswordNoUppercase := "Password must contain at least one uppercase letter"
  const PasswordNoNumber := "Password must contain at least one number"
  const PasswordNoSymbol := "Password must contain at least one symbol (!@#$%^&*)"
  const PasswordValid := "Valid Password"

  const UsernameTooShort := "Username must be at least 4 characters long"
  const UsernameNotAlphanumeric := "Username can only contain letters and numbers"
  const UsernameValid := "Valid Username"

  /** The message both checks start from before any rule is looked at. */
  const Placeholder := "empty"

  /** The character class `[!@#$%^&*()]`; inside a class `^` not in first place is a literal. */
  const PasswordSymbols := "!@#$%^&*()"

  /** The character classes the rules search for. */
  datatype CharClass = Lower | Upper | Digit | Symbol | Alphanumeric

  predicate InClass(c: char, k: CharClass) {
    match k
    case Lower => 'a' <= c <= 'z'
    case Upper => 'A' <= c <= 'Z'
    case Digit => '0' <= c <= '9'
    case Symbol => c in PasswordSymbols
    case Alphanumeric => 'a' <= c <= 'z' || 'A' <= c <= 'Z' || '0' <= c <= '9'
  }

  /** A regular-expression search for a one-character class succeeds. */
  predicate Found(s: string, k: CharClass) {
    exists i :: 0 <= i < |s| && InClass(s[i], k)
  }

  /** Every character of s is in the class. */
  predicate All(s: string, k: CharClass) {
    forall i :: 0 <= i < |s| ==> InClass(s[i], k)
  }

  /** Python's str.isalnum: false on the empty string, otherwise a test of each character in turn. */
  function IsAlnum(s: string): (r: bool)
    ensures r <==> |s| > 0 && All(s, Alphanumeric)
  {
    if |s| == 0 then false
    else InClass(s[0], Alphanumeric) && (|s| == 1 || IsAlnum(s[1..]))
  }

  /** The password check: the first failing rule, in order, decides the message. */
  function CheckPassword(password: string): (r: Verdict)
    ensures r.status <==>
      |password| >= 8 && Found(password, Lower) && Found(password, Upper)
      && Found(password, Digit) && Found(password, Symbol)
    ensures r.status <==> r.message == PasswordValid
    ensures r.message in {PasswordTooShort, PasswordNoLowercase, PasswordNoUppercase,
                          PasswordNoNumber, PasswordNoSymbol, PasswordValid}
    ensures r.message != Placeholder
  {
    if |password| < 8 then Verdict(false, PasswordTooShort)
    else if !Found(password, Lower) then Verdict(false, PasswordNoLowercase)
    else if !Found(password, Upper) then Verdict(false, PasswordNoUppercase)
    else if !Found(password, Digit) then Verdict(false, PasswordNoNumber)
    else if !Found(password, Symbol) then Verdict(false, PasswordNoSymbol)
    else Verdict(true, PasswordValid)
  }

  /** The username check: length first, then the alphanumeric test. */
  function CheckUsername(username: string): (r: Verdict)
    ensures r.status <==> |username| >= 4 && All(username, Alphanumeric)
    ensures r.status <==> r.message == UsernameValid
    ensures r.message in {UsernameTooShort, UsernameNotAlphanumeric, UsernameValid}
    ensures r.message != Placeholder
  {
    if |username| < 4 then Verdict(false, UsernameTooShort)
    else if !IsAlnum(username) then Verdict(false, UsernameNotAlphanumeric)
    else Verdict(true, UsernameValid)
  }

  // A table-driven reference semantics for both checks: a list of rules, each
  // with the message reported when it is the first to fail.

  datatype Test = AtLeast(n: nat) | Contains(k: CharClass) | Only(k: CharClass)
  datatype Rule = Rule(test: Test, failure: string)

  predicate Passes(s: string, t: Test) {
    match t
    case AtLeast(n) => |s| >= n
    case Contains(k) => Found(s, k)
    case Only(k) => All(s, k)
  }

  const PasswordRules: seq<Rule> := [
    Rule(AtLeast(8), PasswordTooShort),
    Rule(Contains(Lower), PasswordNoLowercase),
    Rule(Contains(Upper), PasswordNoUppercase),
    Rule(Contains(Digit), PasswordNoNumber),
    Rule(Contains(Symbol), PasswordNoSymbol)
  ]

  const UsernameRules: seq<Rule> := [
    Rule(AtLeast(4), UsernameTooShort),
    Rule(Only(Alphanumeric), UsernameNotAlphanumeric)
  ]

  /** The first rule of the list that s fails, if any. */
  function FirstFailure(rules: seq<Rule>, s: string): (r: Option<nat>)
    ensures r.None? <==> forall i :: 0 <= i < |rules| ==> Passes(s, rules[i].test)
    ensures r.Some? ==> r.value < |rules| && !Passes(s, rules[r.value].test)
                        && forall j :: 0 <= j < r.value ==> Passes(s, rules[j].test)
  {
    if rules == [] then None
    else if !Passes(s, rules[0].test) then Some(0)
    else match FirstFailure(rules[1..], s)
      case None => None
      case Some(k) => Some(k + 1)
  }

  /** The verdict a rule list gives: the message of the first failure, or success. */
  function Evaluate(rules: seq<Rule>, s: string, success: string): Verdict {
    match FirstFailure(rules, s)
    case None => Verdict(true, success)
    case Some(k) => Verdict(false, rules[k].failure)
  }

  /** The password check agrees with its rule table read in order. */
  lemma PasswordFollowsRuleOrder(password: string)
    ensures CheckPassword(password) == Evaluate(PasswordRules, password, PasswordValid)
  {
    if |password| < 8 {
      assert !Passes(password, PasswordRules[0].test);
    } else if !Found(password, Lower) {
      assert Passes(password, PasswordRules[0].test);
      assert !Passes(password, PasswordRules[1].test);
    } else if !Found(password, Upper) {
      assert Passes(password, PasswordRules[1].test);
      assert !Passes(password, PasswordRules[2].test);
    } else if !Found(password, Digit) {
      assert Passes(password, PasswordRules[2].test);
      assert !Passes(password, PasswordRules[3].test);
    } else if !Found(password, Symbol) {
      assert Passes(password, PasswordRules[3].test);
      assert !Passes(password, PasswordRules[4].test);
    } else {
      assert forall i :: 0 <= i < |PasswordRules| ==> Passes(password, PasswordRules[i].test);
    }
  }

  /** The username check agrees with its rule table read in order. */
  lemma UsernameFollowsRuleOrder(username: string)
    ensures CheckUsername(username) == Evaluate(UsernameRules, username, UsernameValid)
  {
    if |username| < 4 {
      assert !Passes(username, UsernameRules[0].test);
    } else if !IsAlnum(username) {
      assert Passes(username, UsernameRules[0].test);
      assert !Passes(username, UsernameRules[1].test);
    } else {
      assert forall i :: 0 <= i < |UsernameRules| ==> Passes(username, UsernameRules[i].test);
    }
  }

  /** A password shorter than 8 characters is refused for its length, whatever it contains. */
  lemma ShortPasswordRefused(password: string)
    requires |password| < 8
    ensures CheckPassword(password) == Verdict(false, PasswordTooShort)
  {
  }

  /** A username shorter than 4 characters is refused for its length, even when it holds symbols. */
  lemma ShortUsernameRefused(username: string)
    requires |username| < 4
    ensures CheckUsername(username) == Verdict(false, UsernameTooShort)
  {
  }

  /** A password with all four kinds of character and enough length is accepted. */
  lemma AcceptedPasswordSample()
    ensures CheckPassword("Password1!") == Verdict(true, PasswordValid)
  {
    var s := "Password1!";
    assert InClass(s[0], Upper) && InClass(s[1], Lower) && InClass(s[8], Digit) && InClass(s[9], Symbol);
  }

  /** Sample passwords each missing one kind of character, and the rule that reports it. */
  lemma RefusedPasswordSamples()
    ensures CheckPassword("password1!") == Verdict(false, PasswordNoUppercase)
    ensures CheckPassword("PASSWORD1!") == Verdict(false, PasswordNoLowercase)
    ensures CheckPassword("Password!") == Verdict(false, PasswordNoNumber)
    ensures CheckPassword("Password1") == Verdict(false, PasswordNoSymbol)
  {
    NoUppercaseSample();
    NoLowercaseSample();
    NoNumberSample();
    NoSymbolSample();
  }

  lemma NoUppercaseSample()
    ensures !Found("password1!", Upper) && Found("password1!", Lower)
  {
    var s := "password1!";
    assert InClass(s[0], Lower);
  }

  lemma NoLowercaseSample()
    ensures !Found("PASSWORD1!", Lower)
  {
  }

  lemma NoNumberSample()
    ensures !Found("Password!", Digit) && Found("Password!", Lower) && Found("Password!", Upper)
  {
    var s := "Password!";
    assert InClass(s[0], Upper) && InClass(s[1], Lower);
  }

  lemma NoSymbolSample()
    ensures !Found("Password1", Symbol) && Found("Password1", Lower)
    ensures Found("Password1", Upper) && Found("Password1", Digit)
  {
    var s := "Password1";
    assert InClass(s[0], Upper) && InClass(s[1], Lower) && InClass(s[8], Digit);
  }

  /** The sample usernames and the verdicts they get. */
  lemma UsernameSamples()
    ensures CheckUsername("abc") == Verdict(false, UsernameTooShort)
    ensures CheckUsername("ab_c") == Verdict(false, UsernameNotAlphanumeric)
    ensures CheckUsername("user1") == Verdict(true, UsernameValid)
  {
    assert !InClass("ab_c"[2], Alphanumeric);
  }
}
