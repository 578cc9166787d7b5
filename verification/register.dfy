/**
 * The registration form (`RegisterPage`): the order of its two checks and
 * the password strength meter. The collected data is only logged; sending it
 * is not part of the page.
 */
module RegisterPage {

  const PasswordsDiffer := "Passwords do not match"
  const TermsMissing := "Please agree to the Terms of Service and Privacy Policy"

  /** What a press of the register button leads to. */
  datatype Outcome = Alert(message: string) | GoToSignIn

  /** `onRegister()`: the password mismatch is reported first, then the missing agreement. */
  function OnRegister(password: string, confirmPassword: string, agreeToTerms: bool): (r: Outcome)
    ensures password != confirmPassword ==> r == Alert(PasswordsDiffer)
    ensures password == confirmPassword && !agreeToTerms ==> r == Alert(TermsMissing)
    ensures r == GoToSignIn <==> password == confirmPassword && agreeToTerms
  {
    if password != confirmPassword then Alert(PasswordsDiffer)
    else if !agreeToTerms then Alert(TermsMissing)
    else GoToSignIn
  }

  /** The agreement box matters only once the passwords match. */
  lemma MismatchHidesTerms(password: string, confirmPassword: string, a: bool, b: bool)
    requires password != confirmPassword
    ensures OnRegister(password, confirmPassword, a) == OnRegister(password, confirmPassword, b)
  {
  }

  /** `getPasswordStrength()`. */
  function PasswordStrength(password: string): (r: string)
    ensures r == "" <==> |password| == 0
    ensures r == "Weak" <==> 0 < |password| < 6
    ensures r == "Medium" <==> 6 <= |password| < 10
    ensures r == "Strong" <==> |password| >= 10
  {
    if |password| == 0 then "" else if |password| < 6 then "Weak" else if |password| < 10 then "Medium" else "Strong"
  }

  /** The meter's levels in order. */
  function Rank(strength: string): nat {
    if strength == "Weak" then 1 else if strength == "Medium" then 2 else if strength == "Strong" then 3 else 0
  }

  /** A longer password never rates weaker. */
  lemma StrengthMonotone(a: string, b: string)
    requires |a| <= |b|
    ensures Rank(PasswordStrength(a)) <= Rank(PasswordStrength(b))
  {
  }

  /** Only the length counts: passwords of the same length rate the same. */
  lemma StrengthDependsOnLength(a: string, b: string)
    requires |a| == |b|
    ensures PasswordStrength(a) == PasswordStrength(b)
  {
  }
}
