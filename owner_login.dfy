/**
 * The login page (app/owner/login/page.tsx): two text fields, one error
 * message, and a handler that either reports the first failing check or
 * navigates to the OTP page.
 */
module OwnerLogin {
  import opened Wrappers
  import opened JsStrings

  datatype LoginPage = LoginPage(gmail: string, password: string, error: string, route: Option<string>)

  const InitialPage := LoginPage("", "", "", None)

  const GmailSuffix := "@gmail.com"
  const MinPasswordLength := 6
  const GmailNotFound := "Gmail not found"
  const IncorrectPassword := "Incorrect password, try again"
  const OtpRoute := "/owner/otp"

  /** `handleLogin`: the gmail check comes first, then the password length. */
  function HandleLogin(p: LoginPage): (r: LoginPage)
    ensures r.gmail == p.gmail && r.password == p.password
    ensures EndsWith(p.gmail, GmailSuffix) && Utf16Length(p.password) >= MinPasswordLength ==>
      r.route == Some(OtpRoute) && r.error == ""
    ensures !(EndsWith(p.gmail, GmailSuffix) && Utf16Length(p.password) >= MinPasswordLength) ==>
      r.route == p.route && r.error != ""
    ensures r.error == GmailNotFound <==> !EndsWith(p.gmail, GmailSuffix)
    ensures r.error == IncorrectPassword <==>
      EndsWith(p.gmail, GmailSuffix) && Utf16Length(p.password) < MinPasswordLength
  {
    if !EndsWith(p.gmail, GmailSuffix) then p.(error := GmailNotFound)
    else if Utf16Length(p.password) < MinPasswordLength then p.(error := IncorrectPassword)
    else p.(error := "", route := Some(OtpRoute))
  }

  /** Typing in the gmail field clears the error. */
  function EditGmail(p: LoginPage, value: string): (r: LoginPage)
    ensures r.gmail == value && r.error == ""
    ensures r.password == p.password && r.route == p.route
  {
    p.(gmail := value, error := "")
  }

  /** Typing in the password field clears the error. */
  function EditPassword(p: LoginPage, value: string): (r: LoginPage)
    ensures r.password == value && r.error == ""
    ensures r.gmail == p.gmail && r.route == p.route
  {
    p.(password := value, error := "")
  }

  /**
   * The suffix test is case-sensitive: an upper-case letter anywhere among
   * the last ten characters of the gmail means "Gmail not found".
   */
  lemma UpperCaseDomainRefused(p: LoginPage, i: nat)
    requires |p.gmail| - |GmailSuffix| <= i < |p.gmail|
    requires 'A' <= p.gmail[i] <= 'Z'
    ensures HandleLogin(p).error == GmailNotFound
  {
  }

  /** A password of six characters is long enough; five is not. */
  lemma PasswordBoundary(gmail: string)
    requires EndsWith(gmail, GmailSuffix)
    ensures HandleLogin(InitialPage.(gmail := gmail, password := "abcdef")).route == Some(OtpRoute)
    ensures HandleLogin(InitialPage.(gmail := gmail, password := "abcde")).error == IncorrectPassword
  {
  }
}
