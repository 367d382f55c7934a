/**
 * The sign-up page: the password-strength indicator drawn under the password
 * field, and the checks `register` makes before it posts the credentials.
 */
module RegisterPage {
  import opened Common
  import opened Seqs
  import opened Text

  // ---------------------------------------------------------------- strength

  predicate IsUpperAscii(c: char) { 'A' <= c <= 'Z' }
  predicate IsDigitAscii(c: char) { '0' <= c <= '9' }
  predicate IsAlphaNumeric(c: char) { 'a' <= c <= 'z' || IsUpperAscii(c) || IsDigitAscii(c) }

  /** The four criteria in source order: length of at least 8, `[A-Z]`, `[0-9]`, `[^A-Za-z0-9]`. */
  function Criteria(password: string): (cs: seq<bool>)
    ensures |cs| == 4
    ensures cs[0] <==> |password| >= 8
    ensures cs[1] <==> exists i :: 0 <= i < |password| && IsUpperAscii(password[i])
    ensures cs[2] <==> exists i :: 0 <= i < |password| && IsDigitAscii(password[i])
    ensures cs[3] <==> exists i :: 0 <= i < |password| && !IsAlphaNumeric(password[i])
  {
    [ |password| >= 8,
      exists i :: 0 <= i < |password| && IsUpperAscii(password[i]),
      exists i :: 0 <= i < |password| && IsDigitAscii(password[i]),
      exists i :: 0 <= i < |password| && !IsAlphaNumeric(password[i]) ]
  }

  function IsSet(b: bool): bool { b }

  /** `.filter(Boolean).length` over the criteria. */
  function Score(password: string): (s: nat)
    ensures s <= 4
  {
    |Filter(Criteria(password), IsSet)|
  }

  function Indicator(b: bool): nat { if b then 1 else 0 }

  /** The score is the number of criteria met, counted one by one, and so lies in 0..4. */
  lemma ScoreCountsCriteria(password: string)
    ensures var cs := Criteria(password);
            Score(password) == Indicator(cs[0]) + Indicator(cs[1]) + Indicator(cs[2]) + Indicator(cs[3])
    ensures Score(password) <= 4
  {
    var cs := Criteria(password);
    assert cs == [cs[0]] + [cs[1]] + [cs[2]] + [cs[3]];
    FilterAppend([cs[0]] + [cs[1]] + [cs[2]], [cs[3]], IsSet);
    FilterAppend([cs[0]] + [cs[1]], [cs[2]], IsSet);
    FilterAppend([cs[0]], [cs[1]], IsSet);
  }

  /** The score is 4 exactly when all four criteria hold, and 0 exactly when none does. */
  lemma FullScore(password: string)
    ensures Score(password) == 4 <==> forall k :: 0 <= k < 4 ==> Criteria(password)[k]
    ensures Score(password) == 0 <==> forall k :: 0 <= k < 4 ==> !Criteria(password)[k]
  {
    ScoreCountsCriteria(password);
  }

  /** The palette the indicator uses. */
  const Rose := "#C0392B"
  const Gold := "#B8860B"
  const Teal := "#0D7A6B"
  const Green := "#1A7A3C"
  const Silk := "#EAE9E4"
  const Stone := "#9B9A94"

  const Labels: seq<string> := ["Weak", "Fair", "Good", "Strong"]
  const Colors: seq<string> := [Rose, Gold, Teal, Green]

  /** What the indicator draws: four bars, a caption and its colour. */
  datatype Strength = Strength(bars: seq<string>, caption: string, captionColor: string)

  /** `PasswordStrength`: nothing for an empty password. */
  function PasswordStrength(password: string): (r: Option<Strength>)
    ensures r.None? <==> password == ""
  {
    if password == "" then None
    else
      ScoreCountsCriteria(password);
      var score := Score(password);
      Some(Strength(
        seq(4, i requires 0 <= i < 4 => if i < score then Colors[score - 1] else Silk),
        if score > 0 then ToUpper(Labels[score - 1]) else "",
        if score > 0 then Colors[score - 1] else Stone))
  }

  /** Whether a bar is drawn in colour rather than the empty grey. */
  function IsColoured(bar: string): bool { bar != Silk }

  /** A row of bars coloured exactly below `k` has `k` coloured bars. */
  lemma {:induction false} CountColoured(bars: seq<string>, k: nat)
    requires k <= |bars|
    requires forall i :: 0 <= i < |bars| ==> (IsColoured(bars[i]) <==> i < k)
    ensures |Filter(bars, IsColoured)| == k
  {
    if bars != [] {
      var n := |bars| - 1;
      assert bars == bars[..n] + [bars[n]];
      FilterAppend(bars[..n], [bars[n]], IsColoured);
      CountColoured(bars[..n], if k == |bars| then k - 1 else k);
    }
  }

  /** Exactly `score` of the four bars are coloured, all in the score's colour; the rest are grey. */
  lemma BarsShowScore(password: string)
    requires password != ""
    ensures var s := PasswordStrength(password).value; var score := Score(password);
            && |s.bars| == 4
            && (forall i :: 0 <= i < 4 ==> (IsColoured(s.bars[i]) <==> i < score))
            && (forall i :: 0 <= i < score ==> s.bars[i] == Colors[score - 1])
            && |Filter(s.bars, IsColoured)| == score
  {
    ScoreCountsCriteria(password);
    CountColoured(PasswordStrength(password).value.bars, Score(password));
  }

  /** The label names the score in capitals, and is empty for a score of 0. */
  lemma LabelNamesScore(password: string)
    requires password != ""
    ensures var caption := PasswordStrength(password).value.caption;
            && (Score(password) == 0 ==> caption == "")
            && (Score(password) == 1 ==> caption == "WEAK")
            && (Score(password) == 2 ==> caption == "FAIR")
            && (Score(password) == 3 ==> caption == "GOOD")
            && (Score(password) == 4 ==> caption == "STRONG")
  {
    ScoreCountsCriteria(password);
  }

  // ---------------------------------------------------------------- register

  const BothRequired := "Please provide both email and password"
  const TooShortPassword := "Password must be at least 6 characters"
  const RegistrationFailed := "Registration failed. Please try again."

  /** The error the checks before the request report, if any. */
  function PreCheck(email: string, password: string): (r: Option<string>)
    ensures r.None? <==> email != "" && |password| >= 6
  {
    if email == "" || password == "" then Some(BothRequired)
    else if |password| < 6 then Some(TooShortPassword)
    else None
  }

  /** A missing field is reported before a short password, even when the password is also short. */
  lemma PreCheckOrder(email: string, password: string)
    ensures email == "" || password == "" ==> PreCheck(email, password) == Some(BothRequired)
    ensures email != "" && 0 < |password| < 6 ==> PreCheck(email, password) == Some(TooShortPassword)
  {
  }

  /** A password scoring 4 is long enough to pass the length check. */
  lemma StrongPasswordPasses(email: string, password: string)
    requires email != "" && Score(password) == 4
    ensures PreCheck(email, password).None?
  {
    FullScore(password);
  }

  /** The reply to the registration request: success, or a failure with the server's message ("" when it has none). */
  datatype Reply = Registered | Refused(message: string)

  /** The page's state: the two fields, the error line, the busy flag, the success panel and the requests sent. */
  class Page {
    var email: string
    var password: string
    var error: string
    var loading: bool
    var isSuccess: bool
    var sent: seq<(string, string)>

    constructor ()
      ensures email == "" && password == "" && error == "" && !loading && !isSuccess && sent == []
    {
      email, password, error := "", "", "";
      loading, isSuccess := false, false;
      sent := [];
    }

    /**
     * `register`: clear the error, run the checks, then post the credentials. The
     * server's reply is a parameter.
     */
    method Register(reply: Reply)
      modifies this
      ensures email == old(email) && password == old(password)
      ensures PreCheck(email, password).Some? ==>
                && error == PreCheck(email, password).value
                && sent == old(sent) && loading == old(loading) && isSuccess == old(isSuccess)
      ensures PreCheck(email, password).None? ==>
                && sent == old(sent) + [(email, password)] && !loading
                && (reply.Registered? ==> isSuccess && error == "")
                && (reply.Refused? ==>
                      && isSuccess == old(isSuccess)
                      && error == if reply.message != "" then reply.message else RegistrationFailed)
    {
      error := "";
      if email == "" || password == "" {
        error := BothRequired;
        return;
      }
      if |password| < 6 {
        error := TooShortPassword;
        return;
      }
      loading := true;
      sent := sent + [(email, password)];
      match reply {
        case Registered =>
          isSuccess := true;
        case Refused(message) =>
          error := if message != "" then message else RegistrationFailed;
      }
      loading := false;
    }
  }
}
