/**
 * Verification codes (python_api/services/email_service.py): drawing a numeric code, the
 * one-minute resend throttle, the expiry written with each code, and single-use verification.
 * The clock is the `now` parameter (seconds), the random draws are the `draw` parameter, and
 * the SMTP exchange is reduced to its outcome.
 */
module EmailService {
  import opened Wrappers
  import opened SocialDb
  import Text

  /** generate_code's default length. */
  const CodeLength: nat := 6
  /** A second code for the same address and purpose is refused within this many seconds. */
  const ResendSeconds: int := 60
  const RegisterSubject: string := "【方言宝】注册验证码"
  const ResetSubject: string := "【方言宝】重置密码验证码"

  /** An index into "0123456789", as one random choice picks it. */
  type DigitIndex = d: nat | d < 10

  /**
   * generate_code: `random.choices(string.digits, k=length)` joined. draw(i) is the i-th random
   * choice; a negative length draws nothing.
   */
  function GenerateCode(length: int, draw: nat -> DigitIndex): (r: string)
    ensures |r| == Max(0, length)
    ensures forall i :: 0 <= i < |r| ==> Text.IsAsciiDigit(r[i]) && Text.DigitValue(r[i]) == draw(i)
  {
    if length <= 0 then "" else var n := length - 1; GenerateCode(n, draw) + [Text.DigitChar(draw(n))]
  }

  /** The draws that read a digit string back: the value of its i-th digit. */
  function DrawsOf(s: string): nat -> DigitIndex {
    (i: nat) => if i < |s| && Text.IsAsciiDigit(s[i]) then Text.DigitValue(s[i]) else 0
  }

  /** Every string of digits is the code drawn by some sequence of draws: no code is unreachable. */
  lemma EveryCodeCanBeDrawn(s: string)
    requires forall i :: 0 <= i < |s| ==> Text.IsAsciiDigit(s[i])
    ensures GenerateCode(|s|, DrawsOf(s)) == s
  {
    var r := GenerateCode(|s|, DrawsOf(s));
    forall i | 0 <= i < |s|
      ensures r[i] == s[i]
    {
      assert Text.DigitValue(r[i]) == Text.DigitValue(s[i]);
    }
  }

  // ---------------------------------------------------------------------------------------
  // ORDER BY created_at DESC LIMIT 1
  // ---------------------------------------------------------------------------------------

  /** The id of the most recent row satisfying keep (rows are in created_at order), if any. */
  function Latest(rows: seq<CodeRow>, keep: CodeRow -> bool): (r: Option<nat>)
    ensures r.Some? ==> 1 <= r.value <= |rows| && keep(rows[r.value - 1])
    ensures r.Some? ==> forall j :: r.value <= j < |rows| ==> !keep(rows[j])
    ensures r.None? ==> forall j :: 0 <= j < |rows| ==> !keep(rows[j])
  {
    if rows == [] then None
    else if keep(rows[|rows| - 1]) then Some(|rows|)
    else Latest(rows[..|rows| - 1], keep)
  }

  /** A Some result of Latest names one of the rows that Matching lists. */
  lemma LatestIsAMatch(rows: seq<CodeRow>, keep: CodeRow -> bool)
    ensures Latest(rows, keep).Some? <==> |Matching(rows, keep)| > 0
  {
    if Latest(rows, keep).Some? {
      MatchingComplete(rows, keep, Latest(rows, keep).value - 1);
    }
  }

  // ---------------------------------------------------------------------------------------
  // send_verification_code
  // ---------------------------------------------------------------------------------------

  /** Rows for the same address and purpose. */
  function SameTarget(email: string, purpose: string): CodeRow -> bool {
    (c: CodeRow) => c.email == email && c.purpose == purpose
  }

  /** The latest code for (email, purpose) was created less than a minute before now. */
  predicate Throttled(codes: seq<CodeRow>, email: string, purpose: string, now: int) {
    var last := Latest(codes, SameTarget(email, purpose));
    last.Some? && now - codes[last.value - 1].createdAt < ResendSeconds
  }

  /** The mail subject: "register" has its own, every other purpose gets the reset one. */
  function Subject(purpose: string): (r: string)
    ensures r == RegisterSubject <==> purpose == "register"
    ensures r == ResetSubject <==> purpose != "register"
  {
    if purpose == "register" then RegisterSubject else ResetSubject
  }

  /** What the SMTP exchange ends in: sent, refused or failing (False) or no credentials (raises). */
  datatype Smtp = Delivered | Refused | Unconfigured

  /** The outcome dictionary of send_verification_code. */
  datatype SendResult = CodeSent | TooFrequent | MailFailed | SendFailed

  /**
   * The result once the row is stored: success only when the mail went out; a refused mail and
   * the RuntimeError of an unconfigured SMTP account are reported apart, the code row staying.
   */
  function Outcome(smtp: Smtp): (r: SendResult)
    ensures r != TooFrequent
    ensures r == CodeSent <==> smtp == Delivered
    ensures r == MailFailed <==> smtp == Refused
    ensures r == SendFailed <==> smtp == Unconfigured
  {
    match smtp
    case Delivered => CodeSent
    case Refused => MailFailed
    case Unconfigured => SendFailed
  }

  /** The message handed to send_email. */
  datatype Mail = Mail(to: string, subject: string, code: string)

  /** The row a successful send inserts: the new code, expiring expireMinutes after now. */
  function IssuedRow(email: string, purpose: string, now: int, expireMinutes: int, draw: nat -> DigitIndex): CodeRow {
    CodeRow(email, GenerateCode(CodeLength, draw), purpose, now + expireMinutes * 60, false, now)
  }

  /**
   * send_verification_code: refused with nothing inserted while the latest code for the same
   * address and purpose is under a minute old. Otherwise a fresh six-digit code is stored,
   * unused and expiring CODE_EXPIRE_MINUTES later, and mailed; the row stays whatever SMTP does.
   */
  method SendVerificationCode(db: Database, email: string, purpose: string, now: int, expireMinutes: int,
                              draw: nat -> DigitIndex, smtp: Smtp) returns (r: SendResult, mail: Option<Mail>)
    modifies db`codes
    ensures Throttled(old(db.codes), email, purpose, now) ==>
      r == TooFrequent && mail.None? && db.codes == old(db.codes)
    ensures !Throttled(old(db.codes), email, purpose, now) ==>
      db.codes == old(db.codes) + [IssuedRow(email, purpose, now, expireMinutes, draw)]
      && mail == Some(Mail(email, Subject(purpose), IssuedRow(email, purpose, now, expireMinutes, draw).code))
    ensures !Throttled(old(db.codes), email, purpose, now) ==> r == Outcome(smtp)
  {
    if Throttled(db.codes, email, purpose, now) {
      return TooFrequent, None;
    }
    var code := GenerateCode(CodeLength, draw);
    var expiresAt := now + expireMinutes * 60;
    db.codes := db.codes + [CodeRow(email, code, purpose, expiresAt, false, now)];
    var subject := Subject(purpose);
    mail := Some(Mail(email, subject, code));
    r := Outcome(smtp);
  }

  /** After a code is issued, the next request for the same target is refused exactly within the minute. */
  lemma ResendThrottle(codes: seq<CodeRow>, email: string, purpose: string, now: int, expireMinutes: int,
                       draw: nat -> DigitIndex, later: int)
    ensures Throttled(codes + [IssuedRow(email, purpose, now, expireMinutes, draw)], email, purpose, later)
        <==> later - now < ResendSeconds
  {
    var codes' := codes + [IssuedRow(email, purpose, now, expireMinutes, draw)];
    assert SameTarget(email, purpose)(codes'[|codes'| - 1]);
  }

  /** Requests for another address or purpose never throttle this one. */
  lemma OtherTargetsDoNotThrottle(codes: seq<CodeRow>, row: CodeRow, email: string, purpose: string, now: int)
    requires row.email != email || row.purpose != purpose
    ensures Throttled(codes + [row], email, purpose, now) == Throttled(codes, email, purpose, now)
  {
    assert (codes + [row])[..|codes|] == codes;
  }

  // ---------------------------------------------------------------------------------------
  // verify_code
  // ---------------------------------------------------------------------------------------

  /** `email = e AND code = c AND purpose = p AND used = FALSE AND expires_at > NOW()`. */
  function Usable(email: string, code: string, purpose: string, now: int): CodeRow -> bool {
    (c: CodeRow) => c.email == email && c.code == code && c.purpose == purpose && !c.used && c.expiresAt > now
  }

  /**
   * verify_code: succeeds exactly when some row is usable now; the latest such row is then
   * marked used and nothing else changes. A failed check writes nothing.
   */
  method VerifyCode(db: Database, email: string, code: string, purpose: string, now: int) returns (ok: bool)
    modifies db`codes
    ensures ok <==> exists i :: 0 <= i < |old(db.codes)| && Usable(email, code, purpose, now)(old(db.codes)[i])
    ensures !ok ==> db.codes == old(db.codes)
    ensures ok ==>
      var j := Latest(old(db.codes), Usable(email, code, purpose, now)).value;
      db.codes == old(db.codes)[j - 1 := old(db.codes)[j - 1].(used := true)]
  {
    var row := Latest(db.codes, Usable(email, code, purpose, now));
    if row.None? {
      return false;
    }
    db.codes := db.codes[row.value - 1 := db.codes[row.value - 1].(used := true)];
    ok := true;
  }

  /** A successful verification uses up exactly one of the usable rows. */
  lemma VerifyConsumesOne(codes: seq<CodeRow>, email: string, code: string, purpose: string, now: int)
    requires Latest(codes, Usable(email, code, purpose, now)).Some?
    ensures var j := Latest(codes, Usable(email, code, purpose, now)).value;
      |Matching(codes[j - 1 := codes[j - 1].(used := true)], Usable(email, code, purpose, now))| + 1
      == |Matching(codes, Usable(email, code, purpose, now))|
  {
    var j := Latest(codes, Usable(email, code, purpose, now)).value;
    MatchingUpdateCount(codes, j - 1, codes[j - 1].(used := true), Usable(email, code, purpose, now));
  }

  /** A code that was the only usable one cannot verify a second time. */
  lemma SingleUse(codes: seq<CodeRow>, email: string, code: string, purpose: string, now: int, later: int)
    requires Latest(codes, Usable(email, code, purpose, now)).Some?
    requires |Matching(codes, Usable(email, code, purpose, now))| == 1
    requires now <= later
    ensures var j := Latest(codes, Usable(email, code, purpose, now)).value;
      Latest(codes[j - 1 := codes[j - 1].(used := true)], Usable(email, code, purpose, later)).None?
  {
    var j := Latest(codes, Usable(email, code, purpose, now)).value;
    var codes' := codes[j - 1 := codes[j - 1].(used := true)];
    assert |Matching(codes', Usable(email, code, purpose, now))| == 0 by {
      VerifyConsumesOne(codes, email, code, purpose, now);
    }
    assert Latest(codes', Usable(email, code, purpose, now)).None? by {
      LatestIsAMatch(codes', Usable(email, code, purpose, now));
    }
    LaterStillUnusable(codes', email, code, purpose, now, later);
  }

  /** A row not usable now is not usable later: rows never become unused or unexpired again. */
  lemma LaterStillUnusable(codes: seq<CodeRow>, email: string, code: string, purpose: string, now: int, later: int)
    requires Latest(codes, Usable(email, code, purpose, now)).None? && now <= later
    ensures Latest(codes, Usable(email, code, purpose, later)).None?
  {
    forall j | 0 <= j < |codes|
      ensures !Usable(email, code, purpose, later)(codes[j])
    {
      assert !Usable(email, code, purpose, now)(codes[j]);
    }
  }

  /** A freshly issued code verifies with its own digits until its expiry and not from then on. */
  lemma IssuedCodeExpires(codes: seq<CodeRow>, email: string, purpose: string, now: int, expireMinutes: int,
                          draw: nat -> DigitIndex, t: int)
    ensures var row := IssuedRow(email, purpose, now, expireMinutes, draw);
      Usable(email, row.code, purpose, t)(row) <==> t < now + expireMinutes * 60
  {
  }
}
