/**
 * The TOTP set-up card of src/components/sections/MFASetup.tsx: the
 * verification-code sanitiser, the submit guard, the "has a verified factor"
 * test, and the component state the handlers update.
 */
module MfaSetup {
  import opened Wrappers

  // ---------------------------------------------------------------------------
  // Code sanitiser: `value.replace(/\D/g, '').slice(0, 6)`
  // ---------------------------------------------------------------------------

  /** The length of a TOTP code. */
  const CodeLength: nat := 6

  /** `\d` without the `u` flag: an ASCII digit. */
  predicate IsDigit(c: char)
  {
    '0' <= c <= '9'
  }

  predicate AllDigits(s: string)
  {
    forall i :: 0 <= i < |s| ==> IsDigit(s[i])
  }

  /** `s.replace(/\D/g, '')`: the digits of `s`, in order. */
  function Digits(s: string): string
  {
    if s == [] then []
    else (if IsDigit(s[0]) then [s[0]] else []) + Digits(s[1..])
  }

  /** What the code input keeps of the value its `onChange` receives. */
  function SanitizeCode(input: string): string
  {
    var d := Digits(input);
    if |d| <= CodeLength then d else d[..CodeLength]
  }

  /** A value the code field can hold. */
  predicate IsCode(code: string)
  {
    AllDigits(code) && |code| <= CodeLength
  }

  /**
   * The digit projection holds only digits, each character of the input that
   * is a digit, and nothing longer than the input.
   */
  lemma {:induction false} DigitsSpec(s: string)
    ensures AllDigits(Digits(s))
    ensures forall c :: c in Digits(s) <==> c in s && IsDigit(c)
    ensures |Digits(s)| <= |s|
  {
    if s != [] {
      DigitsSpec(s[1..]);
      assert s == [s[0]] + s[1..];
    }
  }

  /** One character projects to itself when it is a digit and to nothing otherwise. */
  lemma DigitsOne(c: char)
    ensures Digits([c]) == if IsDigit(c) then [c] else []
  {
    assert [c][1..] == [];
  }

  /**
   * The projection of a concatenation is the concatenation of the
   * projections; with DigitsOne this fixes `Digits` on every string, order
   * and repetitions included.
   */
  lemma {:induction false} DigitsAppend(a: string, b: string)
    ensures Digits(a + b) == Digits(a) + Digits(b)
    decreases |a|
  {
    if a == [] {
      assert a + b == b;
    } else {
      var head := if IsDigit(a[0]) then [a[0]] else [];
      assert (a + b)[0] == a[0] && (a + b)[1..] == a[1..] + b;
      assert Digits(a + b) == head + Digits(a[1..] + b);
      DigitsAppend(a[1..], b);
      assert Digits(a) == head + Digits(a[1..]);
    }
  }

  /** A string of digits is its own projection. */
  lemma {:induction false} DigitsOfDigits(s: string)
    requires AllDigits(s)
    ensures Digits(s) == s
  {
    if s != [] {
      DigitsOfDigits(s[1..]);
      assert s == [s[0]] + s[1..];
    }
  }

  /**
   * The sanitised code is all digits and at most six long; it is the start
   * of the input's digits, as long as it can be; it is six long exactly when
   * the input holds six digits or more.
   */
  lemma {:induction false} SanitizeSpec(input: string)
    ensures IsCode(SanitizeCode(input))
    ensures SanitizeCode(input) == Digits(input)[..|SanitizeCode(input)|]
    ensures |SanitizeCode(input)| == if |Digits(input)| < CodeLength then |Digits(input)| else CodeLength
    ensures |SanitizeCode(input)| == CodeLength <==> |Digits(input)| >= CodeLength
  {
    DigitsSpec(input);
  }

  /** Sanitising is idempotent, and a value the field can hold is kept as it is. */
  lemma {:induction false} SanitizeIdempotent(input: string)
    ensures SanitizeCode(SanitizeCode(input)) == SanitizeCode(input)
  {
    SanitizeSpec(input);
    SanitizeKeepsCode(SanitizeCode(input));
  }

  lemma SanitizeKeepsCode(code: string)
    requires IsCode(code)
    ensures SanitizeCode(code) == code
  {
    DigitsOfDigits(code);
  }

  // ---------------------------------------------------------------------------
  // Submit guard and button state
  // ---------------------------------------------------------------------------

  /** The early return of `handleVerifyMFA`: an empty code, or one not six long. */
  predicate RejectsCode(code: string)
  {
    code == "" || |code| != CodeLength
  }

  /** `disabled` of the verify button. */
  predicate VerifyDisabled(isVerifying: bool, code: string)
  {
    isVerifying || |code| != CodeLength
  }

  /**
   * The guard lets a code through exactly when it is six long; the button is
   * enabled only for such a code, and, outside a verification in progress,
   * whenever the guard would let the code through.
   */
  lemma GuardSpec(isVerifying: bool, code: string)
    ensures !RejectsCode(code) <==> |code| == CodeLength
    ensures !VerifyDisabled(isVerifying, code) ==> !RejectsCode(code)
    ensures VerifyDisabled(false, code) <==> RejectsCode(code)
  {
  }

  /**
   * From the value `onChange` receives: the guard passes exactly when that
   * value holds six digits or more.
   */
  lemma {:induction false} GuardOnInput(input: string)
    ensures !RejectsCode(SanitizeCode(input)) <==> |Digits(input)| >= CodeLength
  {
    SanitizeSpec(input);
  }

  // ---------------------------------------------------------------------------
  // Factors
  // ---------------------------------------------------------------------------

  /** An entry of `data.totp` from `listFactors`. */
  datatype Factor = Factor(id: string, status: string)

  /** `factors.some(factor => factor.status === 'verified')`. */
  predicate AnyVerified(factors: seq<Factor>)
  {
    factors != [] && (factors[0].status == "verified" || AnyVerified(factors[1..]))
  }

  /** `!!data?.totp?.some(...)`: a missing list counts as none verified. */
  predicate MfaEnabledFrom(totp: Option<seq<Factor>>)
  {
    totp.Some? && AnyVerified(totp.value)
  }

  lemma {:induction false} AnyVerifiedIff(factors: seq<Factor>)
    ensures AnyVerified(factors) <==> exists f :: f in factors && f.status == "verified"
  {
    if factors != [] {
      AnyVerifiedIff(factors[1..]);
      assert forall f :: f in factors <==> f == factors[0] || f in factors[1..];
    }
  }

  /** MFA is reported enabled exactly when the TOTP list holds a verified factor. */
  lemma MfaEnabledSpec(totp: Option<seq<Factor>>)
    ensures MfaEnabledFrom(totp) <==> totp.Some? && exists f :: f in totp.value && f.status == "verified"
  {
    if totp.Some? {
      AnyVerifiedIff(totp.value);
    }
  }

  /** `factors.data?.totp?.[0]?.id`, kept only when truthy. */
  function FirstFactorId(totp: Option<seq<Factor>>): Option<string>
  {
    if totp.Some? && totp.value != [] && totp.value[0].id != "" then Some(totp.value[0].id) else None
  }

  // ---------------------------------------------------------------------------
  // Component state
  // ---------------------------------------------------------------------------

  /** A toast shown to the user. */
  datatype Toast = Success(text: string) | Failure(text: string)

  /** A call made on `supabase.auth.mfa`. */
  datatype MfaCall = ListFactors | ChallengeAndVerify(factorId: string, code: string)

  /** What `enroll` returns on success. */
  datatype Enrollment = Enrollment(qrCode: string, secret: string)

  /** `error.message || fallback`. */
  function MessageOr(message: string, fallback: string): string
  {
    if message != "" then message else fallback
  }

  /** The state of one `MFASetup` card. */
  class MfaCard {
    var mfaEnabled: bool
    var isEnrolling: bool
    var qrCode: Option<string>
    var secret: Option<string>
    var verifyCode: string
    var isVerifying: bool

    /**
     * Between two handlers: the code field holds a sanitised code and no
     * enrolment or verification is in progress.
     */
    predicate Valid()
      reads this
    {
      IsCode(verifyCode) && !isEnrolling && !isVerifying
    }

    /** The initial `useState` values. */
    constructor()
      ensures Valid()
      ensures !mfaEnabled && qrCode == None && secret == None && verifyCode == ""
    {
      mfaEnabled := false;
      isEnrolling := false;
      qrCode := None;
      secret := None;
      verifyCode := "";
      isVerifying := false;
    }

    /** `onChange` of the code input, with the value it receives. */
    method EditCode(input: string)
      requires Valid()
      modifies this
      ensures Valid()
      ensures verifyCode == SanitizeCode(input)
      ensures mfaEnabled == old(mfaEnabled) && qrCode == old(qrCode) && secret == old(secret)
    {
      SanitizeSpec(input);
      verifyCode := SanitizeCode(input);
    }

    /**
     * `checkMFAStatus` with the result of `listFactors`: on success the
     * enabled flag follows the TOTP list; an error is only logged.
     */
    method CheckStatus(listed: Result<Option<seq<Factor>>, string>)
      requires Valid()
      modifies this
      ensures Valid()
      ensures listed.Ok? ==> mfaEnabled == MfaEnabledFrom(listed.value)
      ensures listed.Err? ==> mfaEnabled == old(mfaEnabled)
      ensures qrCode == old(qrCode) && secret == old(secret) && verifyCode == old(verifyCode)
    {
      if listed.Ok? {
        mfaEnabled := MfaEnabledFrom(listed.value);
      }
    }

    /**
     * `handleEnrollMFA` with the result of `enroll`: on success the QR code
     * and the secret are shown; the busy flag is cleared either way.
     */
    method Enroll(enrolled: Result<Enrollment, string>) returns (toast: Toast)
      requires Valid()
      modifies this
      ensures Valid()
      ensures enrolled.Ok? ==> qrCode == Some(enrolled.value.qrCode) && secret == Some(enrolled.value.secret)
                               && toast == Success("Scan the QR code with your authenticator app")
      ensures enrolled.Err? ==> qrCode == old(qrCode) && secret == old(secret)
                                && toast == Failure(MessageOr(enrolled.error, "Failed to enroll MFA"))
      ensures mfaEnabled == old(mfaEnabled) && verifyCode == old(verifyCode)
    {
      isEnrolling := true;
      if enrolled.Err? {
        toast := Failure(MessageOr(enrolled.error, "Failed to enroll MFA"));
      } else {
        qrCode := Some(enrolled.value.qrCode);
        secret := Some(enrolled.value.secret);
        toast := Success("Scan the QR code with your authenticator app");
      }
      isEnrolling := false;
    }

    /**
     * `handleVerifyMFA` with what `listFactors` returns as `data?.totp` and
     * the error of `challengeAndVerify`, if any. A code that is not six long
     * is refused before any call; otherwise the first factor is verified with
     * the code. On success MFA is enabled and the QR code, the secret and the
     * code are cleared; on any failure the state is as it was.
     */
    method VerifyMfa(listed: Option<seq<Factor>>, verifyError: Option<string>) returns (toast: Toast, calls: seq<MfaCall>)
      requires Valid()
      modifies this
      ensures Valid()
      ensures RejectsCode(old(verifyCode)) ==> calls == [] && toast == Failure("Please enter a valid 6-digit code")
      ensures !RejectsCode(old(verifyCode)) && FirstFactorId(listed).None? ==>
                calls == [ListFactors] && toast == Failure("No MFA enrollment found")
      ensures !RejectsCode(old(verifyCode)) && FirstFactorId(listed).Some? ==>
                calls == [ListFactors, ChallengeAndVerify(FirstFactorId(listed).value, old(verifyCode))]
      ensures toast == Success("MFA enabled successfully!") <==>
                !RejectsCode(old(verifyCode)) && FirstFactorId(listed).Some? && verifyError.None?
      ensures toast.Success? ==> mfaEnabled && qrCode == None && secret == None && verifyCode == ""
      ensures toast.Failure? ==> mfaEnabled == old(mfaEnabled) && qrCode == old(qrCode)
                                 && secret == old(secret) && verifyCode == old(verifyCode)
      ensures !RejectsCode(old(verifyCode)) && FirstFactorId(listed).Some? && verifyError.Some? ==>
                toast == Failure(MessageOr(verifyError.value, "Invalid verification code"))
    {
      if verifyCode == "" || |verifyCode| != CodeLength {
        toast := Failure("Please enter a valid 6-digit code");
        calls := [];
        return;
      }
      isVerifying := true;
      calls := [ListFactors];
      var factorId := FirstFactorId(listed);
      if factorId.None? {
        toast := Failure("No MFA enrollment found");
        isVerifying := false;
        return;
      }
      calls := calls + [ChallengeAndVerify(factorId.value, verifyCode)];
      if verifyError.Some? {
        toast := Failure(MessageOr(verifyError.value, "Invalid verification code"));
      } else {
        toast := Success("MFA enabled successfully!");
        mfaEnabled := true;
        qrCode := None;
        secret := None;
        verifyCode := "";
      }
      isVerifying := false;
    }
  }
}
