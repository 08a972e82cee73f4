/** What the webhook's phone normalization (TwilioWebhook.normalizePhone) keeps and what it changes. */
module WebhookPhone {
  import opened Common
  import opened Strings
  import opened SendService
  import opened OrgProtocol

  lemma {:induction false} DigitsOfDigits(d: string)
    requires AllDigits(d)
    ensures DigitsOf(d) == d
  {
    if d == [] {
    } else {
      DigitsOfDigits(d[1..]);
      assert d == [d[0]] + d[1..];
    }
  }

  lemma {:induction false} DigitsOfAreDigits(s: string)
    ensures AllDigits(DigitsOf(s))
  {
    if s == [] {
    } else {
      DigitsOfAreDigits(s[1..]);
    }
  }

  lemma PlusDigits(d: string)
    requires AllDigits(d)
    ensures DigitsOf("+" + d) == d && !Blank("+" + d) && StartsWithPlus("+" + d)
  {
    DigitsOfDigits(d);
    assert ("+" + d)[1..] == d && ("+" + d)[0] == '+';
    assert DigitsOf("+" + d) == [] + DigitsOf(d);
  }

  /**
   * A number already in E.164 form is kept exactly when it is North American or has more than eleven
   * digits. Any other ten-digit one is taken for a North American number it is not, and the rest
   * are unreadable.
   */
  lemma WhatIsKept(d: string)
    requires AllDigits(d)
    ensures NormalizePhone(Some("+" + d)) == Some("+" + d) <==> (|d| == 11 && d[0] == '1') || |d| > 11
    ensures NormalizePhone(Some("+" + d)) == Some("+1" + d) <==> |d| == 10
    ensures NormalizePhone(Some("+" + d)).None? <==> |d| < 10 || (|d| == 11 && d[0] != '1')
  {
    PlusDigits(d);
    assert |"+1" + d| == |d| + 2;
  }

  /** Normalizing again changes nothing: the lead query and the mirror see one identifier. */
  lemma NormalizePhoneIdempotent(raw: Option<string>)
    requires NormalizePhone(raw).Some?
    ensures NormalizePhone(NormalizePhone(raw)) == NormalizePhone(raw)
  {
    var digits := DigitsOf(raw.value);
    DigitsOfAreDigits(raw.value);
    if |digits| == 10 {
      assert "+1" + digits == "+" + ("1" + digits);
      WhatIsKept("1" + digits);
    } else {
      WhatIsKept(digits);
    }
  }
}
