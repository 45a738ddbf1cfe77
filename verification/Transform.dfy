/**
 The irreversible masks of the anonymize mode
 (worker/internal/anonymizer/transform.go).
 */
module Transform {
  import opened Text

  /** `maskEmail`: the first character, and the top-level domain when there is one. */
  function MaskEmail(email: string): string
  {
    var at := LastIndex(email, '@');
    if at <= 0 then "***"
    else
      var domain := email[at + 1..];
      var dot := LastIndex(domain, '.');
      if 0 <= dot < |domain| - 1 then [email[0]] + "***@***." + domain[dot + 1..]
      else [email[0]] + "***@***"
  }

  /** The ASCII digits of a text, in order. */
  function DigitsOf(s: string): string
  {
    if s == "" then ""
    else
      var c := s[|s| - 1];
      DigitsOf(s[..|s| - 1]) + if IsDigit(c) then [c] else ""
  }

  const PHONE_MASK := "+7 9** *** ** "

  /** What the phone mask may reveal: the last two digits, or nothing. */
  function PhoneMask(phone: string): string
  {
    var d := DigitsOf(phone);
    PHONE_MASK + if |d| < 2 then "**" else d[|d| - 2..]
  }

  /** `maskPhone`: the loop that collects the digits. */
  method MaskPhone(phone: string) returns (masked: string)
    ensures masked == PhoneMask(phone)
    ensures |masked| == |PHONE_MASK| + 2
  {
    var digits := "";
    for i := 0 to |phone|
      invariant digits == DigitsOf(phone[..i])
    {
      assert phone[..i + 1] == phone[..i] + [phone[i]];
      assert phone[..i + 1][..i] == phone[..i];
      if IsDigit(phone[i]) {
        digits := digits + [phone[i]];
      }
    }
    assert phone[..|phone|] == phone;
    if |digits| < 2 {
      return PHONE_MASK + "**";
    }
    return PHONE_MASK + digits[|digits| - 2..];
  }

  /** `deref`. */
  function Deref(s: Option<string>): string
  {
    match s
    case None => ""
    case Some(v) => v
  }
}
