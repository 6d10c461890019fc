/** Mainland-China mobile numbers: the `^1[3-9]\d{9}$` check and the
    `138****5678` masking used wherever a number is logged. */
module Phones {
  import opened Wrappers
  import opened Text

  /** One position of a regular expression made only of character classes. */
  datatype CharClass = Exactly(c: char) | Range(lo: char, hi: char) | AnyDigit

  predicate InClass(c: char, k: CharClass) {
    match k
    case Exactly(e) => c == e
    case Range(lo, hi) => lo <= c <= hi
    case AnyDigit => IsDigit(c)   // Java's `\d` is ASCII-only by default
  }

  /** A whole-string match (`^…$`) of a pattern of character classes. */
  predicate MatchesClasses(s: string, pattern: seq<CharClass>) {
    |s| == |pattern| && forall i :: 0 <= i < |s| ==> InClass(s[i], pattern[i])
  }

  /** `^1[3-9]\d{9}$` written out position by position. */
  const PhonePattern: seq<CharClass> :=
    [Exactly('1'), Range('3', '9'), AnyDigit, AnyDigit, AnyDigit, AnyDigit, AnyDigit,
     AnyDigit, AnyDigit, AnyDigit, AnyDigit]

  /** The shape of a valid number, stated directly. */
  predicate IsMobileNumber(s: string) {
    |s| == 11 && s[0] == '1' && '3' <= s[1] <= '9' && forall i :: 2 <= i < 11 ==> IsDigit(s[i])
  }

  /** The pattern and the direct statement accept the same strings. */
  lemma PhonePatternMeaning(s: string)
    ensures MatchesClasses(s, PhonePattern) <==> IsMobileNumber(s)
  {
    if MatchesClasses(s, PhonePattern) {
      forall i | 2 <= i < 11 ensures IsDigit(s[i]) {
        assert InClass(s[i], PhonePattern[i]);
      }
      assert InClass(s[0], PhonePattern[0]) && InClass(s[1], PhonePattern[1]);
    }
    if IsMobileNumber(s) {
      forall i | 0 <= i < |s| ensures InClass(s[i], PhonePattern[i]) {
        if i >= 2 {
          assert PhonePattern[i] == AnyDigit;
        }
      }
    }
  }

  /** `SmsLogFormatter.isPhoneValid`: non-null and matching the pattern. */
  function IsPhoneValid(p: Option<string>): (b: bool)
    ensures b <==> p.Some? && MatchesClasses(p.value, PhonePattern)
  {
    if p.Some? then PhonePatternMeaning(p.value); IsMobileNumber(p.value) else false
  }

  /** `maskPhoneNumber`: an 11-char string keeps its first three and last four
      chars and shows `****` in between; anything else, null included, is
      returned as it is. */
  function MaskPhone(p: Option<string>): (r: Option<string>)
    ensures p.None? ==> r.None?
    ensures p.Some? ==> r.Some? && |r.value| == |p.value|
    ensures p.Some? && |p.value| != 11 ==> r == p
    ensures p.Some? && |p.value| == 11 ==>
      r.value[..3] == p.value[..3] && r.value[3..7] == "****" && r.value[7..] == p.value[7..]
  {
    match p
    case None => None
    case Some(s) => if |s| != 11 then p else Some(s[..3] + "****" + s[7..])
  }

  /** Masking a masked number changes nothing. */
  lemma MaskIdempotent(p: Option<string>)
    ensures MaskPhone(MaskPhone(p)) == MaskPhone(p)
  {
    if p.Some? && |p.value| == 11 {
      var m := MaskPhone(p).value;
      assert m[..3] + "****" + m[7..] == m;
    }
  }

  /** A masked valid number is never the number itself, nor any valid number:
      the digits in positions 3 to 6 are gone. */
  lemma MaskHidesNumber(p: string)
    requires IsPhoneValid(Some(p))
    ensures MaskPhone(Some(p)).value != p
    ensures !IsPhoneValid(MaskPhone(Some(p)))
  {
    var m := MaskPhone(Some(p)).value;
    assert m[3] == '*' && !IsDigit(m[3]);
    assert IsDigit(p[3]);
  }

  /** The default SMS recipient is a valid number. */
  const DefaultSmsRecipient: string := "13800138000"

  lemma DefaultRecipientValid()
    ensures IsPhoneValid(Some(DefaultSmsRecipient))
  {
  }
}
