/** Times of day in the 24-hour `HH:mm` form the timesheet validator demands. */
module TimeOfDay {
  import opened Strings

  /** The regular expression `^([0-1]\d|2[0-3]):([0-5]\d)$`. */
  predicate IsHHmm(s: string) {
    && |s| == 5
    && (('0' <= s[0] <= '1' && IsDigit(s[1])) || (s[0] == '2' && '0' <= s[1] <= '3'))
    && s[2] == ':'
    && '0' <= s[3] <= '5' && IsDigit(s[4])
  }

  /** The time `h:m` written as `HH:mm`. */
  function Clock(h: nat, m: nat): (s: string)
    requires h < 24 && m < 60
  {
    Pad2(h) + ":" + Pad2(m)
  }

  function Hours(s: string): (h: nat)
    requires IsHHmm(s)
  {
    Value2(s[0], s[1])
  }

  function Minutes(s: string): (m: nat)
    requires IsHHmm(s)
  {
    Value2(s[3], s[4])
  }

  /** Minutes since midnight. */
  function MinuteOfDay(s: string): (n: nat)
    requires IsHHmm(s)
  {
    60 * Hours(s) + Minutes(s)
  }

  /** Every time 00:00 .. 23:59, written `HH:mm`, is accepted and read back. */
  lemma ClockAccepted(h: nat, m: nat)
    requires h < 24 && m < 60
    ensures IsHHmm(Clock(h, m)) && Hours(Clock(h, m)) == h && Minutes(Clock(h, m)) == m
  {
    var s := Clock(h, m);
    assert s[0] == Pad2(h)[0] && s[1] == Pad2(h)[1] && s[3] == Pad2(m)[0] && s[4] == Pad2(m)[1];
  }

  /** Only such times are accepted: an accepted string is the `HH:mm` of an hour and minute. */
  lemma AcceptedIsClock(s: string)
    requires IsHHmm(s)
    ensures Hours(s) < 24 && Minutes(s) < 60 && s == Clock(Hours(s), Minutes(s))
  {
    Pad2OfValue(s[0], s[1]);
    Pad2OfValue(s[3], s[4]);
  }

  /** Between accepted times, JavaScript's string order is the order of the times. */
  lemma LessIsEarlier(a: string, b: string)
    requires IsHHmm(a) && IsHHmm(b)
    ensures Less(a, b) <==> MinuteOfDay(a) < MinuteOfDay(b)
  {
    AcceptedIsClock(a);
    AcceptedIsClock(b);
    var ha, ma, hb, mb := Hours(a), Minutes(a), Hours(b), Minutes(b);
    assert a == Pad2(ha) + (":" + Pad2(ma));
    assert b == Pad2(hb) + (":" + Pad2(mb));
    LessConcat(Pad2(ha), ":" + Pad2(ma), Pad2(hb), ":" + Pad2(mb));
    LessConcat(":", Pad2(ma), ":", Pad2(mb));
    Pad2Less(ha, hb);
    Pad2Less(ma, mb);
    assert Pad2(ha) == Pad2(hb) <==> ha == hb;
  }

  /** Strings the pattern turns away: a missing leading zero, hour 24, minute 60. */
  lemma RejectedExamples()
    ensures !IsHHmm("9:00") && !IsHHmm("24:00") && !IsHHmm("12:60") && !IsHHmm("")
    ensures IsHHmm("09:00") && IsHHmm("23:59") && IsHHmm("00:00")
  {
  }
}
