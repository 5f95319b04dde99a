/** The time left until the hackathon ends, as the shared front-end state
    computes it (`getTimeRemaining` in
    frontend/src/context/HackathonContext.jsx). The clock reading `now` is a
    parameter. */
module HackathonContext {
  import opened Common
  import H = HackathonModel

  datatype Remaining = Remaining(days: int, hours: int, minutes: int, seconds: int, isExpired: bool)

  /** `getTimeRemaining`: nothing before the hackathon is loaded; all zeros
      once the end has passed; otherwise the whole days, hours, minutes and
      seconds to go. The distance is not negative where it is divided, so
      JavaScript's `%` and `Math.floor` agree with Dafny's `%` and `/`. */
  function TimeRemaining(hackathon: Option<H.Calendar>, now: Time): (r: Option<Remaining>)
    ensures r.None? <==> hackathon.None?
    ensures r.Some? && hackathon.value.endDate - now < 0 ==> r.value == Remaining(0, 0, 0, 0, true)
    ensures r.Some? && hackathon.value.endDate - now >= 0 ==>
              var d := hackathon.value.endDate - now;
              var t := r.value;
              && !t.isExpired
              && t.days == d / OneDay
              && 0 <= t.hours < 24 && 0 <= t.minutes < 60 && 0 <= t.seconds < 60
              && Span(t) <= d < Span(t) + OneSecond
  {
    if hackathon.None? then None
    else
      var distance := hackathon.value.endDate - now;
      if distance < 0 then Some(Remaining(0, 0, 0, 0, true))
      else
        var t := Remaining(distance / OneDay, (distance % OneDay) / OneHour, (distance % OneHour) / OneMinute,
                           (distance % OneMinute) / OneSecond, false);
        SpanBounds(distance);
        Some(t)
  }

  /** The time the four fields stand for, in milliseconds. */
  function Span(t: Remaining): int {
    t.days * OneDay + t.hours * OneHour + t.minutes * OneMinute + t.seconds * OneSecond
  }

  /** The fields computed from `d` are in range and add up to `d` less its
      milliseconds. */
  lemma SpanBounds(d: nat)
    ensures var t := Remaining(d / OneDay, (d % OneDay) / OneHour, (d % OneHour) / OneMinute,
                               (d % OneMinute) / OneSecond, false);
            && 0 <= t.hours < 24 && 0 <= t.minutes < 60 && 0 <= t.seconds < 60
            && Span(t) <= d < Span(t) + OneSecond
  {
    var days, a := d / OneDay, d % OneDay;
    var hours, b := a / OneHour, a % OneHour;
    assert d == days * OneDay + a;
    assert a == hours * OneHour + b;
    ModOfMultiple(d, days * 24, OneHour);
    assert d - days * 24 * OneHour == a;
    assert d % OneHour == b;
    var minutes, c := b / OneMinute, b % OneMinute;
    assert b == minutes * OneMinute + c;
    ModOfMultiple(d, days * 24 * 60 + hours * 60, OneMinute);
    assert d - (days * 24 * 60 + hours * 60) * OneMinute == b;
    assert d % OneMinute == c;
    var seconds := c / OneSecond;
    assert c - OneSecond < seconds * OneSecond <= c;
  }

  /** Taking away whole multiples of `m` does not change the remainder. */
  lemma ModOfMultiple(x: int, k: int, m: int)
    requires m > 0
    ensures (x - k * m) % m == x % m
  {
    var y := x - k * m;
    assert y == (x / m - k) * m + x % m;
    DivModUnique(y, m, x / m - k, x % m);
  }

  lemma DivModUnique(y: int, m: int, q: int, r: int)
    requires m > 0 && y == q * m + r && 0 <= r < m
    ensures y % m == r && y / m == q
  {
    var q', r' := y / m, y % m;
    var e := q' - q;
    assert e * m == r - r' by {
      assert y == q' * m + r';
    }
    if e >= 1 {
      AtLeastOnce(e, m);
    } else if e <= -1 {
      AtLeastOnce(-e, m);
    }
  }

  lemma AtLeastOnce(a: int, m: int)
    requires a >= 1 && m > 0
    ensures a * m >= m
  {
    assert a * m == (a - 1) * m + m;
  }
}

/** The countdown display (frontend/src/components/common/Countdown.jsx):
    "Time's Up!" once expired, otherwise four labelled, zero-padded blocks. */
module CountdownView {
  import opened Text
  import HackathonContext

  datatype Block = Block(text: string, caption: string)

  /** What the component renders; `completes` says whether `onComplete` is
      called. */
  datatype View = TimesUp(completes: bool) | Blocks(blocks: seq<Block>)

  /** `s.padStart(2, '0')`. */
  function PadTwo(s: string): (r: string)
    ensures |s| >= 2 ==> r == s
    ensures |s| < 2 ==> |r| == 2 && r[2 - |s|..] == s && forall i :: 0 <= i < 2 - |s| ==> r[i] == '0'
  {
    if |s| >= 2 then s else if |s| == 1 then "0" + s else "00"
  }

  /** A value of one digit gets one leading zero, one of more digits is shown
      as it is: the text is as long as the longer of 2 and the digit count. */
  lemma PaddedDigits(n: nat)
    ensures |PadTwo(IntText(n))| == if NumDigits(n) < 2 then 2 else NumDigits(n)
    ensures n < 10 ==> PadTwo(IntText(n)) == ['0', DigitChar(n)]
    ensures n >= 10 ==> PadTwo(IntText(n)) == NatToString(n)
  {
    NatToStringLength(n);
    NumDigitsBounds(n);
  }

  function Render(t: HackathonContext.Remaining, onComplete: bool): (v: View)
    ensures t.isExpired <==> v.TimesUp?
    ensures v.TimesUp? ==> v.completes == onComplete
    ensures v.Blocks? ==>
              && |v.blocks| == 4
              && v.blocks[0].caption == "Days" && v.blocks[1].caption == "Hours"
              && v.blocks[2].caption == "Minutes" && v.blocks[3].caption == "Seconds"
              && v.blocks[0].text == PadTwo(IntText(t.days)) && v.blocks[1].text == PadTwo(IntText(t.hours))
              && v.blocks[2].text == PadTwo(IntText(t.minutes)) && v.blocks[3].text == PadTwo(IntText(t.seconds))
  {
    if t.isExpired then TimesUp(onComplete)
    else
      Blocks([Block(PadTwo(IntText(t.days)), "Days"), Block(PadTwo(IntText(t.hours)), "Hours"),
              Block(PadTwo(IntText(t.minutes)), "Minutes"), Block(PadTwo(IntText(t.seconds)), "Seconds")])
  }

  /** For the time the context computes before the end, every block but the
      days shows exactly two digits. */
  lemma ClockBlocksTwoDigits(t: HackathonContext.Remaining)
    requires !t.isExpired && 0 <= t.hours < 24 && 0 <= t.minutes < 60 && 0 <= t.seconds < 60
    ensures var v := Render(t, false);
            v.Blocks? && |v.blocks[1].text| == 2 && |v.blocks[2].text| == 2 && |v.blocks[3].text| == 2
  {
    PaddedDigits(t.hours);
    PaddedDigits(t.minutes);
    PaddedDigits(t.seconds);
    NumDigitsBounds(t.hours);
    NumDigitsBounds(t.minutes);
    NumDigitsBounds(t.seconds);
  }
}
