/**
 * The refresh countdown of app.js: startCountdown shows REFRESH_SECONDS as mm:ss and
 * counts down once a second; the tick that finds nothing left stops the interval and
 * refreshes the QR code, which starts the countdown again.
 */
module Countdown {
  import opened GoText
  import opened GoTime
  import opened JsText

  const RefreshSeconds: int := 10

  /** `String(n).padStart(2, '0')`. */
  function Pad2(n: int): string {
    PadStart(FormatInt(n), 2, '0')
  }

  /** The countdown text: `pad2(Math.floor(remaining / 60)) + ":" + pad2(remaining % 60)`,
      with JavaScript's truncating remainder. */
  function MmSs(remaining: int): string {
    Pad2(remaining / 60) + ":" + Pad2(Rem(remaining, 60))
  }

  /** The tens digit and the units digit of a number below 100 read back as it. */
  lemma TwoDigitsValue(x: int)
    requires 0 <= x < 100
    ensures var s := [DigitChar(x / 10), DigitChar(x % 10)];
      AllDigits(s) && DigitsValue(s) == x
  {
    var s := [DigitChar(x / 10), DigitChar(x % 10)];
    assert s[..1] == [DigitChar(x / 10)];
    assert s[..1][..0] == [];
    assert DigitsValue(s[..1]) == x / 10;
    assert DigitsValue(s) == (x / 10) * 10 + x % 10;
  }

  /** Five characters "mm:ss" made of the digits of `m` and of `sec`. */
  lemma ReadFields(t: string, m: int, sec: int)
    requires 0 <= m < 100 && 0 <= sec < 60
    requires t == [DigitChar(m / 10), DigitChar(m % 10), ':', DigitChar(sec / 10), DigitChar(sec % 10)]
    ensures |t| == 5 && t[2] == ':' && AllDigits(t[..2]) && AllDigits(t[3..])
    ensures DigitsValue(t[..2]) == m && DigitsValue(t[3..]) == sec
  {
    assert t[..2] == [DigitChar(m / 10), DigitChar(m % 10)];
    assert t[3..] == [DigitChar(sec / 10), DigitChar(sec % 10)];
    TwoDigitsValue(m);
    TwoDigitsValue(sec);
  }

  /** Below 100 minutes, the text is "mm:ss" and reads back as the number of seconds
      left, with the seconds part below 60. */
  lemma MmSsReadsBack(n: int)
    requires 0 <= n < 6000
    ensures var t := MmSs(n);
      && |t| == 5 && t[2] == ':' && AllDigits(t[..2]) && AllDigits(t[3..])
      && DigitsValue(t[3..]) < 60
      && 60 * DigitsValue(t[..2]) + DigitsValue(t[3..]) == n
  {
    MmSsDigits(n);
    ReadFields(MmSs(n), n / 60, n % 60);
  }

  /** Below 100, the padded text is the tens digit and the units digit. */
  lemma Pad2Digits(n: int)
    requires 0 <= n < 100
    ensures Pad2(n) == [DigitChar(n / 10), DigitChar(n % 10)]
  {
    if n < 10 {
      assert Decimal(n) == [DigitChar(n)];
    } else {
      assert Decimal(n / 10) == [DigitChar(n / 10)];
    }
  }

  /** The first text shown: "00:10". */
  lemma StartText(n: int)
    requires n == RefreshSeconds
    ensures MmSs(n) == "00:10"
  {
    MmSsDigits(n);
    var m, sec := n / 60, n % 60;
    assert m / 10 == 0 && m % 10 == 0 && sec / 10 == 1 && sec % 10 == 0;
    var zero, one := DigitChar(0), DigitChar(1);
    assert zero == '0' && one == '1';
    assert MmSs(n) == [zero, zero, ':', one, zero];
  }

  /** Below 100 minutes, the text character by character. */
  lemma MmSsDigits(n: int)
    requires 0 <= n < 6000
    ensures var m, sec := n / 60, n % 60;
      MmSs(n) == [DigitChar(m / 10), DigitChar(m % 10), ':', DigitChar(sec / 10), DigitChar(sec % 10)]
  {
    var m, sec := n / 60, n % 60;
    MmSsParts(n);
    Pad2Digits(m);
    Pad2Digits(sec);
    Joined(DigitChar(m / 10), DigitChar(m % 10), DigitChar(sec / 10), DigitChar(sec % 10));
  }

  /** For a count that is not negative the truncating remainder is the usual one. */
  lemma MmSsParts(n: int)
    requires 0 <= n
    ensures MmSs(n) == Pad2(n / 60) + ":" + Pad2(n % 60)
  {
    assert Rem(n, 60) == n % 60;
  }

  lemma Joined(a: char, b: char, c: char, d: char)
    ensures [a, b] + ":" + [c, d] == [a, b, ':', c, d]
  {
  }

  /** What the countdown element shows: a text set directly, or the mm:ss text of a
      number of seconds. */
  datatype Shown = Literal(text: string) | Seconds(n: int)
  {
    /** The element's text. */
    function Text(): string {
      match this
      case Literal(t) => t
      case Seconds(n) => MmSs(n)
    }
  }

  /** The countdown as the page keeps it: the closure's `remaining`, what the countdown
      element shows, whether the interval runs, and how many refreshes
      (updateAllWithExpiry) it has caused. */
  datatype Clock = Clock(remaining: int, shown: Shown, running: bool, refreshes: nat)

  /** startCountdown: clear the interval, reset `remaining`, run update() once (which
      shows the full time and counts one down) and start the interval. */
  function Started(c: Clock): (r: Clock)
    ensures r.running && r.refreshes == c.refreshes && r.remaining == RefreshSeconds - 1
  {
    Clock(RefreshSeconds - 1, Seconds(RefreshSeconds), true, c.refreshes)
  }

  /** updateAllWithExpiry as seen by the countdown: one more refresh, then startCountdown. */
  function Refreshed(c: Clock): Clock {
    Started(c.(refreshes := c.refreshes + 1))
  }

  /** One run of update() from the interval: show what is left; if nothing is left, stop
      the interval and refresh (which starts a new countdown), otherwise count down. */
  function Ticked(c: Clock): (r: Clock)
    requires c.running
    ensures r.running
    ensures c.remaining <= 0 ==> r == Refreshed(c)
    ensures c.remaining > 0 ==> r == c.(shown := Seconds(c.remaining), remaining := c.remaining - 1)
  {
    var shown := c.(shown := Seconds(c.remaining));
    if c.remaining <= 0 then Refreshed(shown.(running := false))
    else shown.(remaining := c.remaining - 1)
  }

  /** `k` ticks of the interval. */
  function Run(c: Clock, k: nat): (r: Clock)
    requires c.running
    ensures r.running
  {
    if k == 0 then c else Ticked(Run(c, k - 1))
  }

  lemma {:induction false} RunAdds(c: Clock, a: nat, b: nat)
    requires c.running
    ensures Run(c, a + b) == Run(Run(c, a), b)
  {
    if b != 0 {
      RunAdds(c, a, b - 1);
    }
  }

  /** For the first nine ticks the text counts 00:09 down to 00:01 and nothing is
      refreshed. */
  lemma {:induction false} CountsDown(c: Clock, k: nat)
    requires k < RefreshSeconds
    ensures Run(Started(c), k) == Clock(RefreshSeconds - 1 - k, Seconds(RefreshSeconds - k), true, c.refreshes)
  {
    if k != 0 {
      CountsDown(c, k - 1);
    }
  }

  /** The tenth tick refreshes exactly once and starts the countdown again. */
  lemma TenthTickRefreshes(c: Clock)
    ensures Run(Started(c), RefreshSeconds) == Refreshed(c)
  {
    CountsDown(c, RefreshSeconds - 1);
  }

  /** Left alone, the page refreshes once every ten ticks: after 10m + k ticks it has
      refreshed exactly m times and is k ticks into a fresh countdown. */
  lemma {:induction false} RefreshesEveryTenTicks(c: Clock, m: nat, k: nat)
    requires k < RefreshSeconds
    ensures Run(Started(c), RefreshSeconds * m + k) == Run(Started(c.(refreshes := c.refreshes + m)), k)
    decreases m
  {
    if m == 0 {
      assert c.(refreshes := c.refreshes + 0) == c;
    } else {
      var c1 := c.(refreshes := c.refreshes + 1);
      calc {
        Run(Started(c), RefreshSeconds * m + k);
        { assert RefreshSeconds * m + k == RefreshSeconds + (RefreshSeconds * (m - 1) + k);
          RunAdds(Started(c), RefreshSeconds, RefreshSeconds * (m - 1) + k); }
        Run(Run(Started(c), RefreshSeconds), RefreshSeconds * (m - 1) + k);
        { TenthTickRefreshes(c); }
        Run(Started(c1), RefreshSeconds * (m - 1) + k);
        { RefreshesEveryTenTicks(c1, m - 1, k);
          assert c1.(refreshes := c1.refreshes + (m - 1)) == c.(refreshes := c.refreshes + m); }
        Run(Started(c.(refreshes := c.refreshes + m)), k);
      }
    }
  }

  /** The countdown state of the page, changed by the functions of app.js. */
  class CountdownTimer {
    var remaining: int
    var shown: Shown
    var running: bool
    var refreshes: nat

    function State(): Clock
      reads this
    {
      Clock(remaining, shown, running, refreshes)
    }

    constructor (initialText: string)
      ensures State() == Clock(RefreshSeconds, Literal(initialText), false, 0)
    {
      remaining, shown, running, refreshes := RefreshSeconds, Literal(initialText), false, 0;
    }

    /** startCountdown. */
    method StartCountdown()
      modifies this
      ensures State() == Started(old(State()))
    {
      running := false;
      remaining := RefreshSeconds;
      shown := Seconds(remaining);
      remaining := remaining - 1;
      running := true;
    }

    /** updateAllWithExpiry: the requests (counted), then startCountdown. */
    method UpdateAllWithExpiry()
      modifies this
      ensures State() == Refreshed(old(State()))
    {
      refreshes := refreshes + 1;
      StartCountdown();
    }

    /** The interval callback. The source decrements `remaining` after the refresh as
        well, but that is the finished countdown's variable, which no later tick reads. */
    method Tick()
      requires running
      modifies this
      ensures State() == Ticked(old(State()))
    {
      shown := Seconds(remaining);
      if remaining <= 0 {
        running := false;
        UpdateAllWithExpiry();
      } else {
        remaining := remaining - 1;
      }
    }

    /** The "new" button: the interval stops and the text becomes "--:--". */
    method Reset()
      modifies this
      ensures State() == old(State()).(running := false, shown := Literal("--:--"))
    {
      running := false;
      shown := Literal("--:--");
    }
  }
}
