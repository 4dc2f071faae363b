/**
  Session ids: the UTC date as eight digits and the last five digits of the millisecond
  clock.  A create reads the clock once; a retry reads it once for the date and again for
  the digits.  Clocks are those of years up to 9999.
 */
module SessionIds {
  import opened Calendar
  import opened Digits
  import opened ReplaySessions
  import opened Wrappers
  import DM = DecimalMath

  const MS_PER_DAY: nat := 86400000
  const TAIL: nat := 5

  /** The clock readings an id is made from, in milliseconds since 1970. */
  datatype Reading = Reading(date: nat, clock: nat)

  /** The date has a year of four digits. */
  predicate Writable(r: Reading) { r.date / MS_PER_DAY < DAYS }

  function LastFive(s: string): string {
    if |s| <= TAIL then s else s[|s| - TAIL..]
  }

  function SessionId(r: Reading): string {
    "rpl-" + DateText(DateOf(r.date / MS_PER_DAY)) + "-" + LastFive(NatText(r.clock))
  }

  /** The clock parts agree: equal readings, or equal modulo 100 seconds ten seconds after 1970 or later. */
  predicate SameDigits(m: nat, n: nat) {
    m == n || (m % 100000 == n % 100000 && m >= 10000 && n >= 10000)
  }

  /** Two readings that are given the same id. */
  predicate Collide(a: Reading, b: Reading) {
    a.date / MS_PER_DAY == b.date / MS_PER_DAY && SameDigits(a.clock, b.clock)
  }

  lemma SplitLast(s: string) returns (a: string, x: char)
    requires AllDigits(s) && s != ""
    ensures s == a + [x] && AllDigits(a) && IsDigit(x) && |a| == |s| - 1
    ensures NatValue(s) == 10 * NatValue(a) + ValueOf(x)
  {
    a, x := s[..|s| - 1], s[|s| - 1];
  }

  lemma {:induction false} SameValueSameDigits(s: string, t: string)
    requires AllDigits(s) && AllDigits(t) && |s| == |t| && NatValue(s) == NatValue(t)
    ensures s == t
    decreases |s|
  {
    if s != "" {
      var a, x := SplitLast(s);
      var b, y := SplitLast(t);
      hide NatValue, AllDigits;
      assert ValueOf(x) == ValueOf(y);
      SameValueSameDigits(a, b);
    }
  }

  lemma RemainderStep(n: nat, p: nat)
    requires p > 0
    ensures n % (10 * p) == 10 * (n / 10 % p) + n % 10
  {
    var q, r, d := n / 10 / p, n / 10 % p, n % 10;
    DM.DivModSum(n / 10, p);
    DM.Tenfold(q, p);
    assert n == q * (10 * p) + (10 * r + d);
    RemainderIs(n, q, 10 * r + d, 10 * p);
  }

  lemma RemainderIs(n: nat, q: nat, r: nat, p: nat)
    requires p > 0 && n == q * p + r && r < p
    ensures n % p == r
  {
    DM.DivModSum(n, p);
    var w, m := n / p, n % p;
    if q < w { DM.OrderLifts(q + 1, w, p); }
    if w < q { DM.OrderLifts(w + 1, q, p); }
    DM.Distribute(q, 1, p);
    DM.Distribute(w, 1, p);
  }

  lemma ValueSnoc(a: string, d: nat)
    requires AllDigits(a) && d < 10
    ensures AllDigits(a + [DigitOf(d)]) && NatValue(a + [DigitOf(d)]) == 10 * NatValue(a) + d
  {
    assert (a + [DigitOf(d)])[..|a|] == a;
  }

  lemma TextStep(n: nat)
    requires n >= 10
    ensures NatText(n) == NatText(n / 10) + [DigitOf(n % 10)]
  {
  }

  /** The last `k` digits of a numeral are its remainder. */
  lemma {:induction false} LastDigits(n: nat, k: nat)
    requires k <= |NatText(n)|
    ensures NatValue(NatText(n)[|NatText(n)| - k..]) == n % DM.Pow10(k)
    decreases k
  {
    if k == 0 {
      assert DM.Pow10(0) == 1;
    } else if n < 10 {
      var s := NatText(n);
      assert k == 1 && s[0..] == s && s[..0] == "";
      assert DM.Pow10(1) == 10 * DM.Pow10(0) == 10;
    } else {
      TextStep(n);
      DM.Pow10Step(k);
      hide NatText, NatValue, DM.Pow10;
      var t := NatText(n / 10);
      var d := n % 10;
      LastDigits(n / 10, k - 1);
      RemainderStep(n, DM.Pow10(k - 1));
      var tail := t[|t| - (k - 1)..];
      ValueSnoc(tail, d);
      assert (t + [DigitOf(d)])[|t| + 1 - k..] == tail + [DigitOf(d)];
    }
  }

  lemma {:induction false} NumeralLength(n: nat, k: nat)
    requires k >= 1
    ensures |NatText(n)| <= k <==> n < DM.Pow10(k)
  {
    if k == 1 {
      assert DM.Pow10(1) == 10 * DM.Pow10(0) == 10;
    } else if n >= 10 {
      NumeralLength(n / 10, k - 1);
      assert DM.Pow10(k) == 10 * DM.Pow10(k - 1);
    } else {
      DM.TenOrMore(k);
      DM.Pow10Ordered(1, k);
      assert DM.Pow10(1) == 10 * DM.Pow10(0) == 10;
    }
  }

  lemma PowersUsed()
    ensures DM.Pow10(4) == 10000 && DM.Pow10(5) == 100000
  {
    assert DM.Pow10(2) == 10 * DM.Pow10(1) == 100 * DM.Pow10(0);
    assert DM.Pow10(4) == 10 * DM.Pow10(3) == 100 * DM.Pow10(2);
  }

  /** The clock part of two ids agrees exactly when the readings agree modulo 100 seconds. */
  lemma LastFiveAgree(m: nat, n: nat)
    ensures LastFive(NatText(m)) == LastFive(NatText(n)) <==> SameDigits(m, n)
  {
    PowersUsed();
    ClockPart(m);
    ClockPart(n);
    NatTextValue(m);
    NatTextValue(n);
    var s, t := LastFive(NatText(m)), LastFive(NatText(n));
    hide NatText, NatValue, LastFive;
    if |s| == TAIL && |t| == TAIL && NatValue(s) == NatValue(t) { SameValueSameDigits(s, t); }
  }

  lemma ClockPart(n: nat)
    ensures var s := LastFive(NatText(n));
            && AllDigits(s)
            && (n >= 10000 <==> |s| == TAIL)
            && (n >= 10000 ==> NatValue(s) == n % 100000)
            && (n < 10000 ==> s == NatText(n))
  {
    PowersUsed();
    NumeralLength(n, 4);
    NumeralLength(n, 5);
    hide NatText, NatValue;
    if n >= 10000 { LastDigits(n, 5); }
    assert |NatText(n)| == 5 ==> NatText(n)[0..] == NatText(n);
  }

  /**
    What an id reads as: a prefix, the day's year, month and day, and the clock's last five
    digits, or all of them in the first ten seconds of 1970.
   */
  lemma IdReads(r: Reading)
    requires Writable(r)
    ensures var id, date := SessionId(r), DateOf(r.date / 86400000);
            && |id| >= 14 && id[..4] == "rpl-" && id[12] == '-'
            && (forall i :: 4 <= i < |id| && i != 12 ==> '0' <= id[i] <= '9')
            && AllDigits(id[4..8]) && AllDigits(id[8..10]) && AllDigits(id[10..12]) && AllDigits(id[13..])
            && NatValue(id[4..8]) == date.year && NatValue(id[8..10]) == date.month && NatValue(id[10..12]) == date.day
            && (if r.clock < 10000 then id[13..] == NatText(r.clock)
                else |id| == 18 && NatValue(id[13..]) == r.clock % 100000)
  {
    var date := DateOf(r.date / MS_PER_DAY);
    DateIsValid(r.date / MS_PER_DAY);
    DaysOfMonth(date);
    DateTextReads(date);
    ClockPart(r.clock);
    var d, c := DateText(date), LastFive(NatText(r.clock));
    assert c != "";
    hide NatText, LastFive, DateText, DateOf, NatValue, Valid, DayNumber;
    IdPieces(d, c);
  }

  lemma IdPieces(date: string, clock: string)
    requires |date| == 8 && clock != "" && AllDigits(clock)
    requires AllDigits(date[..4]) && AllDigits(date[4..6]) && AllDigits(date[6..])
    ensures var id := "rpl-" + date + "-" + clock;
            && |id| == 13 + |clock| && id[..4] == "rpl-" && id[12] == '-' && id[13..] == clock
            && id[4..8] == date[..4] && id[8..10] == date[4..6] && id[10..12] == date[6..]
            && (forall i :: 4 <= i < |id| && i != 12 ==> '0' <= id[i] <= '9')
  {
    var id := "rpl-" + date + "-" + clock;
    forall i | 4 <= i < |id| && i != 12 ensures IsDigit(id[i]) {
      if i < 8 { assert id[i] == date[..4][i - 4]; }
      else if i < 10 { assert id[i] == date[4..6][i - 8]; }
      else if i < 12 { assert id[i] == date[6..][i - 10]; }
      else { assert id[i] == clock[i - 13]; }
    }
  }

  /** Exactly which readings of the clock give the same id. */
  lemma IdsCollideIff(a: Reading, b: Reading)
    requires Writable(a) && Writable(b)
    ensures SessionId(a) == SessionId(b) <==> Collide(a, b)
  {
    LastFiveAgree(a.clock, b.clock);
    DaysWrittenOnce(a.date / MS_PER_DAY, b.date / MS_PER_DAY);
    var d, e := DateText(DateOf(a.date / MS_PER_DAY)), DateText(DateOf(b.date / MS_PER_DAY));
    var s, t := LastFive(NatText(a.clock)), LastFive(NatText(b.clock));
    hide NatText, LastFive, DateText, DateOf, SameDigits;
    IdParts(d, s);
    IdParts(e, t);
  }

  lemma IdParts(date: string, clock: string)
    requires |date| == 8
    ensures var id := "rpl-" + date + "-" + clock; |id| >= 13 && id[4..12] == date && id[13..] == clock
  {
  }

  /**
    A finished session survives an accepted create unchanged exactly when the readings behind
    the two ids do not collide: another day, or not a multiple of 100 seconds apart.
   */
  lemma FinishedSurvivesCreateIff(store: Store, request: Request, made: Reading, now: nat)
    requires Writable(made) && Writable(Reading(now, now))
    requires SessionId(made) in store && Final(store[SessionId(made)]) && CreateReply(request).Stored?
    ensures var next := Apply(store, Create(request, SessionId(Reading(now, now))));
            SessionId(made) in next
            && (next[SessionId(made)] == store[SessionId(made)] <==> !Collide(made, Reading(now, now)))
  {
    IdsCollideIff(made, Reading(now, now));
    hide SessionId, Collide, Writable;
    FinalKeptIffIdNotReused(store, Create(request, SessionId(Reading(now, now))), SessionId(made));
  }

  /** The same for a retry, whose date and digits come from two readings. */
  lemma FinishedSurvivesRetryIff(store: Store, source: string, made: Reading, now: Reading)
    requires Writable(made) && Writable(now)
    requires SessionId(made) in store && Final(store[SessionId(made)]) && RetryReply(store, source).Stored?
    ensures var next := Apply(store, Retry(source, SessionId(now)));
            SessionId(made) in next
            && (next[SessionId(made)] == store[SessionId(made)] <==> !Collide(made, now))
  {
    IdsCollideIff(made, now);
    hide SessionId, Collide, Writable;
    FinalKeptIffIdNotReused(store, Retry(source, SessionId(now)), SessionId(made));
  }
}
