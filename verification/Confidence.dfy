/** What decay does to a stored confidence (`src/paa/memory/decay.py`,
    `src/paa/memory/domains.py`). The exponential is any function with the laws of one. */
module Confidence {
  import opened Ledger
  import opened Decay

  ghost predicate IsExp(exp: real -> real) {
    && exp(0.0) == 1.0
    && (forall x :: exp(x) > 0.0)
    && (forall x, y :: x < y ==> exp(x) < exp(y))
    && forall x, y :: exp(x + y) == exp(x) * exp(y)
  }

  lemma ScaleStrictly(c: real, x: real, y: real)
    requires c > 0.0 && x < y
    ensures c * x < c * y
  {
  }

  lemma Scale(c: real, x: real, y: real)
    requires c >= 0.0 && x <= y
    ensures c * x <= c * y
  {
  }

  lemma ShareFacts(exp: real -> real, rate: real, t: real)
    requires IsExp(exp)
    ensures Share(exp, rate, t) > 0.0
    ensures t == 0.0 || rate == 0.0 ==> Share(exp, rate, t) == 1.0
  {
    var x := -rate * t;
    assert t == 0.0 || rate == 0.0 ==> x == 0.0;
  }

  lemma ShareFades(exp: real -> real, rate: real, t: real, t': real)
    requires IsExp(exp) && rate > 0.0 && t < t'
    ensures Share(exp, rate, t') < Share(exp, rate, t)
  {
    hide IsExp;
    ScaleStrictly(rate, t, t');
    Below(exp, -rate * t', -rate * t);
  }

  lemma Below(exp: real -> real, x: real, y: real)
    requires IsExp(exp) && x < y
    ensures exp(x) < exp(y)
  {
  }

  lemma ShareAdds(exp: real -> real, rate: real, s: real, t: real)
    requires IsExp(exp)
    ensures Share(exp, rate, s + t) == Share(exp, rate, s) * Share(exp, rate, t)
  {
    hide IsExp;
    var x, y := -rate * s, -rate * t;
    assert -rate * (s + t) == x + y;
    Adds(exp, x, y);
  }

  lemma Adds(exp: real -> real, x: real, y: real)
    requires IsExp(exp)
    ensures exp(x + y) == exp(x) * exp(y)
  {
  }

  lemma EffectiveIsShare(clock: Clock, p: DomainPolicy, initial: real, lastQueried: real)
    requires IsExp(clock.exp) && p.decayLambda >= 0.0
    ensures clock.EffectiveConfidence(p, initial, lastQueried)
            == initial * Share(clock.exp, p.decayLambda, clock.IdleDays(lastQueried))
  {
    hide IsExp, Share, Clock.IdleDays, DomainPolicy.ConfidenceAt;
    ConfidenceIsShare(clock.exp, p, initial, clock.IdleDays(lastQueried));
  }

  lemma ConfidenceIsShare(exp: real -> real, p: DomainPolicy, initial: real, idle: real)
    requires IsExp(exp) && p.decayLambda >= 0.0
    ensures p.ConfidenceAt(exp, initial, idle) == initial * Share(exp, p.decayLambda, idle)
  {
    hide IsExp, Share;
    ShareFacts(exp, p.decayLambda, idle);
  }

  /** A fact queried now or later has all of its confidence. */
  lemma QueriedIsFresh(clock: Clock, p: DomainPolicy, initial: real, lastQueried: real)
    requires IsExp(clock.exp) && p.decayLambda >= 0.0 && lastQueried >= clock.now
    ensures clock.EffectiveConfidence(p, initial, lastQueried) == initial
  {
    hide IsExp, Share;
    EffectiveIsShare(clock, p, initial, lastQueried);
    ShareFacts(clock.exp, p.decayLambda, 0.0);
  }

  /** The longer a fact has been idle the less of it is left, and something always is. */
  lemma IdleFadesStrictly(clock: Clock, p: DomainPolicy, initial: real, earlier: real, later: real)
    requires IsExp(clock.exp) && p.decayLambda > 0.0 && initial > 0.0
    requires earlier < later && earlier < clock.now
    ensures 0.0 < clock.EffectiveConfidence(p, initial, earlier) < clock.EffectiveConfidence(p, initial, later) <= initial
  {
    hide IsExp, Share, Clock.EffectiveConfidence, Clock.IdleDays;
    var t, t' := clock.IdleDays(earlier), clock.IdleDays(later);
    IdleOrder(clock, earlier, later);
    ShareFades(clock.exp, p.decayLambda, t', t);
    if t' > 0.0 { ShareFades(clock.exp, p.decayLambda, 0.0, t'); }
    ShareFacts(clock.exp, p.decayLambda, 0.0);
    ShareFacts(clock.exp, p.decayLambda, t);
    Sandwich(initial, Share(clock.exp, p.decayLambda, t), Share(clock.exp, p.decayLambda, t'));
    EffectiveIsShare(clock, p, initial, earlier);
    EffectiveIsShare(clock, p, initial, later);
  }

  lemma IdleOrder(clock: Clock, earlier: real, later: real)
    requires earlier < later && earlier < clock.now
    ensures clock.IdleDays(earlier) > clock.IdleDays(later) >= 0.0
  {
  }

  lemma Sandwich(c: real, x: real, x': real)
    requires c > 0.0 && 0.0 < x < x' <= 1.0
    ensures 0.0 < c * x < c * x' <= c
  {
    ScaleStrictly(c, 0.0, x);
    ScaleStrictly(c, x, x');
    Scale(c, x', 1.0);
  }

  /** Being idle for one stretch after another is being idle for both: deriving from the
      derived value at any time between gives the same answer. */
  lemma StretchesCompose(clock: Clock, later: Clock, p: DomainPolicy, initial: real, lastQueried: real)
    requires IsExp(clock.exp) && p.decayLambda >= 0.0 && later.exp == clock.exp && lastQueried <= clock.now <= later.now
    ensures later.EffectiveConfidence(p, initial, lastQueried)
            == later.EffectiveConfidence(p, clock.EffectiveConfidence(p, initial, lastQueried), clock.now)
  {
    hide IsExp, Share, Clock.EffectiveConfidence;
    var s, t := clock.now - lastQueried, later.now - clock.now;
    EffectiveIsShare(later, p, initial, lastQueried);
    EffectiveIsShare(clock, p, initial, lastQueried);
    EffectiveIsShare(later, p, clock.EffectiveConfidence(p, initial, lastQueried), clock.now);
    ShareAdds(clock.exp, p.decayLambda, s, t);
    assert later.IdleDays(lastQueried) == s + t;
    Regroup(initial, Share(clock.exp, p.decayLambda, s), Share(clock.exp, p.decayLambda, t));
  }

  lemma Regroup(a: real, b: real, c: real)
    ensures a * (b * c) == (a * b) * c
  {
  }

  /** Each idle day takes the same share, `e^-rate` of what was left. */
  lemma OneDay(clock: Clock, p: DomainPolicy, initial: real, lastQueried: real)
    requires IsExp(clock.exp) && p.decayLambda >= 0.0 && lastQueried <= clock.now
    ensures clock.(now := clock.now + 1.0).EffectiveConfidence(p, initial, lastQueried)
            == clock.EffectiveConfidence(p, initial, lastQueried) * clock.exp(-p.decayLambda)
  {
    hide IsExp, Clock.EffectiveConfidence;
    var tomorrow := clock.(now := clock.now + 1.0);
    StretchesCompose(clock, tomorrow, p, initial, lastQueried);
    EffectiveIsShare(tomorrow, p, clock.EffectiveConfidence(p, initial, lastQueried), clock.now);
    ShareOfOneDay(clock.exp, p.decayLambda);
  }

  lemma ShareOfOneDay(exp: real -> real, rate: real)
    ensures Share(exp, rate, 1.0) == exp(-rate)
  {
    assert -rate * 1.0 == -rate;
  }

  /** Once stale, a row stays stale until it is queried again. */
  lemma StaleStaysStale(clock: Clock, later: Clock, row: Row)
    requires IsExp(clock.exp) && later.exp == clock.exp && clock.now <= later.now
    requires clock.Evictable(row)
    ensures later.Evictable(row)
  {
    hide IsExp, Share, Clock.EffectiveConfidence;
    var p, c := PolicyOf(row.domain).value, row.initialConfidence;
    EffectiveIsShare(clock, p, c, row.lastQueried);
    EffectiveIsShare(later, p, c, row.lastQueried);
    var t, t' := clock.IdleDays(row.lastQueried), later.IdleDays(row.lastQueried);
    var x, x' := Share(clock.exp, p.decayLambda, t), Share(clock.exp, p.decayLambda, t');
    ShareFacts(clock.exp, p.decayLambda, t);
    ShareFacts(clock.exp, p.decayLambda, t');
    if p.decayLambda > 0.0 && t < t' { ShareFades(clock.exp, p.decayLambda, t, t'); }
    assert x' <= x;
    if c >= 0.0 { Scale(c, x', x); } else { ScaleStrictly(-c, 0.0, x'); }
  }

  /** What eviction never touches: immutable and unknown domains, and, at any confidence a
      fact can have, the domains without a floor. */
  lemma NeverEvicted(clock: Clock, row: Row)
    requires IsExp(clock.exp)
    ensures row.domain in {Episodic, Strategic, Identity} || row.domain.Unlisted? ==> !clock.Evictable(row)
    ensures row.domain in {Working, Task, Session, Narrative, Operational, Environmental, Workspace} && row.initialConfidence >= 0.0 ==>
              !clock.Evictable(row)
  {
    hide IsExp, Share, Clock.EffectiveConfidence;
    if PolicyOf(row.domain).Some? {
      var p, t := PolicyOf(row.domain).value, clock.IdleDays(row.lastQueried);
      EffectiveIsShare(clock, p, row.initialConfidence, row.lastQueried);
      ShareFacts(clock.exp, p.decayLambda, t);
      if row.initialConfidence >= 0.0 { Scale(row.initialConfidence, 0.0, Share(clock.exp, p.decayLambda, t)); }
    }
  }

  /** "A fact queried daily stays fresh": one idle day at most, and a day's share of its
      confidence still at the floor, is enough to be kept. */
  lemma QueriedDailyIsKept(clock: Clock, row: Row)
    requires IsExp(clock.exp) && PolicyOf(row.domain).Some? && row.initialConfidence >= 0.0
    requires clock.now - row.lastQueried <= 1.0
    requires row.initialConfidence * clock.exp(-PolicyOf(row.domain).value.decayLambda) >= PolicyOf(row.domain).value.pruneFloor
    ensures !clock.Evictable(row)
  {
    hide IsExp, Share, Clock.EffectiveConfidence, PolicyOf;
    var p, t := PolicyOf(row.domain).value, clock.IdleDays(row.lastQueried);
    RatesAreRates(row.domain);
    EffectiveIsShare(clock, p, row.initialConfidence, row.lastQueried);
    ADayAtMost(clock.exp, p.decayLambda, row.initialConfidence, t);
  }

  lemma RatesAreRates(domain: Domain)
    requires PolicyOf(domain).Some?
    ensures PolicyOf(domain).value.decayLambda >= 0.0 && PolicyOf(domain).value.pruneFloor >= 0.0
  {
  }

  lemma ADayAtMost(exp: real -> real, rate: real, c: real, t: real)
    requires IsExp(exp) && rate >= 0.0 && c >= 0.0 && 0.0 <= t <= 1.0
    ensures c * exp(-rate) <= c * Share(exp, rate, t)
  {
    hide IsExp, Share;
    ShareOfOneDay(exp, rate);
    ShareFacts(exp, rate, 1.0);
    ShareFacts(exp, rate, t);
    if rate > 0.0 && t < 1.0 { ShareFades(exp, rate, t, 1.0); }
    Scale(c, Share(exp, rate, 1.0), Share(exp, rate, t));
  }

  /** Bernoulli: what is left after `n` days is at most one part in a line of `n`. */
  lemma {:induction false} FadesBelowLine(exp: real -> real, rate: real, g: real, n: nat)
    requires IsExp(exp) && g > 0.0 && Share(exp, rate, 1.0) * (1.0 + g) == 1.0
    ensures Share(exp, rate, n as real) * (1.0 + n as real * g) <= 1.0
  {
    hide IsExp, Share;
    ShareFacts(exp, rate, n as real);
    if n > 0 {
      var m := (n - 1) as real;
      FadesBelowLine(exp, rate, g, n - 1);
      ShareFacts(exp, rate, m);
      ShareFacts(exp, rate, 1.0);
      ShareAdds(exp, rate, m, 1.0);
      OneMoreDay(Share(exp, rate, m), Share(exp, rate, 1.0), m, g);
    }
  }

  lemma OneMoreDay(x: real, day: real, m: real, g: real)
    requires x > 0.0 && day > 0.0 && m >= 0.0 && g > 0.0 && day * (1.0 + g) == 1.0 && x * (1.0 + m * g) <= 1.0
    ensures (x * day) * (1.0 + (m + 1.0) * g) <= 1.0
  {
    var line := 1.0 + m * g;
    Scale(m, 0.0, g);
    Scale(m * g, 0.0, g);
    assert 1.0 + (m + 1.0) * g <= line * (1.0 + g) by {
      assert line * (1.0 + g) == 1.0 + g + m * g + (m * g) * g;
      assert (m + 1.0) * g == m * g + g;
    }
    var xd := x * day;
    assert xd >= 0.0 by { Scale(x, 0.0, day); }
    Scale(xd, 1.0 + (m + 1.0) * g, line * (1.0 + g));
    assert xd * (line * (1.0 + g)) == x * line by {
      Regroup(x, day, line * (1.0 + g));
      assert day * (line * (1.0 + g)) == line * (day * (1.0 + g)) by { Swap(day, line, 1.0 + g); }
    }
  }

  lemma Swap(a: real, b: real, c: real)
    ensures a * (b * c) == b * (a * c)
  {
  }

  /** Nothing left alone is remembered for good: in a domain that decays and has a floor
      every row goes stale after enough idle days. */
  lemma EventuallyStale(clock: Clock, row: Row) returns (days: nat)
    requires IsExp(clock.exp) && PolicyOf(row.domain).Some?
    requires var p := PolicyOf(row.domain).value; !p.immutable && p.decayLambda > 0.0 && p.pruneFloor > 0.0
    ensures forall later: Clock :: later.exp == clock.exp && later.now >= row.lastQueried + days as real ==> later.Evictable(row)
  {
    hide IsExp, Share, Clock.EffectiveConfidence;
    var p, c := PolicyOf(row.domain).value, row.initialConfidence;
    var day := Share(clock.exp, p.decayLambda, 1.0);
    ShareFacts(clock.exp, p.decayLambda, 1.0);
    ShareFacts(clock.exp, p.decayLambda, 0.0);
    ShareFades(clock.exp, p.decayLambda, 0.0, 1.0);
    var g := 1.0 / day - 1.0;
    Reciprocal(day);
    days := EnoughDays(c, p.pruneFloor, g);
    FadesBelowLine(clock.exp, p.decayLambda, g, days);
    var then' := clock.(now := row.lastQueried + days as real);
    assert then'.IdleDays(row.lastQueried) == days as real;
    EffectiveIsShare(then', p, c, row.lastQueried);
    ShareFacts(clock.exp, p.decayLambda, days as real);
    LeftIsLittle(c, p.pruneFloor, g, days, Share(clock.exp, p.decayLambda, days as real));
    forall later: Clock | later.exp == clock.exp && later.now >= row.lastQueried + days as real ensures later.Evictable(row) {
      StaleStaysStale(then', later, row);
    }
  }

  lemma Reciprocal(day: real)
    requires 0.0 < day < 1.0
    ensures day * (1.0 + (1.0 / day - 1.0)) == 1.0 && 1.0 / day - 1.0 > 0.0
  {
    var r := 1.0 / day;
    assert day * r == 1.0;
    if r <= 1.0 { Scale(day, r, 1.0); }
  }

  lemma EnoughDays(c: real, floor: real, g: real) returns (days: nat)
    requires floor > 0.0 && g > 0.0
    ensures floor * (1.0 + days as real * g) > c
  {
    if c <= 0.0 {
      days := 0;
      return;
    }
    var line := c / floor;
    var need := line / g;
    assert floor * line == c && g * need == line;
    assert line >= 0.0 by { if line < 0.0 { ScaleStrictly(floor, line, 0.0); } }
    assert need >= 0.0 by { if need < 0.0 { ScaleStrictly(g, need, 0.0); } }
    days := need.Floor + 1;
    ScaleStrictly(g, need, days as real);
    ScaleStrictly(floor, line, 1.0 + days as real * g);
  }

  lemma LeftIsLittle(c: real, floor: real, g: real, days: nat, left: real)
    requires floor > 0.0 && g > 0.0 && left > 0.0 && left * (1.0 + days as real * g) <= 1.0
    requires floor * (1.0 + days as real * g) > c
    ensures c * left < floor
  {
    var line := 1.0 + days as real * g;
    ScaleStrictly(left, c, floor * line);
    Swap(left, floor, line);
    Scale(floor, left * line, 1.0);
  }

  /** A semantic fact of confidence 0.9 that nobody has read for a thousand days goes. */
  lemma ForgottenAfterAThousandDays(clock: Clock, row: Row)
    requires IsExp(clock.exp) && clock.exp(-1.0) <= 0.37
    requires row.domain == Semantic && row.initialConfidence == 0.9 && row.lastQueried == clock.now - 1000.0
    ensures clock.Evictable(row)
  {
    hide IsExp;
    var e := clock.exp(-1.0);
    Adds(clock.exp, -1.0, -1.0);
    ShareFacts(clock.exp, 1.0, 1.0);
    ShareOfOneDay(clock.exp, 1.0);
    Scale(e, e, 0.37);
    Scale(0.37, e, 0.37);
    assert -0.002 * 1000.0 == -2.0;
    assert e * e <= 0.37 * e <= 0.37 * 0.37;
    assert clock.exp(-2.0) <= 0.1369 by { assert -1.0 + -1.0 == -2.0; }
    assert clock.IdleDays(row.lastQueried) == 1000.0;
  }
}
