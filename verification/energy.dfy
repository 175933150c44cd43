/** What the energy profile of kernel/proc.c does to a process's rank. */
module Energy {
  import opened ProcModel

  predicate Counters(p: Proc) {
    0 <= p.ticks && 0 <= p.sleeps && 0 <= p.wakes
  }

  function Activity(p: Proc): (n: int) {
    p.sleeps + p.wakes
  }

  lemma QuotientBound(x: int, d: int, q: int)
    requires 0 < d
    ensures x >= q * d <==> x / d >= q
  {
    assert x == x / d * d + x % d && 0 <= x % d < d;
    if x / d >= q {
      assert (x / d - q) * d >= 0;
    } else {
      assert (q - 1 - x / d) * d >= 0;
    }
  }

  lemma LargerDivisor(x: int, d: int, e: int)
    requires 0 <= x && 0 < d <= e
    ensures x / e <= x / d
  {
    QuotientBound(x, e, x / e);
    QuotientBound(x, e, 0);
    assert x / e * (e - d) >= 0;
    QuotientBound(x, d, x / e);
  }

  lemma LargerDividend(x: int, y: int, d: int)
    requires x <= y && 0 < d
    ensures x / d <= y / d
  {
    QuotientBound(x, d, x / d);
    QuotientBound(y, d, x / d);
  }

  /** The rank without a quotient. A process that has neither slept nor been woken loses one point of 10000
      for each tick; any other loses one more for each whole hundredth, and gains ten for each sleep or wake. */
  lemma {:induction false} PriorityAtLeast(p: Proc, r: int)
    requires Counters(p) && r > 0
    ensures Priority(p) >= r <==>
              if Activity(p) == 0 then p.ticks + r <= 10000
              else 100 * p.ticks < (10001 - r - p.ticks + 10 * Activity(p)) * (Activity(p) + 1)
  {
    var room := 10001 - r - p.ticks + 10 * Activity(p);
    QuotientBound(p.ticks * 100, Activity(p) + 1, room);
  }

  /** With the same sleep and wake counts, more CPU time never ranks higher. */
  lemma {:induction false} TicksNeverHelp(p: Proc, q: Proc)
    requires Counters(p) && Counters(q) && Activity(p) == Activity(q) && p.ticks <= q.ticks
    ensures Score(p) <= Score(q) && Priority(p) >= Priority(q)
  {
    LargerDividend(p.ticks * 100, q.ticks * 100, Activity(p) + 1);
  }

  /** The first sleep or wake brings in the intensity term, which can outweigh the bonus. */
  predicate FirstActivityHurts(ticks: int, activity: int) {
    activity > 0 && ticks < 10000 && ticks * 100 / (activity + 1) > activity * 10
  }

  /** With the same CPU time, more sleeping and waking never ranks lower, except from no activity at
      all, and then exactly if the intensity term exceeds the bonus. */
  lemma {:induction false} ActivityHelpsUnlessFirst(p: Proc, q: Proc)
    requires Counters(p) && Counters(q) && p.ticks == q.ticks && Activity(p) <= Activity(q)
    ensures Priority(q) >= Priority(p) <==> !(Activity(p) == 0 && FirstActivityHurts(p.ticks, Activity(q)))
  {
    if Activity(p) > 0 {
      LargerDivisor(p.ticks * 100, Activity(p) + 1, Activity(q) + 1);
    }
  }

  /** For one, a process that has had a single tick ranks lower once it has slept. */
  lemma {:induction false} FirstSleepCanHurt(p: Proc)
    requires p.ticks == 1 && p.sleeps == 0 && p.wakes == 0
    ensures Priority(p.(sleeps := 1)) < Priority(p)
  {
    ActivityHelpsUnlessFirst(p, p.(sleeps := 1));
  }
}
