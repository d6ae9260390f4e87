/**
 * The loyalty page (src/pages/Loyalty.jsx): counts of all, today's and
 * streaking viewers, and the ten longest streaks with each viewer's status.
 */
module Loyalty {
  import opened Wrappers
  import opened Sequences

  /**
   * One entry of the viewers object, its key as `name`; `consecutive_days`
   * and `last_date` may be missing.
   */
  datatype Member = Member(name: string, consecutiveDays: Option<int>, lastDate: Option<string>)

  /** The most streaks the table lists. */
  const TopCount: nat := 10

  /** `viewerList.length` */
  function TotalViewers(list: seq<Member>): nat {
    |list|
  }

  /** `v.last_date === today`, today being the ISO date `new Date()` gives. */
  function SeenOn(today: string): Member -> bool {
    (v: Member) => v.lastDate == Some(today)
  }

  /** `v.consecutive_days >= 2`; a missing count is not a streak. */
  predicate OnStreak(v: Member) {
    v.consecutiveDays.Some? && v.consecutiveDays.value >= 2
  }

  /**
   * `returningToday`: the viewers last seen on the given date; 0 exactly
   * when nobody was.
   */
  function ReturningToday(list: seq<Member>, today: string): (n: nat)
    ensures n <= TotalViewers(list)
    ensures n == 0 <==> forall i :: 0 <= i < |list| ==> list[i].lastDate != Some(today)
  {
    CountZeroIff(list, SeenOn(today));
    Count(list, SeenOn(today))
  }

  /**
   * `streaks`: the viewers on a streak of two days or more; 0 exactly when
   * nobody is.
   */
  function Streaks(list: seq<Member>): (n: nat)
    ensures n <= TotalViewers(list)
    ensures n == 0 <==> forall i :: 0 <= i < |list| ==> !OnStreak(list[i])
  {
    CountZeroIff(list, OnStreak);
    Count(list, OnStreak)
  }

  /** One more viewer adds one to `returningToday` exactly when last seen today. */
  lemma ReturningTodayStep(list: seq<Member>, v: Member, today: string)
    ensures ReturningToday(list + [v], today) ==
            ReturningToday(list, today) + (if v.lastDate == Some(today) then 1 else 0)
  {
    CountSnoc(list + [v], SeenOn(today));
    assert (list + [v])[..|list|] == list;
  }

  /** One more viewer adds one to `streaks` exactly when on a streak. */
  lemma StreaksStep(list: seq<Member>, v: Member)
    ensures Streaks(list + [v]) == Streaks(list) + (if OnStreak(v) then 1 else 0)
  {
    CountSnoc(list + [v], OnStreak);
    assert (list + [v])[..|list|] == list;
  }

  /** `consecutive_days || 0`, the sort key. */
  function StreakDays(v: Member): int {
    v.consecutiveDays.GetOr(0)
  }

  /**
   * `sortedStreaks`: the viewers by streak length, longest first, cut to the
   * first ten. Every viewer left out has a streak no longer than any listed.
   */
  function SortedStreaks(list: seq<Member>): (r: seq<Member>)
    ensures |r| == if |list| < TopCount then |list| else TopCount
    ensures SortedDesc(r, StreakDays)
    ensures multiset(r) <= multiset(list)
    ensures forall x, i :: x in multiset(list) - multiset(r) && 0 <= i < |r| ==> StreakDays(x) <= StreakDays(r[i])
  {
    var s := SortDesc(list, StreakDays);
    var k := if |s| < TopCount then |s| else TopCount;
    TakeSorted(s, StreakDays, k);
    s[..k]
  }

  /** The status column: LOYAL on a streak, EXPLORER otherwise. */
  datatype Status = Loyal | Explorer

  function StatusOf(v: Member): (s: Status)
    ensures s == Loyal <==> OnStreak(v)
  {
    if OnStreak(v) then Loyal else Explorer
  }

  /** `v.consecutive_days || 1`: the days shown, 1 for a missing or zero count. */
  function DaysShown(v: Member): (d: int)
    ensures v.consecutiveDays.None? || v.consecutiveDays.value == 0 ==> d == 1
    ensures v.consecutiveDays.Some? && v.consecutiveDays.value != 0 ==> d == v.consecutiveDays.value
  {
    if v.consecutiveDays.Some? && v.consecutiveDays.value != 0 then v.consecutiveDays.value else 1
  }

  /** `v.last_date || 'N/A'` */
  function LastVisitShown(v: Member): (t: string)
    ensures t != ""
    ensures v.lastDate.Some? && v.lastDate.value != "" ==> t == v.lastDate.value
    ensures v.lastDate.None? || v.lastDate.value == "" ==> t == "N/A"
  {
    if v.lastDate.Some? && v.lastDate.value != "" then v.lastDate.value else "N/A"
  }

  /**
   * The status and the days shown agree: a LOYAL row shows two days or more,
   * an EXPLORER row at most one, a missing count showing as one.
   */
  lemma StatusMatchesDays(v: Member)
    ensures StatusOf(v) == Loyal ==> DaysShown(v) >= 2
    ensures StatusOf(v) == Explorer ==> DaysShown(v) <= 1
  {
  }

  /** In the streak table every LOYAL row comes before every EXPLORER row. */
  lemma LoyalRowsFirst(list: seq<Member>, i: nat, j: nat)
    requires i < j < |SortedStreaks(list)|
    requires StatusOf(SortedStreaks(list)[j]) == Loyal
    ensures StatusOf(SortedStreaks(list)[i]) == Loyal
  {
    var r := SortedStreaks(list);
    assert StreakDays(r[i]) >= StreakDays(r[j]);
  }

  /** Every viewer on a streak is in the table when at most ten are on one. */
  lemma StreakersListed(list: seq<Member>, v: Member)
    requires v in list && OnStreak(v) && Streaks(list) <= TopCount
    ensures v in SortedStreaks(list)
  {
    var r := SortedStreaks(list);
    if v !in r {
      assert v in multiset(list) - multiset(r);
      // every listed viewer is then on a streak as long as v's
      forall i | 0 <= i < |r| ensures OnStreak(r[i]) {
        assert StreakDays(v) <= StreakDays(r[i]);
      }
      StreakersCounted(list, r, v);
      assert false;
    }
  }

  /**
   * If ten listed viewers, and one more not listed, are on a streak, more
   * than ten viewers are.
   */
  lemma StreakersCounted(list: seq<Member>, r: seq<Member>, v: Member)
    requires multiset(r) <= multiset(list) && v in multiset(list) - multiset(r) && OnStreak(v)
    requires |r| == TopCount && forall i :: 0 <= i < |r| ==> OnStreak(r[i])
    ensures Streaks(list) > TopCount
  {
    assert multiset(r + [v]) <= multiset(list);
    FilterAll(r + [v], OnStreak);
    CountOfSub(list, r + [v]);
  }

  /** The streaking viewers of a sub-multiset are at most those of the whole. */
  lemma {:induction false} CountOfSub(list: seq<Member>, sub: seq<Member>)
    requires multiset(sub) <= multiset(list)
    ensures Count(sub, OnStreak) <= Count(list, OnStreak)
    decreases |list|
  {
    if |list| > 0 {
      var last := list[|list| - 1];
      var init := list[..|list| - 1];
      assert list == init + [last];
      CountSnoc(list, OnStreak);
      if last in sub {
        var k :| 0 <= k < |sub| && sub[k] == last;
        var rest := sub[..k] + sub[k + 1..];
        assert sub == sub[..k] + [last] + sub[k + 1..];
        assert multiset(rest) == multiset(sub) - multiset{last};
        assert multiset(rest) <= multiset(init);
        CountOfSub(init, rest);
        CountRemoveAt(sub, k);
      } else {
        assert multiset(sub) <= multiset(init);
        CountOfSub(init, sub);
      }
    } else {
      assert |sub| == 0;
    }
  }

  /** Taking out one element lowers the count by that element's share. */
  lemma {:induction false} CountRemoveAt(s: seq<Member>, k: nat)
    requires k < |s|
    ensures Count(s, OnStreak) == Count(s[..k] + s[k + 1..], OnStreak) + (if OnStreak(s[k]) then 1 else 0)
    decreases |s|
  {
    var t := s[..k] + s[k + 1..];
    CountSnoc(s, OnStreak);
    if k == |s| - 1 {
      assert t == s[..|s| - 1];
    } else {
      var init := s[..|s| - 1];
      CountRemoveAt(init, k);
      assert init[..k] + init[k + 1..] == t[..|t| - 1];
      assert t[|t| - 1] == s[|s| - 1];
      CountSnoc(t, OnStreak);
    }
  }
}
