/**
 * The dashboard page (src/pages/Dashboard.jsx): counts of the buffered log
 * frames by category and the badge each frame's category gets.
 */
module Dashboard {
  import opened Wrappers
  import opened Frames
  import opened Sequences

  /**
   * `logs.filter(l => l.category === c).length`: never more than the buffer
   * holds, and 0 exactly when no buffered frame has the category.
   */
  function CategoryCount(logs: seq<Frame>, c: string): (n: nat)
    ensures n <= |logs|
    ensures n == 0 <==> forall i :: 0 <= i < |logs| ==> !HasCategory(logs[i], c)
  {
    CountZeroIff(logs, CategoryIs(c));
    Count(logs, CategoryIs(c))
  }

  /** `modActions` */
  function ModActions(logs: seq<Frame>): nat {
    CategoryCount(logs, "MOD")
  }

  /** `chatCount` */
  function ChatCount(logs: seq<Frame>): nat {
    CategoryCount(logs, "CHAT")
  }

  /** `aiCount` */
  function AiCount(logs: seq<Frame>): nat {
    CategoryCount(logs, "AI_RESPONSE")
  }

  /** A frame in one of the three counted categories. */
  function Counted(): Frame -> bool {
    f => HasCategory(f, "MOD") || HasCategory(f, "CHAT") || HasCategory(f, "AI_RESPONSE")
  }

  /**
   * A frame has one category, so the three counts together count each frame
   * at most once: their sum is the number of frames in any of the three
   * categories, and never more than the buffer holds.
   */
  lemma CountsWithinLogs(logs: seq<Frame>)
    ensures ModActions(logs) + ChatCount(logs) + AiCount(logs) == Count(logs, Counted())
    ensures ModActions(logs) + ChatCount(logs) + AiCount(logs) <= |logs|
  {
    var modOrChat: Frame -> bool := f => HasCategory(f, "MOD") || HasCategory(f, "CHAT");
    CountDisjoint(logs, CategoryIs("MOD"), CategoryIs("CHAT"), modOrChat);
    CountDisjoint(logs, modOrChat, CategoryIs("AI_RESPONSE"), Counted());
  }

  /** The badge styles of the log list. */
  datatype Badge = ChatBadge | AiBadge | ModBadge | ErrorBadge | PlainBadge

  /** The badge of a frame: one per known category, the plain one otherwise. */
  function BadgeFor(f: Frame): (b: Badge)
    ensures b == ChatBadge <==> HasCategory(f, "CHAT")
    ensures b == AiBadge <==> HasCategory(f, "AI_RESPONSE")
    ensures b == ModBadge <==> HasCategory(f, "MOD")
    ensures b == ErrorBadge <==> HasCategory(f, "ERROR")
    ensures b == PlainBadge <==> !(f.category.Some? && f.category.value in {"CHAT", "AI_RESPONSE", "MOD", "ERROR"})
  {
    if HasCategory(f, "CHAT") then ChatBadge
    else if HasCategory(f, "AI_RESPONSE") then AiBadge
    else if HasCategory(f, "MOD") then ModBadge
    else if HasCategory(f, "ERROR") then ErrorBadge
    else PlainBadge
  }

  /** Each of the counts counts the frames shown with the matching badge. */
  lemma CountsMatchBadges(logs: seq<Frame>)
    ensures ModActions(logs) == Count(logs, f => BadgeFor(f) == ModBadge)
    ensures ChatCount(logs) == Count(logs, f => BadgeFor(f) == ChatBadge)
    ensures AiCount(logs) == Count(logs, f => BadgeFor(f) == AiBadge)
  {
    SameCount(logs, CategoryIs("MOD"), f => BadgeFor(f) == ModBadge);
    SameCount(logs, CategoryIs("CHAT"), f => BadgeFor(f) == ChatBadge);
    SameCount(logs, CategoryIs("AI_RESPONSE"), f => BadgeFor(f) == AiBadge);
  }

  lemma {:induction false} SameCount(logs: seq<Frame>, p: Frame -> bool, q: Frame -> bool)
    requires forall f :: p(f) == q(f)
    ensures Count(logs, p) == Count(logs, q)
    decreases |logs|
  {
    if |logs| > 0 {
      SameCount(logs[..|logs| - 1], p, q);
      CountSnoc(logs, p);
      CountSnoc(logs, q);
    }
  }
}
