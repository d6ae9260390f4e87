/**
 * The viewer-memory page (src/pages/Viewers.jsx): the leaderboard of
 * viewers, narrowed by a search and ordered by message count, and the rank
 * each count earns.
 *
 * The rank emoji literals of src/pages/Viewers.jsx:30-35 are not emoji:
 * each is the four UTF-8 bytes of an emoji read back one character per
 * byte through Mac OS Roman (the crown shows as U+F8FF U+00FC U+00EB
 * U+00EB). `EmojiAsWritten` holds them as written and
 * `EmojiAsWrittenIsMisread` shows what they are; `Info` uses the intended
 * emoji.
 */
module Viewers {
  import opened Strings
  import opened Sequences
  import opened Encoding

  /** One entry of the viewers object, its key as `name`. */
  datatype Viewer = Viewer(name: string, count: int, lastSeen: int)

  // ------------------------------------------------------------ ranks

  datatype Rank = Noob | Bronze | Silver | Gold | Diamond | God

  /** The ranks in ascending order. */
  function Level(r: Rank): nat {
    match r
    case Noob => 0
    case Bronze => 1
    case Silver => 2
    case Gold => 3
    case Diamond => 4
    case God => 5
  }

  /** The fewest messages that earn a rank. */
  function Threshold(r: Rank): int {
    match r
    case Noob => 0
    case Bronze => 10
    case Silver => 50
    case Gold => 200
    case Diamond => 500
    case God => 1000
  }

  /**
   * `getRankInfo`'s if-chain: the highest rank whose threshold the count
   * reaches; below 10 messages, negative counts included, a viewer is Noob.
   */
  function RankOf(count: int): (r: Rank)
    ensures r != Noob ==> count >= Threshold(r)
    ensures forall s: Rank :: Level(s) > Level(r) && s != Noob ==> count < Threshold(s)
  {
    if count >= 1000 then God
    else if count >= 500 then Diamond
    else if count >= 200 then Gold
    else if count >= 50 then Silver
    else if count >= 10 then Bronze
    else Noob
  }

  /** A larger count never earns a lower rank. */
  lemma RankMonotone(a: int, b: int)
    requires a <= b
    ensures Level(RankOf(a)) <= Level(RankOf(b))
  {
  }

  /** Each rank is earned by its threshold count exactly. */
  lemma ThresholdEarnsRank(r: Rank)
    requires r != Noob
    ensures RankOf(Threshold(r)) == r && RankOf(Threshold(r) - 1) != r
  {
  }

  /** The name the page shows for a rank. */
  function Name(r: Rank): string {
    match r
    case Noob => "Noob"
    case Bronze => "Bronze"
    case Silver => "Silver"
    case Gold => "Gold"
    case Diamond => "Diamond"
    case God => "GOD"
  }

  /** The text colour class of a rank's badge. */
  function Color(r: Rank): string {
    match r
    case Noob => "text-zinc-500"
    case Bronze => "text-orange-400"
    case Silver => "text-zinc-300"
    case Gold => "text-yellow-500"
    case Diamond => "text-blue-400"
    case God => "text-amber-400"
  }

  /** The emoji of a rank: hatching chick, the three medals, gem, crown. */
  function Emoji(r: Rank): string {
    match r
    case Noob => "\U{1F423}"
    case Bronze => "\U{1F949}"
    case Silver => "\U{1F948}"
    case Gold => "\U{1F947}"
    case Diamond => "\U{1F48E}"
    case God => "\U{1F451}"
  }

  /** The emoji literals as the source spells them. */
  function EmojiAsWritten(r: Rank): string {
    match r
    case Noob => "\U{F8FF}\U{00FC}\U{00EA}\U{00A3}"
    case Bronze => "\U{F8FF}\U{00FC}\U{2022}\U{00E2}"
    case Silver => "\U{F8FF}\U{00FC}\U{2022}\U{00E0}"
    case Gold => "\U{F8FF}\U{00FC}\U{2022}\U{00E1}"
    case Diamond => "\U{F8FF}\U{00FC}\U{00ED}\U{00E9}"
    case God => "\U{F8FF}\U{00FC}\U{00EB}\U{00EB}"
  }

  /** The UTF-8 bytes of each rank's emoji. */
  function EmojiBytes(r: Rank): (bs: seq<Byte>)
    ensures |bs| == 4
  {
    match r
    case Noob => [0xF0, 0x9F, 0x90, 0xA3]
    case Bronze => [0xF0, 0x9F, 0xA5, 0x89]
    case Silver => [0xF0, 0x9F, 0xA5, 0x88]
    case Gold => [0xF0, 0x9F, 0xA5, 0x87]
    case Diamond => [0xF0, 0x9F, 0x92, 0x8E]
    case God => [0xF0, 0x9F, 0x91, 0x91]
  }

  /**
   * Each literal as written is the intended emoji's UTF-8 bytes misread as
   * Mac OS Roman, four characters where one is meant.
   */
  lemma EmojiAsWrittenIsMisread(r: Rank)
    ensures |Emoji(r)| == 1 && |EmojiAsWritten(r)| == 4
    ensures EmojiAsWritten(r) == MacRomanText(Utf8(Emoji(r)))
  {
    var e := Emoji(r);
    var bs := EmojiBytes(r);
    EmojiBytesAreUtf8(r);
    AsWrittenIsMacRoman(r);
    assert Utf8(e) == Utf8Char(e[0]) + Utf8(e[1..]);
    assert e[1..] == "";
  }

  lemma EmojiBytesAreUtf8(r: Rank)
    ensures |Emoji(r)| == 1 && Utf8Char(Emoji(r)[0]) == EmojiBytes(r)
  {
  }

  lemma AsWrittenIsMacRoman(r: Rank)
    ensures |EmojiAsWritten(r)| == 4
    ensures forall i :: 0 <= i < 4 ==> EmojiAsWritten(r)[i] == MacRomanChar(EmojiBytes(r)[i])
  {
  }

  /** What `getRankInfo` returns. */
  datatype RankInfo = RankInfo(name: string, emoji: string, color: string)

  /** `getRankInfo(count)` with the intended emoji. */
  function Info(count: int): (r: RankInfo)
    ensures r.name == "GOD" <==> count >= 1000
    ensures r.name == "Noob" <==> count < 10
    ensures r.emoji == Emoji(RankOf(count)) && |r.emoji| == 1
    ensures r.name == Name(RankOf(count)) && r.color == Color(RankOf(count))
  {
    var rank := RankOf(count);
    RankInfo(Name(rank), Emoji(rank), Color(rank))
  }

  /** The name and colour `getRankInfo` gives in each band of message counts. */
  lemma InfoBands(count: int)
    ensures count >= 1000 ==> Info(count).name == "GOD" && Info(count).color == "text-amber-400"
    ensures 500 <= count < 1000 ==> Info(count).name == "Diamond" && Info(count).color == "text-blue-400"
    ensures 200 <= count < 500 ==> Info(count).name == "Gold" && Info(count).color == "text-yellow-500"
    ensures 50 <= count < 200 ==> Info(count).name == "Silver" && Info(count).color == "text-zinc-300"
    ensures 10 <= count < 50 ==> Info(count).name == "Bronze" && Info(count).color == "text-orange-400"
    ensures count < 10 ==> Info(count).name == "Noob" && Info(count).color == "text-zinc-500"
  {
  }

  /** `getRankInfo(count)` as written, with the misread emoji. */
  function InfoAsWritten(count: int): (r: RankInfo)
    ensures r.name == Info(count).name && r.color == Info(count).color
  {
    var rank := RankOf(count);
    RankInfo(Name(rank), EmojiAsWritten(rank), Color(rank))
  }

  /** The page as written shows, for every count, the misread form of the emoji `Info` shows. */
  lemma RankEmojiAsWritten(count: int)
    ensures InfoAsWritten(count).emoji == MacRomanText(Utf8(Info(count).emoji)) != Info(count).emoji
  {
    EmojiAsWrittenIsMisread(RankOf(count));
  }

  // ------------------------------------------------------------ leaderboard

  /** The sort key, `count`. */
  function Messages(v: Viewer): int {
    v.count
  }

  /** The search box as a predicate on viewers. */
  function Shown(search: string): Viewer -> bool {
    (v: Viewer) => Matches(v.name, search)
  }

  /**
   * `sortedViewers`: the viewers whose lower-cased name contains the
   * lower-cased search, by message count, most first.
   */
  function SortedViewers(entries: seq<Viewer>, search: string): (r: seq<Viewer>)
    ensures SortedDesc(r, Messages)
    ensures multiset(r) == multiset(Filter(entries, Shown(search)))
    ensures forall v :: v in r <==> v in entries && Matches(v.name, search)
  {
    var shown := Filter(entries, Shown(search));
    var r := SortDesc(shown, Messages);
    forall v ensures v in r <==> v in shown {
      assert v in r <==> v in multiset(r);
      assert v in shown <==> v in multiset(shown);
    }
    assert forall v :: v in shown <==> v in entries && Matches(v.name, search) by {
      forall v ensures v in shown <==> v in entries && Matches(v.name, search) {
        FilterMembers(entries, Shown(search), v);
      }
    }
    r
  }

  /** A row of the leaderboard: the 1-based position shown as `#n`, and the viewer. */
  datatype Row = Row(position: nat, viewer: Viewer)

  /** The rows of the table, numbered from 1 in list order. */
  function Rows(sorted: seq<Viewer>): (r: seq<Row>)
    ensures |r| == |sorted|
    ensures forall i :: 0 <= i < |r| ==> r[i].viewer == sorted[i] && r[i].position == i + 1
  {
    seq(|sorted|, i requires 0 <= i < |sorted| => Row(i + 1, sorted[i]))
  }

  /**
   * On the leaderboard (any list sorted as `sortedViewers` is) a viewer with
   * more messages always has a smaller number.
   */
  lemma MoreMessagesRankHigher(sorted: seq<Viewer>, i: nat, j: nat)
    requires SortedDesc(sorted, Messages)
    requires i < |sorted| && j < |sorted| && sorted[i].count > sorted[j].count
    ensures Rows(sorted)[i].position < Rows(sorted)[j].position
  {
  }

  /** Down the leaderboard the ranks never go up. */
  lemma RanksDescend(sorted: seq<Viewer>, i: nat, j: nat)
    requires SortedDesc(sorted, Messages)
    requires i <= j < |sorted|
    ensures Level(RankOf(Rows(sorted)[j].viewer.count)) <= Level(RankOf(Rows(sorted)[i].viewer.count))
  {
    assert Messages(sorted[i]) >= Messages(sorted[j]);
    RankMonotone(sorted[j].count, sorted[i].count);
  }
}
