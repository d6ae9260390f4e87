/**
 * The alert overlay (src/pages/AlertOverlay.jsx): which log-socket frames
 * pop up an alert, and the title, emoji and style each alert gets; a
 * donation alert is also read out.
 *
 * The emoji literals of src/pages/AlertOverlay.jsx:19, 24 and 29 are not
 * emoji: each is the four UTF-8 bytes of an emoji read back one character
 * per byte through Windows-1252 (the fire emoji shows as the four
 * characters U+00F0 U+0178 U+201D U+00A5). `AsWrittenEmoji` holds the
 * literals as written and `AsWrittenEmojiAreMisread` shows what they are;
 * the model's alerts use the intended emoji.
 */
module AlertOverlay {
  import opened Wrappers
  import opened Strings
  import opened ConfigDoc
  import opened Frames
  import opened Encoding

  /** `data.type === 'alert'` or one of the four alert categories. */
  predicate Accepts(f: Frame) {
    f.kind == Some("alert") || HasCategory(f, "RANK_UP") || HasCategory(f, "LOYALTY") ||
    HasCategory(f, "UPI_ALERT") || HasCategory(f, "ALERT")
  }

  /** The index of the first `c` in `s`, or `|s|` when there is none. */
  function FirstAt(s: string, c: char): (i: nat)
    ensures i <= |s|
    ensures i < |s| ==> s[i] == c
    ensures c !in s[..i]
    ensures i == |s| <==> c !in s
  {
    if |s| == 0 then 0
    else if s[0] == c then 0
    else
      var j := FirstAt(s[1..], c);
      assert s[..j + 1] == [s[0]] + s[1..][..j];
      j + 1
  }

  /** `s.replace(from, to)` with one-character texts: only the first occurrence changes. */
  function ReplaceFirst(s: string, from: char, to: char): (r: string)
    ensures |r| == |s|
    ensures from !in s ==> r == s
    ensures from in s ==> exists i :: 0 <= i < |s| && s[i] == from && from !in s[..i] &&
                                      r[..i] == s[..i] && r[i] == to && r[i + 1..] == s[i + 1..]
  {
    var i := FirstAt(s, from);
    if i == |s| then s
    else
      var r := s[..i] + [to] + s[i + 1..];
      assert r[..i] == s[..i] && r[i + 1..] == s[i + 1..];
      r
  }

  /** `data.category?.replace('_', ' ') || 'New Alert'` */
  function CategoryTitle(category: Option<string>): (r: string)
    ensures r != ""
    ensures category.None? || category.value == "" ==> r == "New Alert"
    ensures category.Some? && category.value != "" ==> r == ReplaceFirst(category.value, '_', ' ')
  {
    if category.None? then "New Alert"
    else
      var t := ReplaceFirst(category.value, '_', ' ');
      if t == "" then "New Alert" else t
  }

  /** The three emoji an alert can default to. */
  datatype EmojiSet = EmojiSet(fire: string, money: string, bell: string)

  /** The literals as the source spells them. */
  const AsWrittenEmoji: EmojiSet := EmojiSet(
    "\U{00F0}\U{0178}\U{201D}\U{00A5}",
    "\U{00F0}\U{0178}\U{2019}\U{00B8}",
    "\U{00F0}\U{0178}\U{201D}\U{201D}")

  /** The emoji the literals stand for: fire, money with wings, bell. */
  const IntendedEmoji: EmojiSet := EmojiSet("\U{1F525}", "\U{1F4B8}", "\U{1F514}")

  /**
   * Each literal as written is its intended emoji's UTF-8 bytes misread as
   * Windows-1252, and so is not that emoji.
   */
  lemma AsWrittenEmojiAreMisread()
    ensures AsWrittenEmoji.fire == Cp1252Text(Utf8(IntendedEmoji.fire)) != IntendedEmoji.fire
    ensures AsWrittenEmoji.money == Cp1252Text(Utf8(IntendedEmoji.money)) != IntendedEmoji.money
    ensures AsWrittenEmoji.bell == Cp1252Text(Utf8(IntendedEmoji.bell)) != IntendedEmoji.bell
  {
    var fire: seq<Byte> := [0xF0, 0x9F, 0x94, 0xA5];
    var money: seq<Byte> := [0xF0, 0x9F, 0x92, 0xB8];
    var bell: seq<Byte> := [0xF0, 0x9F, 0x94, 0x94];
    assert Utf8Char('\U{1F525}') == fire;
    assert Utf8Char('\U{1F4B8}') == money;
    assert Utf8Char('\U{1F514}') == bell;
    assert Cp1252Char(0x9F) == '\U{0178}' && Cp1252Char(0x94) == '\U{201D}' && Cp1252Char(0x92) == '\U{2019}';
    MisreadOne(IntendedEmoji.fire, fire, AsWrittenEmoji.fire);
    MisreadOne(IntendedEmoji.money, money, AsWrittenEmoji.money);
    MisreadOne(IntendedEmoji.bell, bell, AsWrittenEmoji.bell);
  }

  lemma MisreadOne(emoji: string, bytes: seq<Byte>, shown: string)
    requires |emoji| == 1 && Utf8Char(emoji[0]) == bytes && |bytes| == 4
    requires |shown| == 4 && forall i :: 0 <= i < 4 ==> shown[i] == Cp1252Char(bytes[i])
    ensures shown == Cp1252Text(Utf8(emoji)) != emoji
  {
    assert Utf8(emoji) == Utf8Char(emoji[0]) + Utf8(emoji[1..]);
    assert emoji[1..] == "";
  }

  datatype Style = DefaultStyle | MoneyStyle

  /** The alert on screen. Its id (the clock) and its five-second clear are left out. */
  datatype Alert = Alert(title: string, message: string, emoji: string, style: Style, meta: Option<Json>)

  /** The alert a frame raises, with the given emoji for the defaults; `None` for an ignored frame. */
  function AlertWith(f: Frame, emoji: EmojiSet): (r: Option<Alert>)
    ensures r.Some? <==> Accepts(f)
    ensures r.Some? ==> r.value.message == f.message && r.value.meta == f.meta
    ensures r.Some? && HasCategory(f, "UPI_ALERT") ==>
              r.value.title == "UPI RECEIVED" && r.value.emoji == emoji.money && r.value.style == MoneyStyle
    ensures r.Some? && HasCategory(f, "ALERT") ==>
              r.value.title == "STREAM ALERT" && r.value.emoji == emoji.bell && r.value.style == DefaultStyle
    ensures r.Some? && !HasCategory(f, "UPI_ALERT") && !HasCategory(f, "ALERT") ==>
              r.value.title == CategoryTitle(f.category) && r.value.emoji == TextOr(f.emoji, emoji.fire) &&
              r.value.style == DefaultStyle
  {
    if !Accepts(f) then None
    else
      var title := CategoryTitle(f.category);
      var e := TextOr(f.emoji, emoji.fire);
      if HasCategory(f, "UPI_ALERT") then Some(Alert("UPI RECEIVED", f.message, emoji.money, MoneyStyle, f.meta))
      else if HasCategory(f, "ALERT") then Some(Alert("STREAM ALERT", f.message, emoji.bell, DefaultStyle, f.meta))
      else Some(Alert(title, f.message, e, DefaultStyle, f.meta))
  }

  /** The overlay as written, with the misread literals. */
  function AlertAsWritten(f: Frame): Option<Alert> {
    AlertWith(f, AsWrittenEmoji)
  }

  /** The overlay as intended. */
  function AlertFor(f: Frame): Option<Alert> {
    AlertWith(f, IntendedEmoji)
  }

  /**
   * A donation alert as written shows four characters where one emoji is
   * meant; as intended it shows the emoji itself, the character whose UTF-8
   * bytes the literal misreads.
   */
  lemma DonationEmoji(f: Frame)
    requires HasCategory(f, "UPI_ALERT")
    ensures AlertAsWritten(f).Some? && |AlertAsWritten(f).value.emoji| == 4
    ensures AlertFor(f).Some? && |AlertFor(f).value.emoji| == 1
    ensures Cp1252Text(Utf8(AlertFor(f).value.emoji)) == AlertAsWritten(f).value.emoji
  {
    AsWrittenEmojiAreMisread();
  }

  /** A category without an underscore is its own title. */
  lemma TitleWithoutUnderscore(c: string)
    requires c != "" && '_' !in c
    ensures CategoryTitle(Some(c)) == c
  {
  }

  /** Of two words joined by an underscore, the title has a space in its place. */
  lemma TitleOfTwoWords(a: string, b: string)
    requires '_' !in a
    ensures CategoryTitle(Some(a + "_" + b)) == a + " " + b
  {
    var s := a + "_" + b;
    assert FirstAt(s, '_') == |a| by {
      assert s[|a|] == '_' && s[..|a|] == a;
    }
    assert s[..|a|] + " " + s[|a| + 1..] == a + " " + b;
  }

  /** Rank-up and loyalty alerts are titled after their category, its underscore a space. */
  lemma CategoryTitles()
    ensures CategoryTitle(Some("RANK_UP")) == "RANK UP"
    ensures CategoryTitle(Some("LOYALTY")) == "LOYALTY"
  {
    TitleOfTwoWords("RANK", "UP");
    assert "RANK" + "_" + "UP" == "RANK_UP" && "RANK" + " " + "UP" == "RANK UP";
    TitleWithoutUnderscore("LOYALTY");
  }

  /**
   * What a donation alert says aloud: `New donation of <amount> rupees from
   * <sender>. <message>`, with `some` and `someone` for a missing amount or
   * sender. Other alerts are not spoken.
   */
  function Speech(a: Alert): (r: Option<string>)
    ensures r.Some? <==> a.style == MoneyStyle
  {
    if a.style == MoneyStyle then
      var meta := if a.meta.Some? then Get(a.meta.value, "amount") else None;
      var sender := if a.meta.Some? then Get(a.meta.value, "sender") else None;
      Some("New donation of " + JsString(OrElse(meta, JStr("some"))) + " rupees from " +
           JsString(OrElse(sender, JStr("someone"))) + ". " + a.message)
    else None
  }

  /** Exactly the alerts raised by UPI frames are read out. */
  lemma OnlyDonationsSpoken(f: Frame)
    requires Accepts(f)
    ensures Speech(AlertFor(f).value).Some? <==> HasCategory(f, "UPI_ALERT")
  {
  }

  /** A donation without metadata is read with the stock words. */
  lemma DonationWithoutMeta(f: Frame)
    requires HasCategory(f, "UPI_ALERT") && f.meta.None?
    ensures Speech(AlertFor(f).value) == Some("New donation of some rupees from someone. " + f.message)
  {
    var a := AlertFor(f).value;
    assert a.meta.None? && a.style == MoneyStyle && a.message == f.message;
    assert JsString(OrElse(None, JStr("some"))) == "some";
    assert JsString(OrElse(None, JStr("someone"))) == "someone";
    assert "New donation of " + "some" + " rupees from " + "someone" + ". " == "New donation of some rupees from someone. ";
  }
}
