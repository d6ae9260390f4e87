/**
 * The settings page (src/pages/Settings.jsx). It edits the same local copy
 * of the configuration as the moderation page, through the same dotted-path
 * update (`Moderation.LocalConfig.UpdateNested`); what is its own is how text
 * boxes turn into stored values and how stored values are shown:
 * comma-separated trigger lists, numbers with fallbacks, and cooldowns shown
 * with defaults.
 */
module Settings {
  import opened Wrappers
  import opened Strings
  import opened ConfigDoc

  // ------------------------------------------------------------ comma lists

  /** `.map(s => s.trim()).filter(Boolean)` */
  function TrimmedNonEmpty(pieces: seq<string>): (r: seq<string>)
    ensures |r| <= |pieces|
    ensures forall i :: 0 <= i < |r| ==> r[i] != "" && IsTrimmed(r[i])
    decreases |pieces|
  {
    if |pieces| == 0 then []
    else
      var t := Trim(pieces[0]);
      TrimIsTrimmed(pieces[0]);
      if t == "" then TrimmedNonEmpty(pieces[1..]) else [t] + TrimmedNonEmpty(pieces[1..])
  }

  /**
   * The prefix and keyword boxes' parse:
   * `text.split(',').map(s => s.trim()).filter(Boolean)`.
   */
  function ParseList(text: string): (r: seq<string>)
    ensures forall i :: 0 <= i < |r| ==> r[i] != "" && IsTrimmed(r[i]) && ',' !in r[i]
  {
    var pieces := Split(text, ',');
    var r := TrimmedNonEmpty(pieces);
    TrimmedNonEmptyNoComma(pieces);
    r
  }

  lemma {:induction false} TrimmedNonEmptyNoComma(pieces: seq<string>)
    requires forall i :: 0 <= i < |pieces| ==> ',' !in pieces[i]
    ensures forall i :: 0 <= i < |TrimmedNonEmpty(pieces)| ==> ',' !in TrimmedNonEmpty(pieces)[i]
    decreases |pieces|
  {
    if |pieces| > 0 {
      TrimmedNonEmptyNoComma(pieces[1..]);
      TrimKeepsOut(pieces[0], ',');
      var t := Trim(pieces[0]);
      var rest := TrimmedNonEmpty(pieces[1..]);
      var r := TrimmedNonEmpty(pieces);
      if t == "" {
        assert r == rest;
      } else {
        assert r == [t] + rest;
        forall i | 0 <= i < |r| ensures ',' !in r[i] {
          if i > 0 {
            assert r[i] == rest[i - 1];
          }
        }
      }
    }
  }

  /** The text the boxes show: `list.join(', ')`. */
  function ShowList(xs: seq<string>): string {
    Join(xs, ", ")
  }

  /** An entry the parse keeps as it is: non-empty, trimmed, no comma. */
  predicate CleanEntry(x: string) {
    x != "" && IsTrimmed(x) && ',' !in x
  }

  /**
   * Showing a list and parsing the text back gives the list again when every
   * entry is non-empty, trimmed and comma-free.
   */
  lemma ParseShowList(xs: seq<string>)
    requires forall i :: 0 <= i < |xs| ==> CleanEntry(xs[i])
    ensures ParseList(ShowList(xs)) == xs
  {
    if |xs| == 0 {
      assert Split("", ',') == [""];
      assert TrimmedNonEmpty([""]) == [] by {
        assert Trim("") == "";
      }
    } else {
      var padded := PadTail(xs, " ");
      JoinPadded(xs, ',', " ");
      assert [','] + " " == ", ";
      forall i | 0 <= i < |padded| ensures ',' !in padded[i] {
        if i > 0 {
          assert padded[i] == " " + xs[i];
        }
      }
      SplitJoin(padded, ',');
      TrimmedNonEmptyPadded(xs);
    }
  }

  lemma TrimmedNonEmptyPadded(xs: seq<string>)
    requires |xs| >= 1
    requires forall i :: 0 <= i < |xs| ==> CleanEntry(xs[i])
    ensures TrimmedNonEmpty(PadTail(xs, " ")) == xs
  {
    var padded := PadTail(xs, " ");
    TrimmedNonEmptyAllPadded(padded[1..], xs[1..]);
    TrimPadded("", xs[0]);
    assert "" + xs[0] == xs[0];
    assert TrimmedNonEmpty(padded) == [xs[0]] + TrimmedNonEmpty(padded[1..]);
    assert [xs[0]] + xs[1..] == xs;
  }

  lemma {:induction false} TrimmedNonEmptyAllPadded(padded: seq<string>, xs: seq<string>)
    requires |padded| == |xs|
    requires forall i :: 0 <= i < |xs| ==> CleanEntry(xs[i]) && padded[i] == " " + xs[i]
    ensures TrimmedNonEmpty(padded) == xs
    decreases |xs|
  {
    if |xs| > 0 {
      TrimPadded(" ", xs[0]);
      TrimmedNonEmptyAllPadded(padded[1..], xs[1..]);
      assert TrimmedNonEmpty(padded) == [xs[0]] + TrimmedNonEmpty(padded[1..]);
      assert [xs[0]] + xs[1..] == xs;
    }
  }

  /**
   * What the prefix or keyword box shows for the value stored at
   * `moderation.ai_triggers.<key>`: a missing or falsy value shows as an empty
   * list; a list shows joined by `", "`. `None` is the TypeError of a truthy
   * value that is not a list (no `join`).
   */
  function ShowTriggers(config: Doc, key: string): (r: Option<string>)
    ensures GetPath(config, ["moderation", "ai_triggers", key]).None? ==> r == Some("")
    ensures forall xs: seq<string> :: GetPath(config, ["moderation", "ai_triggers", key]) == Some(StrArray(xs)) ==>
              r == Some(ShowList(xs))
  {
    var v := GetPath(config, ["moderation", "ai_triggers", key]);
    match OrElse(v, JArr([]))
    case JArr(items) =>
      ShowItems(items);
      Some(JoinItems(items, ", "))
    case _ => None
  }

  /** A list of strings shows as the strings joined. */
  lemma ShowItems(items: seq<Json>)
    ensures forall xs: seq<string> :: StrArray(xs) == JArr(items) ==> JoinItems(items, ", ") == ShowList(xs)
  {
    forall xs: seq<string> | StrArray(xs) == JArr(items)
      ensures JoinItems(items, ", ") == ShowList(xs)
    {
      JoinItemsOfStrings(xs, ", ");
    }
  }

  // ------------------------------------------------------------ numbers

  /** `parseInt(text) || d`: NaN and 0 both fall back. */
  function ParsedOr(text: string, d: int): (r: int)
    ensures ParseInt(text).Some? && ParseInt(text).value != 0 ==> r == ParseInt(text).value
    ensures ParseInt(text).None? || ParseInt(text).value == 0 ==> r == d
  {
    match ParseInt(text)
    case Some(n) => if n != 0 then n else d
    case None => d
  }

  /** The Streamer.bot port box stores 8080 when its text gives NaN or 0. */
  function StoredBotPort(text: string): (r: int)
    ensures r != 0
    ensures ParseInt(text).Some? && ParseInt(text).value != 0 ==> r == ParseInt(text).value
    ensures ParseInt(text).None? || ParseInt(text).value == 0 ==> r == 8080
  {
    ParsedOr(text, 8080)
  }

  /** The cooldown boxes store 0 when their text gives NaN. */
  function StoredCooldown(text: string): (r: int)
    ensures ParseInt(text).Some? ==> r == ParseInt(text).value
    ensures ParseInt(text).None? ==> r == 0
  {
    ParsedOr(text, 0)
  }

  /**
   * `localConfig.cooldowns?.<key> || fallback`: what a cooldown box shows.
   * Any falsy stored value, 0 included, shows the fallback.
   */
  function ShownCooldown(config: Doc, key: string, fallback: int): (r: Json)
    ensures var v := GetPath(config, ["cooldowns", key]);
            v.Some? && Truthy(v.value) ==> r == v.value
    ensures var v := GetPath(config, ["cooldowns", key]);
            v.None? || !Truthy(v.value) ==> r == JInt(fallback)
  {
    OrElse(GetPath(config, ["cooldowns", key]), JInt(fallback))
  }

  /** Storing a cooldown of 0 and showing it again shows the fallback, not 0. */
  lemma StoredZeroShowsFallback(config: Doc, text: string)
    requires ParseInt(text) == Some(0) || ParseInt(text).None?
    requires "cooldowns" in config && config["cooldowns"].JObj?
    ensures var stored := SetPath(config, ["cooldowns", "global"], JInt(StoredCooldown(text)));
            stored.Some? && ShownCooldown(stored.value, "global", 15) == JInt(15)
  {
    assert StoredCooldown(text) == 0;
    ZeroShowsFallback(config);
  }

  /** The global cooldown box shows 15 once 0 is stored. */
  lemma ZeroShowsFallback(config: Doc)
    requires "cooldowns" in config && config["cooldowns"].JObj?
    ensures var stored := SetPath(config, ["cooldowns", "global"], JInt(0));
            stored.Some? && ShownCooldown(stored.value, "global", 15) == JInt(15)
  {
    var parts := ["cooldowns", "global"];
    var x := JInt(0);
    assert parts[..1] == ["cooldowns"];
    SetInDefined(JObj(config), parts, x);
    var w := SetIn(JObj(config), parts, x).value;
    SetInGet(JObj(config), parts, x);
    assert w.JObj? && SetPath(config, parts, x) == Some(w.fields);
    assert GetPath(w.fields, parts) == Some(JInt(0));
  }
}
