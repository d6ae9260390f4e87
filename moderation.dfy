/**
 * The moderation page (src/pages/Moderation.jsx) and the editing state it
 * shares with the settings page (src/pages/Settings.jsx): a local copy of
 * the whole configuration, edited through dotted paths such as
 * `moderation.filters.word_blacklist.words`, and handed to the save callback
 * as it stands.
 */
module Moderation {
  import opened Wrappers
  import opened Strings
  import opened ConfigDoc

  /** The list at a dotted path, when the path leads to an array. */
  function ListAt(doc: Doc, parts: seq<string>): Option<seq<Json>> {
    match GetPath(doc, parts)
    case Some(JArr(items)) => Some(items)
    case _ => None
  }

  predicate NoDuplicates<T(==)>(xs: seq<T>) {
    forall i, j :: 0 <= i < j < |xs| ==> xs[i] != xs[j]
  }

  /**
   * `addItem`'s list update: the value is appended unless the list already
   * holds it (`includes`, an exact and case-sensitive match). An empty text
   * is not refused.
   */
  function WithItem(items: seq<Json>, value: string): (r: seq<Json>)
    ensures JStr(value) in r
    ensures JStr(value) in items ==> r == items
    ensures JStr(value) !in items ==> |r| == |items| + 1 && r[..|items|] == items && r[|items|] == JStr(value)
    ensures NoDuplicates(items) ==> NoDuplicates(r)
  {
    if JStr(value) in items then items else items + [JStr(value)]
  }

  /**
   * `removeItem`'s `filter((_, i) => i !== index)`: every entry but the one at
   * the index, in order; an index outside the list removes nothing.
   */
  function WithoutIndex<T>(items: seq<T>, index: int): (r: seq<T>)
    ensures 0 <= index < |items| ==> |r| == |items| - 1
    ensures 0 <= index < |items| ==> forall i :: 0 <= i < |r| ==> r[i] == items[if i < index then i else i + 1]
    ensures !(0 <= index < |items|) ==> r == items
  {
    if 0 <= index < |items| then items[..index] + items[index + 1..] else items
  }

  /** Removing never brings in a duplicate. */
  lemma WithoutIndexNoDuplicates<T>(items: seq<T>, index: int)
    requires NoDuplicates(items)
    ensures NoDuplicates(WithoutIndex(items, index))
  {
    var r := WithoutIndex(items, index);
    if 0 <= index < |items| {
      forall i, j | 0 <= i < j < |r| ensures r[i] != r[j] {
        var a := if i < index then i else i + 1;
        var b := if j < index then j else j + 1;
        assert r[i] == items[a] && r[j] == items[b] && a < b;
      }
    }
  }

  /**
   * `words.join('\n')` shown in the blacklist text area. Entries that are
   * not strings print as JavaScript prints them.
   */
  function BlacklistText(words: seq<Json>): string {
    JoinItems(words, "\n")
  }

  /** `text.split('\n')`: the word list the text area stores. */
  function BlacklistWords(text: string): (r: Json)
    ensures r.JArr? && |r.items| >= 1
    ensures forall i :: 0 <= i < |r.items| ==> r.items[i].JStr? && '\n' !in r.items[i].s
  {
    StrArray(Split(text, '\n'))
  }

  /**
   * Showing a word list and reading it back gives the list again, as long as
   * the list is non-empty and no word holds a line break.
   */
  lemma BlacklistRoundTrip(words: seq<string>)
    requires |words| >= 1
    requires forall i :: 0 <= i < |words| ==> '\n' !in words[i]
    ensures BlacklistWords(BlacklistText(StrArray(words).items)) == StrArray(words)
  {
    JoinItemsOfStrings(words, "\n");
    SplitJoin(words, '\n');
  }

  /** An empty word list reads back as one empty word. */
  lemma BlacklistEmptyRoundTrip()
    ensures BlacklistWords(BlacklistText([])) == JArr([JStr("")])
  {
    assert Split("", '\n') == [""];
  }

  /** Reading a text and showing it again gives the text back. */
  lemma BlacklistTextRoundTrip(text: string)
    ensures BlacklistText(BlacklistWords(text).items) == text
  {
    var words := Split(text, '\n');
    JoinItemsOfStrings(words, "\n");
    JoinSplit(text, '\n');
  }

  /**
   * The value a numeric box stores, `parseInt(text)`: a text with no leading
   * number is NaN, which the configuration's JSON form carries as `null`.
   */
  function ParsedNumber(text: string): (r: Json)
    ensures ParseInt(text).Some? ==> r == JInt(ParseInt(text).value)
    ensures ParseInt(text).None? ==> r == JNull
  {
    match ParseInt(text)
    case Some(n) => JInt(n)
    case None => JNull
  }

  /** The page's copy of the configuration (`localConfig`), edited in place. */
  class LocalConfig {
    var local: Doc

    constructor(config: Doc)
      ensures local == config
    {
      local := config;
    }

    /**
     * `updateNested(path, value)`. `ok` is false, and nothing changes, when
     * the walk throws: a step of the path misses or is not an object.
     */
    method UpdateNested(path: string, value: Json) returns (ok: bool)
      modifies this
      ensures var parts := Split(path, '.');
              ok <==> GetPath(old(local), parts[..|parts| - 1]).Some? &&
                      GetPath(old(local), parts[..|parts| - 1]).value.JObj?
      ensures ok ==> GetPath(local, Split(path, '.')) == Some(value)
      ensures ok ==> forall q :: !IsPrefix(Split(path, '.'), q) && !IsPrefix(q, Split(path, '.')) ==>
                GetPath(local, q) == GetPath(old(local), q)
      ensures ok ==> SetPath(old(local), Split(path, '.'), value) == Some(local)
      ensures !ok ==> local == old(local)
    {
      var parts := Split(path, '.');
      SetInDefined(JObj(local), parts, value);
      var r := SetAt(local, parts, value);
      if r.None? {
        return false;
      }
      var before := local;
      local := r.value;
      SetInGet(JObj(before), parts, value);
      forall q | !IsPrefix(parts, q) && !IsPrefix(q, parts)
        ensures GetPath(local, q) == GetPath(before, q)
      {
        SetInOther(JObj(before), parts, value, q);
      }
      ok := true;
    }

    /**
     * `addItem(path, value)`: appends the text to the list at the path unless
     * it is already there. `ok` is false, and nothing changes, when the path
     * does not lead to a list (the walk or `includes` throws).
     */
    method AddItem(path: string, value: string) returns (ok: bool)
      modifies this
      ensures ok <==> ListAt(old(local), Split(path, '.')).Some?
      ensures ok ==> ListAt(local, Split(path, '.')) == Some(WithItem(ListAt(old(local), Split(path, '.')).value, value))
      ensures ok ==> forall q :: !IsPrefix(Split(path, '.'), q) && !IsPrefix(q, Split(path, '.')) ==>
                GetPath(local, q) == GetPath(old(local), q)
      ensures !ok || JStr(value) in ListAt(old(local), Split(path, '.')).value ==> local == old(local)
    {
      var parts := Split(path, '.');
      var items := ListAt(local, parts);
      if items.None? {
        return false;
      }
      if JStr(value) in items.value {
        return true;
      }
      Store(parts, JArr(items.value + [JStr(value)]));
      ok := true;
    }

    /**
     * `removeItem(path, index)`: drops the entry at the index from the list
     * at the path. `ok` is false, and nothing changes, when the path does not
     * lead to a list.
     */
    method RemoveItem(path: string, index: int) returns (ok: bool)
      modifies this
      ensures ok <==> ListAt(old(local), Split(path, '.')).Some?
      ensures ok ==> ListAt(local, Split(path, '.')) == Some(WithoutIndex(ListAt(old(local), Split(path, '.')).value, index))
      ensures ok ==> forall q :: !IsPrefix(Split(path, '.'), q) && !IsPrefix(q, Split(path, '.')) ==>
                GetPath(local, q) == GetPath(old(local), q)
      ensures !ok ==> local == old(local)
    {
      var parts := Split(path, '.');
      var items := ListAt(local, parts);
      if items.None? {
        return false;
      }
      Store(parts, JArr(WithoutIndex(items.value, index)));
      ok := true;
    }

    /** The final `current[last] = list` of a path whose value is a list. */
    method Store(parts: seq<string>, list: Json)
      requires |parts| >= 1 && ListAt(local, parts).Some?
      modifies this
      ensures GetPath(local, parts) == Some(list)
      ensures forall q :: !IsPrefix(parts, q) && !IsPrefix(q, parts) ==> GetPath(local, q) == GetPath(old(local), q)
    {
      assert GetPath(local, parts[..|parts| - 1]).Some? && GetPath(local, parts[..|parts| - 1]).value.JObj? by {
        ParentOfPresent(JObj(local), parts);
      }
      SetInDefined(JObj(local), parts, list);
      var r := SetAt(local, parts, list);
      var before := local;
      local := r.value;
      SetInGet(JObj(before), parts, list);
      forall q | !IsPrefix(parts, q) && !IsPrefix(q, parts)
        ensures GetPath(local, q) == GetPath(before, q)
      {
        SetInOther(JObj(before), parts, list, q);
      }
    }
  }

  /** A path that reads a value passes through an object just before its last key. */
  lemma {:induction false} ParentOfPresent(v: Json, parts: seq<string>)
    requires |parts| >= 1 && GetIn(v, parts).Some?
    ensures GetIn(v, parts[..|parts| - 1]).Some? && GetIn(v, parts[..|parts| - 1]).value.JObj?
    decreases |parts|
  {
    if |parts| > 1 {
      ParentOfPresent(v.fields[parts[0]], parts[1..]);
      assert parts[1..][..|parts[1..]| - 1] == parts[..|parts| - 1][1..];
    }
  }
}
