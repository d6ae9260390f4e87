/**
 * The ignore-list page (src/pages/IgnoreList.jsx): the users the AI does
 * not answer, kept at `moderation.ignore_list`. Adding and removing build a
 * new configuration, which the page both keeps and saves at once; a search
 * box narrows the shown list.
 */
module IgnoreList {
  import opened Wrappers
  import opened Strings
  import opened ConfigDoc
  import Moderation
  import Sequences

  /** `localConfig.moderation?.ignore_list || []` */
  function CurrentList(config: Doc): (r: Json)
    ensures var v := GetPath(config, ["moderation", "ignore_list"]);
            v.Some? && Truthy(v.value) ==> r == v.value
    ensures var v := GetPath(config, ["moderation", "ignore_list"]);
            v.None? || !Truthy(v.value) ==> r == JArr([])
  {
    OrElse(GetPath(config, ["moderation", "ignore_list"]), JArr([]))
  }

  /**
   * `{ ...config, moderation: { ...config.moderation, ignore_list: list } }`:
   * only the list changes, beside the other sections and the other
   * moderation keys.
   */
  function WithIgnoreList(config: Doc, list: seq<Json>): (r: Doc)
    ensures r.Keys == config.Keys + {"moderation"}
    ensures forall k :: k in config && k != "moderation" ==> r[k] == config[k]
    ensures GetPath(r, ["moderation", "ignore_list"]) == Some(JArr(list))
    ensures forall k :: k != "ignore_list" ==> GetPath(r, ["moderation", k]) == GetPath(config, ["moderation", k])
  {
    var moderation := Spread(Field(config, "moderation"));
    var r := ReplaceSection(config, "moderation", JObj(ReplaceSection(moderation, "ignore_list", JArr(list))));
    assert forall k :: GetPath(r, ["moderation", k]) == GetIn(r["moderation"], [k]) by {
      forall k ensures GetPath(r, ["moderation", k]) == GetIn(r["moderation"], [k]) {
        assert ["moderation", k][1..] == [k];
      }
    }
    assert forall k :: GetPath(config, ["moderation", k]) == (if "moderation" in config then GetIn(config["moderation"], [k]) else None) by {
      forall k ensures GetPath(config, ["moderation", k]) == (if "moderation" in config then GetIn(config["moderation"], [k]) else None) {
        assert ["moderation", k][1..] == [k];
      }
    }
    r
  }

  /**
   * `addItem(value)`: the new configuration to keep and save, or `None` when
   * nothing happens: an empty value, a user already on the list, or a stored
   * list that is not an array (`includes` throws).
   */
  function AddItem(config: Doc, value: string): (r: Option<Doc>)
    ensures value == "" ==> r.None?
    ensures r.Some? <==> value != "" && CurrentList(config).JArr? && JStr(value) !in CurrentList(config).items
    ensures r.Some? ==> r.value == WithIgnoreList(config, CurrentList(config).items + [JStr(value)])
  {
    var current := CurrentList(config);
    if value == "" || !current.JArr? || JStr(value) in current.items then None
    else Some(WithIgnoreList(config, current.items + [JStr(value)]))
  }

  /**
   * `removeItem(index)`: the configuration without the list entry at the
   * index, or `None` when the stored list is not an array (`filter` throws).
   */
  function RemoveItem(config: Doc, index: int): (r: Option<Doc>)
    ensures r.Some? <==> CurrentList(config).JArr?
    ensures r.Some? ==> r.value == WithIgnoreList(config, Moderation.WithoutIndex(CurrentList(config).items, index))
  {
    var current := CurrentList(config);
    if current.JArr? then Some(WithIgnoreList(config, Moderation.WithoutIndex(current.items, index))) else None
  }

  // ------------------------------------------------------------ search

  /** The positions, in the whole list, of the users the search shows. */
  function FilteredIndices(names: seq<string>, term: string): (r: seq<nat>)
    ensures forall k :: 0 <= k < |r| ==> r[k] < |names| && Matches(names[r[k]], term)
    ensures forall k, l :: 0 <= k < l < |r| ==> r[k] < r[l]
    ensures forall i :: 0 <= i < |names| && Matches(names[i], term) ==> i in r
  {
    Sequences.Indices(names, Matcher(term))
  }

  /**
   * `filteredList`: the users whose lower-cased name contains the lower-cased
   * search term, in list order.
   */
  function FilteredList(names: seq<string>, term: string): (r: seq<string>)
    ensures |r| == |FilteredIndices(names, term)|
    ensures forall k :: 0 <= k < |r| ==> r[k] == names[FilteredIndices(names, term)[k]] && Matches(r[k], term)
  {
    Sequences.Filter(names, Matcher(term))
  }

  /** The empty search term shows every user, each at its own position. */
  lemma EmptyTermIndices(names: seq<string>)
    ensures FilteredIndices(names, "") == seq(|names|, i => i)
  {
    assert Lower("") == "";
    forall i | 0 <= i < |names| ensures Matcher("")(names[i]) {
      ContainsEmpty(Lower(names[i]));
    }
    Sequences.IndicesAll(names, Matcher(""));
  }

  lemma EmptyTermShowsAll(names: seq<string>)
    ensures FilteredList(names, "") == names
  {
    EmptyTermIndices(names);
  }

  /** The names of a list whose entries are all strings. */
  function Names(list: seq<Json>): (r: Option<seq<string>>)
    ensures r.Some? <==> forall i :: 0 <= i < |list| ==> list[i].JStr?
    ensures r.Some? ==> |r.value| == |list| && forall i :: 0 <= i < |list| ==> list[i] == JStr(r.value[i])
  {
    if forall i :: 0 <= i < |list| ==> list[i].JStr? then Some(seq(|list|, i requires 0 <= i < |list| => list[i].s))
    else None
  }

  // ------------------------------------------------------------ the remove button

  /**
   * The remove button as written: the index handed to `removeItem` is the
   * user's position in the filtered list, while `removeItem` counts positions
   * in the whole list.
   */
  function RemoveShownAsWritten(config: Doc, shownIndex: int): Option<Doc> {
    RemoveItem(config, shownIndex)
  }

  /**
   * With the search narrowing the list, the button removes a user other than
   * the one it is shown beside: ignoring "alice" and "bob", searching "bob"
   * shows only "bob", and its button removes "alice".
   */
  lemma RemoveShownAsWrittenRemovesWrongUser()
    ensures var config := map["moderation" := JObj(map["ignore_list" := JArr([JStr("alice"), JStr("bob")])])];
            FilteredList(["alice", "bob"], "bob") == ["bob"] &&
            RemoveShownAsWritten(config, 0).Some? &&
            GetPath(RemoveShownAsWritten(config, 0).value, ["moderation", "ignore_list"]) == Some(JArr([JStr("bob")]))
  {
    var config := map["moderation" := JObj(map["ignore_list" := JArr([JStr("alice"), JStr("bob")])])];
    SearchBobShowsBob();
    assert CurrentList(config) == JArr([JStr("alice"), JStr("bob")]) by {
      assert ["moderation", "ignore_list"][1..] == ["ignore_list"];
    }
    assert Moderation.WithoutIndex([JStr("alice"), JStr("bob")], 0) == [JStr("bob")];
  }

  lemma SearchBobShowsBob()
    ensures FilteredList(["alice", "bob"], "bob") == ["bob"]
  {
    LowerExamples();
    assert Matches("bob", "bob") by {
      assert OccursAt("bob", "bob", 0);
    }
    assert !Matches("alice", "bob") by {
      forall j | 0 <= j ensures !OccursAt("alice", "bob", j) {
        if j + 3 <= 5 {
          assert "alice"[j..j + 3][0] != 'b';
        }
      }
    }
    var m := Matcher("bob");
    assert ["alice", "bob"][..1] == ["alice"];
    assert Sequences.Indices(["alice"], m) == [] by {
      assert ["alice"][..0] == [];
    }
    assert Sequences.Indices(["alice", "bob"], m) == [1];
  }

  lemma LowerExamples()
    ensures Lower("bob") == "bob" && Lower("alice") == "alice"
  {
    assert forall i :: 0 <= i < 3 ==> Lower("bob")[i] == "bob"[i];
    assert forall i :: 0 <= i < 5 ==> Lower("alice")[i] == "alice"[i];
  }

  /**
   * The remove button as evidently intended: the shown index is mapped back
   * to the user's position in the whole list. `None` also covers an index the
   * filtered list does not show and a list holding a non-string.
   */
  function RemoveShown(config: Doc, term: string, shownIndex: int): (r: Option<Doc>)
    ensures r.Some? ==> CurrentList(config).JArr? && Names(CurrentList(config).items).Some?
    ensures r.Some? ==>
              var list := CurrentList(config).items;
              var names := Names(list).value;
              0 <= shownIndex < |FilteredList(names, term)| &&
              r.value == WithIgnoreList(config, Moderation.WithoutIndex(list, FilteredIndices(names, term)[shownIndex]))
  {
    var current := CurrentList(config);
    if !current.JArr? then None
    else match Names(current.items)
      case None => None
      case Some(names) =>
        var idx := FilteredIndices(names, term);
        if 0 <= shownIndex < |idx| then RemoveItem(config, idx[shownIndex]) else None
  }

  /** The corrected button removes exactly the user shown beside it. */
  lemma RemoveShownRemovesShownUser(config: Doc, term: string, shownIndex: int)
    requires CurrentList(config).JArr? && Names(CurrentList(config).items).Some?
    requires 0 <= shownIndex < |FilteredList(Names(CurrentList(config).items).value, term)|
    ensures var list := CurrentList(config).items;
            var names := Names(list).value;
            var at := FilteredIndices(names, term)[shownIndex];
            RemoveShown(config, term, shownIndex).Some? &&
            list[at] == JStr(FilteredList(names, term)[shownIndex]) &&
            GetPath(RemoveShown(config, term, shownIndex).value, ["moderation", "ignore_list"]) ==
              Some(JArr(list[..at] + list[at + 1..]))
  {
  }

  /** With an empty search the as-written button and the corrected one agree. */
  lemma RemoveShownAgreesOnEmptyTerm(config: Doc, shownIndex: int)
    requires CurrentList(config).JArr? && Names(CurrentList(config).items).Some?
    requires 0 <= shownIndex < |CurrentList(config).items|
    ensures RemoveShown(config, "", shownIndex) == RemoveShownAsWritten(config, shownIndex)
  {
    EmptyTermIndices(Names(CurrentList(config).items).value);
  }
}
