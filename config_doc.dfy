/**
 * The configuration document the dashboard edits: a JSON tree of
 * string-keyed objects, arrays, strings, integers and booleans. The top-level
 * configuration is an object (`Doc`); the App only hands a page a config
 * whose top level is an object with a `youtube` field.
 *
 * Besides the tree this module holds the JavaScript semantics the pages rely
 * on: truthiness (`x || d`), object spread (`{...x}`), optional-chaining reads
 * (`a?.b?.c`), template-literal text (`${x}`), and the dotted-path write that
 * the Moderation and Settings pages share (`updateNested`).
 */
module ConfigDoc {
  import opened Wrappers
  import opened Strings

  datatype Json =
    | JNull
    | JBool(b: bool)
    | JInt(n: int)
    | JStr(s: string)
    | JArr(items: seq<Json>)
    | JObj(fields: map<string, Json>)

  type Doc = map<string, Json>

  /** JavaScript `ToBoolean`: `null`, `false`, `0` and `""` are falsy. */
  predicate Truthy(v: Json) {
    match v
    case JNull => false
    case JBool(b) => b
    case JInt(n) => n != 0
    case JStr(s) => s != ""
    case JArr(_) => true
    case JObj(_) => true
  }

  /** `obj.key`, with `undefined` as `None`. */
  function Field(obj: Doc, key: string): Option<Json> {
    if key in obj then Some(obj[key]) else None
  }

  /** `x || d` where `x` may be `undefined`. */
  function OrElse(x: Option<Json>, d: Json): (r: Json)
    ensures x.Some? && Truthy(x.value) ==> r == x.value
    ensures (x.None? || !Truthy(x.value)) ==> r == d
  {
    if x.Some? && Truthy(x.value) then x.value else d
  }

  /**
   * The own keys `{...x}` copies from `x`: an object's fields, nothing from
   * `undefined`, `null`, booleans and numbers. (Spreading a string or an
   * array would copy index keys; no page spreads one.)
   */
  function Spread(x: Option<Json>): Doc {
    if x.Some? && x.value.JObj? then x.value.fields else map[]
  }

  /**
   * `config?.<key> || {}` spread into an object: a section that is an object
   * is read as it is, a missing or falsy one as the empty object (a truthy
   * section that is not an object spreads to nothing as well).
   */
  function SectionOrEmpty(config: Doc, key: string): (r: Doc)
    ensures key in config && config[key].JObj? ==> r == config[key].fields
    ensures !(key in config && config[key].JObj?) ==> r == map[]
  {
    Spread(Some(OrElse(Field(config, key), JObj(map[]))))
  }

  /** `{...doc, [key]: v}`: the section `key` is replaced, every other key kept. */
  function ReplaceSection(doc: Doc, key: string, v: Json): (r: Doc)
    ensures r.Keys == doc.Keys + {key}
    ensures r[key] == v
    ensures forall k :: k in doc && k != key ==> r[k] == doc[k]
  {
    doc[key := v]
  }

  /** `obj[key] = x` on an object value (the object's own fields, as a new value). */
  function SetField(v: Json, key: string, x: Json): (r: Json)
    requires v.JObj?
  {
    JObj(ReplaceSection(v.fields, key, x))
  }

  /** `v.key` on a value that may not be an object. */
  function Get(v: Json, key: string): Option<Json> {
    if v.JObj? then Field(v.fields, key) else None
  }

  // ---------------------------------------------------------------- text

  /** Template-literal and string-concatenation text of a JSON value (`String(v)`). */
  function JsString(v: Json): string
    decreases v
  {
    match v
    case JNull => "null"
    case JBool(b) => if b then "true" else "false"
    case JInt(n) => IntToString(n)
    case JStr(s) => s
    case JArr(items) => JoinItems(items, ",")
    case JObj(_) => "[object Object]"
  }

  /** `items.join(sep)`: `null` elements print as empty text. */
  function JoinItems(items: seq<Json>, sep: string): string
    decreases items
  {
    if |items| == 0 then ""
    else
      var first := if items[0].JNull? then "" else JsString(items[0]);
      if |items| == 1 then first else first + sep + JoinItems(items[1..], sep)
  }

  /** The text of a list of strings joins the strings themselves. */
  lemma {:induction false} JoinItemsOfStrings(xs: seq<string>, sep: string)
    ensures JoinItems(seq(|xs|, i requires 0 <= i < |xs| => JStr(xs[i])), sep) == Join(xs, sep)
    decreases |xs|
  {
    var items := seq(|xs|, i requires 0 <= i < |xs| => JStr(xs[i]));
    if |xs| > 1 {
      JoinItemsOfStrings(xs[1..], sep);
      assert items[1..] == seq(|xs[1..]|, i requires 0 <= i < |xs[1..]| => JStr(xs[1..][i]));
    }
  }

  /** A list of strings as a JSON array. */
  function StrArray(xs: seq<string>): (r: Json)
    ensures r.JArr? && |r.items| == |xs|
    ensures forall i :: 0 <= i < |xs| ==> r.items[i] == JStr(xs[i])
  {
    JArr(seq(|xs|, i requires 0 <= i < |xs| => JStr(xs[i])))
  }

  // ---------------------------------------------------------------- paths

  /**
   * The value reached by following `parts` from `v` (`v?.p0?.p1...`), or
   * `None` when a key is missing or an intermediate value is not an object.
   */
  function GetIn(v: Json, parts: seq<string>): Option<Json>
    decreases |parts|
  {
    if parts == [] then Some(v)
    else if v.JObj? && parts[0] in v.fields then GetIn(v.fields[parts[0]], parts[1..])
    else None
  }

  function GetPath(doc: Doc, parts: seq<string>): Option<Json> {
    GetIn(JObj(doc), parts)
  }

  /**
   * `updateNested` on values: walk `parts[..|parts|-1]` as object keys and
   * set the last part on the object reached. `None` is the TypeError the
   * walk throws when a step does not land on an object.
   */
  function SetIn(v: Json, parts: seq<string>, x: Json): Option<Json>
    requires |parts| >= 1
    decreases |parts|
  {
    if !v.JObj? then None
    else if |parts| == 1 then Some(JObj(v.fields[parts[0] := x]))
    else if parts[0] !in v.fields then None
    else match SetIn(v.fields[parts[0]], parts[1..], x)
      case None => None
      case Some(w) => Some(JObj(v.fields[parts[0] := w]))
  }

  function SetPath(doc: Doc, parts: seq<string>, x: Json): Option<Doc>
    requires |parts| >= 1
  {
    match SetIn(JObj(doc), parts, x)
    case Some(JObj(f)) => Some(f)
    case _ => None
  }

  predicate IsPrefix(p: seq<string>, q: seq<string>) {
    |p| <= |q| && q[..|p|] == p
  }

  /** The write succeeds exactly when the parent path leads to an object. */
  lemma {:induction false} SetInDefined(v: Json, parts: seq<string>, x: Json)
    requires |parts| >= 1
    ensures SetIn(v, parts, x).Some? <==>
              (GetIn(v, parts[..|parts| - 1]).Some? && GetIn(v, parts[..|parts| - 1]).value.JObj?)
    ensures SetIn(v, parts, x).Some? ==> SetIn(v, parts, x).value.JObj?
    decreases |parts|
  {
    if v.JObj? && |parts| > 1 && parts[0] in v.fields {
      SetInDefined(v.fields[parts[0]], parts[1..], x);
      assert parts[1..][..|parts[1..]| - 1] == parts[..|parts| - 1][1..];
    }
  }

  /** After the write, the path reads back the value written. */
  lemma {:induction false} SetInGet(v: Json, parts: seq<string>, x: Json)
    requires |parts| >= 1 && SetIn(v, parts, x).Some?
    ensures GetIn(SetIn(v, parts, x).value, parts) == Some(x)
    decreases |parts|
  {
    if |parts| > 1 {
      SetInGet(v.fields[parts[0]], parts[1..], x);
    }
  }

  /** A path that is neither above nor below the written one reads the same as before. */
  lemma {:induction false} SetInOther(v: Json, parts: seq<string>, x: Json, q: seq<string>)
    requires |parts| >= 1 && SetIn(v, parts, x).Some?
    requires !IsPrefix(parts, q) && !IsPrefix(q, parts)
    ensures GetIn(SetIn(v, parts, x).value, q) == GetIn(v, q)
    decreases |parts|
  {
    var w := SetIn(v, parts, x).value;
    if q[0] == parts[0] {
      assert |parts| > 1 && |q| > 1;
      SetInOther(v.fields[parts[0]], parts[1..], x, q[1..]);
    }
  }

  /** Below the written path, the document reads what the written value holds. */
  lemma {:induction false} SetInBelow(v: Json, parts: seq<string>, x: Json, rest: seq<string>)
    requires |parts| >= 1 && SetIn(v, parts, x).Some?
    ensures GetIn(SetIn(v, parts, x).value, parts + rest) == GetIn(x, rest)
    decreases |parts|
  {
    if |parts| == 1 {
      assert (parts + rest)[1..] == rest;
    } else {
      SetInBelow(v.fields[parts[0]], parts[1..], x, rest);
      assert (parts + rest)[1..] == parts[1..] + rest;
    }
  }

  /** Writing the value a path already holds changes nothing. */
  lemma {:induction false} SetInSame(v: Json, parts: seq<string>)
    requires |parts| >= 1 && GetIn(v, parts).Some?
    ensures SetIn(v, parts, GetIn(v, parts).value) == Some(v)
    decreases |parts|
  {
    if |parts| == 1 {
      assert v.fields[parts[0] := v.fields[parts[0]]] == v.fields;
    } else {
      SetInSame(v.fields[parts[0]], parts[1..]);
      assert v.fields[parts[0] := v.fields[parts[0]]] == v.fields;
    }
  }

  /**
   * The walk of `updateNested` (Moderation.jsx, Settings.jsx): a loop follows
   * `parts[..n-1]` from the document, keeping each object it passes, then the
   * leaf is assigned and the objects passed are put back together from the
   * bottom up. `None` stands for the TypeError of a step that is not an object.
   */
  method SetAt(doc: Doc, parts: seq<string>, x: Json) returns (r: Option<Doc>)
    requires |parts| >= 1
    ensures r == SetPath(doc, parts, x)
  {
    var spine := Walk(doc, parts, x);
    if spine.None? {
      return None;
    }
    var built := Rebuild(spine.value, parts, x);
    r := Some(built);
  }

  /** Each object of the walk holds the next one under the next key. */
  predicate Linked(spine: seq<Doc>, parts: seq<string>)
    requires |spine| == |parts|
  {
    forall k :: 0 <= k < |parts| - 1 ==> parts[k] in spine[k] && spine[k][parts[k]] == JObj(spine[k + 1])
  }

  /**
   * The loop of `updateNested`: from the document, follow each key of
   * `parts[..n-1]`, keeping the objects passed; a step that misses or lands
   * on a non-object is the TypeError, `None`.
   */
  method Walk(doc: Doc, parts: seq<string>, x: Json) returns (spine: Option<seq<Doc>>)
    requires |parts| >= 1
    ensures spine.None? ==> SetIn(JObj(doc), parts, x) == None
    ensures spine.Some? ==> |spine.value| == |parts| && spine.value[0] == doc && Linked(spine.value, parts)
  {
    var n := |parts|;
    // passed[i] is the object reached after following parts[..i]
    var passed: seq<Doc> := [doc];
    var i := 0;
    while i < n - 1
      invariant 0 <= i <= n - 1
      invariant |passed| == i + 1 && passed[0] == doc
      invariant GetIn(JObj(doc), parts[..i]) == Some(JObj(passed[i]))
      invariant forall k :: 0 <= k < i ==> parts[k] in passed[k] && passed[k][parts[k]] == JObj(passed[k + 1])
    {
      var current := passed[i];
      if parts[i] !in current || !current[parts[i]].JObj? {
        WalkFails(doc, parts, i, current, x);
        return None;
      }
      WalkStep(doc, parts, i, current);
      passed := passed + [current[parts[i]].fields];
      i := i + 1;
    }
    spine := Some(passed);
  }

  /**
   * The leaf assigned on the last object of the walk, then each enclosing
   * object rebuilt around the one below it, from the bottom up.
   */
  method Rebuild(spine: seq<Doc>, parts: seq<string>, x: Json) returns (built: Doc)
    requires |parts| >= 1 && |spine| == |parts| && Linked(spine, parts)
    ensures SetIn(JObj(spine[0]), parts, x) == Some(JObj(built))
  {
    var n := |parts|;
    built := spine[n - 1][parts[n - 1] := x];
    var j := n - 1;
    while j > 0
      invariant 0 <= j <= n - 1
      invariant SetIn(JObj(spine[j]), parts[j..], x) == Some(JObj(built))
    {
      SetInStep(spine[j - 1], parts, j - 1, spine[j], x);
      built := spine[j - 1][parts[j - 1] := JObj(built)];
      j := j - 1;
    }
    assert parts[0..] == parts;
  }

  lemma {:induction false} GetInAppend(v: Json, p: seq<string>, q: seq<string>)
    ensures GetIn(v, p + q) == match GetIn(v, p) case None => None case Some(w) => GetIn(w, q)
    decreases |p|
  {
    if p != [] {
      assert (p + q)[0] == p[0];
      assert (p + q)[1..] == p[1..] + q;
      if v.JObj? && p[0] in v.fields {
        GetInAppend(v.fields[p[0]], p[1..], q);
      }
    } else {
      assert p + q == q;
    }
  }

  /** Once a path misses or lands on a non-object, no longer path reaches an object. */
  lemma GetInNotObjectExtends(v: Json, p: seq<string>, q: seq<string>)
    requires IsPrefix(p, q)
    requires GetIn(v, p).None? || !GetIn(v, p).value.JObj?
    ensures GetIn(v, q).None? || !GetIn(v, q).value.JObj?
  {
    GetInAppend(v, p, q[|p|..]);
    assert p + q[|p|..] == q;
  }

  /** A step of the walk that misses, or lands on a non-object, dooms the write. */
  lemma WalkFails(doc: Doc, parts: seq<string>, i: nat, current: Doc, x: Json)
    requires i < |parts| - 1
    requires GetIn(JObj(doc), parts[..i]) == Some(JObj(current))
    requires parts[i] !in current || !current[parts[i]].JObj?
    ensures SetIn(JObj(doc), parts, x) == None
  {
    var n := |parts|;
    WalkStep(doc, parts, i, current);
    assert parts[..n - 1][..i + 1] == parts[..i + 1];
    GetInNotObjectExtends(JObj(doc), parts[..i + 1], parts[..n - 1]);
    SetInDefined(JObj(doc), parts, x);
  }

  /** One step of the walk: the next key read from the object reached so far. */
  lemma WalkStep(doc: Doc, parts: seq<string>, i: nat, current: Doc)
    requires i < |parts|
    requires GetIn(JObj(doc), parts[..i]) == Some(JObj(current))
    ensures GetIn(JObj(doc), parts[..i + 1])
              == (if parts[i] in current then Some(current[parts[i]]) else None)
  {
    GetInAppend(JObj(doc), parts[..i], [parts[i]]);
    assert parts[..i] + [parts[i]] == parts[..i + 1];
    assert [parts[i]][1..] == [];
  }

  lemma SetInStep(parent: Doc, parts: seq<string>, k: nat, child: Doc, x: Json)
    requires k + 1 < |parts|
    requires parts[k] in parent && parent[parts[k]] == JObj(child)
    requires SetIn(JObj(child), parts[k + 1..], x).Some?
    ensures SetIn(JObj(parent), parts[k..], x)
              == Some(JObj(parent[parts[k] := SetIn(JObj(child), parts[k + 1..], x).value]))
  {
    assert parts[k..][1..] == parts[k + 1..];
  }
}
