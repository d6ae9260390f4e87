/**
 * What `s.split(sep).slice(1).join(sep)` leaves of a text: the facts about
 * `Strings.SplitOn` that drop the first piece.
 */
module Splitting {
  import opened Strings

  /**
   * `s.split(sep).slice(1).join(sep)` is the text after the first occurrence
   * `i` of `sep`.
   */
  lemma AfterFirstSep(s: string, sep: string, i: int)
    requires |sep| > 0 && i == IndexOf(s, sep) && i >= 0
    ensures Join(SplitOn(s, sep)[1..], sep) == s[i + |sep|..]
  {
    SplitOnTail(s, sep, i);
    JoinSplitOn(s[i + |sep|..], sep);
  }

  /** After the first piece, a split goes on with the split of the text after the first separator. */
  lemma SplitOnTail(s: string, sep: string, i: int)
    requires |sep| > 0 && i == IndexOf(s, sep) && i >= 0
    ensures SplitOn(s, sep)[1..] == SplitOn(s[i + |sep|..], sep)
  {
    var rest := SplitOn(s[i + |sep|..], sep);
    assert SplitOn(s, sep) == [s[..i]] + rest;
    assert ([s[..i]] + rest)[1..] == rest;
  }
}
