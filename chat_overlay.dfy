/**
 * The chat overlay (src/pages/ChatOverlay.jsx): from the log socket's
 * frames it keeps the chat, AI-answer and alert lines, each shown with an
 * author and the text after the speaker's prefix, in a window of the 16
 * newest lines.
 */
module ChatOverlay {
  import opened Wrappers
  import opened Strings
  import opened Splitting
  import opened Frames

  /** A line of the overlay. Its key and arrival time come from the clock and are left out. */
  datatype Line = Line(author: string, text: string)

  /** The most lines the overlay shows. */
  const Window: nat := 16

  /** `data.type === 'log' && ['CHAT', 'AI_RESPONSE', 'ALERT'].includes(data.category)` */
  predicate Accepts(f: Frame) {
    f.kind == Some("log") && f.category.Some? && f.category.value in ["CHAT", "AI_RESPONSE", "ALERT"]
  }

  /** `data.author || (data.category === 'AI_RESPONSE' ? 'Kobe Bot' : 'System')` */
  function Author(f: Frame): (r: string)
    ensures r != ""
    ensures f.author.Some? && f.author.value != "" ==> r == f.author.value
    ensures (f.author.None? || f.author.value == "") && HasCategory(f, "AI_RESPONSE") ==> r == "Kobe Bot"
    ensures (f.author.None? || f.author.value == "") && !HasCategory(f, "AI_RESPONSE") ==> r == "System"
  {
    TextOr(f.author, if HasCategory(f, "AI_RESPONSE") then "Kobe Bot" else "System")
  }

  const Sep: string := ": "

  /**
   * `message.includes(': ') ? message.split(': ').slice(1).join(': ') : message`:
   * the text after the first `": "`, or the whole message.
   */
  function Text(message: string): (r: string)
    ensures !Contains(message, Sep) ==> r == message
    ensures Contains(message, Sep) ==> r == message[IndexOf(message, Sep) + 2..]
  {
    if Contains(message, Sep) then
      AfterFirstSep(message, Sep, IndexOf(message, Sep));
      Join(SplitOn(message, Sep)[1..], Sep)
    else message
  }

  /**
   * A message holding `": "` is a speaker prefix without `": "`, the
   * separator, and the text the overlay shows.
   */
  lemma PrefixAndText(message: string)
    requires Contains(message, Sep)
    ensures var prefix := SplitOn(message, Sep)[0];
            message == prefix + Sep + Text(message) && !Contains(prefix, Sep)
  {
    var i := IndexOf(message, Sep);
    FirstPieceHasNoSep(message, Sep, i);
    assert message == message[..i] + message[i..i + 2] + message[i + 2..];
  }

  /** Prefixing a speaker without `": "` gives back the spoken text. */
  lemma TextAfterSpeaker(speaker: string, text: string)
    requires !Contains(speaker, Sep)
    ensures Text(speaker + Sep + text) == text
  {
    var m := speaker + Sep + text;
    assert OccursAt(m, Sep, |speaker|) by {
      assert m[|speaker|..|speaker| + 2] == Sep;
    }
    forall j | 0 <= j < |speaker| ensures !OccursAt(m, Sep, j) {
      if j + 2 <= |speaker| {
        assert m[j..j + 2] == speaker[j..j + 2];
        assert !OccursAt(speaker, Sep, j);
      } else {
        assert m[j + 1] == ':';
      }
    }
    var i := IndexOf(m, Sep);
    assert i == |speaker|;
    assert m[i + 2..] == text;
  }

  /** `[...prev.slice(-15), m]`: the 15 newest lines kept, the new one last. */
  function Push(prev: seq<Line>, m: Line): (r: seq<Line>)
    ensures |r| <= Window
    ensures |r| == (if |prev| < Window - 1 then |prev| else Window - 1) + 1
    ensures r[|r| - 1] == m
    ensures r[..|r| - 1] == prev[|prev| - (|r| - 1)..]
  {
    var kept := if |prev| <= Window - 1 then prev else prev[|prev| - (Window - 1)..];
    kept + [m]
  }

  /** A socket frame's effect: accepted frames add a line, all others leave the window as it is. */
  function OnFrame(prev: seq<Line>, f: Frame): (r: seq<Line>)
    ensures !Accepts(f) ==> r == prev
    ensures Accepts(f) ==> r == Push(prev, Line(Author(f), Text(f.message)))
  {
    if Accepts(f) then Push(prev, Line(Author(f), Text(f.message))) else prev
  }

  /** The lines after a run of pushes, oldest push first. */
  function PushAll(prev: seq<Line>, lines: seq<Line>): seq<Line>
    decreases |lines|
  {
    if |lines| == 0 then prev else Push(PushAll(prev, lines[..|lines| - 1]), lines[|lines| - 1])
  }

  /** The newest `Window` lines of a list. */
  function Last(s: seq<Line>): (r: seq<Line>)
    ensures |r| <= Window
  {
    if |s| <= Window then s else s[|s| - Window..]
  }

  /**
   * Starting from a window that is not over-full, the overlay always shows
   * the 16 newest lines of everything pushed, oldest first.
   */
  lemma {:induction false} PushAllKeepsNewest(prev: seq<Line>, lines: seq<Line>)
    requires |prev| <= Window
    ensures PushAll(prev, lines) == Last(prev + lines)
    decreases |lines|
  {
    if |lines| == 0 {
      assert prev + lines == prev;
    } else {
      var init := lines[..|lines| - 1];
      var m := lines[|lines| - 1];
      PushAllKeepsNewest(prev, init);
      PushOfLast(prev + init, m);
      SplitLast(prev, lines);
    }
  }

  lemma SplitLast(prev: seq<Line>, lines: seq<Line>)
    requires |lines| > 0
    ensures prev + lines == (prev + lines[..|lines| - 1]) + [lines[|lines| - 1]]
  {
    assert lines == lines[..|lines| - 1] + [lines[|lines| - 1]];
  }

  /** Pushing onto the newest lines of a list keeps the newest lines of the list and the new one. */
  lemma PushOfLast(s: seq<Line>, m: Line)
    ensures Push(Last(s), m) == Last(s + [m])
  {
    var t := s + [m];
    if |s| >= Window {
      assert Push(Last(s), m) == s[|s| - (Window - 1)..] + [m];
      assert t[|t| - Window..] == s[|s| - (Window - 1)..] + [m];
    }
  }
}
