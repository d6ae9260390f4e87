/**
 * The frames the bot's log socket sends (`/ws/logs`), as the App, the
 * dashboard, the Streamer.bot page and the two overlays read them: a frame
 * type, a category such as `CHAT` or `ALERT`, the message text, a
 * timestamp, and the optional author, emoji and metadata.
 */
module Frames {
  import opened Wrappers
  import opened ConfigDoc

  datatype Frame = Frame(
    kind: Option<string>,
    category: Option<string>,
    message: string,
    timestamp: int,
    author: Option<string>,
    emoji: Option<string>,
    meta: Option<Json>)

  /** `f.category === c` */
  predicate HasCategory(f: Frame, c: string) {
    f.category == Some(c)
  }

  /** `l => l.category === c`, as a predicate to filter and count with. */
  function CategoryIs(c: string): Frame -> bool {
    f => HasCategory(f, c)
  }

  /** `x || d` on an optional text: a missing or empty text gives `d`. */
  function TextOr(x: Option<string>, d: string): (r: string)
    ensures x.Some? && x.value != "" ==> r == x.value
    ensures x.None? || x.value == "" ==> r == d
  {
    if x.Some? && x.value != "" then x.value else d
  }
}
