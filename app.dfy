/**
 * The dashboard's shell (src/App.jsx): the buffer of recent log frames fed
 * by the log socket, the check a fetched configuration must pass, the order
 * in which the page's address picks a screen, and the save that commits a
 * configuration only once the bot has accepted it.
 */
module App {
  import opened Wrappers
  import opened Strings
  import opened ConfigDoc
  import opened Frames

  // ------------------------------------------------------------ log buffer

  /** The most log frames the App keeps. */
  const LogLimit: nat := 50

  /** `s.slice(0, 50)` */
  function Newest(s: seq<Frame>): (r: seq<Frame>)
    ensures |r| == if |s| <= LogLimit then |s| else LogLimit
    ensures r == s[..|r|]
  {
    if |s| <= LogLimit then s else s[..LogLimit]
  }

  /**
   * `ws.onmessage`: `[data, ...prev].slice(0, 50)`. The new frame comes
   * first; the previous frames follow in their order, the oldest dropped
   * once the buffer is full.
   */
  function PushLog(prev: seq<Frame>, data: Frame): (r: seq<Frame>)
    ensures |r| <= LogLimit
    ensures |r| == if |prev| < LogLimit then |prev| + 1 else LogLimit
    ensures r[0] == data
    ensures forall i :: 1 <= i < |r| ==> r[i] == prev[i - 1]
  {
    Newest([data] + prev)
  }

  /** The frames in the opposite order. */
  function Reversed(s: seq<Frame>): (r: seq<Frame>)
    ensures |r| == |s|
    ensures forall i :: 0 <= i < |s| ==> r[i] == s[|s| - 1 - i]
  {
    if |s| == 0 then [] else Reversed(s[1..]) + [s[0]]
  }

  /** The buffer after the frames arrive, first to last. */
  function PushLogs(prev: seq<Frame>, arrivals: seq<Frame>): seq<Frame>
    decreases |arrivals|
  {
    if |arrivals| == 0 then prev else PushLogs(PushLog(prev, arrivals[0]), arrivals[1..])
  }

  /**
   * Whatever arrives, the buffer holds the newest 50 frames of everything
   * seen, newest first.
   */
  lemma {:induction false} PushLogsNewestFirst(prev: seq<Frame>, arrivals: seq<Frame>)
    requires |prev| <= LogLimit
    ensures PushLogs(prev, arrivals) == Newest(Reversed(arrivals) + prev)
    decreases |arrivals|
  {
    if |arrivals| == 0 {
      assert Reversed(arrivals) + prev == prev;
    } else {
      var rest := arrivals[1..];
      PushLogsNewestFirst(PushLog(prev, arrivals[0]), rest);
      NewestOfNewest(Reversed(rest), [arrivals[0]] + prev);
      assert Reversed(rest) + ([arrivals[0]] + prev) == Reversed(arrivals) + prev;
    }
  }

  lemma NewestOfNewest(a: seq<Frame>, b: seq<Frame>)
    ensures Newest(a + Newest(b)) == Newest(a + b)
  {
  }

  // ------------------------------------------------------------ configuration

  /**
   * `config && typeof config === 'object' && config.youtube`: an object with
   * a truthy `youtube` section. An array passes `typeof` but has no
   * `youtube`.
   */
  predicate IsValidConfig(config: Option<Json>) {
    config.Some? && config.value.JObj? && "youtube" in config.value.fields && Truthy(config.value.fields["youtube"])
  }

  /** The App's state: the configuration, the error shown, the log buffer. */
  datatype State = State(config: Option<Json>, error: Option<string>, logs: seq<Frame>)

  /** How the configuration request ends. */
  datatype Fetch = Received(data: Json) | RequestFailed(message: string)

  const InvalidConfigMessage: string := "Invalid configuration received (Not JSON)"

  /**
   * `fetchConfig`: a received configuration that passes the check replaces
   * the current one and clears the error; anything else leaves the
   * configuration and sets the error.
   */
  function FetchConfig(st: State, fetch: Fetch): (r: State)
    ensures r.logs == st.logs
    ensures fetch.Received? && IsValidConfig(Some(fetch.data)) ==> r.config == Some(fetch.data) && r.error.None?
    ensures fetch.Received? && !IsValidConfig(Some(fetch.data)) ==> r.config == st.config && r.error == Some(InvalidConfigMessage)
    ensures fetch.RequestFailed? ==> r.config == st.config && r.error == Some(fetch.message)
  {
    match fetch
    case Received(data) =>
      if IsValidConfig(Some(data)) then st.(config := Some(data), error := None)
      else st.(error := Some(InvalidConfigMessage))
    case RequestFailed(message) => st.(error := Some(message))
  }

  /** A fetch never swaps a valid configuration for an invalid one. */
  lemma FetchKeepsValidity(st: State, fetch: Fetch)
    requires IsValidConfig(st.config)
    ensures IsValidConfig(FetchConfig(st, fetch).config)
  {
  }

  /** How the save request ends. */
  datatype Post = Posted | PostFailed(message: string)

  /**
   * `handleSaveConfig`: the configuration is committed only after the post
   * succeeds; the text is what the browser alert shows.
   */
  function SaveConfig(st: State, newConfig: Json, post: Post): (r: (State, string))
    ensures r.0.logs == st.logs && r.0.error == st.error
    ensures post.Posted? ==> r.0.config == Some(newConfig) && r.1 == "Configuration Saved!"
    ensures post.PostFailed? ==> r.0.config == st.config && r.1 == "Save Failed: " + post.message
  {
    match post
    case Posted => (st.(config := Some(newConfig)), "Configuration Saved!")
    case PostFailed(message) => (st, "Save Failed: " + message)
  }

  /**
   * The pages save the current configuration with one section replaced; as
   * long as that section is not `youtube`, the saved configuration still
   * passes the check.
   */
  lemma SectionSaveKeepsValidity(st: State, key: string, v: Json, post: Post)
    requires IsValidConfig(st.config) && key != "youtube"
    ensures IsValidConfig(SaveConfig(st, JObj(ReplaceSection(st.config.value.fields, key, v)), post).0.config)
  {
  }

  // ------------------------------------------------------------ routing

  datatype Screen =
    | PaymentScreen
    | ErrorScreen(message: string)
    | LoadingScreen
    | AudioOverlayScreen
    | ChatOverlayScreen
    | AlertOverlayScreen
    | DashboardScreen

  /**
   * What the App renders for the address's query string: the payment page
   * first, whatever the configuration; then, without a valid configuration,
   * the error when its text is truthy (not empty), the loading spinner
   * otherwise; then the overlays in the order audio, chat, alert; the
   * dashboard otherwise.
   */
  function Route(search: string, st: State): (r: Screen)
    ensures Contains(search, "mode=pay") <==> r == PaymentScreen
    ensures !Contains(search, "mode=pay") && !IsValidConfig(st.config) ==>
              r == (if st.error.Some? && st.error.value != "" then ErrorScreen(st.error.value) else LoadingScreen)
    ensures r.AudioOverlayScreen? || r.ChatOverlayScreen? || r.AlertOverlayScreen? || r.DashboardScreen? ==>
              IsValidConfig(st.config)
    ensures r.AudioOverlayScreen? <==> !Contains(search, "mode=pay") && IsValidConfig(st.config) && Contains(search, "mode=overlay")
    ensures r.ChatOverlayScreen? <==>
              (!Contains(search, "mode=pay") && IsValidConfig(st.config) &&
               !Contains(search, "mode=overlay") && Contains(search, "mode=chat"))
    ensures r.AlertOverlayScreen? <==>
              (!Contains(search, "mode=pay") && IsValidConfig(st.config) &&
               !Contains(search, "mode=overlay") && !Contains(search, "mode=chat") &&
               Contains(search, "mode=alert"))
  {
    if Contains(search, "mode=pay") then PaymentScreen
    else if !IsValidConfig(st.config) then
      (if st.error.Some? && st.error.value != "" then ErrorScreen(st.error.value) else LoadingScreen)
    else if Contains(search, "mode=overlay") then AudioOverlayScreen
    else if Contains(search, "mode=chat") then ChatOverlayScreen
    else if Contains(search, "mode=alert") then AlertOverlayScreen
    else DashboardScreen
  }

  /**
   * A failed request whose error has an empty message is stored, but the
   * empty text is falsy, so the page keeps showing the spinner.
   */
  lemma EmptyFailureShowsSpinner(search: string, st: State)
    requires !Contains(search, "mode=pay") && !IsValidConfig(st.config)
    ensures Route(search, FetchConfig(st, RequestFailed(""))) == LoadingScreen
    ensures forall m :: m != "" ==> Route(search, FetchConfig(st, RequestFailed(m))) == ErrorScreen(m)
  {
  }

  /** The dashboard shows exactly when no mode is asked for and the configuration is valid. */
  lemma DashboardWhenNoMode(search: string, st: State)
    ensures Route(search, st) == DashboardScreen <==>
              IsValidConfig(st.config) && !Contains(search, "mode=pay") && !Contains(search, "mode=overlay") &&
              !Contains(search, "mode=chat") && !Contains(search, "mode=alert")
  {
  }

  /**
   * The chat overlay's address, as the OBS page gives it, asks for nothing
   * but the chat overlay.
   */
  lemma ChatAddressRoutes(st: State)
    requires IsValidConfig(st.config)
    ensures Route("?mode=chat", st) == ChatOverlayScreen
  {
    NotContained("?mode=chat", "mode=pay", 5);
    NotContained("?mode=chat", "mode=overlay", 6);
    assert OccursAt("?mode=chat", "mode=chat", 1);
  }

  /** A text lacking one of the characters of a piece does not contain the piece. */
  lemma NotContained(s: string, sub: string, k: nat)
    requires k < |sub| && sub[k] !in s
    ensures !Contains(s, sub)
  {
    forall i | 0 <= i ensures !OccursAt(s, sub, i) {
      if i + |sub| <= |s| {
        assert s[i..i + |sub|][k] == s[i + k];
      }
    }
  }
}
