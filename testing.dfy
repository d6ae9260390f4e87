/**
 * The testing page (src/pages/Testing.jsx): buttons that ask the bot to run
 * its diagnostics, send a chat line, answer a prompt, speak a text or raise
 * an alert, each outcome put first in a history; and the badge each
 * diagnostic status gets.
 */
module Testing {
  import opened Wrappers
  import opened Strings
  import opened ConfigDoc

  datatype Kind = SystemEntry | ChatEntry | AiEntry | TtsEntry | SimulationEntry | ErrorEntry

  /** A history line; `prompt` is only set on AI answers, `time` is the clock's reading. */
  datatype Entry = Entry(kind: Kind, prompt: Option<string>, text: string, time: string)

  /** The page state: the two text boxes, the history (newest first), the spinner, the diagnostics. */
  datatype Page = Page(aiPrompt: string, ttsText: string, responses: seq<Entry>, loading: bool, systemStatus: Option<Json>)

  const InitialPage: Page := Page("", "", [], false, None)

  /** How a request ends: the reply's body (or the one field of it the page reads), or the error's message. */
  datatype Outcome<T> = Replied(body: T) | Failed(message: string)

  /** `!s.trim()`: nothing but white space. */
  predicate Blank(s: string) {
    Trim(s) == ""
  }

  /** A text is blank exactly when it is all white space. */
  lemma BlankIffAllSpace(s: string)
    ensures Blank(s) <==> AllSpace(s)
  {
    TrimEmptyIff(s);
  }

  /** A prompt of no-break spaces and a byte-order mark is blank, as it is to `trim`. */
  lemma UnicodeSpaceIsBlank(n: nat)
    ensures Blank(seq(n, i => '\U{00A0}') + "\U{FEFF}\U{3000}")
  {
    var s := seq(n, i => '\U{00A0}') + "\U{FEFF}\U{3000}";
    assert AllSpace(s);
    TrimEmptyIff(s);
  }

  /** `setResponses(prev => [entry, ...prev])` */
  function Record(p: Page, e: Entry): (r: Page)
    ensures r.responses == [e] + p.responses
    ensures r.aiPrompt == p.aiPrompt && r.ttsText == p.ttsText && r.loading == p.loading && r.systemStatus == p.systemStatus
  {
    p.(responses := [e] + p.responses)
  }

  /** `handleSystemCheck`: the diagnostics kept on success, a line recorded either way. */
  function SystemCheck(p: Page, outcome: Outcome<Json>, time: string): (r: Page)
    ensures |r.responses| == |p.responses| + 1 && r.responses[1..] == p.responses
    ensures outcome.Replied? ==>
              r.systemStatus == Some(outcome.body) &&
              r.responses[0] == Entry(SystemEntry, None, "Diagnostics Complete: All systems operational.", time)
    ensures outcome.Failed? ==>
              r.systemStatus == p.systemStatus &&
              r.responses[0] == Entry(ErrorEntry, None, "System Check Failed: " + outcome.message, time)
    ensures r.aiPrompt == p.aiPrompt && r.ttsText == p.ttsText && r.loading == p.loading
  {
    match outcome
    case Replied(data) =>
      Record(p.(systemStatus := Some(data)), Entry(SystemEntry, None, "Diagnostics Complete: All systems operational.", time))
    case Failed(m) => Record(p, Entry(ErrorEntry, None, "System Check Failed: " + m, time))
  }

  /** `handleSendTestChat`; the outcome carries `res.data.message`. */
  function SendTestChat(p: Page, outcome: Outcome<string>, time: string): (r: Page)
    ensures |r.responses| == |p.responses| + 1 && r.responses[1..] == p.responses
    ensures outcome.Replied? ==> r.responses[0] == Entry(ChatEntry, None, "Test Message Sent: \"" + outcome.body + "\"", time)
    ensures outcome.Failed? ==> r.responses[0] == Entry(ErrorEntry, None, "Chat Test Failed: " + outcome.message, time)
    ensures r.aiPrompt == p.aiPrompt && r.ttsText == p.ttsText && r.loading == p.loading && r.systemStatus == p.systemStatus
  {
    match outcome
    case Replied(message) => Record(p, Entry(ChatEntry, None, "Test Message Sent: \"" + message + "\"", time))
    case Failed(m) => Record(p, Entry(ErrorEntry, None, "Chat Test Failed: " + m, time))
  }

  /** The AI test while its request is out: the spinner shows, unless the prompt is blank. */
  function AiTestPending(p: Page): (r: Page)
    ensures Blank(p.aiPrompt) ==> r == p
    ensures !Blank(p.aiPrompt) ==> r == p.(loading := true)
  {
    if Blank(p.aiPrompt) then p else p.(loading := true)
  }

  /**
   * `handleAiTest` once its request ends (the outcome carries
   * `res.data.response`): a blank prompt sends nothing and changes nothing;
   * otherwise the answer, with the prompt, or the error is recorded, the
   * prompt cleared only on success, and the spinner stopped.
   */
  function AiTest(p: Page, outcome: Outcome<string>, time: string): (r: Page)
    ensures Blank(p.aiPrompt) ==> r == p
    ensures !Blank(p.aiPrompt) ==> |r.responses| == |p.responses| + 1 && r.responses[1..] == p.responses && !r.loading
    ensures !Blank(p.aiPrompt) && outcome.Replied? ==>
              r.responses[0] == Entry(AiEntry, Some(p.aiPrompt), outcome.body, time) && r.aiPrompt == ""
    ensures !Blank(p.aiPrompt) && outcome.Failed? ==>
              r.responses[0] == Entry(ErrorEntry, None, "AI Error: " + outcome.message, time) && r.aiPrompt == p.aiPrompt
    ensures r.ttsText == p.ttsText && r.systemStatus == p.systemStatus
  {
    if Blank(p.aiPrompt) then p
    else
      var q := AiTestPending(p);
      match outcome
      case Replied(response) => Record(q, Entry(AiEntry, Some(p.aiPrompt), response, time)).(aiPrompt := "", loading := false)
      case Failed(m) => Record(q, Entry(ErrorEntry, None, "AI Error: " + m, time)).(loading := false)
  }

  /** The AI test changes the page exactly when the prompt is not blank. */
  lemma AiTestGuard(p: Page, outcome: Outcome<string>, time: string)
    ensures AiTest(p, outcome, time) == p <==> Blank(p.aiPrompt)
  {
    if !Blank(p.aiPrompt) {
      assert |AiTest(p, outcome, time).responses| != |p.responses|;
    }
  }

  /** After a failed AI test the same prompt can be sent again as it was. */
  lemma AiTestRetry(p: Page, m: string, time: string)
    requires !Blank(p.aiPrompt)
    ensures AiTest(p, Failed(m), time).aiPrompt == p.aiPrompt && !Blank(AiTest(p, Failed(m), time).aiPrompt)
  {
  }

  /**
   * `handleTtsTest(channel)` once its request ends: a blank text sends
   * nothing and changes nothing; otherwise what was sent where, or the
   * error, is recorded, and the text cleared only on success.
   */
  function TtsTest(p: Page, channel: string, outcome: Outcome<()>, time: string): (r: Page)
    ensures Blank(p.ttsText) ==> r == p
    ensures !Blank(p.ttsText) ==> |r.responses| == |p.responses| + 1 && r.responses[1..] == p.responses
    ensures !Blank(p.ttsText) && outcome.Replied? ==>
              r.responses[0] == Entry(TtsEntry, None, "Sent to " + channel + ": \"" + p.ttsText + "\"", time) && r.ttsText == ""
    ensures !Blank(p.ttsText) && outcome.Failed? ==>
              r.responses[0] == Entry(ErrorEntry, None, "TTS Error: " + outcome.message, time) && r.ttsText == p.ttsText
    ensures r.aiPrompt == p.aiPrompt && r.loading == p.loading && r.systemStatus == p.systemStatus
  {
    if Blank(p.ttsText) then p
    else
      match outcome
      case Replied(_) => Record(p, Entry(TtsEntry, None, "Sent to " + channel + ": \"" + p.ttsText + "\"", time)).(ttsText := "")
      case Failed(m) => Record(p, Entry(ErrorEntry, None, "TTS Error: " + m, time))
  }

  /** The speech test changes the page exactly when the text is not blank. */
  lemma TtsTestGuard(p: Page, channel: string, outcome: Outcome<()>, time: string)
    ensures TtsTest(p, channel, outcome, time) == p <==> Blank(p.ttsText)
  {
    if !Blank(p.ttsText) {
      assert |TtsTest(p, channel, outcome, time).responses| != |p.responses|;
    }
  }

  /** `triggerAlert(type)` */
  function TriggerAlert(p: Page, alertType: string, outcome: Outcome<()>, time: string): (r: Page)
    ensures |r.responses| == |p.responses| + 1 && r.responses[1..] == p.responses
    ensures outcome.Replied? ==> r.responses[0] == Entry(SimulationEntry, None, "Simulated " + alertType + " alert triggered.", time)
    ensures outcome.Failed? ==> r.responses[0] == Entry(ErrorEntry, None, "Alert Error: " + outcome.message, time)
    ensures r.aiPrompt == p.aiPrompt && r.ttsText == p.ttsText && r.loading == p.loading && r.systemStatus == p.systemStatus
  {
    match outcome
    case Replied(_) => Record(p, Entry(SimulationEntry, None, "Simulated " + alertType + " alert triggered.", time))
    case Failed(m) => Record(p, Entry(ErrorEntry, None, "Alert Error: " + m, time))
  }

  /** The Clear History button. */
  function ClearHistory(p: Page): (r: Page)
    ensures r.responses == []
    ensures r.aiPrompt == p.aiPrompt && r.ttsText == p.ttsText && r.loading == p.loading && r.systemStatus == p.systemStatus
  {
    p.(responses := [])
  }

  /** One of the page's actions, with its outcome and the clock's reading. */
  datatype Action =
    | CheckSystem(status: Outcome<Json>, time: string)
    | SendChat(chat: Outcome<string>, time: string)
    | AskAi(answer: Outcome<string>, time: string)
    | Speak(channel: string, spoken: Outcome<()>, time: string)
    | Trigger(alertType: string, raised: Outcome<()>, time: string)

  function Apply(p: Page, a: Action): Page {
    match a
    case CheckSystem(o, t) => SystemCheck(p, o, t)
    case SendChat(o, t) => SendTestChat(p, o, t)
    case AskAi(o, t) => AiTest(p, o, t)
    case Speak(c, o, t) => TtsTest(p, c, o, t)
    case Trigger(k, o, t) => TriggerAlert(p, k, o, t)
  }

  function ApplyAll(p: Page, actions: seq<Action>): Page
    decreases |actions|
  {
    if |actions| == 0 then p else ApplyAll(Apply(p, actions[0]), actions[1..])
  }

  /** `t` is the tail of `s`. */
  predicate EndsWith(s: seq<Entry>, t: seq<Entry>) {
    |s| >= |t| && s[|s| - |t|..] == t
  }

  /** Every action either leaves the history alone or puts one line in front of it. */
  lemma ApplyKeepsHistory(p: Page, a: Action)
    ensures EndsWith(Apply(p, a).responses, p.responses)
  {
    var r := Apply(p, a).responses;
    if r != p.responses {
      assert |r| == |p.responses| + 1 && r[1..] == p.responses;
    }
  }

  lemma EndsWithTrans(s: seq<Entry>, t: seq<Entry>, u: seq<Entry>)
    requires EndsWith(s, t) && EndsWith(t, u)
    ensures EndsWith(s, u)
  {
    assert s[|s| - |u|..] == s[|s| - |t|..][|t| - |u|..];
  }

  /**
   * The history only grows at its front: whatever actions run, the history
   * from before is the tail of the history after, in its order.
   */
  lemma {:induction false} HistoryGrowsAtFront(p: Page, actions: seq<Action>)
    ensures var r := ApplyAll(p, actions);
            |r.responses| >= |p.responses| && r.responses[|r.responses| - |p.responses|..] == p.responses
    decreases |actions|
  {
    if |actions| > 0 {
      var q := Apply(p, actions[0]);
      ApplyKeepsHistory(p, actions[0]);
      HistoryGrowsAtFront(q, actions[1..]);
      assert ApplyAll(p, actions) == ApplyAll(q, actions[1..]);
      EndsWithTrans(ApplyAll(p, actions).responses, q.responses, p.responses);
    } else {
      assert p.responses[0..] == p.responses;
    }
  }

  // ------------------------------------------------------------ status badges

  /** The colour a diagnostic status gets. */
  datatype Health = Good | Degraded | Bad

  /** `isGood` */
  predicate IsGood(status: Json) {
    status in {JStr("Connected"), JStr("Monitoring"), JStr("Active"), JStr("Tracking")}
  }

  /** `isDegraded` */
  predicate IsDegraded(status: Json) {
    status in {JStr("Degraded"), JStr("Inactive")}
  }

  /** The badge: green when good, yellow when degraded, red otherwise; a tick only when good. */
  datatype Badge = Badge(health: Health, tick: bool)

  function StatusBadge(status: Json): (b: Badge)
    ensures b.health == Good <==> IsGood(status)
    ensures b.health == Degraded <==> IsDegraded(status)
    ensures b.health == Bad <==> !IsGood(status) && !IsDegraded(status)
    ensures b.tick <==> b.health == Good
  {
    if IsGood(status) then Badge(Good, true)
    else if IsDegraded(status) then Badge(Degraded, false)
    else Badge(Bad, false)
  }

  /** No status is both good and degraded. */
  lemma GoodAndDegradedDisjoint(status: Json)
    ensures !(IsGood(status) && IsDegraded(status))
  {
  }
}
