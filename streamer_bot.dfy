/**
 * The Streamer.bot page (src/pages/StreamerBot.jsx): the log frames that
 * concern Streamer.bot, whether the bot is connected to it, the host and
 * port form and its two saves, the event counters, the chat endpoint and
 * the dashboard-port setting.
 */
module StreamerBot {
  import opened Wrappers
  import opened Strings
  import opened ConfigDoc
  import opened Frames
  import opened Sequences
  import Moderation
  import Settings

  // ------------------------------------------------------------ events

  /** `l.category === 'ALERT' || l.message.includes('Streamer.bot')` */
  function IsSbEvent(): Frame -> bool {
    l => HasCategory(l, "ALERT") || Contains(l.message, "Streamer.bot")
  }

  /** `sbEvents`: the frames about Streamer.bot, in buffer order. */
  function SbEvents(logs: seq<Frame>): (r: seq<Frame>)
    ensures |r| <= |logs|
    ensures |r| == |Indices(logs, IsSbEvent())|
    ensures forall k :: 0 <= k < |r| ==> r[k] == logs[Indices(logs, IsSbEvent())[k]]
    ensures forall k :: 0 <= k < |r| ==> HasCategory(r[k], "ALERT") || Contains(r[k].message, "Streamer.bot")
    ensures forall l :: l in logs && (HasCategory(l, "ALERT") || Contains(l.message, "Streamer.bot")) ==> l in r
    ensures forall l :: l in r ==> l in logs
  {
    var r := Filter(logs, IsSbEvent());
    forall l ensures l in r <==> l in logs && IsSbEvent()(l) {
      FilterMembers(logs, IsSbEvent(), l);
    }
    r
  }

  const ConnectMessage: string := "Connected to Streamer.bot WS"
  const DisconnectMessage: string := "Streamer.bot WS Disconnected. Retrying..."

  /**
   * The connection state read from the logs when the bot's status is not
   * known: some frame says the bot connected, and no frame saying it
   * disconnected is newer than the first connect frame in buffer order.
   */
  function ConnectedFromLogs(logs: seq<Frame>): (r: bool)
    ensures r <==> exists i :: 0 <= i < |logs| && logs[i].message == ConnectMessage &&
                     (forall j :: 0 <= j < i ==> logs[j].message != ConnectMessage) &&
                     (forall j :: 0 <= j < |logs| && logs[j].message == DisconnectMessage ==>
                        logs[j].timestamp <= logs[i].timestamp)
  {
    match FindIndex(logs, (l: Frame) => l.message == ConnectMessage)
    case None => false
    case Some(i) =>
      FindIndex(logs, (l: Frame) => l.message == DisconnectMessage && l.timestamp > logs[i].timestamp).None?
  }

  /**
   * `isConnected`: the bot's own report when the status is known
   * (`backendStatus.bot.streamer_bot_connected`), the logs otherwise.
   */
  function IsConnected(reported: Option<bool>, logs: seq<Frame>): (r: bool)
    ensures reported.Some? ==> r == reported.value
    ensures reported.None? ==> r == ConnectedFromLogs(logs)
  {
    if reported.Some? then reported.value else ConnectedFromLogs(logs)
  }

  /** A buffer whose only Streamer.bot news is the connect frame shows the bot connected. */
  lemma ConnectOnlyIsConnected(logs: seq<Frame>, i: nat)
    requires i < |logs| && logs[i].message == ConnectMessage
    requires forall j :: 0 <= j < |logs| ==> logs[j].message != DisconnectMessage
    ensures ConnectedFromLogs(logs)
  {
    var first := FindIndex(logs, (l: Frame) => l.message == ConnectMessage);
    assert first.Some?;
  }

  /**
   * Only the first connect frame in buffer order counts: a disconnect newer
   * than it shows the bot disconnected, even when another connect frame is
   * newer still.
   */
  lemma NewerDisconnectWins(logs: seq<Frame>, j: nat)
    requires 0 < |logs| && logs[0].message == ConnectMessage
    requires j < |logs| && logs[j].message == DisconnectMessage && logs[j].timestamp > logs[0].timestamp
    ensures !ConnectedFromLogs(logs)
  {
  }

  // ------------------------------------------------------------ counters

  /**
   * A stat card's value, `sbEvents.filter(p).length`: never more than the
   * events, and 0 exactly when no event meets the card's condition.
   */
  function EventCount(logs: seq<Frame>, p: Frame -> bool): (n: nat)
    ensures n <= |SbEvents(logs)|
    ensures n == 0 <==> forall k :: 0 <= k < |SbEvents(logs)| ==> !p(SbEvents(logs)[k])
  {
    CountZeroIff(SbEvents(logs), p);
    Count(SbEvents(logs), p)
  }

  /** "Subscribers": events mentioning `NewSubscriber` or `NewSponsor`. */
  function Subscribers(logs: seq<Frame>): nat {
    EventCount(logs, (e: Frame) => Contains(e.message, "NewSubscriber") || Contains(e.message, "NewSponsor"))
  }

  /** "Members": events mentioning `Member`. */
  function Members(logs: seq<Frame>): nat {
    EventCount(logs, (e: Frame) => Contains(e.message, "Member"))
  }

  /** "Super Chats": events mentioning `SuperChat` or `SuperSticker`. */
  function SuperChats(logs: seq<Frame>): nat {
    EventCount(logs, (e: Frame) => Contains(e.message, "SuperChat") || Contains(e.message, "SuperSticker"))
  }

  /** "WS Alerts": events of category `ALERT`. */
  function WsAlerts(logs: seq<Frame>): nat {
    EventCount(logs, CategoryIs("ALERT"))
  }

  /**
   * Every `ALERT` frame is a Streamer.bot event, so "WS Alerts" counts all
   * `ALERT` frames of the buffer.
   */
  lemma WsAlertsCountsAllAlerts(logs: seq<Frame>)
    ensures WsAlerts(logs) == Count(logs, CategoryIs("ALERT"))
  {
    FilterFilter(logs, IsSbEvent(), CategoryIs("ALERT"), CategoryIs("ALERT"));
  }

  // ------------------------------------------------------------ the form

  /** `config?.streamer_bot || {}` */
  function SbConfig(config: Doc): Doc {
    SectionOrEmpty(config, "streamer_bot")
  }

  /** The host and port boxes: what they hold before any edit. */
  datatype Form = Form(host: Json, port: Json)

  /** `sbConfig.host || '127.0.0.1'` and `sbConfig.port || 8080` */
  function FormFor(config: Doc): (r: Form)
    ensures r.host == OrElse(Field(SbConfig(config), "host"), JStr("127.0.0.1"))
    ensures r.port == OrElse(Field(SbConfig(config), "port"), JInt(8080))
    ensures "streamer_bot" !in config ==> r == Form(JStr("127.0.0.1"), JInt(8080))
  {
    var sb := SbConfig(config);
    Form(OrElse(Field(sb, "host"), JStr("127.0.0.1")), OrElse(Field(sb, "port"), JInt(8080)))
  }

  /** `parseInt(port)` of what the port box holds: NaN is stored as `null`. */
  function PortValue(form: Form): Json {
    Moderation.ParsedNumber(JsString(form.port))
  }

  /**
   * `handleUpdate`: the Streamer.bot section with the form's host and parsed
   * port; its other keys, `enabled` included, and the other sections are kept.
   */
  function HandleUpdate(config: Doc, form: Form): (r: Doc)
    ensures r.Keys == config.Keys + {"streamer_bot"}
    ensures forall k :: k in config && k != "streamer_bot" ==> r[k] == config[k]
    ensures r["streamer_bot"] == JObj(SbConfig(config)["host" := form.host]["port" := PortValue(form)])
  {
    ReplaceSection(config, "streamer_bot", JObj(SbConfig(config)["host" := form.host]["port" := PortValue(form)]))
  }

  /** `handleToggle`: as `handleUpdate`, with `enabled` flipped. */
  function HandleToggle(config: Doc, form: Form): (r: Doc)
    ensures r.Keys == config.Keys + {"streamer_bot"}
    ensures forall k :: k in config && k != "streamer_bot" ==> r[k] == config[k]
    ensures var enabled := JBool(!Truthy(OrElse(Field(SbConfig(config), "enabled"), JNull)));
            r["streamer_bot"] == JObj(SbConfig(config)["enabled" := enabled]["host" := form.host]["port" := PortValue(form)])
  {
    var sb := SbConfig(config);
    var enabled := !Truthy(OrElse(Field(sb, "enabled"), JNull));
    ReplaceSection(config, "streamer_bot", JObj(sb["enabled" := JBool(enabled)]["host" := form.host]["port" := PortValue(form)]))
  }

  /** The button's label: the action it takes. */
  function ButtonLabel(config: Doc): (r: string)
    ensures r == "DISCONNECT" <==> Truthy(OrElse(Field(SbConfig(config), "enabled"), JNull))
  {
    if Truthy(OrElse(Field(SbConfig(config), "enabled"), JNull)) then "DISCONNECT" else "CONNECT"
  }

  /** Pressing the button flips its label. */
  lemma ToggleFlipsLabel(config: Doc, form: Form)
    ensures ButtonLabel(HandleToggle(config, form)) != ButtonLabel(config)
  {
  }

  /** Toggling twice restores whether the integration is enabled. */
  lemma ToggleTwice(config: Doc, form: Form)
    ensures var twice := HandleToggle(HandleToggle(config, form), form);
            Truthy(OrElse(Field(SbConfig(twice), "enabled"), JNull)) == Truthy(OrElse(Field(SbConfig(config), "enabled"), JNull))
  {
  }

  /**
   * Saving a non-empty host and a non-zero port and reading the saved
   * configuration back fills the form with the same host and port.
   */
  lemma UpdateThenForm(config: Doc, host: string, port: int)
    requires host != "" && port != 0
    ensures FormFor(HandleUpdate(config, Form(JStr(host), JInt(port)))) == Form(JStr(host), JInt(port))
  {
    var form := Form(JStr(host), JInt(port));
    assert PortValue(form) == JInt(port) by {
      assert JsString(JInt(port)) == IntToString(port);
      ParseIntOfIntToString(port);
    }
    var sb := SbConfig(HandleUpdate(config, form));
    assert sb == SbConfig(config)["host" := JStr(host)]["port" := JInt(port)];
    assert Field(sb, "host") == Some(JStr(host)) && Field(sb, "port") == Some(JInt(port));
  }

  // ------------------------------------------------------------ server port

  /** `config?.server?.port || 8000`: the dashboard port shown. */
  function ShownServerPort(config: Doc): (r: Json)
    ensures var v := GetPath(config, ["server", "port"]);
            v.Some? && Truthy(v.value) ==> r == v.value
    ensures var v := GetPath(config, ["server", "port"]);
            v.None? || !Truthy(v.value) ==> r == JInt(8000)
    ensures Truthy(r)
  {
    OrElse(GetPath(config, ["server", "port"]), JInt(8000))
  }

  /**
   * The dashboard-port box's change: `parseInt(text) || 8000` stored at
   * `server.port`, the other server keys and sections kept.
   */
  function SaveServerPort(config: Doc, text: string): (r: Doc)
    ensures r.Keys == config.Keys + {"server"}
    ensures forall k :: k in config && k != "server" ==> r[k] == config[k]
    ensures r["server"].JObj? && r["server"].fields.Keys == Spread(Field(config, "server")).Keys + {"port"}
    ensures r["server"].fields["port"] == JInt(Settings.ParsedOr(text, 8000))
    ensures forall k :: k in Spread(Field(config, "server")) && k != "port" ==>
              r["server"].fields[k] == config["server"].fields[k]
  {
    var server := Spread(Field(config, "server"));
    ReplaceSection(config, "server", JObj(server["port" := JInt(Settings.ParsedOr(text, 8000))]))
  }

  /** The port a save stores is the port the page shows afterwards, and never 0. */
  lemma SavedPortShown(config: Doc, text: string)
    ensures ShownServerPort(SaveServerPort(config, text)) == JInt(Settings.ParsedOr(text, 8000))
    ensures Settings.ParsedOr(text, 8000) != 0
  {
    var r := SaveServerPort(config, text);
    assert ["server", "port"][1..] == ["port"];
    assert GetPath(r, ["server", "port"]) == Some(JInt(Settings.ParsedOr(text, 8000)));
  }

  /** A text with no number, or with 0, saves and shows port 8000. */
  lemma UnparsablePortShows8000(config: Doc, text: string)
    requires ParseInt(text).None? || ParseInt(text) == Some(0)
    ensures ShownServerPort(SaveServerPort(config, text)) == JInt(8000)
  {
    SavedPortShown(config, text);
  }

  /**
   * The chat endpoint to copy into Streamer.bot:
   * `http://<hostname>:<shown port>/chat`.
   */
  function Endpoint(hostname: string, config: Doc): (r: string)
    ensures r == "http://" + hostname + ":" + JsString(ShownServerPort(config)) + "/chat"
    ensures GetPath(config, ["server", "port"]).None? ==> r == "http://" + hostname + ":8000/chat"
  {
    "http://" + hostname + ":" + JsString(ShownServerPort(config)) + "/chat"
  }
}
