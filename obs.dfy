/**
 * The OBS page (src/pages/OBS.jsx): the addresses to paste into OBS (the
 * chat overlay and the two UDP audio feeds) derived from the saved
 * configuration with their defaults, the save of an edited gaming-PC
 * address, and the copied marks of the copy buttons.
 */
module Obs {
  import opened Wrappers
  import opened Strings
  import opened ConfigDoc
  import App

  /** `config?.audio || {}` */
  function AudioCfg(config: Doc): Doc {
    SectionOrEmpty(config, "audio")
  }

  /** `audioCfg.gaming_pc_ip || '127.0.0.1'` */
  function GamingPcIp(config: Doc): (r: Json)
    ensures Truthy(r)
    ensures Field(AudioCfg(config), "gaming_pc_ip").Some? && Truthy(AudioCfg(config)["gaming_pc_ip"]) ==>
              r == AudioCfg(config)["gaming_pc_ip"]
    ensures !(Field(AudioCfg(config), "gaming_pc_ip").Some? && Truthy(AudioCfg(config)["gaming_pc_ip"])) ==>
              r == JStr("127.0.0.1")
  {
    OrElse(Field(AudioCfg(config), "gaming_pc_ip"), JStr("127.0.0.1"))
  }

  /** `audioCfg.udp_ports?.<key>`: missing when there is no such section or key. */
  function StoredPort(config: Doc, key: string): Option<Json> {
    var ports := Field(AudioCfg(config), "udp_ports");
    if ports.Some? then Get(ports.value, key) else None
  }

  /** `audioCfg.udp_ports?.<key> || fallback` */
  function UdpPort(config: Doc, key: string, fallback: int): (r: Json)
    requires fallback != 0
    ensures Truthy(r)
    ensures StoredPort(config, key).Some? && Truthy(StoredPort(config, key).value) ==> r == StoredPort(config, key).value
    ensures !(StoredPort(config, key).Some? && Truthy(StoredPort(config, key).value)) ==> r == JInt(fallback)
  {
    OrElse(StoredPort(config, key), JInt(fallback))
  }

  /** `udp://<ip>:<port>` */
  function UdpUrl(ip: Json, port: Json): string {
    "udp://" + JsString(ip) + ":" + JsString(port)
  }

  /** The public audio feed, port 1234 unless the configuration names one. */
  function PublicAudioUrl(config: Doc): string {
    UdpUrl(GamingPcIp(config), UdpPort(config, "public", 1234))
  }

  /** The secret audio feed, port 1235 unless the configuration names one. */
  function SecretAudioUrl(config: Doc): string {
    UdpUrl(GamingPcIp(config), UdpPort(config, "secret", 1235))
  }

  /** `http://<host>/?mode=chat`, the page's own host and port. */
  function ChatOverlayUrl(host: string): (r: string)
    ensures |r| > 10 && r[|r| - 10..] == "?mode=chat"
  {
    "http://" + host + "/?mode=chat"
  }

  /**
   * The chat overlay's address carries the query `?mode=chat`, which the
   * App, holding a valid configuration, routes to the chat overlay.
   */
  lemma ChatOverlayUrlRoutes(host: string, st: App.State)
    requires App.IsValidConfig(st.config)
    ensures var url := ChatOverlayUrl(host);
            App.Route(url[|url| - 10..], st) == App.ChatOverlayScreen
  {
    App.ChatAddressRoutes(st);
  }

  /**
   * Without an audio section the feeds go to the local machine,
   * `udp://127.0.0.1:1234` and `udp://127.0.0.1:1235`.
   */
  lemma DefaultFeeds(config: Doc)
    requires "audio" !in config
    ensures GamingPcIp(config) == JStr("127.0.0.1")
    ensures PublicAudioUrl(config) == UdpUrl(JStr("127.0.0.1"), JInt(1234))
    ensures SecretAudioUrl(config) == UdpUrl(JStr("127.0.0.1"), JInt(1235))
  {
    assert AudioCfg(config) == map[];
  }

  /** Ports of 0, as the default configuration document ships them, count as missing. */
  lemma ZeroPortFallsBack(config: Doc)
    requires "audio" in config && config["audio"].JObj?
    requires "udp_ports" in config["audio"].fields
    requires config["audio"].fields["udp_ports"] == JObj(map["public" := JInt(0), "secret" := JInt(0)])
    ensures UdpPort(config, "public", 1234) == JInt(1234) && UdpPort(config, "secret", 1235) == JInt(1235)
  {
  }

  // ------------------------------------------------------------ page state

  /**
   * The page's own state: the address box, which starts at the saved
   * address, and the copied marks of the buttons.
   */
  datatype Page = Page(localIp: Json, copied: map<string, bool>)

  function InitialPage(config: Doc): (p: Page)
    ensures p.localIp == GamingPcIp(config) && p.copied == map[]
  {
    Page(GamingPcIp(config), map[])
  }

  /** Typing into the address box changes it and nothing that is shown. */
  function EditIp(p: Page, text: string): (r: Page)
    ensures r.localIp == JStr(text) && r.copied == p.copied
  {
    p.(localIp := JStr(text))
  }

  /**
   * `handleUpdateIp`: the configuration saved with `audio.gaming_pc_ip` set
   * to the address box; the other audio keys and the other sections kept.
   */
  function UpdateIp(config: Doc, p: Page): (r: Doc)
    ensures r.Keys == config.Keys + {"audio"}
    ensures forall k :: k in config && k != "audio" ==> r[k] == config[k]
    ensures r["audio"].JObj? && r["audio"].fields.Keys == AudioCfg(config).Keys + {"gaming_pc_ip"}
    ensures r["audio"].fields["gaming_pc_ip"] == p.localIp
    ensures forall k :: k in AudioCfg(config) && k != "gaming_pc_ip" ==> r["audio"].fields[k] == AudioCfg(config)[k]
  {
    ReplaceSection(config, "audio", JObj(AudioCfg(config)["gaming_pc_ip" := p.localIp]))
  }

  /**
   * The feeds shown follow the saved address only: once the address box is
   * saved (and not empty) the feeds use it, on the ports they had before.
   */
  lemma FeedsFollowSavedIp(config: Doc, p: Page)
    requires Truthy(p.localIp)
    ensures GamingPcIp(UpdateIp(config, p)) == p.localIp
    ensures PublicAudioUrl(UpdateIp(config, p)) == UdpUrl(p.localIp, UdpPort(config, "public", 1234))
    ensures SecretAudioUrl(UpdateIp(config, p)) == UdpUrl(p.localIp, UdpPort(config, "secret", 1235))
  {
    var r := UpdateIp(config, p);
    assert AudioCfg(r) == r["audio"].fields;
    assert Field(AudioCfg(r), "udp_ports") == Field(AudioCfg(config), "udp_ports");
  }

  /** Saving an emptied address box makes the feeds fall back to the local machine. */
  lemma EmptyIpFallsBack(config: Doc, p: Page)
    requires p.localIp == JStr("")
    ensures GamingPcIp(UpdateIp(config, p)) == JStr("127.0.0.1")
  {
    var r := UpdateIp(config, p);
    assert AudioCfg(r) == r["audio"].fields;
  }

  /** `setCopiedMap(prev => ({...prev, [key]: true}))` */
  function Copy(p: Page, key: string): (r: Page)
    ensures r.localIp == p.localIp
    ensures r.copied.Keys == p.copied.Keys + {key} && r.copied[key]
    ensures forall k :: k in p.copied && k != key ==> r.copied[k] == p.copied[k]
  {
    p.(copied := p.copied[key := true])
  }

  /** The timer's reset two seconds later, `{...prev, [key]: false}`. */
  function CopyExpired(p: Page, key: string): (r: Page)
    ensures r.localIp == p.localIp
    ensures r.copied.Keys == p.copied.Keys + {key} && !r.copied[key]
    ensures forall k :: k in p.copied && k != key ==> r.copied[k] == p.copied[k]
  {
    p.(copied := p.copied[key := false])
  }

  /** Copying one address marks it and leaves the other buttons' marks as they were. */
  lemma CopyMarksOnlyItsButton(p: Page, key: string, other: string)
    requires other != key
    ensures Copy(p, key).copied[key]
    ensures other in p.copied <==> other in Copy(p, key).copied
    ensures other in p.copied ==> Copy(p, key).copied[other] == p.copied[other]
    ensures CopyExpired(Copy(p, key), key).copied == p.copied[key := false]
  {
  }
}
