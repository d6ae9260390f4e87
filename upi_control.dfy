/**
 * The UPI gateway page (src/pages/UPIControl.jsx): a local copy of the
 * `upi_gateway` section edited field by field and saved as a whole, and a
 * test payload sent to the gateway's webhook, with the gateway's secret
 * filled in when the payload has none.
 */
module UpiControl {
  import opened Wrappers
  import opened ConfigDoc

  /** The page's state: the gateway settings, the test payload, the status line. */
  datatype Page = Page(local: Doc, testPayload: Doc, status: string)

  /** The settings the page starts from before a configuration arrives. */
  function InitialGateway(): (r: Doc)
    ensures r.Keys == {"enabled", "secret_key", "min_amount"}
    ensures r["enabled"] == JBool(false) && r["secret_key"] == JStr("") && r["min_amount"] == JInt(10)
  {
    map["enabled" := JBool(false), "secret_key" := JStr(""), "min_amount" := JInt(10)]
  }

  /** The test payload the page starts from. */
  function InitialPayload(): (r: Doc)
    ensures r.Keys == {"sender", "amount", "message", "secret"}
    ensures r["sender"] == JStr("Test User") && r["amount"] == JStr("100")
    ensures r["message"] == JStr("Hype! Great stream!") && r["secret"] == JStr("")
  {
    map["sender" := JStr("Test User"), "amount" := JStr("100"),
        "message" := JStr("Hype! Great stream!"), "secret" := JStr("")]
  }

  function InitialPage(): (r: Page)
    ensures r.local == InitialGateway() && r.testPayload == InitialPayload() && r.status == ""
  {
    Page(InitialGateway(), InitialPayload(), "")
  }

  /**
   * The effect run when a configuration arrives: a truthy `upi_gateway`
   * section replaces the local settings by a copy of its fields; otherwise the
   * local settings stay as they were.
   */
  function Loaded(page: Page, config: Option<Doc>): (r: Page)
    ensures r.testPayload == page.testPayload && r.status == page.status
    ensures config.Some? && "upi_gateway" in config.value && config.value["upi_gateway"].JObj? ==>
              r.local == config.value["upi_gateway"].fields
    ensures config.None? || "upi_gateway" !in config.value || !Truthy(config.value["upi_gateway"]) ==>
              r == page
  {
    if config.Some? && "upi_gateway" in config.value && Truthy(config.value["upi_gateway"]) then
      page.(local := Spread(Some(config.value["upi_gateway"])))
    else page
  }

  /**
   * `handleChange`: a checkbox stores its checked state, any other input its
   * text, under the input's name; the other settings are kept.
   */
  function HandleChange(page: Page, name: string, value: string, isCheckbox: bool, checked: bool): (r: Page)
    ensures r.local.Keys == page.local.Keys + {name}
    ensures isCheckbox ==> r.local[name] == JBool(checked)
    ensures !isCheckbox ==> r.local[name] == JStr(value)
    ensures forall k :: k in page.local && k != name ==> r.local[k] == page.local[k]
    ensures r.testPayload == page.testPayload && r.status == page.status
  {
    page.(local := ReplaceSection(page.local, name, if isCheckbox then JBool(checked) else JStr(value)))
  }

  /** `handleSave`: the configuration handed to the save callback. */
  function HandleSave(config: Doc, page: Page): (r: Doc)
    ensures r.Keys == config.Keys + {"upi_gateway"}
    ensures r["upi_gateway"] == JObj(page.local)
    ensures forall k :: k in config && k != "upi_gateway" ==> r[k] == config[k]
  {
    ReplaceSection(config, "upi_gateway", JObj(page.local))
  }

  /** Saving and then receiving the saved configuration brings back the same settings. */
  lemma SaveThenLoad(config: Doc, page: Page)
    ensures Loaded(page, Some(HandleSave(config, page))) == page
  {
    assert Loaded(page, Some(HandleSave(config, page))).local == page.local;
  }

  /** `handleTestChange`: only the named payload field takes the input's text. */
  function HandleTestChange(page: Page, name: string, value: string): (r: Page)
    ensures r.testPayload.Keys == page.testPayload.Keys + {name}
    ensures r.testPayload[name] == JStr(value)
    ensures forall k :: k in page.testPayload && k != name ==> r.testPayload[k] == page.testPayload[k]
    ensures r.local == page.local && r.status == page.status
  {
    page.(testPayload := ReplaceSection(page.testPayload, name, JStr(value)))
  }

  /**
   * The payload `handleSimulate` posts: a copy of the test payload whose
   * `secret`, when falsy, is filled from a truthy `secret_key` of the settings.
   */
  function SentPayload(page: Page): (r: Doc)
    ensures forall k :: k != "secret" ==> (k in r <==> k in page.testPayload)
    ensures forall k :: k in r && k != "secret" ==> r[k] == page.testPayload[k]
    ensures Truthy(OrElse(Field(page.testPayload, "secret"), JNull)) ==>
              r == page.testPayload
    ensures !Truthy(OrElse(Field(page.testPayload, "secret"), JNull)) && Truthy(OrElse(Field(page.local, "secret_key"), JNull)) ==>
              "secret" in r && r["secret"] == page.local["secret_key"]
    ensures !Truthy(OrElse(Field(page.local, "secret_key"), JNull)) ==> r == page.testPayload
  {
    var payload := page.testPayload;
    if !(("secret" in payload) && Truthy(payload["secret"])) && "secret_key" in page.local && Truthy(page.local["secret_key"]) then
      payload["secret" := page.local["secret_key"]]
    else payload
  }

  /** How the webhook request ends: the response body as JSON text, or the error's message. */
  datatype Outcome = Answered(body: string) | Failed(message: string)

  /**
   * `handleSimulate`: the payload posted and the page afterwards. The status
   * reports the outcome; the settings and the stored test payload are kept,
   * since the secret is filled into a copy.
   */
  function Simulate(page: Page, outcome: Outcome): (r: (Doc, Page))
    ensures r.0 == SentPayload(page)
    ensures r.1.local == page.local && r.1.testPayload == page.testPayload
    ensures outcome.Answered? ==> r.1.status == "Success: " + outcome.body
    ensures outcome.Failed? ==> r.1.status == "Error: " + outcome.message
  {
    var status := match outcome
      case Answered(body) => "Success: " + body
      case Failed(message) => "Error: " + message;
    (SentPayload(page), page.(status := status))
  }

  /** The status line tells the two outcomes apart, whatever their texts. */
  lemma StatusTellsOutcome(page: Page, a: Outcome, b: Outcome)
    requires Simulate(page, a).1.status == Simulate(page, b).1.status
    ensures a == b
  {
    var sa := Simulate(page, a).1.status;
    if a.Answered? && b.Answered? {
      assert a.body == sa[9..] == b.body;
    } else if a.Failed? && b.Failed? {
      assert a.message == sa[7..] == b.message;
    } else if a.Answered? {
      PrefixesDiffer(a.body, b.message);
    } else {
      PrefixesDiffer(b.body, a.message);
    }
  }

  lemma PrefixesDiffer(x: string, y: string)
    ensures "Success: " + x != "Error: " + y
  {
    assert ("Success: " + x)[0] == 'S';
    assert ("Error: " + y)[0] == 'E';
  }

  /** A payload with a secret of its own is sent as it is. */
  lemma OwnSecretKept(page: Page)
    requires "secret" in page.testPayload && Truthy(page.testPayload["secret"])
    ensures SentPayload(page) == page.testPayload
  {
  }

  /** Filling the secret twice is the same as filling it once. */
  lemma SentPayloadIdempotent(page: Page)
    ensures SentPayload(page.(testPayload := SentPayload(page))) == SentPayload(page)
  {
  }
}
