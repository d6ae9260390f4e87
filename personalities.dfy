/**
 * The personalities page (src/pages/Personalities.jsx): a list of prompt
 * presets, one of which can be applied as the AI's system prompt, edited in
 * place, or reset to the built-in list.
 *
 * The page saves by copying the configuration with a spread and then
 * assigning into `ai_topology`. The spread is shallow, so the object it
 * assigns into is the very `ai_topology` object of the configuration the page
 * was given: the given configuration changes as well, before the save is
 * acknowledged. The model keeps that object on the heap (`Topology`) so that
 * this in-place change is visible in the contracts.
 */
module Personalities {
  import opened Wrappers
  import opened ConfigDoc

  function Preset(id: string, name: string, description: string, icon: string, prompt: string): Json {
    JObj(map[
      "id" := JStr(id), "name" := JStr(name), "description" := JStr(description),
      "icon_name" := JStr(icon), "prompt" := JStr(prompt)])
  }

  const RoastPrompt: string :=
    "You are a savage" + " but playful roast bot for live chat.\nReply with short, witty, funny one-liners.\n" +
    "Keep it entertaining, not toxic.\nNo hate, abuse, or personal attacks.\nMax 1\U{2013}2 lines only."
  const HelpPrompt: string :=
    "You are a helpful" + " assistant.\nExplain clearly and simply like teaching a beginner.\n" +
    "Use short steps or bullets.\nGive direct solutions only.\nAvoid long explanations."
  const FunnyPrompt: string :=
    "You are goofy" + ", meme-style, and high energy.\nMake responses humorous and fun.\n" +
    "Add light jokes or emojis sometimes.\nKeep answers short and chat-friendly."
  const CustomPrompt: string :=
    "You are a dynamic" + " custom AI.\nAdapt your personality based on the user's instruction.\n\n" +
    "Rules:\n- Follow the requested tone/style exactly\n- Be concise for fast chat\n- Keep responses short\n- Avoid paragraphs\n\n" +
    "Examples:\n\"act like teacher\" \U{2192} explain simply\n\"be professional\" \U{2192} formal tone\n" +
    "\"be funny\" \U{2192} add humor\n\"short answer\" \U{2192} one sentence only\n\"motivate me\" \U{2192} encouraging tone\n\n" +
    "Always adjust automatically to the user's request."

  /** The built-in presets. */
  const DefaultPresets: seq<Json> := [
    Preset("roast", "Roast Master", "Savage but playful. Witty one-liners only.", "flame", RoastPrompt),
    Preset("help", "Helpful Assistant", "Clear, simple explanations for beginners.", "helping", HelpPrompt),
    Preset("funny", "High Energy", "Goofy, meme-style, and humorous.", "smile", FunnyPrompt),
    Preset("custom", "Dynamic Custom", "Adapts personality based on user instruction.", "sparkles", CustomPrompt)
  ]

  /** `obj[key] = v` where `v` may be `undefined`, which the saved JSON leaves out. */
  function Assign(fields: map<string, Json>, key: string, v: Option<Json>): (r: map<string, Json>)
    ensures Field(r, key) == v
    ensures forall k :: k != key ==> Field(r, k) == Field(fields, k)
  {
    match v
    case Some(x) => fields[key := x]
    case None => fields - {key}
  }

  /**
   * `presets.map(p => p.id === editingId ? editForm : p)`: the presets with
   * the edited id replaced by the form, in the same order.
   */
  function ReplacePreset(presets: seq<Json>, id: Option<Json>, form: map<string, Json>): (r: seq<Json>)
    ensures |r| == |presets|
    ensures forall i :: 0 <= i < |presets| && Get(presets[i], "id") == id ==> r[i] == JObj(form)
    ensures forall i :: 0 <= i < |presets| && Get(presets[i], "id") != id ==> r[i] == presets[i]
  {
    seq(|presets|, i requires 0 <= i < |presets| => if Get(presets[i], "id") == id then JObj(form) else presets[i])
  }

  /** `presets.find(p => p.id === id)?.prompt` */
  function FoundPrompt(presets: seq<Json>, id: Option<Json>): (r: Option<Json>)
    ensures (forall i :: 0 <= i < |presets| ==> Get(presets[i], "id") != id) ==> r.None?
    ensures forall i :: (0 <= i < |presets| && Get(presets[i], "id") == id &&
                         (forall j :: 0 <= j < i ==> Get(presets[j], "id") != id)) ==>
              r == Get(presets[i], "prompt")
    decreases |presets|
  {
    if |presets| == 0 then None
    else if Get(presets[0], "id") == id then Get(presets[0], "prompt")
    else
      var r := FoundPrompt(presets[1..], id);
      assert forall i :: 1 <= i < |presets| ==> presets[i] == presets[1..][i - 1];
      r
  }

  /** `config.ai_topology?.presets || DEFAULT_PRESETS`, as a list. */
  function InitialPresets(topology: Option<map<string, Json>>): (r: Json)
    ensures topology.None? || Field(topology.value, "presets").None? || !Truthy(topology.value["presets"]) ==>
              r == JArr(DefaultPresets)
    ensures topology.Some? && Field(topology.value, "presets").Some? && Truthy(topology.value["presets"]) ==>
              r == topology.value["presets"]
  {
    if topology.None? then JArr(DefaultPresets)
    else OrElse(Field(topology.value, "presets"), JArr(DefaultPresets))
  }

  /** The configuration's `ai_topology` object, shared by every shallow copy of the configuration. */
  class Topology {
    var fields: map<string, Json>

    constructor(fields: map<string, Json>)
      ensures this.fields == fields
    {
      this.fields := fields;
    }
  }

  /** The page's state: the configuration it was given and its own editing state. */
  class PersonalitiesPage {
    /** The given configuration's sections other than `ai_topology`. */
    var sections: Doc
    /** The given configuration's `ai_topology` object, or null when it has none. */
    var topology: Topology?
    var presets: Json
    /**
     * The id of the preset being edited: `null` (`Some(JNull)`) when none is,
     * `undefined` (`None`) after editing a preset that has no id. A falsy id
     * counts as not editing.
     */
    var editingId: Option<Json>
    var editForm: map<string, Json>

    constructor(sections: Doc, topology: Topology?)
      ensures this.sections == sections && this.topology == topology
      ensures presets == InitialPresets(if topology == null then None else Some(topology.fields))
      ensures editingId == Some(JNull) && editForm == map[]
    {
      this.sections := sections;
      this.topology := topology;
      presets := InitialPresets(if topology == null then None else Some(topology.fields));
      editingId := Some(JNull);
      editForm := map[];
    }

    /** `if (editingId)`: an id that is set and truthy. */
    predicate Editing()
      reads this
    {
      editingId.Some? && Truthy(editingId.value)
    }

    /** `config.ai_topology?.system_prompt || ""` */
    function CurrentPrompt(): Json
      reads this, topology
    {
      if topology == null then JStr("") else OrElse(Field(topology.fields, "system_prompt"), JStr(""))
    }

    /** `currentPrompt === preset.prompt`: the preset is shown as the active one. */
    predicate IsActive(preset: Json)
      reads this, topology
    {
      Get(preset, "prompt") == Some(CurrentPrompt())
    }

    /** The configuration a save sends: the sections with `ai_topology` set to the given fields. */
    function SavedWith(fields: map<string, Json>): Doc
      reads this
    {
      sections["ai_topology" := JObj(fields)]
    }

    /**
     * `handleApply(preset)`: while a preset is being edited nothing happens
     * (`None`). Otherwise the preset's prompt becomes the system prompt, in
     * the shared `ai_topology` object when there is one and in a new one when
     * there is not, and the resulting configuration is saved.
     */
    method HandleApply(preset: Json) returns (saved: Option<Doc>)
      modifies topology
      ensures Editing() ==> saved.None? && (topology != null ==> topology.fields == old(topology.fields))
      ensures !Editing() && topology != null ==>
                topology.fields == Assign(old(topology.fields), "system_prompt", Get(preset, "prompt")) &&
                saved == Some(SavedWith(topology.fields))
      ensures !Editing() && topology == null ==>
                saved == Some(SavedWith(Assign(map[], "system_prompt", Get(preset, "prompt"))))
      ensures !Editing() && topology != null && Get(preset, "prompt") == Some(JStr(PromptText(preset))) ==>
                IsActive(preset)
    {
      if Editing() {
        return None;
      }
      if topology == null {
        saved := Some(SavedWith(Assign(map[], "system_prompt", Get(preset, "prompt"))));
      } else {
        topology.fields := Assign(topology.fields, "system_prompt", Get(preset, "prompt"));
        saved := Some(SavedWith(topology.fields));
      }
    }

    /** `startEdit(preset)`: remembers the preset's id and copies it into the form. */
    method StartEdit(preset: Json)
      modifies this
      ensures editingId == Get(preset, "id")
      ensures editForm == Spread(Some(preset))
      ensures sections == old(sections) && topology == old(topology) && presets == old(presets)
    {
      editingId := Get(preset, "id");
      editForm := Spread(Some(preset));
    }

    /** The form's name, description and prompt boxes. */
    method EditField(key: string, text: string)
      modifies this
      ensures editForm == old(editForm)[key := JStr(text)]
      ensures sections == old(sections) && topology == old(topology) && presets == old(presets)
      ensures editingId == old(editingId)
    {
      editForm := editForm[key := JStr(text)];
    }

    /** `cancelEdit`: leaves editing without saving anything. */
    method CancelEdit()
      modifies this
      ensures editingId == Some(JNull) && editForm == map[]
      ensures sections == old(sections) && topology == old(topology) && presets == old(presets)
    {
      editingId := Some(JNull);
      editForm := map[];
    }

    /**
     * `saveEdit`: the edited preset is replaced by the form and the list is
     * stored in `ai_topology.presets`. When the current system prompt is the
     * edited preset's old prompt, the form's prompt becomes the system prompt
     * too. Editing ends; the form itself is left as it is.
     */
    method SaveEdit() returns (saved: Doc)
      requires presets.JArr?
      modifies this, topology
      ensures presets == JArr(ReplacePreset(old(presets).items, old(editingId), old(editForm)))
      ensures var fields := if old(topology) == null then map[] else old(topology.fields);
              var updated := Assign(fields, "presets", Some(presets));
              saved == SavedWith(
                if FoundPrompt(old(presets).items, old(editingId)) == Some(old(CurrentPrompt()))
                then Assign(updated, "system_prompt", Field(old(editForm), "prompt"))
                else updated)
      ensures topology == old(topology) && sections == old(sections)
      ensures topology != null ==> saved == SavedWith(topology.fields)
      ensures editingId == Some(JNull) && editForm == old(editForm)
    {
      var oldPrompt := CurrentPrompt();
      var newPresets := ReplacePreset(presets.items, editingId, editForm);
      var found := FoundPrompt(presets.items, editingId);
      presets := JArr(newPresets);
      var fields := if topology == null then map[] else topology.fields;
      fields := Assign(fields, "presets", Some(presets));
      if found == Some(oldPrompt) {
        fields := Assign(fields, "system_prompt", Field(editForm, "prompt"));
      }
      if topology != null {
        topology.fields := fields;
      }
      saved := SavedWith(fields);
      editingId := Some(JNull);
    }

    /**
     * `resetToDefaults(confirmed)`: after the confirmation the presets go back
     * to the built-in list, in the page and in the saved configuration.
     */
    method ResetToDefaults(confirmed: bool) returns (saved: Option<Doc>)
      modifies this, topology
      ensures topology == old(topology) && sections == old(sections) && editingId == old(editingId)
      ensures !confirmed ==> saved.None? && presets == old(presets)
      ensures !confirmed && topology != null ==> topology.fields == old(topology.fields)
      ensures confirmed ==> presets == JArr(DefaultPresets)
      ensures confirmed && old(topology) != null ==>
                topology.fields == old(topology.fields)["presets" := JArr(DefaultPresets)] &&
                saved == Some(SavedWith(topology.fields))
      ensures confirmed && topology == null ==> saved == Some(SavedWith(map["presets" := JArr(DefaultPresets)]))
    {
      if !confirmed {
        return None;
      }
      presets := JArr(DefaultPresets);
      if topology == null {
        saved := Some(SavedWith(map["presets" := JArr(DefaultPresets)]));
      } else {
        topology.fields := topology.fields["presets" := JArr(DefaultPresets)];
        saved := Some(SavedWith(topology.fields));
      }
    }
  }

  /**
   * After editing a preset without an id, saving compares each preset's
   * missing id with the remembered `undefined`: every preset without an id
   * is replaced by the form, and the prompt looked up is the first such
   * preset's.
   */
  lemma IdlessPresetsAllReplaced(presets: seq<Json>, form: map<string, Json>, i: nat)
    requires i < |presets| && presets[i].JObj? && "id" !in presets[i].fields
    ensures ReplacePreset(presets, None, form)[i] == JObj(form)
    ensures (forall j :: 0 <= j < i ==> Get(presets[j], "id").Some?) ==>
              FoundPrompt(presets, None) == Get(presets[i], "prompt")
  {
    assert Get(presets[i], "id") == None;
  }

  /** The prompt text of a preset whose prompt is a string. */
  function PromptText(preset: Json): string {
    match Get(preset, "prompt")
    case Some(JStr(s)) => s
    case _ => ""
  }

  /** The built-in presets have distinct prompts, so at most one of them is active. */
  lemma DefaultPromptsDistinct()
    ensures forall i, j :: 0 <= i < j < |DefaultPresets| ==>
              Get(DefaultPresets[i], "prompt") != Get(DefaultPresets[j], "prompt")
  {
    assert RoastPrompt[10] == "You are a savage"[10] == 's';
    assert HelpPrompt[10] == "You are a helpful"[10] == 'h';
    assert FunnyPrompt[10] == "You are goofy"[10] == 'o';
    assert CustomPrompt[10] == "You are a dynamic"[10] == 'd';
  }
}
