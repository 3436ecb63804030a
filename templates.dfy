/**
 * The note-type template tab of the settings dialog
 * (src/ui/config/templates.py): the list of templates shown as labelled
 * items, and the add, edit and delete actions that change the
 * configuration's template list in place and then reload the items.
 *
 * The per-template editing dialog is reduced to what it hands back: the
 * edited template, or `None` when it is cancelled.
 */
module Templates {
  import opened Wrappers
  import opened ConfigTypes

  const CHECK_MARK: string := "\U{2713}"
  const CROSS_MARK: string := "\U{2717}"
  const ARROW: string := " \U{2192} "

  /** The text of a list item: status mark, note type, then the field mapping. */
  function Label(t: NoteTypeTemplate): (text: string)
    ensures |text| == |t.noteTypeName| + |t.searchField| + |t.targetField| + 7
    ensures var n, f := |t.noteTypeName|, |t.searchField|;
      && text[..2] == [if t.enabled then '\U{2713}' else '\U{2717}', ' ']
      && text[2..2 + n] == t.noteTypeName
      && text[2 + n..4 + n] == ": "
      && text[4 + n..4 + n + f] == t.searchField
      && text[4 + n + f..7 + n + f] == [' ', '\U{2192}', ' ']
      && text[7 + n + f..] == t.targetField
  {
    (if t.enabled then CHECK_MARK else CROSS_MARK) + " " + t.noteTypeName + ": " + t.searchField + ARROW + t.targetField
  }

  /** A list item: its text and the template stored in it. */
  datatype ListItem = ListItem(text: string, template: NoteTypeTemplate)

  /** The items `load_templates` shows for a template list. */
  function Items(templates: seq<NoteTypeTemplate>): (items: seq<ListItem>)
    ensures |items| == |templates|
    ensures forall i | 0 <= i < |templates| :: items[i] == ListItem(Label(templates[i]), templates[i])
  {
    if templates == [] then [] else [ListItem(Label(templates[0]), templates[0])] + Items(templates[1..])
  }

  /** `list.index(t)`: the first position holding a value equal to `t`. */
  function FirstIndex(s: seq<NoteTypeTemplate>, t: NoteTypeTemplate): (i: nat)
    requires t in s
    ensures i < |s| && s[i] == t && t !in s[..i]
  {
    if s[0] == t then 0 else 1 + FirstIndex(s[1..], t)
  }

  /** `list.remove(t)`: drop the first value equal to `t`. */
  function RemoveFirst(s: seq<NoteTypeTemplate>, t: NoteTypeTemplate): (r: seq<NoteTypeTemplate>)
    requires t in s
    ensures |r| == |s| - 1
  {
    var i := FirstIndex(s, t);
    s[..i] + s[i + 1..]
  }

  /** Removing takes out exactly one occurrence of `t`. */
  lemma RemoveFirstMultiset(s: seq<NoteTypeTemplate>, t: NoteTypeTemplate)
    requires t in s
    ensures multiset(RemoveFirst(s, t)) == multiset(s) - multiset{t}
  {
    var i := FirstIndex(s, t);
    assert s == s[..i] + [s[i]] + s[i + 1..];
  }

  /** Removing keeps everything before the first `t`, and shifts everything after it down by one. */
  lemma RemoveFirstOrder(s: seq<NoteTypeTemplate>, t: NoteTypeTemplate)
    requires t in s
    ensures var i, r := FirstIndex(s, t), RemoveFirst(s, t);
      (forall k | 0 <= k < i :: r[k] == s[k]) && (forall k | i <= k < |r| :: r[k] == s[k + 1])
  {
  }

  /** Replacing the first value equal to `t`: same length, only that position changes. */
  lemma ReplaceFirstContents(s: seq<NoteTypeTemplate>, t: NoteTypeTemplate, e: NoteTypeTemplate)
    requires t in s
    ensures var r := s[FirstIndex(s, t) := e];
      |r| == |s| && r[FirstIndex(s, t)] == e
      && (forall k | 0 <= k < |s| && k != FirstIndex(s, t) :: r[k] == s[k])
      && multiset(r) == multiset(s) - multiset{t} + multiset{e}
  {
    var i := FirstIndex(s, t);
    var r := s[i := e];
    assert s == s[..i] + [t] + s[i + 1..];
    assert r == s[..i] + [e] + s[i + 1..];
  }

  /**
   * The configuration object the running add-on reads (`app_state.config`).
   * The settings dialog hands this very object to the tab, so the tab's
   * list edits change what the add-on uses at once.
   */
  class LiveConfig {
    var config: AppConfig

    constructor (config0: AppConfig)
      ensures config == config0
    {
      config := config0;
    }
  }

  class TemplateSettings {
    /** The shared configuration whose template list the tab edits in place. */
    const live: LiveConfig
    var items: seq<ListItem>
    /** The list's current row, if any. */
    var current: Option<nat>
    /** The "use note-type templates" check box. */
    var useTemplatesChecked: bool
    var listEnabled: bool
    var addEnabled: bool
    var editEnabled: bool
    var deleteEnabled: bool

    /** The items mirror the template list, and the current row is one of them. */
    ghost predicate Valid()
      reads this, live
    {
      && items == Items(live.config.noteTypeTemplates)
      && (current.Some? ==> current.value < |items|)
    }

    /** `__init__`: the check box from the configuration, the items loaded, the controls following the box. */
    constructor (live0: LiveConfig)
      ensures Valid() && live == live0 && current.None?
      ensures useTemplatesChecked == live0.config.useNoteTypeTemplates
      ensures listEnabled == addEnabled == editEnabled == deleteEnabled == live0.config.useNoteTypeTemplates
    {
      live := live0;
      useTemplatesChecked := live0.config.useNoteTypeTemplates;
      items := [];
      current := None;
      new;
      LoadTemplates();
      OnUseTemplatesToggled(live0.config.useNoteTypeTemplates);
    }

    /** `load_templates`: clear the list (and its current row), then add one item per template in order. */
    method LoadTemplates()
      modifies this
      ensures Valid() && current.None?
      ensures useTemplatesChecked == old(useTemplatesChecked)
      ensures listEnabled == old(listEnabled) && addEnabled == old(addEnabled)
      ensures editEnabled == old(editEnabled) && deleteEnabled == old(deleteEnabled)
    {
      items := BuildItems(live.config.noteTypeTemplates);
      current := None;
    }

    /** The user picks a row of the list (`None` clears the selection). */
    method SetCurrentRow(row: Option<nat>)
      requires Valid()
      modifies this
      ensures Valid() && items == old(items)
      ensures current == if row.Some? && row.value < |items| then row else None
    {
      current := if row.Some? && row.value < |items| then row else None;
    }

    /** `on_use_templates_toggled`: the list and the three buttons all take the new state. */
    method OnUseTemplatesToggled(checked: bool)
      modifies this
      ensures listEnabled == addEnabled == editEnabled == deleteEnabled == checked
      ensures items == old(items) && current == old(current)
      ensures useTemplatesChecked == old(useTemplatesChecked)
    {
      listEnabled := checked;
      addEnabled := checked;
      editEnabled := checked;
      deleteEnabled := checked;
    }

    /** Clicking the check box: its `toggled` signal fires only when the state changes. */
    method SetUseTemplates(checked: bool)
      modifies this
      ensures useTemplatesChecked == checked
      ensures checked != old(useTemplatesChecked) ==>
        listEnabled == addEnabled == editEnabled == deleteEnabled == checked
      ensures checked == old(useTemplatesChecked) ==>
        listEnabled == old(listEnabled) && addEnabled == old(addEnabled)
        && editEnabled == old(editEnabled) && deleteEnabled == old(deleteEnabled)
      ensures items == old(items) && current == old(current)
    {
      var changed := checked != useTemplatesChecked;
      useTemplatesChecked := checked;
      if changed {
        OnUseTemplatesToggled(checked);
      }
    }

    /** `on_add_template`: an accepted dialog's template goes at the end; a cancelled one changes nothing. */
    method OnAddTemplate(dialog: Option<NoteTypeTemplate>)
      requires Valid()
      modifies this, live
      ensures Valid()
      ensures dialog.None? ==> live.config == old(live.config) && items == old(items) && current == old(current)
      ensures dialog.Some? ==>
        live.config == old(live.config).(noteTypeTemplates := old(live.config.noteTypeTemplates) + [dialog.value])
        && current.None?
      ensures useTemplatesChecked == old(useTemplatesChecked)
      ensures listEnabled == old(listEnabled) && addEnabled == old(addEnabled)
      ensures editEnabled == old(editEnabled) && deleteEnabled == old(deleteEnabled)
    {
      if dialog.Some? {
        live.config := live.config.(noteTypeTemplates := live.config.noteTypeTemplates + [dialog.value]);
        LoadTemplates();
      }
    }

    /**
     * `on_edit_template`: with a current row and an accepted dialog, the
     * first template equal to the row's template is replaced by the edit.
     */
    method OnEditTemplate(dialog: Option<NoteTypeTemplate>)
      requires Valid()
      modifies this, live
      ensures Valid()
      ensures old(current).None? || dialog.None? ==>
        live.config == old(live.config) && items == old(items) && current == old(current)
      ensures old(current).Some? && dialog.Some? ==>
        var t := old(items)[old(current).value].template;
        t in old(live.config.noteTypeTemplates)
        && live.config == old(live.config).(noteTypeTemplates :=
             old(live.config.noteTypeTemplates)[FirstIndex(old(live.config.noteTypeTemplates), t) := dialog.value])
        && current.None?
      ensures useTemplatesChecked == old(useTemplatesChecked)
      ensures listEnabled == old(listEnabled) && addEnabled == old(addEnabled)
      ensures editEnabled == old(editEnabled) && deleteEnabled == old(deleteEnabled)
    {
      if current.None? {
        return;
      }
      var template := items[current.value].template;
      if dialog.Some? {
        assert template == live.config.noteTypeTemplates[current.value];
        var index := FirstIndex(live.config.noteTypeTemplates, template);
        live.config := live.config.(noteTypeTemplates := live.config.noteTypeTemplates[index := dialog.value]);
        LoadTemplates();
      }
    }

    /** `on_delete_template`: with a current row, the first template equal to the row's template is removed. */
    method OnDeleteTemplate()
      requires Valid()
      modifies this, live
      ensures Valid()
      ensures old(current).None? ==> live.config == old(live.config) && items == old(items) && current == old(current)
      ensures old(current).Some? ==>
        var t := old(items)[old(current).value].template;
        t in old(live.config.noteTypeTemplates)
        && live.config == old(live.config).(noteTypeTemplates := RemoveFirst(old(live.config.noteTypeTemplates), t))
        && current.None?
      ensures useTemplatesChecked == old(useTemplatesChecked)
      ensures listEnabled == old(listEnabled) && addEnabled == old(addEnabled)
      ensures editEnabled == old(editEnabled) && deleteEnabled == old(deleteEnabled)
    {
      if current.None? {
        return;
      }
      var template := items[current.value].template;
      assert template == live.config.noteTypeTemplates[current.value];
      live.config := live.config.(noteTypeTemplates := RemoveFirst(live.config.noteTypeTemplates, template));
      LoadTemplates();
    }

    /** `get_config`: the stored configuration with the check box's state as the template switch. */
    function GetConfig(): (c: AppConfig)
      reads this, live
      ensures c.useNoteTypeTemplates == useTemplatesChecked
      ensures c.(useNoteTypeTemplates := live.config.useNoteTypeTemplates) == live.config
    {
      live.config.(useNoteTypeTemplates := useTemplatesChecked)
    }
  }

  /**
   * The tab opened over the running configuration, as the settings dialog
   * opens it: a template added in the tab is in the running configuration
   * straight away, before the dialog is accepted or cancelled.
   */
  method AddReachesRunningConfig(live: LiveConfig, t: NoteTypeTemplate) returns (tab: TemplateSettings)
    modifies live
    ensures tab.live == live
    ensures live.config == old(live.config).(noteTypeTemplates := old(live.config.noteTypeTemplates) + [t])
  {
    tab := new TemplateSettings(live);
    tab.OnAddTemplate(Some(t));
  }

  /** The loop of `load_templates`: one labelled item per template, in list order. */
  method BuildItems(templates: seq<NoteTypeTemplate>) returns (items: seq<ListItem>)
    ensures items == Items(templates)
  {
    items := [];
    for i := 0 to |templates|
      invariant items == Items(templates[..i])
    {
      var template := templates[i];
      var status := if template.enabled then CHECK_MARK else CROSS_MARK;
      var text := status + " " + template.noteTypeName + ": " + template.searchField + ARROW + template.targetField;
      assert templates[..i + 1] == templates[..i] + [template];
      ItemsAppend(templates[..i], template);
      items := items + [ListItem(text, template)];
    }
    assert templates[..|templates|] == templates;
  }

  lemma ItemsAppend(s: seq<NoteTypeTemplate>, t: NoteTypeTemplate)
    ensures Items(s + [t]) == Items(s) + [ListItem(Label(t), t)]
  {
  }
}
