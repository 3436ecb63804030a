/**
 * The configuration records of src/config/types.py and their dictionary
 * form. A JSON-shaped `Json` value stands for the Python dictionary that
 * `to_dict` builds and `from_dict` reads.
 */
module ConfigTypes {
  import opened Wrappers
  import opened Constants
  import opened Enums
  import opened Languages

  datatype Json =
    | JNull
    | JBool(b: bool)
    | JInt(i: int)
    | JStr(s: string)
    | JList(items: seq<Json>)
    | JObject(fields: map<string, Json>)

  /**
   * Why `from_dict` yields no record: `Raised` where Python raises (an
   * unknown enum value, a template entry that is not a dictionary, a
   * template collection that cannot be iterated); `IllTyped` where Python
   * would store a value of the wrong type, which a typed record cannot hold.
   */
  datatype ConfigError = Raised(key: string) | IllTyped(key: string)

  // ---------------------------------------------------------------------
  // `data.get(key, default)` for each field type.

  function GetBool(d: map<string, Json>, key: string, default: bool): (r: Result<bool, ConfigError>)
    ensures key !in d ==> r == Success(default)
    ensures key in d ==> (r.Success? <==> d[key].JBool?)
    ensures key in d && d[key].JBool? ==> r.value == d[key].b
  {
    if key !in d then Success(default)
    else match d[key]
      case JBool(b) => Success(b)
      case _ => Failure(IllTyped(key))
  }

  function GetInt(d: map<string, Json>, key: string, default: int): (r: Result<int, ConfigError>)
    ensures key !in d ==> r == Success(default)
    ensures key in d ==> (r.Success? <==> d[key].JInt?)
    ensures key in d && d[key].JInt? ==> r.value == d[key].i
  {
    if key !in d then Success(default)
    else match d[key]
      case JInt(i) => Success(i)
      case _ => Failure(IllTyped(key))
  }

  function GetStr(d: map<string, Json>, key: string, default: string): (r: Result<string, ConfigError>)
    ensures key !in d ==> r == Success(default)
    ensures key in d ==> (r.Success? <==> d[key].JStr?)
    ensures key in d && d[key].JStr? ==> r.value == d[key].s
  {
    if key !in d then Success(default)
    else match d[key]
      case JStr(s) => Success(s)
      case _ => Failure(IllTyped(key))
  }

  // ---------------------------------------------------------------------
  // NoteTypeTemplate

  datatype NoteTypeTemplate = NoteTypeTemplate(
    noteTypeName: string,
    searchField: string,
    targetField: string,
    enabled: bool)
  {
    /** `to_dict`: the four fields under their Python names. */
    function ToDict(): (d: map<string, Json>)
      ensures d.Keys == {"note_type_name", "search_field", "target_field", "enabled"}
      ensures TemplateFromDict(d) == Success(this)
    {
      map["note_type_name" := JStr(noteTypeName),
          "search_field" := JStr(searchField),
          "target_field" := JStr(targetField),
          "enabled" := JBool(enabled)]
    }
  }

  /**
   * `NoteTypeTemplate.from_dict`: each missing key takes its default
   * ("", "Word", "Picture", true).
   */
  function TemplateFromDict(d: map<string, Json>): (r: Result<NoteTypeTemplate, ConfigError>)
    ensures r.Success? <==>
      && ("note_type_name" in d ==> d["note_type_name"].JStr?)
      && ("search_field" in d ==> d["search_field"].JStr?)
      && ("target_field" in d ==> d["target_field"].JStr?)
      && ("enabled" in d ==> d["enabled"].JBool?)
    ensures r.Success? ==>
      && r.value.noteTypeName == (if "note_type_name" in d then d["note_type_name"].s else "")
      && r.value.searchField == (if "search_field" in d then d["search_field"].s else DEFAULT_SEARCH_FIELD)
      && r.value.targetField == (if "target_field" in d then d["target_field"].s else DEFAULT_TARGET_FIELD)
      && r.value.enabled == (if "enabled" in d then d["enabled"].b else true)
    ensures r.Failure? ==> r.error.IllTyped?
  {
    var name :- GetStr(d, "note_type_name", "");
    var search :- GetStr(d, "search_field", DEFAULT_SEARCH_FIELD);
    var target :- GetStr(d, "target_field", DEFAULT_TARGET_FIELD);
    var enabled :- GetBool(d, "enabled", true);
    Success(NoteTypeTemplate(name, search, target, enabled))
  }

  /** `[t.to_dict() for t in templates]` */
  function TemplatesToJson(ts: seq<NoteTypeTemplate>): (items: seq<Json>)
    ensures |items| == |ts|
    ensures forall k | 0 <= k < |ts| :: items[k] == JObject(ts[k].ToDict())
  {
    if ts == [] then [] else [JObject(ts[0].ToDict())] + TemplatesToJson(ts[1..])
  }

  /** An entry of the template list that `from_dict` reads without raising. */
  predicate ReadableTemplate(item: Json) {
    item.JObject? && TemplateFromDict(item.fields).Success?
  }

  /** `[NoteTypeTemplate.from_dict(t) for t in items]`: fails at the first entry that fails. */
  function TemplatesFromItems(items: seq<Json>): (r: Result<seq<NoteTypeTemplate>, ConfigError>)
    ensures r.Success? <==> forall k | 0 <= k < |items| :: ReadableTemplate(items[k])
    ensures r.Success? ==>
      && |r.value| == |items|
      && forall k | 0 <= k < |items| :: r.value[k] == TemplateFromDict(items[k].fields).value
    ensures r.Failure? ==> r.error == Raised("note_type_templates") || r.error.IllTyped?
  {
    if items == [] then Success([])
    else
      var t :- if items[0].JObject? then TemplateFromDict(items[0].fields)
               else Failure(Raised("note_type_templates"));
      var rest :- TemplatesFromItems(items[1..]);
      Success([t] + rest)
  }

  /**
   * The comprehension over `data.get("note_type_templates", [])`: a list is
   * read entry by entry; an empty dictionary or an empty string iterates as
   * no entries; anything else makes Python raise.
   */
  function TemplatesFromJson(v: Json): (r: Result<seq<NoteTypeTemplate>, ConfigError>)
    ensures r.Success? <==>
      || (v.JList? && forall k | 0 <= k < |v.items| :: ReadableTemplate(v.items[k]))
      || v == JObject(map[]) || v == JStr("")
    ensures r.Success? && v.JList? ==>
      && |r.value| == |v.items|
      && forall k | 0 <= k < |v.items| :: r.value[k] == TemplateFromDict(v.items[k].fields).value
    ensures r.Success? && !v.JList? ==> r.value == []
    ensures r.Failure? ==> r.error == Raised("note_type_templates") || r.error.IllTyped?
  {
    match v
    case JList(items) => TemplatesFromItems(items)
    case JObject(m) => if |m| == 0 then Success([]) else Failure(Raised("note_type_templates"))
    case JStr(s) => if s == "" then Success([]) else Failure(Raised("note_type_templates"))
    case _ => Failure(Raised("note_type_templates"))
  }

  /** The template list survives its dictionary form element by element, in order. */
  lemma {:induction false} TemplatesRoundTrip(ts: seq<NoteTypeTemplate>)
    ensures TemplatesFromJson(JList(TemplatesToJson(ts))) == Success(ts)
  {
    if ts != [] {
      TemplatesRoundTrip(ts[1..]);
      assert TemplatesToJson(ts)[1..] == TemplatesToJson(ts[1..]);
      assert [ts[0]] + ts[1..] == ts;
    }
  }

  // ---------------------------------------------------------------------
  // AppConfig

  datatype AppConfig = AppConfig(
    enabled: bool,
    language: LanguageCode,
    searchField: string,
    targetField: string,
    noteTypeTemplates: seq<NoteTypeTemplate>,
    useNoteTypeTemplates: bool,
    maxResults: int,
    autoDownload: bool,
    imageQuality: ImageQuality,
    convertFormat: bool,
    outputFormat: ImageFormat,
    ffmpegQuality: int)

  /** `AppConfig()`: the dataclass defaults. */
  const DefaultConfig: AppConfig := AppConfig(
    true, Auto, DEFAULT_SEARCH_FIELD, DEFAULT_TARGET_FIELD, [], true,
    DEFAULT_MAX_RESULTS, true, Medium, DEFAULT_CONVERT_FORMAT, Original, DEFAULT_FFMPEG_QUALITY)

  /** The twelve keys `AppConfig.to_dict` emits. */
  const ConfigKeys: set<string> := {
    "enabled", "language", "search_field", "target_field", "note_type_templates",
    "use_note_type_templates", "max_results", "auto_download", "image_quality",
    "convert_format", "output_format", "ffmpeg_quality"}

  /** `AppConfig.to_dict`: exactly the twelve keys, enumerations as their `.value`. */
  function ConfigToDict(c: AppConfig): (d: map<string, Json>)
    ensures d.Keys == ConfigKeys
  {
    map k | k in ConfigKeys :: ConfigEntry(c, k)
  }

  /** The value `to_dict` stores under `key`. */
  function ConfigEntry(c: AppConfig, key: string): Json {
    if key == "enabled" then JBool(c.enabled)
    else if key == "language" then JStr(c.language.Value())
    else if key == "search_field" then JStr(c.searchField)
    else if key == "target_field" then JStr(c.targetField)
    else if key == "note_type_templates" then JList(TemplatesToJson(c.noteTypeTemplates))
    else if key == "use_note_type_templates" then JBool(c.useNoteTypeTemplates)
    else if key == "max_results" then JInt(c.maxResults)
    else if key == "auto_download" then JBool(c.autoDownload)
    else if key == "image_quality" then JStr(c.imageQuality.Value())
    else if key == "convert_format" then JBool(c.convertFormat)
    else if key == "output_format" then JStr(c.outputFormat.Value())
    else JInt(c.ffmpegQuality)
  }

  /** The general entries of `to_dict`. */
  lemma ConfigDictGeneralEntries(c: AppConfig)
    ensures var d := ConfigToDict(c);
      && d["enabled"] == JBool(c.enabled)
      && d["language"] == JStr(c.language.Value())
      && d["search_field"] == JStr(c.searchField)
  {
  }

  /** The target-field and template entries of `to_dict`. */
  lemma ConfigDictTemplateEntries(c: AppConfig)
    ensures var d := ConfigToDict(c);
      && d["target_field"] == JStr(c.targetField)
      && d["note_type_templates"] == JList(TemplatesToJson(c.noteTypeTemplates))
      && d["use_note_type_templates"] == JBool(c.useNoteTypeTemplates)
  {
  }

  /** The search and conversion entries of `to_dict`, enumerations as their `.value`. */
  lemma ConfigDictSettingsEntries(c: AppConfig)
    ensures var d := ConfigToDict(c);
      && d["max_results"] == JInt(c.maxResults) && d["auto_download"] == JBool(c.autoDownload)
      && d["image_quality"] == JStr(c.imageQuality.Value())
      && d["convert_format"] == JBool(c.convertFormat)
      && d["output_format"] == JStr(c.outputFormat.Value())
      && d["ffmpeg_quality"] == JInt(c.ffmpegQuality)
  {
  }

  /** `LanguageCode.from_string(data.get("language", "auto"))`: never fails. */
  function LanguageFromJson(d: map<string, Json>): (r: LanguageCode)
    ensures "language" !in d ==> r == Auto
    ensures "language" in d && !d["language"].JStr? ==> r == Auto
    ensures "language" in d && d["language"].JStr? ==> r == FromString(d["language"].s)
  {
    if "language" !in d then FromString("auto")
    else match d["language"]
      case JStr(s) => FromString(s)
      case _ => Auto
  }

  /** `ImageQuality(data.get("image_quality", "medium"))` */
  function ImageQualityFromJson(d: map<string, Json>): (r: Result<ImageQuality, ConfigError>)
    ensures r.Failure? ==> r.error == Raised("image_quality")
    ensures "image_quality" !in d ==> r == Success(Medium)
    ensures "image_quality" in d ==>
      (r.Success? <==> d["image_quality"].JStr? && ParseImageQuality(d["image_quality"].s).Some?)
    ensures "image_quality" in d && r.Success? ==> r.value.Value() == d["image_quality"].s
  {
    var v := if "image_quality" in d then d["image_quality"] else JStr(DEFAULT_IMAGE_QUALITY);
    match v
    case JStr(s) =>
      (match ParseImageQuality(s)
       case Some(q) => Success(q)
       case None => Failure(Raised("image_quality")))
    case _ => Failure(Raised("image_quality"))
  }

  /** `ImageFormat(data.get("output_format", "original"))` */
  function ImageFormatFromJson(d: map<string, Json>): (r: Result<ImageFormat, ConfigError>)
    ensures r.Failure? ==> r.error == Raised("output_format")
    ensures "output_format" !in d ==> r == Success(Original)
    ensures "output_format" in d ==>
      (r.Success? <==> d["output_format"].JStr? && ParseImageFormat(d["output_format"].s).Some?)
    ensures "output_format" in d && r.Success? ==> r.value.Value() == d["output_format"].s
  {
    var v := if "output_format" in d then d["output_format"] else JStr(DEFAULT_IMAGE_FORMAT);
    match v
    case JStr(s) =>
      (match ParseImageFormat(s)
       case Some(f) => Success(f)
       case None => Failure(Raised("output_format")))
    case _ => Failure(Raised("output_format"))
  }

  /** The keys `from_dict` reads with `data.get` and a boolean, string or integer default. */
  const BoolKeys: set<string> := {"enabled", "use_note_type_templates", "auto_download", "convert_format"}
  const StrKeys: set<string> := {"search_field", "target_field"}
  const IntKeys: set<string> := {"max_results", "ffmpeg_quality"}

  /** Every such key that is present holds a value of its field's kind. */
  predicate ScalarsWellTyped(d: map<string, Json>) {
    && (forall k | k in BoolKeys && k in d :: d[k].JBool?)
    && (forall k | k in StrKeys && k in d :: d[k].JStr?)
    && (forall k | k in IntKeys && k in d :: d[k].JInt?)
  }

  /** The stored boolean, or the default when the key is missing. */
  function BoolAt(d: map<string, Json>, key: string, default: bool): bool {
    if key in d && d[key].JBool? then d[key].b else default
  }

  function StrAt(d: map<string, Json>, key: string, default: string): string {
    if key in d && d[key].JStr? then d[key].s else default
  }

  function IntAt(d: map<string, Json>, key: string, default: int): int {
    if key in d && d[key].JInt? then d[key].i else default
  }

  /** The template list `from_dict` reads: the stored value, an empty list when missing. */
  function TemplatesEntry(d: map<string, Json>): Json {
    if "note_type_templates" in d then d["note_type_templates"] else JList([])
  }

  /**
   * `AppConfig.from_dict`, reading the fields in the order the source reads
   * them: a record exactly when every present value has its field's kind and
   * the templates and both enumerations can be read, each field then being
   * the stored value or its dataclass default.
   */
  function ConfigFromDict(d: map<string, Json>): (r: Result<AppConfig, ConfigError>)
    ensures r.Success? <==>
      && ScalarsWellTyped(d) && TemplatesFromJson(TemplatesEntry(d)).Success?
      && ImageQualityFromJson(d).Success? && ImageFormatFromJson(d).Success?
    ensures r.Success? ==>
      && r.value.enabled == BoolAt(d, "enabled", true)
      && r.value.language == LanguageFromJson(d)
      && r.value.searchField == StrAt(d, "search_field", DEFAULT_SEARCH_FIELD)
      && r.value.targetField == StrAt(d, "target_field", DEFAULT_TARGET_FIELD)
      && r.value.noteTypeTemplates == TemplatesFromJson(TemplatesEntry(d)).value
      && r.value.useNoteTypeTemplates == BoolAt(d, "use_note_type_templates", true)
      && r.value.maxResults == IntAt(d, "max_results", DEFAULT_MAX_RESULTS)
      && r.value.autoDownload == BoolAt(d, "auto_download", true)
      && r.value.imageQuality == ImageQualityFromJson(d).value
      && r.value.convertFormat == BoolAt(d, "convert_format", DEFAULT_CONVERT_FORMAT)
      && r.value.outputFormat == ImageFormatFromJson(d).value
      && r.value.ffmpegQuality == IntAt(d, "ffmpeg_quality", DEFAULT_FFMPEG_QUALITY)
  {
    var templates :- TemplatesFromJson(TemplatesEntry(d));
    var enabled :- GetBool(d, "enabled", true);
    var language := LanguageFromJson(d);
    var searchField :- GetStr(d, "search_field", DEFAULT_SEARCH_FIELD);
    var targetField :- GetStr(d, "target_field", DEFAULT_TARGET_FIELD);
    var useTemplates :- GetBool(d, "use_note_type_templates", true);
    var maxResults :- GetInt(d, "max_results", DEFAULT_MAX_RESULTS);
    var autoDownload :- GetBool(d, "auto_download", true);
    var imageQuality :- ImageQualityFromJson(d);
    var convertFormat :- GetBool(d, "convert_format", DEFAULT_CONVERT_FORMAT);
    var outputFormat :- ImageFormatFromJson(d);
    var ffmpegQuality :- GetInt(d, "ffmpeg_quality", DEFAULT_FFMPEG_QUALITY);
    Success(AppConfig(enabled, language, searchField, targetField, templates, useTemplates,
                      maxResults, autoDownload, imageQuality, convertFormat, outputFormat,
                      ffmpegQuality))
  }

  /** What `from_dict` reads back from the general entries of `to_dict`. */
  lemma ConfigDictReadsGeneral(c: AppConfig, d: map<string, Json>)
    requires d == ConfigToDict(c)
    ensures TemplatesFromJson(d["note_type_templates"]) == Success(c.noteTypeTemplates)
    ensures GetBool(d, "enabled", true) == Success(c.enabled)
    ensures LanguageFromJson(d) == c.language
    ensures GetStr(d, "search_field", DEFAULT_SEARCH_FIELD) == Success(c.searchField)
    ensures GetStr(d, "target_field", DEFAULT_TARGET_FIELD) == Success(c.targetField)
    ensures GetBool(d, "use_note_type_templates", true) == Success(c.useNoteTypeTemplates)
  {
    ConfigDictGeneralEntries(c);
    ConfigDictTemplateEntries(c);
    TemplatesRoundTrip(c.noteTypeTemplates);
    assert FromString(c.language.ToString()) == c.language;
  }

  /** What `from_dict` reads back from the search and conversion entries of `to_dict`. */
  lemma ConfigDictReadsSettings(c: AppConfig, d: map<string, Json>)
    requires d == ConfigToDict(c)
    ensures GetInt(d, "max_results", DEFAULT_MAX_RESULTS) == Success(c.maxResults)
    ensures GetBool(d, "auto_download", true) == Success(c.autoDownload)
    ensures ImageQualityFromJson(d) == Success(c.imageQuality)
    ensures GetBool(d, "convert_format", DEFAULT_CONVERT_FORMAT) == Success(c.convertFormat)
    ensures ImageFormatFromJson(d) == Success(c.outputFormat)
    ensures GetInt(d, "ffmpeg_quality", DEFAULT_FFMPEG_QUALITY) == Success(c.ffmpegQuality)
  {
    ConfigDictSettingsEntries(c);
    EnumValuesRoundTrip(c.imageQuality, c.outputFormat);
  }

  /** Every configuration survives `from_dict(to_dict(c))`, templates included. */
  lemma ConfigRoundTrip(c: AppConfig)
    ensures ConfigFromDict(ConfigToDict(c)) == Success(c)
  {
    var d := ConfigToDict(c);
    ConfigDictReadsGeneral(c, d);
    ConfigDictReadsSettings(c, d);
  }

  /** An empty dictionary reads as the dataclass defaults. */
  lemma EmptyDictIsDefault()
    ensures ConfigFromDict(map[]) == Success(DefaultConfig)
  {
  }

  /** An unknown `language` falls back to `Auto`; unknown enum values raise. */
  lemma UnknownValues(d: map<string, Json>, s: string)
    requires s !in {"auto", "en_US", "zh_CN", "low", "medium", "high", "original", "webp", "png", "jpg", "jpeg"}
    ensures LanguageFromJson(d["language" := JStr(s)]) == Auto
    ensures ImageQualityFromJson(d["image_quality" := JStr(s)]) == Failure(Raised("image_quality"))
    ensures ImageFormatFromJson(d["output_format" := JStr(s)]) == Failure(Raised("output_format"))
  {
  }

  // ---------------------------------------------------------------------
  // get_fields_for_note_type

  predicate Matches(t: NoteTypeTemplate, noteTypeName: string) {
    t.enabled && t.noteTypeName == noteTypeName
  }

  /** The position of the first enabled template for `noteTypeName`, if any. */
  function FirstMatch(ts: seq<NoteTypeTemplate>, noteTypeName: string): (r: Option<nat>)
    ensures r.None? <==> forall j | 0 <= j < |ts| :: !Matches(ts[j], noteTypeName)
    ensures r.Some? ==> r.value < |ts| && Matches(ts[r.value], noteTypeName)
    ensures r.Some? ==> forall j | 0 <= j < r.value :: !Matches(ts[j], noteTypeName)
  {
    if ts == [] then None
    else if Matches(ts[0], noteTypeName) then Some(0)
    else match FirstMatch(ts[1..], noteTypeName)
      case None => None
      case Some(k) => Some(k + 1)
  }

  /**
   * `get_fields_for_note_type`: with templates in use, the fields of the
   * first enabled template whose name matches exactly; otherwise, and when
   * none matches, the configuration's own fields.
   */
  function GetFieldsForNoteType(c: AppConfig, noteTypeName: string): (r: (string, string))
    ensures (c.useNoteTypeTemplates && exists i | 0 <= i < |c.noteTypeTemplates| :: Matches(c.noteTypeTemplates[i], noteTypeName))
            ==> exists i | 0 <= i < |c.noteTypeTemplates| ::
                  && Matches(c.noteTypeTemplates[i], noteTypeName)
                  && (forall j | 0 <= j < i :: !Matches(c.noteTypeTemplates[j], noteTypeName))
                  && r == (c.noteTypeTemplates[i].searchField, c.noteTypeTemplates[i].targetField)
    ensures !(c.useNoteTypeTemplates && exists i | 0 <= i < |c.noteTypeTemplates| :: Matches(c.noteTypeTemplates[i], noteTypeName))
            ==> r == (c.searchField, c.targetField)
  {
    var m := if c.useNoteTypeTemplates then FirstMatch(c.noteTypeTemplates, noteTypeName) else None;
    match m
    case Some(i) => (c.noteTypeTemplates[i].searchField, c.noteTypeTemplates[i].targetField)
    case None => (c.searchField, c.targetField)
  }
}
