# Anki image search: a verified model of the image pipeline

This project models the decision logic of the Anki add-on that searches
Google Images for a note's word and inserts the chosen picture into a note
field. It covers:

- **Result extraction** (`GoogleImageSearch.search`). The results page is the
  sequence of its `img.DS1iW` elements. The model turns them into
  `{url, thumbnail, title, source}` descriptors. As written, `search` answers
  `[]` on every call (see "## Findings"). The model keeps that behaviour
  beside the corrected search, and the picker uses the corrected one.
- **Download validation** (`download_image`). A guard chain over the HTTP
  response against the 5 MiB limit.
- **Saving** (`save_image_to_media`). The conversion fallback, the
  extension rule and the `image_search_<md5[:12]><ext>` file name.
- **Field insertion** (`insert_image_to_field`). Appends to a note field or
  replaces a blank one.
- **The ffmpeg converter** (`FFmpegConverter`). The cached availability
  probe, format normalisation, quality-to-encoder mappings, the command line,
  the either/or result, temporary-directory cleanup, the shared instance and
  `check_ffmpeg`.
- **The configuration records**. `to_dict`/`from_dict` with defaults, enum
  parsing, the language fallback and the first-match template lookup.
- **The host-version gate** (`parse_version`, `check_anki_version`).
- **The image picker dialog**. Title truncation, preview URL, grid
  placement, single selection, the download → save → insert sequence and
  `show_image_picker`.
- **The template settings tab**. Item labels, add/edit/delete on the
  template list by value equality, the enable toggle and `get_config`. The tab
  holds the running configuration itself (`LiveConfig`), so its edits reach
  that configuration at once, as the in-place list updates of the source do.

Files:

| file | what it holds |
|---|---|
| `wrappers.dfy` | `Option` and `Result` |
| `text.dfy` | Python string operations used by the code: `startswith`, `in`, `split`, `strip`, ASCII `lower`, `int()` and `str()` on decimal text |
| `bytes.dfy` | `byte` |
| `constants.dfy` | the constants of `src/config/constants.py` |
| `enums.dfy`, `languages.dfy` | the enumerations |
| `config_types.dfy` | `NoteTypeTemplate`, `AppConfig` |
| `version.dfy` | the version gate |
| `url.dfy` | the parts of `urllib.parse` the code relies on: `urlparse`, `parse_qs`, `unquote_plus`, `quote_plus`, and `Path(...).suffix` as it behaves on a POSIX system |
| `ffmpeg.dfy` | the converter |
| `image_search.dfy` | search, download, save, insert |
| `image_picker.dfy` | the picker dialog |
| `templates.dfy` | the template tab |

Everything outside the process arrives as a parameter:

- the HTTP response;
- the parsed page;
- the PATH lookup;
- the temporary directory and subprocess outcomes;
- `hashlib.md5`;
- `imghdr.what`;
- whether the collection exists;
- whether the media write succeeds.

Objects whose fields the source updates in place are classes:

- `FFmpegConverter`, `TempSpace` and the `_converter` slot;
- `MediaStore`;
- `Note` and `Editor`;
- `Thumbnail` and `PickerDialog`;
- `TemplateSettings` and the running configuration it edits (`LiveConfig`).

Loops in the source are `while`/`for` loops proved against a specification
function:

- the extraction loop;
- the command builder;
- the grid loop;
- the `load_templates` loop.

## Model

| member | source | states |
|---|---|---|
| ImageSearch.Describe | src/image_search.py:72-109 | An element yields nothing exactly when its `src` is missing, empty, `data:` or `/images/branding`. Otherwise it yields a well-formed descriptor whose thumbnail is `src`, whose source is the link's source URL, whose url is that source when it starts with "http" and `src` otherwise, and whose title is `alt` or "Image". |
| ImageSearch.SourceUrl | src/image_search.py:84-97 | No link gives "". An `href` containing `imgurl=` gives the first decoded `imgurl` query value, or "" when the parsed query has none. Any other `href` is kept raw. |
| ImageSearch.HttpIsNotRejected | src/image_search.py:100 | A URL starting with "http" never starts with "data:" or "/images/branding", so the chosen url of a descriptor is never a rejected one. |
| ImageSearch.Extract | src/image_search.py:69-109 | Every descriptor the extraction produces is well-formed: non-empty url, thumbnail and title, and neither url nor thumbnail inline data. |
| ImageSearch.ExtractAppend | src/image_search.py:69-109 | Extraction distributes over concatenation: descriptors keep document order. |
| ImageSearch.ExtractStep | src/image_search.py:69-109 | Appending one element appends its descriptor if it has one. |
| ImageSearch.ExtractFacts | src/image_search.py:69-109 | One descriptor per accepted element (never more than the elements examined); every descriptor is well-formed and comes from some input element. |
| ImageSearch.SliceEnd | src/image_search.py:69 | The length of Python's `xs[:n]` for a list of length `len`: `min(n, len)` for `n >= 0`; for negative `n` the slice drops the last `min(-n, len)` elements. |
| ImageSearch.ExtractPrefixStep | src/image_search.py:69-114 | Extending the examined prefix by one element appends that element's descriptor, if it has one. |
| ImageSearch.SearchResults | src/image_search.py:43-118 | The corrected search (no import inside the loop). It gives no results without the libraries, on a failed request, or on an error status (`raise_for_status`, line 57). Every result is well-formed. |
| ImageSearch.SearchResultsBound | src/image_search.py:43-118 | The corrected search gives at most `max_results` results, all well-formed. Their number is the number of accepted elements among the first `max_results`, so rejected elements still use up slots. As written, the number is always 0 (see `SearchAsWritten`). |
| ImageSearch.RunSearch | src/image_search.py:36-118 | The search for a body that binds a given set of local names. If `urllib` is among them, it is still unbound when line 53 builds the URL, and the handler at line 116 answers `[]`. Otherwise the result is exactly `SearchResults` of the fetched page. |
| ImageSearch.SearchAsWritten | src/image_search.py:36-118 | `search` as written, with `import urllib.parse` at line 92, answers `[]` for every query and page. |
| ImageSearch.Search | src/image_search.py:36-118 | The corrected search (the line-92 import dropped) computes exactly `SearchResults` of the fetched page. |
| ImageSearch.SampleSearchFindsImage | src/image_search.py:63-114 | On a page with one element whose source is an https URL, the corrected search finds one descriptor. Its url and thumbnail are that source, its title is "Image" and it has no source page. |
| ImageSearch.SearchDiscrepancy | src/image_search.py:53-118 | On that page, the search as written returns `[]` and the corrected one returns the image. |
| ImageSearch.ExtractAll | src/image_search.py:63-114 | The extraction loop builds exactly the extraction of the examined elements, in order. |
| ImageSearch.DescribeStep | src/image_search.py:72-109 | One loop pass computes `Describe` of the element. |
| ImageSearch.LinkSource | src/image_search.py:84-97 | The statement-by-statement source lookup equals `SourceUrl`. |
| ImageSearch.SearchUrlParts | src/image_search.py:48-53 | `urlparse` of the request URL gives scheme https, host www.google.com, path /search, and the form-encoded query string as query. |
| ImageSearch.SearchQueryRoundTrip | src/image_search.py:48-53 | For a query of ASCII characters, parsing the query string of the request gives back the query under `q` and "2" under `udm`. An empty query is dropped, as `parse_qs` drops blank values. |
| ImageSearch.SearchUrlCarriesQuery | src/image_search.py:48-53 | For a non-empty ASCII query, the first `q` value of the request URL is the query and the first `udm` value is "2". |
| ImageSearch.DownloadImage | src/image_search.py:120-163 | Bytes are returned exactly when all of these hold: the libraries are present; the request succeeds with a non-error status; the content type starts with "image/"; any non-empty declared length is a number within `MAX_IMAGE_SIZE`; the body is read and is within `MAX_IMAGE_SIZE`. The bytes returned are the body, never longer than the limit. |
| ImageSearch.UrlSuffix | src/image_search.py:235-237 | The lower-cased suffix of the URL's path is empty, or a dot followed by at least one character, none of them a dot or a slash. |
| ImageSearch.ChooseExtension | src/image_search.py:223-252 | With conversion configured, the extension is the converter's extension for the output format. Otherwise it is the lower-cased URL path suffix when that is a supported suffix, else the sniffed type with a dot, else ".jpg". |
| ImageSearch.SniffedExtension | src/image_search.py:244-252 | The detected type with a leading dot, or ".jpg" when nothing is detected. |
| ImageSearch.ExtensionIgnoresConversionOutcome | src/image_search.py:199-231 | With conversion configured, the extension does not depend on the bytes, so it is the same whether conversion worked, failed or never ran, and it is one of .jpg/.png/.webp. |
| ImageSearch.ExtensionHasDot | src/image_search.py:223-252 | Every chosen extension is non-empty and starts with a dot. |
| ImageSearch.MediaFileName | src/image_search.py:220-254 | The name is "image_search_" followed by the first 12 hash characters, then the extension. |
| ImageSearch.MediaFileNameInjective | src/image_search.py:220-254 | Two names are equal exactly when their 12-character hash prefixes and extensions are equal. |
| ImageSearch.SavedBytes | src/image_search.py:198-216 | When a conversion ran and returned non-empty data, that data is saved. In every other case (no conversion, an error, empty data) the original bytes are saved. |
| ImageSearch.ConvertedBytes | src/image_search.py:197-216 | Without conversion configured or without the encoder, the original bytes. Otherwise the bytes saved for the outcome of the conversion the converter runs. |
| ImageSearch.ConversionFallback | src/image_search.py:197-216 | The fallback: conversion not asked for, encoder missing, an error message or empty output all give the original bytes; non-empty output is saved exactly. |
| ImageSearch.ConvertIfConfigured | src/image_search.py:197-216 | Without conversion configured the original bytes come back. With it, the bytes are `ConvertedBytes` for where the shared converter found the encoder. A converter created or probed here has looked the encoder up on PATH; a probed one keeps its answer. The temporary directories are back as they were. |
| ImageSearch.SaveImageToMedia | src/image_search.py:166-268 | No collection or a failed write gives `None` and leaves the media folder as it was. Otherwise the file `image_search_<md5[:12]><ext>` is written with the bytes `ConvertedBytes` gives (the original ones whenever conversion is off or fails) and its name is returned. With conversion configured, ext is the format's extension; without, the URL/sniff extension. |
| ImageSearch.MediaStore.WriteData | src/image_search.py:259 | A successful write stores the bytes under the name; a failed one changes nothing. |
| ImageSearch.InsertedContent | src/image_search.py:298-306 | A blank (whitespace-only) field becomes the image tag alone. Otherwise the old content is kept as a prefix, followed by "<br>" and the tag. |
| ImageSearch.InsertedContentEndsWithImage | src/image_search.py:298-306 | The image tag always ends the new content. |
| ImageSearch.InsertImageToField | src/image_search.py:271-319 | Without a note, or without the field, the result is false and nothing changes. Otherwise only that field takes the new content and the result is true. |
| Ffmpeg.TruncDiv | src/ffmpeg_utils.py:103-107 | `int(n / d)` rounds toward zero: for `n >= 0` the result `r` is non-negative with `r*d <= n < r*d + d`; for negative `n` it is non-positive with `r*d - d < n <= r*d`. |
| Ffmpeg.NegatedQuotient | src/ffmpeg_utils.py:103-107 | Negating the floor quotient of `-n` brackets a negative `n` from above, the step behind the negative case of `TruncDiv`. |
| Ffmpeg.JpegScale | src/ffmpeg_utils.py:101-103 | The JPEG scale value is always in 1..31 and is the truncated `(100 - q) / 3` clamped to that range. |
| Ffmpeg.JpegScaleMonotone | src/ffmpeg_utils.py:103 | Higher quality never gives a larger scale value. |
| Ffmpeg.JpegScaleEnds | src/ffmpeg_utils.py:103 | Quality 0 gives 31 and quality 100 gives 1. |
| Ffmpeg.PngCompression | src/ffmpeg_utils.py:104-108 | The compression level is never above 9 and never negative for non-negative quality. It is `q / 11` below 99 and 9 from 99 up. For negative quality it is `q / 11` rounded toward zero, as Python's `int()` truncates. |
| Ffmpeg.PngCompressionNegative | src/ffmpeg_utils.py:104-108 | Quality -5 gives level 0 and -12 gives -1 (truncation, not flooring). |
| Ffmpeg.EncoderOptions | src/ffmpeg_utils.py:94-108 | Options exist exactly for webp, png, jpg and jpeg. There are four exactly for lossless webp (quality 100 and up). The second option is a decimal that reads back as the quality (webp), the PNG level (png) or the JPEG scale (jpg/jpeg). |
| Ffmpeg.Command | src/ffmpeg_utils.py:84-111 | The encoder path comes first, then `-i` and an input file inside the temporary directory, then `-y`; the last argument is the `output.` file in that directory. |
| Ffmpeg.CommandShape | src/ffmpeg_utils.py:84-111 | The command is the encoder path, `-i`, the input file and `-y`, then the format options, then the output file. For webp: `-quality q`, followed by `-lossless 1` (nine arguments in all) when lossless and by nothing (seven) otherwise. For jpg/jpeg: `-q:v` with the JPEG scale. For png: `-compression_level` with the PNG level. |
| Ffmpeg.BuildCommand | src/ffmpeg_utils.py:87-111 | The step-by-step list building gives exactly the command. |
| Ffmpeg.NormalizeFormat | src/ffmpeg_utils.py:68 | `lower().strip()` never lengthens the name and leaves no blank character at either end. |
| Ffmpeg.GetFormatExtension | src/ffmpeg_utils.py:148-166 | The result is always .jpg, .png or .webp. It is .png exactly for "png" and .webp exactly for "webp", after lower-casing and stripping. |
| Ffmpeg.NormalizeFormatIdempotent | src/ffmpeg_utils.py:158 | Normalising a normalised format name changes nothing. |
| Ffmpeg.FormatExtensionIgnoresCase | src/ffmpeg_utils.py:158-166 | Case and surrounding whitespace never change the extension. |
| Ffmpeg.RunResult | src/ffmpeg_utils.py:114-137 | Exactly one of data and message is present, and every message is non-empty. Data comes only from a zero exit with a readable output file. A timeout, a non-zero exit (stderr, or the default message when stderr is empty) and a missing output file each give their own message. |
| Ffmpeg.ConversionResult | src/ffmpeg_utils.py:67-146 | The outcome of a conversion once the encoder is found. Exactly one of data and error is present, and an error is non-empty. An unsupported normalised format gives the unsupported-format message. A temporary-directory failure gives the error message. Otherwise it is the encoder run's result on the command for that directory. Data comes exactly from a supported format, a ready directory and a successful run. |
| Ffmpeg.ConvertWith | src/ffmpeg_utils.py:67-146 | The format check, temporary directory and encoder run compute exactly `ConversionResult`, and every directory created is gone afterwards. |
| Ffmpeg.RunInTempDir | src/ffmpeg_utils.py:75-146 | The encoder runs on the command for the created directory, and the directory is removed afterwards. |
| Ffmpeg.TempSpace.MakeDir | src/ffmpeg_utils.py:75 | The directory is added to the live set. |
| Ffmpeg.TempSpace.RemoveTree | src/ffmpeg_utils.py:138-146 | The directory is removed from the live set. |
| Ffmpeg.FFmpegConverter.IsAvailable | src/ffmpeg_utils.py:19-27 | The first call probes the PATH once and caches the answer. Later calls return the cached answer without probing and change nothing. |
| Ffmpeg.FFmpegConverter.ConvertImage | src/ffmpeg_utils.py:49-146 | Exactly one of data and error is present; every error is non-empty. The encoder path is the cached one, or the PATH lookup on the first probe. No encoder gives the not-installed message; with one, the outcome is `ConversionResult` for that path. Created directories are always removed. |
| Ffmpeg.VersionLine | src/ffmpeg_utils.py:34-47 | A version exactly on a zero exit, and then the first line of the output. |
| Ffmpeg.FirstLine | src/ffmpeg_utils.py:43 | `stdout.split("\n")[0]`: a prefix of the output with no newline, ending where the output ends or at its first newline. |
| Ffmpeg.FFmpegConverter.GetVersion | src/ffmpeg_utils.py:29-47 | No encoder gives `None`. Otherwise the result is `VersionLine` of the version run: its first line on a zero exit, `None` otherwise. The encoder path is the cached one, or the PATH lookup on the first probe. |
| Ffmpeg.ConverterRegistry.GetConverter | src/ffmpeg_utils.py:173-178 | The first call creates a fresh, unprobed converter; every later call returns the same instance. |
| Ffmpeg.CheckFfmpeg | src/ffmpeg_utils.py:181-196 | For a new or unprobed converter, availability is whether the PATH lookup found the encoder; a probed one keeps its cached answer. Absent gives "FFmpeg not found in system PATH". Present gives "FFmpeg found: " and the first line of a successful version run when that line is non-empty, and "FFmpeg is available" otherwise. |
| ConfigTypes.GetBool | src/config/types.py:98-109 | `data.get(key, default)` for a flag: the default when the key is missing, the stored value when it is a boolean. |
| ConfigTypes.GetInt | src/config/types.py:104-111 | `data.get(key, default)` for a number: the default when missing, the stored value when it is an integer. |
| ConfigTypes.GetStr | src/config/types.py:40-42 | `data.get(key, default)` for text: the default when missing, the stored value when it is a string. |
| ConfigTypes.NoteTypeTemplate.ToDict | src/config/types.py:27-34 | Exactly the four keys, and `from_dict` gives the template back. |
| ConfigTypes.TemplateFromDict | src/config/types.py:36-44 | Reading succeeds exactly when each present key has its type (three texts and the `enabled` flag). Each field is then the stored value, or its default when the key is missing: "", "Word", "Picture" and true. A failure is an ill-typed key. |
| ConfigTypes.TemplatesToJson | src/config/types.py:80 | One dictionary per template, in order. |
| ConfigTypes.TemplatesFromItems | src/config/types.py:95 | The comprehension succeeds exactly when every entry is a dictionary that `from_dict` reads. It then gives one template per entry, in order, each read from its entry. |
| ConfigTypes.TemplatesFromJson | src/config/types.py:94-95 | A list is read entry by entry as above. An empty dictionary or empty string gives no templates. Anything else fails. |
| ConfigTypes.TemplatesRoundTrip | src/config/types.py:80-95 | The template list survives `to_dict`/`from_dict` element by element, in order. |
| ConfigTypes.ConfigToDict | src/config/types.py:73-88 | Exactly the twelve keys. |
| ConfigTypes.ConfigDictGeneralEntries | src/config/types.py:76-78 | `enabled`, `language` (as its value) and `search_field` hold the record's fields. |
| ConfigTypes.ConfigDictTemplateEntries | src/config/types.py:79-81 | `target_field`, the template list and the template switch hold the record's fields. |
| ConfigTypes.ConfigDictSettingsEntries | src/config/types.py:82-87 | The search and conversion entries hold the record's fields, with enumerations as their values. |
| ConfigTypes.LanguageFromJson | src/config/types.py:99 | A text `language` gives `from_string` of that text; a missing or non-text one gives `Auto`. |
| ConfigTypes.ImageQualityFromJson | src/config/types.py:106-108 | A missing `image_quality` gives `Medium`. A present one succeeds exactly when it is text naming a member, and then gives the member with that value. A failure is raised for `image_quality`. |
| ConfigTypes.ImageFormatFromJson | src/config/types.py:110 | A missing `output_format` gives `Original`. A present one succeeds exactly when it is text naming a member, and then gives the member with that value. A failure is raised for `output_format`. |
| ConfigTypes.ConfigFromDict | src/config/types.py:90-112 | Reading succeeds exactly when every scalar entry has its type, the templates and both enumerations read. Each field is then the stored value or its default, the template list and the enumerations as read. |
| ConfigTypes.ConfigDictReadsGeneral | src/config/types.py:94-103 | `from_dict` reads back every general field of `to_dict`. |
| ConfigTypes.ConfigDictReadsSettings | src/config/types.py:104-111 | `from_dict` reads back every search and conversion field of `to_dict`. |
| ConfigTypes.ConfigRoundTrip | src/config/types.py:73-112 | `from_dict(to_dict(c)) == c` for every configuration. |
| ConfigTypes.EmptyDictIsDefault | src/config/types.py:51-112 | `from_dict({})` is the dataclass default configuration. |
| ConfigTypes.UnknownValues | src/config/types.py:99-110 | An unknown `language` falls back to `Auto`; unknown `image_quality` and `output_format` values raise. |
| ConfigTypes.FirstMatch | src/config/types.py:126-128 | `None` exactly when no template is enabled with that name. Otherwise the position of the first enabled template with that name. |
| ConfigTypes.GetFieldsForNoteType | src/config/types.py:114-131 | With templates in use and a match, the fields of the first enabled template with exactly that name. Otherwise the configuration's own fields. |
| Languages.FromString | src/config/languages.py:16-22 | A known value gives the member with that value; anything else gives `Auto`. |
| Languages.LanguageCode.ToString | src/config/languages.py:13-22 | `str(m)` is the member's value, and `from_string(str(m)) == m`. |
| Enums.ParseImageQuality | src/config/enums.py:6-11 | Construction succeeds exactly for "low", "medium" and "high", giving the member with that value. |
| Enums.ParseImageFormat | src/config/enums.py:17-24 | Construction succeeds exactly for the five format values, giving the member with that value. |
| Enums.EnumValuesRoundTrip | src/config/enums.py:6-24 | Constructing from a member's value gives the member back. |
| Version.ParseVersion | src/__init__.py:10-20 | Fewer than two parts gives `None`. Otherwise it gives `Some` exactly when both of the first two parts are integers, and then the pair of their values. |
| Version.ParseVersionIgnoresTail | src/__init__.py:13-17 | Parts after the second never change the result. |
| Version.ParsesMinimum | src/__init__.py:7-25 | The minimum "25.07" parses to (25, 7). |
| Version.ParsesPatchRelease | src/__init__.py:10-17 | "25.07.2" parses to (25, 7). |
| Version.CheckAnkiVersion | src/__init__.py:23-56 | True exactly when the running version parses and is at least (25, 7) in lexicographic order. |
| Text.ParseInt | src/__init__.py:15-16 | `int()` succeeds exactly on an optional sign followed by at least one decimal digit. Its value is the decimal value of the digits, negated after a '-'. |
| Text.IntToString | src/ffmpeg_utils.py:97-108 | `str(n)` parses back to `n`. |
| Url.UrlParse | src/image_search.py:93 | The path holds neither `?` nor `#`, and the query holds no `#`: the query ends at the fragment. |
| Url.FormDecode | src/image_search.py:93 | Decoding never lengthens the text, and non-empty text stays non-empty. Text without `%` decodes to itself with each `+` turned into a space. |
| Url.ParseQs | src/image_search.py:93 | An empty query has no pairs; otherwise there is at most one pair per `&`-separated field. Every value recorded is non-empty. |
| Url.QuotePlus | src/image_search.py:53 | The encoded text contains none of `&`, `=`, `#` and `?`, so it cannot break the query it is placed in, and it is empty exactly when the input is. |
| Url.QuotePlusRoundTrip | src/image_search.py:53 | `unquote_plus` undoes `quote_plus` on ASCII text. |
| Url.FirstValue | src/image_search.py:93-95 | `None` exactly when no pair has the key. Otherwise the value of the first pair with the key. |
| Url.PathName | src/image_search.py:237 | The name of a path never contains a slash. |
| Url.PathSuffix | src/image_search.py:235-237 | The suffix is empty or a dot followed by a dot-free, slash-free tail of the path's last component. Whenever that component has a dot that is neither its first nor its last character and no dot after it, the suffix is exactly the tail from that dot. |
| ImagePicker.TruncateTitle | src/ui/image_picker.py:51-53 | Titles up to 30 characters are unchanged. Longer titles show exactly 30 characters: the first 27 followed by "...". |
| ImagePicker.TruncateTitleIdempotent | src/ui/image_picker.py:51-53 | A caption is never over 30 characters, and truncating it again changes nothing. |
| ImagePicker.PreviewUrl | src/ui/image_picker.py:105-112 | The thumbnail, falling back to the url. No load starts when that is empty or inline data. |
| ImagePicker.SearchResultsLoadThumbnails | src/ui/image_picker.py:105-110 | Every search result starts loading its own thumbnail. |
| ImagePicker.GridCell | src/ui/image_picker.py:162-170 | The column is below `GRID_COLUMNS`, and row × columns + column is the index. |
| ImagePicker.GridCellsDistinct | src/ui/image_picker.py:162-170 | No two results share a cell, and cells fill rows left to right. |
| ImagePicker.PlaceThumbnails | src/ui/image_picker.py:161-170 | One fresh, unselected thumbnail per result, in order. The row/column counters put the i-th one in `GridCell(i)`. |
| ImagePicker.Thumbnail.SetSelected | src/ui/image_picker.py:119-125 | The selected flag takes the new value. |
| ImagePicker.PickerDialog.constructor | src/ui/image_picker.py:131-191 | Thumbnails in grid order, nothing selected, the insert button disabled, not accepted. |
| ImagePicker.PickerDialog.OnThumbnailClicked | src/ui/image_picker.py:193-202 | The clicked thumbnail becomes the only selected one and the insert button is enabled. The invariant holds: the insert button is enabled exactly when a thumbnail is selected. |
| ImagePicker.PickerDialog.MousePress | src/ui/image_picker.py:114-117 | A click selects only when the thumbnail's parent has the click handler. Otherwise nothing changes, and the dialog is never accepted by a click. |
| ImagePicker.AsWrittenClicksAreDropped | src/ui/image_picker.py:114-164 | The grid container, the parent the code passes, has no click handler; the dialog does. |
| ImagePicker.AsWrittenDialogNeverInserts | src/ui/image_picker.py:114-241 | A dialog built as written, with every thumbnail attached to the grid container: after any sequence of thumbnail presses nothing is selected and the insert button is still disabled; pressing insert then gives "nothing selected", accepts nothing and leaves the media folder as it was. |
| ImagePicker.PressThumbnails | src/ui/image_picker.py:114-117 | Presses on thumbnails whose parent has no click handler leave the dialog valid, without a selection, with insert disabled and the acceptance unchanged. |
| ImagePicker.PickerDialog.Accept | src/ui/image_picker.py:239 | `self.accept()`: the dialog is accepted and its selection and insert button stay as they were. |
| ImagePicker.StepsSpec | src/ui/image_picker.py:219-241 | The specification of download, save and insert: each failure and its outcome, the media folder after a write (the saved bytes under the derived name, unchanged after a failed download or save), and the note changing only on a successful insert that names the saved file. |
| ImagePicker.MediaChangesOnlyOnWrite | src/ui/image_picker.py:219-232 | The media folder changes only after a non-empty download, with a collection and a successful write. |
| ImagePicker.InsertedFileIsSaved | src/ui/image_picker.py:227-241 | A successful insert names a file the media folder now holds, and that name starts with "image_search_". |
| ImagePicker.DownloadSaveInsert | src/ui/image_picker.py:219-241 | Download fails exactly on a refused or empty download, without touching media. After a download, the save fails exactly without a collection or on a refused write, also without touching media. Otherwise the media folder gains the saved bytes under `image_search_<md5[:12]><ext>`, and a successful insert names exactly that file. Insertion changes the note only on success. |
| ImagePicker.PickerDialog.InsertSelected | src/ui/image_picker.py:216-241 | The download, save and insert steps meet their specification for the selected url. The dialog is accepted exactly when the insert succeeds, and the selection is unchanged. |
| ImagePicker.PickerDialog.OnInsertClicked | src/ui/image_picker.py:204-241 | No selection does nothing. An empty url gives a warning. Otherwise download, save and insert run in order. Each failure stops with its own outcome and leaves the note unchanged. The media folder changes only through the save. The dialog is accepted exactly when all three succeed. |
| ImagePicker.ShowImagePicker | src/ui/image_picker.py:244-259 | Corrects both findings: it uses the corrected search, and attaches every thumbnail to the dialog itself (the parent that handles clicks) rather than to the grid container. No dialog exactly when the search finds nothing. Otherwise a fresh dialog over exactly the search results, with nothing selected and not accepted. |
| ImagePicker.ShowImagePickerAsWritten | src/ui/image_picker.py:244-259 | As written, the search answers `[]`, so `show_image_picker` always shows the "no images found" warning and never builds a dialog. |
| Templates.Label | src/ui/config/templates.py:211-215 | The label is the mark (✓ when enabled, ✗ otherwise), a space, the note-type name, ": ", the search field, " → " and the target field, in that order. |
| Templates.Items | src/ui/config/templates.py:207-218 | One item per template, in order, each holding its label and its template. |
| Templates.BuildItems | src/ui/config/templates.py:209-218 | The loop builds exactly those items. |
| Templates.ItemsAppend | src/ui/config/templates.py:210-218 | Items of a list with one more template are the old items plus that template's item. |
| Templates.FirstIndex | src/ui/config/templates.py:247 | `list.index`: the first position holding an equal template. |
| Templates.RemoveFirst | src/ui/config/templates.py:258 | `list.remove` drops exactly one entry. |
| Templates.RemoveFirstMultiset | src/ui/config/templates.py:258 | The removal takes out exactly one occurrence of the template. |
| Templates.RemoveFirstOrder | src/ui/config/templates.py:258 | The removal keeps the entries before the first match in place and shifts the rest down by one. |
| Templates.ReplaceFirstContents | src/ui/config/templates.py:247-248 | The replacement keeps the length. Only the first matching position changes, and it takes the edit. |
| Templates.LiveConfig.constructor | src/ui/config/templates.py:143-145 | The running configuration the tab is handed. |
| Templates.TemplateSettings.constructor | src/ui/config/templates.py:143-205 | The tab shares the running configuration it is given. The check box comes from that configuration, the items are loaded, and the list and buttons follow the check box. |
| Templates.TemplateSettings.LoadTemplates | src/ui/config/templates.py:207-218 | The items mirror the template list, and the current row is cleared. |
| Templates.TemplateSettings.OnUseTemplatesToggled | src/ui/config/templates.py:220-225 | The list and all three buttons take the same enabled state; nothing else changes. |
| Templates.TemplateSettings.SetUseTemplates | src/ui/config/templates.py:155-156 | Checking the box updates the controls only when its state changes. |
| Templates.TemplateSettings.OnAddTemplate | src/ui/config/templates.py:227-233 | An accepted template is appended to the running configuration's list and the earlier entries are unchanged. A cancelled dialog changes nothing. The check box and the enabled states stay as they were. |
| Templates.TemplateSettings.OnEditTemplate | src/ui/config/templates.py:235-249 | With a current row and an accepted dialog, the first template equal to the row's is replaced in the running configuration. Without a row or when cancelled, nothing changes. The check box and the enabled states stay as they were. |
| Templates.TemplateSettings.OnDeleteTemplate | src/ui/config/templates.py:251-259 | With a current row, the first template equal to the row's is removed from the running configuration. Without one, nothing changes. The check box and the enabled states stay as they were. |
| Templates.TemplateSettings.GetConfig | src/ui/config/templates.py:261-267 | The running configuration with only the template switch taken from the check box. |
| Templates.AddReachesRunningConfig | src/ui/config/templates.py:143-233 | A template added through a tab reaches the running configuration it was handed, before and without any `get_config`. |

## Left out

- HTTP and HTML parsing (`requests`, BeautifulSoup) are outside the model. A page is the list of its `img.DS1iW` elements, and a download is a response record whose body has been read in full.
- The per-element and per-document `except Exception` clauses of `search` are not modelled: the pure model of an element cannot raise. `urlparse` raising `ValueError` on a malformed IPv6 host, and its stripping of control characters, are also left out.
- Percent-decoding of non-ASCII UTF-8 sequences is not modelled: each `%XX` decodes to the character with that code. `Url.QuotePlusRoundTrip` therefore holds for ASCII queries only.
- SearchQueryRoundTrip: proved for queries of ASCII characters only, for the UTF-8 reason above; the search itself accepts any query.
- SearchUrlCarriesQuery: proved for non-empty ASCII queries only. The empty query leaves no `q` value at all (`SearchQueryRoundTrip` states that case), and non-ASCII queries fall under the UTF-8 gap above.
- `Path(...)` is modelled as it behaves on a POSIX system. On Windows `Path` is a `WindowsPath`, where a backslash also separates components, so a URL path such as `/a\b.png` would give a different suffix. The converter's `input` and `output.<format>` file names are likewise joined with `/`.
- `Text.Lower` lower-cases ASCII letters only; Unicode case mapping is out of scope.
- `Text.ParseInt` accepts an optional sign and ASCII digits. Python's `int()` also accepts surrounding whitespace, underscores and non-ASCII digits.
- `hashlib.md5` and `imghdr.what` are function parameters. Only the 32-character hex digest and its 12-character prefix matter.
- The `sniff` parameter always answers. The source imports `imghdr` inside the save, and that module no longer exists from Python 3.13 on; there the import raises, and a save that needs the sniffed extension (no conversion, no supported URL suffix) returns `None`. The model follows the interpreters that still ship `imghdr`.
- PATH lookup, `mkdtemp`, the subprocess and file reads are outcome parameters. Wall-clock timeouts are not modelled.
- RunInTempDir and TempSpace.RemoveTree: the directory is removed from the live set unconditionally. The source calls `shutil.rmtree(..., ignore_errors=True)`, which can silently leave the directory on disk; that failure is not modelled.
- `mw.col.media.write_data` is a map update. Anki's renaming of clashing names is not modelled. `editor.loadNoteKeepingFocus` is left out.
- A configuration value of the wrong JSON type is a failure (`IllTyped`) in the model. Python would store the ill-typed value in the dataclass, which a typed record cannot hold.
- The `ThumbnailLoader` thread, image decoding and scaling, and all Qt styling, tooltips and warnings are not modelled. The warnings appear as the `Outcome` of the insert handler.
- `TemplateDialog`'s widget logic is not modelled: the dialog is the template it returns, or `None` when cancelled.
- The settings dialog's OK and Cancel (src/ui/config/dialog.py) are not part of this model. The tab edits the running configuration's template list in place (`LiveConfig`, shown by `Templates.AddReachesRunningConfig`), so those edits stay even when the dialog is cancelled; the model shows the sharing but not the dialog that would later save or discard the rest.
- These parts of the repository are not part of this model:
  - src/ui/browser_picker.py, the web-view picker;
  - src/ui/config/general.py and src/ui/config/dialog.py, the widget reads;
  - src/hooks.py, the editor button;
  - the menu and start-up code in src/__init__.py;
  - src/config/config.py, src/state.py and src/translator.py;
  - the debug and test scripts.
- Logging `print` calls are left out.
- ImagePicker.PickerDialog.OnInsertClicked: the unused `note` argument of `save_image_to_media` is not passed.

## Findings

| source | as written | input that shows it | evidently intended | confidence | as-written member | corrected member |
|---|---|---|---|---|---|---|
| src/ui/image_picker.py:157-164 | Thumbnails are created with the grid's `container` widget as parent, and `mousePressEvent` forwards a click only if `self.parent()` has `on_thumbnail_clicked`. The container has no such method, so a click never selects a thumbnail, and the insert button (disabled at line 181) never becomes enabled. | any click on any thumbnail of a dialog with at least one result | clicks reach the dialog's `on_thumbnail_clicked`, selecting the thumbnail and enabling insert, so that the chosen image can be inserted | medium, not executed | ImagePicker.AsWrittenDialogNeverInserts | ImagePicker.ShowImagePicker |
| src/image_search.py:53-92 | `import urllib.parse` inside the loop makes `urllib` a local name of the whole `search` function. Line 53 reads it before that import has run, so it raises `UnboundLocalError`. The handler at line 116 answers `[]` before any request, and `show_image_picker` therefore always warns. | any query, with the libraries present, and a page with one `img.DS1iW` whose `src` is an https URL (`ImageSearch.SearchDiscrepancy`) | the module-level import at line 6 is used, and the page's images are extracted; test_image_search.py and debug_google_search.py build the URL the same way with only a module-level import | high, not executed | ImageSearch.SearchAsWritten | ImageSearch.Search |
