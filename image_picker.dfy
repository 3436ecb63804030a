/**
 * The image selection dialog of src/ui/image_picker.py: title truncation,
 * the choice of preview URL, the thumbnail grid, single selection, and the
 * download → save → insert sequence behind the insert button.
 *
 * Qt widgets are reduced to the state the dialog reads back: a thumbnail's
 * parent widget, its `selected` flag, the insert button's enabled flag and
 * whether the dialog was accepted. Warnings and tooltips are the `Outcome`
 * a handler returns.
 */
module ImagePicker {
  import opened Wrappers
  import opened Text
  import opened Bytes
  import opened Constants
  import opened ConfigTypes
  import opened Ffmpeg
  import opened ImageSearch

  const TITLE_LIMIT: nat := 30

  /** The caption under a thumbnail: titles over 30 characters keep 27 and gain "...". */
  function TruncateTitle(title: string): (shown: string)
    ensures |title| <= TITLE_LIMIT ==> shown == title
    ensures |title| > TITLE_LIMIT ==> |shown| == TITLE_LIMIT && shown[..27] == title[..27] && shown[27..] == "..."
  {
    if |title| > TITLE_LIMIT then title[..27] + "..." else title
  }

  /** A caption never exceeds the limit, and captioning a caption changes nothing. */
  lemma TruncateTitleIdempotent(title: string)
    ensures |TruncateTitle(title)| <= TITLE_LIMIT
    ensures TruncateTitle(TruncateTitle(title)) == TruncateTitle(title)
  {
  }

  /**
   * The URL a thumbnail starts loading: `thumbnail`, or `url` when that is
   * empty; no load (`None`) when the choice is empty or inline data.
   */
  function PreviewUrl(d: Descriptor): (r: Option<string>)
    ensures r.Some? ==> r.value != "" && !StartsWith(r.value, "data:")
    ensures r.Some? ==> r.value == (if d.thumbnail != "" then d.thumbnail else d.url)
    ensures r.None? <==> var u := if d.thumbnail != "" then d.thumbnail else d.url; u == "" || StartsWith(u, "data:")
  {
    var u := if d.thumbnail != "" then d.thumbnail else d.url;
    if u != "" && !StartsWith(u, "data:") then Some(u) else None
  }

  /** Every result the search produces starts a load of its own thumbnail. */
  lemma SearchResultsLoadThumbnails(depsAvailable: bool, page: SearchPage, maxResults: int)
    ensures forall d | d in SearchResults(depsAvailable, page, maxResults) :: PreviewUrl(d) == Some(d.thumbnail)
  {
    SearchResultsBound(depsAvailable, page, maxResults);
  }

  /** The grid cell of the i-th result: row-major with `GRID_COLUMNS` columns. */
  function GridCell(i: nat): (cell: (nat, nat))
    ensures cell.1 < GRID_COLUMNS
    ensures cell.0 * GRID_COLUMNS + cell.1 == i
  {
    (i / GRID_COLUMNS, i % GRID_COLUMNS)
  }

  /** No two results share a cell, and the cells fill rows left to right. */
  lemma GridCellsDistinct(i: nat, j: nat)
    ensures GridCell(i) == GridCell(j) <==> i == j
    ensures i < j ==> GridCell(i).0 < GridCell(j).0 || (GridCell(i).0 == GridCell(j).0 && GridCell(i).1 < GridCell(j).1)
  {
  }

  /** Where a thumbnail widget is attached; only the dialog has a click handler. */
  datatype WidgetParent = GridContainer | Dialog

  /** `hasattr(self.parent(), "on_thumbnail_clicked")` */
  predicate HandlesThumbnailClicks(parent: WidgetParent) {
    parent.Dialog?
  }

  /** The parent the grid loop passes as written: the grid's container widget. */
  const AS_WRITTEN_PARENT: WidgetParent := GridContainer

  /** With the container as parent, a click never reaches the dialog's handler. */
  lemma AsWrittenClicksAreDropped()
    ensures !HandlesThumbnailClicks(AS_WRITTEN_PARENT)
    ensures HandlesThumbnailClicks(Dialog)
  {
  }

  class Thumbnail {
    const descriptor: Descriptor
    const parent: WidgetParent
    /** The caption shown under the image. */
    const caption: string
    /** The URL whose download fills the image label, if any. */
    const loadsFrom: Option<string>
    var selected: bool

    constructor (d: Descriptor, p: WidgetParent)
      ensures descriptor == d && parent == p && !selected
      ensures caption == TruncateTitle(d.title) && loadsFrom == PreviewUrl(d)
    {
      descriptor := d;
      parent := p;
      caption := TruncateTitle(d.title);
      loadsFrom := PreviewUrl(d);
      selected := false;
    }

    /** `set_selected` (the border style is left out). */
    method SetSelected(s: bool)
      modifies this
      ensures selected == s
    {
      selected := s;
    }
  }

  /**
   * The grid loop: one fresh, unselected thumbnail per result, in order,
   * each in the cell the row/column counters give it.
   */
  method PlaceThumbnails(results: seq<Descriptor>, parent: WidgetParent)
    returns (thumbnails: seq<Thumbnail>, cells: seq<(nat, nat)>)
    ensures |thumbnails| == |results| == |cells|
    ensures forall i | 0 <= i < |results| :: cells[i] == GridCell(i)
    ensures forall i | 0 <= i < |results| ::
      fresh(thumbnails[i]) && thumbnails[i].descriptor == results[i] && thumbnails[i].parent == parent && !thumbnails[i].selected
  {
    thumbnails, cells := [], [];
    var row, col := 0, 0;
    for i := 0 to |results|
      invariant |thumbnails| == i == |cells|
      invariant row * GRID_COLUMNS + col == i && col < GRID_COLUMNS
      invariant forall k | 0 <= k < i :: cells[k] == GridCell(k)
      invariant forall k | 0 <= k < i ::
        fresh(thumbnails[k]) && thumbnails[k].descriptor == results[k] && thumbnails[k].parent == parent && !thumbnails[k].selected
    {
      var t := new Thumbnail(results[i], parent);
      GridCellOfCounters(row, col);
      thumbnails, cells := thumbnails + [t], cells + [(row, col)];
      col := col + 1;
      if col >= GRID_COLUMNS {
        col := 0;
        row := row + 1;
      }
    }
  }

  /** The counters name the cell of their own index. */
  lemma GridCellOfCounters(row: nat, col: nat)
    requires col < GRID_COLUMNS
    ensures GridCell(row * GRID_COLUMNS + col) == (row, col)
  {
  }

  /** What a press of the insert button ends with. */
  datatype Outcome =
    | NothingSelected
    | InvalidUrl        // warning: invalid image URL
    | DownloadFailed    // warning: download failed
    | SaveFailed        // warning: saving failed
    | InsertFailed      // warning: inserting failed
    | Inserted(filename: string)  // tooltip naming the field; the dialog is accepted

  class PickerDialog {
    const query: string
    const results: seq<Descriptor>
    const targetField: string
    const thumbnails: seq<Thumbnail>
    const cells: seq<(nat, nat)>
    var selectedThumbnail: Thumbnail?
    var insertEnabled: bool
    var accepted: bool

    /** Exactly the selected thumbnail is marked, and the insert button is enabled exactly when one is. */
    ghost predicate Valid()
      reads this, thumbnails
    {
      && |thumbnails| == |results| == |cells|
      && (forall i | 0 <= i < |thumbnails| :: thumbnails[i].descriptor == results[i] && cells[i] == GridCell(i))
      && (selectedThumbnail != null ==> selectedThumbnail in thumbnails)
      && (forall i | 0 <= i < |thumbnails| :: thumbnails[i].selected <==> thumbnails[i] == selectedThumbnail)
      && (insertEnabled <==> selectedThumbnail != null)
    }

    /** `ImagePickerDialog.__init__`: the grid filled with thumbnails attached to `parent`, nothing selected. */
    constructor (query0: string, results0: seq<Descriptor>, targetField0: string, parent: WidgetParent)
      ensures Valid()
      ensures query == query0 && results == results0 && targetField == targetField0
      ensures selectedThumbnail == null && !insertEnabled && !accepted
      ensures forall t | t in thumbnails :: fresh(t) && t.parent == parent
    {
      var ts, cs := PlaceThumbnails(results0, parent);
      query, results, targetField := query0, results0, targetField0;
      thumbnails, cells := ts, cs;
      selectedThumbnail, insertEnabled, accepted := null, false, false;
    }

    /** `on_thumbnail_clicked`: the clicked thumbnail becomes the only selected one and insert is enabled. */
    method OnThumbnailClicked(t: Thumbnail)
      requires Valid() && t in thumbnails
      modifies this, thumbnails
      ensures Valid()
      ensures selectedThumbnail == t && t.selected && insertEnabled
      ensures forall u | u in thumbnails && u != t :: !u.selected
      ensures accepted == old(accepted)
    {
      if selectedThumbnail != null {
        selectedThumbnail.SetSelected(false);
      }
      selectedThumbnail := t;
      t.SetSelected(true);
      insertEnabled := true;
    }

    /** The dialog closes as accepted; the selection stays as it is. */
    method Accept()
      requires Valid()
      modifies this
      ensures Valid() && accepted
      ensures selectedThumbnail == old(selectedThumbnail) && insertEnabled == old(insertEnabled)
    {
      accepted := true;
    }

    /** `mousePressEvent`: the click is handed to the parent only when the parent has a click handler. */
    method MousePress(t: Thumbnail)
      requires Valid() && t in thumbnails
      modifies this, thumbnails
      ensures Valid()
      ensures HandlesThumbnailClicks(t.parent) ==> selectedThumbnail == t && t.selected && insertEnabled
      ensures !HandlesThumbnailClicks(t.parent) ==>
        selectedThumbnail == old(selectedThumbnail) && insertEnabled == old(insertEnabled)
        && forall u | u in thumbnails :: u.selected == old(u.selected)
      ensures accepted == old(accepted)
    {
      if HandlesThumbnailClicks(t.parent) {
        OnThumbnailClicked(t);
      }
    }

    /**
     * `on_insert_clicked`: nothing without a selection, a warning for an
     * empty URL, otherwise the three steps; the dialog is accepted only when
     * all of them succeed.
     */
    method OnInsertClicked(depsAvailable: bool, fetch: string -> Response, env: SaveEnv, config: AppConfig,
                           registry: ConverterRegistry, temp: TempSpace, media: MediaStore, editor: Editor)
      returns (outcome: Outcome)
      requires Valid()
      requires forall u :: |env.md5Hex(u)| == 32
      requires registry.converter != null ==> registry.converter.Valid()
      requires env.setup.InputWriteFails? ==> env.setup.dir !in temp.live
      requires env.setup.Ready? ==> env.setup.dir !in temp.live
      modifies this, registry, registry.converter, temp, media, editor.note
      ensures Valid() && selectedThumbnail == old(selectedThumbnail)
      ensures accepted <==> old(accepted) || outcome.Inserted?
      ensures selectedThumbnail == null ==> outcome == NothingSelected && media.files == old(media.files)
      ensures selectedThumbnail != null && selectedThumbnail.descriptor.url == "" ==>
        outcome == InvalidUrl && media.files == old(media.files)
      ensures selectedThumbnail != null && selectedThumbnail.descriptor.url != "" ==>
        StepsSpec(outcome, selectedThumbnail.descriptor.url, depsAvailable, fetch, env, config, EncoderPath(registry),
                  targetField, old(NoteFields(editor.note)), NoteState(editor.note), old(media.files), media.files)
      ensures outcome in {NothingSelected, InvalidUrl} && editor.note != null ==> editor.note.fields == old(editor.note.fields)
    {
      if selectedThumbnail == null {
        return NothingSelected;
      }
      var url := selectedThumbnail.descriptor.url;
      if url == "" {
        return InvalidUrl;
      }
      outcome := InsertSelected(url, depsAvailable, fetch, env, config, registry, temp, media, editor);
    }

    /** The second half of `on_insert_clicked`: download, save and insert the selected URL, then accept on success. */
    method InsertSelected(url: string, depsAvailable: bool, fetch: string -> Response, env: SaveEnv, config: AppConfig,
                          registry: ConverterRegistry, temp: TempSpace, media: MediaStore, editor: Editor)
      returns (outcome: Outcome)
      requires Valid()
      requires forall u :: |env.md5Hex(u)| == 32
      requires registry.converter != null ==> registry.converter.Valid()
      requires env.setup.InputWriteFails? ==> env.setup.dir !in temp.live
      requires env.setup.Ready? ==> env.setup.dir !in temp.live
      modifies this, registry, registry.converter, temp, media, editor.note
      ensures Valid() && selectedThumbnail == old(selectedThumbnail)
      ensures accepted <==> old(accepted) || outcome.Inserted?
      ensures outcome != NothingSelected && outcome != InvalidUrl
      ensures StepsSpec(outcome, url, depsAvailable, fetch, env, config, EncoderPath(registry),
                        targetField, old(NoteFields(editor.note)), NoteState(editor.note), old(media.files), media.files)
    {
      outcome := DownloadSaveInsert(url, depsAvailable, fetch, env, config, targetField, registry, temp, media, editor);
      assert Valid();
      ghost var path, state, files := EncoderPath(registry), NoteState(editor.note), media.files;
      if outcome.Inserted? {
        Accept();
      }
      assert EncoderPath(registry) == path && NoteState(editor.note) == state && media.files == files;
    }
  }

  /**
   * The dialog as written: every thumbnail attached to the grid's container.
   * Whatever thumbnails the user presses (`clicks` are their positions),
   * nothing is ever selected, the insert button stays disabled, and pressing
   * it ends with nothing selected and nothing saved.
   */
  method AsWrittenDialogNeverInserts(query: string, results: seq<Descriptor>, targetField: string, clicks: seq<nat>,
                                     depsAvailable: bool, fetch: string -> Response, env: SaveEnv, config: AppConfig,
                                     registry: ConverterRegistry, temp: TempSpace, media: MediaStore, editor: Editor)
    returns (dialog: PickerDialog, outcome: Outcome)
    requires forall u :: |env.md5Hex(u)| == 32
    requires registry.converter != null ==> registry.converter.Valid()
    requires env.setup.InputWriteFails? ==> env.setup.dir !in temp.live
    requires env.setup.Ready? ==> env.setup.dir !in temp.live
    modifies registry, registry.converter, temp, media, editor.note
    ensures dialog.selectedThumbnail == null && !dialog.insertEnabled && !dialog.accepted
    ensures forall t | t in dialog.thumbnails :: !t.selected
    ensures outcome == NothingSelected && media.files == old(media.files)
  {
    dialog := new PickerDialog(query, results, targetField, AS_WRITTEN_PARENT);
    PressThumbnails(dialog, clicks);
    outcome := dialog.OnInsertClicked(depsAvailable, fetch, env, config, registry, temp, media, editor);
  }

  /** Presses on thumbnails whose parent has no click handler leave the dialog without a selection. */
  method PressThumbnails(dialog: PickerDialog, clicks: seq<nat>)
    requires dialog.Valid() && dialog.selectedThumbnail == null && !dialog.insertEnabled
    requires forall t | t in dialog.thumbnails :: !HandlesThumbnailClicks(t.parent)
    modifies dialog, set t | t in dialog.thumbnails
    ensures dialog.Valid() && dialog.selectedThumbnail == null && !dialog.insertEnabled
    ensures dialog.accepted == old(dialog.accepted)
  {
    for i := 0 to |clicks|
      invariant dialog.Valid() && dialog.selectedThumbnail == null && !dialog.insertEnabled
      invariant dialog.accepted == old(dialog.accepted)
    {
      if clicks[i] < |dialog.thumbnails| {
        dialog.MousePress(dialog.thumbnails[clicks[i]]);
      }
    }
  }

  /** The note's fields, or none when there is no note. */
  function NoteFields(note: Note?): map<string, string>
    reads note
  {
    if note == null then map[] else note.fields
  }

  /** The note's fields as a value: `None` when there is no note. */
  function NoteState(note: Note?): (state: Option<map<string, string>>)
    reads note
    ensures state.None? <==> note == null
  {
    if note == null then None else Some(note.fields)
  }

  /**
   * The three steps behind the insert button, each with its own failure:
   * an empty or refused download, a failed save (no collection or a
   * refused write), a missing note or field. Once the download succeeds
   * and the write is accepted, the media folder holds the saved bytes under
   * the derived name, and an insert names exactly that file; the note
   * changes only on success, the media folder only on a successful write.
   * `path` is where the converter found the encoder, if it did.
   */
  ghost predicate StepsSpec(outcome: Outcome, url: string, depsAvailable: bool, fetch: string -> Response,
                            env: SaveEnv, config: AppConfig, path: Option<string>, targetField: string,
                            fields0: map<string, string>, fields: Option<map<string, string>>,
                            files0: map<string, seq<byte>>, files: map<string, seq<byte>>)
    requires |env.md5Hex(url)| >= 12
  {
    var downloaded := DownloadImage(depsAvailable, fetch(url));
    && (downloaded.None? || downloaded.value == [] <==> outcome == DownloadFailed)
    && (downloaded.Some? && downloaded.value != [] ==>
          (!env.collectionReady || !env.writeOk <==> outcome == SaveFailed))
    && (outcome == DownloadFailed || outcome == SaveFailed ==> files == files0)
    && (downloaded.Some? && downloaded.value != [] && env.collectionReady && env.writeOk ==>
          var saved := ConvertedBytes(downloaded.value, config, env, path);
          var name := MediaFileName(env.md5Hex(url), ChooseExtension(config, url, saved, env.sniff));
          && files == files0[name := saved]
          && (outcome.Inserted? ==> outcome.filename == name))
    && (outcome == InsertFailed ==> fields.None? || targetField !in fields0)
    && (outcome.Inserted? ==>
          fields.Some? && targetField in fields0
          && fields.value == fields0[targetField := InsertedContent(fields0[targetField], outcome.filename)])
    && (!outcome.Inserted? && fields.Some? ==> fields.value == fields0)
  }

  /** The media folder changes only after a non-empty download, with a collection and a successful write. */
  lemma MediaChangesOnlyOnWrite(outcome: Outcome, url: string, depsAvailable: bool, fetch: string -> Response,
                                env: SaveEnv, config: AppConfig, path: Option<string>, targetField: string,
                                fields0: map<string, string>, fields: Option<map<string, string>>,
                                files0: map<string, seq<byte>>, files: map<string, seq<byte>>)
    requires |env.md5Hex(url)| >= 12
    requires StepsSpec(outcome, url, depsAvailable, fetch, env, config, path, targetField, fields0, fields, files0, files)
    requires files != files0
    ensures env.collectionReady && env.writeOk
    ensures DownloadImage(depsAvailable, fetch(url)).Some? && DownloadImage(depsAvailable, fetch(url)).value != []
  {
  }

  /** An insert always names a file that the media folder now holds. */
  lemma InsertedFileIsSaved(outcome: Outcome, url: string, depsAvailable: bool, fetch: string -> Response,
                            env: SaveEnv, config: AppConfig, path: Option<string>, targetField: string,
                            fields0: map<string, string>, fields: Option<map<string, string>>,
                            files0: map<string, seq<byte>>, files: map<string, seq<byte>>)
    requires |env.md5Hex(url)| >= 12
    requires StepsSpec(outcome, url, depsAvailable, fetch, env, config, path, targetField, fields0, fields, files0, files)
    requires outcome.Inserted?
    ensures outcome.filename in files
    ensures StartsWith(outcome.filename, "image_search_")
  {
    var downloaded := DownloadImage(depsAvailable, fetch(url));
    assert downloaded.Some? && downloaded.value != [];
    assert env.collectionReady && env.writeOk;
  }

  method DownloadSaveInsert(url: string, depsAvailable: bool, fetch: string -> Response, env: SaveEnv,
                            config: AppConfig, targetField: string,
                            registry: ConverterRegistry, temp: TempSpace, media: MediaStore, editor: Editor)
    returns (outcome: Outcome)
    requires forall u :: |env.md5Hex(u)| == 32
    requires registry.converter != null ==> registry.converter.Valid()
    requires env.setup.InputWriteFails? ==> env.setup.dir !in temp.live
    requires env.setup.Ready? ==> env.setup.dir !in temp.live
    modifies registry, registry.converter, temp, media, editor.note
    ensures outcome != NothingSelected && outcome != InvalidUrl
    ensures StepsSpec(outcome, url, depsAvailable, fetch, env, config, EncoderPath(registry), targetField,
                      old(NoteFields(editor.note)), NoteState(editor.note), old(media.files), media.files)
  {
    var downloaded := DownloadImage(depsAvailable, fetch(url));
    if downloaded.None? || downloaded.value == [] {
      return DownloadFailed;
    }
    var filename := SaveImageToMedia(downloaded.value, url, config, env, registry, temp, media);
    if filename.None? {
      return SaveFailed;
    }
    var ok := InsertImageToField(editor, targetField, filename.value);
    outcome := if ok then Inserted(filename.value) else InsertFailed;
  }

  /**
   * `show_image_picker`: search, then warn (and open nothing) when there are
   * no results, or open a dialog over the results.
   */
  method ShowImagePicker(query: string, targetField: string, maxResults: int,
                         depsAvailable: bool, fetchPage: string -> SearchPage)
    returns (dialog: PickerDialog?)
    ensures dialog == null <==> SearchResults(depsAvailable, fetchPage(SearchUrl(query)), maxResults) == []
    ensures dialog != null ==>
      fresh(dialog) && dialog.Valid()
      && dialog.results == SearchResults(depsAvailable, fetchPage(SearchUrl(query)), maxResults)
      && dialog.query == query && dialog.targetField == targetField
      && dialog.selectedThumbnail == null && !dialog.insertEnabled && !dialog.accepted
      && forall t | t in dialog.thumbnails :: HandlesThumbnailClicks(t.parent)
  {
    var results := Search(depsAvailable, query, maxResults, fetchPage);
    if results == [] {
      return null;
    }
    dialog := new PickerDialog(query, results, targetField, Dialog);
  }

  /**
   * `show_image_picker` as written: the search answers [] for every query
   * and page, so the warning is shown and no dialog is built.
   */
  method ShowImagePickerAsWritten(query: string, targetField: string, maxResults: int,
                                  depsAvailable: bool, fetchPage: string -> SearchPage)
    returns (dialog: PickerDialog?)
    ensures dialog == null
  {
    var results := SearchAsWritten(depsAvailable, query, maxResults, fetchPage);
    // `not results` always holds here: the warning at line 254 is shown and the function returns
    assert results == [];
    dialog := null;
  }
}
