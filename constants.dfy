/** The add-on's fixed values (src/config/constants.py). */
module Constants {
  const DEFAULT_SEARCH_FIELD: string := "Word"
  const DEFAULT_TARGET_FIELD: string := "Picture"
  const DEFAULT_MAX_RESULTS: int := 20
  const DEFAULT_IMAGE_QUALITY: string := "medium"
  const DEFAULT_IMAGE_FORMAT: string := "original"
  const DEFAULT_CONVERT_FORMAT: bool := false
  const DEFAULT_FFMPEG_QUALITY: int := 80

  /** 5 MiB: the largest image body that is accepted. */
  const MAX_IMAGE_SIZE: nat := 5 * 1024 * 1024
  const SUPPORTED_IMAGE_FORMATS: seq<string> := [".jpg", ".jpeg", ".png", ".gif", ".webp"]

  /** Every supported suffix is a dot followed by a name. */
  lemma SupportedFormatsDotted()
    ensures forall f | f in SUPPORTED_IMAGE_FORMATS :: |f| >= 2 && f[0] == '.'
  {
  }

  const GRID_COLUMNS: nat := 4

  const FFMPEG_TIMEOUT: nat := 30
  const FFMPEG_COMMAND: string := "ffmpeg"
}
