/** The string-valued enumerations of src/config/enums.py. */
module Enums {
  import opened Wrappers

  datatype ImageQuality = Low | Medium | High {
    /** The enum member's `.value`, which is also its `str()`. */
    function Value(): string {
      match this
      case Low => "low"
      case Medium => "medium"
      case High => "high"
    }
  }

  /** `ImageQuality(v)`: the member with that value, `None` where Python raises `ValueError`. */
  function ParseImageQuality(v: string): (r: Option<ImageQuality>)
    ensures r.Some? <==> v in {"low", "medium", "high"}
    ensures r.Some? ==> r.value.Value() == v
  {
    if v == "low" then Some(Low)
    else if v == "medium" then Some(Medium)
    else if v == "high" then Some(High)
    else None
  }

  datatype ImageFormat = Original | Webp | Png | Jpg | Jpeg {
    function Value(): string {
      match this
      case Original => "original"
      case Webp => "webp"
      case Png => "png"
      case Jpg => "jpg"
      case Jpeg => "jpeg"
    }
  }

  /** `ImageFormat(v)`: the member with that value, `None` where Python raises `ValueError`. */
  function ParseImageFormat(v: string): (r: Option<ImageFormat>)
    ensures r.Some? <==> v in {"original", "webp", "png", "jpg", "jpeg"}
    ensures r.Some? ==> r.value.Value() == v
  {
    if v == "original" then Some(Original)
    else if v == "webp" then Some(Webp)
    else if v == "png" then Some(Png)
    else if v == "jpg" then Some(Jpg)
    else if v == "jpeg" then Some(Jpeg)
    else None
  }

  /** Construction by value inverts `.value` for every member of both enumerations. */
  lemma EnumValuesRoundTrip(q: ImageQuality, f: ImageFormat)
    ensures ParseImageQuality(q.Value()) == Some(q)
    ensures ParseImageFormat(f.Value()) == Some(f)
  {
  }
}
