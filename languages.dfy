/** The interface language setting (src/config/languages.py). */
module Languages {

  datatype LanguageCode = Auto | EnUs | ZhCn {
    function Value(): string {
      match this
      case Auto => "auto"
      case EnUs => "en_US"
      case ZhCn => "zh_CN"
    }

    /** `__str__` yields the value, and parsing it gives the member back. */
    function ToString(): (s: string)
      ensures s == Value()
      ensures FromString(s) == this
    {
      Value()
    }
  }

  /**
   * `LanguageCode.from_string`: the member whose value is `v`; any other
   * text is the caught `ValueError`, which falls back to `Auto`.
   */
  function FromString(v: string): (r: LanguageCode)
    ensures v in {"auto", "en_US", "zh_CN"} ==> r.Value() == v
    ensures v !in {"auto", "en_US", "zh_CN"} ==> r == Auto
  {
    if v == "en_US" then EnUs
    else if v == "zh_CN" then ZhCn
    else Auto
  }
}
