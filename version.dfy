/** The host-version gate of src/__init__.py. */
module Version {
  import opened Wrappers
  import opened Text

  const MIN_ANKI_VERSION: string := "25.07"

  /**
   * `parse_version`: the first two dot-separated parts as integers; fewer
   * than two parts, or a part that `int()` refuses, gives `None`.
   */
  function ParseVersion(s: string): (r: Option<(int, int)>)
    ensures |Split(s, '.')| < 2 ==> r.None?
    ensures |Split(s, '.')| >= 2 ==>
      (r.Some? <==> ParseInt(Split(s, '.')[0]).Some? && ParseInt(Split(s, '.')[1]).Some?)
    ensures r.Some? ==> r.value == (ParseInt(Split(s, '.')[0]).value, ParseInt(Split(s, '.')[1]).value)
  {
    var parts := Split(s, '.');
    if |parts| >= 2 then
      match (ParseInt(parts[0]), ParseInt(parts[1]))
      case (Some(major), Some(minor)) => Some((major, minor))
      case _ => None
    else None
  }

  /** Python's `>=` on pairs: lexicographic. */
  predicate AtLeast(v: (int, int), w: (int, int)) {
    v.0 > w.0 || (v.0 == w.0 && v.1 >= w.1)
  }

  /**
   * `check_anki_version`: true exactly when the running version parses and
   * is at least 25.7; an unparsable minimum also gives false.
   */
  function CheckAnkiVersion(current: string): (ok: bool)
    ensures ok <==> ParseVersion(current).Some? && AtLeast(ParseVersion(current).value, (25, 7))
  {
    ParsesMinimum();
    match ParseVersion(MIN_ANKI_VERSION)
    case None => false
    case Some(required) =>
      var cur := ParseVersion(current);
      cur.Some? && AtLeast(cur.value, required)
  }

  /** The minimum "25.07" parses to (25, 7). */
  lemma ParsesMinimum()
    ensures ParseVersion(MIN_ANKI_VERSION) == Some((25, 7))
  {
    assert MIN_ANKI_VERSION == "25" + ['.'] + "07";
    SplitCons("25", '.', "07");
    SplitNoSep("07", '.');
    assert Split(MIN_ANKI_VERSION, '.') == ["25", "07"];
    assert DigitsValue("2") == 2;
    assert DigitsValue("0") == 0;
    assert DigitsValue("07") == 7 by { assert "07"[..1] == "0"; }
    assert DigitsValue("25") == 25 by { assert "25"[..1] == "2"; }
  }

  /** Only the first two parts matter. */
  lemma ParseVersionOfParts(s: string, t: string)
    requires |Split(s, '.')| >= 2 && |Split(t, '.')| >= 2
    requires Split(s, '.')[..2] == Split(t, '.')[..2]
    ensures ParseVersion(s) == ParseVersion(t)
  {
    assert Split(s, '.')[0] == Split(s, '.')[..2][0] == Split(t, '.')[0];
    assert Split(s, '.')[1] == Split(s, '.')[..2][1] == Split(t, '.')[1];
  }

  lemma SplitTwoOrMore(major: string, minor: string, rest: string)
    requires '.' !in major && '.' !in minor
    ensures var p := Split(major + "." + minor + "." + rest, '.'); |p| >= 2 && p[..2] == [major, minor]
  {
    assert major + "." + minor + "." + rest == major + ['.'] + (minor + ['.'] + rest);
    SplitCons(major, '.', minor + ['.'] + rest);
    SplitCons(minor, '.', rest);
  }

  lemma SplitTwo(major: string, minor: string)
    requires '.' !in major && '.' !in minor
    ensures Split(major + "." + minor, '.') == [major, minor]
  {
    SplitCons(major, '.', minor);
    SplitNoSep(minor, '.');
  }

  /** Parts after the second are never read. */
  lemma ParseVersionIgnoresTail(major: string, minor: string, rest: string)
    requires '.' !in major && '.' !in minor
    ensures ParseVersion(major + "." + minor + "." + rest) == ParseVersion(major + "." + minor)
  {
    SplitTwoOrMore(major, minor, rest);
    SplitTwo(major, minor);
    ParseVersionOfParts(major + "." + minor + "." + rest, major + "." + minor);
  }

  /** "25.07.2" parses to (25, 7). */
  lemma ParsesPatchRelease()
    ensures ParseVersion("25.07.2") == Some((25, 7))
  {
    ParseVersionIgnoresTail("25", "07", "2");
    assert "25" + "." + "07" + "." + "2" == "25.07.2";
    assert "25" + "." + "07" == MIN_ANKI_VERSION;
    ParsesMinimum();
  }
}
