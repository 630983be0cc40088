/** `str.strip()` with no argument, applied to every cell of a manifest row. */
module Text {

  /** The characters for which Python's `str.isspace()` holds. */
  predicate IsSpace(c: char) {
    || c == ' '
    || '\t' <= c <= '\r'
    || '\U{1C}' <= c <= '\U{1F}'
    || c == '\U{85}' || c == '\U{A0}' || c == '\U{1680}'
    || '\U{2000}' <= c <= '\U{200A}'
    || c == '\U{2028}' || c == '\U{2029}' || c == '\U{202F}' || c == '\U{205F}' || c == '\U{3000}'
  }

  /** `s` with its leading whitespace removed. */
  function TrimStart(s: string): (r: string)
    ensures |r| <= |s| && r == s[|s| - |r|..]
    ensures forall i :: 0 <= i < |s| - |r| ==> IsSpace(s[i])
    ensures r == [] || !IsSpace(r[0])
  {
    if s != [] && IsSpace(s[0]) then TrimStart(s[1..]) else s
  }

  /** `s` with its trailing whitespace removed. */
  function TrimEnd(s: string): (r: string)
    ensures |r| <= |s| && r == s[..|r|]
    ensures forall i :: |r| <= i < |s| ==> IsSpace(s[i])
    ensures r == [] || !IsSpace(r[|r| - 1])
  {
    if s != [] && IsSpace(s[|s| - 1]) then TrimEnd(s[..|s| - 1]) else s
  }

  /**
   * `s.strip()`: the slice of `s` that starts and ends with a non-space
   * character, everything cut off on either side being whitespace.
   */
  function Strip(s: string): (r: string)
    ensures var lo := |s| - |TrimStart(s)|;
            && lo + |r| <= |s|
            && r == s[lo..lo + |r|]
            && (forall i :: 0 <= i < lo ==> IsSpace(s[i]))
            && (forall i :: lo + |r| <= i < |s| ==> IsSpace(s[i]))
    ensures r == [] || (!IsSpace(r[0]) && !IsSpace(r[|r| - 1]))
  {
    TrimEnd(TrimStart(s))
  }

  /**
   * The partner of `Strip`: whatever whitespace surrounds a string that
   * neither starts nor ends with whitespace, stripping gives that string back.
   */
  lemma {:induction false} StripRecovers(before: string, core: string, after: string)
    requires forall i :: 0 <= i < |before| ==> IsSpace(before[i])
    requires forall i :: 0 <= i < |after| ==> IsSpace(after[i])
    requires core == [] || (!IsSpace(core[0]) && !IsSpace(core[|core| - 1]))
    ensures Strip(before + core + after) == core
  {
    if core == [] {
      var all := before + after;
      assert before + core + after == all + [];
      TrimStartDrops(all, []);
      TrimEndDrops([], []);
    } else {
      TrimStartDrops(before, core + after);
      assert before + core + after == before + (core + after);
      TrimEndDrops(core, after);
    }
  }

  lemma {:induction false} TrimStartDrops(spaces: string, s: string)
    requires forall i :: 0 <= i < |spaces| ==> IsSpace(spaces[i])
    requires s == [] || !IsSpace(s[0])
    ensures TrimStart(spaces + s) == s
  {
    if spaces != [] {
      assert (spaces + s)[1..] == spaces[1..] + s;
      TrimStartDrops(spaces[1..], s);
    }
  }

  lemma {:induction false} TrimEndDrops(s: string, spaces: string)
    requires forall i :: 0 <= i < |spaces| ==> IsSpace(spaces[i])
    requires s == [] || !IsSpace(s[|s| - 1])
    ensures TrimEnd(s + spaces) == s
  {
    if spaces != [] {
      var last := |spaces| - 1;
      assert (s + spaces)[..|s + spaces| - 1] == s + spaces[..last];
      TrimEndDrops(s, spaces[..last]);
    } else {
      assert s + spaces == s;
    }
  }

  /** Stripping twice is stripping once. */
  lemma StripIdempotent(s: string)
    ensures Strip(Strip(s)) == Strip(s)
  {
    var r := Strip(s);
    assert [] + r + [] == r;
    StripRecovers([], r, []);
  }
}
