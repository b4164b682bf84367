/** The string operations of the Python standard library that the pipeline
    uses: `str.strip()`, prefix slicing and `os.path.splitext`. */
module Text {

  /** Python's `str.isspace()` for one character: the ASCII controls TAB to CR,
      the information separators 0x1C-0x1F, SPACE, NEL, NO-BREAK SPACE and the
      Unicode space separators and line/paragraph separators. */
  predicate IsSpace(c: char) {
    var n := c as int;
    || 0x09 <= n <= 0x0D
    || 0x1C <= n <= 0x20
    || n == 0x85
    || n == 0xA0
    || n == 0x1680
    || 0x2000 <= n <= 0x200A
    || n == 0x2028
    || n == 0x2029
    || n == 0x202F
    || n == 0x205F
    || n == 0x3000
  }

  predicate AllSpace(s: string) {
    forall i :: 0 <= i < |s| ==> IsSpace(s[i])
  }

  /** Neither the first nor the last character is whitespace. */
  predicate NoEdgeSpace(s: string) {
    |s| == 0 || (!IsSpace(s[0]) && !IsSpace(s[|s| - 1]))
  }

  /** `s.lstrip()`: drops the leading whitespace and keeps the rest as is. */
  function LStrip(s: string): (r: string)
    ensures |r| <= |s| && r == s[|s| - |r|..]
    ensures AllSpace(s[..|s| - |r|])
    ensures |r| == 0 || !IsSpace(r[0])
  {
    if |s| > 0 && IsSpace(s[0]) then LStrip(s[1..]) else s
  }

  /** `s.rstrip()`: drops the trailing whitespace and keeps the rest as is. */
  function RStrip(s: string): (r: string)
    ensures |r| <= |s| && r == s[..|r|]
    ensures AllSpace(s[|r|..])
    ensures |r| == 0 || !IsSpace(r[|r| - 1])
  {
    if |s| > 0 && IsSpace(s[|s| - 1]) then RStrip(s[..|s| - 1]) else s
  }

  /** `s.strip()`: the infix of `s` left after removing whitespace at both ends. */
  function Strip(s: string): (r: string)
    ensures NoEdgeSpace(r)
    ensures AllSpace(s) ==> r == []
    ensures |r| <= |RStrip(s)| && r == s[|RStrip(s)| - |r|..|RStrip(s)|]
    ensures AllSpace(s[..|RStrip(s)| - |r|]) && AllSpace(s[|RStrip(s)|..])
  {
    var t := RStrip(s);
    var r := LStrip(t);
    var i := |t| - |r|;
    assert s[..i] == t[..i];
    assert s[i..i + |r|] == r;
    r
  }

  lemma {:induction false} LStripSpacePrefix(pre: string, s: string)
    requires AllSpace(pre)
    ensures LStrip(pre + s) == LStrip(s)
    decreases |pre|
  {
    if |pre| > 0 {
      assert (pre + s)[1..] == pre[1..] + s;
      LStripSpacePrefix(pre[1..], s);
    } else {
      assert pre + s == s;
    }
  }

  lemma {:induction false} RStripSpaceSuffix(s: string, suf: string)
    requires AllSpace(suf)
    ensures RStrip(s + suf) == RStrip(s)
    decreases |suf|
  {
    if |suf| > 0 {
      assert (s + suf)[..|s + suf| - 1] == s + suf[..|suf| - 1];
      RStripSpaceSuffix(s, suf[..|suf| - 1]);
    } else {
      assert s + suf == s;
    }
  }

  /** `strip` is characterised by its result alone: whatever whitespace
      surrounds a string without edge whitespace, stripping recovers exactly
      that string. Together with `Strip`'s own contract this pins the result
      down for every input. */
  lemma {:induction false} StripOfPadded(pre: string, mid: string, suf: string)
    requires AllSpace(pre) && AllSpace(suf) && NoEdgeSpace(mid)
    ensures Strip(pre + mid + suf) == mid
  {
    assert pre + mid + suf == (pre + mid) + suf;
    RStripSpaceSuffix(pre + mid, suf);
    if |mid| == 0 {
      assert pre + mid == pre;
      assert RStrip(pre) == [] by {
        assert AllSpace(pre[..|RStrip(pre)|]);
      }
    } else {
      assert RStrip(pre + mid) == pre + mid;
      LStripSpacePrefix(pre, mid);
    }
  }

  /** `s[:n] if len(s) > n else s`: at most `n` characters from the front of `s`. */
  function Truncate(s: string, n: nat): (r: string)
    ensures |r| <= n && |r| <= |s|
    ensures r == s[..|r|]
    ensures |s| <= n ==> r == s
    ensures |s| > n ==> |r| == n
  {
    if |s| > n then s[..n] else s
  }

  /** `s.rfind(c)`: the index of the last occurrence of `c`, or -1. */
  function RFind(s: string, c: char): (i: int)
    ensures -1 <= i < |s|
    ensures i >= 0 ==> s[i] == c
    ensures forall k :: i < k < |s| ==> s[k] != c
  {
    if |s| == 0 then -1
    else if s[|s| - 1] == c then |s| - 1
    else RFind(s[..|s| - 1], c)
  }

  /** `posixpath.splitext(p)`: the extension starts at the last '.' of the last
      path component, provided that component has a character other than '.'
      before it (so ".bashrc" and "..." have no extension). */
  function SplitExt(p: string): (r: (string, string))
    ensures r.0 + r.1 == p
    ensures r.1 == [] || (r.1[0] == '.' && '.' !in r.1[1..] && '/' !in r.1[1..])
    // leading dots of the last component do not start an extension
    ensures r.1 != [] ==> exists k :: RFind(p, '/') < k < |r.0| && p[k] != '.'
  {
    var sepIndex := RFind(p, '/');
    var dotIndex := RFind(p, '.');
    if dotIndex > sepIndex && exists k | sepIndex + 1 <= k < dotIndex :: p[k] != '.' then
      (p[..dotIndex], p[dotIndex..])
    else
      (p, [])
  }

  /** The converse direction of `SplitExt`'s contract: a name whose last
      component has a non-dot character followed by ".e", where `e` contains
      neither '.' nor '/', has exactly ".e" as its extension. */
  lemma SplitExtFindsExtension(stem: string, e: string, k: nat)
    requires '.' !in e && '/' !in e
    requires k < |stem| && stem[k] != '.' && stem[k] != '/'
    requires forall j :: k < j < |stem| ==> stem[j] != '/'
    ensures SplitExt(stem + "." + e).1 == "." + e
  {
    var p := stem + "." + e;
    var dotIndex := RFind(p, '.');
    var sepIndex := RFind(p, '/');
    assert p[|stem|] == '.';
    assert forall j :: |stem| < j < |p| ==> p[j] == e[j - |stem| - 1];
    assert dotIndex == |stem|;
    assert p[k] == stem[k];
    assert sepIndex < k;
    assert p[dotIndex..] == "." + e;
  }
}
