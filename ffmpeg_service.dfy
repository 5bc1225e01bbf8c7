/** Reading the version out of `ffmpeg -version` (src-tauri/src/services/ffmpeg.rs). Running
    the binary and locating it are not modelled; the parser takes the captured output. */
module FfmpegService {
  import opened Text

  const VersionPrefix: string := "ffmpeg version "
  const UnknownVersion: string := "unknown"

  /** Where the line that starts at `i` ends: the next line feed, or the end of the text. */
  function LineEnd(s: string, i: nat): (e: nat)
    requires i <= |s|
    ensures i <= e <= |s| && (e == |s| || s[e] == '\n')
    ensures forall k :: i <= k < e ==> s[k] != '\n'
    decreases |s| - i
  {
    if i < |s| && s[i] != '\n' then LineEnd(s, i + 1) else i
  }

  /** A line that is free of line feeds up to `n` ends no earlier than `n`, and exactly
      there when a line feed or the end of the text follows. */
  lemma LineEndBounds(s: string, n: nat)
    requires n <= |s| && forall k :: 0 <= k < n ==> s[k] != '\n'
    ensures n <= LineEnd(s, 0)
    ensures n == |s| || s[n] == '\n' ==> LineEnd(s, 0) == n
  {
  }

  /** The first line of a text, as Rust's `str::lines` yields it: everything before the
      first line feed, without a carriage return directly before that line feed; a
      carriage return that no line feed follows stays in the line. An empty text has no
      lines at all. */
  function FirstLine(output: string): (r: Option<string>)
    ensures r.Some? <==> |output| > 0
    ensures r.Some? ==> StartsWith(output, r.value) && '\n' !in r.value
    ensures r.Some? && |r.value| < |output| ==>
              output[|r.value|] == '\n'
              || (output[|r.value|] == '\r' && |r.value| + 1 < |output| && output[|r.value| + 1] == '\n')
    ensures r.Some? && |r.value| < |output| && output[|r.value|] == '\n' ==>
              r.value == [] || r.value[|r.value| - 1] != '\r'
  {
    if output == [] then None
    else
      var e := LineEnd(output, 0);
      assert forall k :: 0 <= k < e ==> output[..e][k] == output[k];
      if 0 < e < |output| && output[e - 1] == '\r' then
        assert output[..e - 1] == output[..e][..e - 1];
        Some(output[..e - 1])
      else Some(output[..e])
  }

  /** `v` is the first word of `line` after the prefix: white space from the end of the
      prefix up to `i`, then `v`, which holds no white space and runs to white space or
      the end of the line. */
  predicate FirstWordAfterPrefix(line: string, i: nat, v: string)
  {
    |VersionPrefix| <= i && i + |v| <= |line| && |v| > 0
    && (forall k :: |VersionPrefix| <= k < i ==> IsWhiteSpace(line[k]))
    && (forall k :: 0 <= k < |v| ==> !IsWhiteSpace(v[k]))
    && line[i..i + |v|] == v
    && (i + |v| == |line| || IsWhiteSpace(line[i + |v|]))
  }

  /** There is only one first word. */
  lemma FirstWordUnique(line: string, i: nat, v: string, j: nat, u: string)
    requires FirstWordAfterPrefix(line, i, v) && FirstWordAfterPrefix(line, j, u)
    ensures i == j && v == u
  {
    assert line[i] == v[0] && line[j] == u[0];
    assert i == j;
    assert forall k :: 0 <= k < |v| ==> line[i + k] == v[k];
    assert forall k :: 0 <= k < |u| ==> line[j + k] == u[k];
  }

  /** `parse_ffmpeg_version`: the first whitespace-separated word after the prefix on the
      first line; "unknown" when there is no first line, when it does not start with the
      prefix, or when only white space follows the prefix. */
  function ParseFfmpegVersion(output: string): (v: string)
    ensures FirstLine(output).None? || !StartsWith(FirstLine(output).value, VersionPrefix) ==> v == UnknownVersion
    ensures FirstLine(output).Some? && StartsWith(FirstLine(output).value, VersionPrefix) ==>
              var line := FirstLine(output).value;
              ((forall k :: |VersionPrefix| <= k < |line| ==> IsWhiteSpace(line[k])) ==> v == UnknownVersion)
              && ((exists k :: |VersionPrefix| <= k < |line| && !IsWhiteSpace(line[k])) ==>
                    exists i :: FirstWordAfterPrefix(line, i, v))
    ensures v == UnknownVersion || (|v| > 0 && forall k :: 0 <= k < |v| ==> !IsWhiteSpace(v[k]))
    ensures v != UnknownVersion ==> StartsWith(output, VersionPrefix)
  {
    match FirstLine(output)
    case None => UnknownVersion
    case Some(line) =>
      if StartsWith(line, VersionPrefix) then
        var i := SpacesEnd(line, |VersionPrefix|);
        var e := WordEnd(line, i);
        if i == e then UnknownVersion
        else
          PrefixOfPrefix(output, line, VersionPrefix);
          WordAfterPrefix(line, i, e);
          line[i..e]
      else UnknownVersion
  }

  lemma PrefixOfPrefix(s: string, p: string, q: string)
    requires StartsWith(s, p) && StartsWith(p, q)
    ensures StartsWith(s, q)
  {
    assert s[..|q|] == p[..|q|];
  }

  /** The word found after the prefix and its white space is the first word there. */
  lemma WordAfterPrefix(line: string, i: nat, e: nat)
    requires StartsWith(line, VersionPrefix)
    requires i == SpacesEnd(line, |VersionPrefix|) && e == WordEnd(line, i) && i < e
    ensures FirstWordAfterPrefix(line, i, line[i..e])
  {
    assert forall k :: 0 <= k < e - i ==> line[i..e][k] == line[i + k];
  }

  /** The usual banner, `ffmpeg version`, white space without a line feed, a word `v`,
      and then white space or nothing, yields `v`, whatever comes after. */
  lemma VersionOfBanner(sp: string, v: string, rest: string)
    requires forall k :: 0 <= k < |sp| ==> IsWhiteSpace(sp[k]) && sp[k] != '\n'
    requires |v| > 0 && forall k :: 0 <= k < |v| ==> !IsWhiteSpace(v[k])
    requires rest == [] || IsWhiteSpace(rest[0])
    ensures ParseFfmpegVersion(VersionPrefix + sp + v + rest) == v
  {
    var output := VersionPrefix + sp + v + rest;
    var p := |VersionPrefix|;
    var i := p + |sp|;
    var n := i + |v|;
    var line := BannerLine(sp, v, rest);
    assert StartsWith(line, VersionPrefix) by {
      assert line[..p] == (VersionPrefix + sp + v)[..p];
    }
    forall k | p <= k < i ensures IsWhiteSpace(line[k]) {
      assert line[k] == sp[k - p];
    }
    assert line[i..n] == v by {
      assert line[i..n] == (VersionPrefix + sp + v)[i..n];
    }
    if n < |line| {
      assert line[n] == output[n] == rest[0];
    }
    assert FirstWordAfterPrefix(line, i, v);
    assert line[i] == v[0];
    var r := ParseFfmpegVersion(output);
    var j :| FirstWordAfterPrefix(line, j, r);
    FirstWordUnique(line, i, v, j, r);
  }

  /** The first line of such a banner runs at least to the end of the word, and it
      starts with the prefix, the white space and the word. */
  lemma BannerLine(sp: string, v: string, rest: string) returns (line: string)
    requires forall k :: 0 <= k < |sp| ==> IsWhiteSpace(sp[k]) && sp[k] != '\n'
    requires |v| > 0 && forall k :: 0 <= k < |v| ==> !IsWhiteSpace(v[k])
    ensures FirstLine(VersionPrefix + sp + v + rest) == Some(line)
    ensures |VersionPrefix| + |sp| + |v| <= |line| && line == (VersionPrefix + sp + v + rest)[..|line|]
    ensures line[..|VersionPrefix| + |sp| + |v|] == VersionPrefix + sp + v
  {
    var output := VersionPrefix + sp + v + rest;
    var p := |VersionPrefix|;
    var n := p + |sp| + |v|;
    forall k | 0 <= k < n ensures output[k] != '\n' {
      if p <= k < p + |sp| { assert output[k] == sp[k - p]; }
      if k >= p + |sp| { assert output[k] == v[k - p - |sp|]; }
    }
    LineEndBounds(output, n);
    var e := LineEnd(output, 0);
    if e == n {
      assert output[n - 1] == v[|v| - 1];
    }
    line := FirstLine(output).value;
    assert output[..n] == VersionPrefix + sp + v;
    assert line[..n] == output[..n];
  }

  /** Only the first line counts: whatever follows the first line feed is never read. */
  lemma OnlyFirstLine(line: string, rest: string)
    requires '\n' !in line
    ensures ParseFfmpegVersion(line + "\n" + rest) == ParseFfmpegVersion(line + "\n")
  {
    FirstLineCut(line, rest);
    FirstLineCut(line, []);
    assert line + "\n" + [] == line + "\n";
  }

  /** The first line of a text with a line feed is what comes before it, less a carriage
      return right before the line feed. */
  lemma FirstLineCut(line: string, rest: string)
    requires '\n' !in line
    ensures FirstLine(line + "\n" + rest)
         == Some(if |line| > 0 && line[|line| - 1] == '\r' then line[..|line| - 1] else line)
  {
    var output := line + "\n" + rest;
    forall k | 0 <= k < |line| ensures output[k] != '\n' {
      assert output[k] == line[k];
    }
    assert output[|line|] == '\n';
    LineEndBounds(output, |line|);
    assert output[..|line|] == line;
    if |line| > 0 {
      assert output[|line| - 1] == line[|line| - 1];
      assert output[..|line| - 1] == line[..|line| - 1];
    }
  }
}
