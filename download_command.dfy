/** The download command of the backend (src-tauri/src/lib.rs): the yt-dlp format
    selector for a quality/format pair, the yt-dlp argument vector, the parser for
    yt-dlp's progress lines, and the two loops that turn the child process's output
    into progress records and a final result. */
module DownloadCommand {
  import opened Text
  import opened Selectors

  // ---------------------------------------------------------------------------
  // Format selector (two-argument variant)
  // ---------------------------------------------------------------------------

  /** The height cap a quality asks for; other qualities (`best`, ...) impose none. */
  function HeightCap(quality: string): Option<string>
  {
    if quality == "1080" || quality == "720" || quality == "480" || quality == "360"
    then Some(quality) else None
  }

  predicate AudioOnly(quality: string, format: string)
  {
    quality == "audio" || format == "mp3"
  }

  function FormatSelector(quality: string, format: string): Selector
  {
    if AudioOnly(quality, format) then
      [[Stream("bestaudio", [Ext("m4a")])], [Stream("bestaudio", [])], BestAlternative]
    else if format == "mp4" then
      match HeightCap(quality)
      case Some(h) => CappedMp4Chain(h)
      case None =>
        [[Stream("bestvideo", [Ext("mp4")]), Stream("bestaudio", [Ext("m4a")])],
         [Stream("bestvideo", []), Stream("bestaudio", [])],
         BestAlternative]
    else
      match HeightCap(quality)
      case Some(h) => CappedChain(h)
      case None =>
        [[Stream("bestvideo", []), Stream("bestaudio", [])], BestAlternative]
  }

  /** `build_format_string(quality, format)`. */
  function BuildFormatString(quality: string, format: string): string
  {
    Render(FormatSelector(quality, format))
  }

  /** Audio quality or mp3 output always selects the m4a-preferring audio chain,
      whatever the other argument is. */
  lemma AudioSelectorText(quality: string, format: string)
    requires AudioOnly(quality, format)
    ensures BuildFormatString(quality, format) == "bestaudio[ext=m4a]/bestaudio/best"
  {
    Render3([Stream("bestaudio", [Ext("m4a")])], [Stream("bestaudio", [])], BestAlternative);
    StreamText("bestaudio", "m4a");
    assert RenderFilters([]) == "";
    FuseAudio();
  }

  // Literal facts, each proved on its own so that no proof below has to take a long
  // literal apart.

  lemma FuseAudio()
    ensures "bestaudio" + "[ext=" + "m4a" + "]" + "/" + "bestaudio" + "/" + "best" == "bestaudio[ext=m4a]/bestaudio/best"
  {
  }

  lemma FuseMp4Uncapped()
    ensures "bestvideo" + "[ext=" + "mp4" + "]" + "+" + ("bestaudio" + "[ext=" + "m4a" + "]")
            == "bestvideo[ext=mp4]+bestaudio[ext=m4a]"
  {
  }

  lemma FuseMp4UncappedSelector()
    ensures "bestvideo[ext=mp4]+bestaudio[ext=m4a]" + "/" + ("bestvideo" + "+" + "bestaudio") + "/" + "best"
            == "bestvideo[ext=mp4]+bestaudio[ext=m4a]/bestvideo+bestaudio/best"
  {
  }

  lemma FuseOtherUncappedSelector()
    ensures "bestvideo" + "+" + "bestaudio" + "/" + "best" == "bestvideo+bestaudio/best"
  {
  }

  // The source's selector texts, one lemma per branch.

  lemma Mp4CappedText(h: string)
    requires HeightCap(h).Some?
    ensures BuildFormatString(h, "mp4")
         == "bestvideo[height<=" + h + "][ext=mp4]+bestaudio[ext=m4a]/bestvideo[height<=" + h
            + "]+bestaudio/best[height<=" + h + "]/best"
  {
    CappedMp4ChainText(h);
  }

  lemma Mp4UncappedText(quality: string)
    requires !AudioOnly(quality, "mp4") && HeightCap(quality).None?
    ensures BuildFormatString(quality, "mp4") == "bestvideo[ext=mp4]+bestaudio[ext=m4a]/bestvideo+bestaudio/best"
  {
    var a := [Stream("bestvideo", [Ext("mp4")]), Stream("bestaudio", [Ext("m4a")])];
    var b := [Stream("bestvideo", []), Stream("bestaudio", [])];
    Render3(a, b, BestAlternative);
    StreamText("bestvideo", "mp4");
    StreamText("bestaudio", "m4a");
    assert RenderFilters([]) == "";
    RenderAlternative2(a[0], a[1]);
    RenderAlternative2(b[0], b[1]);
    GlueMp4Uncapped(RenderAlternative(a), RenderAlternative(b), RenderAlternative(BestAlternative));
  }

  lemma GlueMp4Uncapped(ra: string, rb: string, rc: string)
    requires ra == "bestvideo" + "[ext=" + "mp4" + "]" + "+" + ("bestaudio" + "[ext=" + "m4a" + "]")
    requires rb == "bestvideo" + "+" + "bestaudio"
    requires rc == "best"
    ensures ra + "/" + rb + "/" + rc == "bestvideo[ext=mp4]+bestaudio[ext=m4a]/bestvideo+bestaudio/best"
  {
    FuseMp4Uncapped();
    FuseMp4UncappedSelector();
  }

  lemma OtherCappedText(quality: string, format: string)
    requires !AudioOnly(quality, format) && format != "mp4" && HeightCap(quality).Some?
    ensures BuildFormatString(quality, format)
         == "bestvideo[height<=" + quality + "]+bestaudio/best[height<=" + quality + "]/best"
  {
    CappedChainText(quality);
  }

  lemma OtherUncappedText(quality: string, format: string)
    requires !AudioOnly(quality, format) && format != "mp4" && HeightCap(quality).None?
    ensures BuildFormatString(quality, format) == "bestvideo+bestaudio/best"
  {
    var a := [Stream("bestvideo", []), Stream("bestaudio", [])];
    Render2(a, BestAlternative);
    assert RenderFilters([]) == "";
    RenderAlternative2(a[0], a[1]);
    FuseOtherUncappedSelector();
  }

  /** Every selector falls back to plain `best` as its last alternative. */
  lemma FormatSelectorEndsWithBest(quality: string, format: string)
    ensures EndsWithBest(FormatSelector(quality, format))
    ensures EndsWith(BuildFormatString(quality, format), "/best")
  {
    RenderEndsWithBest(FormatSelector(quality, format));
  }

  /** A `[height<=H]` cap occurs exactly when the quality is one of the four capped
      heights and the audio branch was not taken, and then H is the quality itself. */
  lemma FormatSelectorHeights(quality: string, format: string)
    ensures Heights(FormatSelector(quality, format))
         == if !AudioOnly(quality, format) && HeightCap(quality).Some? then {quality} else {}
    ensures Codecs(FormatSelector(quality, format)) == {}
  {
    var sel: Selector := FormatSelector(quality, format);
    if !AudioOnly(quality, format) && HeightCap(quality).Some? {
      if format == "mp4" {
        assert sel[2][0].filters[0] == MaxHeight(quality);
      } else {
        assert sel[1][0].filters[0] == MaxHeight(quality);
      }
    }
  }

  // ---------------------------------------------------------------------------
  // Progress-line parser
  // ---------------------------------------------------------------------------

  /** Text in the language of `\d+\.?\d*`: digits, at most one '.', never first. */
  predicate NumberText(t: string)
  {
    |t| > 0 && IsDigit(t[0])
    && forall k :: 0 <= k < |t| && !IsDigit(t[k]) ==>
         t[k] == '.' && forall m :: k < m < |t| ==> IsDigit(t[m])
  }

  /** Where a match of `(\d+\.?\d*)%` that starts at `i` has its '%'. The greedy digit
      runs leave no choice: the match, if any, is unique. */
  function PercentEnd(s: string, i: nat): (e: Option<nat>)
    requires i <= |s|
    ensures e.Some? ==> i < e.value < |s| && s[e.value] == '%' && NumberText(s[i..e.value])
    ensures e.None? ==> forall j :: i < j < |s| && s[j] == '%' ==> !NumberText(s[i..j])
  {
    if i < |s| && IsDigit(s[i]) then
      var d := DigitsEnd(s, i);
      if d < |s| && s[d] == '%' then
        assert forall k :: i <= k < d ==> s[i..d][k - i] == s[k];
        Some(d)
      else if d < |s| && s[d] == '.' then
        var f := DigitsEnd(s, d + 1);
        if f < |s| && s[f] == '%' then
          assert forall k :: i <= k < f ==> s[i..f][k - i] == s[k];
          Some(f)
        else
          NoPercentAfterPoint(s, i, d, f);
          None
      else
        NoPercentAfterRun(s, i, d);
        None
    else None
  }

  lemma NoPercentAfterRun(s: string, i: nat, d: nat)
    requires i < d <= |s| && (forall k :: i <= k < d ==> IsDigit(s[k]))
    requires d == |s| || (!IsDigit(s[d]) && s[d] != '%' && s[d] != '.')
    ensures forall j :: i < j < |s| && s[j] == '%' ==> !NumberText(s[i..j])
  {
    forall j | i < j < |s| && s[j] == '%'
      ensures !NumberText(s[i..j])
    {
      if d < j {
        assert s[i..j][d - i] == s[d];
      }
    }
  }

  lemma NoPercentAfterPoint(s: string, i: nat, d: nat, f: nat)
    requires i < d < f <= |s| && s[d] == '.'
    requires forall k :: i <= k < d ==> IsDigit(s[k])
    requires forall k :: d < k < f ==> IsDigit(s[k])
    requires f == |s| || (!IsDigit(s[f]) && s[f] != '%')
    ensures forall j :: i < j < |s| && s[j] == '%' ==> !NumberText(s[i..j])
  {
    forall j | i < j < |s| && s[j] == '%'
      ensures !NumberText(s[i..j])
    {
      if f < j {
        assert s[i..j][d - i] == '.';
        assert s[i..j][f - i] == s[f];
      }
    }
  }

  datatype Span = Span(start: nat, end: nat)

  /** The leftmost match of `(\d+\.?\d*)%` starting at or after `from`; `end` is the
      position of its '%'. */
  function FirstPercent(s: string, from: nat): (m: Option<Span>)
    requires from <= |s|
    ensures m.Some? ==> from <= m.value.start < |s| && PercentEnd(s, m.value.start) == Some(m.value.end)
    ensures m.Some? ==> forall j :: from <= j < m.value.start ==> PercentEnd(s, j).None?
    ensures m.None? ==> forall j :: from <= j <= |s| ==> PercentEnd(s, j).None?
    decreases |s| - from
  {
    match PercentEnd(s, from)
    case Some(e) => Some(Span(from, e))
    case None => if from == |s| then None else FirstPercent(s, from + 1)
  }

  /** `kw\s+(\S+)` matched at `p`: `kw`, then white space up to `w`, then the token
      `tok`, which holds no white space and runs to white space or the end of the text. */
  predicate TokenAt(s: string, p: nat, kw: string, w: nat, tok: string)
  {
    OccursAt(s, kw, p) && p + |kw| < w && w + |tok| <= |s| && |tok| > 0
    && (forall k :: p + |kw| <= k < w ==> IsWhiteSpace(s[k]))
    && (forall k :: 0 <= k < |tok| ==> !IsWhiteSpace(tok[k]))
    && s[w..w + |tok|] == tok
    && (w + |tok| == |s| || IsWhiteSpace(s[w + |tok|]))
  }

  /** The greedy runs leave no choice: the token starts where the white space after
      `kw` ends and stops where the word ends. */
  lemma TokenAtIsMaximal(s: string, p: nat, kw: string, w: nat, tok: string)
    requires TokenAt(s, p, kw, w, tok)
    ensures w == SpacesEnd(s, p + |kw|) && w + |tok| == WordEnd(s, w)
  {
    assert forall k :: 0 <= k < |tok| ==> s[w + k] == tok[k];
    assert !IsWhiteSpace(s[w]);
  }

  /** `kw\s+(\S+)` matched exactly at position `p`: the captured token. */
  function TokenAfter(s: string, p: nat, kw: string): (r: Option<string>)
    requires p <= |s|
    ensures r.Some? ==> exists w :: TokenAt(s, p, kw, w, r.value)
    ensures r.None? ==> forall w, tok :: !TokenAt(s, p, kw, w, tok)
  {
    if OccursAt(s, kw, p) then
      var a := p + |kw|;
      var w := SpacesEnd(s, a);
      var t := WordEnd(s, w);
      if w > a && t > w then
        assert forall k :: 0 <= k < t - w ==> s[w..t][k] == s[w + k];
        assert TokenAt(s, p, kw, w, s[w..t]);
        Some(s[w..t])
      else
        assert forall w', tok :: !TokenAt(s, p, kw, w', tok) by {
          forall w', tok | TokenAt(s, p, kw, w', tok) ensures false {
            TokenAtIsMaximal(s, p, kw, w', tok);
          }
        }
        None
    else None
  }

  function OrEmpty(o: Option<string>): string
  {
    if o.Some? then o.value else ""
  }

  /** Fields of one `[download]` progress line; `percent` keeps the matched number text. */
  datatype ProgressLine = ProgressLine(percent: string, speed: string, eta: string,
                                       playlistIndex: Option<nat>, playlistCount: Option<nat>)

  datatype ItemFields = ItemFields(index: string, count: string)

  function ItemText(index: string, count: string): string
  {
    "Downloading item " + index + " of " + count
  }

  /** `Downloading item (\d+) of (\d+)` can match at `i` with these two digit runs. */
  predicate ItemMatch(s: string, i: nat, index: string, count: string)
  {
    |index| > 0 && AllDigits(index) && |count| > 0 && AllDigits(count)
    && OccursAt(s, ItemText(index, count), i)
  }

  /** Where the pieces of a playlist-item match lie. */
  lemma ItemMatchParts(s: string, i: nat, index: string, count: string)
    requires ItemMatch(s, i, index, count)
    ensures OccursAt(s, "Downloading item ", i)
    ensures DigitsEnd(s, i + 17) == i + 17 + |index| && OccursAt(s, " of ", i + 17 + |index|)
    ensures DigitsEnd(s, i + 21 + |index|) > i + 21 + |index|
  {
    var k := "Downloading item ";
    OccursAtConcat(s, k + index + " of ", count, i);
    OccursAtConcat(s, k + index, " of ", i);
    OccursAtConcat(s, k, index, i);
    assert s[i + 17 + |index|] == ' ';
    DigitsEndOf(s, i + 17, index);
    assert s[i + 21 + |index|] == count[0];
  }

  /** A match of `Downloading item (\d+) of (\d+)` that starts at `i`: the first run is
      the whole number before ` of `, the second is greedy. */
  function ItemAt(s: string, i: nat): (r: Option<ItemFields>)
    requires i <= |s|
    ensures r.Some? ==> ItemMatch(s, i, r.value.index, r.value.count)
    ensures r.Some? ==> var e := i + |ItemText(r.value.index, r.value.count)|;
                        e == |s| || !IsDigit(s[e])
    ensures r.None? ==> forall x, y :: !ItemMatch(s, i, x, y)
  {
    var k := "Downloading item ";
    if OccursAt(s, k, i) then
      var a := i + |k|;
      var d := DigitsEnd(s, a);
      if d > a && OccursAt(s, " of ", d) then
        var b := d + 4;
        var e := DigitsEnd(s, b);
        if e > b then ItemFound(s, i, d, e)
        else
          NoItemMatch(s, i);
          None
      else
        NoItemMatch(s, i);
        None
    else
      NoItemMatch(s, i);
      None
  }

  /** The fields of a match whose runs end at `d` and `e`. */
  function ItemFound(s: string, i: nat, d: nat, e: nat): (r: Option<ItemFields>)
    requires i + 17 < d && d + 4 < e <= |s| && OccursAt(s, "Downloading item ", i)
    requires forall j :: i + 17 <= j < d ==> IsDigit(s[j])
    requires OccursAt(s, " of ", d)
    requires forall j :: d + 4 <= j < e ==> IsDigit(s[j])
    requires e == |s| || !IsDigit(s[e])
    ensures r.Some? && ItemMatch(s, i, r.value.index, r.value.count)
    ensures var f := i + |ItemText(r.value.index, r.value.count)|; f == |s| || !IsDigit(s[f])
  {
    ItemFieldsOccur(s, i, d, e);
    Some(ItemFields(s[i + 17..d], s[d + 4..e]))
  }

  lemma ItemFieldsOccur(s: string, i: nat, d: nat, e: nat)
    requires i + 17 < d && d + 4 < e <= |s| && OccursAt(s, "Downloading item ", i)
    requires forall j :: i + 17 <= j < d ==> IsDigit(s[j])
    requires OccursAt(s, " of ", d)
    requires forall j :: d + 4 <= j < e ==> IsDigit(s[j])
    requires e == |s| || !IsDigit(s[e])
    ensures ItemMatch(s, i, s[i + 17..d], s[d + 4..e])
    ensures i + |ItemText(s[i + 17..d], s[d + 4..e])| == e
  {
    var k := "Downloading item ";
    var x := s[i + 17..d];
    var y := s[d + 4..e];
    assert forall j :: 0 <= j < |x| ==> x[j] == s[i + 17 + j];
    assert forall j :: 0 <= j < |y| ==> y[j] == s[d + 4 + j];
    OccursAtConcat(s, k, x, i);
    OccursAtConcat(s, k + x, " of ", i);
    OccursAtConcat(s, k + x + " of ", y, i);
  }

  lemma NoItemMatch(s: string, i: nat)
    requires i <= |s|
    requires !OccursAt(s, "Downloading item ", i)
             || DigitsEnd(s, i + 17) == i + 17 || !OccursAt(s, " of ", DigitsEnd(s, i + 17))
             || DigitsEnd(s, DigitsEnd(s, i + 17) + 4) == DigitsEnd(s, i + 17) + 4
    ensures forall x, y :: !ItemMatch(s, i, x, y)
  {
    forall x, y | ItemMatch(s, i, x, y) ensures false {
      ItemMatchParts(s, i, x, y);
    }
  }

  /** The leftmost match of the playlist-item pattern at or after `from`. */
  function FirstItem(s: string, from: nat): (r: Option<ItemFields>)
    requires from <= |s|
    ensures r.Some? ==> exists i :: from <= i <= |s| && ItemAt(s, i) == r
                                    && forall j :: from <= j < i ==> ItemAt(s, j).None?
    ensures r.None? ==> forall i :: from <= i <= |s| ==> ItemAt(s, i).None?
    decreases |s| - from
  {
    var here := ItemAt(s, from);
    if here.Some? then here
    else if from == |s| then None
    else
      var rest := FirstItem(s, from + 1);
      FirstItemStep(s, from, rest);
      rest
  }

  /** No match at `from` moves the leftmost match to the search from `from + 1`. */
  lemma FirstItemStep(s: string, from: nat, r: Option<ItemFields>)
    requires from < |s| && ItemAt(s, from).None?
    requires r.Some? ==> exists i :: from + 1 <= i <= |s| && ItemAt(s, i) == r
                                     && forall j :: from + 1 <= j < i ==> ItemAt(s, j).None?
    requires r.None? ==> forall i :: from + 1 <= i <= |s| ==> ItemAt(s, i).None?
    ensures r.Some? ==> exists i :: from <= i <= |s| && ItemAt(s, i) == r
                                    && forall j :: from <= j < i ==> ItemAt(s, j).None?
    ensures r.None? ==> forall i :: from <= i <= |s| ==> ItemAt(s, i).None?
  {
    if r.Some? {
      var i :| from + 1 <= i <= |s| && ItemAt(s, i) == r
                && forall j :: from + 1 <= j < i ==> ItemAt(s, j).None?;
      assert forall j :: from <= j < i ==> ItemAt(s, j).None?;
    }
  }

  /** The playlist position a line reports, each number `None` when it overflows u32. */
  function ItemNumbers(line: string): Option<(Option<nat>, Option<nat>)>
  {
    if Contains(line, "Downloading item") then
      match FirstItem(line, 0)
      case Some(f) => Some((ParseU32(f.index), ParseU32(f.count)))
      case None => None
    else None
  }

  /** On the text of one item line the pattern matches at its start with both runs. */
  lemma ItemAtOfItemText(x: string, y: string)
    requires |x| > 0 && AllDigits(x) && |y| > 0 && AllDigits(y)
    ensures ItemAt(ItemText(x, y), 0) == Some(ItemFields(x, y))
  {
    var s := ItemText(x, y);
    assert OccursAt(s, s, 0);
    assert ItemMatch(s, 0, x, y);
    ItemMatchParts(s, 0, x, y);
    OccursAtConcat(s, "Downloading item " + x + " of ", y, 0);
    DigitsEndOf(s, 21 + |x|, y);
    OccursAtConcat(s, "Downloading item " + x, " of ", 0);
    OccursAtConcat(s, "Downloading item ", x, 0);
  }

  /** The line yt-dlp prints for item `n` of `m` yields both numbers, or `None` for a
      number past the u32 range. */
  lemma ItemNumbersOfItemText(n: nat, m: nat)
    ensures ItemNumbers(ItemText(DecimalString(n), DecimalString(m)))
         == Some((if n <= U32_MAX then Some(n) else None, if m <= U32_MAX then Some(m) else None))
  {
    var x := DecimalString(n);
    var y := DecimalString(m);
    var s := ItemText(x, y);
    assert Contains(s, "Downloading item") by {
      assert s[..16] == "Downloading item";
      OccursAtContains(s, "Downloading item", 0);
    }
    assert FirstItem(s, 0) == Some(ItemFields(x, y)) by {
      ItemAtOfItemText(x, y);
    }
    ParseU32OfDecimal(n);
    ParseU32OfDecimal(m);
  }

  /** `parse_progress(line)`. */
  function ParseProgress(line: string): Option<ProgressLine>
  {
    var numbers := ItemNumbers(line);
    var index := if numbers.Some? then numbers.value.0 else None;
    var count := if numbers.Some? then numbers.value.1 else None;
    if Contains(line, "[download]") && Contains(line, "%") then
      match FirstPercent(line, 0)
      case None => None
      case Some(m) =>
        var speed := TokenAfter(line, m.end + 1, "at");
        var eta := if speed.Some? then None else TokenAfter(line, m.end + 1, "ETA");
        Some(ProgressLine(line[m.start..m.end], OrEmpty(speed), OrEmpty(eta), index, count))
    else None
  }

  /** A line is a progress line exactly when it mentions `[download]` and `%` and some
      number stands right before a '%'; the percent is the leftmost such number; the
      speed is the token of `at\s+(\S+)` right after the '%', and the eta that of
      `ETA\s+(\S+)` there when no speed was found; the playlist position is the one
      the line reports, if any. */
  lemma ParseProgressSpec(line: string)
    ensures ParseProgress(line).Some? <==>
              Contains(line, "[download]") && Contains(line, "%") && FirstPercent(line, 0).Some?
    ensures ParseProgress(line).Some? ==>
              var r := ParseProgress(line).value;
              var m := FirstPercent(line, 0).value;
              var speed := TokenAfter(line, m.end + 1, "at");
              var eta := TokenAfter(line, m.end + 1, "ETA");
              r.percent == line[m.start..m.end] && NumberText(r.percent)
              && (speed.Some? ==> r.speed == speed.value && r.eta == "")
              && (speed.None? ==> r.speed == "" && (eta.Some? ==> r.eta == eta.value)
                                  && (eta.None? ==> r.eta == ""))
              && (ItemNumbers(line).Some? ==> r.playlistIndex == ItemNumbers(line).value.0
                                               && r.playlistCount == ItemNumbers(line).value.1)
              && (ItemNumbers(line).None? ==> r.playlistIndex.None? && r.playlistCount.None?)
  {
  }

  // ---------------------------------------------------------------------------
  // Output loops of download_video / handle_tokio_download
  // ---------------------------------------------------------------------------

  /** The title in a `.../<title>.<ext>` path: what lies between the last '/' and the
      last '.' after it; `None` when there is no '.' after some '/'. */
  function TitleFromLine(line: string): Option<string>
  {
    match LastIndexOf(line, '/')
    case None => None
    case Some(k) =>
      var name := line[k + 1..];
      match LastIndexOf(name, '.')
      case None => None
      case Some(e) => Some(name[..e])
  }

  /** A title is found exactly when some '.' follows the last '/'; it is then the text
      between that '/' and the last '.', and so holds no '/'. */
  lemma TitleFromLineSpec(line: string)
    ensures TitleFromLine(line).Some? <==>
              exists k, m :: 0 <= k < m < |line| && line[k] == '/' && '/' !in line[k + 1..] && line[m] == '.'
    ensures TitleFromLine(line).Some? ==>
              var r := TitleFromLine(line).value;
              exists k :: 0 <= k < |line| - |r| - 1 && line[k] == '/'
                          && line[k + 1..k + 1 + |r|] == r && line[k + 1 + |r|] == '.'
                          && '/' !in line[k + 1..]
                          && '.' !in line[k + 2 + |r|..]
  {
    match LastIndexOf(line, '/')
    case None =>
    case Some(k) =>
      var name := line[k + 1..];
      match LastIndexOf(name, '.')
      case None =>
        forall k', m | 0 <= k' < m < |line| && line[k'] == '/' && '/' !in line[k' + 1..]
          ensures line[m] != '.'
        {
          forall j | k' < j < |line| ensures line[j] != '/' {
            assert line[k' + 1..][j - k' - 1] == line[j];
          }
          assert line[m] == name[m - k - 1];
        }
      case Some(e) =>
        assert line[k] == '/' && line[k + 1 + e] == name[e];
        assert line[k + 1..k + 1 + e] == name[..e];
        assert forall j :: k + 2 + e <= j < |line| ==> line[j] == name[j - k - 1];
  }

  /** What the loop remembers between lines: `current_title`, `current_index`, `total_count`. */
  datatype Tracker = Tracker(title: Option<string>, index: Option<nat>, count: Option<nat>)

  const Start := Tracker(None, None, None)

  /** The `DownloadProgress` record sent to the frontend. */
  datatype Progress = Progress(id: string, percent: string, speed: string, eta: string, status: string,
                               title: Option<string>, playlistIndex: Option<nat>, playlistCount: Option<nat>)

  /** The record sent when yt-dlp exits with code 0: 100 percent, no speed or eta, and
      the last title and playlist position seen. */
  function Finished(id: string, t: Tracker): Progress
  {
    Progress(id, "100", "", "", "finished", t.title, t.index, t.count)
  }

  datatype Observed = Observed(tracker: Tracker, record: Option<Progress>)

  /** Whether a line carries an output path the title is taken from; the sidecar loop
      also reads `[ExtractAudio]` lines, the tokio loop does not. */
  predicate NamesFile(line: string, extractAudio: bool)
  {
    Contains(line, "[download] Destination:") || (extractAudio && Contains(line, "[ExtractAudio]"))
  }

  /** One stdout line: update the playlist position, then the title, then emit a
      `downloading` record when the line is a progress line. */
  function ObserveLine(id: string, t: Tracker, line: string, extractAudio: bool): Observed
  {
    var t1 := match ItemNumbers(line)
              case Some(n) => t.(index := n.0, count := n.1)
              case None => t;
    var title := TitleFromLine(line);
    var t2 := if NamesFile(line, extractAudio) && title.Some? then t1.(title := title) else t1;
    match ParseProgress(line)
    case None => Observed(t2, None)
    case Some(p) =>
      var t3 := t2.(index := if p.playlistIndex.Some? then p.playlistIndex else t2.index,
                    count := if p.playlistCount.Some? then p.playlistCount else t2.count);
      Observed(t3, Some(Progress(id, p.percent, p.speed, p.eta, "downloading", t3.title, t3.index, t3.count)))
  }

  /** A record is emitted exactly for progress lines, with the line's percent, speed
      and eta and the tracker's new state; the title changes only on a line that names
      a file, and the playlist position only on a line that reports one, to the
      numbers that line reports. */
  lemma ObserveLineSpec(id: string, t: Tracker, line: string, extractAudio: bool)
    ensures var o := ObserveLine(id, t, line, extractAudio);
            (o.record.Some? <==> ParseProgress(line).Some?)
            && (o.record.Some? ==> o.record.value.status == "downloading" && o.record.value.id == id
                                   && o.record.value.title == o.tracker.title
                                   && o.record.value.playlistIndex == o.tracker.index
                                   && o.record.value.playlistCount == o.tracker.count)
            && (o.record.Some? ==> var q := ParseProgress(line).value;
                                   o.record.value.percent == q.percent && o.record.value.speed == q.speed
                                   && o.record.value.eta == q.eta)
            && (!NamesFile(line, extractAudio) || TitleFromLine(line).None? ==> o.tracker.title == t.title)
            && (NamesFile(line, extractAudio) && TitleFromLine(line).Some? ==> o.tracker.title == TitleFromLine(line))
            && (ItemNumbers(line).Some? ==> o.tracker.index == ItemNumbers(line).value.0
                                            && o.tracker.count == ItemNumbers(line).value.1)
            && (ItemNumbers(line).None? ==> o.tracker.index == t.index && o.tracker.count == t.count)
  {
  }

  function Emit(r: Option<Progress>): seq<Progress>
  {
    if r.Some? then [r.value] else []
  }

  predicate AllDownloading(rs: seq<Progress>)
  {
    forall k :: 0 <= k < |rs| ==> rs[k].status == "downloading"
  }

  /** The records a run of stdout lines produces, one per progress line, in order. */
  function LineRecords(id: string, t: Tracker, lines: seq<string>, extractAudio: bool): (rs: seq<Progress>)
    ensures |rs| <= |lines|
    ensures AllDownloading(rs)
    ensures forall k :: 0 <= k < |rs| ==> rs[k].id == id
    decreases |lines|
  {
    if lines == [] then []
    else
      var o := ObserveLine(id, t, lines[0], extractAudio);
      Emit(o.record) + LineRecords(id, o.tracker, lines[1..], extractAudio)
  }

  /** The tracker after a run of stdout lines. */
  function TrackerAfter(t: Tracker, lines: seq<string>, extractAudio: bool): Tracker
    decreases |lines|
  {
    if lines == [] then t
    else TrackerAfter(ObserveLine("", t, lines[0], extractAudio).tracker, lines[1..], extractAudio)
  }

  /** What a run reports: the records emitted in order, and the command's result. */
  datatype Outcome = Outcome(emitted: seq<Progress>, result: Result<(), string>)

  function Prepend(rs: seq<Progress>, o: Outcome): Outcome
  {
    Outcome(rs + o.emitted, o.result)
  }

  /** The end of a run once yt-dlp has exited and the cancel flag has been read again. */
  function ExitOutcome(id: string, t: Tracker, code: Option<int>, cancelled: bool): Outcome
  {
    if cancelled then Outcome([], Err("Download cancelled"))
    else if code == Some(0) then Outcome([Finished(id, t)], Ok(()))
    else Outcome([], Err("Download failed"))
  }

  // ----- sidecar loop (download_video) -----

  datatype CommandEvent =
    | Stdout(line: string)
    | Stderr(line: string)
    | ProcessError(message: string)
      /** `cancelledOnExit` is the cancel flag as read again when handling the exit. */
    | Terminated(code: Option<int>, cancelledOnExit: bool)
    | OtherEvent

  /** An event taken off the sidecar channel, with the cancel flag as read right after. */
  datatype Received = Received(cancelled: bool, event: CommandEvent)

  /** Whether the loop returns on this event instead of waiting for the next one. */
  predicate Stops(r: Received)
  {
    r.cancelled || r.event.ProcessError? || r.event.Terminated?
  }

  /** The result of the event the loop returns on. */
  function StopOutcome(id: string, t: Tracker, r: Received): Outcome
  {
    if r.cancelled then Outcome([], Err("Download cancelled"))
    else match r.event
      case ProcessError(m) => Outcome([], Err("Process error: " + m))
      case Terminated(code, c) => ExitOutcome(id, t, code, c)
      case _ => Outcome([], Ok(()))
  }

  /** The loop over the events the child process delivers, for either variant: the
      sidecar loop reads titles from `[ExtractAudio]` lines too (`extractAudio`), the
      tokio loop does not. Running out of events (the channel closing without
      `Terminated`) ends the loop with `Ok`. */
  function RunEvents(id: string, t: Tracker, events: seq<Received>, extractAudio: bool): Outcome
    decreases |events|
  {
    if events == [] then Outcome([], Ok(()))
    else if events[0].cancelled then Outcome([], Err("Download cancelled"))
    else match events[0].event
      case Stdout(line) =>
        var o := ObserveLine(id, t, line, extractAudio);
        Prepend(Emit(o.record), RunEvents(id, o.tracker, events[1..], extractAudio))
      case Stderr(_) => RunEvents(id, t, events[1..], extractAudio)
      case ProcessError(m) => Outcome([], Err("Process error: " + m))
      case Terminated(code, c) => ExitOutcome(id, t, code, c)
      case OtherEvent => RunEvents(id, t, events[1..], extractAudio)
  }

  /** The lines of the stdout events, in order. */
  function StdoutLines(events: seq<Received>): (lines: seq<string>)
    ensures |lines| <= |events|
    decreases |events|
  {
    if events == [] then []
    else (if events[0].event.Stdout? then [events[0].event.line] else []) + StdoutLines(events[1..])
  }

  /** The index of the first event the loop returns on. */
  function FirstStop(events: seq<Received>): (k: Option<nat>)
    ensures k.Some? ==> k.value < |events| && Stops(events[k.value])
                        && forall j :: 0 <= j < k.value ==> !Stops(events[j])
    ensures k.None? ==> forall j :: 0 <= j < |events| ==> !Stops(events[j])
    decreases |events|
  {
    if events == [] then None
    else if Stops(events[0]) then Some(0)
    else match FirstStop(events[1..])
      case Some(k) => Some(k + 1)
      case None => None
  }

  /** A run is the progress records of the stdout lines before the first
      stopping event, followed by that event's result (or `Ok` if there is none). */
  lemma RunEventsDecomposes(id: string, t: Tracker, events: seq<Received>, extractAudio: bool)
    ensures FirstStop(events).None? ==>
              RunEvents(id, t, events, extractAudio) == Outcome(LineRecords(id, t, StdoutLines(events), extractAudio), Ok(()))
    ensures FirstStop(events).Some? ==>
              var k := FirstStop(events).value;
              var before := StdoutLines(events[..k]);
              RunEvents(id, t, events, extractAudio)
              == Prepend(LineRecords(id, t, before, extractAudio), StopOutcome(id, TrackerAfter(t, before, extractAudio), events[k]))
  {
    match FirstStop(events)
    case None => RunEventsNoStop(id, t, events, extractAudio);
    case Some(k) => RunEventsStopsAt(id, t, events, extractAudio, k);
  }

  lemma {:induction false} RunEventsNoStop(id: string, t: Tracker, events: seq<Received>, extractAudio: bool)
    requires forall j :: 0 <= j < |events| ==> !Stops(events[j])
    ensures RunEvents(id, t, events, extractAudio) == Outcome(LineRecords(id, t, StdoutLines(events), extractAudio), Ok(()))
    decreases |events|
  {
    if events != [] {
      var rest := events[1..];
      forall j | 0 <= j < |rest| ensures !Stops(rest[j]) {
        assert rest[j] == events[j + 1];
      }
      if events[0].event.Stdout? {
        var line := events[0].event.line;
        var o := ObserveLine(id, t, line, extractAudio);
        RunEventsNoStop(id, o.tracker, rest, extractAudio);
        assert StdoutLines(events) == [line] + StdoutLines(rest);
        LineRecordsCons(id, t, line, StdoutLines(rest), extractAudio);
      } else {
        RunEventsNoStop(id, t, rest, extractAudio);
        assert StdoutLines(events) == StdoutLines(rest);
      }
    }
  }

  lemma {:induction false} RunEventsStopsAt(id: string, t: Tracker, events: seq<Received>, extractAudio: bool, k: nat)
    requires k < |events| && Stops(events[k]) && forall j :: 0 <= j < k ==> !Stops(events[j])
    ensures var before := StdoutLines(events[..k]);
            RunEvents(id, t, events, extractAudio)
            == Prepend(LineRecords(id, t, before, extractAudio), StopOutcome(id, TrackerAfter(t, before, extractAudio), events[k]))
    decreases k
  {
    if k == 0 {
      assert StdoutLines(events[..0]) == [];
      assert RunEvents(id, t, events, extractAudio) == StopOutcome(id, t, events[0]);
    } else {
      var rest := events[1..];
      assert events[..k][1..] == rest[..k - 1];
      assert rest[k - 1] == events[k];
      if events[0].event.Stdout? {
        var line := events[0].event.line;
        var o := ObserveLine(id, t, line, extractAudio);
        var before' := StdoutLines(rest[..k - 1]);
        var lr := LineRecords(id, o.tracker, before', extractAudio);
        var so := StopOutcome(id, TrackerAfter(o.tracker, before', extractAudio), events[k]);
        RunEventsStopsAt(id, o.tracker, rest, extractAudio, k - 1);
        assert StdoutLines(events[..k]) == [line] + before';
        LineRecordsCons(id, t, line, before', extractAudio);
        calc {
          RunEvents(id, t, events, extractAudio);
          Prepend(Emit(o.record), RunEvents(id, o.tracker, rest, extractAudio));
          Prepend(Emit(o.record), Prepend(lr, so));
          { PrependAssoc(Emit(o.record), lr, so); }
          Prepend(Emit(o.record) + lr, so);
        }
      } else {
        RunEventsStopsAt(id, t, rest, extractAudio, k - 1);
        assert RunEvents(id, t, events, extractAudio) == RunEvents(id, t, rest, extractAudio);
        assert StdoutLines(events[..k]) == StdoutLines(rest[..k - 1]);
      }
    }
  }

  lemma PrependAssoc(a: seq<Progress>, b: seq<Progress>, o: Outcome)
    ensures Prepend(a, Prepend(b, o)) == Prepend(a + b, o)
  {
    assert a + (b + o.emitted) == (a + b) + o.emitted;
  }

  lemma LineRecordsCons(id: string, t: Tracker, line: string, rest: seq<string>, extractAudio: bool)
    ensures var o := ObserveLine(id, t, line, extractAudio);
            LineRecords(id, t, [line] + rest, extractAudio) == Emit(o.record) + LineRecords(id, o.tracker, rest, extractAudio)
            && TrackerAfter(t, [line] + rest, extractAudio) == TrackerAfter(o.tracker, rest, extractAudio)
  {
    assert ([line] + rest)[1..] == rest;
    assert ObserveLine("", t, line, extractAudio).tracker == ObserveLine(id, t, line, extractAudio).tracker;
  }

  /** A channel that closes before any stopping event gives `Ok` and no `finished` record. */
  lemma RunClosedChannel(id: string, events: seq<Received>, extractAudio: bool)
    requires FirstStop(events).None?
    ensures RunEvents(id, Start, events, extractAudio).result == Ok(())
    ensures AllDownloading(RunEvents(id, Start, events, extractAudio).emitted)
  {
    RunEventsDecomposes(id, Start, events, extractAudio);
  }

  /** A set cancel flag, read on receiving an event or on handling the exit, ends the
      run with `Download cancelled` and no `finished` record. */
  lemma RunCancelled(id: string, events: seq<Received>, extractAudio: bool, k: nat)
    requires FirstStop(events) == Some(k)
    requires events[k].cancelled || (events[k].event.Terminated? && events[k].event.cancelledOnExit)
    ensures RunEvents(id, Start, events, extractAudio).result == Err("Download cancelled")
    ensures AllDownloading(RunEvents(id, Start, events, extractAudio).emitted)
  {
    RunEventsDecomposes(id, Start, events, extractAudio);
  }

  /** A process error ends the run with its message and no `finished` record. */
  lemma RunProcessError(id: string, events: seq<Received>, extractAudio: bool, k: nat)
    requires FirstStop(events) == Some(k)
    requires !events[k].cancelled && events[k].event.ProcessError?
    ensures RunEvents(id, Start, events, extractAudio).result == Err("Process error: " + events[k].event.message)
    ensures AllDownloading(RunEvents(id, Start, events, extractAudio).emitted)
  {
    RunEventsDecomposes(id, Start, events, extractAudio);
  }

  /** Exit code 0 without cancellation gives `Ok` and exactly one `finished` record,
      the last one, carrying the title and playlist position last seen. */
  lemma RunSucceeded(id: string, events: seq<Received>, extractAudio: bool, k: nat)
    requires FirstStop(events) == Some(k)
    requires !events[k].cancelled && events[k].event == Terminated(Some(0), false)
    ensures var o := RunEvents(id, Start, events, extractAudio);
            o.result == Ok(()) && |o.emitted| >= 1
            && AllDownloading(o.emitted[..|o.emitted| - 1])
            && o.emitted[|o.emitted| - 1] == Finished(id, TrackerAfter(Start, StdoutLines(events[..k]), extractAudio))
  {
    RunEventsDecomposes(id, Start, events, extractAudio);
    var o := RunEvents(id, Start, events, extractAudio);
    assert o.emitted[..|o.emitted| - 1] == LineRecords(id, Start, StdoutLines(events[..k]), extractAudio);
  }

  /** Any other exit status without cancellation gives `Download failed`. */
  lemma RunFailed(id: string, events: seq<Received>, extractAudio: bool, k: nat)
    requires FirstStop(events) == Some(k)
    requires !events[k].cancelled && events[k].event.Terminated?
    requires !events[k].event.cancelledOnExit && events[k].event.code != Some(0)
    ensures RunEvents(id, Start, events, extractAudio).result == Err("Download failed")
    ensures AllDownloading(RunEvents(id, Start, events, extractAudio).emitted)
  {
    RunEventsDecomposes(id, Start, events, extractAudio);
  }

  /** A line that mentions no `[ExtractAudio]` is handled the same way by both loops. */
  lemma ObserveLineIgnoresFlag(id: string, t: Tracker, line: string)
    requires !Contains(line, "[ExtractAudio]")
    ensures ObserveLine(id, t, line, true) == ObserveLine(id, t, line, false)
  {
    assert NamesFile(line, true) == NamesFile(line, false);
  }

  /** The two loops differ only in reading titles from `[ExtractAudio]` lines. */
  lemma {:induction false} RunEventsWithoutExtractAudio(id: string, t: Tracker, events: seq<Received>)
    requires forall k :: 0 <= k < |events| && events[k].event.Stdout? ==>
               !Contains(events[k].event.line, "[ExtractAudio]")
    ensures RunEvents(id, t, events, true) == RunEvents(id, t, events, false)
    decreases |events|
  {
    if events != [] && !events[0].cancelled {
      forall k | 0 <= k < |events[1..]| && events[1..][k].event.Stdout?
        ensures !Contains(events[1..][k].event.line, "[ExtractAudio]")
      {
        assert events[1..][k] == events[k + 1];
      }
      match events[0].event
      case Stdout(line) =>
        ObserveLineIgnoresFlag(id, t, line);
        RunEventsWithoutExtractAudio(id, ObserveLine(id, t, line, true).tracker, events[1..]);
      case Stderr(_) => RunEventsWithoutExtractAudio(id, t, events[1..]);
      case OtherEvent => RunEventsWithoutExtractAudio(id, t, events[1..]);
      case ProcessError(_) =>
      case Terminated(_, _) =>
    }
  }

  /** The sidecar loop of `download_video`, over the events the channel delivers. */
  method HandleSidecarEvents(id: string, events: seq<Received>) returns (emitted: seq<Progress>, result: Result<(), string>)
    ensures Outcome(emitted, result) == RunEvents(id, Start, events, true)
  {
    var tracker := Start;
    emitted := [];
    var i := 0;
    while i < |events|
      invariant 0 <= i <= |events|
      invariant Prepend(emitted, RunEvents(id, tracker, events[i..], true)) == RunEvents(id, Start, events, true)
    {
      assert events[i..][0] == events[i] && events[i..][1..] == events[i + 1..];
      var received := events[i];
      if received.cancelled {
        return emitted, Err("Download cancelled");
      }
      match received.event {
        case Stdout(line) =>
          var o := ObserveLine(id, tracker, line, true);
          PrependAssoc(emitted, Emit(o.record), RunEvents(id, o.tracker, events[i + 1..], true));
          tracker := o.tracker;
          emitted := emitted + Emit(o.record);
        case Stderr(_) =>
        case ProcessError(message) =>
          return emitted, Err("Process error: " + message);
        case Terminated(code, cancelledOnExit) =>
          if cancelledOnExit {
            return emitted, Err("Download cancelled");
          }
          if code == Some(0) {
            emitted := emitted + [Finished(id, tracker)];
            return emitted, Ok(());
          } else {
            return emitted, Err("Download failed");
          }
        case OtherEvent =>
      }
      i := i + 1;
    }
    result := Ok(());
  }

  // ----- tokio loop (handle_tokio_download) -----

  /** A stdout line of the system yt-dlp, with the cancel flag as read right after. */
  datatype Line = Line(cancelled: bool, text: string)

  /** What waiting for the child process gives once its stdout has ended. */
  datatype WaitResult = WaitFailed(message: string) | Exited(code: Option<int>)

  /** `handle_tokio_download`: the stdout lines, then the wait result and the cancel
      flag as read after waiting. */
  function TokioRun(id: string, t: Tracker, lines: seq<Line>, wait: WaitResult, cancelledAfterWait: bool): Outcome
    decreases |lines|
  {
    if lines == [] then
      match wait
      case WaitFailed(m) => Outcome([], Err("Process error: " + m))
      case Exited(code) => ExitOutcome(id, t, code, cancelledAfterWait)
    else if lines[0].cancelled then Outcome([], Err("Download cancelled"))
    else
      var o := ObserveLine(id, t, lines[0].text, false);
      Prepend(Emit(o.record), TokioRun(id, o.tracker, lines[1..], wait, cancelledAfterWait))
  }

  /** The tokio variant as a stream of events: each line a stdout event, then the end
      of the process as an error or a termination. */
  function AsEvents(lines: seq<Line>, wait: WaitResult, cancelledAfterWait: bool): (events: seq<Received>)
    ensures |events| == |lines| + 1
    ensures forall k :: 0 <= k < |lines| ==> events[k] == Received(lines[k].cancelled, Stdout(lines[k].text))
  {
    Lines(lines) + [match wait
                    case WaitFailed(m) => Received(false, ProcessError(m))
                    case Exited(code) => Received(false, Terminated(code, cancelledAfterWait))]
  }

  function Lines(lines: seq<Line>): (events: seq<Received>)
    ensures |events| == |lines|
    ensures forall k :: 0 <= k < |lines| ==> events[k] == Received(lines[k].cancelled, Stdout(lines[k].text))
  {
    if lines == [] then [] else [Received(lines[0].cancelled, Stdout(lines[0].text))] + Lines(lines[1..])
  }

  /** The tokio loop behaves as the event loop without `[ExtractAudio]` titles, so every
      property of `RunEvents` holds of it as well. */
  lemma {:induction false} TokioRunAsEvents(id: string, t: Tracker, lines: seq<Line>, wait: WaitResult, cancelledAfterWait: bool)
    ensures TokioRun(id, t, lines, wait, cancelledAfterWait)
         == RunEvents(id, t, AsEvents(lines, wait, cancelledAfterWait), false)
    decreases |lines|
  {
    var events := AsEvents(lines, wait, cancelledAfterWait);
    if lines != [] {
      assert events[1..] == AsEvents(lines[1..], wait, cancelledAfterWait);
      TokioRunAsEvents(id, ObserveLine(id, t, lines[0].text, false).tracker, lines[1..], wait, cancelledAfterWait);
    }
  }

  /** One uncancelled line of the tokio loop. */
  lemma TokioStep(id: string, t: Tracker, lines: seq<Line>, i: nat, wait: WaitResult, cancelledAfterWait: bool)
    requires i < |lines| && !lines[i].cancelled
    ensures var o := ObserveLine(id, t, lines[i].text, false);
            TokioRun(id, t, lines[i..], wait, cancelledAfterWait)
            == Prepend(Emit(o.record), TokioRun(id, o.tracker, lines[i + 1..], wait, cancelledAfterWait))
  {
    assert lines[i..][1..] == lines[i + 1..];
  }

  /** The end of `handle_tokio_download`, once stdout has ended: wait for the process,
      read the cancel flag once more, and report the exit status. */
  method AfterStdoutEnds(id: string, t: Tracker, wait: WaitResult, cancelledAfterWait: bool)
    returns (emitted: seq<Progress>, result: Result<(), string>)
    ensures Outcome(emitted, result) == TokioRun(id, t, [], wait, cancelledAfterWait)
  {
    emitted := [];
    match wait {
      case WaitFailed(message) =>
        return [], Err("Process error: " + message);
      case Exited(code) =>
        if cancelledAfterWait {
          return [], Err("Download cancelled");
        }
        if code == Some(0) {
          emitted := [Finished(id, t)];
          result := Ok(());
        } else {
          result := Err("Download failed");
        }
    }
  }

  method HandleTokioDownload(id: string, lines: seq<Line>, wait: WaitResult, cancelledAfterWait: bool)
    returns (emitted: seq<Progress>, result: Result<(), string>)
    ensures Outcome(emitted, result) == TokioRun(id, Start, lines, wait, cancelledAfterWait)
  {
    var tracker := Start;
    emitted := [];
    var i := 0;
    while i < |lines|
      invariant 0 <= i <= |lines|
      invariant Prepend(emitted, TokioRun(id, tracker, lines[i..], wait, cancelledAfterWait))
                == TokioRun(id, Start, lines, wait, cancelledAfterWait)
    {
      if lines[i].cancelled {
        assert lines[i..][0] == lines[i];
        return emitted, Err("Download cancelled");
      }
      var o := ObserveLine(id, tracker, lines[i].text, false);
      TokioStep(id, tracker, lines, i, wait, cancelledAfterWait);
      PrependAssoc(emitted, Emit(o.record), TokioRun(id, o.tracker, lines[i + 1..], wait, cancelledAfterWait));
      tracker := o.tracker;
      emitted := emitted + Emit(o.record);
      i := i + 1;
    }
    assert lines[i..] == [];
    var tail;
    tail, result := AfterStdoutEnds(id, tracker, wait, cancelledAfterWait);
    emitted := emitted + tail;
  }

  // The yt-dlp command line for one download.

  /** Output template: the file is named after the video title and its extension, inside
      the chosen folder. */
  function OutputTemplate(outputPath: string): (r: string)
    ensures StartsWith(r, outputPath) && EndsWith(r, "/%(title)s.%(ext)s") && |r| == |outputPath| + 18
  {
    outputPath + "/%(title)s.%(ext)s"
  }

  /** The argument vector is built by pushing onto a growing vector: the five fixed
      leading arguments, `--no-playlist` unless the playlist is wanted, either a merge
      format (video) or the audio extraction flags (mp3), and the URL last. */
  method BuildDownloadArgs(url: string, outputPath: string, quality: string, format: string, downloadPlaylist: bool)
    returns (args: seq<string>)
    ensures var m := if downloadPlaylist then 5 else 6;
            |args| == m + (if format == "mp3" then 4 else 3)
            && args[..5] == ["--newline", "-f", BuildFormatString(quality, format), "-o", OutputTemplate(outputPath)]
            && (args[5] == "--no-playlist" <==> !downloadPlaylist)
            && (format != "mp3" ==> args[m..m + 2] == ["--merge-output-format", format])
            && (format == "mp3" ==> args[m..m + 3] == ["-x", "--audio-format", "mp3"])
            && args[|args| - 1] == url
  {
    args := ["--newline", "-f", BuildFormatString(quality, format), "-o", OutputTemplate(outputPath)];
    if !downloadPlaylist {
      args := args + ["--no-playlist"];
    }
    if format != "mp3" {
      args := args + ["--merge-output-format", format];
    }
    if format == "mp3" {
      args := args + ["-x", "--audio-format", "mp3"];
    }
    args := args + [url];
  }
}
