/** Formatting helpers of the backend (src-tauri/src/utils/format.rs): the newer,
    three-argument yt-dlp format selector, which adds codec preferences and the 2k/4k/8k
    heights, and the unit choice of the human-readable file size. */
module FormatUtils {
  import opened Text
  import opened Selectors

  // ---------------------------------------------------------------------------
  // Format selector (three-argument variant)
  // ---------------------------------------------------------------------------

  /** Audio quality, or an audio container, selects an audio-only chain. */
  predicate AudioBranch(quality: string, format: string)
  {
    quality == "audio" || format == "mp3" || format == "m4a" || format == "opus"
  }

  /** The pixel height a quality stands for; `best` and other names map to none. */
  function HeightFor(quality: string): Option<string>
  {
    if quality == "8k" then Some("4320")
    else if quality == "4k" then Some("2160")
    else if quality == "2k" then Some("1440")
    else if quality == "1080" || quality == "720" || quality == "480" || quality == "360" then Some(quality)
    else None
  }

  predicate IsHighRes(quality: string)
  {
    quality == "8k" || quality == "4k" || quality == "2k"
  }

  /** The codec filter text, exactly as the backend spells it; empty for `auto` and
      every other codec name. High resolutions always prefer VP9. */
  function CodecFilterText(quality: string, codec: string): string
  {
    if IsHighRes(quality) then "[vcodec^=vp9]"
    else if codec == "h264" then "[vcodec^=avc]"
    else if codec == "vp9" then "[vcodec^=vp9]"
    else if codec == "av1" then "[vcodec^=av01]"
    else ""
  }

  /** The same codec preference as a structured filter. */
  function CodecFilter(quality: string, codec: string): Option<Filter>
  {
    if IsHighRes(quality) then Some(CodecPrefix("vp9"))
    else if codec == "h264" then Some(CodecPrefix("avc"))
    else if codec == "vp9" then Some(CodecPrefix("vp9"))
    else if codec == "av1" then Some(CodecPrefix("av01"))
    else None
  }

  /** The structured filter renders to the backend's filter text, and there is one
      exactly when that text is non-empty. */
  lemma CodecFilterRenders(quality: string, codec: string)
    ensures CodecFilter(quality, codec).None? <==> CodecFilterText(quality, codec) == ""
    ensures CodecFilter(quality, codec).Some? ==> RenderFilter(CodecFilter(quality, codec).value) == CodecFilterText(quality, codec)
  {
    FuseCodec("vp9");
    FuseCodec("avc");
    FuseCodec("av01");
  }

  lemma FuseCodec(p: string)
    requires p == "vp9" || p == "avc" || p == "av01"
    ensures "[vcodec^=" + p + "]" == if p == "vp9" then "[vcodec^=vp9]" else if p == "avc" then "[vcodec^=avc]" else "[vcodec^=av01]"
  {
  }

  function AudioSelector(format: string): Selector
  {
    if format == "mp3" then [[Stream("bestaudio", [])], BestAlternative]
    else if format == "m4a" then [[Stream("bestaudio", [Ext("m4a")])], [Stream("bestaudio", [])], BestAlternative]
    else if format == "opus" then [[Stream("bestaudio", [Ext("webm")])], [Stream("bestaudio", [])], BestAlternative]
    else [[Stream("bestaudio", [Ext("m4a")])], [Stream("bestaudio", [])], BestAlternative]
  }

  /** The chain for a quality with no known height: VP9 video with audio, then any
      video with audio, then `best`. */
  const UnmappedSelector: Selector :=
    [[Stream("bestvideo", [CodecPrefix("vp9")]), Stream("bestaudio", [])],
     [Stream("bestvideo", []), Stream("bestaudio", [])],
     BestAlternative]

  /** 2k/4k/8k: capped VP9 video with audio, then the plain capped chain. */
  function HighResSelector(h: string): Selector
  {
    [[Stream("bestvideo", [MaxHeight(h), CodecPrefix("vp9")]), Stream("bestaudio", [])],
     [Stream("bestvideo", [MaxHeight(h)]), Stream("bestaudio", [])],
     [Stream("best", [MaxHeight(h)])],
     BestAlternative]
  }

  /** mp4 with a codec preference: capped mp4 video of that codec with m4a audio, then
      capped video of that codec with any audio, then the plain capped mp4 chain. */
  function Mp4CodecSelector(h: string, f: Filter): Selector
  {
    [[Stream("bestvideo", [MaxHeight(h), f, Ext("mp4")]), Stream("bestaudio", [Ext("m4a")])],
     [Stream("bestvideo", [MaxHeight(h), f]), Stream("bestaudio", [])],
     [Stream("bestvideo", [MaxHeight(h), Ext("mp4")]), Stream("bestaudio", [Ext("m4a")])],
     [Stream("bestvideo", [MaxHeight(h)]), Stream("bestaudio", [])],
     [Stream("best", [MaxHeight(h)])],
     BestAlternative]
  }

  /** Another container with a codec preference: capped video of that codec with
      audio, then the plain capped chain. */
  function CodecSelector(h: string, f: Filter): Selector
  {
    [[Stream("bestvideo", [MaxHeight(h), f]), Stream("bestaudio", [])],
     [Stream("bestvideo", [MaxHeight(h)]), Stream("bestaudio", [])],
     [Stream("best", [MaxHeight(h)])],
     BestAlternative]
  }

  function FormatSelector(quality: string, format: string, codec: string): Selector
  {
    if AudioBranch(quality, format) then AudioSelector(format)
    else if format == "mp4" then
      match HeightFor(quality)
      case Some(h) =>
        if IsHighRes(quality) then HighResSelector(h)
        else (match CodecFilter(quality, codec)
              case Some(f) => Mp4CodecSelector(h, f)
              case None => CappedMp4Chain(h))
      case None => UnmappedSelector
    else
      match HeightFor(quality)
      case Some(h) =>
        if IsHighRes(quality) then HighResSelector(h)
        else (match CodecFilter(quality, codec)
              case Some(f) => CodecSelector(h, f)
              case None => CappedChain(h))
      case None => UnmappedSelector
  }

  /** `build_format_string(quality, format, video_codec)`. */
  function BuildFormatString(quality: string, format: string, codec: string): string
  {
    Render(FormatSelector(quality, format, codec))
  }

  // Properties of the structured selector.

  /** Every selector falls back to plain `best` as its last alternative. */
  lemma FormatSelectorEndsWithBest(quality: string, format: string, codec: string)
    ensures EndsWithBest(FormatSelector(quality, format, codec))
    ensures EndsWith(BuildFormatString(quality, format, codec), "/best")
  {
    RenderEndsWithBest(FormatSelector(quality, format, codec));
  }

  /** A `[height<=H]` cap occurs exactly when the quality has a known height and the
      audio branch was not taken, and H is that height (4320/2160/1440 for 8k/4k/2k). */
  lemma FormatSelectorHeights(quality: string, format: string, codec: string)
    ensures Heights(FormatSelector(quality, format, codec))
         == if !AudioBranch(quality, format) && HeightFor(quality).Some? then {HeightFor(quality).value} else {}
  {
    FormatSelectorSets(quality, format, codec);
  }

  /** The codec filters that occur: none for audio; VP9 for a quality with no height
      and for every high resolution whatever the codec asked for; otherwise exactly the
      filter the codec asks for (none for `auto` and unknown codecs). */
  lemma FormatSelectorCodecs(quality: string, format: string, codec: string)
    ensures Codecs(FormatSelector(quality, format, codec))
         == if AudioBranch(quality, format) then {}
            else if HeightFor(quality).None? || IsHighRes(quality) then {"vp9"}
            else if CodecFilter(quality, codec).Some? then {CodecFilter(quality, codec).value.prefix}
            else {}
  {
    FormatSelectorSets(quality, format, codec);
  }

  lemma FormatSelectorSets(quality: string, format: string, codec: string)
    ensures var sel := FormatSelector(quality, format, codec);
            Heights(sel) == (if !AudioBranch(quality, format) && HeightFor(quality).Some? then {HeightFor(quality).value} else {})
            && Codecs(sel) == if AudioBranch(quality, format) then {}
                              else if HeightFor(quality).None? || IsHighRes(quality) then {"vp9"}
                              else if CodecFilter(quality, codec).Some? then {CodecFilter(quality, codec).value.prefix}
                              else {}
  {
    if AudioBranch(quality, format) {
      AudioSets(format);
    } else if HeightFor(quality).None? {
      UnmappedSets();
    } else {
      var h := HeightFor(quality).value;
      if IsHighRes(quality) {
        HighResSets(h);
      } else if CodecFilter(quality, codec).Some? {
        if format == "mp4" {
          Mp4CodecSets(h, CodecFilter(quality, codec).value);
        } else {
          CodecSets(h, CodecFilter(quality, codec).value);
        }
      } else {
        CappedMp4ChainSets(h);
        CappedChainSets(h);
      }
    }
  }

  lemma AudioSets(format: string)
    ensures Heights(AudioSelector(format)) == {} && Codecs(AudioSelector(format)) == {}
  {
  }

  lemma UnmappedSets()
    ensures Heights(UnmappedSelector) == {} && Codecs(UnmappedSelector) == {"vp9"}
  {
    var sel: Selector := UnmappedSelector;
    assert sel[0][0].filters[0] == CodecPrefix("vp9");
  }

  lemma HighResSets(h: string)
    ensures Heights(HighResSelector(h)) == {h} && Codecs(HighResSelector(h)) == {"vp9"}
  {
    var sel: Selector := HighResSelector(h);
    assert sel[0][0].filters[0] == MaxHeight(h);
    assert sel[0][0].filters[1] == CodecPrefix("vp9");
  }

  lemma Mp4CodecSets(h: string, f: Filter)
    requires f.CodecPrefix?
    ensures Heights(Mp4CodecSelector(h, f)) == {h} && Codecs(Mp4CodecSelector(h, f)) == {f.prefix}
  {
    var sel: Selector := Mp4CodecSelector(h, f);
    assert sel[0][0].filters[0] == MaxHeight(h);
    assert sel[0][0].filters[1] == f;
  }

  lemma CodecSets(h: string, f: Filter)
    requires f.CodecPrefix?
    ensures Heights(CodecSelector(h, f)) == {h} && Codecs(CodecSelector(h, f)) == {f.prefix}
  {
    var sel: Selector := CodecSelector(h, f);
    assert sel[0][0].filters[0] == MaxHeight(h);
    assert sel[0][0].filters[1] == f;
  }

  /** Resolutions above 1080p ignore the requested codec and produce the same chain for
      mp4 and for every other video container. */
  lemma HighResIgnoresCodecAndContainer(quality: string, format1: string, codec1: string, format2: string, codec2: string)
    requires IsHighRes(quality) && !AudioBranch(quality, format1) && !AudioBranch(quality, format2)
    ensures FormatSelector(quality, format1, codec1) == FormatSelector(quality, format2, codec2)
  {
  }

  /** A quality with no known height yields the same chain for every format and codec
      outside the audio branch. */
  lemma UnmappedIgnoresFormatAndCodec(quality: string, format1: string, codec1: string, format2: string, codec2: string)
    requires HeightFor(quality).None? && !AudioBranch(quality, format1) && !AudioBranch(quality, format2)
    ensures FormatSelector(quality, format1, codec1) == FormatSelector(quality, format2, codec2)
  {
  }

  // The source's selector texts, one lemma per branch.

  lemma AudioSelectorText(quality: string, format: string, codec: string)
    requires AudioBranch(quality, format)
    ensures BuildFormatString(quality, format, codec)
         == if format == "mp3" then "bestaudio/best"
            else if format == "opus" then "bestaudio[ext=webm]/bestaudio/best"
            else "bestaudio[ext=m4a]/bestaudio/best"
  {
    if format == "mp3" {
      Mp3Text();
    } else if format == "opus" {
      ExtAudioText("webm");
      assert AudioSelector(format) == [[Stream("bestaudio", [Ext("webm")])], [Stream("bestaudio", [])], BestAlternative];
      FuseWebm();
    } else {
      ExtAudioText("m4a");
      assert AudioSelector(format) == [[Stream("bestaudio", [Ext("m4a")])], [Stream("bestaudio", [])], BestAlternative];
      FuseM4a();
    }
  }

  lemma Mp3Text()
    ensures Render(AudioSelector("mp3")) == "bestaudio/best"
  {
    var sel := AudioSelector("mp3");
    Render2(sel[0], sel[1]);
    assert RenderFilters([]) == "";
    assert "bestaudio" + "/" + "best" == "bestaudio/best";
  }

  /** An audio stream of one container, then any audio, then `best`. */
  lemma ExtAudioText(e: string)
    ensures Render([[Stream("bestaudio", [Ext(e)])], [Stream("bestaudio", [])], BestAlternative])
         == "bestaudio[ext=" + e + "]/bestaudio/best"
  {
    Render3([Stream("bestaudio", [Ext(e)])], [Stream("bestaudio", [])], BestAlternative);
    StreamText("bestaudio", e);
    assert RenderFilters([]) == "";
    GlueExtAudio(RenderAlternative([Stream("bestaudio", [Ext(e)])]), RenderAlternative([Stream("bestaudio", [])]),
                 RenderAlternative(BestAlternative), e);
  }

  lemma GlueExtAudio(ra: string, rb: string, rc: string, e: string)
    requires ra == "bestaudio" + "[ext=" + e + "]" && rb == "bestaudio" + "" && rc == "best"
    ensures ra + "/" + rb + "/" + rc == "bestaudio[ext=" + e + "]/bestaudio/best"
  {
    var head := "bestaudio[ext=";
    var tail := "]/bestaudio/best";
    assert "bestaudio" + "[ext=" == head;
    assert "]" + "/" + ("bestaudio" + "") + "/" + "best" == tail;
    assert ra == head + e + "]";
    assert ra + "/" + rb + "/" + rc == head + e + ("]" + "/" + rb + "/" + rc);
  }

  lemma FuseWebm()
    ensures "bestaudio[ext=" + "webm" + "]/bestaudio/best" == "bestaudio[ext=webm]/bestaudio/best"
  {
  }

  lemma FuseM4a()
    ensures "bestaudio[ext=" + "m4a" + "]/bestaudio/best" == "bestaudio[ext=m4a]/bestaudio/best"
  {
  }

  lemma UnmappedText(quality: string, format: string, codec: string)
    requires !AudioBranch(quality, format) && HeightFor(quality).None?
    ensures BuildFormatString(quality, format, codec) == "bestvideo[vcodec^=vp9]+bestaudio/bestvideo+bestaudio/best"
  {
    var sel := UnmappedSelector;
    Render3(sel[0], sel[1], sel[2]);
    assert RenderFilters([]) == "";
    RenderFilters1(CodecPrefix("vp9"));
    RenderAlternative2(sel[0][0], sel[0][1]);
    RenderAlternative2(sel[1][0], sel[1][1]);
    GlueUnmapped(RenderAlternative(sel[0]), RenderAlternative(sel[1]), RenderAlternative(sel[2]));
  }

  lemma GlueUnmapped(ra: string, rb: string, rc: string)
    requires ra == "bestvideo" + ("[vcodec^=" + "vp9" + "]") + "+" + ("bestaudio" + "")
    requires rb == "bestvideo" + "" + "+" + ("bestaudio" + "")
    requires rc == "best"
    ensures ra + "/" + rb + "/" + rc == "bestvideo[vcodec^=vp9]+bestaudio/bestvideo+bestaudio/best"
  {
    FuseUnmappedFirst();
    FuseUnmappedRest();
  }

  lemma FuseUnmappedFirst()
    ensures "bestvideo" + ("[vcodec^=" + "vp9" + "]") + "+" + ("bestaudio" + "") == "bestvideo[vcodec^=vp9]+bestaudio"
  {
  }

  lemma FuseUnmappedRest()
    ensures "bestvideo[vcodec^=vp9]+bestaudio" + "/" + ("bestvideo" + "" + "+" + ("bestaudio" + "")) + "/" + "best"
         == "bestvideo[vcodec^=vp9]+bestaudio/bestvideo+bestaudio/best"
  {
  }

  lemma HighResText(quality: string, format: string, codec: string)
    requires !AudioBranch(quality, format) && IsHighRes(quality)
    ensures var h := HeightFor(quality).value;
            BuildFormatString(quality, format, codec)
               == "bestvideo[height<=" + h + "][vcodec^=vp9]+bestaudio/bestvideo[height<=" + h
                  + "]+bestaudio/best[height<=" + h + "]/best"
  {
    var h := HeightFor(quality).value;
    CodecChainText(h, CodecPrefix("vp9"));
    FuseCodec("vp9");
    GlueHighRes(h, Render(CodecSelector(h, CodecPrefix("vp9"))));
  }

  lemma GlueHighRes(h: string, t: string)
    requires t == "bestvideo[height<=" + h + "]" + "[vcodec^=vp9]" + "+bestaudio/bestvideo[height<=" + h
                  + "]+bestaudio/best[height<=" + h + "]/best"
    ensures t == "bestvideo[height<=" + h + "][vcodec^=vp9]+bestaudio/bestvideo[height<=" + h
                 + "]+bestaudio/best[height<=" + h + "]/best"
  {
    FuseVp9();
  }

  lemma FuseVp9()
    ensures "]" + "[vcodec^=vp9]" + "+bestaudio/bestvideo[height<=" == "][vcodec^=vp9]+bestaudio/bestvideo[height<="
  {
    assert "]" + "[vcodec^=vp9]" == "][vcodec^=vp9]";
  }

  /** The chain with one codec-filtered alternative in front of the plain capped chain. */
  lemma CodecChainText(h: string, f: Filter)
    ensures Render(CodecSelector(h, f))
         == "bestvideo[height<=" + h + "]" + RenderFilter(f) + "+bestaudio/bestvideo[height<=" + h
            + "]+bestaudio/best[height<=" + h + "]/best"
  {
    var sel := CodecSelector(h, f);
    Render4(sel[0], sel[1], sel[2], sel[3]);
    FilteredVideoText(h, f);
    CappedVideoText(h);
    CappedBestText(h);
    assert RenderFilters([]) == "";
    GlueCodecChain(h, RenderFilter(f), RenderAlternative(sel[0]), RenderAlternative(sel[1]),
                   RenderAlternative(sel[2]), RenderAlternative(sel[3]));
  }

  lemma GlueCodecChain(h: string, cf: string, ra: string, rb: string, rc: string, rd: string)
    requires ra == "bestvideo[height<=" + h + "]" + cf + "+bestaudio"
    requires rb == "bestvideo[height<=" + h + "]+bestaudio"
    requires rc == "best[height<=" + h + "]"
    requires rd == "best"
    ensures ra + "/" + rb + "/" + rc + "/" + rd
         == "bestvideo[height<=" + h + "]" + cf + "+bestaudio/bestvideo[height<=" + h
            + "]+bestaudio/best[height<=" + h + "]/best"
  {
    GlueCappedChain(h, rb, rc, rd);
    FuseSlashVideo();
  }

  lemma FuseSlashVideo()
    ensures "+bestaudio" + "/" + "bestvideo[height<=" == "+bestaudio/bestvideo[height<="
  {
  }

  lemma CodecText(quality: string, format: string, codec: string)
    requires !AudioBranch(quality, format) && format != "mp4" && HeightFor(quality).Some? && !IsHighRes(quality)
    requires CodecFilterText(quality, codec) != ""
    ensures var h := HeightFor(quality).value;
            var cf := CodecFilterText(quality, codec);
            BuildFormatString(quality, format, codec)
               == "bestvideo[height<=" + h + "]" + cf + "+bestaudio/bestvideo[height<=" + h
                  + "]+bestaudio/best[height<=" + h + "]/best"
  {
    CodecFilterRenders(quality, codec);
    CodecChainText(HeightFor(quality).value, CodecFilter(quality, codec).value);
  }

  lemma PlainText(quality: string, format: string, codec: string)
    requires !AudioBranch(quality, format) && format != "mp4" && HeightFor(quality).Some? && !IsHighRes(quality)
    requires CodecFilterText(quality, codec) == ""
    ensures var h := HeightFor(quality).value;
            BuildFormatString(quality, format, codec)
               == "bestvideo[height<=" + h + "]+bestaudio/best[height<=" + h + "]/best"
  {
    CodecFilterRenders(quality, codec);
    CappedChainText(HeightFor(quality).value);
  }

  lemma Mp4PlainText(quality: string, codec: string)
    requires HeightFor(quality).Some? && !IsHighRes(quality) && CodecFilterText(quality, codec) == ""
    ensures var h := HeightFor(quality).value;
            BuildFormatString(quality, "mp4", codec)
               == "bestvideo[height<=" + h + "][ext=mp4]+bestaudio[ext=m4a]/bestvideo[height<=" + h
                  + "]+bestaudio/best[height<=" + h + "]/best"
  {
    CodecFilterRenders(quality, codec);
    CappedMp4ChainText(HeightFor(quality).value);
  }

  lemma Mp4CodecText(quality: string, codec: string)
    requires HeightFor(quality).Some? && !IsHighRes(quality) && CodecFilterText(quality, codec) != ""
    ensures var h := HeightFor(quality).value;
            var cf := CodecFilterText(quality, codec);
            BuildFormatString(quality, "mp4", codec)
               == "bestvideo[height<=" + h + "]" + cf + "[ext=mp4]+bestaudio[ext=m4a]/bestvideo[height<=" + h + "]" + cf
                  + "+bestaudio/bestvideo[height<=" + h + "][ext=mp4]+bestaudio[ext=m4a]/bestvideo[height<=" + h
                  + "]+bestaudio/best[height<=" + h + "]/best"
  {
    CodecFilterRenders(quality, codec);
    Mp4CodecChainText(HeightFor(quality).value, CodecFilter(quality, codec).value);
  }

  lemma Mp4CodecChainText(h: string, f: Filter)
    ensures Render(Mp4CodecSelector(h, f))
         == "bestvideo[height<=" + h + "]" + RenderFilter(f) + "[ext=mp4]+bestaudio[ext=m4a]/bestvideo[height<=" + h + "]"
            + RenderFilter(f) + "+bestaudio/bestvideo[height<=" + h + "][ext=mp4]+bestaudio[ext=m4a]/bestvideo[height<=" + h
            + "]+bestaudio/best[height<=" + h + "]/best"
  {
    var sel := Mp4CodecSelector(h, f);
    Render6(sel[0], sel[1], sel[2], sel[3], sel[4], sel[5]);
    FilteredVideoMp4Text(h, f);
    FilteredVideoText(h, f);
    CappedVideoMp4Text(h);
    CappedVideoText(h);
    CappedBestText(h);
    assert RenderFilters([]) == "";
    GlueMp4Codec(h, RenderFilter(f), RenderAlternative(sel[0]), RenderAlternative(sel[1]), RenderAlternative(sel[2]),
                 RenderAlternative(sel[3]), RenderAlternative(sel[4]), RenderAlternative(sel[5]));
  }

  lemma GlueMp4Codec(h: string, cf: string, ra: string, rb: string, rc: string, rd: string, re: string, rf: string)
    requires ra == "bestvideo[height<=" + h + "]" + cf + "[ext=mp4]+bestaudio[ext=m4a]"
    requires rb == "bestvideo[height<=" + h + "]" + cf + "+bestaudio"
    requires rc == "bestvideo[height<=" + h + "][ext=mp4]+bestaudio[ext=m4a]"
    requires rd == "bestvideo[height<=" + h + "]+bestaudio"
    requires re == "best[height<=" + h + "]"
    requires rf == "best"
    ensures ra + "/" + rb + "/" + rc + "/" + rd + "/" + re + "/" + rf
         == "bestvideo[height<=" + h + "]" + cf + "[ext=mp4]+bestaudio[ext=m4a]/bestvideo[height<=" + h + "]" + cf
            + "+bestaudio/bestvideo[height<=" + h + "][ext=mp4]+bestaudio[ext=m4a]/bestvideo[height<=" + h
            + "]+bestaudio/best[height<=" + h + "]/best"
  {
    GlueMp4CodecHead(h, cf, ra, rb);
    GlueMp4CodecTail(h, cf, ra + "/" + rb, rc, rd, re, rf);
  }

  lemma GlueMp4CodecHead(h: string, cf: string, ra: string, rb: string)
    requires ra == "bestvideo[height<=" + h + "]" + cf + "[ext=mp4]+bestaudio[ext=m4a]"
    requires rb == "bestvideo[height<=" + h + "]" + cf + "+bestaudio"
    ensures ra + "/" + rb == "bestvideo[height<=" + h + "]" + cf + "[ext=mp4]+bestaudio[ext=m4a]/bestvideo[height<=" + h + "]" + cf + "+bestaudio"
  {
    FuseSlashMp4Video();
  }

  lemma GlueMp4CodecTail(h: string, cf: string, head: string, rc: string, rd: string, re: string, rf: string)
    requires head == "bestvideo[height<=" + h + "]" + cf + "[ext=mp4]+bestaudio[ext=m4a]/bestvideo[height<=" + h + "]" + cf + "+bestaudio"
    requires rc == "bestvideo[height<=" + h + "][ext=mp4]+bestaudio[ext=m4a]"
    requires rd == "bestvideo[height<=" + h + "]+bestaudio"
    requires re == "best[height<=" + h + "]"
    requires rf == "best"
    ensures head + "/" + rc + "/" + rd + "/" + re + "/" + rf
         == "bestvideo[height<=" + h + "]" + cf + "[ext=mp4]+bestaudio[ext=m4a]/bestvideo[height<=" + h + "]" + cf
            + "+bestaudio/bestvideo[height<=" + h + "][ext=mp4]+bestaudio[ext=m4a]/bestvideo[height<=" + h
            + "]+bestaudio/best[height<=" + h + "]/best"
  {
    FuseSlashVideo();
    FuseSlashMp4();
    FuseSlashPair();
    FuseSlashBest();
  }

  lemma FuseSlashMp4Video()
    ensures "[ext=mp4]+bestaudio[ext=m4a]" + "/" + "bestvideo[height<=" == "[ext=mp4]+bestaudio[ext=m4a]/bestvideo[height<="
  {
  }

  // ---------------------------------------------------------------------------
  // File size
  // ---------------------------------------------------------------------------

  const KB: nat := 1024
  const MB: nat := KB * 1024
  const GB: nat := MB * 1024

  /** A size text: either the exact byte count, or `bytes / divisor` shown with two
      decimals and a unit name (the decimal rendering itself is not modelled). */
  datatype SizeText = Exact(text: string) | Scaled(bytes: nat, divisor: nat, unit: string)

  /** `format_size(bytes)`. */
  function FormatSize(bytes: nat): SizeText
  {
    if bytes >= GB then Scaled(bytes, GB, "GB")
    else if bytes >= MB then Scaled(bytes, MB, "MB")
    else if bytes >= KB then Scaled(bytes, KB, "KB")
    else Exact(DecimalString(bytes) + " B")
  }

  /** Below 1024 bytes the text is the exact count followed by ` B`; otherwise the unit
      is the largest of GB, MB and KB whose size does not exceed the byte count, so the
      shown number is at least 1 and, except for GB, below 1024. */
  lemma FormatSizeUnit(bytes: nat)
    ensures bytes < KB <==> FormatSize(bytes).Exact?
    ensures FormatSize(bytes).Exact? ==> FormatSize(bytes).text == DecimalString(bytes) + " B"
    ensures FormatSize(bytes).Scaled? ==>
              var r := FormatSize(bytes);
              r.bytes == bytes
              && ((r.divisor, r.unit) == (GB, "GB") || (r.divisor, r.unit) == (MB, "MB") || (r.divisor, r.unit) == (KB, "KB"))
              && r.divisor <= bytes
              && (r.unit == "GB" || bytes < r.divisor * KB)
  {
  }
}
