/** yt-dlp format selectors in structured form. A selector is a fallback chain of
    alternatives separated by '/'; an alternative merges streams with '+'; a stream is
    a base such as `bestvideo` followed by bracketed filters. Both format-string builders
    of the backend produce `Render` of such a structure, so their properties can be
    stated on the structure and their text recovered from it. */
module Selectors {
  import opened Text

  datatype Filter = MaxHeight(height: string) | Ext(ext: string) | CodecPrefix(prefix: string)

  datatype Stream = Stream(kind: string, filters: seq<Filter>)

  type Alternative = seq<Stream>

  type Selector = seq<Alternative>

  /** The last-resort alternative `best` that every selector of the backend ends with. */
  const BestAlternative: Alternative := [Stream("best", [])]

  function RenderFilter(f: Filter): string
  {
    match f
    case MaxHeight(h) => "[height<=" + h + "]"
    case Ext(e) => "[ext=" + e + "]"
    case CodecPrefix(p) => "[vcodec^=" + p + "]"
  }

  function RenderFilters(fs: seq<Filter>): string
  {
    if fs == [] then "" else RenderFilters(fs[..|fs| - 1]) + RenderFilter(fs[|fs| - 1])
  }

  function RenderStream(s: Stream): string
  {
    s.kind + RenderFilters(s.filters)
  }

  function RenderAlternative(a: Alternative): string
  {
    if |a| == 0 then ""
    else if |a| == 1 then RenderStream(a[0])
    else RenderAlternative(a[..|a| - 1]) + "+" + RenderStream(a[|a| - 1])
  }

  /** The selector text handed to yt-dlp's `-f` option. */
  function Render(sel: Selector): string
  {
    if |sel| == 0 then ""
    else if |sel| == 1 then RenderAlternative(sel[0])
    else Render(sel[..|sel| - 1]) + "/" + RenderAlternative(sel[|sel| - 1])
  }

  /** Every `[height<=H]` cap that occurs anywhere in the selector. */
  function Heights(sel: Selector): set<string>
  {
    set i, j, k | 0 <= i < |sel| && 0 <= j < |sel[i]| && 0 <= k < |sel[i][j].filters|
                  && sel[i][j].filters[k].MaxHeight? :: sel[i][j].filters[k].height
  }

  /** Every `[vcodec^=C]` prefix that occurs anywhere in the selector. */
  function Codecs(sel: Selector): set<string>
  {
    set i, j, k | 0 <= i < |sel| && 0 <= j < |sel[i]| && 0 <= k < |sel[i][j].filters|
                  && sel[i][j].filters[k].CodecPrefix? :: sel[i][j].filters[k].prefix
  }

  predicate EndsWithBest(sel: Selector)
  {
    |sel| >= 2 && sel[|sel| - 1] == BestAlternative
  }

  lemma RenderEndsWithBest(sel: Selector)
    requires EndsWithBest(sel)
    ensures EndsWith(Render(sel), "/best")
  {
    assert RenderFilters([]) == "";
    assert RenderAlternative(BestAlternative) == "best";
    assert "/" + "best" == "/best";
  }

  // Rendering of short displays, used to recover the source's literal selector texts.

  lemma RenderFilters1(f: Filter)
    ensures RenderFilters([f]) == RenderFilter(f)
  {
    assert [f][..0] == [];
  }

  lemma RenderFilters2(f: Filter, g: Filter)
    ensures RenderFilters([f, g]) == RenderFilter(f) + RenderFilter(g)
  {
    assert [f, g][..1] == [f];
    RenderFilters1(f);
  }

  lemma RenderFilters3(f: Filter, g: Filter, h: Filter)
    ensures RenderFilters([f, g, h]) == RenderFilter(f) + RenderFilter(g) + RenderFilter(h)
  {
    assert [f, g, h][..2] == [f, g];
    RenderFilters2(f, g);
  }

  lemma RenderAlternative2(s: Stream, t: Stream)
    ensures RenderAlternative([s, t]) == RenderStream(s) + "+" + RenderStream(t)
  {
    assert [s, t][..1] == [s];
  }

  lemma Render2(a: Alternative, b: Alternative)
    ensures Render([a, b]) == RenderAlternative(a) + "/" + RenderAlternative(b)
  {
    assert [a, b][..1] == [a];
  }

  lemma Render3(a: Alternative, b: Alternative, c: Alternative)
    ensures Render([a, b, c]) == RenderAlternative(a) + "/" + RenderAlternative(b) + "/" + RenderAlternative(c)
  {
    assert [a, b, c][..2] == [a, b];
    Render2(a, b);
  }

  lemma Render4(a: Alternative, b: Alternative, c: Alternative, d: Alternative)
    ensures Render([a, b, c, d])
         == RenderAlternative(a) + "/" + RenderAlternative(b) + "/" + RenderAlternative(c) + "/" + RenderAlternative(d)
  {
    assert [a, b, c, d][..3] == [a, b, c];
    Render3(a, b, c);
  }

  lemma Render6(a: Alternative, b: Alternative, c: Alternative, d: Alternative, e: Alternative, f: Alternative)
    ensures Render([a, b, c, d, e, f])
         == RenderAlternative(a) + "/" + RenderAlternative(b) + "/" + RenderAlternative(c) + "/"
            + RenderAlternative(d) + "/" + RenderAlternative(e) + "/" + RenderAlternative(f)
  {
    assert [a, b, c, d, e, f][..5] == [a, b, c, d, e];
    assert [a, b, c, d, e][..4] == [a, b, c, d];
    Render4(a, b, c, d);
  }

  // Texts of the alternatives the backend builds. Each literal fact is proved on its
  // own so that no proof has to take a long literal apart.

  /** `kind[ext=e]` for a stream with one extension filter. */
  lemma StreamText(kind: string, e: string)
    ensures RenderStream(Stream(kind, [Ext(e)])) == kind + "[ext=" + e + "]"
  {
    RenderFilters1(Ext(e));
  }

  lemma FuseOpen(kind: string)
    requires kind == "bestvideo" || kind == "best"
    ensures kind + "[height<=" == if kind == "best" then "best[height<=" else "bestvideo[height<="
  {
  }

  lemma FuseMp4Pair()
    ensures "]" + ("[ext=" + "mp4" + "]") + "+" + ("bestaudio" + "[ext=" + "m4a" + "]") == "][ext=mp4]+bestaudio[ext=m4a]"
  {
  }

  lemma FusePair()
    ensures "]" + "+" + "bestaudio" == "]+bestaudio"
  {
  }

  lemma FuseSlashMp4()
    ensures "][ext=mp4]+bestaudio[ext=m4a]" + "/" + "bestvideo[height<=" == "][ext=mp4]+bestaudio[ext=m4a]/bestvideo[height<="
  {
  }

  lemma FuseSlashPair()
    ensures "]+bestaudio" + "/" + "best[height<=" == "]+bestaudio/best[height<="
  {
  }

  lemma FuseSlashBest()
    ensures "]" + "/" + "best" == "]/best"
  {
  }

  lemma CappedVideoMp4Text(h: string)
    ensures RenderAlternative([Stream("bestvideo", [MaxHeight(h), Ext("mp4")]), Stream("bestaudio", [Ext("m4a")])])
         == "bestvideo[height<=" + h + "][ext=mp4]+bestaudio[ext=m4a]"
  {
    RenderFilters2(MaxHeight(h), Ext("mp4"));
    StreamText("bestaudio", "m4a");
    RenderAlternative2(Stream("bestvideo", [MaxHeight(h), Ext("mp4")]), Stream("bestaudio", [Ext("m4a")]));
    GlueCappedVideoMp4(h, RenderStream(Stream("bestvideo", [MaxHeight(h), Ext("mp4")])),
                       RenderStream(Stream("bestaudio", [Ext("m4a")])));
  }

  lemma GlueCappedVideoMp4(h: string, video: string, audio: string)
    requires video == "bestvideo" + ("[height<=" + h + "]" + ("[ext=" + "mp4" + "]"))
    requires audio == "bestaudio" + "[ext=" + "m4a" + "]"
    ensures video + "+" + audio == "bestvideo[height<=" + h + "][ext=mp4]+bestaudio[ext=m4a]"
  {
    FuseOpen("bestvideo");
    FuseMp4Pair();
  }

  lemma CappedVideoText(h: string)
    ensures RenderAlternative([Stream("bestvideo", [MaxHeight(h)]), Stream("bestaudio", [])])
         == "bestvideo[height<=" + h + "]+bestaudio"
  {
    assert RenderFilters([]) == "";
    RenderFilters1(MaxHeight(h));
    RenderAlternative2(Stream("bestvideo", [MaxHeight(h)]), Stream("bestaudio", []));
    GlueCappedVideo(h, RenderStream(Stream("bestvideo", [MaxHeight(h)])), RenderStream(Stream("bestaudio", [])));
  }

  lemma GlueCappedVideo(h: string, video: string, audio: string)
    requires video == "bestvideo" + ("[height<=" + h + "]")
    requires audio == "bestaudio" + ""
    ensures video + "+" + audio == "bestvideo[height<=" + h + "]+bestaudio"
  {
    FuseOpen("bestvideo");
    FusePair();
  }

  lemma CappedBestText(h: string)
    ensures RenderAlternative([Stream("best", [MaxHeight(h)])]) == "best[height<=" + h + "]"
  {
    RenderFilters1(MaxHeight(h));
    FuseOpen("best");
  }

  lemma FuseMp4Tail()
    ensures ("[ext=" + "mp4" + "]") + "+" + ("bestaudio" + "[ext=" + "m4a" + "]") == "[ext=mp4]+bestaudio[ext=m4a]"
  {
  }

  /** `bestvideo[height<=H]F+bestaudio` for a second video filter F. */
  lemma FilteredVideoText(h: string, f: Filter)
    ensures RenderAlternative([Stream("bestvideo", [MaxHeight(h), f]), Stream("bestaudio", [])])
         == "bestvideo[height<=" + h + "]" + RenderFilter(f) + "+bestaudio"
  {
    assert RenderFilters([]) == "";
    RenderFilters2(MaxHeight(h), f);
    RenderAlternative2(Stream("bestvideo", [MaxHeight(h), f]), Stream("bestaudio", []));
    GlueFilteredVideo(h, RenderFilter(f), RenderStream(Stream("bestvideo", [MaxHeight(h), f])),
                      RenderStream(Stream("bestaudio", [])));
  }

  lemma GlueFilteredVideo(h: string, cf: string, video: string, audio: string)
    requires video == "bestvideo" + ("[height<=" + h + "]" + cf)
    requires audio == "bestaudio" + ""
    ensures video + "+" + audio == "bestvideo[height<=" + h + "]" + cf + "+bestaudio"
  {
    FuseOpen("bestvideo");
  }

  /** `bestvideo[height<=H]F[ext=mp4]+bestaudio[ext=m4a]` for a second video filter F. */
  lemma FilteredVideoMp4Text(h: string, f: Filter)
    ensures RenderAlternative([Stream("bestvideo", [MaxHeight(h), f, Ext("mp4")]), Stream("bestaudio", [Ext("m4a")])])
         == "bestvideo[height<=" + h + "]" + RenderFilter(f) + "[ext=mp4]+bestaudio[ext=m4a]"
  {
    RenderFilters3(MaxHeight(h), f, Ext("mp4"));
    StreamText("bestaudio", "m4a");
    RenderAlternative2(Stream("bestvideo", [MaxHeight(h), f, Ext("mp4")]), Stream("bestaudio", [Ext("m4a")]));
    GlueFilteredVideoMp4(h, RenderFilter(f), RenderStream(Stream("bestvideo", [MaxHeight(h), f, Ext("mp4")])),
                         RenderStream(Stream("bestaudio", [Ext("m4a")])));
  }

  lemma GlueFilteredVideoMp4(h: string, cf: string, video: string, audio: string)
    requires video == "bestvideo" + ("[height<=" + h + "]" + cf + ("[ext=" + "mp4" + "]"))
    requires audio == "bestaudio" + "[ext=" + "m4a" + "]"
    ensures video + "+" + audio == "bestvideo[height<=" + h + "]" + cf + "[ext=mp4]+bestaudio[ext=m4a]"
  {
    FuseOpen("bestvideo");
    FuseMp4Tail();
  }

  // The two height-capped fallback chains that both format-string builders produce.

  /** Capped mp4 video with m4a audio, then any capped video with any audio, then the
      best capped single file, then `best`. */
  function CappedMp4Chain(h: string): (sel: Selector)
    ensures EndsWithBest(sel)
  {
    [[Stream("bestvideo", [MaxHeight(h), Ext("mp4")]), Stream("bestaudio", [Ext("m4a")])],
     [Stream("bestvideo", [MaxHeight(h)]), Stream("bestaudio", [])],
     [Stream("best", [MaxHeight(h)])],
     BestAlternative]
  }

  /** Capped video with any audio, then the best capped single file, then `best`. */
  function CappedChain(h: string): (sel: Selector)
    ensures EndsWithBest(sel)
  {
    [[Stream("bestvideo", [MaxHeight(h)]), Stream("bestaudio", [])],
     [Stream("best", [MaxHeight(h)])],
     BestAlternative]
  }

  lemma CappedMp4ChainText(h: string)
    ensures Render(CappedMp4Chain(h))
         == "bestvideo[height<=" + h + "][ext=mp4]+bestaudio[ext=m4a]/bestvideo[height<=" + h
            + "]+bestaudio/best[height<=" + h + "]/best"
  {
    var sel := CappedMp4Chain(h);
    Render4(sel[0], sel[1], sel[2], sel[3]);
    CappedVideoMp4Text(h);
    CappedVideoText(h);
    CappedBestText(h);
    assert RenderFilters([]) == "";
    GlueCappedMp4Chain(h, RenderAlternative(sel[0]), RenderAlternative(sel[1]), RenderAlternative(sel[2]),
                       RenderAlternative(sel[3]));
  }

  lemma GlueCappedMp4Chain(h: string, ra: string, rb: string, rc: string, rd: string)
    requires ra == "bestvideo[height<=" + h + "][ext=mp4]+bestaudio[ext=m4a]"
    requires rb == "bestvideo[height<=" + h + "]+bestaudio"
    requires rc == "best[height<=" + h + "]"
    requires rd == "best"
    ensures ra + "/" + rb + "/" + rc + "/" + rd
         == "bestvideo[height<=" + h + "][ext=mp4]+bestaudio[ext=m4a]/bestvideo[height<=" + h
            + "]+bestaudio/best[height<=" + h + "]/best"
  {
    FuseSlashMp4();
    FuseSlashPair();
    FuseSlashBest();
  }

  lemma CappedChainText(h: string)
    ensures Render(CappedChain(h)) == "bestvideo[height<=" + h + "]+bestaudio/best[height<=" + h + "]/best"
  {
    var sel := CappedChain(h);
    Render3(sel[0], sel[1], sel[2]);
    CappedVideoText(h);
    CappedBestText(h);
    assert RenderFilters([]) == "";
    GlueCappedChain(h, RenderAlternative(sel[0]), RenderAlternative(sel[1]), RenderAlternative(sel[2]));
  }

  lemma GlueCappedChain(h: string, ra: string, rc: string, rd: string)
    requires ra == "bestvideo[height<=" + h + "]+bestaudio"
    requires rc == "best[height<=" + h + "]"
    requires rd == "best"
    ensures ra + "/" + rc + "/" + rd == "bestvideo[height<=" + h + "]+bestaudio/best[height<=" + h + "]/best"
  {
    FuseSlashPair();
    FuseSlashBest();
  }

  lemma CappedMp4ChainSets(h: string)
    ensures Heights(CappedMp4Chain(h)) == {h} && Codecs(CappedMp4Chain(h)) == {}
  {
    var sel: Selector := CappedMp4Chain(h);
    assert sel[0][0].filters[0] == MaxHeight(h);
  }

  lemma CappedChainSets(h: string)
    ensures Heights(CappedChain(h)) == {h} && Codecs(CappedChain(h)) == {}
  {
    var sel: Selector := CappedChain(h);
    assert sel[0][0].filters[0] == MaxHeight(h);
  }
}
