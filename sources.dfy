/** Where a download comes from, and which pasted lines are URLs (src/lib/sources.ts).
    yt-dlp reports an extractor name such as `youtube:tab` or `TwitchVod`; the front end
    turns it into a platform badge by a first-match lookup in a fixed table. The URL
    parser of the host is not modelled: it is passed in as a function giving the
    protocol of a text, or nothing when the text does not parse. */
module Sources {
  import opened Text

  // ---------------------------------------------------------------------------
  // Platform detection
  // ---------------------------------------------------------------------------

  datatype SourceInfo = SourceInfo(platform: string, icon: string, color: string, labelText: string)

  /** A row of the platform table: the key looked for in the extractor name, and the badge. */
  datatype SourceEntry = SourceEntry(key: string, info: SourceInfo)

  /** The table, in declaration order, which is the order the lookup tries it in. */
  const SourceTable: seq<SourceEntry> := [
    SourceEntry("youtube", SourceInfo("youtube", "\U{1F4FA}", "text-red-500", "YouTube")),
    SourceEntry("tiktok", SourceInfo("tiktok", "\U{1F3B5}", "text-pink-500", "TikTok")),
    SourceEntry("instagram", SourceInfo("instagram", "\U{1F4F7}", "text-purple-500", "Instagram")),
    SourceEntry("twitter", SourceInfo("twitter", "\U{1D54F}", "text-foreground", "X/Twitter")),
    SourceEntry("facebook", SourceInfo("facebook", "\U{1F4D8}", "text-blue-600", "Facebook")),
    SourceEntry("vimeo", SourceInfo("vimeo", "\U{1F3AC}", "text-cyan-500", "Vimeo")),
    SourceEntry("twitch", SourceInfo("twitch", "\U{1F4FA}", "text-purple-400", "Twitch")),
    SourceEntry("bilibili", SourceInfo("bilibili", "\U{1F4FA}", "text-pink-400", "Bilibili")),
    SourceEntry("soundcloud", SourceInfo("soundcloud", "\U{1F3A7}", "text-orange-500", "SoundCloud")),
    SourceEntry("dailymotion", SourceInfo("dailymotion", "\U{25B6}\U{FE0F}", "text-blue-400", "Dailymotion"))
  ]

  const DefaultSource: SourceInfo := SourceInfo("other", "\U{1F310}", "text-muted-foreground", "Video")

  predicate IsLowerLetter(c: char)
  {
    'a' <= c <= 'z'
  }

  /** The lookup key of an extractor name: lower-cased, with everything that is not a
      letter `a`-`z` dropped. */
  function Normalize(s: string): (key: string)
    ensures |key| <= |s|
    ensures forall k :: 0 <= k < |key| ==> IsLowerLetter(key[k])
  {
    if s == [] then []
    else (if IsLowerLetter(AsciiLower(s[0])) then [AsciiLower(s[0])] else []) + Normalize(s[1..])
  }

  /** Character by character: `A`-`Z` become `a`-`z`, `a`-`z` stay, and every other
      character is dropped. */
  lemma NormalizeChar(c: char)
    ensures Normalize([c]) == if 'A' <= c <= 'Z' then [(c as int + 32) as char]
                              else if 'a' <= c <= 'z' then [c] else []
  {
    assert [c][1..] == [];
  }

  /** A name that is already a key is its own key; so normalising twice is normalising once. */
  lemma {:induction false} NormalizeKey(s: string)
    requires forall k :: 0 <= k < |s| ==> IsLowerLetter(s[k])
    ensures Normalize(s) == s
  {
    if s != [] {
      NormalizeKey(s[1..]);
      assert [s[0]] + s[1..] == s;
    }
  }

  lemma NormalizeIdempotent(s: string)
    ensures Normalize(Normalize(s)) == Normalize(s)
  {
    NormalizeKey(Normalize(s));
  }

  /** Normalisation works character by character, so it distributes over concatenation. */
  lemma {:induction false} NormalizeConcat(a: string, b: string)
    ensures Normalize(a + b) == Normalize(a) + Normalize(b)
  {
    if a != [] {
      assert (a + b)[0] == a[0];
      assert (a + b)[1..] == a[1..] + b;
      NormalizeConcat(a[1..], b);
    } else {
      assert a + b == b;
    }
  }

  /** The first table row, from `i` on, whose key occurs in `name`. */
  function FirstMatch(name: string, i: nat): (r: Option<nat>)
    requires i <= |SourceTable|
    ensures r.Some? ==> i <= r.value < |SourceTable| && Contains(name, SourceTable[r.value].key)
    ensures r.Some? ==> forall j :: i <= j < r.value ==> !Contains(name, SourceTable[j].key)
    ensures r.None? ==> forall j :: i <= j < |SourceTable| ==> !Contains(name, SourceTable[j].key)
    decreases |SourceTable| - i
  {
    if i == |SourceTable| then None
    else if Contains(name, SourceTable[i].key) then Some(i)
    else FirstMatch(name, i + 1)
  }

  /** The label of an unknown extractor: the name with its first character upper-cased. */
  function FallbackLabel(extractor: string): (lbl: string)
    requires |extractor| > 0
    ensures |lbl| == |extractor| && lbl[0] == AsciiUpper(extractor[0]) && lbl[1..] == extractor[1..]
  {
    [AsciiUpper(extractor[0])] + extractor[1..]
  }

  /** The badge of an extractor name, which is absent for items without one. */
  function DetectSource(extractor: Option<string>): SourceInfo
  {
    match extractor
    case None => DefaultSource
    case Some(e) =>
      if e == [] then DefaultSource
      else match FirstMatch(Normalize(e), 0)
        case Some(i) => SourceTable[i].info
        case None => DefaultSource.(labelText := FallbackLabel(e))
  }

  /** A missing or empty name gets the default badge; otherwise the badge is that of the
      first table row whose key occurs in the normalised name, and when no key occurs
      it is the default badge labelled with the name itself, capitalised. */
  lemma DetectSourceSpec(extractor: Option<string>)
    ensures extractor.None? || extractor == Some("") ==> DetectSource(extractor) == DefaultSource
    ensures extractor.Some? && extractor.value != "" ==>
              var key := Normalize(extractor.value);
              var info := DetectSource(extractor);
              (forall i :: 0 <= i < |SourceTable| && Contains(key, SourceTable[i].key)
                             && (forall j :: 0 <= j < i ==> !Contains(key, SourceTable[j].key))
                           ==> info == SourceTable[i].info)
              && ((forall i :: 0 <= i < |SourceTable| ==> !Contains(key, SourceTable[i].key))
                  ==> info.platform == "other" && info.icon == DefaultSource.icon && info.color == DefaultSource.color
                      && |info.labelText| == |extractor.value| && info.labelText[0] == AsciiUpper(extractor.value[0])
                      && info.labelText[1..] == extractor.value[1..])
  {
  }

  /** yt-dlp's YouTube extractors, whatever their case or punctuation, get the YouTube badge. */
  lemma YouTubeExtractor(suffix: string)
    ensures DetectSource(Some("YouTube" + suffix)) == SourceTable[0].info
  {
    var e := "YouTube" + suffix;
    assert e[..7] == "YouTube";
    NormalizeConcat("YouTube", suffix);
    assert Normalize("YouTube") == "youtube";
    var key := Normalize(e);
    assert key[..7] == "youtube";
    assert OccursAt(key, "youtube", 0);
  }

  // ---------------------------------------------------------------------------
  // Pasted URL lists
  // ---------------------------------------------------------------------------

  /** A URL counts only when the host parser accepts it with an `http:` or `https:`
      protocol; `protocolOf` gives the parsed protocol, or nothing when parsing fails. */
  predicate IsValidUrl(text: string, protocolOf: string -> Option<string>)
  {
    protocolOf(text) == Some("http:") || protocolOf(text) == Some("https:")
  }

  /** A trimmed line is kept when it is non-empty, not a `#` comment, and a URL. */
  predicate Keep(line: string, protocolOf: string -> Option<string>)
  {
    line != [] && !StartsWith(line, "#") && IsValidUrl(line, protocolOf)
  }

  /** The kept lines, trimmed, in order. */
  function KeepLines(lines: seq<string>, protocolOf: string -> Option<string>): seq<string>
  {
    if lines == [] then []
    else (if Keep(Trim(lines[0]), protocolOf) then [Trim(lines[0])] else []) + KeepLines(lines[1..], protocolOf)
  }

  /** `text.split('\n').map(trim).filter(...)`: the kept lines, trimmed, in order. */
  function ParseUniversalUrls(text: string, protocolOf: string -> Option<string>): seq<string>
  {
    KeepLines(Split(text, "\n"), protocolOf)
  }

  /** Every URL returned is trimmed, non-empty, not a comment, and valid. */
  lemma {:induction false} KeptLinesValid(lines: seq<string>, protocolOf: string -> Option<string>)
    ensures forall u | u in KeepLines(lines, protocolOf) :: Keep(u, protocolOf) && Trim(u) == u
  {
    if lines != [] {
      KeptLinesValid(lines[1..], protocolOf);
      TrimIdempotent(lines[0]);
    }
  }

  lemma ParsedUrlsValid(text: string, protocolOf: string -> Option<string>)
    ensures forall u | u in ParseUniversalUrls(text, protocolOf) :: Keep(u, protocolOf) && Trim(u) == u
  {
    KeptLinesValid(Split(text, "\n"), protocolOf);
  }

  lemma {:induction false} KeepLinesConcat(a: seq<string>, b: seq<string>, protocolOf: string -> Option<string>)
    ensures KeepLines(a + b, protocolOf) == KeepLines(a, protocolOf) + KeepLines(b, protocolOf)
  {
    if a != [] {
      assert (a + b)[0] == a[0];
      assert (a + b)[1..] == a[1..] + b;
      KeepLinesConcat(a[1..], b, protocolOf);
    } else {
      assert a + b == b;
    }
  }

  /** A line feed occurs at `j` exactly when the character there is one. */
  lemma NewlineAt(s: string, j: int)
    ensures OccursAt(s, "\n", j) <==> 0 <= j < |s| && s[j] == '\n'
  {
    if 0 <= j < |s| {
      assert s[j..j + 1] == [s[j]];
    }
  }

  /** The search for a line feed finds the first one, or none in a text without one. */
  lemma FirstNewline(s: string, x: nat)
    requires x < |s| && s[x] == '\n' && forall j :: 0 <= j < x ==> s[j] != '\n'
    ensures IndexFrom(s, "\n", 0) == Some(x)
  {
    NewlineAt(s, x);
    var r := IndexFrom(s, "\n", 0);
    if r.Some? {
      NewlineAt(s, r.value);
    }
  }

  lemma NoNewline(s: string)
    requires forall j :: 0 <= j < |s| ==> s[j] != '\n'
    ensures IndexFrom(s, "\n", 0) == None
  {
    var r := IndexFrom(s, "\n", 0);
    if r.Some? {
      NewlineAt(s, r.value);
    }
  }

  /** A single line yields its trimmed self when kept, and nothing otherwise. */
  lemma ParseOneLine(line: string, protocolOf: string -> Option<string>)
    requires '\n' !in line
    ensures ParseUniversalUrls(line, protocolOf) == if Keep(Trim(line), protocolOf) then [Trim(line)] else []
  {
    OneLine(line);
    assert [line][1..] == [];
    assert KeepLines([line], protocolOf) == (if Keep(Trim(line), protocolOf) then [Trim(line)] else []) + KeepLines([], protocolOf);
  }

  /** A text without a line feed is a single line. */
  lemma OneLine(line: string)
    requires '\n' !in line
    ensures Split(line, "\n") == [line]
  {
    NoNewline(line);
  }

  /** Lines are handled one by one and independently, in order: the URLs of two texts
      joined by a line feed are those of the first followed by those of the second, so
      order is kept and so are duplicates. */
  lemma ParseConcat(a: string, b: string, protocolOf: string -> Option<string>)
    ensures ParseUniversalUrls(a + "\n" + b, protocolOf) == ParseUniversalUrls(a, protocolOf) + ParseUniversalUrls(b, protocolOf)
  {
    SplitNewlineConcat(a, b);
    KeepLinesConcat(Split(a, "\n"), Split(b, "\n"), protocolOf);
  }

  /** Splitting at line feeds distributes over a line feed. */
  lemma {:induction false} SplitNewlineConcat(a: string, b: string)
    ensures Split(a + "\n" + b, "\n") == Split(a, "\n") + Split(b, "\n")
    decreases |a|, 1
  {
    var s := a + "\n" + b;
    match IndexFrom(a, "\n", 0)
    case None =>
      SplitWhole(a, "\n");
      FeedAfterText(a, b);
      SplitStep(s, "\n", |a|);
      assert s[..|a|] == a && s[|a| + 1..] == b;
    case Some(x) =>
      SplitNewlineConcatAt(a, b, x);
  }

  lemma {:induction false} SplitNewlineConcatAt(a: string, b: string, x: nat)
    requires IndexFrom(a, "\n", 0) == Some(x)
    ensures Split(a + "\n" + b, "\n") == Split(a, "\n") + Split(b, "\n")
    decreases |a|, 0
  {
    var t := a[x + 1..];
    FeedInText(a, b, x);
    SplitAtFeed(a, b, x);
    SplitStep(a, "\n", x);
    SplitNewlineConcat(t, b);
    ConsConcat(Split(a + "\n" + b, "\n"), Split(a, "\n"), a[..x], Split(t, "\n"),
               Split(t + "\n" + b, "\n"), Split(b, "\n"));
  }

  lemma ConsConcat(whole: seq<string>, left: seq<string>, first: string, l: seq<string>,
                   m: seq<string>, r: seq<string>)
    requires whole == [first] + m && m == l + r && left == [first] + l
    ensures whole == left + r
  {
  }

  lemma SplitAtFeed(a: string, b: string, x: nat)
    requires x < |a| && IndexFrom(a + "\n" + b, "\n", 0) == Some(x)
    ensures Split(a + "\n" + b, "\n") == [a[..x]] + Split(a[x + 1..] + "\n" + b, "\n")
  {
    var s := a + "\n" + b;
    SplitStep(s, "\n", x);
    assert s[..x] == a[..x];
    assert s[x + 1..] == a[x + 1..] + "\n" + b;
  }

  /** The first line feed of `a + "\n" + b` is the one added, when `a` has none... */
  lemma FeedAfterText(a: string, b: string)
    requires IndexFrom(a, "\n", 0) == None
    ensures IndexFrom(a + "\n" + b, "\n", 0) == Some(|a|)
  {
    var s := a + "\n" + b;
    assert s[|a|] == '\n';
    forall j | 0 <= j < |a| ensures s[j] != '\n' {
      NewlineAt(a, j);
      assert s[j] == a[j];
    }
    FirstNewline(s, |a|);
  }

  /** ... and the first one of `a` otherwise. */
  lemma FeedInText(a: string, b: string, x: nat)
    requires IndexFrom(a, "\n", 0) == Some(x)
    ensures IndexFrom(a + "\n" + b, "\n", 0) == Some(x)
  {
    var s := a + "\n" + b;
    NewlineAt(a, x);
    forall j | 0 <= j < x ensures s[j] != '\n' {
      NewlineAt(a, j);
      assert s[j] == a[j];
    }
    assert s[x] == a[x];
    FirstNewline(s, x);
  }
}
