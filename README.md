# youwee core, modelled in Dafny

Youwee is a desktop front end for the yt-dlp downloader. It has a Rust backend (Tauri
commands) and a TypeScript/React interface. This project models the parts of it that
decide what is sent to and read back from the external tools. It also models the
subtitle-editing transforms and two small lookup tables.

The model covers:

- **The download command** (`DownloadCommand`, `Selectors`). This covers
  `build_format_string(quality, format)` in lib.rs, whose format selector is kept as a
  structured value (alternatives of streams with filters) and rendered to yt-dlp
  syntax. It also covers the argument vector of `download_video`, the hand-written
  scanners for the two `parse_progress` regular expressions, and the two stdout loops.
  The loops are folds over the events a child process delivers, with the cancel flag
  sampled at each check. One loop reads the bundled sidecar, the other the system
  yt-dlp run under tokio.
- **The newer format selector and size units** (`FormatUtils`). This covers the
  three-argument `build_format_string(quality, format, video_codec)` of format.rs, with
  its codec filter and high-resolution overrides, and the unit choice of `format_size`.
- **The metadata fetch** (`MetadataCommand`). This covers the flag-to-argument
  construction, the `title|||thumbnail|||duration` stdout parser, the choice of the
  stderr `ERROR` line, the cancel check, the `files_saved` list and the final outcome.
  These are modelled over an interleaved sequence of stdout/stderr passes.
- **Archive extraction** (`ExtractUtils`). This covers which tar, zip and bun-zip
  entries are written where, and when extraction stops or fails. The writes are a log
  of (entry, destination) pairs.
- **The ffmpeg version parser** (`FfmpegService`).
- **Source detection and pasted-URL parsing** (`Sources`). `detectSource` is a
  first-match table lookup on a normalised extractor name. `parseUniversalUrls` is a
  split/trim/filter chain, with the URL parser as a function parameter.
- **Subtitle tools** (`SubtitleEntries`, `TimingDialog`, `TranslateDialog`,
  `SubtitlePreview`):
  - shift, scale and two-point sync of cue times;
  - batched AI translation, with the AI backend as a function from prompt to reply or
    error;
  - the video preview: current-cue lookup, play/pause and seeking to the active cue.
- **Themes** (`Themes`): the six-theme table and `getTheme` with its fallback.

The files are shaped like the source they model:

- Pure code is modelled as functions with lemmas about them.
- Imperative code becomes methods proved against those functions. This covers
  argument vectors built by pushes, line loops that update `current_title` and the
  like, extraction loops with early returns, and the translation batch loop.
- The `<video>` element and the preview's state become classes whose methods update
  their fields.

`extract_tar_gz` and `extract_tar_xz` differ only in their decompressor. Both are
modelled by `ExtractUtils.ExtractTar` over the sequence of entries the decompressed
archive yields.

## Model

| member | source | states |
|---|---|---|
| Text.Split | src/components/subtitles/TranslateDialog.tsx:53 | splitting on a non-empty separator gives at least one part, the parts joined with the separator give back the text, and no part contains the separator |
| Text.SplitCutsLeftmost | src/components/subtitles/TranslateDialog.tsx:53 | every cut is at the leftmost occurrence of the separator: no occurrence starts inside a part and runs into the separator after it, so overlapping separators are cut as JavaScript cuts them |
| Text.SplitJoin | src/components/subtitles/TranslateDialog.tsx:53 | splitting undoes joining, for parts that hold no separator and whose cuts are leftmost |
| Text.TrimIsTrimmed | src/components/subtitles/TranslateDialog.tsx:53 | a trimmed string is the original less a run of JavaScript white space at each end, and it neither starts nor ends with such white space |
| Text.TrimPadded | src/components/subtitles/TranslateDialog.tsx:53 | a trimmed text with a line feed added at either end trims back to itself |
| Text.TrimIdempotent | src/lib/sources.ts:121 | trimming twice is trimming once |
| Text.LastIndexOf | src-tauri/src/lib.rs:203 | `rfind`: the position holds the character and no later position does; no result means the character is absent |
| Text.ParseU32OfDecimal | src-tauri/src/lib.rs:73-74 | the decimal text of a number parses back to that number when it fits in `u32`, and to `None` past `U32_MAX` |
| Text.ParseU32LeadingZero | src-tauri/src/lib.rs:73-74 | a leading zero does not change what a digit run parses to |
| Text.DecimalString | src-tauri/src/utils/format.rs:14 | the decimal text of a count is non-empty digits with no leading zero, and reads back as the count |
| DownloadCommand.AudioSelectorText | src-tauri/src/lib.rs:40-42 | quality `audio` or format `mp3` gives `bestaudio[ext=m4a]/bestaudio/best`, whatever the other argument is |
| DownloadCommand.Mp4CappedText | src-tauri/src/lib.rs:52-54 | mp4 with quality 1080/720/480/360 gives the capped mp4/m4a chain with that height in all three caps |
| DownloadCommand.Mp4UncappedText | src-tauri/src/lib.rs:55-57 | mp4 with any other non-audio quality gives `bestvideo[ext=mp4]+bestaudio[ext=m4a]/bestvideo+bestaudio/best` |
| DownloadCommand.OtherCappedText | src-tauri/src/lib.rs:58-59 | a non-mp4, non-audio format with a capped quality gives `bestvideo[height<=H]+bestaudio/best[height<=H]/best` |
| DownloadCommand.OtherUncappedText | src-tauri/src/lib.rs:60-62 | every remaining case gives `bestvideo+bestaudio/best` |
| DownloadCommand.FormatSelectorEndsWithBest | src-tauri/src/lib.rs:39-63 | every selector has `best` as its last alternative, so its text ends with `/best` |
| DownloadCommand.FormatSelectorHeights | src-tauri/src/lib.rs:44-59 | a `height<=H` filter occurs exactly when the quality is 1080/720/480/360 and the audio branch was not taken, and then H is the quality; no codec filter ever occurs |
| DownloadCommand.PercentEnd | src-tauri/src/lib.rs:79 | a match of `\d+\.?\d*%` starting at a position ends at a `%` preceded by number text; with no result, no `%` after that position is preceded by number text from it |
| DownloadCommand.FirstPercent | src-tauri/src/lib.rs:79-80 | the match found is the leftmost position at which a percent number matches, and none is found only when no position matches |
| DownloadCommand.TokenAfter | src-tauri/src/lib.rs:79 | `kw\s+(\S+)` at a position captures the maximal non-space run that starts after the keyword and at least one white-space character, and runs to white space or the end; `None` exactly when no such token exists there |
| DownloadCommand.TokenAtIsMaximal | src-tauri/src/lib.rs:79 | the greedy runs leave no choice: the token starts where the white space after the keyword ends and stops where the word ends |
| DownloadCommand.ItemAt | src-tauri/src/lib.rs:71-72 | a `Downloading item N of M` match at a position has its first digit run right after `Downloading item ` and its second right after ` of `, the second followed by a non-digit or the end; `None` exactly when no such match starts there |
| DownloadCommand.FirstItem | src-tauri/src/lib.rs:72-75 | the playlist match found is the leftmost one from the start position, and none is found only when no position matches |
| DownloadCommand.ItemNumbersOfItemText | src-tauri/src/lib.rs:71-75 | the line `Downloading item <n> of <m>` yields both numbers, each `None` when it is past `U32_MAX` |
| DownloadCommand.ParseProgressSpec | src-tauri/src/lib.rs:70-85 | a line parses exactly when it contains `[download]` and `%` and a number directly precedes some `%`. The percent is the leftmost such number text. The speed is the `at` token right after the `%`; the eta is the `ETA` token there only when no speed was found; each is empty otherwise. The playlist index and count are the numbers the line reports, or `None` |
| DownloadCommand.TitleFromLineSpec | src-tauri/src/lib.rs:203-208 | a title is found exactly when a `.` follows the last `/`, and it is the text between the last `/` and the last `.` |
| DownloadCommand.ObserveLineSpec | src-tauri/src/lib.rs:190-226 | a stdout line emits a `downloading` record exactly when it parses as progress, with that parse's percent, speed and eta and the new title and playlist position. The title changes only on a line naming a file that has a title, and then to that title. The position changes only on a line reporting one, and then to the reported numbers |
| DownloadCommand.LineRecords | src-tauri/src/lib.rs:211-226 | a run of lines emits at most one record per line, every one a `downloading` record with the download's id |
| DownloadCommand.RunEventsDecomposes | src-tauri/src/lib.rs:178-257 | a run emits the records of the stdout lines before the first stopping event, then ends as that event decides; with no stopping event it ends `Ok` |
| DownloadCommand.RunEventsNoStop | src-tauri/src/lib.rs:178-257 | with no stopping event the run emits the line records and returns `Ok(())` |
| DownloadCommand.RunEventsStopsAt | src-tauri/src/lib.rs:178-256 | a run stopping at event k emits the records of the lines before k, then the outcome of event k with the tracker those lines left |
| DownloadCommand.RunClosedChannel | src-tauri/src/lib.rs:257 | a channel that closes without a stopping event gives `Ok` and no `finished` record |
| DownloadCommand.RunCancelled | src-tauri/src/lib.rs:180-184 | a set cancel flag, read on an event or again on `Terminated`, gives `Err("Download cancelled")` and no `finished` record |
| DownloadCommand.RunProcessError | src-tauri/src/lib.rs:229-231 | a process error gives `Process error: ` and its message, and no `finished` record |
| DownloadCommand.RunSucceeded | src-tauri/src/lib.rs:237-249 | exit code 0 without a cancel gives `Ok` and exactly one `finished` record, the last one, with the last title and playlist position seen |
| DownloadCommand.RunFailed | src-tauri/src/lib.rs:250-252 | any other exit status without a cancel gives `Err("Download failed")` and no `finished` record |
| DownloadCommand.ObserveLineIgnoresFlag | src-tauri/src/lib.rs:202 | a line not mentioning `[ExtractAudio]` is handled the same by both loops |
| DownloadCommand.RunEventsWithoutExtractAudio | src-tauri/src/lib.rs:202-209 | when no stdout line mentions `[ExtractAudio]`, the sidecar and tokio title rules give the same run |
| DownloadCommand.HandleSidecarEvents | src-tauri/src/lib.rs:178-257 | the sidecar loop, with tracker variables updated in place, emits and returns exactly what the event fold specifies |
| DownloadCommand.TokioRunAsEvents | src-tauri/src/lib.rs:285-352 | the tokio variant is the event fold without `[ExtractAudio]` titles, over its lines followed by the exit, so every run lemma applies to it |
| DownloadCommand.AfterStdoutEnds | src-tauri/src/lib.rs:331-352 | after stdout ends: a wait failure, then the cancel check, then `finished` and `Ok` on success or `Download failed` |
| DownloadCommand.HandleTokioDownload | src-tauri/src/lib.rs:285-352 | the tokio loop, with tracker variables updated in place, emits and returns exactly what the tokio run specifies |
| DownloadCommand.OutputTemplate | src-tauri/src/lib.rs:134 | the output template is the output folder followed by exactly `/%(title)s.%(ext)s` |
| DownloadCommand.BuildDownloadArgs | src-tauri/src/lib.rs:136-162 | the arguments start `--newline -f <selector> -o <template>`. `--no-playlist` follows exactly when the playlist is not wanted. Then come `--merge-output-format <fmt>` for non-mp3, or `-x --audio-format mp3` for mp3, and the URL last |
| Selectors.CappedMp4ChainText | src-tauri/src/lib.rs:54 | the capped mp4 chain renders as `bestvideo[height<=H][ext=mp4]+bestaudio[ext=m4a]/bestvideo[height<=H]+bestaudio/best[height<=H]/best` |
| Selectors.CappedChainText | src-tauri/src/lib.rs:59 | the capped chain renders as `bestvideo[height<=H]+bestaudio/best[height<=H]/best` |
| FormatUtils.CodecFilterRenders | src-tauri/src/utils/format.rs:42-52 | the codec filter is absent exactly when its text is empty, and otherwise renders as that text (`[vcodec^=vp9]` for high resolutions, `avc`/`vp9`/`av01` for h264/vp9/av1) |
| FormatUtils.AudioSelectorText | src-tauri/src/utils/format.rs:21-27 | the audio branch gives `bestaudio/best` for mp3 and `bestaudio[ext=webm]/bestaudio/best` for opus. It gives the m4a chain for m4a and for any other format |
| FormatUtils.FormatSelectorEndsWithBest | src-tauri/src/utils/format.rs:19-92 | every selector ends with the `/best` fallback |
| FormatUtils.FormatSelectorHeights | src-tauri/src/utils/format.rs:30-39 | a height cap occurs exactly when the quality maps to a height and the audio branch was not taken, and it is that height |
| FormatUtils.FormatSelectorCodecs | src-tauri/src/utils/format.rs:42-52 | the codec prefixes used are none for audio, `vp9` for high resolutions and unmapped qualities, the chosen codec's prefix when there is one, and otherwise none |
| FormatUtils.FormatSelectorSets | src-tauri/src/utils/format.rs:30-91 | the heights and codec prefixes of every selector, stated together by case |
| FormatUtils.HighResIgnoresCodecAndContainer | src-tauri/src/utils/format.rs:42-80 | for 8k/4k/2k outside the audio branch, the selector does not depend on format or codec |
| FormatUtils.UnmappedIgnoresFormatAndCodec | src-tauri/src/utils/format.rs:72-91 | for an unmapped quality outside the audio branch, the selector does not depend on format or codec |
| FormatUtils.UnmappedText | src-tauri/src/utils/format.rs:89-91 | an unmapped quality gives `bestvideo[vcodec^=vp9]+bestaudio/bestvideo+bestaudio/best` |
| FormatUtils.HighResText | src-tauri/src/utils/format.rs:56-60 | 8k/4k/2k give the vp9 chain capped at 4320/2160/1440 |
| FormatUtils.Mp4CodecText | src-tauri/src/utils/format.rs:61-65 | mp4 with a standard height and a known codec gives the six-alternative chain with the codec filter in the first two |
| FormatUtils.Mp4PlainText | src-tauri/src/utils/format.rs:66-71 | mp4 with a standard height and no codec filter gives the capped mp4/m4a chain |
| FormatUtils.CodecText | src-tauri/src/utils/format.rs:81-85 | another format with a standard height and a known codec gives `bestvideo[height<=H]<codec>+bestaudio/bestvideo[height<=H]+bestaudio/best[height<=H]/best` |
| FormatUtils.PlainText | src-tauri/src/utils/format.rs:86-88 | another format with a standard height and no codec filter gives `bestvideo[height<=H]+bestaudio/best[height<=H]/best` |
| FormatUtils.FormatSizeUnit | src-tauri/src/utils/format.rs:2-16 | below 1024 bytes the text is exactly `<bytes> B`. Otherwise the unit is the largest of GB, MB and KB that does not exceed the size |
| MetadataCommand.DescriptionTemplate | src-tauri/src/commands/metadata.rs:59 | the description template is exactly `description:`, the output path, then `/%(title)s.description.txt` |
| MetadataCommand.OptionsMembers | src-tauri/src/commands/metadata.rs:57-86 | an option is present exactly when the flag that adds it is set |
| MetadataCommand.OptionsInfoJson | src-tauri/src/commands/metadata.rs:63-69 | `--write-info-json` and `--no-clean-info-json` are present exactly when info.json or comments are asked for |
| MetadataCommand.OptionsDescription | src-tauri/src/commands/metadata.rs:57-74 | `--write-description`, the extra `-o` and its description template are present exactly when the description is asked for |
| MetadataCommand.OptionsComments | src-tauri/src/commands/metadata.rs:77-79 | `--write-comments` is present exactly when comments are asked for |
| MetadataCommand.OptionsThumbnail | src-tauri/src/commands/metadata.rs:82-86 | `--write-thumbnail` and `--convert-thumbnails` are present exactly when the thumbnail is asked for |
| MetadataCommand.BuildMetadataArgs | src-tauri/src/commands/metadata.rs:46-92 | the pushed vector starts with the five fixed arguments ending with `<path>/%(title)s`. The flag options follow in source order, and it ends with `--print <template> <url>` |
| MetadataCommand.OnStdoutSpec | src-tauri/src/commands/metadata.rs:159-189 | stdout never changes the error. With a title known, a line changes nothing. A `fetching` record with the new title is emitted exactly when a first title is set. With no title yet, a non-empty line without `\|\|\|` that does not start with `[` becomes the title, with no thumbnail in its record; an empty or `[` line changes nothing |
| MetadataCommand.OnStdoutSeparated | src-tauri/src/commands/metadata.rs:161-179 | with no title yet, a `\|\|\|` line with three or more parts sets the title to part 0. The thumbnail becomes part 1 unless that is `NA` or empty. A line with fewer parts changes nothing |
| MetadataCommand.PassSpec | src-tauri/src/commands/metadata.rs:156-209 | one pass keeps a known title, emits a record exactly when a first title is set, and sets the error to a stderr line exactly when it contains `ERROR` |
| MetadataCommand.LoopCancelled | src-tauri/src/commands/metadata.rs:149-154 | the loop is cancelled exactly when some pass sees the flag before stdout has closed |
| MetadataCommand.ErrorLines | src-tauri/src/commands/metadata.rs:202-204 | the stderr lines kept as errors all contain `ERROR` |
| MetadataCommand.LoopError | src-tauri/src/commands/metadata.rs:202-204 | after the loop, the error is the last stderr line containing `ERROR` before it stopped, if there is one |
| MetadataCommand.LoopTitleStable | src-tauri/src/commands/metadata.rs:161-180 | once a title is known, no later line changes it and nothing more is emitted |
| MetadataCommand.LoopRecords | src-tauri/src/commands/metadata.rs:161-189 | the loop emits at most one record, exactly when it sets the first title, and that record carries it |
| MetadataCommand.FilesSaved | src-tauri/src/commands/metadata.rs:222-231 | `info.json`, `description.txt` and `thumbnail.jpg` are each listed exactly when their flag is set, in that order |
| MetadataCommand.CollectFilesSaved | src-tauri/src/commands/metadata.rs:222-231 | the pushed list is the files-saved list |
| MetadataCommand.FetchMetadata | src-tauri/src/commands/metadata.rs:44-130 | a sanitiser error is returned before anything is emitted. Otherwise the first record is the initial `fetching` one; a missing yt-dlp gives `yt-dlp not found`, a spawn failure `Failed to start yt-dlp: ` and its message, each after that one record; a run continues with what the run specifies |
| MetadataCommand.RunCancelled | src-tauri/src/commands/metadata.rs:150-154 | a cancel before stdout closes gives `Metadata fetch cancelled` and only `fetching` records |
| MetadataCommand.RunSucceeded | src-tauri/src/commands/metadata.rs:218-265 | a successful exit returns the first title (or `Unknown`), the thumbnail and the saved files, and ends with one `finished` record carrying that title and thumbnail, after only `fetching` records |
| MetadataCommand.RunFailed | src-tauri/src/commands/metadata.rs:266-281 | a failed exit returns the last `ERROR` line, or `Failed to fetch metadata` when there is none, also carried in a final `error` record |
| MetadataCommand.HandleMetadataRun | src-tauri/src/commands/metadata.rs:149-282 | the `select!` loop, with title, thumbnail and error updated in place, gives exactly the specified run |
| MetadataCommand.AfterLoop | src-tauri/src/commands/metadata.rs:213-282 | waiting and reporting the exit status appends and returns what the outcome function specifies |
| ExtractUtils.FileName | src-tauri/src/utils/extract.rs:17 | a file name, when there is one, is a plain name: non-empty, without `/`, not `.` or `..` |
| ExtractUtils.FileNameInPath | src-tauri/src/utils/extract.rs:17 | the file name occurs in the path it was taken from |
| ExtractUtils.JoinPath | src-tauri/src/utils/extract.rs:20 | a joined path starts with the folder and ends with the name |
| ExtractUtils.FileNameOfJoin | src-tauri/src/utils/extract.rs:20 | the file name of a folder joined with a plain name is that name |
| ExtractUtils.TarSucceeds | src-tauri/src/utils/extract.rs:12-27 | tar extraction succeeds exactly when no entry fails, and then it has written every wanted entry, in archive order |
| ExtractUtils.TarWritesWanted | src-tauri/src/utils/extract.rs:17-24 | every file written comes from an entry whose last component is the target or `ffprobe`, and goes to the folder under that name |
| ExtractUtils.TarErrors | src-tauri/src/utils/extract.rs:12-22 | a failure carries one of the fixed prefixes `Failed to read tar: `, `Failed to read entry: `, `Failed to get path: ` or `Failed to extract ` |
| ExtractUtils.ExtractTar | src-tauri/src/utils/extract.rs:5-28 | the entry loop writes and returns exactly what the tar walk specifies |
| ExtractUtils.ZipSucceeds | src-tauri/src/utils/extract.rs:63-82 | zip extraction succeeds exactly when no entry fails, and then it has written every wanted entry, in order |
| ExtractUtils.ZipInvalidName | src-tauri/src/utils/extract.rs:70-72 | when the first failing entry is wanted but has no file name, the result is `Invalid file name` |
| ExtractUtils.ZipWritesWanted | src-tauri/src/utils/extract.rs:67-73 | every file written comes from an entry whose whole name ends with the target, `ffprobe` or `ffprobe.exe`, and goes to the folder under its file name |
| ExtractUtils.ExtractZip | src-tauri/src/utils/extract.rs:56-83 | the entry loop writes and returns exactly what the zip walk specifies |
| ExtractUtils.BunInDirectory | src-tauri/src/utils/extract.rs:103 | outside Windows, `<dir>/bun` is taken exactly when the directory is not a `.dSYM` bundle |
| ExtractUtils.BunFirstMatch | src-tauri/src/utils/extract.rs:93-112 | at most one file is written, exactly when the walk succeeds. It is the first bun entry, preceded only by readable non-bun entries, written to `dest/target` |
| ExtractUtils.BunNotFound | src-tauri/src/utils/extract.rs:115 | readable entries none of which is bun give `Bun binary not found in archive` |
| ExtractUtils.BunIgnoresLater | src-tauri/src/utils/extract.rs:105-111 | once the walk has decided, later entries change nothing |
| ExtractUtils.ExtractBun | src-tauri/src/utils/extract.rs:86-116 | the loop with its early return writes and returns exactly what the bun walk specifies |
| FfmpegService.FirstLine | src-tauri/src/services/ffmpeg.rs:139 | there is a first line exactly when the output is non-empty. It is a prefix without a line feed that ends at the first line feed (less one carriage return just before it) or at the end of the text |
| FfmpegService.ParseFfmpegVersion | src-tauri/src/services/ffmpeg.rs:138-145 | `unknown` when there is no first line, when it does not start with `ffmpeg version `, or when only white space follows the prefix; otherwise the first white-space-delimited word after the prefix |
| FfmpegService.VersionOfBanner | src-tauri/src/services/ffmpeg.rs:140-141 | a banner `ffmpeg version`, any run of spaces, `v`, then white space or the end gives exactly `v` |
| FfmpegService.OnlyFirstLine | src-tauri/src/services/ffmpeg.rs:139 | whatever follows the first line feed does not change the version |
| FfmpegService.FirstLineCut | src-tauri/src/services/ffmpeg.rs:139 | the first line of a text with a line feed is what comes before it, less one carriage return right before the line feed |
| Sources.Normalize | src/lib/sources.ts:87 | the key has only lower-case `a-z` letters and is no longer than the name |
| Sources.NormalizeChar | src/lib/sources.ts:87 | character by character: `A`-`Z` become `a`-`z`, `a`-`z` stay, and every other character is dropped |
| Sources.NormalizeKey | src/lib/sources.ts:87 | a name of lower-case letters is its own key |
| Sources.NormalizeIdempotent | src/lib/sources.ts:87 | normalising twice is normalising once |
| Sources.NormalizeConcat | src/lib/sources.ts:87 | normalisation works character by character: it distributes over concatenation |
| Sources.FirstMatch | src/lib/sources.ts:90-94 | the table row found is the first whose key occurs in the normalised name, and none is found only when no key occurs |
| Sources.DetectSourceSpec | src/lib/sources.ts:83-100 | a missing or empty extractor gives the default source. Otherwise the result is the first row whose key occurs in the normalised name. With no match, it is platform `other` labelled with the capitalised extractor |
| Sources.YouTubeExtractor | src/lib/sources.ts:87-92 | every extractor name starting `YouTube` gets the YouTube badge |
| Sources.SplitNewlineConcat | src/lib/sources.ts:120 | the lines of `a + "\n" + b` are the lines of `a` followed by those of `b` |
| Sources.OneLine | src/lib/sources.ts:120 | a text without a line feed is a single line |
| Sources.KeptLinesValid | src/lib/sources.ts:121-127 | every line kept is trimmed, non-empty, not a `#` comment and a valid http(s) URL |
| Sources.ParsedUrlsValid | src/lib/sources.ts:118-128 | every URL parsed from a text is trimmed, non-empty, not a comment and a valid http(s) URL |
| Sources.KeepLinesConcat | src/lib/sources.ts:122-127 | filtering keeps order and duplicates: it distributes over concatenation |
| Sources.ParseOneLine | src/lib/sources.ts:118-128 | a text without a line feed gives its trimmed self when that is kept, and nothing otherwise |
| Sources.ParseConcat | src/lib/sources.ts:118-128 | the URLs of two texts joined by a line feed are those of the first followed by those of the second |
| Themes.FindTheme | src/lib/themes.ts:173 | the index found is the first theme with the name, and none is found only when no theme has it |
| Themes.GetTheme | src/lib/themes.ts:172-174 | the theme returned is one of the table's |
| Themes.TableNames | src/lib/themes.ts:31-170 | the table has six themes whose names are the six theme names, in order and each once |
| Themes.GetThemeSpec | src/lib/themes.ts:172-174 | every theme name gets its own theme; any other name gets the first theme, `midnight` |
| SubtitleEntries.SelectedEntries | src/components/subtitles/TimingDialog.tsx:37 | the selected entries are exactly the entries with a selected id |
| SubtitleEntries.SelectedConcat | src/components/subtitles/TimingDialog.tsx:37 | selection distributes over concatenation, so entry order is kept |
| SubtitleEntries.Scope | src/components/subtitles/TranslateDialog.tsx:24-27 | with no selection the scope is every entry; otherwise it is exactly the selected entries |
| TimingDialog.Clamp | src/components/subtitles/TimingDialog.tsx:43-44 | `max(0, t)`: never negative and never below t, so 0 for a negative t and t itself otherwise |
| TimingDialog.JsRound | src/components/subtitles/TimingDialog.tsx:58 | `Math.round` gives the integer within half a unit, halves rounding up |
| TimingDialog.RoundInteger | src/components/subtitles/TimingDialog.tsx:58 | rounding an integer gives it back |
| TimingDialog.RoundMonotone | src/components/subtitles/TimingDialog.tsx:58 | rounding keeps order |
| TimingDialog.ShiftSpec | src/components/subtitles/TimingDialog.tsx:32-50 | a zero shift gives no changes. Any other shift gives one change per target, in order, with its id, start `max(0, start + shift)` and end `max(0, end + shift)`. A cue that stays clear of zero keeps its length |
| TimingDialog.ShiftTargetsSpec | src/components/subtitles/TimingDialog.tsx:35-38 | selection mode with a non-empty selection shifts exactly the selected cues, in order; otherwise all cues are shifted |
| TimingDialog.ShiftBack | src/components/subtitles/TimingDialog.tsx:43-44 | a shift that keeps a time clear of zero is undone by the opposite shift |
| TimingDialog.ScaleSpec | src/components/subtitles/TimingDialog.tsx:52-65 | ratio 1 gives no changes. Any other ratio changes every cue in order, each time to `max(0, Math.round(t * ratio))`; for a non-negative ratio a cue's start stays at or before its end |
| TimingDialog.ScaleByOne | src/components/subtitles/TimingDialog.tsx:58 | scaling a non-negative time by one gives it back, so the skipped case would change nothing |
| TimingDialog.TwoPointLine | src/components/subtitles/TimingDialog.tsx:70-72 | over exact reals the line `a*t+b` sends each original point to its desired point |
| TimingDialog.TwoPointSpec | src/components/subtitles/TimingDialog.tsx:67-84 | equal original points give no changes. Otherwise every cue changes, in order, each time to `max(0, Math.round(a*t + b))` with the line's slope and offset, and a cue starting at an original point whose desired point is a whole millisecond starts at that desired point (clamped at 0) |
| TranslateDialog.Prompt | src/components/subtitles/TranslateDialog.tsx:47 | the prompt is exactly the instructions naming the language followed by the batch text |
| TranslateDialog.PiecesSpec | src/components/subtitles/TranslateDialog.tsx:53 | a reply gives one piece per part of its split at `---SEPARATOR---`: piece k is part k trimmed, so no piece starts or ends with white space |
| TranslateDialog.PiecesOfEchoedReply | src/components/subtitles/TranslateDialog.tsx:42-53 | a reply in the prompt's own layout, trimmed texts without the marker joined by the separator line, is cut back into exactly those texts |
| TranslateDialog.BatchCounts | src/components/subtitles/TranslateDialog.tsx:40-41 | when every call comes back there are ⌈n/20⌉ prompts and progress values and n changes; after a failure there is one more prompt than progress value |
| TranslateDialog.PromptsSent | src/components/subtitles/TranslateDialog.tsx:40-49 | prompt b is the prompt for batch b, the cues from 20·b to 20·b+20 or the end |
| TranslateDialog.ProgressReported | src/components/subtitles/TranslateDialog.tsx:63-66 | progress value b is `min(20·(b+1), n)` and is reported only after call b came back |
| TranslateDialog.ChangesPerCue | src/components/subtitles/TranslateDialog.tsx:53-61 | when every call comes back, cue k gets exactly change k: its own id, and piece k mod 20 of reply k/20, or its own text when that piece is missing or empty |
| TranslateDialog.TranslateFails | src/components/subtitles/TranslateDialog.tsx:69-72 | a failed run ends with the last call's error after every earlier call came back, and produces no change |
| TranslateDialog.ProgressGrows | src/components/subtitles/TranslateDialog.tsx:63-66 | progress never decreases, and once every batch is back it has reached n |
| TranslateDialog.HandleTranslate | src/components/subtitles/TranslateDialog.tsx:23-76 | an empty scope returns before any call. Otherwise the handler sends the batch prompts, naming the listed language name or else the code, and reports the progress of the specified run, then applies its changes or shows its error |
| TranslateDialog.TranslateBatches | src/components/subtitles/TranslateDialog.tsx:40-67 | the loop stepping by 20 sends, reports and queues exactly what the batched run specifies |
| TranslateDialog.QueueChanges | src/components/subtitles/TranslateDialog.tsx:55-61 | the inner loop appends the batch's changes to those already queued |
| SubtitlePreview.FindCue | src/components/subtitles/SubtitleVideoPreview.tsx:46 | the cue found is the first whose span holds the time, both ends included; none is found only when no cue holds it |
| SubtitlePreview.CueText | src/components/subtitles/SubtitleVideoPreview.tsx:47 | a non-empty text is shown only when some cue holds the time |
| SubtitlePreview.CueTextSpec | src/components/subtitles/SubtitleVideoPreview.tsx:46-47 | the text shown is the first covering cue's text, and it is empty exactly when no cue covers the time or that cue's text is empty |
| SubtitlePreview.FindEntry | src/components/subtitles/SubtitleVideoPreview.tsx:102 | the entry found is the first with the id; none is found only when no entry has it |
| SubtitlePreview.SeekTarget | src/components/subtitles/SubtitleVideoPreview.tsx:101-103 | a seek target exists exactly when the active id is present, non-empty and some entry has it; it is the first such entry |
| SubtitlePreview.VideoElement.Play | src/components/subtitles/SubtitleVideoPreview.tsx:87 | playing unpauses the video and keeps its position |
| SubtitlePreview.VideoElement.Pause | src/components/subtitles/SubtitleVideoPreview.tsx:89 | pausing pauses the video and keeps its position |
| SubtitlePreview.HandlePlayPause | src/components/subtitles/SubtitleVideoPreview.tsx:83-91 | a video's paused state is toggled and its position kept; without a video nothing happens |
| SubtitlePreview.SeekToActiveEntry | src/components/subtitles/SubtitleVideoPreview.tsx:93-106 | with a seek target the video moves to that entry's start in seconds; otherwise it stays where it is. It is never played or paused |
| SubtitlePreview.SeekShowsCue | src/components/subtitles/SubtitleVideoPreview.tsx:96-104 | after seeking to an entry whose start is not after its end, a cue is shown: that entry's or an earlier one covering its start |
| SubtitlePreview.Preview.UpdateTime | src/components/subtitles/SubtitleVideoPreview.tsx:41-52 | the reported time is the video position in milliseconds and the text shown is the cue text there. Another frame is wanted exactly when the video plays |
| SubtitlePreview.Preview.OnPlay | src/components/subtitles/SubtitleVideoPreview.tsx:54-57 | playing is reported; text and time are kept |
| SubtitlePreview.Preview.OnPause | src/components/subtitles/SubtitleVideoPreview.tsx:59-63 | pausing is reported, and the time and text are read once more |

## Left out

- Process and OS I/O are parameters. This covers spawning the sidecar or the system yt-dlp, `kill_all_download_processes`, `stop_download` (its `pkill`/`taskkill` and 500 ms sleep), the stdout/stderr pipes and `get_ytdlp_path`. The model gets the event sequence a process would deliver, or a `Launch` value saying whether yt-dlp was found and started.
- Concurrency is left out. The `AtomicBool` cancel flags appear as a boolean sampled at each check, and `tokio::select!` as an arbitrary merged sequence of stdout/stderr passes.
- The sidecar-to-system fallback of `download_video` (the choice of which loop runs) is not modelled; both loops are.
- Floating point is left out:
  - the f64 percent is kept as the matched number text, which always parses;
  - `format_size` keeps the byte count, divisor and unit, not the two-decimal text;
  - the duration `f64 as i64` is not modelled;
  - `Math.round`, the two-point line and the video time conversion work on exact reals. The two-point line's properties hold before rounding.
- The regular expressions are hand-written scanners for the specific patterns, with `\d` as ASCII digits. Rust's `\d` is Unicode-aware. `from_utf8_lossy` is not modelled: lines are text.
- `sanitize_output_path` is a parameter: the model gets its result or its error. `add_log_internal`, `add_history_internal` and every event emission other than the records themselves are not modelled. The history entry a metadata fetch records is returned as its `Ok` value.
- Decompression, `std::fs` writes and Windows path separators are left out. `FileName` takes `/` as the only separator, and a zip write failure keeps no partial file in the model.
- The WHATWG URL parser behind `isValidUrl` is a function parameter giving the parsed protocol, or nothing when parsing throws.
- Case mapping in `detectSource` is ASCII only. Dafny characters are Unicode scalar values, not the UTF-16 units JavaScript strings index.
- The AI backend (`generate_ai_response`) is a function from prompt to reply or error.
- `LANGUAGE_OPTIONS` is not part of this model: `HandleTranslate` takes the target code and the name the lookup found, if any, and names the language in its prompts through `TargetLanguageName`.
- The React state setters are not modelled; the handlers return the changes passed to `updateEntries`, the progress values and the error. The initial `setProgress({ current: 0, total: n })` (TranslateDialog.tsx:32) is not among the progress values returned; only the value after each batch is. `SubtitleContext` is not part of this model.
- Shift amounts are integer milliseconds; the dialog's numeric inputs are not modelled.
- The `requestAnimationFrame` re-scheduling and the event-listener wiring of the preview are not modelled: `UpdateTime` returns whether another frame is wanted. `play()` is modelled as succeeding; its promise rejection is left out.
- Loading a video (the file dialog and the `encodeURIComponent` source URL) is not modelled.
- The theme `emoji` field is not modelled: its text in the source is mis-encoded.
- `handle_tokio_download`'s `Failed to get stdout` error and `fetch_metadata`'s `Failed to capture stdout` and `Failed to capture stderr` errors (metadata.rs:135, 139) are not modelled: the pipes are always there in the model. A `next_line` error ends the tokio loop like the end of stream, as `while let Ok(Some(..))` does.
- The download queue store (`DownloadContext`) is not part of this model.
