/** The metadata command of the backend (src-tauri/src/commands/metadata.rs): yt-dlp is
    run with downloading switched off, to save the info JSON, the description, the
    comments and the thumbnail next to each other, and to write
    `title|||thumbnail|||duration` to stdout. The command reads the process's stdout and stderr
    until stdout closes, keeping the first title it sees and the last error line, and
    reports the saved files on success. */
module MetadataCommand {
  import opened Text

  // ---------------------------------------------------------------------------
  // Arguments
  // ---------------------------------------------------------------------------

  datatype MetadataFlags = MetadataFlags(infoJson: bool, description: bool, comments: bool, thumbnail: bool)

  /** Comments live inside the info JSON, so asking for them also writes that file. */
  predicate NeedInfoJson(flags: MetadataFlags)
  {
    flags.infoJson || flags.comments
  }

  const PrintTemplate: string := "%(title)s|||%(thumbnail)s|||%(duration)s"

  /** `items` when `c` holds, nothing otherwise. */
  function When(c: bool, items: seq<string>): seq<string>
  {
    if c then items else []
  }

  /** The options between the fixed leading arguments and the trailing template option. */
  function MetadataOptions(path: string, flags: MetadataFlags): seq<string>
  {
    When(flags.description, ["-o", DescriptionTemplate(path)])
    + When(NeedInfoJson(flags), ["--write-info-json", "--no-clean-info-json"])
    + When(flags.description, ["--write-description"])
    + When(flags.comments, ["--write-comments"])
    + When(flags.thumbnail, ["--write-thumbnail", "--convert-thumbnails", "jpg"])
  }

  /** The description gets its own output template, with a `.description.txt` name. */
  function DescriptionTemplate(path: string): (t: string)
    ensures StartsWith(t, "description:") && EndsWith(t, "/%(title)s.description.txt")
    ensures |t| == 12 + |path| + 26 && t[12..12 + |path|] == path
  {
    "description:" + path + "/%(title)s.description.txt"
  }

  /** What the options hold, switch by switch. */
  lemma OptionsMembers(path: string, flags: MetadataFlags, x: string)
    ensures x in MetadataOptions(path, flags) <==>
              (flags.description && (x == "-o" || x == DescriptionTemplate(path) || x == "--write-description"))
              || (NeedInfoJson(flags) && (x == "--write-info-json" || x == "--no-clean-info-json"))
              || (flags.comments && x == "--write-comments")
              || (flags.thumbnail && (x == "--write-thumbnail" || x == "--convert-thumbnails" || x == "jpg"))
  {
  }

  /** The switches tell each other apart by a single character. */
  lemma SwitchLetters(path: string)
    ensures DescriptionTemplate(path)[0] == 'd'
    ensures "--write-info-json"[8] == 'i' && "--write-description"[8] == 'd' && "--write-comments"[8] == 'c'
            && "--write-thumbnail"[8] == 't'
    ensures "--no-clean-info-json"[2] == 'n' && "--convert-thumbnails"[2] == 'c' && "--write-comments"[2] == 'w'
  {
  }

  /** The info JSON switches are present exactly when the info JSON or the comments are
      asked for. */
  lemma OptionsInfoJson(path: string, flags: MetadataFlags)
    ensures "--write-info-json" in MetadataOptions(path, flags) <==> NeedInfoJson(flags)
    ensures "--no-clean-info-json" in MetadataOptions(path, flags) <==> NeedInfoJson(flags)
  {
    SwitchLetters(path);
    OptionsMembers(path, flags, "--write-info-json");
    OptionsMembers(path, flags, "--no-clean-info-json");
  }

  /** `--write-description` and the description's output template are present exactly
      when the description is asked for. */
  lemma OptionsDescription(path: string, flags: MetadataFlags)
    ensures "--write-description" in MetadataOptions(path, flags) <==> flags.description
    ensures DescriptionTemplate(path) in MetadataOptions(path, flags) <==> flags.description
    ensures "-o" in MetadataOptions(path, flags) <==> flags.description
  {
    SwitchLetters(path);
    OptionsMembers(path, flags, "--write-description");
    OptionsMembers(path, flags, DescriptionTemplate(path));
    OptionsMembers(path, flags, "-o");
  }

  /** `--write-comments` is present exactly when the comments are asked for. */
  lemma OptionsComments(path: string, flags: MetadataFlags)
    ensures "--write-comments" in MetadataOptions(path, flags) <==> flags.comments
  {
    SwitchLetters(path);
    OptionsMembers(path, flags, "--write-comments");
  }

  /** The thumbnail switches are present exactly when the thumbnail is asked for. */
  lemma OptionsThumbnail(path: string, flags: MetadataFlags)
    ensures "--write-thumbnail" in MetadataOptions(path, flags) <==> flags.thumbnail
    ensures "--convert-thumbnails" in MetadataOptions(path, flags) <==> flags.thumbnail
  {
    SwitchLetters(path);
    OptionsMembers(path, flags, "--write-thumbnail");
    OptionsMembers(path, flags, "--convert-thumbnails");
  }

  /** The yt-dlp argument vector, built by pushing onto a growing vector (a push under
      a condition appends `When(condition, items)`); `path` is the output folder after
      sanitising. */
  method BuildMetadataArgs(url: string, path: string, flags: MetadataFlags) returns (args: seq<string>)
    ensures |args| >= 8
    ensures args[..5] == ["--skip-download", "--no-warnings", "--no-simulate", "-o", path + "/%(title)s"]
    ensures args[|args| - 3..] == ["--print", PrintTemplate, url]
    ensures args[5..|args| - 3] == MetadataOptions(path, flags)
  {
    args := ["--skip-download", "--no-warnings", "--no-simulate", "-o", path + "/%(title)s"];
    ghost var fixed := args;
    args := args + When(flags.description, ["-o", DescriptionTemplate(path)]);
    var needInfoJson := flags.infoJson || flags.comments;
    args := args + When(needInfoJson, ["--write-info-json", "--no-clean-info-json"]);
    args := args + When(flags.description, ["--write-description"]);
    args := args + When(flags.comments, ["--write-comments"]);
    args := args + When(flags.thumbnail, ["--write-thumbnail", "--convert-thumbnails", "jpg"]);
    args := args + ["--print", PrintTemplate];
    args := args + [url];
    ArgsShape(fixed, When(flags.description, ["-o", DescriptionTemplate(path)]),
              When(needInfoJson, ["--write-info-json", "--no-clean-info-json"]),
              When(flags.description, ["--write-description"]), When(flags.comments, ["--write-comments"]),
              When(flags.thumbnail, ["--write-thumbnail", "--convert-thumbnails", "jpg"]), ["--print", PrintTemplate], [url]);
  }

  lemma ArgsShape(fixed: seq<string>, w1: seq<string>, w2: seq<string>, w3: seq<string>, w4: seq<string>,
                  w5: seq<string>, templateOpt: seq<string>, last: seq<string>)
    requires |fixed| == 5 && |templateOpt| == 2 && |last| == 1
    ensures var a := fixed + w1 + w2 + w3 + w4 + w5 + templateOpt + last;
            a[..5] == fixed && a[|a| - 3..] == templateOpt + last && a[5..|a| - 3] == w1 + w2 + w3 + w4 + w5
  {
    var opts := w1 + w2 + w3 + w4 + w5;
    assert fixed + w1 + w2 + w3 + w4 + w5 == fixed + opts;
    assert fixed + w1 + w2 + w3 + w4 + w5 + templateOpt + last == fixed + opts + (templateOpt + last);
  }

  // ---------------------------------------------------------------------------
  // Reading the process output
  // ---------------------------------------------------------------------------

  /** What the loop has learnt so far. The duration is parsed as a float and only
      feeds the history entry; it is not modelled. */
  datatype MetaState = MetaState(title: Option<string>, thumbnail: Option<string>, error: Option<string>)

  const Initial: MetaState := MetaState(None, None, None)

  /** A progress event sent to the frontend. */
  datatype MetadataProgress = MetadataProgress(id: string, status: string, title: Option<string>,
                                               thumbnail: Option<string>, errorMessage: Option<string>)

  datatype Observed = Observed(state: MetaState, record: Option<MetadataProgress>)

  /** One stdout line. While no title is known: a `|||` line with at least three parts
      sets the title to the first part and the thumbnail to the second unless it is
      `NA` or empty (a `|||` line with fewer parts is ignored); any other non-empty
      line that does not start with `[` becomes the title. */
  function OnStdout(id: string, st: MetaState, text: string): Observed
  {
    if st.title.None? && Contains(text, "|||") then
      var parts := Split(text, "|||");
      if |parts| >= 3 then
        var thumbnail := if parts[1] != "NA" && parts[1] != "" then Some(parts[1]) else st.thumbnail;
        var st' := st.(title := Some(parts[0]), thumbnail := thumbnail);
        Observed(st', Some(MetadataProgress(id, "fetching", st'.title, st'.thumbnail, None)))
      else Observed(st, None)
    else if st.title.None? && text != "" && !StartsWith(text, "[") then
      Observed(st.(title := Some(text)), Some(MetadataProgress(id, "fetching", Some(text), None, None)))
    else Observed(st, None)
  }

  /** Once a title is known stdout changes nothing; before that, a record goes out
      exactly when a title is taken, and a plain line (no `|||`) becomes the title,
      with no thumbnail in its record, unless it is empty or starts with `[`. */
  lemma OnStdoutSpec(id: string, st: MetaState, text: string)
    ensures var o := OnStdout(id, st, text);
            o.state.error == st.error
            && (st.title.Some? ==> o == Observed(st, None))
            && (o.record.Some? <==> st.title.None? && o.state.title.Some?)
            && (o.record.Some? ==> o.record.value.status == "fetching" && o.record.value.id == id
                                   && o.record.value.title == o.state.title && o.record.value.errorMessage == None)
            && (st.title.None? && !Contains(text, "|||") && text != "" && !StartsWith(text, "[") ==>
                  o.state == st.(title := Some(text))
                  && o.record == Some(MetadataProgress(id, "fetching", Some(text), None, None)))
            && (st.title.None? && !Contains(text, "|||") && (text == "" || StartsWith(text, "[")) ==>
                  o == Observed(st, None))
  {
  }

  /** The `|||` line: with three or more parts the first is the title and the second
      the thumbnail unless it is `NA` or empty; with fewer the line changes nothing. */
  lemma OnStdoutSeparated(id: string, st: MetaState, text: string)
    requires st.title.None? && Contains(text, "|||")
    ensures var parts := Split(text, "|||");
            var o := OnStdout(id, st, text);
            (|parts| >= 3 ==> o.state.title == Some(parts[0])
                              && o.state.thumbnail == (if parts[1] == "NA" || parts[1] == "" then st.thumbnail else Some(parts[1])))
            && (|parts| < 3 ==> o == Observed(st, None))
            && Join(parts, "|||") == text
  {
  }

  /** One stderr line: a line mentioning `ERROR` becomes the error message. */
  function OnStderr(st: MetaState, text: string): MetaState
  {
    if Contains(text, "ERROR") then st.(error := Some(text)) else st
  }

  /** One pass of the loop: the cancel flag as sampled at the top of the pass, and the
      branch of `select!` that fired. Both the end of stdout and a read error on it end
      the loop; on stderr they do nothing. */
  datatype Pipe = OutLine(text: string) | OutEnd | ErrLine(text: string) | ErrQuiet

  datatype Step = Step(cancelled: bool, pipe: Pipe)

  /** Where the loop stopped: its records, its state, and whether it was cancelled. */
  datatype LoopResult = LoopResult(records: seq<MetadataProgress>, state: MetaState, cancelled: bool)

  function Emit(r: Option<MetadataProgress>): seq<MetadataProgress>
  {
    if r.Some? then [r.value] else []
  }

  function PrependLoop(rs: seq<MetadataProgress>, l: LoopResult): LoopResult
  {
    l.(records := rs + l.records)
  }

  /** One pass that neither was cancelled nor saw stdout close. */
  function Pass(id: string, st: MetaState, pipe: Pipe): Observed
  {
    match pipe
    case OutLine(text) => OnStdout(id, st, text)
    case ErrLine(text) => Observed(OnStderr(st, text), None)
    case _ => Observed(st, None)
  }

  lemma PassSpec(id: string, st: MetaState, pipe: Pipe)
    ensures var o := Pass(id, st, pipe);
            (st.title.Some? ==> o.state.title == st.title && o.record == None)
            && (o.record.Some? <==> st.title.None? && o.state.title.Some?)
            && (o.record.Some? ==> o.record.value.status == "fetching" && o.record.value.id == id
                                   && o.record.value.title == o.state.title)
            && o.state.error == if pipe.ErrLine? && Contains(pipe.text, "ERROR") then Some(pipe.text) else st.error
  {
    if pipe.OutLine? {
      OnStdoutSpec(id, st, pipe.text);
    }
  }

  /** The loop as a fold over its passes. An exhausted sequence stands for stdout
      closing. */
  function Loop(id: string, st: MetaState, steps: seq<Step>): LoopResult
    decreases |steps|
  {
    if steps == [] then LoopResult([], st, false)
    else if steps[0].cancelled then LoopResult([], st, true)
    else if steps[0].pipe == OutEnd then LoopResult([], st, false)
    else
      var o := Pass(id, st, steps[0].pipe);
      PrependLoop(Emit(o.record), Loop(id, o.state, steps[1..]))
  }

  /** The loop is cancelled exactly when some pass sees the flag set before stdout
      has closed. */
  lemma {:induction false} LoopCancelled(id: string, st: MetaState, steps: seq<Step>)
    ensures Loop(id, st, steps).cancelled
        <==> exists k :: 0 <= k < |steps| && steps[k].cancelled && forall j :: 0 <= j < k ==> steps[j].pipe != OutEnd
    decreases |steps|
  {
    if steps != [] && !steps[0].cancelled && steps[0].pipe != OutEnd {
      var st' := Pass(id, st, steps[0].pipe).state;
      LoopCancelled(id, st', steps[1..]);
      assert Loop(id, st, steps).cancelled == Loop(id, st', steps[1..]).cancelled;
      if Loop(id, st, steps).cancelled {
        var k :| 0 <= k < |steps[1..]| && steps[1..][k].cancelled && forall j :: 0 <= j < k ==> steps[1..][j].pipe != OutEnd;
        assert steps[k + 1].cancelled;
        assert forall j :: 0 <= j < k + 1 ==> steps[j].pipe != OutEnd by {
          forall j | 0 <= j < k + 1 ensures steps[j].pipe != OutEnd {
            if j > 0 { assert steps[j] == steps[1..][j - 1]; }
          }
        }
      } else {
        forall k | 0 <= k < |steps| && steps[k].cancelled
          ensures exists j :: 0 <= j < k && steps[j].pipe == OutEnd
        {
          assert k > 0;
          assert steps[1..][k - 1] == steps[k];
          var j :| 0 <= j < k - 1 && steps[1..][j].pipe == OutEnd;
          assert steps[j + 1].pipe == OutEnd;
        }
      }
    }
  }

  /** The passes the loop works through before it stops (on a cancel or on stdout
      closing). */
  function Live(steps: seq<Step>): (live: seq<Step>)
    ensures |live| <= |steps| && live == steps[..|live|]
    ensures forall j :: 0 <= j < |live| ==> !live[j].cancelled && live[j].pipe != OutEnd
    ensures |live| < |steps| ==> steps[|live|].cancelled || steps[|live|].pipe == OutEnd
  {
    if steps == [] || steps[0].cancelled || steps[0].pipe == OutEnd then []
    else [steps[0]] + Live(steps[1..])
  }

  /** The stderr lines that mention `ERROR`, in order. */
  function ErrorLines(steps: seq<Step>): (lines: seq<string>)
    ensures forall j :: 0 <= j < |lines| ==> Contains(lines[j], "ERROR")
  {
    if steps == [] then []
    else if steps[0].pipe.ErrLine? && Contains(steps[0].pipe.text, "ERROR") then [steps[0].pipe.text] + ErrorLines(steps[1..])
    else ErrorLines(steps[1..])
  }

  /** The error message left by the loop is the last stderr line mentioning `ERROR`
      before it stopped, or the earlier one when there is none. */
  lemma {:induction false} LoopError(id: string, st: MetaState, steps: seq<Step>)
    ensures var lines := ErrorLines(Live(steps));
            Loop(id, st, steps).state.error == if lines == [] then st.error else Some(lines[|lines| - 1])
    decreases |steps|
  {
    if steps != [] && !steps[0].cancelled && steps[0].pipe != OutEnd {
      assert Live(steps) == [steps[0]] + Live(steps[1..]);
      PassSpec(id, st, steps[0].pipe);
      LoopError(id, Pass(id, st, steps[0].pipe).state, steps[1..]);
    }
  }

  /** Once a title is known, no later stdout line changes it, and nothing more is
      emitted. */
  lemma {:induction false} LoopTitleStable(id: string, st: MetaState, steps: seq<Step>)
    requires st.title.Some?
    ensures Loop(id, st, steps).state.title == st.title
    ensures Loop(id, st, steps).records == []
    decreases |steps|
  {
    if steps != [] && !steps[0].cancelled && steps[0].pipe != OutEnd {
      PassSpec(id, st, steps[0].pipe);
      LoopTitleStable(id, Pass(id, st, steps[0].pipe).state, steps[1..]);
    }
  }

  /** The loop emits at most one record: the one that sets the title. */
  lemma {:induction false} LoopRecords(id: string, st: MetaState, steps: seq<Step>)
    ensures var l := Loop(id, st, steps);
            |l.records| <= 1
            && (|l.records| == 1 <==> st.title.None? && l.state.title.Some?)
            && (|l.records| == 1 ==> l.records[0].status == "fetching" && l.records[0].id == id
                                     && l.records[0].title == l.state.title)
    decreases |steps|
  {
    if steps != [] && !steps[0].cancelled && steps[0].pipe != OutEnd {
      var o := Pass(id, st, steps[0].pipe);
      PassSpec(id, st, steps[0].pipe);
      if o.record.Some? {
        LoopTitleStable(id, o.state, steps[1..]);
      } else {
        LoopRecords(id, o.state, steps[1..]);
      }
    }
  }

  // ---------------------------------------------------------------------------
  // Outcome
  // ---------------------------------------------------------------------------

  /** What a successful fetch records in the history: the title (`Unknown` when none was
      seen), the thumbnail and the list of saved files. */
  datatype HistoryEntry = HistoryEntry(title: string, thumbnail: Option<string>, filesSaved: seq<string>)

  datatype MetaOutcome = MetaOutcome(emitted: seq<MetadataProgress>, result: Result<HistoryEntry, string>)

  /** The saved files, in the fixed order info JSON, description, thumbnail, each present
      exactly when it was asked for. */
  function FilesSaved(flags: MetadataFlags): (files: seq<string>)
    ensures "info.json" in files <==> NeedInfoJson(flags)
    ensures "description.txt" in files <==> flags.description
    ensures "thumbnail.jpg" in files <==> flags.thumbnail
    ensures forall i, j :: 0 <= i < j < |files| ==> FileRank(files[i]) < FileRank(files[j])
  {
    (if NeedInfoJson(flags) then ["info.json"] else [])
    + (if flags.description then ["description.txt"] else [])
    + (if flags.thumbnail then ["thumbnail.jpg"] else [])
  }

  function FileRank(name: string): nat
  {
    if name == "info.json" then 0 else if name == "description.txt" then 1 else 2
  }

  /** After the process exits: a wait failure, or an exit status. */
  datatype WaitResult = WaitFailed(message: string) | Exited(success: bool)

  const DefaultError: string := "Failed to fetch metadata"

  function Finish(id: string, flags: MetadataFlags, st: MetaState, wait: WaitResult): MetaOutcome
  {
    match wait
    case WaitFailed(message) => MetaOutcome([], Err("Process error: " + message))
    case Exited(success) =>
      if success then
        var title := if st.title.Some? then st.title.value else "Unknown";
        MetaOutcome([MetadataProgress(id, "finished", st.title, st.thumbnail, None)],
                    Ok(HistoryEntry(title, st.thumbnail, FilesSaved(flags))))
      else
        var message := if st.error.Some? then st.error.value else DefaultError;
        MetaOutcome([MetadataProgress(id, "error", st.title, st.thumbnail, Some(message))], Err(message))
  }

  /** The run of the process from the first pass of the loop to the end. */
  function MetaRun(id: string, flags: MetadataFlags, steps: seq<Step>, wait: WaitResult): MetaOutcome
  {
    var l := Loop(id, Initial, steps);
    if l.cancelled then MetaOutcome(l.records, Err("Metadata fetch cancelled"))
    else
      var f := Finish(id, flags, l.state, wait);
      MetaOutcome(l.records + f.emitted, f.result)
  }

  /** How far the command gets before reading output: yt-dlp may be missing or fail to
      start. */
  datatype Launch = NotFound | SpawnFailed(message: string) | Ran(steps: seq<Step>, wait: WaitResult)

  /** `fetch_metadata`: the sanitised output folder (or the sanitiser's error), the
      flags, and what happened to the process. */
  function FetchMetadata(id: string, sanitized: Result<string, string>, flags: MetadataFlags, launch: Launch): (o: MetaOutcome)
    ensures sanitized.Err? ==> o == MetaOutcome([], Err(sanitized.error))
    ensures sanitized.Ok? ==> |o.emitted| >= 1 && o.emitted[0] == MetadataProgress(id, "fetching", None, None, None)
    ensures sanitized.Ok? && launch.NotFound? ==> |o.emitted| == 1 && o.result == Err("yt-dlp not found")
    ensures sanitized.Ok? && launch.SpawnFailed? ==>
              |o.emitted| == 1 && o.result == Err("Failed to start yt-dlp: " + launch.message)
    ensures sanitized.Ok? && launch.Ran? ==>
              var run := MetaRun(id, flags, launch.steps, launch.wait);
              o.emitted[1..] == run.emitted && o.result == run.result
  {
    match sanitized
    case Err(e) => MetaOutcome([], Err(e))
    case Ok(_) =>
      var first := MetadataProgress(id, "fetching", None, None, None);
      match launch
      case NotFound => MetaOutcome([first], Err("yt-dlp not found"))
      case SpawnFailed(message) => MetaOutcome([first], Err("Failed to start yt-dlp: " + message))
      case Ran(steps, wait) =>
        var o := MetaRun(id, flags, steps, wait);
        MetaOutcome([first] + o.emitted, o.result)
  }

  /** A cancel seen before stdout closes ends the command with the cancel error and
      neither a `finished` nor an `error` record. */
  lemma RunCancelled(id: string, flags: MetadataFlags, steps: seq<Step>, wait: WaitResult, k: nat)
    requires k < |steps| && steps[k].cancelled && forall j :: 0 <= j < k ==> steps[j].pipe != OutEnd
    ensures MetaRun(id, flags, steps, wait).result == Err("Metadata fetch cancelled")
    ensures forall r :: r in MetaRun(id, flags, steps, wait).emitted ==> r.status == "fetching"
  {
    LoopCancelled(id, Initial, steps);
    LoopRecords(id, Initial, steps);
  }

  /** A successful exit records the first title seen (or `Unknown`), the thumbnail and
      the saved files, and ends with one `finished` record. */
  lemma RunSucceeded(id: string, flags: MetadataFlags, steps: seq<Step>)
    requires !Loop(id, Initial, steps).cancelled
    ensures var o := MetaRun(id, flags, steps, Exited(true));
            var st := Loop(id, Initial, steps).state;
            o.result == Ok(HistoryEntry(if st.title.Some? then st.title.value else "Unknown", st.thumbnail, FilesSaved(flags)))
            && |o.emitted| >= 1
            && o.emitted[|o.emitted| - 1] == MetadataProgress(id, "finished", st.title, st.thumbnail, None)
            && forall i :: 0 <= i < |o.emitted| - 1 ==> o.emitted[i].status == "fetching"
  {
    LoopRecords(id, Initial, steps);
  }

  /** A failed exit reports the last stderr line mentioning `ERROR`, or the default
      message when there was none, in the result and in a final `error` record. */
  lemma RunFailed(id: string, flags: MetadataFlags, steps: seq<Step>)
    requires !Loop(id, Initial, steps).cancelled
    ensures var o := MetaRun(id, flags, steps, Exited(false));
            var lines := ErrorLines(Live(steps));
            var message := if lines == [] then DefaultError else lines[|lines| - 1];
            o.result == Err(message)
            && |o.emitted| >= 1 && o.emitted[|o.emitted| - 1].status == "error"
            && o.emitted[|o.emitted| - 1].errorMessage == Some(message)
  {
    LoopError(id, Initial, steps);
  }

  // ---------------------------------------------------------------------------
  // The loop, step by step
  // ---------------------------------------------------------------------------

  lemma PrependLoopAssoc(a: seq<MetadataProgress>, b: seq<MetadataProgress>, l: LoopResult)
    ensures PrependLoop(a, PrependLoop(b, l)) == PrependLoop(a + b, l)
  {
    assert a + (b + l.records) == a + b + l.records;
  }

  lemma LoopStep(id: string, st: MetaState, steps: seq<Step>, i: nat)
    requires i < |steps| && !steps[i].cancelled && steps[i].pipe != OutEnd
    ensures var o := Pass(id, st, steps[i].pipe);
            Loop(id, st, steps[i..]) == PrependLoop(Emit(o.record), Loop(id, o.state, steps[i + 1..]))
  {
    assert steps[i..][0] == steps[i];
    assert steps[i..][1..] == steps[i + 1..];
  }

  /** The saved-file list, pushed one name at a time. */
  method CollectFilesSaved(flags: MetadataFlags) returns (files: seq<string>)
    ensures files == FilesSaved(flags)
  {
    files := [];
    if flags.infoJson || flags.comments {
      files := files + ["info.json"];
    }
    if flags.description {
      files := files + ["description.txt"];
    }
    if flags.thumbnail {
      files := files + ["thumbnail.jpg"];
    }
  }

  /** The loop over `select!`, with the title, thumbnail and error message as variables
      updated in place, then the handling of the exit status. */
  method HandleMetadataRun(id: string, flags: MetadataFlags, steps: seq<Step>, wait: WaitResult)
    returns (emitted: seq<MetadataProgress>, result: Result<HistoryEntry, string>)
    ensures MetaOutcome(emitted, result) == MetaRun(id, flags, steps, wait)
  {
    var title: Option<string> := None;
    var thumbnail: Option<string> := None;
    var error: Option<string> := None;
    emitted := [];
    var i := 0;
    while i < |steps|
      invariant 0 <= i <= |steps|
      invariant PrependLoop(emitted, Loop(id, MetaState(title, thumbnail, error), steps[i..])) == Loop(id, Initial, steps)
    {
      assert steps[i..][0] == steps[i];
      if steps[i].cancelled {
        return emitted, Err("Metadata fetch cancelled");
      }
      if steps[i].pipe == OutEnd {
        break;
      }
      var st := MetaState(title, thumbnail, error);
      ghost var o := Pass(id, st, steps[i].pipe);
      LoopStep(id, st, steps, i);
      PassSpec(id, st, steps[i].pipe);
      PrependLoopAssoc(emitted, Emit(o.record), Loop(id, o.state, steps[i + 1..]));
      match steps[i].pipe {
        case OutLine(text) =>
          var r := OnStdout(id, st, text);
          title, thumbnail := r.state.title, r.state.thumbnail;
          emitted := emitted + Emit(r.record);
        case ErrLine(text) =>
          if Contains(text, "ERROR") {
            error := Some(text);
          }
          assert emitted + Emit(o.record) == emitted;
        case ErrQuiet =>
          assert emitted + Emit(o.record) == emitted;
      }
      assert MetaState(title, thumbnail, error) == o.state;
      i := i + 1;
    }
    emitted, result := AfterLoop(id, flags, emitted, title, thumbnail, error, wait);
  }

  /** Waiting for the process and reporting its exit status. */
  method AfterLoop(id: string, flags: MetadataFlags, records: seq<MetadataProgress>, title: Option<string>,
                   thumbnail: Option<string>, error: Option<string>, wait: WaitResult)
    returns (emitted: seq<MetadataProgress>, result: Result<HistoryEntry, string>)
    ensures var f := Finish(id, flags, MetaState(title, thumbnail, error), wait);
            emitted == records + f.emitted && result == f.result
  {
    emitted := records;
    match wait {
      case WaitFailed(message) =>
        result := Err("Process error: " + message);
      case Exited(success) =>
        if success {
          var name := if title.Some? then title.value else "Unknown";
          var files := CollectFilesSaved(flags);
          emitted := emitted + [MetadataProgress(id, "finished", title, thumbnail, None)];
          result := Ok(HistoryEntry(name, thumbnail, files));
        } else {
          var message := if error.Some? then error.value else DefaultError;
          emitted := emitted + [MetadataProgress(id, "error", title, thumbnail, Some(message))];
          result := Err(message);
        }
    }
  }

}
