/** Archive extraction for the downloaded ffmpeg and bun bundles
    (src-tauri/src/utils/extract.rs). Decompression and the file system are not modelled:
    an archive is the sequence of its entries, each carrying the outcome the library
    would report for reading it and for writing it out, and the files written are a log
    of (entry, destination) pairs. */
module ExtractUtils {
  import opened Text

  // ---------------------------------------------------------------------------
  // Paths
  // ---------------------------------------------------------------------------

  /** A single path component that names a file: non-empty, free of `/`, and neither
      `.` nor `..`. */
  predicate IsPlainName(n: string)
  {
    |n| > 0 && '/' !in n && n != "." && n != ".."
  }

  /** The last component of a `/`-separated path, as Rust's `Path::file_name` gives it:
      trailing separators and `.` components are skipped, and a path that ends in `..`
      or has no component has no file name. */
  function FileName(path: string): (r: Option<string>)
    ensures r.Some? ==> IsPlainName(r.value)
    decreases |path|
  {
    if path == [] then None
    else if path[|path| - 1] == '/' then FileName(path[..|path| - 1])
    else
      var k := ComponentStart(path);
      var comp := path[k..];
      if comp == "." then FileName(path[..k])
      else if comp == ".." then None
      else Some(comp)
  }

  /** Where the last component of a non-empty path starts: just after its last `/`. */
  function ComponentStart(path: string): (k: nat)
    requires |path| > 0 && path[|path| - 1] != '/'
    ensures k < |path| && (k == 0 || path[k - 1] == '/')
    ensures forall j :: k <= j < |path| ==> path[j] != '/'
  {
    match LastIndexOf(path, '/')
    case Some(j) => j + 1
    case None => 0
  }

  /** The file name is a piece of the path itself. */
  lemma {:induction false} FileNameInPath(path: string)
    ensures FileName(path).Some? ==> Contains(path, FileName(path).value)
    decreases |path|
  {
    if path != [] && FileName(path).Some? {
      var n := FileName(path).value;
      if path[|path| - 1] == '/' {
        FileNameInPath(path[..|path| - 1]);
        var i :| OccursAt(path[..|path| - 1], n, i);
        OccursInPrefix(path, n, |path| - 1, i);
      } else {
        var k := ComponentStart(path);
        if path[k..] == "." {
          FileNameInPath(path[..k]);
          var i :| OccursAt(path[..k], n, i);
          OccursInPrefix(path, n, k, i);
        } else {
          assert OccursAt(path, n, k);
        }
      }
    }
  }

  /** `dir.join(name)`: a separator is inserted unless `dir` is empty or already ends
      with one. */
  function JoinPath(dir: string, name: string): (p: string)
    ensures EndsWith(p, name) && StartsWith(p, dir)
  {
    if dir == [] || dir[|dir| - 1] == '/' then dir + name else dir + "/" + name
  }

  /** Joining a plain name onto a directory and asking for the file name gives the name
      back. */
  lemma FileNameOfJoin(dir: string, name: string)
    requires IsPlainName(name)
    ensures FileName(JoinPath(dir, name)) == Some(name)
  {
    var p := JoinPath(dir, name);
    var d := |p| - |name|;
    assert p[d..] == name;
    assert p[|p| - 1] == name[|name| - 1];
    assert p[|p| - 1] != '/';
    forall j | d <= j < |p| ensures p[j] != '/' {
      assert p[j] == name[j - d];
    }
    if d > 0 {
      assert p[d - 1] == '/';
    }
    var k := ComponentStart(p);
    assert k == d;
  }

  // ---------------------------------------------------------------------------
  // Extraction outcomes
  // ---------------------------------------------------------------------------

  /** One file written: the archive entry it came from and where it was put. */
  datatype Write = Write(entry: string, dest: string)

  /** The files written, in order, and what the extraction returned. */
  datatype Extraction = Extraction(writes: seq<Write>, result: Result<(), string>)

  /** An archive either fails to open, or yields its entries in order. */
  datatype Archive<T> = Unreadable(error: string) | Readable(items: seq<T>)

  function Prepend(w: seq<Write>, e: Extraction): Extraction
  {
    Extraction(w + e.writes, e.result)
  }

  lemma PrependAssoc(a: seq<Write>, b: seq<Write>, e: Extraction)
    ensures Prepend(a, Prepend(b, e)) == Prepend(a + b, e)
  {
    assert a + (b + e.writes) == a + b + e.writes;
  }

  const Done: Result<(), string> := Ok(())

  // ---------------------------------------------------------------------------
  // tar.gz and tar.xz
  // ---------------------------------------------------------------------------

  /** A tar entry: either it cannot be read, or its path cannot be decoded, or it has a
      path and unpacking it succeeds or fails with a message. */
  datatype TarItem = BadEntry(error: string) | BadPath(error: string) | TarFile(path: string, unpackError: Option<string>)

  /** The ffmpeg archives are searched for the wanted binary and for ffprobe. */
  predicate TarWanted(name: string, target: string)
  {
    name == target || name == "ffprobe"
  }

  /** A readable entry whose file name is wanted. */
  predicate TarSelects(item: TarItem, target: string)
  {
    item.TarFile? && FileName(item.path).Some? && TarWanted(FileName(item.path).value, target)
  }

  /** Both tar formats walk the entries in order: an unreadable entry or path stops the
      walk, a wanted entry is unpacked into `dest` under its own file name, and a failed
      unpack stops the walk with a message naming the file. */
  function TarSteps(items: seq<TarItem>, dest: string, target: string): Extraction
  {
    if items == [] then Extraction([], Done)
    else TarStep(items[0], TarSteps(items[1..], dest, target), dest, target)
  }

  /** One entry of the walk, followed by what the rest of the archive does. */
  function TarStep(item: TarItem, rest: Extraction, dest: string, target: string): Extraction
  {
    match item
    case BadEntry(e) => Extraction([], Err("Failed to read entry: " + e))
    case BadPath(e) => Extraction([], Err("Failed to get path: " + e))
    case TarFile(path, unpackError) =>
      match FileName(path)
      case None => rest
      case Some(name) =>
        if !TarWanted(name, target) then rest
        else if unpackError.Some? then Extraction([], Err("Failed to extract " + name + ": " + unpackError.value))
        else Prepend([Write(path, JoinPath(dest, name))], rest)
  }

  /** The walk from entry `i` on is entry `i`'s step, then the walk from `i + 1`. */
  lemma TarStepAt(items: seq<TarItem>, i: nat, dest: string, target: string)
    requires i < |items|
    ensures TarSteps(items[i..], dest, target) == TarStep(items[i], TarSteps(items[i + 1..], dest, target), dest, target)
  {
    assert items[i..][0] == items[i];
    assert items[i..][1..] == items[i + 1..];
  }

  function TarRun(archive: Archive<TarItem>, dest: string, target: string): Extraction
  {
    match archive
    case Unreadable(e) => Extraction([], Err("Failed to read tar: " + e))
    case Readable(items) => TarSteps(items, dest, target)
  }

  /** What a successful walk writes: one file per wanted entry, in archive order. */
  function TarSelected(items: seq<TarItem>, dest: string, target: string): seq<Write>
  {
    if items == [] then []
    else
      (if TarSelects(items[0], target) then [Write(items[0].path, JoinPath(dest, FileName(items[0].path).value))] else [])
      + TarSelected(items[1..], dest, target)
  }

  /** A tar entry that fails: unreadable, or wanted and failing to unpack. */
  predicate TarFails(item: TarItem, target: string)
  {
    !item.TarFile? || (TarSelects(item, target) && item.unpackError.Some?)
  }

  /** A tar extraction succeeds exactly when no entry fails, and then it has written
      every wanted entry and nothing else, in archive order. */
  lemma {:induction false} TarSucceeds(items: seq<TarItem>, dest: string, target: string)
    ensures TarSteps(items, dest, target).result.Ok? <==> forall k :: 0 <= k < |items| ==> !TarFails(items[k], target)
    ensures (forall k :: 0 <= k < |items| ==> !TarFails(items[k], target))
            ==> TarSteps(items, dest, target).writes == TarSelected(items, dest, target)
  {
    if items != [] {
      TarSucceeds(items[1..], dest, target);
      if forall k :: 0 <= k < |items[1..]| ==> !TarFails(items[1..][k], target) {
        forall k | 0 <= k < |items| && k > 0 ensures !TarFails(items[k], target) {
          assert items[k] == items[1..][k - 1];
        }
      } else {
        var k :| 0 <= k < |items[1..]| && TarFails(items[1..][k], target);
        assert items[1..][k] == items[k + 1];
      }
    }
  }

  /** Every file a tar extraction writes, before or without a failure, is a wanted
      entry put into `dest` under its own file name. */
  lemma {:induction false} TarWritesWanted(items: seq<TarItem>, dest: string, target: string)
    ensures forall w | w in TarSteps(items, dest, target).writes ::
              FileName(w.entry).Some? && TarWanted(FileName(w.entry).value, target)
              && w.dest == JoinPath(dest, FileName(w.entry).value)
              && FileName(w.dest) == FileName(w.entry)
  {
    if items != [] {
      TarWritesWanted(items[1..], dest, target);
      if TarSelects(items[0], target) {
        FileNameOfJoin(dest, FileName(items[0].path).value);
      }
    }
  }

  /** A failed tar extraction reports one of the fixed messages. */
  lemma {:induction false} TarErrors(archive: Archive<TarItem>, dest: string, target: string)
    ensures var r := TarRun(archive, dest, target).result;
            r.Err? ==> StartsWith(r.error, "Failed to read tar: ") || StartsWith(r.error, "Failed to read entry: ")
                       || StartsWith(r.error, "Failed to get path: ") || StartsWith(r.error, "Failed to extract ")
  {
    if archive.Readable? {
      TarStepsErrors(archive.items, dest, target);
    }
  }

  lemma {:induction false} TarStepsErrors(items: seq<TarItem>, dest: string, target: string)
    ensures var r := TarSteps(items, dest, target).result;
            r.Err? ==> StartsWith(r.error, "Failed to read entry: ") || StartsWith(r.error, "Failed to get path: ")
                       || StartsWith(r.error, "Failed to extract ")
  {
    if items != [] {
      TarStepsErrors(items[1..], dest, target);
      if TarSelects(items[0], target) && items[0].unpackError.Some? {
        var name := FileName(items[0].path).value;
        assert ("Failed to extract " + name + ": " + items[0].unpackError.value)[..18] == "Failed to extract ";
      }
    }
  }

  /** The walk over a tar archive (used for both the gzip and the xz variant). */
  method ExtractTar(archive: Archive<TarItem>, dest: string, target: string) returns (writes: seq<Write>, result: Result<(), string>)
    ensures Extraction(writes, result) == TarRun(archive, dest, target)
  {
    writes := [];
    if archive.Unreadable? {
      return [], Err("Failed to read tar: " + archive.error);
    }
    var items := archive.items;
    var i := 0;
    while i < |items|
      invariant i <= |items|
      invariant TarSteps(items, dest, target) == Prepend(writes, TarSteps(items[i..], dest, target))
    {
      TarStepAt(items, i, dest, target);
      match items[i]
      case BadEntry(e) => {
        assert writes + [] == writes;
        return writes, Err("Failed to read entry: " + e);
      }
      case BadPath(e) => {
        assert writes + [] == writes;
        return writes, Err("Failed to get path: " + e);
      }
      case TarFile(path, unpackError) => {
        var name := FileName(path);
        if name.Some? && TarWanted(name.value, target) {
          if unpackError.Some? {
            assert writes + [] == writes;
            return writes, Err("Failed to extract " + name.value + ": " + unpackError.value);
          }
          PrependAssoc(writes, [Write(path, JoinPath(dest, name.value))], TarSteps(items[i + 1..], dest, target));
          writes := writes + [Write(path, JoinPath(dest, name.value))];
        }
      }
      i := i + 1;
    }
    assert items[i..] == [];
    assert writes + [] == writes;
    result := Done;
  }

  // ---------------------------------------------------------------------------
  // zip (ffmpeg)
  // ---------------------------------------------------------------------------

  /** A zip entry: either it cannot be read, or it has a name, and creating the output
      file and copying into it each succeed or fail with a message. */
  datatype ZipItem = BadZipEntry(error: string) | ZipFile(name: string, createError: Option<string>, copyError: Option<string>)

  /** Zip entries are matched on the end of their whole name, not on a path component. */
  predicate ZipWanted(name: string, target: string)
  {
    EndsWith(name, target) || EndsWith(name, "ffprobe") || EndsWith(name, "ffprobe.exe")
  }

  /** The zip walk: an unreadable entry stops it; a wanted entry needs a file name, and
      is written into `dest` under that name, or stops the walk with the failure. */
  function ZipSteps(items: seq<ZipItem>, dest: string, target: string): Extraction
  {
    if items == [] then Extraction([], Done)
    else
      var rest := ZipSteps(items[1..], dest, target);
      match items[0]
      case BadZipEntry(e) => Extraction([], Err("Failed to read zip entry: " + e))
      case ZipFile(name, createError, copyError) =>
        if !ZipWanted(name, target) then rest
        else
          match FileName(name)
          case None => Extraction([], Err("Invalid file name"))
          case Some(file) =>
            if createError.Some? then Extraction([], Err("Failed to create file: " + createError.value))
            else if copyError.Some? then Extraction([], Err("Failed to extract: " + copyError.value))
            else Prepend([Write(name, JoinPath(dest, file))], rest)
  }

  function ZipRun(archive: Archive<ZipItem>, dest: string, target: string): Extraction
  {
    match archive
    case Unreadable(e) => Extraction([], Err("Failed to open zip: " + e))
    case Readable(items) => ZipSteps(items, dest, target)
  }

  /** A zip entry that fails: unreadable, or wanted and then without a file name or with
      a failed write. */
  predicate ZipFails(item: ZipItem, target: string)
  {
    item.BadZipEntry?
    || (ZipWanted(item.name, target) && (FileName(item.name).None? || item.createError.Some? || item.copyError.Some?))
  }

  /** What a successful zip walk writes: one file per wanted entry, in archive order. */
  function ZipSelected(items: seq<ZipItem>, dest: string, target: string): seq<Write>
  {
    if items == [] then []
    else
      ZipWrite(items[0], dest, target) + ZipSelected(items[1..], dest, target)
  }

  /** The write a non-failing entry contributes: one when it is wanted, none otherwise. */
  function ZipWrite(item: ZipItem, dest: string, target: string): seq<Write>
  {
    if item.ZipFile? && ZipWanted(item.name, target) && FileName(item.name).Some?
    then [Write(item.name, JoinPath(dest, FileName(item.name).value))]
    else []
  }

  /** A zip extraction fails exactly at the first failing entry, with "Invalid file
      name" when that entry is wanted but has no file name; when no entry fails it has
      written every wanted entry, in order. */
  lemma {:induction false} ZipSucceeds(items: seq<ZipItem>, dest: string, target: string)
    ensures ZipSteps(items, dest, target).result.Ok? <==> forall k :: 0 <= k < |items| ==> !ZipFails(items[k], target)
    ensures (forall k :: 0 <= k < |items| ==> !ZipFails(items[k], target))
            ==> ZipSteps(items, dest, target).writes == ZipSelected(items, dest, target)
  {
    if items != [] {
      ZipSucceeds(items[1..], dest, target);
      if ZipFails(items[0], target) {
        assert ZipSteps(items, dest, target).result.Err?;
      } else {
        ZipStepHead(items, dest, target);
        if forall k :: 0 <= k < |items[1..]| ==> !ZipFails(items[1..][k], target) {
          forall k | 0 <= k < |items| && k > 0 ensures !ZipFails(items[k], target) {
            assert items[k] == items[1..][k - 1];
          }
        } else {
          var k :| 0 <= k < |items[1..]| && ZipFails(items[1..][k], target);
          assert items[1..][k] == items[k + 1];
        }
      }
    }
  }

  /** A first entry that does not fail adds its write, if any, in front of the rest. */
  lemma ZipStepHead(items: seq<ZipItem>, dest: string, target: string)
    requires items != [] && !ZipFails(items[0], target)
    ensures ZipSteps(items, dest, target) == Prepend(ZipWrite(items[0], dest, target), ZipSteps(items[1..], dest, target))
  {
    if !ZipWanted(items[0].name, target) {
      assert [] + ZipSteps(items[1..], dest, target).writes == ZipSteps(items[1..], dest, target).writes;
    }
  }

  /** A wanted entry with no file name, reached without earlier failures, ends the zip
      extraction with "Invalid file name". */
  lemma {:induction false} ZipInvalidName(items: seq<ZipItem>, dest: string, target: string, k: nat)
    requires k < |items| && items[k].ZipFile? && ZipWanted(items[k].name, target) && FileName(items[k].name).None?
    requires forall j :: 0 <= j < k ==> !ZipFails(items[j], target)
    ensures ZipSteps(items, dest, target).result == Err("Invalid file name")
  {
    if k > 0 {
      assert !ZipFails(items[0], target);
      ZipInvalidName(items[1..], dest, target, k - 1);
    }
  }

  /** Every file a zip extraction writes comes from a wanted entry and is put into
      `dest` under the entry's file name. */
  lemma {:induction false} ZipWritesWanted(items: seq<ZipItem>, dest: string, target: string)
    ensures forall w | w in ZipSteps(items, dest, target).writes ::
              ZipWanted(w.entry, target) && FileName(w.entry).Some?
              && w.dest == JoinPath(dest, FileName(w.entry).value)
              && FileName(w.dest) == FileName(w.entry)
  {
    if items != [] {
      ZipWritesWanted(items[1..], dest, target);
      if items[0].ZipFile? && ZipWanted(items[0].name, target) && FileName(items[0].name).Some? {
        FileNameOfJoin(dest, FileName(items[0].name).value);
      }
    }
  }

  method ExtractZip(archive: Archive<ZipItem>, dest: string, target: string) returns (writes: seq<Write>, result: Result<(), string>)
    ensures Extraction(writes, result) == ZipRun(archive, dest, target)
  {
    writes := [];
    if archive.Unreadable? {
      return [], Err("Failed to open zip: " + archive.error);
    }
    var items := archive.items;
    var i := 0;
    while i < |items|
      invariant i <= |items|
      invariant ZipSteps(items, dest, target) == Prepend(writes, ZipSteps(items[i..], dest, target))
    {
      assert items[i..][0] == items[i];
      assert items[i..][1..] == items[i + 1..];
      assert writes + [] == writes;
      match items[i]
      case BadZipEntry(e) => {
        return writes, Err("Failed to read zip entry: " + e);
      }
      case ZipFile(name, createError, copyError) => {
        if ZipWanted(name, target) {
          var file := FileName(name);
          if file.None? {
            return writes, Err("Invalid file name");
          }
          if createError.Some? {
            return writes, Err("Failed to create file: " + createError.value);
          }
          if copyError.Some? {
            return writes, Err("Failed to extract: " + copyError.value);
          }
          PrependAssoc(writes, [Write(name, JoinPath(dest, file.value))], ZipSteps(items[i + 1..], dest, target));
          writes := writes + [Write(name, JoinPath(dest, file.value))];
        }
      }
      i := i + 1;
    }
    assert items[i..] == [];
    result := Done;
  }

  // ---------------------------------------------------------------------------
  // zip (bun)
  // ---------------------------------------------------------------------------

  /** Whether a zip entry is the bun executable. On Windows it is `bun.exe` at the top
      or inside a directory; elsewhere it is `bun` at the top or inside a directory,
      except the copy inside a `.dSYM` debug-symbol bundle. */
  predicate IsBun(windows: bool, name: string)
  {
    if windows then EndsWith(name, "/bun.exe") || name == "bun.exe"
    else (EndsWith(name, "/bun") || name == "bun") && !EndsWith(name, ".dSYM/bun")
  }

  /** Outside Windows, a `bun` inside a directory is taken exactly when the directory is
      not a `.dSYM` bundle. */
  lemma BunInDirectory(dir: string)
    ensures IsBun(false, dir + "/bun") <==> !EndsWith(dir, ".dSYM")
  {
    var n := dir + "/bun";
    assert n[|n| - 4..] == "/bun";
    if EndsWith(n, ".dSYM/bun") {
      assert dir[|dir| - 5..] == n[|n| - 9..|n| - 4];
      assert n[|n| - 9..|n| - 4] == ".dSYM";
    }
    if EndsWith(dir, ".dSYM") {
      assert n[|n| - 9..] == dir[|dir| - 5..] + "/bun";
    }
  }

  /** The bun walk stops at the first bun entry: it is written to `dest/target` and the
      walk returns; running out of entries is an error. */
  function BunSteps(items: seq<ZipItem>, dest: string, target: string, windows: bool): Extraction
  {
    if items == [] then Extraction([], Err("Bun binary not found in archive"))
    else
      match items[0]
      case BadZipEntry(e) => Extraction([], Err("Failed to read zip entry: " + e))
      case ZipFile(name, createError, copyError) =>
        if !IsBun(windows, name) then BunSteps(items[1..], dest, target, windows)
        else if createError.Some? then Extraction([], Err("Failed to create file: " + createError.value))
        else if copyError.Some? then Extraction([], Err("Failed to extract: " + copyError.value))
        else Extraction([Write(name, JoinPath(dest, target))], Done)
  }

  function BunRun(archive: Archive<ZipItem>, dest: string, target: string, windows: bool): Extraction
  {
    match archive
    case Unreadable(e) => Extraction([], Err("Failed to open zip: " + e))
    case Readable(items) => BunSteps(items, dest, target, windows)
  }

  /** A bun extraction writes at most one file, and writes one exactly when it succeeds:
      the first bun entry of the archive, preceded only by readable non-bun entries, put
      at `dest/target`. */
  lemma {:induction false} BunFirstMatch(items: seq<ZipItem>, dest: string, target: string, windows: bool)
    ensures var e := BunSteps(items, dest, target, windows);
            |e.writes| <= 1 && (|e.writes| == 1 <==> e.result.Ok?)
            && (e.result.Ok? ==> e.writes[0].dest == JoinPath(dest, target) && IsBun(windows, e.writes[0].entry)
                                 && exists k :: 0 <= k < |items| && items[k].ZipFile? && items[k].name == e.writes[0].entry
                                                && forall j :: 0 <= j < k ==> items[j].ZipFile? && !IsBun(windows, items[j].name))
  {
    if items != [] && items[0].ZipFile? && !IsBun(windows, items[0].name) {
      var e := BunSteps(items, dest, target, windows);
      BunFirstMatch(items[1..], dest, target, windows);
      if e.result.Ok? {
        var k :| 0 <= k < |items[1..]| && items[1..][k].ZipFile? && items[1..][k].name == e.writes[0].entry
                 && forall j :: 0 <= j < k ==> items[1..][j].ZipFile? && !IsBun(windows, items[1..][j].name);
        assert items[k + 1] == items[1..][k];
        forall j | 0 <= j < k + 1 ensures items[j].ZipFile? && !IsBun(windows, items[j].name) {
          if j > 0 { assert items[j] == items[1..][j - 1]; }
        }
      }
    } else if items != [] && items[0].ZipFile? {
      var e := BunSteps(items, dest, target, windows);
      if e.result.Ok? {
        assert items[0].name == e.writes[0].entry;
      }
    }
  }

  /** An archive of readable entries none of which is bun gives "Bun binary not found
      in archive". */
  lemma {:induction false} BunNotFound(items: seq<ZipItem>, dest: string, target: string, windows: bool)
    requires forall j :: 0 <= j < |items| ==> items[j].ZipFile? && !IsBun(windows, items[j].name)
    ensures BunSteps(items, dest, target, windows) == Extraction([], Err("Bun binary not found in archive"))
  {
    if items != [] {
      assert items[0].ZipFile?;
      BunNotFound(items[1..], dest, target, windows);
    }
  }

  /** The walk returns as soon as it decides: entries after that point are never read,
      so appending entries changes nothing unless the archive ran out without a bun. */
  lemma {:induction false} BunIgnoresLater(items: seq<ZipItem>, more: seq<ZipItem>, dest: string, target: string, windows: bool)
    requires BunSteps(items, dest, target, windows).result != Err("Bun binary not found in archive")
    ensures BunSteps(items + more, dest, target, windows) == BunSteps(items, dest, target, windows)
  {
    assert items != [];
    assert (items + more)[0] == items[0];
    assert (items + more)[1..] == items[1..] + more;
    if items[0].ZipFile? && !IsBun(windows, items[0].name) {
      BunIgnoresLater(items[1..], more, dest, target, windows);
    }
  }

  method ExtractBun(archive: Archive<ZipItem>, dest: string, target: string, windows: bool)
      returns (writes: seq<Write>, result: Result<(), string>)
    ensures Extraction(writes, result) == BunRun(archive, dest, target, windows)
  {
    writes := [];
    if archive.Unreadable? {
      return [], Err("Failed to open zip: " + archive.error);
    }
    var items := archive.items;
    var i := 0;
    while i < |items|
      invariant i <= |items|
      invariant BunSteps(items, dest, target, windows) == BunSteps(items[i..], dest, target, windows)
    {
      assert items[i..][0] == items[i];
      assert items[i..][1..] == items[i + 1..];
      match items[i]
      case BadZipEntry(e) => {
        return [], Err("Failed to read zip entry: " + e);
      }
      case ZipFile(name, createError, copyError) => {
        if IsBun(windows, name) {
          if createError.Some? {
            return [], Err("Failed to create file: " + createError.value);
          }
          if copyError.Some? {
            return [], Err("Failed to extract: " + copyError.value);
          }
          return [Write(name, JoinPath(dest, target))], Done;
        }
      }
      i := i + 1;
    }
    assert items[i..] == [];
    result := Err("Bun binary not found in archive");
  }
}
