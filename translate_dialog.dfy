/** The translate dialog of the subtitle editor (src/components/subtitles/TranslateDialog.tsx):
    the cues in scope are sent to the AI backend in batches of twenty, each batch as one
    prompt with the texts separated by a marker line, and the reply is split back at the
    marker. The backend is not modelled: `ask` stands for it and gives, for a prompt,
    either the reply or the error it raised. Changes reach the editor only after every
    batch has come back. */
module TranslateDialog {
  import opened Text
  import opened SubtitleEntries

  /** New text for the cue with `id`. */
  datatype TextChange = TextChange(id: string, text: string)

  const Separator: string := "\n---SEPARATOR---\n"
  const Marker: string := "---SEPARATOR---"

  /** The language named in the prompt: its display name when the language list has
      one, else the language code itself. */
  function TargetLanguageName(code: string, listed: Option<string>): (name: string)
    ensures listed.Some? && listed.value != "" ==> name == listed.value
    ensures listed.None? || listed.value == "" ==> name == code
  {
    if listed.Some? && listed.value != "" then listed.value else code
  }

  /** The instructions that open every prompt. */
  function Instructions(languageName: string): string
  {
    "Translate the following subtitle texts to " + languageName
    + ". Each subtitle is separated by \"---SEPARATOR---\". Return ONLY the translated texts, separated by \"---SEPARATOR---\". Keep the same number of texts. Preserve line breaks within each subtitle.\n\n"
  }

  /** The prompt: the instructions, then the texts. */
  function Prompt(languageName: string, texts: string): (p: string)
    ensures EndsWith(p, texts) && StartsWith(p, Instructions(languageName))
    ensures |p| == |Instructions(languageName)| + |texts|
  {
    var head := Instructions(languageName);
    ConcatEnds(head, texts);
    head + texts
  }

  lemma ConcatEnds(a: string, b: string)
    ensures StartsWith(a + b, a) && EndsWith(a + b, b)
  {
    assert (a + b)[..|a|] == a;
    assert (a + b)[|a|..] == b;
  }

  function Texts(batch: seq<SubtitleEntry>): (t: seq<string>)
    ensures |t| == |batch| && forall j :: 0 <= j < |batch| ==> t[j] == batch[j].text
  {
    seq(|batch|, j requires 0 <= j < |batch| => batch[j].text)
  }

  /** The texts of a batch as they go into the prompt. */
  function BatchText(batch: seq<SubtitleEntry>): string
  {
    Join(Texts(batch), Separator)
  }

  /** The reply cut at every marker, each piece trimmed. */
  function Pieces(reply: string): (p: seq<string>)
    ensures |p| >= 1
  {
    MarkerShape();
    PiecesAt(reply, Marker)
  }

  /** One piece per part of the reply cut at the marker: piece `k` is part `k` trimmed,
      so no piece starts or ends with white space. */
  lemma PiecesSpec(reply: string)
    ensures |Pieces(reply)| == |Split(reply, Marker)|
    ensures forall k :: 0 <= k < |Pieces(reply)| ==>
              Pieces(reply)[k] == Trim(Split(reply, Marker)[k]) && NoSpaceAtEnds(Pieces(reply)[k])
  {
    MarkerShape();
  }

  /** The reply cut at every occurrence of `m`, each piece trimmed. The proofs about
      echoed replies are done for any marker of this shape, which keeps the marker's
      fifteen characters out of them. */
  function PiecesAt(reply: string, m: string): (p: seq<string>)
    requires FeedFree(m)
    ensures |p| >= 1 && |p| == |Split(reply, m)|
    ensures forall k :: 0 <= k < |p| ==> p[k] == Trim(Split(reply, m)[k]) && NoSpaceAtEnds(p[k])
  {
    var parts := Split(reply, m);
    forall k | 0 <= k < |parts| ensures NoSpaceAtEnds(Trim(parts[k])) {
      TrimEnds(parts[k]);
    }
    seq(|parts|, k requires 0 <= k < |parts| => Trim(parts[k]))
  }

  /** A non-empty marker without line feeds. */
  predicate FeedFree(m: string)
  {
    |m| > 0 && forall i :: 0 <= i < |m| ==> m[i] != '\n'
  }

  /** The marker has the shape the proofs need, and the separator line is the marker
      between two line feeds. */
  lemma MarkerShape()
    ensures FeedFree(Marker) && |Marker| == 15
    ensures Separator == "\n" + Marker + "\n"
  {
  }

  /** A reply that comes back in the prompt's own layout, texts with no space at either
      end joined by the separator line, is cut back into exactly those texts, provided
      none of them holds the marker. */
  lemma PiecesOfEchoedReply(texts: seq<string>)
    requires |texts| >= 1
    requires forall k :: 0 <= k < |texts| ==> NoSpaceAtEnds(texts[k])
    requires forall k :: 0 <= k < |texts| ==> !Contains(texts[k], Marker)
    ensures Pieces(Join(texts, Separator)) == texts
  {
    MarkerShape();
    EchoedPieces(texts, Marker);
  }

  lemma EchoedPieces(texts: seq<string>, m: string)
    requires |texts| >= 1 && FeedFree(m)
    requires forall k :: 0 <= k < |texts| ==> NoSpaceAtEnds(texts[k])
    requires forall k :: 0 <= k < |texts| ==> !Contains(texts[k], m)
    ensures PiecesAt(Join(texts, "\n" + m + "\n"), m) == texts
  {
    EchoSplit(texts, m);
    PaddedTrim(texts, "");
    PiecesTrimParts(Join(texts, "\n" + m + "\n"), Padded(texts, ""), texts, m);
  }

  /** Cut at the markers, such a reply gives its texts with the separator's line feeds
      still attached. */
  lemma EchoSplit(texts: seq<string>, m: string)
    requires |texts| >= 1 && FeedFree(m)
    requires forall k :: 0 <= k < |texts| ==> !Contains(texts[k], m)
    ensures Split(Join(texts, "\n" + m + "\n"), m) == Padded(texts, "")
  {
    var ps := Padded(texts, "");
    JoinPadded(texts, "", m);
    assert "" + Join(texts, "\n" + m + "\n") == Join(texts, "\n" + m + "\n");
    PaddedNoMarker(texts, "", m);
    PaddedEnds(texts, "");
    PaddedCutsLeftmost(ps, m);
    SplitJoin(ps, m);
  }

  lemma PiecesTrimParts(reply: string, ps: seq<string>, texts: seq<string>, m: string)
    requires FeedFree(m) && Split(reply, m) == ps && TrimsTo(ps, texts)
    ensures PiecesAt(reply, m) == texts
  {
    var p := PiecesAt(reply, m);
    forall k | 0 <= k < |texts| ensures p[k] == texts[k] {
      assert p[k] == Trim(ps[k]);
    }
  }

  predicate TrimsTo(ps: seq<string>, texts: seq<string>)
  {
    |ps| == |texts| && forall k :: 0 <= k < |ps| ==> Trim(ps[k]) == texts[k]
  }

  predicate NoneHolds(ps: seq<string>, m: string)
  {
    forall k :: 0 <= k < |ps| ==> !Contains(ps[k], m)
  }

  /** Every piece but the last ends with a line feed. */
  predicate EndLines(ps: seq<string>)
  {
    forall k :: 0 <= k < |ps| - 1 ==> |ps[k]| > 0 && ps[k][|ps[k]| - 1] == '\n'
  }

  /** The pieces of a reply in the prompt's layout before trimming: the line feeds of
      each separator line stay with the texts on either side of its marker. */
  function Padded(texts: seq<string>, lead: string): (ps: seq<string>)
    requires |texts| >= 1
    ensures |ps| == |texts|
    decreases |texts|
  {
    if |texts| == 1 then [lead + texts[0]]
    else [lead + texts[0] + "\n"] + Padded(texts[1..], "\n")
  }

  lemma {:induction false} JoinPadded(texts: seq<string>, lead: string, m: string)
    requires |texts| >= 1
    ensures lead + Join(texts, "\n" + m + "\n") == Join(Padded(texts, lead), m)
    decreases |texts|
  {
    if |texts| > 1 {
      var rest := Join(texts[1..], "\n" + m + "\n");
      JoinPadded(texts[1..], "\n", m);
      var ps := Padded(texts, lead);
      assert ps == [lead + texts[0] + "\n"] + Padded(texts[1..], "\n");
      assert ps[1..] == Padded(texts[1..], "\n");
      assert Join(ps, m) == ps[0] + m + Join(ps[1..], m);
      assert lead + Join(texts, "\n" + m + "\n") == lead + texts[0] + ("\n" + m + "\n") + rest;
      assert lead + texts[0] + ("\n" + m + "\n") + rest == (lead + texts[0] + "\n") + m + ("\n" + rest);
    }
  }

  /** A line feed at either end cannot be part of a marker. */
  lemma NoMarkerPadded(lead: string, t: string, trail: string, m: string)
    requires lead == "" || lead == "\n"
    requires trail == "" || trail == "\n"
    requires FeedFree(m) && !Contains(t, m)
    ensures !Contains(lead + t + trail, m)
  {
    var x := lead + t + trail;
    forall j | 0 <= j <= |x| - |m| ensures !OccursAt(x, m, j) {
      if OccursAt(x, m, j) {
        assert forall p :: j <= p < j + |m| ==> x[p] == m[p - j];
        if lead == "\n" {
          assert x[0] == '\n';
        }
        if trail == "\n" {
          assert x[|x| - 1] == '\n';
        }
        var j' := j - |lead|;
        assert x[j..j + |m|] == t[j'..j' + |m|];
        assert OccursAt(t, m, j');
      }
    }
  }

  lemma {:induction false} PaddedTrim(texts: seq<string>, lead: string)
    requires |texts| >= 1 && (lead == "" || lead == "\n")
    requires forall k :: 0 <= k < |texts| ==> NoSpaceAtEnds(texts[k])
    ensures TrimsTo(Padded(texts, lead), texts)
    decreases |texts|
  {
    if |texts| == 1 {
      PaddedTrimLast(texts, lead);
    } else {
      var tail := texts[1..];
      assert forall k :: 0 <= k < |tail| ==> tail[k] == texts[k + 1];
      PaddedTrim(tail, "\n");
      PaddedTrimStep(texts, lead);
    }
  }

  lemma PaddedTrimLast(texts: seq<string>, lead: string)
    requires |texts| == 1 && (lead == "" || lead == "\n") && NoSpaceAtEnds(texts[0])
    ensures TrimsTo(Padded(texts, lead), texts)
  {
    var first := lead + texts[0];
    assert Trim(first) == texts[0] by {
      TrimPadded(lead, texts[0], "");
      assert lead + texts[0] + "" == first;
    }
    TrimsToCons(first, [], texts[0], []);
    assert Padded(texts, lead) == [first] + [];
    assert texts == [texts[0]] + [];
  }

  lemma PaddedTrimStep(texts: seq<string>, lead: string)
    requires |texts| >= 2 && (lead == "" || lead == "\n") && NoSpaceAtEnds(texts[0])
    requires TrimsTo(Padded(texts[1..], "\n"), texts[1..])
    ensures TrimsTo(Padded(texts, lead), texts)
  {
    var first := lead + texts[0] + "\n";
    var rest := Padded(texts[1..], "\n");
    assert TrimsTo([first] + rest, [texts[0]] + texts[1..]) by {
      TrimPadded(lead, texts[0], "\n");
      TrimsToCons(first, rest, texts[0], texts[1..]);
    }
    assert Padded(texts, lead) == [first] + rest;
    assert texts == [texts[0]] + texts[1..];
  }

  lemma TrimsToCons(p: string, ps: seq<string>, t: string, ts: seq<string>)
    requires Trim(p) == t && TrimsTo(ps, ts)
    ensures TrimsTo([p] + ps, [t] + ts)
  {
    var xs, ys := [p] + ps, [t] + ts;
    forall k | 0 <= k < |xs| ensures Trim(xs[k]) == ys[k] {
      if k > 0 {
        assert xs[k] == ps[k - 1] && ys[k] == ts[k - 1];
      }
    }
  }

  lemma {:induction false} PaddedNoMarker(texts: seq<string>, lead: string, m: string)
    requires |texts| >= 1 && (lead == "" || lead == "\n") && FeedFree(m)
    requires forall k :: 0 <= k < |texts| ==> !Contains(texts[k], m)
    ensures NoneHolds(Padded(texts, lead), m)
    decreases |texts|
  {
    var ps := Padded(texts, lead);
    var trail := if |texts| == 1 then "" else "\n";
    assert ps[0] == lead + texts[0] + trail;
    NoMarkerPadded(lead, texts[0], trail, m);
    if |texts| > 1 {
      var rest := Padded(texts[1..], "\n");
      PaddedNoMarker(texts[1..], "\n", m);
      forall k | 0 <= k < |ps| ensures !Contains(ps[k], m) {
        if k > 0 {
          assert ps[k] == rest[k - 1];
        }
      }
    }
  }

  lemma {:induction false} PaddedEnds(texts: seq<string>, lead: string)
    requires |texts| >= 1
    ensures EndLines(Padded(texts, lead))
    decreases |texts|
  {
    if |texts| > 1 {
      var ps := Padded(texts, lead);
      var rest := Padded(texts[1..], "\n");
      PaddedEnds(texts[1..], "\n");
      assert ps[0] == lead + texts[0] + "\n";
      forall k | 0 <= k < |ps| - 1 ensures |ps[k]| > 0 && ps[k][|ps[k]| - 1] == '\n' {
        if k > 0 {
          assert ps[k] == rest[k - 1];
        }
      }
    }
  }

  /** Pieces that end in a line feed cannot hide a marker that starts inside them. */
  lemma PaddedCutsLeftmost(ps: seq<string>, m: string)
    requires FeedFree(m) && NoneHolds(ps, m) && EndLines(ps)
    ensures CutsLeftmost(ps, m)
  {
    forall k, j | 0 <= k < |ps| - 1 && 0 <= j < |ps[k]| ensures !OccursAt(ps[k] + m, m, j) {
      var x := ps[k] + m;
      var n := |ps[k]|;
      if j + |m| <= n {
        if OccursAt(x, m, j) {
          OccursInPrefixOf(x, m, n, j);
        }
      } else {
        FeedBlocks(x, m, n - 1, j);
      }
    }
  }

  /** A marker cannot cover a line feed. */
  lemma FeedBlocks(x: string, m: string, f: nat, j: nat)
    requires FeedFree(m) && f < |x| && x[f] == '\n' && j <= f < j + |m|
    ensures !OccursAt(x, m, j)
  {
    if j + |m| <= |x| {
      assert x[j..j + |m|][f - j] == x[f];
    }
  }

  /** The `j`-th piece when there is one and it is not empty, else the original text. */
  function PickText(pieces: seq<string>, j: nat, original: string): string
  {
    if j < |pieces| && pieces[j] != "" then pieces[j] else original
  }

  /** One change per cue of the batch, in order. */
  function BatchChanges(batch: seq<SubtitleEntry>, pieces: seq<string>): (c: seq<TextChange>)
    ensures |c| == |batch|
    ensures forall j :: 0 <= j < |batch| ==> c[j] == TextChange(batch[j].id, PickText(pieces, j, batch[j].text))
  {
    seq(|batch|, j requires 0 <= j < |batch| => TextChange(batch[j].id, PickText(pieces, j, batch[j].text)))
  }

  function Min(a: nat, b: nat): nat
  {
    if a < b then a else b
  }

  /** The prompt for a batch, in the language named. */
  function Request(languageName: string): seq<SubtitleEntry> -> string
  {
    batch => Prompt(languageName, BatchText(batch))
  }

  /** What a run of batches does: the prompts it sends, the progress it reports after
      each batch that came back, and either the changes or the first error. */
  datatype Translation = Translation(prompts: seq<string>, progress: seq<nat>, result: Result<seq<TextChange>, string>)

  // Batches hold 20 cues; here and below the size is written out as a literal so that
  // the arithmetic on batch positions stays linear for the verifier.

  /** Where batch `b`, counted from offset `i`, ends. */
  function BatchEnd(n: nat, i: nat, b: nat): nat
  {
    Min(i + 20 * (b + 1), n)
  }

  /** The batches from offset `i` on, each sent as `request` builds its prompt. */
  function TranslateFrom(scope: seq<SubtitleEntry>, i: nat, request: seq<SubtitleEntry> -> string,
                         ask: string -> Result<string, string>): Translation
    decreases |scope| - i
  {
    if i >= |scope| then Translation([], [], Ok([]))
    else
      var end := Min(i + 20, |scope|);
      var batch := scope[i..end];
      var prompt := request(batch);
      match ask(prompt)
      case Err(e) => Translation([prompt], [], Err(e))
      case Ok(reply) =>
        var rest := TranslateFrom(scope, i + 20, request, ask);
        Translation([prompt] + rest.prompts, [end] + rest.progress,
                    if rest.result.Ok? then Ok(BatchChanges(batch, Pieces(reply)) + rest.result.value) else rest.result)
  }

  /** One prompt per batch of twenty that was sent: all of them when every batch comes
      back, and then as many as the scope has batches and one change per cue; otherwise
      one more prompt than progress reports, for the batch that failed. */
  lemma {:induction false} BatchCounts(scope: seq<SubtitleEntry>, i: nat, request: seq<SubtitleEntry> -> string,
                                       ask: string -> Result<string, string>)
    requires i <= |scope|
    ensures var t := TranslateFrom(scope, i, request, ask);
            (t.result.Ok? ==> |t.prompts| == |t.progress| == (|scope| - i + 19) / 20
                              && |t.result.value| == |scope| - i)
            && (t.result.Err? ==> |t.prompts| == |t.progress| + 1)
    decreases |scope| - i
  {
    if i < |scope| {
      var end := Min(i + 20, |scope|);
      if ask(request(scope[i..end])).Ok? {
        if i + 20 <= |scope| {
          BatchCounts(scope, i + 20, request, ask);
          assert (|scope| - i + 19) / 20 == (|scope| - (i + 20) + 19) / 20 + 1;
        } else {
          assert (|scope| - i + 19) / 20 == 1;
        }
      }
    }
  }

  /** Batch `b` counted from offset `i`. */
  function Batch(scope: seq<SubtitleEntry>, i: nat, b: nat): seq<SubtitleEntry>
    requires i + 20 * b < |scope|
  {
    scope[i + 20 * b..BatchEnd(|scope|, i, b)]
  }

  /** Prompt `b` carries batch `b`, the cues from `i + 20b` up to `min(i + 20(b+1), n)`. */
  predicate PromptsCarry(scope: seq<SubtitleEntry>, i: nat, request: seq<SubtitleEntry> -> string, prompts: seq<string>)
  {
    forall b :: 0 <= b < |prompts| ==> i + 20 * b < |scope| && prompts[b] == request(Batch(scope, i, b))
  }

  /** Every prompt sent carries its own batch of the scope. */
  lemma {:induction false} PromptsSent(scope: seq<SubtitleEntry>, i: nat, request: seq<SubtitleEntry> -> string,
                                       ask: string -> Result<string, string>)
    ensures PromptsCarry(scope, i, request, TranslateFrom(scope, i, request, ask).prompts)
    decreases |scope| - i
  {
    if i < |scope| {
      var prompt := request(scope[i..Min(i + 20, |scope|)]);
      if ask(prompt).Ok? {
        PromptsSent(scope, i + 20, request, ask);
        PromptsStep(scope, i, request, prompt, TranslateFrom(scope, i + 20, request, ask).prompts);
      } else {
        PromptsStep(scope, i, request, prompt, []);
      }
    }
  }

  lemma PromptsStep(scope: seq<SubtitleEntry>, i: nat, request: seq<SubtitleEntry> -> string, prompt: string, rest: seq<string>)
    requires i < |scope| && prompt == request(scope[i..Min(i + 20, |scope|)])
    requires PromptsCarry(scope, i + 20, request, rest)
    ensures PromptsCarry(scope, i, request, [prompt] + rest)
  {
    var prompts := [prompt] + rest;
    forall b | 0 <= b < |prompts| ensures i + 20 * b < |scope| && prompts[b] == request(Batch(scope, i, b)) {
      if b == 0 {
        assert Batch(scope, i, 0) == scope[i..Min(i + 20, |scope|)];
      } else {
        assert prompts[b] == rest[b - 1];
        assert rest[b - 1] == request(Batch(scope, i + 20, b - 1));
        LaterBatch(scope, i, b);
      }
    }
  }

  lemma LaterBatch(scope: seq<SubtitleEntry>, i: nat, b: nat)
    requires 0 < b && i + 20 + 20 * (b - 1) < |scope|
    ensures i + 20 * b < |scope| && Batch(scope, i + 20, b - 1) == Batch(scope, i, b)
  {
    NextBatch(|scope|, i, b);
  }

  /** Batch `b` from `i` is batch `b - 1` from `i + 20`. */
  lemma NextBatch(n: nat, i: nat, b: nat)
    requires 0 < b
    ensures i + 20 + 20 * (b - 1) == i + 20 * b
    ensures BatchEnd(n, i + 20, b - 1) == BatchEnd(n, i, b)
  {
  }

  /** Progress `b` is the end of batch `b`, reported once the reply to its prompt came back. */
  lemma {:induction false} ProgressReported(scope: seq<SubtitleEntry>, i: nat, request: seq<SubtitleEntry> -> string,
                                            ask: string -> Result<string, string>)
    ensures var t := TranslateFrom(scope, i, request, ask);
            ProgressCarries(|scope|, i, ask, t.prompts, t.progress)
    decreases |scope| - i
  {
    if i < |scope| {
      var end := Min(i + 20, |scope|);
      var prompt := request(scope[i..end]);
      if ask(prompt).Ok? {
        ProgressReported(scope, i + 20, request, ask);
        var rest := TranslateFrom(scope, i + 20, request, ask);
        ProgressStep(|scope|, i, ask, prompt, rest.prompts, rest.progress);
      }
    }
  }

  /** Progress `b` is the end of batch `b`, and the call for prompt `b` came back. */
  predicate ProgressCarries(n: nat, i: nat, ask: string -> Result<string, string>, prompts: seq<string>, progress: seq<nat>)
  {
    |progress| <= |prompts|
    && forall b :: 0 <= b < |progress| ==> progress[b] == BatchEnd(n, i, b) && ask(prompts[b]).Ok?
  }

  lemma ProgressStep(n: nat, i: nat, ask: string -> Result<string, string>, prompt: string, prompts: seq<string>, progress: seq<nat>)
    requires ask(prompt).Ok? && ProgressCarries(n, i + 20, ask, prompts, progress)
    ensures ProgressCarries(n, i, ask, [prompt] + prompts, [Min(i + 20, n)] + progress)
  {
    forall b | 0 < b < |progress| + 1
      ensures ([Min(i + 20, n)] + progress)[b] == BatchEnd(n, i, b) && ask(([prompt] + prompts)[b]).Ok?
    {
      NextBatch(n, i, b);
    }
  }

  /** `c` is the change for `cue` at place `j` of a batch whose call gave `reply`. */
  predicate ChangeOfCue(c: TextChange, cue: SubtitleEntry, reply: Result<string, string>, j: nat)
  {
    reply.Ok? && c == TextChange(cue.id, PickText(Pieces(reply.value), j, cue.text))
  }

  /** Change `k` is the change for cue `i + k`, at its place in the batch whose prompt
      is `prompts[k / 20]`. */
  predicate ChangesCarry(scope: seq<SubtitleEntry>, i: nat, prompts: seq<string>, ask: string -> Result<string, string>,
                         changes: seq<TextChange>)
  {
    i + |changes| <= |scope|
    && forall k :: 0 <= k < |changes| ==>
         k / 20 < |prompts| && ChangeOfCue(changes[k], scope[i + k], ask(prompts[k / 20]), k % 20)
  }

  /** When every batch comes back, every cue of the scope gets exactly one change, with
      its own id and with the piece at its place in its batch's reply, or its own text
      when that piece is missing or empty. */
  lemma {:induction false} ChangesPerCue(scope: seq<SubtitleEntry>, i: nat, request: seq<SubtitleEntry> -> string,
                                         ask: string -> Result<string, string>)
    requires i <= |scope|
    ensures var t := TranslateFrom(scope, i, request, ask);
            t.result.Ok? ==> |t.result.value| == |scope| - i && ChangesCarry(scope, i, t.prompts, ask, t.result.value)
    decreases |scope| - i
  {
    var t := TranslateFrom(scope, i, request, ask);
    BatchCounts(scope, i, request, ask);
    if i < |scope| && t.result.Ok? {
      var batch := scope[i..Min(i + 20, |scope|)];
      var prompt := request(batch);
      var rest := TranslateFrom(scope, i + 20, request, ask);
      if i + 20 <= |scope| {
        ChangesPerCue(scope, i + 20, request, ask);
      }
      ChangesStep(scope, i, ask, prompt, batch, rest.prompts, rest.result.value);
    }
  }

  lemma ChangesStep(scope: seq<SubtitleEntry>, i: nat, ask: string -> Result<string, string>, prompt: string,
                    batch: seq<SubtitleEntry>, restPrompts: seq<string>, restChanges: seq<TextChange>)
    requires i < |scope| && batch == scope[i..Min(i + 20, |scope|)] && ask(prompt).Ok?
    requires i + 20 <= |scope| ==> ChangesCarry(scope, i + 20, restPrompts, ask, restChanges)
    requires i + 20 > |scope| ==> restChanges == []
    ensures ChangesCarry(scope, i, [prompt] + restPrompts, ask, BatchChanges(batch, Pieces(ask(prompt).value)) + restChanges)
  {
    var first := BatchChanges(batch, Pieces(ask(prompt).value));
    var changes := first + restChanges;
    var prompts := [prompt] + restPrompts;
    forall k | 0 <= k < |changes|
      ensures k / 20 < |prompts| && ChangeOfCue(changes[k], scope[i + k], ask(prompts[k / 20]), k % 20)
    {
      if k < |first| {
        ChangeInFirst(scope, i, ask, prompt, batch, restPrompts, restChanges, k);
      } else {
        ChangeInRest(scope, i, ask, first, prompt, restPrompts, restChanges, k);
      }
    }
  }

  lemma ChangeInFirst(scope: seq<SubtitleEntry>, i: nat, ask: string -> Result<string, string>, prompt: string,
                      batch: seq<SubtitleEntry>, restPrompts: seq<string>, restChanges: seq<TextChange>, k: nat)
    requires i < |scope| && batch == scope[i..Min(i + 20, |scope|)] && ask(prompt).Ok? && k < |batch|
    ensures var changes := BatchChanges(batch, Pieces(ask(prompt).value)) + restChanges;
            var prompts := [prompt] + restPrompts;
            k / 20 < |prompts| && ChangeOfCue(changes[k], scope[i + k], ask(prompts[k / 20]), k % 20)
  {
    assert k / 20 == 0 && k % 20 == k;
    assert batch[k] == scope[i + k];
  }

  lemma ChangeInRest(scope: seq<SubtitleEntry>, i: nat, ask: string -> Result<string, string>, first: seq<TextChange>,
                     prompt: string, restPrompts: seq<string>, restChanges: seq<TextChange>, k: nat)
    requires |first| == 20 && |first| <= k < |first| + |restChanges|
    requires ChangesCarry(scope, i + 20, restPrompts, ask, restChanges)
    ensures var changes := first + restChanges;
            var prompts := [prompt] + restPrompts;
            k / 20 < |prompts| && ChangeOfCue(changes[k], scope[i + k], ask(prompts[k / 20]), k % 20)
  {
    var m := k - 20;
    AppendIndex(first, restChanges, k);
    ShiftBatch(k);
    assert m / 20 < |restPrompts| && ChangeOfCue(restChanges[m], scope[i + 20 + m], ask(restPrompts[m / 20]), m % 20);
    AppendIndex([prompt], restPrompts, k / 20);
  }

  lemma AppendIndex<T>(a: seq<T>, b: seq<T>, k: nat)
    requires |a| <= k < |a| + |b|
    ensures (a + b)[k] == b[k - |a|]
  {
  }

  /** Index `k` of the changes, one batch further on. */
  lemma ShiftBatch(k: nat)
    requires 20 <= k
    ensures (k - 20) / 20 == k / 20 - 1 && (k - 20) % 20 == k % 20
  {
  }

  /** A failed call ends the run with that call's error, after every earlier call came
      back; no change is produced. */
  lemma TranslateFails(scope: seq<SubtitleEntry>, request: seq<SubtitleEntry> -> string, ask: string -> Result<string, string>)
    ensures var t := TranslateFrom(scope, 0, request, ask);
            t.result.Err? ==>
              |t.prompts| == |t.progress| + 1
              && ask(t.prompts[|t.prompts| - 1]) == Err(t.result.error)
              && forall b :: 0 <= b < |t.prompts| - 1 ==> ask(t.prompts[b]).Ok?
  {
    BatchCounts(scope, 0, request, ask);
    ProgressReported(scope, 0, request, ask);
    LastCallFailed(scope, 0, request, ask);
  }

  lemma {:induction false} LastCallFailed(scope: seq<SubtitleEntry>, i: nat, request: seq<SubtitleEntry> -> string,
                                          ask: string -> Result<string, string>)
    ensures var t := TranslateFrom(scope, i, request, ask);
            t.result.Err? ==> |t.prompts| > 0 && ask(t.prompts[|t.prompts| - 1]) == Err(t.result.error)
    decreases |scope| - i
  {
    var t := TranslateFrom(scope, i, request, ask);
    if i < |scope| && t.result.Err? {
      var end := Min(i + 20, |scope|);
      var prompt := request(scope[i..end]);
      if ask(prompt).Ok? {
        LastCallFailed(scope, i + 20, request, ask);
        var rest := TranslateFrom(scope, i + 20, request, ask);
        assert t.prompts[|t.prompts| - 1] == rest.prompts[|rest.prompts| - 1];
      }
    }
  }

  /** Progress only grows, and once every batch is back it has reached the size of the
      scope. */
  lemma ProgressGrows(scope: seq<SubtitleEntry>, request: seq<SubtitleEntry> -> string, ask: string -> Result<string, string>)
    ensures var t := TranslateFrom(scope, 0, request, ask);
            (forall a, b :: 0 <= a < b < |t.progress| ==> t.progress[a] <= t.progress[b])
            && (t.result.Ok? && |scope| > 0 ==> |t.progress| > 0 && t.progress[|t.progress| - 1] == |scope|)
  {
    var t := TranslateFrom(scope, 0, request, ask);
    ProgressReported(scope, 0, request, ask);
    BatchCounts(scope, 0, request, ask);
    forall a, b | 0 <= a < b < |t.progress| ensures t.progress[a] <= t.progress[b] {
      assert 20 * (a + 1) <= 20 * (b + 1);
    }
    if t.result.Ok? && |scope| > 0 {
      var m := |t.progress|;
      assert m == (|scope| + 19) / 20;
      assert 20 * m >= |scope|;
    }
  }

  /** `t`, after the changes, prompts and progress made so far. */
  function Continue(changes: seq<TextChange>, prompts: seq<string>, progress: seq<nat>, t: Translation): Translation
  {
    Translation(prompts + t.prompts, progress + t.progress, if t.result.Ok? then Ok(changes + t.result.value) else t.result)
  }

  /** What the handler ends with: nothing in scope, the changes handed to the editor, or
      the error shown in the dialog. */
  datatype TranslateOutcome = NothingToTranslate | Translated(changes: seq<TextChange>) | TranslateFailed(error: string)

  /** The handler, for the target language `code` and the name the language list gives
      it, if any. It returns the outcome, the prompts it sent and the progress values it
      reported, one per batch that came back. */
  method HandleTranslate(entries: seq<SubtitleEntry>, selected: set<string>, code: string, listed: Option<string>,
                         ask: string -> Result<string, string>)
      returns (outcome: TranslateOutcome, prompts: seq<string>, progress: seq<nat>)
    ensures var scope := Scope(entries, selected);
            var t := TranslateFrom(scope, 0, Request(TargetLanguageName(code, listed)), ask);
            (scope == [] ==> outcome == NothingToTranslate && prompts == [] && progress == [])
            && (scope != [] ==> prompts == t.prompts && progress == t.progress
                                && (t.result.Ok? ==> outcome == Translated(t.result.value))
                                && (t.result.Err? ==> outcome == TranslateFailed(t.result.error)))
  {
    var scope := Scope(entries, selected);
    if |scope| == 0 {
      return NothingToTranslate, [], [];
    }
    var result;
    prompts, progress, result := TranslateBatches(scope, Request(TargetLanguageName(code, listed)), ask);
    outcome := if result.Ok? then Translated(result.value) else TranslateFailed(result.error);
  }

  /** The batching loop of the handler: for each batch of twenty, ask for the prompt,
      split the reply and queue one change per cue; stop at the first failed call. */
  method TranslateBatches(scope: seq<SubtitleEntry>, request: seq<SubtitleEntry> -> string, ask: string -> Result<string, string>)
      returns (prompts: seq<string>, progress: seq<nat>, result: Result<seq<TextChange>, string>)
    ensures Translation(prompts, progress, result) == TranslateFrom(scope, 0, request, ask)
  {
    prompts, progress := [], [];
    var changes: seq<TextChange> := [];
    var i := 0;
    ContinueNothing(TranslateFrom(scope, 0, request, ask));
    while i < |scope|
      invariant TranslateFrom(scope, 0, request, ask) == Continue(changes, prompts, progress, TranslateFrom(scope, i, request, ask))
      decreases |scope| - i
    {
      var end := Min(i + 20, |scope|);
      var batch := scope[i..end];
      var prompt := request(batch);
      var reply := ask(prompt);
      if reply.Err? {
        BatchFailed(scope, i, request, ask, changes, prompts, progress);
        return prompts + [prompt], progress, Err(reply.error);
      }
      var pieces := Pieces(reply.value);
      BatchBack(scope, i, request, ask, changes, prompts, progress);
      changes := QueueChanges(changes, batch, pieces);
      prompts := prompts + [prompt];
      progress := progress + [end];
      i := i + 20;
    }
    BatchesDone(scope, i, request, ask, changes, prompts, progress);
    result := Ok(changes);
  }

  /** The inner loop of the handler: one change per cue of the batch, queued in order. */
  method QueueChanges(queued: seq<TextChange>, batch: seq<SubtitleEntry>, pieces: seq<string>) returns (changes: seq<TextChange>)
    ensures changes == queued + BatchChanges(batch, pieces)
  {
    ghost var all := BatchChanges(batch, pieces);
    changes := queued;
    var j := 0;
    while j < |batch|
      invariant j <= |batch|
      invariant changes == queued + all[..j]
    {
      var text := if j < |pieces| && pieces[j] != "" then pieces[j] else batch[j].text;
      TakeOneMore(all, j);
      changes := changes + [TextChange(batch[j].id, text)];
      j := j + 1;
    }
    assert all[..j] == all;
  }

  lemma TakeOneMore<T>(s: seq<T>, j: nat)
    requires j < |s|
    ensures s[..j + 1] == s[..j] + [s[j]]
  {
  }

  lemma ContinueNothing(t: Translation)
    ensures Continue([], [], [], t) == t
  {
    assert [] + t.prompts == t.prompts && [] + t.progress == t.progress;
    if t.result.Ok? {
      assert [] + t.result.value == t.result.value;
    }
  }

  /** A batch whose call came back: its prompt, its end and its changes join what was
      made so far, and the run goes on with the next batch. */
  lemma BatchBack(scope: seq<SubtitleEntry>, i: nat, request: seq<SubtitleEntry> -> string, ask: string -> Result<string, string>,
                  changes: seq<TextChange>, prompts: seq<string>, progress: seq<nat>)
    requires i < |scope| && ask(request(scope[i..Min(i + 20, |scope|)])).Ok?
    ensures var batch := scope[i..Min(i + 20, |scope|)];
            var prompt := request(batch);
            Continue(changes, prompts, progress, TranslateFrom(scope, i, request, ask))
            == Continue(changes + BatchChanges(batch, Pieces(ask(prompt).value)), prompts + [prompt], progress + [Min(i + 20, |scope|)],
                        TranslateFrom(scope, i + 20, request, ask))
  {
    var batch := scope[i..Min(i + 20, |scope|)];
    var prompt := request(batch);
    var first := BatchChanges(batch, Pieces(ask(prompt).value));
    var rest := TranslateFrom(scope, i + 20, request, ask);
    assert prompts + ([prompt] + rest.prompts) == prompts + [prompt] + rest.prompts;
    assert progress + ([Min(i + 20, |scope|)] + rest.progress) == progress + [Min(i + 20, |scope|)] + rest.progress;
    if rest.result.Ok? {
      assert changes + (first + rest.result.value) == changes + first + rest.result.value;
    }
  }

  /** A batch whose call failed ends the run with that error. */
  lemma BatchFailed(scope: seq<SubtitleEntry>, i: nat, request: seq<SubtitleEntry> -> string, ask: string -> Result<string, string>,
                    changes: seq<TextChange>, prompts: seq<string>, progress: seq<nat>)
    requires i < |scope| && ask(request(scope[i..Min(i + 20, |scope|)])).Err?
    ensures var prompt := request(scope[i..Min(i + 20, |scope|)]);
            Continue(changes, prompts, progress, TranslateFrom(scope, i, request, ask))
            == Translation(prompts + [prompt], progress, Err(ask(prompt).error))
  {
    assert progress + [] == progress;
  }

  /** Past the last batch, the run has made exactly what was made so far. */
  lemma BatchesDone(scope: seq<SubtitleEntry>, i: nat, request: seq<SubtitleEntry> -> string, ask: string -> Result<string, string>,
                    changes: seq<TextChange>, prompts: seq<string>, progress: seq<nat>)
    requires i >= |scope|
    ensures Continue(changes, prompts, progress, TranslateFrom(scope, i, request, ask)) == Translation(prompts, progress, Ok(changes))
  {
    assert changes + [] == changes && prompts + [] == prompts && progress + [] == progress;
  }
}
