/** The subtitle entries the editor dialogs work on, and the selection they share.
    The editor's state container (`SubtitleContext`) is not part of this model: each
    dialog is given the entries and the selected ids, and returns the changes it asks
    the container to apply. */
module SubtitleEntries {
  /** A cue: its id, its start and end in milliseconds, and its text. */
  datatype SubtitleEntry = SubtitleEntry(id: string, startTime: int, endTime: int, text: string)

  /** The entries whose id is selected, in entry order. */
  function SelectedEntries(entries: seq<SubtitleEntry>, selected: set<string>): (r: seq<SubtitleEntry>)
    ensures |r| <= |entries|
    ensures forall e :: e in r <==> e in entries && e.id in selected
  {
    if entries == [] then []
    else (if entries[0].id in selected then [entries[0]] else []) + SelectedEntries(entries[1..], selected)
  }

  /** Filtering distributes over concatenation, so the selection keeps entry order. */
  lemma {:induction false} SelectedConcat(a: seq<SubtitleEntry>, b: seq<SubtitleEntry>, selected: set<string>)
    ensures SelectedEntries(a + b, selected) == SelectedEntries(a, selected) + SelectedEntries(b, selected)
  {
    if a == [] {
      assert a + b == b;
    } else {
      assert (a + b)[0] == a[0];
      assert (a + b)[1..] == a[1..] + b;
      SelectedConcat(a[1..], b, selected);
    }
  }

  /** The entries a dialog works on: the selected ones when there is a selection, all of
      them otherwise. */
  function Scope(entries: seq<SubtitleEntry>, selected: set<string>): (r: seq<SubtitleEntry>)
    ensures |selected| == 0 ==> r == entries
    ensures |selected| > 0 ==> forall e :: e in r <==> e in entries && e.id in selected
  {
    if |selected| > 0 then SelectedEntries(entries, selected) else entries
  }
}
