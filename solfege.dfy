/** The solfège labeler: a finite map from note numbers to syllables,
    anchored one octave below a root note, and the lookup that falls back to
    a synthetic `note_<n>` label outside the map. */
module Solfege {
  import Text

  /** The twelve chromatic syllables, starting at the root. */
  const Base: seq<string> :=
    ["do", "di/ra", "re", "ri/me", "mi", "fa", "fi/se", "sol", "si/le", "la", "li/te", "ti"]

  /** The base list repeated three times, as the labeler indexes it. */
  const Extended: seq<string> := Base + Base + Base

  /** The span the sequence assembler asks the labeler for. */
  const AssemblerSpan: int := 36

  /** The first note of the map: one octave below the root. */
  function SpanStart(root: int): int
  {
    root - 12
  }

  /** The map the labeler builds for `root` and `noteRange`: the notes
      `SpanStart(root) + i` for `0 <= i < noteRange`, each labelled with entry
      `i` of `Extended`, taken cyclically. A non-positive range gives the
      empty map. */
  function SolfegeMap(root: int, noteRange: int): map<int, string>
    decreases noteRange
  {
    if noteRange <= 0 then map[]
    else
      var i := noteRange - 1;
      SolfegeMap(root, i)[SpanStart(root) + i := Extended[i % |Extended|]]
  }

  /** Fills the map one note at a time, as the labeler does. */
  method BuildSolfegeMap(root: int, noteRange: int) returns (m: map<int, string>)
    ensures m == SolfegeMap(root, noteRange)
  {
    m := map[];
    var start := SpanStart(root);
    var i := 0;
    while i < noteRange
      invariant 0 <= i <= if noteRange > 0 then noteRange else 0
      invariant m == SolfegeMap(root, i)
    {
      var note := start + i;
      m := m[note := Extended[i % |Extended|]];
      i := i + 1;
    }
    assert noteRange <= 0 ==> SolfegeMap(root, noteRange) == SolfegeMap(root, 0);
  }

  /** The label of a note: its syllable when the map holds it, else
      `note_` followed by the note number in decimal. Such a fallback label
      contains the filename separator `_` but no `/`. */
  function Lookup(m: map<int, string>, note: int): (r: string)
    ensures note in m ==> r == m[note]
    ensures note !in m ==> r == "note_" + Text.IntToString(note) && '_' in r && '/' !in r
  {
    if note in m then m[note]
    else
      Text.IntToStringHasNoSeparators(note);
      var fallback := "note_" + Text.IntToString(note);
      assert fallback[4] == '_';
      fallback
  }

  /** The map holds exactly `noteRange` notes (none when the range is not
      positive): those from one octave below the root onward, and no others. */
  lemma {:induction false} SolfegeMapDomain(root: int, noteRange: int)
    ensures forall n :: n in SolfegeMap(root, noteRange) <==> root - 12 <= n < root - 12 + noteRange
    ensures |SolfegeMap(root, noteRange)| == if noteRange > 0 then noteRange else 0
    decreases noteRange
  {
    if noteRange > 0 {
      SolfegeMapDomain(root, noteRange - 1);
      assert root - 12 + noteRange - 1 !in SolfegeMap(root, noteRange - 1);
    }
  }

  /** Entry `q` of the tripled list is entry `q` modulo 12 of the base
      list. */
  lemma TripleIndex(q: int)
    requires 0 <= q < 36
    ensures Extended[q] == Base[q % 12]
  {
    assert |Base| == 12;
    if q < 12 {
      assert Extended[q] == Base[q];
    } else if q < 24 {
      assert Extended[q] == Base[q - 12];
    } else {
      assert Extended[q] == Base[q - 24];
    }
  }

  /** Adding whole octaves does not change a note's position modulo 12. */
  lemma ShiftByOctaves(m: nat, q: int)
    ensures (12 * m + q) % 12 == q % 12
  {
  }

  /** Indexing the tripled list cyclically is indexing the base list
      modulo 12. */
  lemma ExtendedIsCyclic(i: int)
    requires i >= 0
    ensures Extended[i % |Extended|] == Base[i % 12]
  {
    assert |Base| == 12;
    var k, q := i / 36, i % 36;
    assert i == 12 * (3 * k) + q;
    ShiftByOctaves(3 * k, q);
    TripleIndex(q);
  }

  /** A note in the map is labelled with the base syllable whose index is its
      distance from the root, modulo 12. */
  lemma {:induction false} SyllableOf(root: int, noteRange: int, note: int)
    requires root - 12 <= note < root - 12 + noteRange
    ensures note in SolfegeMap(root, noteRange)
    ensures SolfegeMap(root, noteRange)[note] == Base[(note - root) % 12]
    decreases noteRange
  {
    var i := noteRange - 1;
    LastEntry(root, i);
    if note != root - 12 + i {
      SyllableOf(root, i, note);
    }
  }

  /** The step from `i` to `i + 1` notes adds the note `i` above the span
      start, labelled by its distance from the root modulo 12. */
  lemma LastEntry(root: int, i: nat)
    ensures SolfegeMap(root, i + 1) == SolfegeMap(root, i)[root - 12 + i := Base[(i - 12) % 12]]
  {
    ExtendedIsCyclic(i);
    ShiftByOctaves(1, i - 12);
  }

  /** The root itself is "do" whenever the map reaches it. */
  lemma RootIsDo(root: int, noteRange: int)
    requires noteRange > 12
    ensures Lookup(SolfegeMap(root, noteRange), root) == "do"
  {
    SyllableOf(root, noteRange, root);
  }

  /** Notes an octave apart carry the same label when both are in the map. */
  lemma OctaveInvariance(root: int, noteRange: int, note: int)
    requires root - 12 <= note && note + 12 < root - 12 + noteRange
    ensures Lookup(SolfegeMap(root, noteRange), note) == Lookup(SolfegeMap(root, noteRange), note + 12)
  {
    SyllableOf(root, noteRange, note);
    SyllableOf(root, noteRange, note + 12);
    assert (note + 12 - root) % 12 == (note - root) % 12;
  }

  /** With the assembler's fixed span of 36, a note gets a syllable exactly
      when it lies from one octave below the root up to, not including, two
      octaves above it; every other note gets `note_<n>`. */
  lemma AssemblerLookup(root: int, note: int)
    ensures root - 12 <= note < root + 24 ==>
      Lookup(SolfegeMap(root, AssemblerSpan), note) == Base[(note - root) % 12]
    ensures !(root - 12 <= note < root + 24) ==>
      Lookup(SolfegeMap(root, AssemblerSpan), note) == "note_" + Text.IntToString(note)
  {
    SolfegeMapDomain(root, AssemblerSpan);
    if root - 12 <= note < root + 24 {
      SyllableOf(root, AssemblerSpan, note);
    }
  }

  /** No syllable contains the filename separator `_`. */
  lemma SyllablesHaveNoUnderscore(i: int)
    requires 0 <= i < 12
    ensures '_' !in Base[i]
  {
  }
}
