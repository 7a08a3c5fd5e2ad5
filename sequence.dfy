/** The sequence assembler: which notes the intro and the test play, how
    the test notes' labels become the output file name, and how the intro,
    the silence and the test segments are put together. Sample values are
    16-bit integers; the floating-point rendering that produces them is
    taken as given (see `Rendering`). */
module Sequence {
  import Text
  import Solfege

  /** One output sample: a signed 16-bit integer. */
  newtype Sample = x: int | -32768 <= x <= 32767

  /** The notes of Python's `range(lo, hi)`, in ascending order. */
  function Range(lo: int, hi: int): seq<int>
  {
    seq(if hi > lo then hi - lo else 0, i => lo + i)
  }

  /** The number of notes in the range `[root, root + noteRange)`. */
  function PopulationSize(noteRange: int): nat
  {
    if noteRange > 0 then noteRange else 0
  }

  /** Python's slice `xs[:k]`: a non-negative `k` keeps the first `k`
      elements (all of them when there are fewer), a negative `k` drops the
      last `-k`. */
  function Prefix<T>(xs: seq<T>, k: int): seq<T>
  {
    if k >= 0 then xs[..if k <= |xs| then k else |xs|]
    else xs[..if |xs| + k >= 0 then |xs| + k else 0]
  }

  /** The notes a scale intro plays: the range from the root, cut down to
      the requested number of notes. For a non-negative count these are the
      first `min(numNotes, noteRange)` notes from the root upward, one
      semitone apart. */
  function IntroNotes(root: int, noteRange: int, numNotes: int): (r: seq<int>)
    ensures numNotes >= 0 ==>
      |r| == if numNotes <= PopulationSize(noteRange) then numNotes else PopulationSize(noteRange)
    ensures numNotes < 0 ==>
      |r| == if PopulationSize(noteRange) + numNotes >= 0 then PopulationSize(noteRange) + numNotes else 0
    ensures forall i :: 0 <= i < |r| ==> r[i] == root + i
    ensures forall i, j :: 0 <= i < j < |r| ==> r[i] < r[j]
  {
    Prefix(Range(root, root + noteRange), numNotes)
  }

  /** No note occurs twice. */
  predicate Distinct(notes: seq<int>)
  {
    forall i, j :: 0 <= i < j < |notes| ==> notes[i] != notes[j]
  }

  /** Every note lies in `[root, root + noteRange)`. */
  predicate WithinRange(notes: seq<int>, root: int, noteRange: int)
  {
    forall i :: 0 <= i < |notes| ==> root <= notes[i] < root + noteRange
  }

  /** The test draw: `numNotes` notes taken without replacement from
      `[root, root + noteRange)`, in the order they are drawn. Which note is
      taken at each step is a free choice, so the method stands for every
      outcome of the random draw. The draw is only possible when the count
      is between zero and the size of the range. */
  method DrawTestNotes(root: int, noteRange: int, numNotes: int) returns (notes: seq<int>)
    requires 0 <= numNotes <= PopulationSize(noteRange)
    ensures |notes| == numNotes
    ensures Distinct(notes)
    ensures WithinRange(notes, root, noteRange)
  {
    var pool := Range(root, root + noteRange);
    notes := [];
    while |notes| < numNotes
      invariant |notes| <= numNotes
      invariant |notes| + |pool| == PopulationSize(noteRange)
      invariant Distinct(notes) && Distinct(pool)
      invariant WithinRange(notes, root, noteRange) && WithinRange(pool, root, noteRange)
      invariant forall i, j :: 0 <= i < |notes| && 0 <= j < |pool| ==> notes[i] != pool[j]
    {
      var j :| 0 <= j < |pool|;
      var picked := pool[j];
      pool := pool[..j] + pool[j + 1..];
      notes := notes + [picked];
    }
  }

  /** The label of every test note, in draw order: the map's entry for a
      note it holds, `note_<n>` for any other. */
  function Labels(m: map<int, string>, notes: seq<int>): (r: seq<string>)
    ensures |r| == |notes|
    ensures forall i :: 0 <= i < |notes| && notes[i] in m ==> r[i] == m[notes[i]]
    ensures forall i :: 0 <= i < |notes| && notes[i] !in m ==>
      r[i] == "note_" + Text.IntToString(notes[i])
  {
    seq(|notes|, i requires 0 <= i < |notes| => Solfege.Lookup(m, notes[i]))
  }

  /** Every `/` in every name becomes `|` and every other character stays.
      The list keeps its length and order, no sanitised name contains `/`,
      and a name without `/` stays as it was. */
  function Sanitize(names: seq<string>): (r: seq<string>)
    ensures |r| == |names|
    ensures forall i :: 0 <= i < |r| ==> '/' !in r[i] && |r[i]| == |names[i]|
    ensures forall i, j :: 0 <= i < |r| && 0 <= j < |names[i]| ==>
      r[i][j] == if names[i][j] == '/' then '|' else names[i][j]
    ensures forall i :: 0 <= i < |r| && '/' !in names[i] ==> r[i] == names[i]
  {
    seq(|names|, i requires 0 <= i < |names| => Text.ReplaceChar(names[i], '/', '|'))
  }

  /** The output file name for the given labels. The code builds it from
      the root and a four-digit number when one sanitised label is literally
      `n/a`, and otherwise joins the sanitised labels with `_` and appends
      `.wav`. The first branch is dead, so the name is always the joined
      labels with the extension. */
  function FileName(root: int, names: seq<string>, fallbackNumber: int): (r: string)
    ensures r == Text.Join(Sanitize(names), '_') + ".wav"
    ensures |r| >= 4 && r[|r| - 4..] == ".wav"
  {
    FallbackNeverChosen(names);
    var sanitized := Sanitize(names);
    if "n/a" in sanitized then
      "sequence_" + Text.IntToString(root) + "_" + Text.IntToString(fallbackNumber) + ".wav"
    else
      Text.Join(sanitized, '_') + ".wav"
  }

  /** No sanitised label is `n/a`: sanitising removes every `/`. */
  lemma FallbackNeverChosen(names: seq<string>)
    ensures "n/a" !in Sanitize(names)
  {
    var sanitized := Sanitize(names);
    forall i | 0 <= i < |sanitized|
      ensures sanitized[i] != "n/a"
    {
      assert "n/a"[1] == '/';
    }
  }

  /** Sanitising introduces no `_`, so names free of `_` join into a stem
      that splits back into the sanitised names. */
  lemma SanitizedNamesSplit(names: seq<string>)
    requires |names| >= 1
    requires forall i :: 0 <= i < |names| ==> '_' !in names[i]
    ensures Text.Split(Text.Join(Sanitize(names), '_'), '_') == Sanitize(names)
  {
    var sanitized := Sanitize(names);
    forall i | 0 <= i < |sanitized|
      ensures '_' !in sanitized[i]
    {
      var name := names[i];
      assert forall j :: 0 <= j < |name| ==> sanitized[i][j] == name[j] || sanitized[i][j] == '|';
    }
    Text.SplitJoin(sanitized, '_');
  }

  /** When the range is at most two octaves, every drawn note lies inside
      the labeler's fixed span, so each label is the syllable of the note's
      distance from the root, and no label contains `_`. */
  lemma LabelsAreSyllables(root: int, noteRange: int, notes: seq<int>)
    requires noteRange <= 24
    requires WithinRange(notes, root, noteRange)
    ensures var labels := Labels(Solfege.SolfegeMap(root, Solfege.AssemblerSpan), notes);
      forall i :: 0 <= i < |notes| ==> labels[i] == Solfege.Base[(notes[i] - root) % 12] && '_' !in labels[i]
  {
    var labels := Labels(Solfege.SolfegeMap(root, Solfege.AssemblerSpan), notes);
    forall i | 0 <= i < |notes|
      ensures labels[i] == Solfege.Base[(notes[i] - root) % 12] && '_' !in labels[i]
    {
      Solfege.AssemblerLookup(root, notes[i]);
      Solfege.SyllablesHaveNoUnderscore((notes[i] - root) % 12);
    }
  }

  /** With a range of at most two octaves, the file name is the joined
      sanitised labels plus `.wav`, and splitting that stem on `_` gives back
      exactly the sanitised labels: one token per test note, in draw order. */
  lemma FileNameTokens(root: int, noteRange: int, notes: seq<int>, fallbackNumber: int)
    requires 1 <= |notes|
    requires noteRange <= 24
    requires WithinRange(notes, root, noteRange)
    ensures var labels := Labels(Solfege.SolfegeMap(root, Solfege.AssemblerSpan), notes);
      && FileName(root, labels, fallbackNumber) == Text.Join(Sanitize(labels), '_') + ".wav"
      && Text.Split(Text.Join(Sanitize(labels), '_'), '_') == Sanitize(labels)
      && |Sanitize(labels)| == |notes|
  {
    var labels := Labels(Solfege.SolfegeMap(root, Solfege.AssemblerSpan), notes);
    LabelsAreSyllables(root, noteRange, notes);
    SanitizedNamesSplit(labels);
  }

  /** The file name of a non-empty draw is its stem followed by `.wav`; for
      a range of at most two octaves the stem splits into the sanitised
      labels. */
  lemma FileNameStem(root: int, noteRange: int, notes: seq<int>, fallbackNumber: int)
    requires 1 <= |notes|
    requires WithinRange(notes, root, noteRange)
    ensures var labels := Labels(Solfege.SolfegeMap(root, Solfege.AssemblerSpan), notes);
      var name := FileName(root, labels, fallbackNumber);
      && name == Text.Join(Sanitize(labels), '_') + ".wav"
      && (noteRange <= 24 ==> Text.Split(name[..|name| - 4], '_') == Sanitize(labels))
  {
    var labels := Labels(Solfege.SolfegeMap(root, Solfege.AssemblerSpan), notes);
    var stem := Text.Join(Sanitize(labels), '_');
    assert (stem + ".wav")[..|stem + ".wav"| - 4] == stem;
    if noteRange <= 24 {
      FileNameTokens(root, noteRange, notes, fallbackNumber);
    }
  }

  /** With a range above two octaves the test may draw root + 24, which the
      fixed 36-note map does not hold: its label is `note_<n>`, and a
      one-note test then yields a file name whose stem splits on `_` into
      two tokens, `note` and the number. */
  lemma FallbackLabelBreaksTokenCount(root: int, noteRange: int, fallbackNumber: int)
    requires noteRange > 24
    ensures WithinRange([root + 24], root, noteRange)
    ensures Labels(Solfege.SolfegeMap(root, Solfege.AssemblerSpan), [root + 24])
      == ["note_" + Text.IntToString(root + 24)]
    ensures FileName(root, ["note_" + Text.IntToString(root + 24)], fallbackNumber)
      == "note_" + Text.IntToString(root + 24) + ".wav"
    ensures Text.Split("note_" + Text.IntToString(root + 24), '_') == ["note", Text.IntToString(root + 24)]
  {
    OutOfSpanLabel(root);
    OutOfSpanFileName(root, fallbackNumber);
    OutOfSpanLabelSplits(root);
  }

  lemma OutOfSpanLabel(root: int)
    ensures Labels(Solfege.SolfegeMap(root, Solfege.AssemblerSpan), [root + 24])
      == ["note_" + Text.IntToString(root + 24)]
  {
    Solfege.AssemblerLookup(root, root + 24);
  }

  lemma OutOfSpanFileName(root: int, fallbackNumber: int)
    ensures FileName(root, ["note_" + Text.IntToString(root + 24)], fallbackNumber)
      == "note_" + Text.IntToString(root + 24) + ".wav"
  {
    Text.IntToStringHasNoSeparators(root + 24);
    SingleNameFile(root, "note_" + Text.IntToString(root + 24), fallbackNumber);
  }

  lemma OutOfSpanLabelSplits(root: int)
    ensures Text.Split("note_" + Text.IntToString(root + 24), '_') == ["note", Text.IntToString(root + 24)]
  {
    Text.IntToStringHasNoSeparators(root + 24);
    NotePrefixSplits(Text.IntToString(root + 24));
  }

  /** A one-note test is named after its one sanitised label. */
  lemma SingleNameFile(root: int, name: string, fallbackNumber: int)
    requires '/' !in name
    ensures FileName(root, [name], fallbackNumber) == name + ".wav"
  {
    assert Sanitize([name]) == [name];
  }

  lemma NotePrefixSplits(digits: string)
    requires '_' !in digits
    ensures Text.Split("note_" + digits, '_') == ["note", digits]
  {
    assert "note" + ['_'] == "note_";
    Text.SplitTwoPieces("note", '_', digits);
  }

  /** The samples of every note, rendered one after another in the order of
      `notes`. */
  function Concat(render: int -> seq<Sample>, notes: seq<int>): seq<Sample>
    decreases |notes|
  {
    if |notes| == 0 then []
    else Concat(render, notes[..|notes| - 1]) + render(notes[|notes| - 1])
  }

  /** Renders every note and appends its samples to the buffer, as the intro
      and test loops do. */
  method RenderAll(render: int -> seq<Sample>, notes: seq<int>) returns (audio: seq<Sample>)
    ensures audio == Concat(render, notes)
  {
    audio := [];
    var i := 0;
    while i < |notes|
      invariant 0 <= i <= |notes|
      invariant audio == Concat(render, notes[..i])
    {
      assert notes[..i + 1][..i] == notes[..i];
      audio := audio + render(notes[i]);
      i := i + 1;
    }
    assert notes[..|notes|] == notes;
  }

  /** Rendering two note lists one after the other is rendering their
      concatenation. */
  lemma {:induction false} ConcatAppend(render: int -> seq<Sample>, xs: seq<int>, ys: seq<int>)
    ensures Concat(render, xs + ys) == Concat(render, xs) + Concat(render, ys)
    decreases |ys|
  {
    if |ys| > 0 {
      var zs := xs + ys;
      assert zs[..|zs| - 1] == xs + ys[..|ys| - 1];
      ConcatAppend(render, xs, ys[..|ys| - 1]);
    } else {
      assert xs + ys == xs;
    }
  }

  /** The samples of note `k` sit right after those of the notes before it:
      the rendered buffer follows the order of the notes. */
  lemma ConcatBlock(render: int -> seq<Sample>, notes: seq<int>, k: int)
    requires 0 <= k < |notes|
    ensures var start := |Concat(render, notes[..k])|;
      && start + |render(notes[k])| <= |Concat(render, notes)|
      && Concat(render, notes)[start..start + |render(notes[k])|] == render(notes[k])
  {
    assert notes == notes[..k + 1] + notes[k + 1..];
    ConcatAppend(render, notes[..k + 1], notes[k + 1..]);
    assert notes[..k + 1][..k] == notes[..k];
  }

  /** `audio` holds `block` from position `start` on. */
  predicate HoldsAt(audio: seq<Sample>, start: int, block: seq<Sample>)
  {
    0 <= start && start + |block| <= |audio| && audio[start..start + |block|] == block
  }

  /** Every note of a scale intro sits at its place in the buffer: the k-th
      block is the rendering of note `root + k`. */
  lemma ScaleIntroBlocks(render: int -> seq<Sample>, root: int, noteRange: int, numNotes: int)
    ensures var notes := IntroNotes(root, noteRange, numNotes);
      forall k :: 0 <= k < |notes| ==>
        HoldsAt(Concat(render, notes), |Concat(render, notes[..k])|, render(root + k))
  {
    var notes := IntroNotes(root, noteRange, numNotes);
    forall k | 0 <= k < |notes|
      ensures HoldsAt(Concat(render, notes), |Concat(render, notes[..k])|, render(root + k))
    {
      ConcatBlock(render, notes, k);
      assert notes[k] == root + k;
    }
  }

  /** When every note renders to `width` samples, the buffer holds
      `|notes| * width` samples. */
  lemma {:induction false} ConcatUniformLength(render: int -> seq<Sample>, notes: seq<int>, width: nat)
    requires forall n :: |render(n)| == width
    ensures |Concat(render, notes)| == |notes| * width
    decreases |notes|
  {
    if |notes| > 0 {
      ConcatUniformLength(render, notes[..|notes| - 1], width);
    }
  }

  /** When every note renders to `width` samples, note `k`'s samples are
      exactly the `width` samples from `k * width` on: the audio of the k-th
      test note lines up with the k-th label. */
  lemma UniformBlock(render: int -> seq<Sample>, notes: seq<int>, width: nat, k: int)
    requires forall n :: |render(n)| == width
    requires 0 <= k < |notes|
    ensures k * width + width <= |Concat(render, notes)|
    ensures Concat(render, notes)[k * width..k * width + width] == render(notes[k])
  {
    ConcatUniformLength(render, notes[..k], width);
    assert |notes[..k]| == k;
    ConcatBlock(render, notes, k);
  }

  /** The silence between intro and test: `n` zero samples. */
  function Silence(n: nat): (r: seq<Sample>)
    ensures |r| == n && forall i :: 0 <= i < n ==> r[i] == 0
  {
    seq(n, _ => 0)
  }

  /** What the floating-point part of the pipeline produces, taken as given:
      the chord intro, the rendering of one intro note (at the intro's
      duration divided by the number of intro notes) and of one test note,
      the per-segment peak normalisation with narrowing to 16 bits, and the
      silence length derived from the sample rate and the space duration. */
  datatype Rendering = Rendering(
    chord: seq<Sample>,
    introNote: int -> seq<Sample>,
    testNote: int -> seq<Sample>,
    normalize: seq<Sample> -> seq<Sample>,
    silenceLength: int)

  /** Normalisation rescales samples and keeps the buffer's length. */
  ghost predicate KeepsLength(normalize: seq<Sample> -> seq<Sample>)
  {
    forall b :: |normalize(b)| == |b|
  }

  /** The intro before normalisation: the chord, or the scale notes
      rendered in ascending order. Any sound type other than "chord" is a
      scale: its k-th block of samples is the rendering of note `root + k`,
      the buffer ends with the last note's block, and a scale of no notes is
      silent. */
  function IntroAudio(soundType: string, root: int, numNotes: int, noteRange: int, rendering: Rendering): (r: seq<Sample>)
    ensures soundType == "chord" ==> r == rendering.chord
    ensures soundType != "chord" ==>
      var notes := IntroNotes(root, noteRange, numNotes);
      forall k :: 0 <= k < |notes| ==>
        HoldsAt(r, |Concat(rendering.introNote, notes[..k])|, rendering.introNote(root + k))
    ensures soundType != "chord" ==>
      |r| == |Concat(rendering.introNote, IntroNotes(root, noteRange, numNotes))|
    ensures soundType != "chord" && |IntroNotes(root, noteRange, numNotes)| == 0 ==> r == []
  {
    ScaleIntroBlocks(rendering.introNote, root, noteRange, numNotes);
    if soundType == "chord" then rendering.chord
    else Concat(rendering.introNote, IntroNotes(root, noteRange, numNotes))
  }

  /** Why a generation fails: the peak of an empty intro or test segment is
      undefined, a negative silence length is not a buffer size, and the
      draw cannot take more notes than the range holds, or fewer than none. */
  datatype Failure = EmptyIntro | NegativeSilence | InvalidSample | EmptyTest

  datatype Result<T> = Ok(value: T) | Err(error: Failure)

  /** A generated sequence: the file name and the samples written to it. */
  datatype Generated = Generated(fileName: string, audio: seq<Sample>)

  /** Generates one ear-training sequence. The failures come in the order
      the steps run: intro, silence, draw, test. On success the audio is the
      normalised intro, then the silence, then the normalised test, and the
      file name is the sanitised labels of the drawn notes joined by `_`. The
      drawn notes are returned as a ghost value so that the contract can
      speak of them. */
  method GenerateSequence(soundType: string, root: int, numNotes: int, noteRange: int, rendering: Rendering)
    returns (r: Result<Generated>, ghost drawn: seq<int>)
    requires KeepsLength(rendering.normalize)
    ensures var intro := IntroAudio(soundType, root, numNotes, noteRange, rendering);
      (r == Err(EmptyIntro)) <==> |intro| == 0
    ensures var intro := IntroAudio(soundType, root, numNotes, noteRange, rendering);
      (r == Err(NegativeSilence)) <==> |intro| > 0 && rendering.silenceLength < 0
    ensures var intro := IntroAudio(soundType, root, numNotes, noteRange, rendering);
      (r == Err(InvalidSample)) <==>
        |intro| > 0 && rendering.silenceLength >= 0 && !(0 <= numNotes <= PopulationSize(noteRange))
    ensures r == Err(EmptyTest) || r.Ok? ==>
      && |drawn| == numNotes
      && Distinct(drawn)
      && WithinRange(drawn, root, noteRange)
    ensures var intro := IntroAudio(soundType, root, numNotes, noteRange, rendering);
      (r == Err(EmptyTest)) <==>
        && |intro| > 0 && rendering.silenceLength >= 0 && 0 <= numNotes <= PopulationSize(noteRange)
        && |Concat(rendering.testNote, drawn)| == 0
    ensures r.Ok? ==>
      var intro := IntroAudio(soundType, root, numNotes, noteRange, rendering);
      var test := Concat(rendering.testNote, drawn);
      var labels := Labels(Solfege.SolfegeMap(root, Solfege.AssemblerSpan), drawn);
      && rendering.silenceLength >= 0
      && |test| > 0
      && r.value.audio == rendering.normalize(intro) + Silence(rendering.silenceLength) + rendering.normalize(test)
      && |r.value.audio| == |intro| + rendering.silenceLength + |test|
      && r.value.fileName == Text.Join(Sanitize(labels), '_') + ".wav"
      && (noteRange <= 24 ==>
            Text.Split(r.value.fileName[..|r.value.fileName| - 4], '_') == Sanitize(labels))
  {
    drawn := [];
    var introAudio: seq<Sample>;
    if soundType == "chord" {
      introAudio := rendering.chord;
    } else {
      var introNotes := IntroNotes(root, noteRange, numNotes);
      introAudio := RenderAll(rendering.introNote, introNotes);
    }
    if |introAudio| == 0 {
      return Err(EmptyIntro), drawn;
    }
    introAudio := rendering.normalize(introAudio);

    if rendering.silenceLength < 0 {
      return Err(NegativeSilence), drawn;
    }
    var silence := Silence(rendering.silenceLength);

    var solfegeMap := Solfege.BuildSolfegeMap(root, Solfege.AssemblerSpan);
    if !(0 <= numNotes <= PopulationSize(noteRange)) {
      return Err(InvalidSample), drawn;
    }
    var notes := DrawTestNotes(root, noteRange, numNotes);
    drawn := notes;
    var names := Labels(solfegeMap, notes);

    var testAudio := RenderAll(rendering.testNote, notes);
    if |testAudio| == 0 {
      return Err(EmptyTest), drawn;
    }
    testAudio := rendering.normalize(testAudio);

    var combined := introAudio + silence + testAudio;

    var fallbackNumber :| 1000 <= fallbackNumber <= 9999;
    var fileName := FileName(root, names, fallbackNumber);
    FileNameStem(root, noteRange, notes, fallbackNumber);
    r := Ok(Generated(fileName, combined));
  }
}
