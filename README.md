# Solfège ear-training sequences — a Dafny model of the note and filename logic

The ear-training program builds short audio files. Each file has three parts:

- an intro: a rising scale from a root note, or a major triad on it;
- a stretch of silence;
- a test: a few notes drawn at random from a range above the root.

The file is named after the solfège syllables of the test notes, so the listener can check their answer against the name. This project models the discrete part of that pipeline in `soundmodule.py` and proves what it promises:

- the solfège labeler (`generate_solfege_map_for_root`) and its `note_<n>` fallback;
- which notes the intro and the test play;
- how the labels become the file name;
- how the intro, silence and test sample buffers are joined.

The floating-point synthesis (sine waves, fades, peak normalisation) is not modelled. Its outputs are taken as given values in `Sequence.Rendering`: the chord buffer, one rendering function per note kind, a length-preserving normaliser and the silence length.

Files:

- `text.dfy` (module `Text`): Python's `sep.join`, one-character `str.replace` and `str(int)`. It also has `str.split`, which the program never calls: it reads a joined file name back into its pieces, and the split/join round trips are stated with it.
- `solfege.dfy` (module `Solfege`): the labeler as a loop proved against a recursive map definition, and the lookup with its fallback.
- `sequence.dfy` (module `Sequence`): intro notes, the draw without replacement, labels, sanitising, the file name, segment concatenation and the whole `generate_sequence` step.

In a few places the code does something other than what one would expect the program to do. The model follows the code:

- The draw fails for a negative note count as well as for a count above the range. An empty or negative range counts as size 0 (`PopulationSize`).
- A note count of 0 does not give an empty file. It fails, because the peak of an empty intro or test segment is undefined (`EmptyIntro`, `EmptyTest`).
- The intro notes use Python's slice `[:num_notes]`, so a negative count drops notes from the end of the range (`Prefix`).
- Labels come from a fixed 36-note map running from `root-12` to `root+23`. The range slider goes up to 36, so with a range above 24 a test note can fall outside the map and get the label `note_<n>`. That label contains `_`, so the filename stem then has more `_`-separated tokens than there are test notes (`FallbackLabelBreaksTokenCount`). The "one token per test note" reading of a file name holds only for ranges up to 24 (`FileNameTokens`).

## Model

| member | source | states |
|---|---|---|
| `Solfege.BuildSolfegeMap` | soundmodule.py:144-156 | The map filled by the loop equals `SolfegeMap(root, noteRange)`, which is empty for a non-positive range. |
| `Solfege.SolfegeMapDomain` | soundmodule.py:150-154 | Keys are exactly `root-12 .. root-12+noteRange-1`, and there are `max(noteRange, 0)` of them. |
| `Solfege.ExtendedIsCyclic` | soundmodule.py:146-153 | Indexing the tripled 12-syllable list at `i % 36` gives the base syllable at `i % 12`. |
| `Solfege.SyllableOf` | soundmodule.py:146-154 | A note in the span is in the map, labelled with the base syllable at `(note - root) % 12`. |
| `Solfege.RootIsDo` | soundmodule.py:146-154 | When the span reaches the root (range above 12), the root's label is "do". |
| `Solfege.OctaveInvariance` | soundmodule.py:146-154 | Two notes an octave apart, both in the span, get the same label. |
| `Solfege.Lookup` | soundmodule.py:190 | A note the map holds gets its entry. Any other note gets `note_` followed by `str(note)`, a label that contains `_` and no `/`. |
| `Solfege.AssemblerLookup` | soundmodule.py:188-190 | With the fixed 36-note map, a note gets its syllable exactly when `root-12 <= note < root+24`. Otherwise it gets `"note_" + str(note)`. |
| `Solfege.SyllablesHaveNoUnderscore` | soundmodule.py:146 | No base syllable contains `_`. |
| `Text.ReplaceChar` | soundmodule.py:206 | `replace('/', '|')` keeps the length, leaves no `/`, and changes no other character. |
| `Text.NatToString` | soundmodule.py:190 | The decimal text of a number is non-empty, has only digits and no leading zero, and its value is the number. |
| `Text.IntToString` | soundmodule.py:190 | The text has a leading `-` exactly for negative numbers, and digits everywhere else. For `n >= 0` the digits have value `n` and no leading zero. For `n < 0` the digits after the sign have value `-n` and no leading zero. |
| `Text.IntToStringHasNoSeparators` | soundmodule.py:190 | The number in a fallback label contains neither `_` nor `/`. |
| `Text.Join` | soundmodule.py:212 | `sep.join(parts)` is empty for no parts. Otherwise its length is the parts' total length plus one separator fewer than there are parts, and it starts with the first part. Its inverse is `Split` (see `SplitJoin`, `JoinSplit`). |
| `Text.Split` | soundmodule.py:212 | The program does not call this. It is Python's `s.split(sep)`, used to read back the name joined at this line. It gives one piece more than the number of separators, and no piece contains the separator. |
| `Text.SplitJoin` | soundmodule.py:212 | Splitting `"_".join(parts)` on `_` gives back `parts`, when there is at least one part and none contains `_`. |
| `Text.JoinSplit` | soundmodule.py:212 | Joining the pieces of any split gives back the original string. |
| `Sequence.IntroNotes` | soundmodule.py:173 | For a non-negative count, the intro plays the first `min(numNotes, noteRange)` notes from the root in ascending semitones. A negative count drops that many notes from the end. |
| `Sequence.DrawTestNotes` | soundmodule.py:189 | When `0 <= numNotes <= noteRange`, every outcome of the draw has exactly `numNotes` notes, pairwise distinct, all in `[root, root+noteRange)`. |
| `Sequence.Sanitize` | soundmodule.py:206 | Sanitising keeps the number of names and each name's length. Character by character, every `/` becomes `|` and every other character stays. So no sanitised name contains `/`, and names without `/` are unchanged. |
| `Sequence.Labels` | soundmodule.py:190 | One label per drawn note, in draw order. A note the map holds gets its entry, and any other note gets `note_` followed by `str(note)`. |
| `Sequence.FallbackNeverChosen` | soundmodule.py:206-210 | `'n/a'` is never among the sanitised names, because sanitising removes every `/`. |
| `Sequence.FileName` | soundmodule.py:209-212 | The `'n/a'` fallback branch is dead. The name is always the sanitised labels joined by `_` plus `.wav`, so it ends in `.wav`. |
| `Sequence.SanitizedNamesSplit` | soundmodule.py:206-212 | Sanitising adds no `_`. So names free of `_` join into a stem that splits back into the sanitised names. |
| `Sequence.LabelsAreSyllables` | soundmodule.py:188-190 | For a range up to 24, every drawn note is inside the fixed map. Each label is the syllable at `(note - root) % 12` and contains no `_`. |
| `Sequence.FileNameTokens` | soundmodule.py:188-212 | For a range up to 24 and at least one note, the file name is the joined sanitised labels plus `.wav`. The stem splits on `_` into exactly one token per test note: the sanitised labels, in draw order. |
| `Sequence.FileNameStem` | soundmodule.py:206-212 | For any non-empty in-range draw, the file name is its stem followed by `.wav`. For a range up to 24, the stem (the name without its last four characters) splits into the sanitised labels. |
| `Sequence.FallbackLabelBreaksTokenCount` | soundmodule.py:188-190 | For a range above 24, note `root+24` can be drawn and is labelled `note_<n>`. Its one-note file name is `note_<n>.wav`, and the stem splits into two tokens. |
| `Sequence.IntroAudio` | soundmodule.py:168-177 | A chord intro is the chord buffer. For a scale intro, the k-th block of samples is the rendering of note `root + k`, and the buffer ends where the last note's block ends: nothing precedes, separates or follows the blocks. A scale with no notes is empty. |
| `Sequence.ScaleIntroBlocks` | soundmodule.py:173-177 | The rendering of intro note `root + k` sits in the buffer right after the samples of the notes before it. |
| `Sequence.RenderAll` | soundmodule.py:174-177 | The loop that appends each rendered note's samples produces `Concat(render, notes)`. The same loop shape builds the test segment at lines 193-196. |
| `Sequence.ConcatAppend` | soundmodule.py:193-196 | Rendering `xs + ys` gives the samples of `xs` followed by those of `ys`. |
| `Sequence.ConcatBlock` | soundmodule.py:193-196 | The samples of note `k` sit right after those of the notes before it, so the test audio follows the draw order. |
| `Sequence.ConcatUniformLength` | soundmodule.py:193-196 | When every note renders to `width` samples, the segment has `|notes| * width` samples. |
| `Sequence.UniformBlock` | soundmodule.py:189-196 | With equal-length notes, samples `k*width .. (k+1)*width` of the test segment are exactly note `k`'s rendering. So the k-th label and the k-th audio block belong to the same note. |
| `Sequence.Silence` | soundmodule.py:185 | The silence has the given length and is zero throughout. |
| `Sequence.GenerateSequence` | soundmodule.py:163-220 | Failures come in source order: empty intro, negative silence length, impossible draw, empty test, each stated as an if-and-only-if. On success the drawn notes are distinct, in range and `numNotes` long. The audio is normalised intro + all-zero silence + normalised test, and its length is the sum of the three. The file name is the joined sanitised labels plus `.wav`. For a range up to 24, its stem splits back into those labels. |

## Left out

- Frequency computation, sine synthesis, fades and peak normalisation (`midi_to_frequency`, `create_note`, `generate_chord`, and the 32767 scaling, `nan_to_num` and `int16` narrowing in `generate_sequence`) are floating point. Their results enter as values in `Rendering`. The only thing assumed about normalisation is that it keeps a buffer's length.
- `create_note` changes its waveform in place with fade ramps, and it fails on an empty waveform. Both are inside the float renderer and are not modelled.
- The sample count `int(sample_rate * space_duration)` and the per-note intro duration `intro_duration / len(intro_notes)` are float arithmetic. The silence length is a given integer, and the intro rendering function already includes the subdivided duration.
- `random.sample` is a free choice of the next note, one step at a time. `random.randint(1000, 9999)` for the fallback name is a free choice in that range.
- DrawTestNotes: does not state that every distinct in-range sequence is a possible outcome. It states only what every outcome satisfies.
- Creating the output folder, `os.path.join`, writing the WAV file and the diagnostic `print` are I/O. `GenerateSequence` returns the file name and the samples that would be written, not a path.
- `get_current_settings` and `set_durations` only return their inputs or the global durations, and are not modelled.
- Loading, saving and applying settings (soundmodule.py:52-121) are file I/O and changes to global state. The Tk window, pygame playback and the playback wait thread in `main.py` are UI and concurrency. `on_root_note_change` is never called.
