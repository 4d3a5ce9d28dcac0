# ABX trial engine of AudioTest, modelled in Dafny

AudioTest is a small desktop tool for blind ABX listening tests. The user opens an
audio file and converts it to MP3 at a chosen bitrate. Then, round after round, the
user listens to A, B, X and Y and guesses whether "A is X, B is Y" or "A is Y, B is X".
The app keeps a score of right answers over tries. It also shows the p-value of a
one-sided exact binomial test, which measures how unlikely that score would be
if the listener were guessing at random.

This project models the trial engine inside `AudioTestApp` (main.py):

- `binomial.dfy` (module `Binomial`): binomial coefficients by Pascal's rule and the
  upper tail `Tail(n, c)` = sum of C(n, k) for k = c .. n. It proves that the full
  row sums to 2^n, the tail at the top is 1, and the tail shrinks strictly as the
  threshold rises.
- `guess_records.dfy` (module `GuessRecords`): an independent reading of the tail.
  It lists every right/wrong record of n rounds, each exactly once. It proves that
  `Tail(n, c)` counts the records with at least c right answers.
- `significance.dfy` (module `Significance`): the p-value as an exact rational,
  `PValue(correct, tries) = Tail(tries, correct) / 2^tries`. For tries ≥ 1 this is
  what `stats.binomtest(correct, n=tries, p=0.5, alternative='greater')` computes;
  `evaluate_guess` only calls it after raising `tries` (main.py:193, 204).
  The module proves its bounds, its extreme values, and its monotonicity.
- `labels.dfy` (module `Labels`): the round assignment `rand_file` (two slot bits)
  and what each of the labels A, B, X, Y stands for. A guess is right when A and
  the label the guess pairs with A play the same file.
- `audio_test.dfy` (module `AudioTest`): the class `AudioTestApp`. Its fields are the
  ones the source updates in place: `tries`, `correct`, the displayed p-value,
  `rand_file`, and the enabled state of "Convert File" and of the play/guess buttons.

Randomness is a parameter. Each new round assignment is passed in as `draw`, and
`IsDraw` demands that both parts lie in {0, 1}, as `random.randint(0, 1)` promises.
The outcome of the file dialog, the decoder, the copy and the encoder is also a
parameter (`OpenResult`, `encoded`).

Points of the source that the model keeps as they are:

- The play and guess buttons are enabled at start-up (main.py:62 disables only
  "Convert File"), so a guess is accepted before any file is opened.
- Opening a file does not discard the earlier converted file. It resets the score
  and disables the play and guess buttons.
- `open_file` resets the score and disables the buttons before it copies the file
  (main.py:105-111). If the copy raises an `OSError`, the worker prints
  "Cancelled.", but the reset has already happened and the new file is not taken
  up. The model has this as `OpenResult.CopyFailed`. A cancelled dialog or an
  unreadable file changes nothing.
- `evaluate_guess` does not store the p-value in `self.p`; it only shows it. The
  model's field `p` is the p-value on display, which `open_file` sets to 1 and
  each guess sets to the computed value.

## Model

| member | source | states |
|---|---|---|
| `Binomial.TailPascal` | main.py:204 | For c ≥ 1, the tail of n + 1 rounds from c is the tail of n rounds from c plus the tail of n rounds from c - 1 (Pascal's rule on tails). |
| `Binomial.TailFromZero` | main.py:204 | The tail from 0 is 2^n: all outcomes of n rounds. |
| `Binomial.TailAtTop` | main.py:204 | The tail from n is 1: only the all-right outcome. |
| `Binomial.TailStep` | main.py:204 | Raising the threshold c ≤ n by one makes the tail strictly smaller; above n the tail is 0. |
| `Binomial.TailAntitone` | main.py:204 | The tail never grows as the threshold rises. |
| `Binomial.TailBounds` | main.py:204 | For c ≤ n the tail lies between 1 and 2^n. |
| `GuessRecords.RecordsCount` | main.py:204 | There are 2^n right/wrong records of n rounds. |
| `GuessRecords.RecordsExact` | main.py:204 | A sequence is a record of n rounds exactly when it has length n. |
| `GuessRecords.RecordsDistinct` | main.py:204 | No record is listed twice, so the records are the 2^n equally likely outcomes under random guessing. |
| `GuessRecords.CountRecordsStep` | main.py:204 | The records of n + 1 rounds with at least c right answers are those of n rounds with at least c, plus those with at least c - 1. |
| `GuessRecords.TailCountsRecords` | main.py:204 | `Tail(n, c)` equals the number of records of n rounds with at least c right answers. |
| `Significance.PValue` | main.py:204 | The one-sided exact binomial p-value P(K ≥ correct), K ~ Binomial(tries, 1/2), for correct ≤ tries; it lies in (0, 1]. |
| `Significance.PValueIsShareOfRecords` | main.py:204 | The p-value is the fraction of the 2^tries equally likely records (all present, none twice) that have at least `correct` right answers. |
| `Significance.PValueNoneCorrect` | main.py:204 | With no right answers the p-value is 1, for every number of tries. At 0/0 this value stands for the literal "p=1" label set at start-up and on open (main.py:86, 109), not for a `binomtest` result. |
| `Significance.PValueAllCorrect` | main.py:204 | With every answer right the p-value is 1/2^tries. |
| `Significance.PValuePerfectRunHalves` | main.py:204 | Each further right answer in a perfect run halves the p-value, so it strictly decreases. |
| `Significance.PValueDecreasesWithCorrect` | main.py:204 | For fixed tries, one more right answer gives a strictly smaller p-value. |
| `Significance.PValuePerfectExamples` | main.py:204 | 1/1 gives p = 0.5 and 5/5 gives p = 0.03125. |
| `Significance.PValueOneOfTwo` | main.py:204 | 1/2 gives p = 0.75. |
| `Labels.ResolveBySlots` | main.py:178-186 | A plays the original exactly when `rand_file[0] == 0`, X exactly when `rand_file[1] == 0`; B and Y always play the other file, so each pair exposes both files. |
| `Labels.SameFileIffSlotsAgree` | main.py:179-186 | For a drawn pair, A and X play the same file exactly when the two slot bits are equal. |
| `Labels.MatchesBySlots` | main.py:194-199 | The guess 'a_x' is right exactly when the slot bits agree, 'a_y' exactly when they differ. |
| `Labels.ExactlyOneGuessMatches` | main.py:179-199 | In each of the four assignments exactly one of the two guesses is right, and a right guess also pairs B with the remaining label. |
| `AudioTest.AudioTestApp.constructor` | main.py:28-44 | Start-up: score 0/0, p = 1, a first round drawn in {0,1}², "Convert File" disabled (line 62), play and guess buttons enabled; the invariant `correct ≤ tries` holds. |
| `AudioTest.AudioTestApp.GenerateRandomFile` | main.py:210-211 | Replaces the round assignment by the drawn pair. |
| `AudioTest.AudioTestApp.ButtonsChangeState` | main.py:213-219 | Sets the enabled state of the four play and two guess buttons. |
| `AudioTest.AudioTestApp.OpenFile` | main.py:101-112 | Once the file is decoded: score 0/0 and p = 1 whatever the earlier score, play and guess buttons disabled, round kept, and "Convert File" enabled when the open completed (lines 145-150, 159-164). A cancelled dialog or an undecodable file changes nothing. The invariant is preserved. |
| `AudioTest.AudioTestApp.ConvertFile` | main.py:115-124 | The play and guess buttons end up enabled exactly when they were already enabled or the lossy copy was exported and read back (line 123, again at 157 and 167). Nothing else changes. |
| `AudioTest.AudioTestApp.PostConvertFile` | main.py:166-167 | Runs only after a conversion, so only while "Convert File" is enabled (main.py:152-157). Enables the play and guess buttons and keeps the invariant. |
| `AudioTest.AudioTestApp.PlaySound` | main.py:178-186 | Callable only while the play buttons are enabled (main.py:67-76, 213-217). The slot-bit tests of `play_sound` pick the file `Resolve` assigns to the label, with B and Y the complements of A and X. The method changes nothing, so lookups within a round agree. |
| `AudioTest.AudioTestApp.EvaluateGuess` | main.py:192-207 | Callable only while the guess buttons are enabled (main.py:79-82, 218-219). Tries go up by exactly 1. The right answers go up by 1 exactly when the guess matches the current round (`Matches`), otherwise they stay the same. The displayed p-value becomes the exact tail for the new score, computed only with tries ≥ 1. A fresh drawn pair replaces the round. The buttons are untouched, and `correct ≤ tries` is preserved. |
| `AudioTest.OpenConvertGuess` | main.py:139-167 | A session driven by the buttons: after a successful open the guess buttons are disabled; a guess can be made exactly when the conversion produced the lossy copy, and it is then scored on a fresh 0/0 score (tries 1, correct 1 exactly when the guess matches the round). |

## Left out

- The audio pipeline: decoding with pydub, MP3 export at the chosen bitrate, `invert_phase` and `overlay` (main.py:104, 119-122, 129, 135-136). These are calls into a library whose code is not part of this model, working on sample buffers. The model keeps only their outcome: did the decode succeed, and did the export succeed.
- Playback through pygame (main.py:188-190, 208). `PlaySound` returns the file that would be played. Two failures of the start-up state are not modelled, because the play buttons are enabled before any file is opened. When the label stands for the converted file before any conversion, the lookup itself raises `AttributeError`: `self.file_conv_path` is first set in `convert_file` (main.py:118, 180-186). When it stands for the original before any open, `file_orig_path` is still `None` (main.py:33), and `mixer.music.load(None)` fails (main.py:189).
- The file dialog, copying into the `files` directory, directory creation and output-path building (main.py:94-98, 103, 111, 118, 136). Only their outcome enters, through `OpenResult`.
- The bitrate choice (main.py:49-52, 117). Only the success or failure of the export enters `ConvertFile`.
- tkinter widgets, labels, layout, the score text "correct/tries", log redirection and `open_location` (main.py:37-92, 169-176). The model keeps the score, the displayed p-value and the enabled flags.
- Worker threads and the `root.after` handoff (main.py:139-157). Open and convert are modelled as single atomic steps, so two interleavings are not modelled:
  - a guess during a running conversion;
  - an open during a running conversion. The open disables the buttons (main.py:110), then the old run's line 123 or its `post_convert_file` (main.py:157, 167) enables them again for the new file, which has not been converted. Guesses then count toward the new 0/0 score.
- A failed re-conversion, which the pass/fail parameter `encoded` hides. `file_conv_path` takes the new name (main.py:118) before the export (main.py:119). If that export fails after an earlier conversion succeeded, the buttons stay enabled (`ConvertFile(false)` keeps them), and playing the converted label loads a missing file. `PlaySound` still returns `Converted` there.
- `Significance.PValue`: it is also defined at tries = 0, where `binomtest` rejects n = 0 with a `ValueError`. The source never calls it there. `PValue(0, 0) = 1` stands for the literal "p=1" label of main.py:86 and 109.
- `Significance.PValue`: it is the exact rational tail, not the float that scipy returns. The display rounding to three decimals (main.py:205) is also not modelled.
- `measure_time` (main.py:15-22): wall-clock timing and printing.
- File-name stem and suffix handling via `Path` (main.py:161-162).
- Guess strings other than 'a_x' and 'a_y', and sound types other than 'a', 'b', 'x' and 'y'. Only the six buttons call these methods, and they pass exactly those values, so `Guess` and `Label` have only these values.
