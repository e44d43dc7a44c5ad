# MCSE first- and group-level GLM pipeline: verified model of its bookkeeping

`scripts/glm.py` runs a general linear model analysis of the MCSE fMRI
paradigm. For each subject it finds the session directory and builds the
paths of the two runs (`pa` then `ap`): the preprocessed BOLD image, the
confounds table and the events table. It then reads the events tables and
drops the implicit-baseline rows (`trial_type == "Bfix"`). It fits a
first-level model and writes one z-score image per contrast to
`results/<subject>/<key>_z_score.nii.gz`. Last, for each contrast it fits a
one-sample group model on those images, with an all-ones `intercept`
design.

This project models the part of that script that is its own logic. That
part is path construction, session selection, event filtering, output
naming and the assembly of the group-stage inputs. The statistics belong
to a library the script calls, so they are not modelled. The modules are:

- `PosixPath` (`posix_path.dfy`): `os.path.join` and `os.path.basename`
  as Python's `posixpath` defines them, plus a substring test.
- `SubjectFiles` (`subject_files.dfy`): the `subjects` list, the session
  choice and `fetch_data`.
- `Events` (`events.dfy`): the `Bfix` filter and the loop that reads and
  filters one events table per run.
- `Contrasts` (`contrasts.dfy`): `mcse_contrasts`.
- `FirstLevel` (`first_level.dfy`): the per-subject loop and its output
  paths, and the batch over all subjects.
- `GroupLevel` (`group_level.dfy`): the design matrix and the per-contrast
  image lists of the group stage.
- `Errors` and `Seqs`: the exception datatype and small sequence facts.

Directory listings (`glob.glob`) are inputs. A subject's `ses-*` listing
is a map entry, and a subject missing from the map lists nothing. Reading
an events file is a lookup in a map from path to the already parsed table.
A missing path is the `FileNotFoundError` that `pd.read_csv` raises. An
empty session list is the `IndexError` of `[...][0]`. Nothing in the
script catches either exception, so the batch stops at the first subject
that raises. The images already written for earlier subjects stay on disk,
and `RunFirstLevel` returns them with the error.

The session test is not a prefix test on the session name. The code skips
every glob match whose full path contains the text `ses-00` anywhere, and
the model does the same. `BaselineTestSeesWholePath` shows one consequence:
if the data directory's own path contains `ses-00`, every session is
skipped and the subject fails with `IndexError`. `LaterSessionIsSkipped`
shows another: the same test also skips sessions such as `ses-001`.

## Model

| member | source | states |
|---|---|---|
| `PosixPath.Join` | scripts/glm.py:29-30 | defines `os.path.join(a, b)` as `posixpath` does: an absolute `b` replaces `a`, otherwise one separator is inserted unless `a` is empty or already ends with one; its properties are `JoinShape` and `BasenameOfJoin` |
| `PosixPath.JoinShape` | scripts/glm.py:29-30 | `b` always ends `os.path.join(a, b)`; a relative `b` keeps `a` in front; under a plain directory the result is `a/b` with exactly one separator |
| `PosixPath.Basename` | scripts/glm.py:29 | defines `os.path.basename(p)` as the text after the last `/`; its properties are `NameStart` and `BasenameOfJoin` |
| `PosixPath.NameStart` | scripts/glm.py:41 | `basename` starts right after the last `/`: the part it returns holds no `/`, and the character just before it is a `/` |
| `PosixPath.BasenameOfJoin` | scripts/glm.py:41 | the basename of `os.path.join(a, b)` is `b` for any single, non-empty component `b` |
| `SubjectFiles.SubjectLabels` | scripts/glm.py:29-30 | one label per `sub-*` match, in listing order; each label holds no `/` and is the last component of its match |
| `SubjectFiles.SubjectLabelsOfOneDirectory` | scripts/glm.py:29-30 | when the matches are the data directory joined with distinct entry names, the labels are exactly those names, so they are distinct, non-empty and free of `/` (the preconditions the batch lemmas put on `subjects`) |
| `PosixPath.Contains` | scripts/glm.py:42 | defines Python's `t in s` on strings: `t` occurs at some offset of `s` |
| `SubjectFiles.IsBaselineMatch` | scripts/glm.py:42 | defines the skip test as `'ses-00' in x` on the whole glob path `x`, not on its basename; its consequences are `BaselineTestSeesWholePath` and `LaterSessionIsSkipped` |
| `SubjectFiles.SessionCandidates` | scripts/glm.py:41-42 | the list comprehension keeps at most one basename per match, and no kept name holds a `/`; which names it keeps is stated by `SessionCandidatesMembership`, and which comes first by `SelectSessionIsFirstSurvivor` |
| `SubjectFiles.SessionCandidatesMembership` | scripts/glm.py:41-42 | a name is a candidate exactly when it is the basename of some match whose full path does not contain `ses-00` |
| `SubjectFiles.SelectSession` | scripts/glm.py:41-42 | `[...][0]`, with `None` for the `IndexError`; a chosen session holds no `/` |
| `SubjectFiles.SelectSessionIsFirstSurvivor` | scripts/glm.py:41-42 | the session is the basename of the first match whose full path does not contain `ses-00`; there is none (IndexError) exactly when every match contains it |
| `SubjectFiles.BaselineTestSeesWholePath` | scripts/glm.py:41-42 | if the data directory's path contains `ses-00`, no match under it survives and the session lookup fails |
| `SubjectFiles.LaterSessionIsSkipped` | scripts/glm.py:42 | any match whose path ends in `ses-001` contains `ses-00`, so the test skips it as well |
| `SubjectFiles.FetchData` | scripts/glm.py:35-58 | fails with `NoSession` exactly when no session survives; otherwise returns the three lists built for that session, `pa` then `ap` |
| `SubjectFiles.RunFileName` | scripts/glm.py:47-56 | defines the file-name template `<subject>_<session>_task-MCSE_dir-<dir>_<suffix>`; its properties are `RunFileNameInjective` and `RunPathsNames` |
| `SubjectFiles.FuncDir` | scripts/glm.py:43 | defines `func_dir = os.path.join(data_dir, subject, session, 'func')`; `RunPathsLayout` spells it out |
| `SubjectFiles.RunPaths` | scripts/glm.py:43-57 | the three lists `fetch_data` returns once the session is known have one entry per direction; their contents are stated by `RunPathsLayout`, `RunPathsNames` and `RunPathsDistinct` |
| `SubjectFiles.RunPathsLayout` | scripts/glm.py:43-57 | the three lists hold 2 paths each, and path i is `data_dir/subject/session/func/<subject>_<session>_task-MCSE_dir-<pa or ap>_<suffix>` with the BOLD, confounds or events suffix |
| `SubjectFiles.RunPathsNames` | scripts/glm.py:44-57 | the file name of `bold[i]`, `confounds[i]` and `events[i]` is built from the same subject, session and direction `Directions[i]` |
| `SubjectFiles.RunFileNameInjective` | scripts/glm.py:47-56 | for directions of equal length (`pa` and `ap` are), two file names of one subject and session that agree have the same direction and the same suffix |
| `SubjectFiles.RunPathsDistinct` | scripts/glm.py:44-57 | the six returned paths are pairwise different files |
| `Events.DropBaseline` | scripts/glm.py:140-141 | a row is kept exactly when it is in the table and its `trial_type` is not `Bfix`; kept rows are whole rows, with every other column unchanged |
| `Events.DropBaselineLength` | scripts/glm.py:141 | the filtered table has as many rows as the input minus its number of `Bfix` rows |
| `Events.DropBaselineAppend` | scripts/glm.py:141 | filtering distributes over concatenation, so the kept rows keep their relative order |
| `Events.DropBaselineIdempotent` | scripts/glm.py:141 | filtering a filtered table changes nothing |
| `Events.DropBaselineExample` | scripts/glm.py:141 | a `Bfix` row followed by a `low_salience_left` row filters to the second row alone |
| `Events.FilteredTables` | scripts/glm.py:138-142 | succeeds exactly when every events path can be read, giving one filtered table per path in path order; otherwise it fails on the first path that cannot be read |
| `Events.LoadFilteredEvents` | scripts/glm.py:138-142 | the loop that fills `event_dfs` computes exactly `FilteredTables` |
| `Contrasts.McseContrasts` | scripts/glm.py:83-91 | the contrast keys, in dictionary order, are exactly `low-high salience` and `salience_left-right` |
| `Contrasts.Keys` | scripts/glm.py:145 | `contrasts.keys()` has one key per contrast, in dictionary order; `McseContrasts` states the MCSE keys |
| `Contrasts.McseKeysAreFileNames` | scripts/glm.py:83-91 | the two keys differ, and each is a single non-empty path component |
| `FirstLevel.ZScorePath` | scripts/glm.py:134-148 | defines the output path `os.path.join(os.path.join(write_dir, subject), f'{key}_z_score.nii.gz')`; its properties are `ZScorePathLayout` and `ZScorePathInjective` |
| `FirstLevel.ZScorePathLayout` | scripts/glm.py:134-148 | the image of `key` for `subject` is `write_dir/subject/<key>_z_score.nii.gz` |
| `FirstLevel.ZScorePathInjective` | scripts/glm.py:134-148 | two output paths agree only for the same subject and the same key |
| `FirstLevel.McseOutputPaths` | scripts/glm.py:145-149 | for the MCSE contrasts, a subject's outputs are `write_dir/subject/low-high salience_z_score.nii.gz` and `write_dir/subject/salience_left-right_z_score.nii.gz`, in that order |
| `FirstLevel.SubjectOutputs` | scripts/glm.py:145-149 | defines the output paths of one subject, one per key in key order; `McseOutputPaths` spells them out for the MCSE keys |
| `FirstLevel.SaveContrastImages` | scripts/glm.py:145-149 | the loop writes one image per key, in key order, each at that key's output path |
| `FirstLevel.SubjectRun` | scripts/glm.py:134-149 | defines one pass of the loop body as a value: session choice, `fetch_data`, reading and filtering, outputs; its properties are `SubjectRunContract` |
| `FirstLevel.SubjectRunContract` | scripts/glm.py:133-149 | a subject fails with `NoSession` exactly when no session survives; a read failure names an events path of that session that cannot be read; on success the model gets exactly the three lists `fetch_data` returns for the chosen session (2 entries each), table i being `events[i]` filtered, and one image is written per key at its output path |
| `FirstLevel.ProcessSubject` | scripts/glm.py:134-149 | one pass of the loop body computes exactly `SubjectRun` |
| `FirstLevel.OneFailureFailsBatch` | scripts/glm.py:133-149 | one subject that raises is enough for the batch not to complete |
| `FirstLevel.RunFirstLevel` | scripts/glm.py:133-149 | the batch completes exactly when every subject succeeds, and then writes `FirstLevelWrites`; otherwise it stops at the first failing subject with that subject's error, having written the images of the subjects before it |
| `FirstLevel.FirstLevelWrites` | scripts/glm.py:133-149 | defines the images the batch writes, subject after subject; its properties are `FirstLevelWritesCount`, `FirstLevelWritesMembership` and `FirstLevelWritesDistinct` |
| `FirstLevel.FirstLevelWritesCount` | scripts/glm.py:133-149 | the batch writes `len(subjects) * len(contrasts)` images |
| `FirstLevel.FirstLevelWritesMembership` | scripts/glm.py:133-149 | a path is written by the batch exactly when it is the output path of some subject and some key |
| `FirstLevel.FirstLevelWritesDistinct` | scripts/glm.py:133-149 | with distinct subject labels and keys, no written image overwrites another |
| `GroupLevel.Repeat` | scripts/glm.py:156 | `[x] * n` has length `n` and every entry is `x` |
| `GroupLevel.SingleColumn` | scripts/glm.py:156 | defines `pd.DataFrame(values, columns=[name])` as one row per value; `GroupDesign` states the result for `[1] * n` |
| `GroupLevel.GroupDesign` | scripts/glm.py:156 | the design has the single column `intercept` and one row `[1]` per subject |
| `GroupLevel.GroupInputs` | scripts/glm.py:162-163 | `imgs` has one image per subject; which image is stated by `GroupInputsWereWritten` |
| `GroupLevel.GroupStage` | scripts/glm.py:156-164 | one fit per contrast key, in key order, each on that key's per-subject images with the all-ones design |
| `GroupLevel.GroupInputsWereWritten` | scripts/glm.py:162-163 | the i-th group input is subject i's first-level image for the key, every group input is an image the first-level batch writes, and the design has one row per input |
| `GroupLevel.GroupInputsDistinct` | scripts/glm.py:162-163 | with distinct subject labels, each subject's image is read exactly once |
| `GroupLevel.RunAnalysis` | scripts/glm.py:133-164 | the group stage is reached exactly when no subject raises; then fit k is on key k, its inputs are `GroupInputs` (subject i's image at position i), its design is the all-ones `GroupDesign`, and every input is an image the batch wrote; when a subject raises there are no fits, the error is that subject's, and exactly the images of the subjects before it are written |

## Left out

- The download scripts (`scripts/download_data.py`, `Notebooks/download_data.py`, `download_data.py`): network fetch, archive extraction and deletion are I/O in library code.
- The `glob.glob` listings themselves: they are inputs (`SubjectLabels`'s matches, the per-subject session listing).
- `os.mkdir` and `os.path.exists` for the result directories: these are filesystem side effects only. The model records which image paths are written, not the directories.
- `pd.read_csv` parsing: a table is already a sequence of rows. A table without a `trial_type` column raises in pandas. That error is not modelled, because every row has that field here.
- All numerical modelling: the first-level fit and `compute_contrast`, the second-level fit, the FDR threshold, and the settings for TR, mask, smoothing, high-pass, HRF and slice timing. This is floating-point work inside a library. A fit that raises on inconsistent inputs is not modelled either, so a subject fails only on its session or on its events files.
- Plotting and HTML reports (`plot_event`, `plot_stat_map`, `generate_report`, `save_as_html`).
- The exploratory block for `subjects[0]` (scripts/glm.py:60-129). It repeats the per-subject stage for the first subject, plus plots and a report, and writes the same image paths that the batch loop writes again. It also raises `IndexError` when there are no subjects. That case is not modelled.
- What the contrast expressions mean as linear combinations of regressors: the library parses them. Only the key set, the key order and the key-to-file-name mapping are modelled.
- RunAnalysis: with an empty subject list it produces fits on empty image lists, while the script raises `IndexError` earlier, at `subjects[0]` (scripts/glm.py:63); that case is not modelled, like the rest of the exploratory block.
- `Join` is `posixpath.join` on two components; the script's three- and four-argument joins are folds of it, which is how `posixpath` defines them.
