# Note representation for music generation — a Dafny model

This project models the pre-processing core of a music-generation pipeline. It covers two parts.

- `NoteRepresentation` reduces each parsed MIDI score to a sequence of tokens. A token is the
  pitch name of a single note, or the dot-joined normal order of a chord, read from the last piano
  part of the score. It then collects the set of distinct tokens and turns that set into a
  vocabulary: the `note_to_int` and `int_to_note` dictionaries, numbered in set iteration order.
  It drops empty songs, encodes every token through `note_to_int`, and cuts each encoded song into
  non-overlapping windows of `sequence_len` tokens. Each window is paired with the token that
  follows it, and the windows are reshaped to `n × sequence_len × 1`.
- `LakhDatasetHandler` supplies path helpers and ID dictionaries for the Lakh Piano Dataset. It
  derives `A/B/C/<id>` directory prefixes from Million Song Dataset IDs and builds h5 and npz
  paths with `os.path.join`. It also keeps the two ID dictionaries built from the rows of
  `cleansed_ids.txt`.

Layout, one module per file:

| file | module | contents |
|---|---|---|
| `wrappers.dfy` | `Wrappers` | `Option`, `Result` |
| `strings.dfy` | `Strings` | `sep.join`, `str.split`, `str(int)` for naturals, their round trips |
| `dicts.dfy` | `Dicts` | a dictionary built from key/value pairs, where a later pair overwrites an earlier one |
| `music.dfy` | `Music` | the score and element model, token extraction (`__get_music_notes` as a function) |
| `vocabulary.dfy` | `Vocabulary` | the enumeration of the token set, both dictionaries, the corpus token set |
| `windowing.dfy` | `Windowing` | filter, encode and window (`__prepare_data_songs` as functions), reshape |
| `representation.dfy` | `Representation` | `class NoteRepresentation`: its fields and its loop-by-loop methods |
| `paths.dfy` | `Paths` | POSIX `os.path.join` |
| `lakh.dfy` | `LakhDataset` | the handler's fields, path helpers and ID dictionaries |

The object `NoteRepresentation` really changes its `note_to_int` / `int_to_note` fields, so
it is a `class`. Each loop of the source is a method with a `while` loop. Every method's result
is proved equal to a specification function, except `Vocabulary.Enumerate`, which is proved to
return some enumeration of its set. The stored dictionaries are proved to form a vocabulary
(`IsVocabulary`). The properties are then proved about those functions: the shape of the windows, the
vocabulary being a bijection, the error cases. The handler sets its fields once in `__init__`
and then only reads them, so it is a datatype built by `NewHandler`. Its helpers are functions.

Conventions:
- A Python `KeyError` is `Err(KeyError(token))` and an `IndexError` is `Err(IndexError(i))`.
- A set's iteration order is unspecified. `Vocabulary.Enumerate` is free to choose any order
  (`:|`), and every property is proved for every order.
- Parsing a MIDI file is outside the model. A score is given as a value: a list of parts, each
  with a piano flag and a list of elements (`Note(pitch)`, `Chord(normalOrder)`, `Other`).
- `os.walk` is outside the model too. The corpus is the list of parsed scores in traversal order.

## Model

| member | source | states |
|---|---|---|
| LakhDataset.NewHandler | pre-processing/lakh_dataset_handler.py:13-21 | `__init__`: the handler's fields from the root directory and the rows of `cleansed_ids.txt`; no contract of its own, its properties are `ResultsPathShape` and the `IdMaps…` lemmas |
| Music.MusicNotes | pre-processing/note_representation.py:50-67 | the token list of one score; no contract of its own, characterised by `MusicNotesLastPiano` |
| Music.PartTokens | pre-processing/note_representation.py:59-67 | the tokens of one part in stream order; no contract of its own, characterised by `PartTokensSingle`, `PartTokensMembers`, `PartTokensConcat`, `PartTokensCount` |
| Music.IsEvent | pre-processing/note_representation.py:60-64 | the `isinstance` tests for `note.Note` and `chord.Chord`; no contract of its own, characterised by `PartTokensSingle` and `PartTokensMembers` |
| Music.Token | pre-processing/note_representation.py:60-66 | `str(element.pitch)` for a note, the dot-joined normal order for a chord; no contract of its own, characterised by `PartTokensSingle` and `PartTokensMembers` |
| Windowing.CounterAfter | pre-processing/note_representation.py:86-94 | the window loop's counter `i` after a number of rounds of `i += sequence_len`; no contract of its own, characterised by `ZeroWindowLoops` and `NegativeWindowRaises` |
| Music.ChordToken | pre-processing/note_representation.py:66 | the dot-joined normal order; no contract of its own, characterised by `ChordTokenSplits` and `ChordTokenInjective` |
| Music.Decimals | pre-processing/note_representation.py:66 | `str(n)` of each entry; no contract of its own, characterised by `Strings.NatToString` and `Strings.DecimalRoundTrip` |
| Music.CorpusTokens | pre-processing/note_representation.py:28-32 | the token list of every score, in corpus order; no contract of its own, the target of `GatherData` |
| Vocabulary.NoteIndexPairs | pre-processing/note_representation.py:38-39 | the `(note, idx)` pairs of `enumerate`; no contract of its own, used by `NoteToInt` and `IntToNote` |
| Vocabulary.NoteToInt | pre-processing/note_representation.py:38 | `note_to_int`; no contract of its own, characterised by `NoteToIntAt`, `NoteToIntKeys` and `VocabularyFromEnumeration` |
| Vocabulary.IntToNote | pre-processing/note_representation.py:39 | `int_to_note`; no contract of its own, characterised by `IntToNoteAt`, `IntToNoteKeys` and `VocabularyFromEnumeration` |
| Vocabulary.TokenSet | pre-processing/note_representation.py:27-31 | the union of the per-file token sets; no contract of its own, characterised by `TokenSetMembers` and `TokenSetSnoc` |
| Windowing.NonEmpty | pre-processing/note_representation.py:78 | the filter on song length; no contract of its own, characterised by `NonEmptyMembers` and `NonEmptyConcat` |
| Windowing.PrepareSongs | pre-processing/note_representation.py:72-99 | filter, encode, window; no contract of its own, characterised by `CoveredDataEncodes`, `MissingTokenRaises` and `EmptySongIgnored` |
| Windowing.SongTargets | pre-processing/note_representation.py:86-94 | the targets `song[i + W]` of one song; no contract of its own, characterised by `PairCount` and `WindowContents` |
| Windowing.CorpusTargets | pre-processing/note_representation.py:84-94 | the targets of all songs in order; no contract of its own, characterised by `CorpusConcat` and `CorpusParallel` |
| Strings.Join | pre-processing/note_representation.py:66 | `sep.join(parts)`; no contract of its own, characterised by `SplitJoin` |
| Paths.Join2 | pre-processing/lakh_dataset_handler.py:16 | POSIX `os.path.join` of two components; no contract of its own, characterised by `JoinPieces` and `JoinLastPiece` |
| Paths.JoinPath | pre-processing/lakh_dataset_handler.py:28 | `os.path.join` of several components, folded from the left; no contract of its own, characterised by `JoinPathThree` |
| Dicts.Swapped | pre-processing/lakh_dataset_handler.py:20 | the rows with their two columns exchanged; no contract of its own, used for `msd_to_lpd_ids` |
| Representation.NoteRepresentation.constructor | pre-processing/note_representation.py:11-14 | keeps `midi_dir`; both dictionaries start unset |
| Representation.NoteRepresentation.GetData | pre-processing/note_representation.py:16-23 | sets both dictionaries to a vocabulary of exactly the corpus tokens; encoding never fails then; `network_in` is the reshaped windows and `network_out` the targets |
| Representation.NoteRepresentation.GatherData | pre-processing/note_representation.py:25-35 | one token list per score, in corpus order, each the tokens of that score; the returned set is the union of all their tokens |
| Representation.NoteRepresentation.PrepareDataToTrainNetwork | pre-processing/note_representation.py:37-43 | stores two dictionaries that are mutually inverse over the given token set, with indices exactly `0 .. n-1`; returns the windowing of the data through `note_to_int` |
| Representation.NoteRepresentation.GetMusicNotes | pre-processing/note_representation.py:45-69 | the token list is the tokens of the last piano part (see `Music.MusicNotesLastPiano`); the set is exactly the tokens of that list |
| Representation.NoteRepresentation.PrepareDataSongs | pre-processing/note_representation.py:72-99 | returns the filtered, encoded, windowed data, or the `KeyError` of the first missing token |
| Representation.NoteRepresentation.EncodeStudySongs | pre-processing/note_representation.py:77-82 | encodes every song in order, stopping at the first song with a missing token |
| Representation.NoteRepresentation.EncodeSong | pre-processing/note_representation.py:79-81 | encodes a song token by token, or raises on its first missing token |
| Representation.NoteRepresentation.WindowStudySongs | pre-processing/note_representation.py:84-94 | the windows and targets of all songs, concatenated in song order |
| Representation.NoteRepresentation.SongPairs | pre-processing/note_representation.py:86-94 | the windows and targets of one song, advancing by `sequence_len` while `i + sequence_len < len(song)` |
| Representation.EncodeStopsAt | pre-processing/note_representation.py:80-81 | the error raised is exactly the first token missing from `note_parser` |
| Representation.EncodeSongsStopsAt | pre-processing/note_representation.py:78-82 | encoding the song list raises the error of the first failing song |
| Music.LastPianoIndex | pre-processing/note_representation.py:50-55 | no index if and only if no part is a piano; otherwise a piano part with no piano part after it |
| Music.MusicNotesLastPiano | pre-processing/note_representation.py:50-67 | without a piano part the token list is empty; otherwise it is the tokens of the last piano part |
| Music.PartTokensSingle | pre-processing/note_representation.py:59-67 | a note contributes its pitch name, a chord its dot-joined normal order, anything else nothing |
| Music.PartTokensMembers | pre-processing/note_representation.py:59-67 | every note and chord of the part yields a token in the list, and every token comes from one of them |
| Music.PartTokensConcat | pre-processing/note_representation.py:59-67 | extraction follows stream order: the tokens of `a + b` are those of `a` followed by those of `b` |
| Music.PartTokensCount | pre-processing/note_representation.py:59-67 | the number of tokens equals the number of note and chord elements |
| Music.ChordTokenExample | pre-processing/note_representation.py:66 | normal order `[0, 4, 7]` gives the token `"0.4.7"` |
| Music.ChordTokenSplits | pre-processing/note_representation.py:66 | splitting a chord token on `.` gives back the decimal strings of its normal order |
| Music.ChordTokenInjective | pre-processing/note_representation.py:66 | two chords share a token only if their normal orders are equal |
| Vocabulary.Enumerate | pre-processing/note_representation.py:38-39 | lists each element of the set exactly once, in some order |
| Vocabulary.EnumerationSize | pre-processing/note_representation.py:38-39 | an enumeration is as long as the set |
| Vocabulary.NoteToIntAt | pre-processing/note_representation.py:38 | `note_to_int` sends the `i`-th enumerated token to `i` |
| Vocabulary.IntToNoteAt | pre-processing/note_representation.py:39 | `int_to_note` sends `i` to the `i`-th enumerated token |
| Vocabulary.NoteToIntKeys | pre-processing/note_representation.py:38 | the keys of `note_to_int` are exactly the enumerated tokens |
| Vocabulary.IntToNoteKeys | pre-processing/note_representation.py:39 | the keys of `int_to_note` are exactly `0 .. n-1` |
| Vocabulary.VocabularyFromEnumeration | pre-processing/note_representation.py:38-39 | both dictionaries built from one enumeration form a bijection between the token set and `0 .. n-1`, each inverse to the other |
| Vocabulary.Indices | pre-processing/note_representation.py:39 | helper for the specification, not a source operation: the index range of `enumerate` at line 39; it holds exactly `0 .. n-1` |
| Vocabulary.TokenSetMembers | pre-processing/note_representation.py:27-31 | the gathered set contains every token of every song and nothing else |
| Vocabulary.TokenSetSnoc | pre-processing/note_representation.py:31 | one more file adds exactly its own token set to the union |
| Dicts.FromPairs | pre-processing/note_representation.py:38 | the keys of `dict(pairs)` are exactly the keys of the pairs, and each entry is one of the pairs |
| Dicts.FromPairsLastWins | pre-processing/lakh_dataset_handler.py:19 | a key maps to the value of its last pair |
| Windowing.Encode | pre-processing/note_representation.py:79-81 | succeeds if and only if every token is a key; then it has the same length and maps each token through `note_parser`; otherwise it raises with a missing token |
| Windowing.EncodeSongs | pre-processing/note_representation.py:78-82 | succeeds if and only if every song encodes; then song `k` gives encoded song `k`; otherwise it raises the error of the first failing song |
| Windowing.NonEmptyMembers | pre-processing/note_representation.py:78 | the filter keeps exactly the non-empty songs |
| Windowing.NonEmptyConcat | pre-processing/note_representation.py:78 | the filter keeps order: it splits over concatenation |
| Windowing.EmptySongIgnored | pre-processing/note_representation.py:78 | an empty song anywhere in the data changes neither the result nor the error |
| Windowing.SongWindows | pre-processing/note_representation.py:87-89 | every window has exactly `sequence_len` tokens |
| Windowing.CorpusWindows | pre-processing/note_representation.py:84-94 | every window of the corpus has exactly `sequence_len` tokens |
| Windowing.SongPairCount | pre-processing/note_representation.py:86-94 | starting at `i`, a song yields `(len - 1 - i) / W` windows and as many targets |
| Windowing.PairCount | pre-processing/note_representation.py:86-94 | an empty song yields nothing; otherwise `(len - 1) / W` windows and targets (none when `len <= W`) |
| Windowing.SongPairAt | pre-processing/note_representation.py:87-90 | window `k` from offset `i` is `song[i + kW .. i + kW + W]` and its target is `song[i + kW + W]` |
| Windowing.WindowContents | pre-processing/note_representation.py:87-90 | window `k` is `song[kW .. kW + W]` and target `k` is the token right after it |
| Windowing.SongWindowsTile | pre-processing/note_representation.py:86-94 | the windows from `i`, laid end to end, are the contiguous slice `song[i .. i + nW]` |
| Windowing.WindowsCoverPrefix | pre-processing/note_representation.py:86-94 | the windows tile a prefix of the song with no overlap and no gap; the discarded tail holds 1 to `W` tokens |
| Windowing.CorpusConcat | pre-processing/note_representation.py:84-94 | windows and targets split over concatenation of song lists, in song order |
| Windowing.CorpusParallel | pre-processing/note_representation.py:84-94 | there are as many targets as windows |
| Windowing.CoveredDataEncodes | pre-processing/note_representation.py:37-41 | when the vocabulary covers every token of the data, the preparation never raises |
| Windowing.MissingTokenRaises | pre-processing/note_representation.py:81 | a token missing from the vocabulary in any song makes the preparation raise |
| Windowing.Reshape | pre-processing/note_representation.py:20-21 | the reshaped array has shape `n × sequence_len × 1` |
| Windowing.ReshapeKeepsWindows | pre-processing/note_representation.py:20-21 | dropping the trailing axis gives back the windows |
| Windowing.ZeroWindowLoops | pre-processing/note_representation.py:86-94 | with `sequence_len == 0` and a non-empty song the guard holds after every round, so the loop never ends |
| Windowing.NegativeWindowRaises | pre-processing/note_representation.py:87-90 | with `sequence_len < 0` the guard always holds, but by round `len(song)` the target index is below `-len(song)`, so the lookup raises `IndexError` |
| Strings.Split | pre-processing/note_representation.py:66 | helper for the specification, not a source operation: models `str.split`, used to read back the join of line 66; it yields at least one piece, and no piece contains the separator |
| Strings.SplitJoin | pre-processing/note_representation.py:66 | splitting a join of separator-free pieces gives back the pieces |
| Strings.NatToString | pre-processing/note_representation.py:66 | `str(n)` is a non-empty string of digits |
| Strings.DecimalRoundTrip | pre-processing/note_representation.py:66 | reading back `str(n)` gives `n` |
| Strings.NatToStringInjective | pre-processing/note_representation.py:66 | distinct numbers print differently |
| Paths.JoinPathThree | pre-processing/lakh_dataset_handler.py:28 | a four-component join is three two-component joins from the left |
| Paths.JoinPieces | pre-processing/lakh_dataset_handler.py:33-34 | joining onto a directory that has no trailing `/` inserts exactly one `/`, and the path components concatenate |
| Paths.JoinLastPiece | pre-processing/lakh_dataset_handler.py:38-39 | the last component of a join is the joined file name |
| LakhDataset.MsdIdToDirs | pre-processing/lakh_dataset_handler.py:25-28 | raises `IndexError` if and only if the ID is shorter than 5, and the index is the first out-of-range one among 2, 3, 4 |
| LakhDataset.MsdIdToDirsShape | pre-processing/lakh_dataset_handler.py:25-28 | the prefix is `id[2]/id[3]/id[4]/id`, four path components |
| LakhDataset.MsdIdToDirsExample | pre-processing/lakh_dataset_handler.py:26-27 | `TRABCD12345678` gives `A/B/C/TRABCD12345678` |
| LakhDataset.MsdIdToH5 | pre-processing/lakh_dataset_handler.py:31-34 | raises if and only if the ID is shorter than 5 |
| LakhDataset.H5Path | pre-processing/lakh_dataset_handler.py:31-34 | the h5 path is `<results>/lmd_matched_h5/<prefix>.h5` |
| LakhDataset.H5FileName | pre-processing/lakh_dataset_handler.py:31-34 | for any results directory the file name is `<id>.h5` |
| LakhDataset.GetMidiNpzPath | pre-processing/lakh_dataset_handler.py:37-39 | raises if and only if the ID is shorter than 5 |
| LakhDataset.NpzPath | pre-processing/lakh_dataset_handler.py:37-39 | the file name is `<md5>.npz`; below a proper data directory the path is `<data_dir>/<prefix>/<md5>.npz` |
| LakhDataset.ResultsPathShape | pre-processing/lakh_dataset_handler.py:16 | the results path always ends in `/Metadata`, so it is a directory with no trailing `/` |
| LakhDataset.IdMapsLastRowWins | pre-processing/lakh_dataset_handler.py:19-20 | each dictionary sends a key to the partner in its last row |
| LakhDataset.IdMapsKeys | pre-processing/lakh_dataset_handler.py:19-20 | the keys are exactly the LPD IDs and the MSD IDs of the rows |
| LakhDataset.LookupNeverFails | pre-processing/lakh_dataset_handler.py:43-44 | every value of `lpd_to_msd_ids` is a key of `msd_to_lpd_ids`, so the lookup in `parse_to_midi` never raises |
| LakhDataset.IdMapsBackward | pre-processing/lakh_dataset_handler.py:19-20 | with distinct MSD IDs, `msd_to_lpd_ids` undoes `lpd_to_msd_ids` |
| LakhDataset.IdMapsForward | pre-processing/lakh_dataset_handler.py:19-20 | with distinct LPD IDs, `lpd_to_msd_ids` undoes `msd_to_lpd_ids` |
| LakhDataset.IdMapsInverse | pre-processing/lakh_dataset_handler.py:19-20 | with both ID columns distinct, the two dictionaries are inverse bijections |

## Left out

- Parsing MIDI files (`converter.parse`, `instrument.partitionByInstrument`) is outside the model: a score is a value. A parse error that propagates is not modelled.
- The test `isinstance(part.getInstrument(), instrument.Piano)` is a boolean per part. `str(element.pitch)` is a given string. `normalOrder` is a given list of naturals; the model does not compute it.
- `if piano_part:` is modelled as "a piano part was found". An empty piano part is falsy in music21, but it yields no tokens either way, so the result is the same.
- `os.walk` and the traversal order of the files are outside the model: the corpus is a list of scores in that order, and `midi_dir` is kept but not used for I/O.
- The `tqdm`, `numpy`, `pandas`, `pypianoroll` and `mido` libraries are outside the model. A numpy array is a list of lists, and the reshape is modelled on values.
- Integer width: numpy's integer dtype is not modelled. Indices are unbounded naturals; a real vocabulary is far below any limit.
- GetData, PrepareDataToTrainNetwork, PrepareDataSongs, WindowStudySongs, SongPairs: require `sequence_len >= 1`. With `sequence_len = 0` the source never terminates on a non-empty song (`Windowing.ZeroWindowLoops`). With `sequence_len < 0` the lookup `song[i + sequence_len]` uses negative indexing and raises `IndexError` within `len(song)` rounds (`Windowing.NegativeWindowRaises`). Neither path is modelled as a method. The default `sequence_len=32` is not modelled either: callers pass the window length explicitly.
- PrepareDataToTrainNetwork: the two dictionary comprehensions iterate the same unchanged set. The model assumes, as CPython does, that both see it in the same order, so one enumeration builds both.
- EncodeSong, EncodeStudySongs, WindowStudySongs, SongPairs: these are the inner loops of `__prepare_data_songs`, split out as helper methods of the same class. The behaviour is unchanged.
- GatherData, GetMusicNotes: these are static, because in the model they read no field. The source reads `midi_dir` only to build file paths.
- `LakhDatasetHandler.__init__` reads `cleansed_ids.txt` with pandas. That read is outside the model: the file's rows are a parameter of `NewHandler`. The `data_dir` string is kept exactly as written in the source (the literal text `f{root_dir}`, not interpolated).
- `parse_to_midi` loads and writes files (`pypianoroll.load` / `write`) and takes only the first 100 values. Neither is modelled. Only its dictionary lookup is (`LakhDataset.LookupNeverFails`).
- `os.path.join` is modelled with POSIX semantics only; Windows drive letters and backslashes are not modelled.
- H5Path, NpzPath: the exact path strings are stated only for a results or data directory that is non-empty with no trailing `/`. For any other directory only the file name is stated (`H5FileName`, `NpzPath`).
