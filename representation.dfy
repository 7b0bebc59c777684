/**
 * The `NoteRepresentation` object: it walks a corpus of parsed scores, builds the vocabulary
 * (kept in its `note_to_int` / `int_to_note` fields) and produces the windowed training data.
 * Each method mirrors the loops of the Python `NoteRepresentation` and is proved against the specification
 * functions of `Music`, `Vocabulary` and `Windowing`.
 */
module Representation {
  import opened Wrappers
  import opened Music
  import opened Vocabulary
  import opened Windowing

  /** Encoding stops at the first missing token and raises with it. */
  lemma EncodeStopsAt(song: seq<string>, noteParser: map<string, int>, j: nat)
    requires j < |song| && song[j] !in noteParser
    requires forall i :: 0 <= i < j ==> song[i] in noteParser
    ensures Encode(song, noteParser) == Err(KeyError(song[j]))
  {
    var r := Encode(song, noteParser);
    var j' :| 0 <= j' < |song| && song[j'] == r.error.key && song[j'] !in noteParser
              && forall i :: 0 <= i < j' ==> song[i] in noteParser;
    assert j' == j;
  }

  /** Encoding the songs stops at the first song that raises. */
  lemma EncodeSongsStopsAt(songs: seq<seq<string>>, noteParser: map<string, int>, k: nat, e: LookupError)
    requires k < |songs| && Encode(songs[k], noteParser) == Err(e)
    requires forall i :: 0 <= i < k ==> Encode(songs[i], noteParser).Ok?
    ensures EncodeSongs(songs, noteParser) == Err(e)
  {
    var r := EncodeSongs(songs, noteParser);
    var k' :| 0 <= k' < |songs| && Encode(songs[k'], noteParser) == Err(r.error)
              && forall i :: 0 <= i < k' ==> Encode(songs[i], noteParser).Ok?;
    assert k' == k;
  }

  /** One more encoded song extends the encoded prefix. */
  lemma EncodeSongsSnoc(songs: seq<seq<string>>, noteParser: map<string, int>, k: nat, front: seq<seq<int>>, song: seq<int>)
    requires k < |songs|
    requires EncodeSongs(songs[..k], noteParser) == Ok(front)
    requires Encode(songs[k], noteParser) == Ok(song)
    ensures EncodeSongs(songs[..k + 1], noteParser) == Ok(front + [song])
  {
    assert songs[..k + 1][..k] == songs[..k];
  }

  /** One more song extends the windows and targets of the songs before it. */
  lemma CorpusSnoc(songs: seq<seq<int>>, m: nat, w: int)
    requires m < |songs| && w >= 1
    ensures CorpusWindows(songs[..m + 1], w) == CorpusWindows(songs[..m], w) + SongWindows(songs[m], w, 0)
    ensures CorpusTargets(songs[..m + 1], w) == CorpusTargets(songs[..m], w) + SongTargets(songs[m], w, 0)
  {
    assert songs[..m + 1][..m] == songs[..m];
  }

  /** One more parsed file extends the gathered data and its token set. */
  lemma GatherSnoc(corpus: seq<Score>, data: seq<seq<string>>, notes: seq<string>, used: set<string>)
    requires |data| < |corpus| && forall k :: 0 <= k < |data| ==> data[k] == MusicNotes(corpus[k])
    requires notes == MusicNotes(corpus[|data|]) && used == set t | t in notes
    ensures forall k :: 0 <= k < |data| + 1 ==> (data + [notes])[k] == MusicNotes(corpus[k])
    ensures TokenSet(data + [notes]) == TokenSet(data) + used
  {
    TokenSetSnoc(data, notes);
  }

  class NoteRepresentation {
    const midiDir: string
    var noteToInt: Option<map<string, int>>
    var intToNote: Option<map<int, string>>

    constructor (midiDir: string)
      ensures this.midiDir == midiDir && noteToInt == None && intToNote == None
    {
      this.midiDir := midiDir;
      noteToInt := None;
      intToNote := None;
    }

    /** `get_data`: gather the corpus, build the vocabulary, window the encoded songs and reshape
        the windows to `n x W x 1`. The vocabulary covers every gathered token, so no lookup raises. */
    method GetData(corpus: seq<Score>, sequenceLen: int) returns (networkIn: seq<seq<seq<int>>>, networkOut: seq<int>)
      requires sequenceLen >= 1
      modifies this
      ensures noteToInt.Some? && intToNote.Some?
      ensures IsVocabulary(noteToInt.value, intToNote.value, TokenSet(CorpusTokens(corpus)))
      ensures PrepareSongs(CorpusTokens(corpus), noteToInt.value, sequenceLen).Ok?
      ensures networkIn == Reshape(PrepareSongs(CorpusTokens(corpus), noteToInt.value, sequenceLen).value.0, sequenceLen)
      ensures networkOut == PrepareSongs(CorpusTokens(corpus), noteToInt.value, sequenceLen).value.1
    {
      var data, allUsedNotes := GatherData(corpus);
      assert data == CorpusTokens(corpus);
      var r := PrepareDataToTrainNetwork(data, allUsedNotes, sequenceLen);
      CoveredDataEncodes(data, noteToInt.value, sequenceLen);
      networkIn := Reshape(r.value.0, sequenceLen);
      networkOut := r.value.1;
    }

    /** `__gather_data`: one token sequence per file, empty ones included, and the union of the
        per-file token sets. */
    static method GatherData(corpus: seq<Score>) returns (data: seq<seq<string>>, allUsedNotes: set<string>)
      ensures |data| == |corpus| && forall k :: 0 <= k < |corpus| ==> data[k] == MusicNotes(corpus[k])
      ensures allUsedNotes == TokenSet(data)
    {
      data := [];
      allUsedNotes := {};
      var f := 0;
      while f < |corpus|
        invariant 0 <= f <= |corpus|
        invariant |data| == f && forall k :: 0 <= k < f ==> data[k] == MusicNotes(corpus[k])
        invariant allUsedNotes == TokenSet(data)
      {
        var notes, used := GetMusicNotes(corpus[f]);
        allUsedNotes := allUsedNotes + used;
        GatherSnoc(corpus, data, notes, used);
        data := data + [notes];
        f := f + 1;
      }
    }

    /** `__prepare_data_to_train_network`: enumerate the token set once and keep both dictionaries
        built from that enumeration, then window the data through `note_to_int`. */
    method PrepareDataToTrainNetwork(data: seq<seq<string>>, allUsedNotes: set<string>, sequenceLen: int)
      returns (r: Result<TrainingSet, LookupError>)
      requires sequenceLen >= 1
      modifies this
      ensures noteToInt.Some? && intToNote.Some?
      ensures IsVocabulary(noteToInt.value, intToNote.value, allUsedNotes)
      ensures r == PrepareSongs(data, noteToInt.value, sequenceLen)
    {
      var order := Enumerate(allUsedNotes);
      noteToInt := Some(NoteToInt(order));
      intToNote := Some(IntToNote(order));
      VocabularyFromEnumeration(order, allUsedNotes);
      r := PrepareDataSongs(data, noteToInt.value, sequenceLen);
    }

    /** `__get_music_notes`: keep the last piano part, then turn each note into its pitch name and
        each chord into its dotted normal order, skipping everything else. */
    static method GetMusicNotes(score: Score) returns (notesSong: seq<string>, allUsedNotes: set<string>)
      ensures notesSong == MusicNotes(score)
      ensures allUsedNotes == set t | t in notesSong
    {
      allUsedNotes := {};
      var pianoPart: Option<Part> := None;
      var k := 0;
      while k < |score|
        invariant 0 <= k <= |score|
        invariant LastPianoIndex(score[..k]).None? ==> pianoPart == None
        invariant LastPianoIndex(score[..k]).Some? ==> pianoPart == Some(score[LastPianoIndex(score[..k]).value])
      {
        assert score[..k + 1][..k] == score[..k];
        if score[k].isPiano {
          pianoPart := Some(score[k]);
        }
        k := k + 1;
      }
      assert score[..k] == score;
      notesSong := [];
      if pianoPart.Some? {
        var elems := pianoPart.value.elems;
        var j := 0;
        while j < |elems|
          invariant 0 <= j <= |elems|
          invariant notesSong == PartTokens(elems[..j])
          invariant allUsedNotes == set t | t in notesSong
        {
          assert elems[..j + 1][..j] == elems[..j];
          match elems[j] {
            case Note(pitch) =>
              notesSong := notesSong + [pitch];
              allUsedNotes := allUsedNotes + {pitch};
            case Chord(normalOrder) =>
              var token := ChordToken(normalOrder);
              notesSong := notesSong + [token];
              allUsedNotes := allUsedNotes + {token};
            case Other =>
          }
          j := j + 1;
        }
        assert elems[..j] == elems;
      }
    }

    /** `__prepare_data_songs`: drop empty songs, encode the others (a missing token raises
        `KeyError`), then window each encoded song; windows and targets come out song by song. */
    static method PrepareDataSongs(data: seq<seq<string>>, noteParser: map<string, int>, sequenceLen: int)
      returns (r: Result<TrainingSet, LookupError>)
      requires sequenceLen >= 1
      ensures r == PrepareSongs(data, noteParser, sequenceLen)
    {
      var songs := NonEmpty(data);
      var studySongs := EncodeStudySongs(songs, noteParser);
      if studySongs.Err? {
        return Err(studySongs.error);
      }
      var networkIn, networkOut := WindowStudySongs(studySongs.value, sequenceLen);
      r := Ok((networkIn, networkOut));
    }

    /** The first loop of `__prepare_data_songs`: encode every kept song, raising at the first
        missing token. */
    static method EncodeStudySongs(songs: seq<seq<string>>, noteParser: map<string, int>)
      returns (r: Result<seq<seq<int>>, LookupError>)
      ensures r == EncodeSongs(songs, noteParser)
    {
      var studySongs: seq<seq<int>> := [];
      var k := 0;
      while k < |songs|
        invariant 0 <= k <= |songs|
        invariant EncodeSongs(songs[..k], noteParser) == Ok(studySongs)
      {
        var npSong := EncodeSong(songs[k], noteParser);
        if npSong.Err? {
          assert forall i :: 0 <= i < k ==> songs[..k][i] == songs[i];
          EncodeSongsStopsAt(songs, noteParser, k, npSong.error);
          return Err(npSong.error);
        }
        EncodeSongsSnoc(songs, noteParser, k, studySongs, npSong.value);
        studySongs := studySongs + [npSong.value];
        k := k + 1;
      }
      assert songs[..k] == songs;
      r := Ok(studySongs);
    }

    /** The second loop of `__prepare_data_songs`: concatenate the windows and targets of every
        encoded song, in order. */
    static method WindowStudySongs(studySongs: seq<seq<int>>, sequenceLen: int)
      returns (networkIn: seq<seq<int>>, networkOut: seq<int>)
      requires sequenceLen >= 1
      ensures networkIn == CorpusWindows(studySongs, sequenceLen)
      ensures networkOut == CorpusTargets(studySongs, sequenceLen)
    {
      networkIn := [];
      networkOut := [];
      var m := 0;
      while m < |studySongs|
        invariant 0 <= m <= |studySongs|
        invariant networkIn == CorpusWindows(studySongs[..m], sequenceLen)
        invariant networkOut == CorpusTargets(studySongs[..m], sequenceLen)
      {
        CorpusSnoc(studySongs, m, sequenceLen);
        var sequencesIn, sequencesOut := SongPairs(studySongs[m], sequenceLen);
        networkIn := networkIn + sequencesIn;
        networkOut := networkOut + sequencesOut;
        m := m + 1;
      }
      assert studySongs[..m] == studySongs;
    }

    /** The inner `for note in song: np_song.append(note_parser[note])` of `__prepare_data_songs`. */
    static method EncodeSong(song: seq<string>, noteParser: map<string, int>) returns (r: Result<seq<int>, LookupError>)
      ensures r == Encode(song, noteParser)
    {
      var npSong: seq<int> := [];
      var j := 0;
      while j < |song|
        invariant 0 <= j <= |song|
        invariant Encode(song[..j], noteParser) == Ok(npSong)
      {
        var note := song[j];
        if note !in noteParser {
          assert forall i :: 0 <= i < j ==> song[..j][i] == song[i];
          EncodeStopsAt(song, noteParser, j);
          return Err(KeyError(note));
        }
        assert song[..j + 1][..j] == song[..j];
        npSong := npSong + [noteParser[note]];
        j := j + 1;
      }
      assert song[..j] == song;
      r := Ok(npSong);
    }

    /** The inner `while i + sequence_len < len(song)` loop of `__prepare_data_songs`, for one song. */
    static method SongPairs(song: seq<int>, sequenceLen: int) returns (sequencesIn: seq<seq<int>>, sequencesOut: seq<int>)
      requires sequenceLen >= 1
      ensures sequencesIn == SongWindows(song, sequenceLen, 0)
      ensures sequencesOut == SongTargets(song, sequenceLen, 0)
    {
      sequencesIn, sequencesOut := [], [];
      var i: nat := 0;
      while i + sequenceLen < |song|
        invariant sequencesIn + SongWindows(song, sequenceLen, i) == SongWindows(song, sequenceLen, 0)
        invariant sequencesOut + SongTargets(song, sequenceLen, i) == SongTargets(song, sequenceLen, 0)
        decreases |song| - i
      {
        var sequenceIn := song[i..i + sequenceLen];
        var sequenceOut := song[i + sequenceLen];
        assert sequencesIn + SongWindows(song, sequenceLen, i)
            == (sequencesIn + [sequenceIn]) + SongWindows(song, sequenceLen, i + sequenceLen);
        assert sequencesOut + SongTargets(song, sequenceLen, i)
            == (sequencesOut + [sequenceOut]) + SongTargets(song, sequenceLen, i + sequenceLen);
        sequencesIn := sequencesIn + [sequenceIn];
        sequencesOut := sequencesOut + [sequenceOut];
        i := i + sequenceLen;
      }
      assert sequencesIn == sequencesIn + SongWindows(song, sequenceLen, i);
      assert sequencesOut == sequencesOut + SongTargets(song, sequenceLen, i);
    }
  }
}
