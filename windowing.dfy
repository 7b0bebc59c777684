/**
 * Encoding token sequences through the vocabulary and cutting each encoded song into
 * non-overlapping (window, next token) training pairs.
 */
module Windowing {
  import opened Wrappers
  import opened Vocabulary

  /** The exception a dictionary lookup raises for a missing key. */
  datatype LookupError = KeyError(key: string)

  /** Windows and their targets, the two parallel lists `network_in` and `network_out`. */
  type TrainingSet = (seq<seq<int>>, seq<int>)

  /** `[note_parser[note] for note in song]`: the first token missing from the dictionary raises. */
  function Encode(song: seq<string>, noteParser: map<string, int>): (r: Result<seq<int>, LookupError>)
    ensures r.Ok? <==> forall j :: 0 <= j < |song| ==> song[j] in noteParser
    ensures r.Ok? ==> |r.value| == |song| && forall j :: 0 <= j < |song| ==> r.value[j] == noteParser[song[j]]
    ensures r.Err? ==> exists j :: 0 <= j < |song| && song[j] == r.error.key && song[j] !in noteParser
                                    && forall i :: 0 <= i < j ==> song[i] in noteParser
    decreases |song|
  {
    if |song| == 0 then Ok([])
    else
      var n := |song| - 1;
      assert forall j :: 0 <= j < n ==> song[..n][j] == song[j];
      match Encode(song[..n], noteParser)
      case Err(e) => Err(e)
      case Ok(front) =>
        if song[n] in noteParser then Ok(front + [noteParser[song[n]]]) else Err(KeyError(song[n]))
  }

  /** Encodes the songs in order; the first song with a missing token raises. */
  function EncodeSongs(songs: seq<seq<string>>, noteParser: map<string, int>): (r: Result<seq<seq<int>>, LookupError>)
    ensures r.Ok? <==> forall k :: 0 <= k < |songs| ==> Encode(songs[k], noteParser).Ok?
    ensures r.Ok? ==> |r.value| == |songs| && forall k :: 0 <= k < |songs| ==> r.value[k] == Encode(songs[k], noteParser).value
    ensures r.Err? ==> exists k :: 0 <= k < |songs| && Encode(songs[k], noteParser) == Err(r.error)
                                    && forall i :: 0 <= i < k ==> Encode(songs[i], noteParser).Ok?
    decreases |songs|
  {
    if |songs| == 0 then Ok([])
    else
      var n := |songs| - 1;
      assert forall k :: 0 <= k < n ==> songs[..n][k] == songs[k];
      match EncodeSongs(songs[..n], noteParser)
      case Err(e) => Err(e)
      case Ok(front) =>
        match Encode(songs[n], noteParser)
        case Err(e) => Err(e)
        case Ok(song) => Ok(front + [song])
  }

  /** `list(filter(lambda x: len(x) > 0, data))`. */
  function NonEmpty(data: seq<seq<string>>): seq<seq<string>>
    decreases |data|
  {
    if |data| == 0 then []
    else
      var n := |data| - 1;
      NonEmpty(data[..n]) + if |data[n]| > 0 then [data[n]] else []
  }

  /** Filtering keeps exactly the non-empty songs. */
  lemma {:induction false} NonEmptyMembers(data: seq<seq<string>>)
    ensures forall s :: s in NonEmpty(data) <==> s in data && |s| > 0
    decreases |data|
  {
    if |data| > 0 {
      var n := |data| - 1;
      NonEmptyMembers(data[..n]);
      assert data == data[..n] + [data[n]];
    }
  }

  /** The windows of one encoded song, scanning from position `i`: while `i + W < |song|`,
      `song[i : i + W]`, then `i` advances by `W`. */
  function SongWindows(song: seq<int>, w: int, i: nat): (r: seq<seq<int>>)
    requires w >= 1
    ensures forall k :: 0 <= k < |r| ==> |r[k]| == w
    decreases |song| - i
  {
    if i + w < |song| then [song[i..i + w]] + SongWindows(song, w, i + w) else []
  }

  /** The targets of one encoded song: `song[i + W]` for the same positions `i`. */
  function SongTargets(song: seq<int>, w: int, i: nat): seq<int>
    requires w >= 1
    decreases |song| - i
  {
    if i + w < |song| then [song[i + w]] + SongTargets(song, w, i + w) else []
  }

  /** All windows of a list of encoded songs, song by song. */
  function CorpusWindows(songs: seq<seq<int>>, w: int): (r: seq<seq<int>>)
    requires w >= 1
    ensures forall k :: 0 <= k < |r| ==> |r[k]| == w
    decreases |songs|
  {
    if |songs| == 0 then []
    else CorpusWindows(songs[..|songs| - 1], w) + SongWindows(songs[|songs| - 1], w, 0)
  }

  /** All targets of a list of encoded songs, song by song. */
  function CorpusTargets(songs: seq<seq<int>>, w: int): seq<int>
    requires w >= 1
    decreases |songs|
  {
    if |songs| == 0 then []
    else CorpusTargets(songs[..|songs| - 1], w) + SongTargets(songs[|songs| - 1], w, 0)
  }

  /** What `__prepare_data_songs` returns: drop empty songs, encode the rest (raising on a
      missing token), then window every encoded song. */
  function PrepareSongs(data: seq<seq<string>>, noteParser: map<string, int>, w: int): Result<TrainingSet, LookupError>
    requires w >= 1
  {
    match EncodeSongs(NonEmpty(data), noteParser)
    case Err(e) => Err(e)
    case Ok(songs) => Ok((CorpusWindows(songs, w), CorpusTargets(songs, w)))
  }

  /** `np.reshape(network_in, (n, W, 1))`: each entry of a window becomes a one-element feature row. */
  function Reshape(windows: seq<seq<int>>, w: int): (r: seq<seq<seq<int>>>)
    requires forall k :: 0 <= k < |windows| ==> |windows[k]| == w
    ensures |r| == |windows|
    ensures forall k :: 0 <= k < |r| ==> |r[k]| == w && forall j :: 0 <= j < w ==> |r[k][j]| == 1
  {
    seq(|windows|, k requires 0 <= k < |windows| => seq(|windows[k]|, j requires 0 <= j < |windows[k]| => [windows[k][j]]))
  }

  /** Dropping the trailing feature dimension. */
  function Squeeze(t: seq<seq<seq<int>>>): seq<seq<int>>
    requires forall k, j :: 0 <= k < |t| && 0 <= j < |t[k]| ==> |t[k][j]| == 1
  {
    seq(|t|, k requires 0 <= k < |t| => seq(|t[k]|, j requires 0 <= j < |t[k]| => t[k][j][0]))
  }

  // ---------------------------------------------------------------------------------------
  // Properties of the windowing

  /** A song of length `L` scanned from position `i < L` yields `(L - 1 - i) / W` pairs. */
  lemma {:induction false} SongPairCount(song: seq<int>, w: int, i: nat)
    requires w >= 1 && i < |song|
    ensures |SongWindows(song, w, i)| == (|song| - 1 - i) / w
    ensures |SongTargets(song, w, i)| == (|song| - 1 - i) / w
    decreases |song| - i
  {
    var d := |song| - 1 - i;
    if i + w < |song| {
      SongPairCount(song, w, i + w);
      assert d - w >= 0;
      DivStep(d, w);
    } else {
      assert 0 <= d < w;
    }
  }

  lemma MulStep(k: int, w: int)
    ensures (k + 1) * w == k * w + w
  {}

  /** Euclidean division is the unique quotient. */
  lemma DivUnique(d: int, w: int, q: int)
    requires w >= 1 && q * w <= d < q * w + w
    ensures d / w == q
  {
    var t := d / w - q;
    assert d == (d / w) * w + d % w;
    assert (d / w) * w == q * w + t * w;
    if t >= 1 { assert false; }
    if t <= -1 { assert false; }
  }

  /** Dividing `d >= w` by `w` counts one more than dividing `d - w`. */
  lemma DivStep(d: int, w: int)
    requires w >= 1 && d >= w
    ensures d / w == 1 + (d - w) / w
  {
    var q := (d - w) / w;
    assert q * w <= d - w < q * w + w;
    MulStep(q, w);
    DivUnique(d, w, q + 1);
  }

  /** A song of length `L >= 1` yields `(L - 1) div W` pairs, e.g. 2 for `L = 9, W = 4`
      and 1 for `L = 8, W = 4`; an empty song yields none. */
  lemma PairCount(song: seq<int>, w: int)
    requires w >= 1
    ensures |song| == 0 ==> SongWindows(song, w, 0) == [] && SongTargets(song, w, 0) == []
    ensures |song| >= 1 ==> |SongWindows(song, w, 0)| == |SongTargets(song, w, 0)| == (|song| - 1) / w
  {
    if |song| >= 1 {
      SongPairCount(song, w, 0);
    }
  }

  /** The `k`-th pair scanned from `i` starts at `i + k * W`: its window is the `W` entries from
      there and its target the entry right after them. */
  lemma {:induction false} SongPairAt(song: seq<int>, w: int, i: nat, k: nat)
    requires w >= 1 && k < |SongWindows(song, w, i)|
    ensures i + k * w + w < |song|
    ensures k < |SongTargets(song, w, i)|
    ensures SongWindows(song, w, i)[k] == song[i + k * w .. i + k * w + w]
    ensures SongTargets(song, w, i)[k] == song[i + k * w + w]
    decreases k
  {
    assert i + w < |song|;
    var rest := SongWindows(song, w, i + w);
    assert SongWindows(song, w, i) == [song[i..i + w]] + rest;
    assert SongTargets(song, w, i) == [song[i + w]] + SongTargets(song, w, i + w);
    if k > 0 {
      SongPairAt(song, w, i + w, k - 1);
      MulStep(k - 1, w);
      assert SongWindows(song, w, i)[k] == rest[k - 1];
    } else {
      assert k * w == 0;
    }
  }

  /** The pairs of one song: window `k` is `song[k*W .. k*W + W]`, target `k` is `song[k*W + W]`. */
  lemma WindowContents(song: seq<int>, w: int, k: nat)
    requires w >= 1 && k < |SongWindows(song, w, 0)|
    ensures k < |SongTargets(song, w, 0)| && k * w + w < |song|
    ensures SongWindows(song, w, 0)[k] == song[k * w .. k * w + w]
    ensures SongTargets(song, w, 0)[k] == song[k * w + w]
  {
    SongPairAt(song, w, 0, k);
  }

  /** Concatenation of a list of windows. */
  function Flatten(windows: seq<seq<int>>): seq<int>
    decreases |windows|
  {
    if |windows| == 0 then [] else windows[0] + Flatten(windows[1..])
  }

  /** The windows scanned from `i` tile the song from `i` on, and what they leave over is at
      least one and at most `W` entries. */
  lemma {:induction false} SongWindowsTile(song: seq<int>, w: int, i: nat)
    requires w >= 1 && i < |song|
    ensures var n := |SongWindows(song, w, i)|;
            i + n * w < |song| <= i + n * w + w &&
            Flatten(SongWindows(song, w, i)) == song[i .. i + n * w]
    decreases |song| - i
  {
    if i + w < |song| {
      SongWindowsTile(song, w, i + w);
      var n := |SongWindows(song, w, i + w)|;
      MulStep(n, w);
      assert song[i .. i + (n + 1) * w] == song[i .. i + w] + song[i + w .. i + w + n * w];
    }
  }

  /** Windows never overlap and the remainder is dropped: the windows of a non-empty song,
      put end to end, are its prefix of length `n * W`, and the dropped tail is 1 to `W` entries. */
  lemma WindowsCoverPrefix(song: seq<int>, w: int)
    requires w >= 1 && |song| >= 1
    ensures var n := |SongWindows(song, w, 0)|;
            n * w < |song| <= n * w + w && Flatten(SongWindows(song, w, 0)) == song[..n * w]
  {
    SongWindowsTile(song, w, 0);
  }

  /** Songs contribute their pairs in the order the songs come. */
  lemma {:induction false} CorpusConcat(a: seq<seq<int>>, b: seq<seq<int>>, w: int)
    requires w >= 1
    ensures CorpusWindows(a + b, w) == CorpusWindows(a, w) + CorpusWindows(b, w)
    ensures CorpusTargets(a + b, w) == CorpusTargets(a, w) + CorpusTargets(b, w)
    decreases |b|
  {
    if |b| == 0 {
      assert a + b == a;
    } else {
      var n := |b| - 1;
      var last := b[n];
      assert (a + b)[..|a + b| - 1] == a + b[..n];
      assert (a + b)[|a + b| - 1] == last;
      CorpusConcat(a, b[..n], w);
      assert CorpusWindows(b, w) == CorpusWindows(b[..n], w) + SongWindows(last, w, 0);
      assert CorpusWindows(a + b, w) == CorpusWindows(a + b[..n], w) + SongWindows(last, w, 0);
      assert CorpusTargets(b, w) == CorpusTargets(b[..n], w) + SongTargets(last, w, 0);
      assert CorpusTargets(a + b, w) == CorpusTargets(a + b[..n], w) + SongTargets(last, w, 0);
    }
  }

  /** `network_in` and `network_out` always have the same length. */
  lemma {:induction false} CorpusParallel(songs: seq<seq<int>>, w: int)
    requires w >= 1
    ensures |CorpusWindows(songs, w)| == |CorpusTargets(songs, w)|
    decreases |songs|
  {
    if |songs| > 0 {
      var n := |songs| - 1;
      CorpusParallel(songs[..n], w);
      PairCount(songs[n], w);
    }
  }

  /** Filtering keeps the order of the songs it keeps. */
  lemma {:induction false} NonEmptyConcat(a: seq<seq<string>>, b: seq<seq<string>>)
    ensures NonEmpty(a + b) == NonEmpty(a) + NonEmpty(b)
    decreases |b|
  {
    if |b| == 0 {
      assert a + b == a;
    } else {
      var n := |b| - 1;
      var tail: seq<seq<string>> := if |b[n]| > 0 then [b[n]] else [];
      assert (a + b)[..|a + b| - 1] == a + b[..n];
      assert (a + b)[|a + b| - 1] == b[n];
      NonEmptyConcat(a, b[..n]);
      assert NonEmpty(b) == NonEmpty(b[..n]) + tail;
      assert NonEmpty(a + b) == NonEmpty(a + b[..n]) + tail;
    }
  }

  /** An empty song anywhere in the data changes nothing: it is filtered out before encoding. */
  lemma EmptySongIgnored(a: seq<seq<string>>, b: seq<seq<string>>, noteParser: map<string, int>, w: int)
    requires w >= 1
    ensures PrepareSongs(a + [[]] + b, noteParser, w) == PrepareSongs(a + b, noteParser, w)
  {
    var empty: seq<seq<string>> := [[]];
    assert a + [[]] + b == (a + empty) + b;
    NonEmptyConcat(a + empty, b);
    NonEmptyConcat(a, empty);
    NonEmptyConcat(a, b);
    assert NonEmpty(empty) == [] by {
      assert empty[..0] == [];
    }
    assert NonEmpty(a + [[]] + b) == NonEmpty(a + b);
  }

  /** When every token of the data is in the dictionary, nothing raises. */
  lemma CoveredDataEncodes(data: seq<seq<string>>, noteParser: map<string, int>, w: int)
    requires w >= 1
    requires TokenSet(data) <= noteParser.Keys
    ensures PrepareSongs(data, noteParser, w).Ok?
  {
    var songs := NonEmpty(data);
    NonEmptyMembers(data);
    TokenSetMembers(data);
    forall k | 0 <= k < |songs| ensures Encode(songs[k], noteParser).Ok? {
      assert songs[k] in songs;
      var i :| 0 <= i < |data| && data[i] == songs[k];
      forall j | 0 <= j < |songs[k]| ensures songs[k][j] in noteParser {
        assert data[i][j] in TokenSet(data);
      }
    }
  }

  /** A missing token anywhere in a non-empty song makes the whole call raise. */
  lemma MissingTokenRaises(data: seq<seq<string>>, noteParser: map<string, int>, w: int, k: nat, j: nat)
    requires w >= 1
    requires k < |data| && j < |data[k]| && data[k][j] !in noteParser
    ensures PrepareSongs(data, noteParser, w).Err?
  {
    var songs := NonEmpty(data);
    NonEmptyMembers(data);
    assert data[k] in songs;
    var i :| 0 <= i < |songs| && songs[i] == data[k];
    assert !Encode(songs[i], noteParser).Ok?;
  }

  /** Reshaping keeps windows and their order: dropping the feature dimension gives them back. */
  lemma ReshapeKeepsWindows(windows: seq<seq<int>>, w: int)
    requires forall k :: 0 <= k < |windows| ==> |windows[k]| == w
    ensures Squeeze(Reshape(windows, w)) == windows
  {
    var r := Reshape(windows, w);
    forall k | 0 <= k < |windows| ensures Squeeze(r)[k] == windows[k] {
      assert |Squeeze(r)[k]| == |windows[k]|;
      forall j | 0 <= j < |windows[k]| ensures Squeeze(r)[k][j] == windows[k][j] {
        assert r[k][j] == [windows[k][j]];
      }
    }
  }

  /** The window loop's counter after `steps` rounds of `i += W`. */
  function CounterAfter(w: int, steps: nat): int
  {
    if steps == 0 then 0 else CounterAfter(w, steps - 1) + w
  }

  /** With `W == 0` the counter stays at 0, so on a non-empty song the loop guard
      `i + W < len(song)` holds after every round: the loop does not terminate. */
  lemma {:induction false} ZeroWindowLoops(len: nat, steps: nat)
    requires len >= 1
    ensures CounterAfter(0, steps) == 0 && CounterAfter(0, steps) + 0 < len
    decreases steps
  {
    if steps > 0 {
      ZeroWindowLoops(len, steps - 1);
    }
  }

  /** With `W < 0` the counter falls by at least one per round. */
  lemma {:induction false} NegativeCounterFalls(w: int, steps: nat)
    requires w < 0
    ensures CounterAfter(w, steps) <= -(steps as int)
    decreases steps
  {
    if steps > 0 {
      NegativeCounterFalls(w, steps - 1);
    }
  }

  /** With `W < 0` the guard `i + W < len(song)` never fails, but by round `len(song)` the target
      index `i + W` is below `-len(song)`, out of range even for Python's negative indexing: the
      target lookup raises `IndexError` by then at the latest. */
  lemma NegativeWindowRaises(w: int, len: nat)
    requires w < 0 && len >= 1
    ensures forall steps: nat :: CounterAfter(w, steps) + w < len
    ensures CounterAfter(w, len) + w < -(len as int)
  {
    forall steps: nat ensures CounterAfter(w, steps) + w < len {
      NegativeCounterFalls(w, steps);
    }
    NegativeCounterFalls(w, len);
  }
}
