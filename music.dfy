/**
 * The parsed score as the event extractor sees it, and the token sequence it reduces a score to.
 * A score is its list of instrument parts (what `instrument.partitionByInstrument` yields); a part
 * knows whether its instrument is a piano and holds its elements in stream order.
 */
module Music {
  import opened Wrappers
  import opened Strings

  /** A stream element: a single note (its pitch name), a chord (its normal order), or anything else. */
  datatype Elem = Note(pitch: string) | Chord(normalOrder: seq<nat>) | Other

  datatype Part = Part(isPiano: bool, elems: seq<Elem>)

  type Score = seq<Part>

  /** The decimal strings of a list of numbers, `[str(n) for n in xs]`. */
  function Decimals(xs: seq<nat>): seq<string>
  {
    seq(|xs|, k requires 0 <= k < |xs| => NatToString(xs[k]))
  }

  /** A chord's token: `'.'.join(str(n) for n in normalOrder)`. */
  function ChordToken(normalOrder: seq<nat>): string
  {
    Join(Decimals(normalOrder), '.')
  }

  /** Elements that produce a token. */
  predicate IsEvent(e: Elem)
  {
    e.Note? || e.Chord?
  }

  function Token(e: Elem): string
    requires IsEvent(e)
  {
    if e.Note? then e.pitch else ChordToken(e.normalOrder)
  }

  /** The tokens of a part's elements in stream order; elements that are not events are skipped. */
  function PartTokens(elems: seq<Elem>): seq<string>
    decreases |elems|
  {
    if |elems| == 0 then []
    else
      var e := elems[|elems| - 1];
      PartTokens(elems[..|elems| - 1]) + if IsEvent(e) then [Token(e)] else []
  }

  /** Every note and chord of the part has its token in the sequence, and every token in the
      sequence comes from a note or chord of the part. */
  lemma {:induction false} PartTokensMembers(elems: seq<Elem>)
    ensures forall e :: e in elems && IsEvent(e) ==> Token(e) in PartTokens(elems)
    ensures forall t :: t in PartTokens(elems) ==> exists e :: e in elems && IsEvent(e) && Token(e) == t
    decreases |elems|
  {
    if |elems| > 0 {
      var n := |elems| - 1;
      PartTokensMembers(elems[..n]);
      assert elems == elems[..n] + [elems[n]];
    }
  }

  /** The positions of a part's elements that are notes or chords. */
  function EventPositions(elems: seq<Elem>): set<nat>
  {
    set k: nat | k < |elems| && IsEvent(elems[k])
  }

  /** Index of the last piano part: a later piano part replaces an earlier one. */
  function LastPianoIndex(parts: seq<Part>): (r: Option<nat>)
    ensures r.None? <==> forall k :: 0 <= k < |parts| ==> !parts[k].isPiano
    ensures r.Some? ==> r.value < |parts| && parts[r.value].isPiano
    ensures r.Some? ==> forall k :: r.value < k < |parts| ==> !parts[k].isPiano
    decreases |parts|
  {
    if |parts| == 0 then None
    else if parts[|parts| - 1].isPiano then Some(|parts| - 1)
    else LastPianoIndex(parts[..|parts| - 1])
  }

  /** The token sequence of a score: the tokens of its last piano part, none without one. */
  function MusicNotes(score: Score): seq<string>
  {
    match LastPianoIndex(score)
    case None => []
    case Some(k) => PartTokens(score[k].elems)
  }

  /** Without a piano part a score has no tokens; otherwise its tokens are those of the piano
      part that no later part replaces. */
  lemma MusicNotesLastPiano(score: Score)
    ensures (forall k :: 0 <= k < |score| ==> !score[k].isPiano) ==> MusicNotes(score) == []
    ensures forall k :: 0 <= k < |score| && score[k].isPiano && (forall j :: k < j < |score| ==> !score[j].isPiano)
                        ==> MusicNotes(score) == PartTokens(score[k].elems)
  {
    match LastPianoIndex(score)
    case None =>
    case Some(i) =>
      forall k | 0 <= k < |score| && score[k].isPiano && (forall j :: k < j < |score| ==> !score[j].isPiano)
        ensures k == i
      {
      }
  }

  /** One token sequence per file of the corpus, empty ones included. */
  function CorpusTokens(corpus: seq<Score>): seq<seq<string>>
  {
    seq(|corpus|, k requires 0 <= k < |corpus| => MusicNotes(corpus[k]))
  }

  /** Extraction respects stream order: the tokens of two stretches of a part are concatenated. */
  lemma {:induction false} PartTokensConcat(a: seq<Elem>, b: seq<Elem>)
    ensures PartTokens(a + b) == PartTokens(a) + PartTokens(b)
    decreases |b|
  {
    if |b| == 0 {
      assert a + b == a;
    } else {
      var front := b[..|b| - 1];
      var e := b[|b| - 1];
      assert (a + b)[..|a + b| - 1] == a + front;
      assert (a + b)[|a + b| - 1] == e;
      PartTokensConcat(a, front);
      assert PartTokens(b) == PartTokens(front) + if IsEvent(e) then [Token(e)] else [];
      assert PartTokens(a + b) == PartTokens(a + front) + if IsEvent(e) then [Token(e)] else [];
    }
  }

  /** A note contributes its pitch name, a chord its dotted normal order, any other element nothing. */
  lemma PartTokensSingle(e: Elem)
    ensures e.Note? ==> PartTokens([e]) == [e.pitch]
    ensures e.Chord? ==> PartTokens([e]) == [ChordToken(e.normalOrder)]
    ensures e.Other? ==> PartTokens([e]) == []
  {
    assert [e][..0] == [];
  }

  /** Appending an element adds its own position when it is an event. */
  lemma EventPositionsSnoc(elems: seq<Elem>)
    requires |elems| > 0
    ensures var n := |elems| - 1;
            EventPositions(elems) == EventPositions(elems[..n]) + if IsEvent(elems[n]) then {n} else {}
  {
    var n := |elems| - 1;
    forall k: nat | k < n ensures elems[k] == elems[..n][k] { }
  }

  /** Exactly one token per note or chord element. */
  lemma {:induction false} PartTokensCount(elems: seq<Elem>)
    ensures |PartTokens(elems)| == |EventPositions(elems)|
    decreases |elems|
  {
    if |elems| > 0 {
      var n := |elems| - 1;
      var front := elems[..n];
      PartTokensCount(front);
      EventPositionsSnoc(elems);
      assert n !in EventPositions(front);
      assert |PartTokens(elems)| == |PartTokens(front)| + if IsEvent(elems[n]) then 1 else 0;
    }
  }

  /** The chord `[0, 4, 7]` becomes the token "0.4.7". */
  lemma ChordTokenExample()
    ensures ChordToken([0, 4, 7]) == "0.4.7"
  {
    assert Decimals([0, 4, 7]) == ["0", "4", "7"];
  }

  /** The pieces of a chord token are the decimal strings of its normal order. */
  lemma ChordTokenSplits(normalOrder: seq<nat>)
    requires |normalOrder| >= 1
    ensures Split(ChordToken(normalOrder), '.') == Decimals(normalOrder)
  {
    var ds := Decimals(normalOrder);
    forall k | 0 <= k < |ds| ensures '.' !in ds[k] {
      assert IsDigits(ds[k]);
    }
    SplitJoin(ds, '.');
  }

  /** Two chords share a token only when their normal orders agree, so identical chords share a
      vocabulary entry and different chords never do. */
  lemma ChordTokenInjective(a: seq<nat>, b: seq<nat>)
    requires ChordToken(a) == ChordToken(b)
    ensures a == b
  {
    if |a| >= 1 && |b| >= 1 {
      ChordTokenSplits(a);
      ChordTokenSplits(b);
      assert Decimals(a) == Decimals(b);
      forall k | 0 <= k < |a| ensures a[k] == b[k] {
        assert NatToString(a[k]) == Decimals(a)[k] == Decimals(b)[k] == NatToString(b[k]);
        NatToStringInjective(a[k], b[k]);
      }
    } else if |a| >= 1 {
      ChordTokenSplits(a);
    } else if |b| >= 1 {
      ChordTokenSplits(b);
    }
  }
}
