/**
 * The vocabulary: the corpus-wide set of distinct tokens, an enumeration of it in the set's
 * (arbitrary) iteration order, and the two dictionaries built from that enumeration.
 */
module Vocabulary {
  import opened Dicts

  ghost predicate NoDuplicates(order: seq<string>)
  {
    forall i, j :: 0 <= i < j < |order| ==> order[i] != order[j]
  }

  /** `order` is one iteration order of the set `s`: each element once, nothing else. */
  ghost predicate IsEnumeration(order: seq<string>, s: set<string>)
  {
    NoDuplicates(order) && forall t :: t in order <==> t in s
  }

  /** Iterating a set: elements come out one at a time, in an order the caller cannot rely on. */
  method Enumerate(s: set<string>) returns (order: seq<string>)
    ensures IsEnumeration(order, s)
  {
    order := [];
    var rest := s;
    while rest != {}
      invariant rest <= s
      invariant NoDuplicates(order)
      invariant forall t :: t in order <==> t in s && t !in rest
      decreases |rest|
    {
      var t :| t in rest;
      order := order + [t];
      rest := rest - {t};
    }
  }

  /** An enumeration has as many entries as the set has elements. */
  lemma {:induction false} EnumerationSize(order: seq<string>, s: set<string>)
    requires IsEnumeration(order, s)
    ensures |order| == |s|
    decreases |order|
  {
    if |order| == 0 {
      assert forall t :: t !in s;
    } else {
      var n := |order| - 1;
      var front := order[..n];
      assert forall t :: t in front ==> t in order;
      assert IsEnumeration(front, s - {order[n]}) by {
        forall t ensures t in front <==> t in s - {order[n]} {
          if t in order && t != order[n] {
            var i :| 0 <= i < |order| && order[i] == t;
            assert i < n && front[i] == t;
          }
          if t in front {
            var i :| 0 <= i < n && front[i] == t;
            assert order[i] == t;
          }
        }
      }
      EnumerationSize(front, s - {order[n]});
    }
  }

  /** `enumerate(order)` as (note, index) pairs. */
  function NoteIndexPairs(order: seq<string>): seq<(string, int)>
  {
    seq(|order|, i requires 0 <= i < |order| => (order[i], i))
  }

  /** `note_to_int`: `dict((note, idx) for idx, note in enumerate(all_used_notes))`. */
  function NoteToInt(order: seq<string>): map<string, int>
  {
    FromPairs(NoteIndexPairs(order))
  }

  /** `int_to_note`: `dict((idx, note) for idx, note in enumerate(all_used_notes))`. */
  function IntToNote(order: seq<string>): map<int, string>
  {
    FromPairs(Swapped(NoteIndexPairs(order)))
  }

  /** The indices `0 .. n-1`. */
  function Indices(n: nat): (r: set<int>)
    ensures forall k :: k in r <==> 0 <= k < n
  {
    if n == 0 then {} else Indices(n - 1) + {n - 1}
  }

  /** A vocabulary over `tokens`: `noteToInt` and `intToNote` are mutually inverse bijections
      between exactly the tokens and exactly the indices `0 .. |tokens|-1`. */
  ghost predicate IsVocabulary(noteToInt: map<string, int>, intToNote: map<int, string>, tokens: set<string>)
  {
    && noteToInt.Keys == tokens
    && intToNote.Keys == Indices(|tokens|)
    && (forall t :: t in noteToInt ==> noteToInt[t] in intToNote && intToNote[noteToInt[t]] == t)
    && (forall k :: k in intToNote ==> intToNote[k] in noteToInt && noteToInt[intToNote[k]] == k)
  }

  /** `note_to_int` sends the `i`-th token of a duplicate-free enumeration to `i`. */
  lemma NoteToIntAt(order: seq<string>, i: nat)
    requires NoDuplicates(order) && i < |order|
    ensures order[i] in NoteToInt(order) && NoteToInt(order)[order[i]] == i
  {
    var pairs := NoteIndexPairs(order);
    assert pairs[i] == (order[i], i);
    forall j | i < j < |pairs| ensures pairs[j].0 != pairs[i].0 {
      assert pairs[j].0 == order[j];
    }
    FromPairsLastWins(pairs, i);
  }

  /** `int_to_note` sends `i` to the `i`-th token. */
  lemma IntToNoteAt(order: seq<string>, i: nat)
    requires i < |order|
    ensures i in IntToNote(order) && IntToNote(order)[i] == order[i]
  {
    var pairs := Swapped(NoteIndexPairs(order));
    assert pairs[i] == (i, order[i]);
    forall j | i < j < |pairs| ensures pairs[j].0 != pairs[i].0 {
      assert pairs[j].0 == j;
    }
    FromPairsLastWins(pairs, i);
  }

  lemma NoteToIntKeys(order: seq<string>)
    ensures forall t :: t in NoteToInt(order) <==> t in order
  {
    var pairs := NoteIndexPairs(order);
    forall t ensures t in NoteToInt(order) <==> t in order {
      if t in order {
        var i :| 0 <= i < |order| && order[i] == t;
        assert pairs[i] in pairs && pairs[i].0 == t;
      }
      if t in NoteToInt(order) {
        var p :| p in pairs && p.0 == t;
        var i :| 0 <= i < |pairs| && pairs[i] == p;
        assert order[i] == t;
      }
    }
  }

  lemma IntToNoteKeys(order: seq<string>)
    ensures forall k :: k in IntToNote(order) <==> 0 <= k < |order|
  {
    var pairs := Swapped(NoteIndexPairs(order));
    forall k ensures k in IntToNote(order) <==> 0 <= k < |order| {
      if 0 <= k < |order| {
        assert pairs[k] in pairs && pairs[k].0 == k;
      }
      if k in IntToNote(order) {
        var p :| p in pairs && p.0 == k;
        var i :| 0 <= i < |pairs| && pairs[i] == p;
        assert i == k;
      }
    }
  }

  /** Both dictionaries built from one enumeration of the token set form a vocabulary over it. */
  lemma VocabularyFromEnumeration(order: seq<string>, tokens: set<string>)
    requires IsEnumeration(order, tokens)
    ensures IsVocabulary(NoteToInt(order), IntToNote(order), tokens)
  {
    EnumerationSize(order, tokens);
    NoteToIntKeys(order);
    IntToNoteKeys(order);
    var n2i, i2n := NoteToInt(order), IntToNote(order);
    assert n2i.Keys == tokens;
    assert i2n.Keys == Indices(|tokens|);
    forall t | t in n2i ensures n2i[t] in i2n && i2n[n2i[t]] == t {
      var i :| 0 <= i < |order| && order[i] == t;
      NoteToIntAt(order, i);
      IntToNoteAt(order, i);
    }
    forall k | k in i2n ensures i2n[k] in n2i && n2i[i2n[k]] == k {
      NoteToIntAt(order, k);
      IntToNoteAt(order, k);
    }
  }

  /** The distinct tokens of a collection of songs: Python's running `set.union`. */
  function TokenSet(data: seq<seq<string>>): set<string>
    decreases |data|
  {
    if |data| == 0 then {}
    else
      var n := |data| - 1;
      TokenSet(data[..n]) + set t | t in data[n]
  }

  /** A token is in the union exactly when some song holds it. */
  lemma {:induction false} TokenSetMembers(data: seq<seq<string>>)
    ensures forall k, j :: 0 <= k < |data| && 0 <= j < |data[k]| ==> data[k][j] in TokenSet(data)
    ensures forall t :: t in TokenSet(data) ==> exists k :: 0 <= k < |data| && t in data[k]
    decreases |data|
  {
    if |data| > 0 {
      var n := |data| - 1;
      TokenSetMembers(data[..n]);
      assert forall k :: 0 <= k < n ==> data[..n][k] == data[k];
    }
  }

  /** The running union: one more song adds its own tokens. */
  lemma TokenSetSnoc(data: seq<seq<string>>, song: seq<string>)
    ensures TokenSet(data + [song]) == TokenSet(data) + set t | t in song
  {
    assert (data + [song])[..|data|] == data;
  }
}
