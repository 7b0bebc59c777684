/**
 * The Lakh dataset handler: the two dictionaries between LPD and MSD song IDs read from
 * `cleansed_ids.txt`, and the helpers that turn an MSD ID into file paths.
 */
module LakhDataset {
  import opened Wrappers
  import opened Strings
  import opened Dicts
  import opened Paths

  /** The exception indexing past the end of a string raises, with the offending index. */
  datatype IndexError = IndexError(index: nat)

  /** The handler's fields after `__init__`; none of them changes afterwards. */
  datatype Handler = Handler(
    rootDir: string,
    dataDir: string,
    resultsPath: string,
    lpdToMsdIds: map<string, string>,
    msdToLpdIds: map<string, string>,
    midiDir: string)

  /** `__init__`, given the rows of `cleansed_ids.txt` as (LPD ID, MSD ID) pairs. The `data_dir`
      literal lacks the `f` prefix in `__init__`, so it is kept word for word. */
  function NewHandler(rootDir: string, cleansedIds: seq<(string, string)>): Handler
  {
    Handler(
      rootDir,
      "f{root_dir}/Lakh Piano Dataset/lpd_5/lpd_5_cleansed",
      JoinPath(rootDir, ["Lakh Piano Dataset", "Metadata"]),
      FromPairs(cleansedIds),
      FromPairs(Swapped(cleansedIds)),
      rootDir + "/Lakh Piano Dataset/lpd_5_midi")
  }

  /** `msd_id_to_dirs`: `os.path.join(msd_id[2], msd_id[3], msd_id[4], msd_id)`; an ID shorter
      than 5 characters raises at the first of the indices 2, 3, 4 that is out of range. */
  function MsdIdToDirs(msdId: string): (r: Result<string, IndexError>)
    ensures r.Err? <==> |msdId| < 5
    ensures r.Err? ==> 2 <= r.error.index <= 4 && |msdId| <= r.error.index
                       && (r.error.index == 2 || r.error.index - 1 < |msdId|)
  {
    if |msdId| <= 2 then Err(IndexError(2))
    else if |msdId| == 3 then Err(IndexError(3))
    else if |msdId| == 4 then Err(IndexError(4))
    else Ok(JoinPath([msdId[2]], [[msdId[3]], [msdId[4]], msdId]))
  }

  /** `msd_id_to_h5`: `os.path.join(results_path, 'lmd_matched_h5', msd_id_to_dirs(msd_id) + '.h5')`. */
  function MsdIdToH5(h: Handler, msdId: string): (r: Result<string, IndexError>)
    ensures r.Err? <==> |msdId| < 5
  {
    match MsdIdToDirs(msdId)
    case Err(e) => Err(e)
    case Ok(dirs) => Ok(JoinPath(h.resultsPath, ["lmd_matched_h5", dirs + ".h5"]))
  }

  /** `get_midi_npz_path`: `os.path.join(data_dir, msd_id_to_dirs(msd_id), midi_md5 + '.npz')`. */
  function GetMidiNpzPath(h: Handler, msdId: string, midiMd5: string): (r: Result<string, IndexError>)
    ensures r.Err? <==> |msdId| < 5
  {
    match MsdIdToDirs(msdId)
    case Err(e) => Err(e)
    case Ok(dirs) => Ok(JoinPath(h.dataDir, [dirs, midiMd5 + ".npz"]))
  }

  // ---------------------------------------------------------------------------------------
  // Paths

  /** For an ID without `/`, the prefix is the third, fourth and fifth characters as three
      directories followed by the ID itself: four path components. */
  lemma MsdIdToDirsShape(msdId: string)
    requires |msdId| >= 5 && '/' !in msdId
    ensures MsdIdToDirs(msdId) == Ok([msdId[2]] + "/" + [msdId[3]] + "/" + [msdId[4]] + "/" + msdId)
    ensures Split(MsdIdToDirs(msdId).value, '/') == [[msdId[2]], [msdId[3]], [msdId[4]], msdId]
  {
    var a, b, c := [msdId[2]], [msdId[3]], [msdId[4]];
    assert msdId[2] in msdId && msdId[3] in msdId && msdId[4] in msdId && msdId[0] in msdId;
    var ab := Join2(a, b);
    assert ab == a + "/" + b;
    var abc := Join2(ab, c);
    assert abc == ab + "/" + c;
    var path := Join2(abc, msdId);
    assert path == abc + "/" + msdId;
    JoinPathThree(a, b, c, msdId);
    assert Join([a, b, c, msdId], '/') == a + "/" + Join([b, c, msdId], '/');
    assert Join([b, c, msdId], '/') == b + "/" + Join([c, msdId], '/');
    assert Join([c, msdId], '/') == c + "/" + msdId;
    assert path == Join([a, b, c, msdId], '/');
    SplitJoin([a, b, c, msdId], '/');
  }

  /** The example of the docstring of `msd_id_to_dirs`: `TRABCD12345678 -> A/B/C/TRABCD12345678`. */
  lemma MsdIdToDirsExample()
    ensures MsdIdToDirs("TRABCD12345678") == Ok("A/B/C/TRABCD12345678")
  {
    var id := "TRABCD12345678";
    assert forall k :: 0 <= k < |id| ==> id[k] != '/';
    MsdIdToDirsShape(id);
    assert [id[2]] + "/" + [id[3]] + "/" + [id[4]] + "/" + id == "A/B/C/TRABCD12345678";
  }

  /** The results path built by `__init__` ends in `/Metadata`, so it is a proper directory. */
  lemma ResultsPathShape(rootDir: string, cleansedIds: seq<(string, string)>)
    ensures var p := NewHandler(rootDir, cleansedIds).resultsPath;
            |p| > 9 && p[|p| - 9..] == "/Metadata"
  {
    var lakh := Join2(rootDir, "Lakh Piano Dataset");
    assert |lakh| > 0 && lakh[|lakh| - 1] == 't';
    var p := Join2(lakh, "Metadata");
    assert p == lakh + "/Metadata";
    assert p[|p| - 9..] == "/Metadata";
  }

  /** Below a proper results directory, the h5 file of an ID is
      `<results>/lmd_matched_h5/<dirs>.h5`, `<dirs>` being the prefix of `MsdIdToDirsShape`. */
  lemma H5Path(h: Handler, msdId: string)
    requires |msdId| >= 5 && '/' !in msdId
    requires |h.resultsPath| > 0 && h.resultsPath[|h.resultsPath| - 1] != '/'
    ensures MsdIdToH5(h, msdId) == Ok(h.resultsPath + "/lmd_matched_h5/" + MsdIdToDirs(msdId).value + ".h5")
  {
    MsdIdToDirsShape(msdId);
    var dirs := MsdIdToDirs(msdId).value;
    var top := Join2(h.resultsPath, "lmd_matched_h5");
    assert top == h.resultsPath + "/lmd_matched_h5";
    JoinPathTwo(h.resultsPath, "lmd_matched_h5", dirs + ".h5");
    assert MsdIdToH5(h, msdId) == Ok(top + "/" + (dirs + ".h5"));
    assert "/lmd_matched_h5" + "/" == "/lmd_matched_h5/";
    assert top + "/" + (dirs + ".h5") == h.resultsPath + "/lmd_matched_h5/" + dirs + ".h5";
  }

  /** The h5 file of an ID is named `<id>.h5`. */
  lemma H5FileName(h: Handler, msdId: string)
    requires |msdId| >= 5 && '/' !in msdId
    ensures MsdIdToH5(h, msdId).Ok?
    ensures LastPiece(MsdIdToH5(h, msdId).value, '/') == msdId + ".h5"
  {
    MsdIdToDirsShape(msdId);
    var dirs := MsdIdToDirs(msdId).value;
    var c234 := [msdId[2]] + "/" + [msdId[3]] + "/" + [msdId[4]];
    var name := msdId + ".h5";
    assert dirs + ".h5" == c234 + ['/'] + name;
    var top := Join2(h.resultsPath, "lmd_matched_h5");
    JoinPathTwo(h.resultsPath, "lmd_matched_h5", dirs + ".h5");
    assert '/' !in name;
    assert msdId[2] in msdId;
    assert Relative(dirs + ".h5");
    assert |top| > 0 && top[|top| - 1] == '5';
    var path := Join2(top, dirs + ".h5");
    assert path == (top + "/" + c234) + ['/'] + name;
    LastPieceAfter(top + "/" + c234, name, '/');
  }

  /** The npz path of an ID is `<data_dir>/<dirs>/<md5>.npz` when `data_dir` is a proper
      directory, and for any `data_dir` its file name is `<md5>.npz`. */
  lemma NpzPath(h: Handler, msdId: string, midiMd5: string)
    requires |msdId| >= 5 && '/' !in msdId && '/' !in midiMd5
    ensures GetMidiNpzPath(h, msdId, midiMd5).Ok?
    ensures LastPiece(GetMidiNpzPath(h, msdId, midiMd5).value, '/') == midiMd5 + ".npz"
    ensures (|h.dataDir| > 0 && h.dataDir[|h.dataDir| - 1] != '/') ==>
              GetMidiNpzPath(h, msdId, midiMd5) == Ok(h.dataDir + "/" + MsdIdToDirs(msdId).value + "/" + midiMd5 + ".npz")
  {
    MsdIdToDirsShape(msdId);
    var dirs := MsdIdToDirs(msdId).value;
    assert dirs == [msdId[2]] + "/" + [msdId[3]] + "/" + [msdId[4]] + "/" + msdId;
    var name := midiMd5 + ".npz";
    assert '/' !in name && Relative(name);
    var mid := Join2(h.dataDir, dirs);
    JoinPathTwo(h.dataDir, dirs, name);
    assert GetMidiNpzPath(h, msdId, midiMd5) == Ok(Join2(mid, name));
    JoinLastPiece(mid, name);
    if |h.dataDir| > 0 && h.dataDir[|h.dataDir| - 1] != '/' {
      assert msdId[0] in msdId;
      assert mid == h.dataDir + "/" + dirs;
      assert mid[|mid| - 1] == msdId[|msdId| - 1];
      assert msdId[|msdId| - 1] in msdId;
      assert Join2(mid, name) == mid + "/" + name;
      assert mid + "/" + name == mid + "/" + midiMd5 + ".npz";
    }
  }

  // ---------------------------------------------------------------------------------------
  // The two ID dictionaries

  /** `lpd_to_msd_ids` sends each LPD ID to the MSD ID of its last row, `msd_to_lpd_ids` each MSD ID
      to the LPD ID of its last row. */
  lemma IdMapsLastRowWins(rootDir: string, cleansedIds: seq<(string, string)>, j: nat)
    requires j < |cleansedIds|
    ensures var h := NewHandler(rootDir, cleansedIds);
            (forall i :: j < i < |cleansedIds| ==> cleansedIds[i].0 != cleansedIds[j].0) ==>
              cleansedIds[j].0 in h.lpdToMsdIds && h.lpdToMsdIds[cleansedIds[j].0] == cleansedIds[j].1
    ensures var h := NewHandler(rootDir, cleansedIds);
            (forall i :: j < i < |cleansedIds| ==> cleansedIds[i].1 != cleansedIds[j].1) ==>
              cleansedIds[j].1 in h.msdToLpdIds && h.msdToLpdIds[cleansedIds[j].1] == cleansedIds[j].0
  {
    if forall i :: j < i < |cleansedIds| ==> cleansedIds[i].0 != cleansedIds[j].0 {
      FromPairsLastWins(cleansedIds, j);
    }
    var swapped := Swapped(cleansedIds);
    if forall i :: j < i < |cleansedIds| ==> cleansedIds[i].1 != cleansedIds[j].1 {
      forall i | j < i < |swapped| ensures swapped[i].0 != swapped[j].0 {
        assert swapped[i].0 == cleansedIds[i].1;
      }
      FromPairsLastWins(swapped, j);
    }
  }

  /** The keys of both dictionaries are exactly the two columns. */
  lemma IdMapsKeys(rootDir: string, cleansedIds: seq<(string, string)>)
    ensures var h := NewHandler(rootDir, cleansedIds);
            forall a :: a in h.lpdToMsdIds <==> exists i :: 0 <= i < |cleansedIds| && cleansedIds[i].0 == a
    ensures var h := NewHandler(rootDir, cleansedIds);
            forall b :: b in h.msdToLpdIds <==> exists i :: 0 <= i < |cleansedIds| && cleansedIds[i].1 == b
  {
    var swapped := Swapped(cleansedIds);
    forall b ensures b in FromPairs(swapped) <==> exists i :: 0 <= i < |cleansedIds| && cleansedIds[i].1 == b {
      if b in FromPairs(swapped) {
        var p :| p in swapped && p.0 == b;
        var i :| 0 <= i < |swapped| && swapped[i] == p;
        assert cleansedIds[i].1 == b;
      }
      if exists i :: 0 <= i < |cleansedIds| && cleansedIds[i].1 == b {
        var i :| 0 <= i < |cleansedIds| && cleansedIds[i].1 == b;
        assert swapped[i] in swapped;
      }
    }
  }

  /** Every MSD ID that `parse_to_midi` takes from `lpd_to_msd_ids` is a key of `msd_to_lpd_ids`,
      duplicates or not: the lookup there never raises. */
  lemma LookupNeverFails(rootDir: string, cleansedIds: seq<(string, string)>)
    ensures var h := NewHandler(rootDir, cleansedIds);
            forall a :: a in h.lpdToMsdIds ==> h.lpdToMsdIds[a] in h.msdToLpdIds
  {
    var h := NewHandler(rootDir, cleansedIds);
    IdMapsKeys(rootDir, cleansedIds);
    forall a | a in h.lpdToMsdIds ensures h.lpdToMsdIds[a] in h.msdToLpdIds {
      var i :| 0 <= i < |cleansedIds| && cleansedIds[i] == (a, h.lpdToMsdIds[a]);
      assert cleansedIds[i].1 == h.lpdToMsdIds[a];
    }
  }

  /** When the MSD column repeats no ID, `msd_to_lpd_ids` undoes `lpd_to_msd_ids`. */
  lemma IdMapsBackward(rootDir: string, cleansedIds: seq<(string, string)>)
    requires DistinctKeys(Swapped(cleansedIds))
    ensures var h := NewHandler(rootDir, cleansedIds);
            forall a :: a in h.lpdToMsdIds ==> h.lpdToMsdIds[a] in h.msdToLpdIds && h.msdToLpdIds[h.lpdToMsdIds[a]] == a
  {
    var h := NewHandler(rootDir, cleansedIds);
    var swapped := Swapped(cleansedIds);
    forall a | a in h.lpdToMsdIds ensures h.lpdToMsdIds[a] in h.msdToLpdIds && h.msdToLpdIds[h.lpdToMsdIds[a]] == a {
      var i :| 0 <= i < |cleansedIds| && cleansedIds[i] == (a, h.lpdToMsdIds[a]);
      assert swapped[i] == (h.lpdToMsdIds[a], a);
      FromPairsLastWins(swapped, i);
    }
  }

  /** When the LPD column repeats no ID, `lpd_to_msd_ids` undoes `msd_to_lpd_ids`. */
  lemma IdMapsForward(rootDir: string, cleansedIds: seq<(string, string)>)
    requires DistinctKeys(cleansedIds)
    ensures var h := NewHandler(rootDir, cleansedIds);
            forall b :: b in h.msdToLpdIds ==> h.msdToLpdIds[b] in h.lpdToMsdIds && h.lpdToMsdIds[h.msdToLpdIds[b]] == b
  {
    var h := NewHandler(rootDir, cleansedIds);
    var swapped := Swapped(cleansedIds);
    forall b | b in h.msdToLpdIds ensures h.msdToLpdIds[b] in h.lpdToMsdIds && h.lpdToMsdIds[h.msdToLpdIds[b]] == b {
      var i :| 0 <= i < |swapped| && swapped[i] == (b, h.msdToLpdIds[b]);
      assert cleansedIds[i] == (h.msdToLpdIds[b], b);
      FromPairsLastWins(cleansedIds, i);
    }
  }

  /** When neither column repeats an ID, the two dictionaries are inverse to each other. */
  lemma IdMapsInverse(rootDir: string, cleansedIds: seq<(string, string)>)
    requires DistinctKeys(cleansedIds) && DistinctKeys(Swapped(cleansedIds))
    ensures var h := NewHandler(rootDir, cleansedIds);
            (forall a :: a in h.lpdToMsdIds ==> h.lpdToMsdIds[a] in h.msdToLpdIds && h.msdToLpdIds[h.lpdToMsdIds[a]] == a)
            && (forall b :: b in h.msdToLpdIds ==> h.msdToLpdIds[b] in h.lpdToMsdIds && h.lpdToMsdIds[h.msdToLpdIds[b]] == b)
  {
    IdMapsBackward(rootDir, cleansedIds);
    IdMapsForward(rootDir, cleansedIds);
  }
}
