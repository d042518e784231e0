/** The part of the file system that `create_folders` and `write_dict_to_csv`
    (src/utils.py) touch: a set of existing directories and, for each CSV
    file, its rows. A row is a sequence of already rendered fields. */
module FileSystem {
  import opened PosixPath

  type Row = seq<string>

  /** A Python dict as the writer sees it: its items in insertion order, each
      value already rendered as the text of one CSV field. */
  type Record = seq<(string, string)>

  function Keys(rec: Record): Row
  {
    seq(|rec|, i requires 0 <= i < |rec| => rec[i].0)
  }

  function Values(rec: Record): Row
  {
    seq(|rec|, i requires 0 <= i < |rec| => rec[i].1)
  }

  // ---------------------------------------------------------------------------
  // create_folders

  /** One `if not isdir(p): Path(p).mkdir(parents=True, exist_ok=True)` step. */
  function Ensure(dirs: set<Path>, p: Path): set<Path>
  {
    if p in dirs then dirs else dirs + {p} + Ancestors(p)
  }

  /** The steps `ps` taken in order. */
  function EnsureAll(dirs: set<Path>, ps: seq<Path>): set<Path>
    decreases |ps|
  {
    if ps == [] then dirs else Ensure(EnsureAll(dirs, ps[..|ps| - 1]), ps[|ps| - 1])
  }

  /** Every path named in `ps` together with its ancestors. */
  function Reach(ps: seq<Path>): set<Path>
    decreases |ps|
  {
    if ps == [] then {} else Reach(ps[..|ps| - 1]) + {ps[|ps| - 1]} + Ancestors(ps[|ps| - 1])
  }

  /** The innermost loop: `base/m` for every model, in order. */
  function ModelTargets(base: Path, models: seq<Path>): seq<Path>
  {
    seq(|models|, k requires 0 <= k < |models| => Join(base, models[k]))
  }

  /** One iteration of the dataset loop: `f/d`, then `f/d/m` for every model. */
  function DatasetTargets(f: Path, d: Path, models: seq<Path>): seq<Path>
  {
    [Join(f, d)] + ModelTargets(Join(f, d), models)
  }

  /** One iteration of the root loop. */
  function RootTargets(f: Path, datasets: seq<Path>, models: seq<Path>): seq<Path>
    decreases |datasets|
  {
    if datasets == [] then []
    else RootTargets(f, datasets[..|datasets| - 1], models)
         + DatasetTargets(f, datasets[|datasets| - 1], models)
  }

  /** Every path `create_folders` checks, in the order it checks them. */
  function Targets(roots: seq<Path>, datasets: seq<Path>, models: seq<Path>): seq<Path>
    decreases |roots|
  {
    if roots == [] then []
    else Targets(roots[..|roots| - 1], datasets, models)
         + RootTargets(roots[|roots| - 1], datasets, models)
  }

  lemma EnsureAllAppend(dirs: set<Path>, ps: seq<Path>, p: Path)
    ensures EnsureAll(dirs, ps + [p]) == Ensure(EnsureAll(dirs, ps), p)
  {
    assert (ps + [p])[..|ps|] == ps;
  }

  lemma {:induction false} EnsureAllSplit(dirs: set<Path>, a: seq<Path>, b: seq<Path>)
    ensures EnsureAll(dirs, a + b) == EnsureAll(EnsureAll(dirs, a), b)
    decreases |b|
  {
    if b == [] {
      assert a + b == a;
    } else {
      var n := |b| - 1;
      assert (a + b)[..|a + b| - 1] == a + b[..n];
      EnsureAllSplit(dirs, a, b[..n]);
    }
  }

  /** Nothing is ever removed. */
  lemma {:induction false} EnsureAllGrows(dirs: set<Path>, ps: seq<Path>)
    ensures dirs <= EnsureAll(dirs, ps)
    decreases |ps|
  {
    if ps != [] {
      EnsureAllGrows(dirs, ps[..|ps| - 1]);
    }
  }

  /** Every requested path exists afterwards. */
  lemma {:induction false} EnsureAllContains(dirs: set<Path>, ps: seq<Path>)
    ensures forall i :: 0 <= i < |ps| ==> ps[i] in EnsureAll(dirs, ps)
    decreases |ps|
  {
    if ps != [] {
      var init := ps[..|ps| - 1];
      EnsureAllContains(dirs, init);
      forall i | 0 <= i < |ps| ensures ps[i] in EnsureAll(dirs, ps) {
        if i < |ps| - 1 {
          assert ps[i] == init[i];
        }
      }
    }
  }

  /** When every requested path already exists, nothing changes. */
  lemma {:induction false} EnsureAllNoop(dirs: set<Path>, ps: seq<Path>)
    requires forall i :: 0 <= i < |ps| ==> ps[i] in dirs
    ensures EnsureAll(dirs, ps) == dirs
    decreases |ps|
  {
    if ps != [] {
      var init := ps[..|ps| - 1];
      assert forall i :: 0 <= i < |init| ==> init[i] == ps[i];
      EnsureAllNoop(dirs, init);
    }
  }

  /** Running the same steps a second time is a no-op. */
  lemma EnsureAllIdempotent(dirs: set<Path>, ps: seq<Path>)
    ensures EnsureAll(EnsureAll(dirs, ps), ps) == EnsureAll(dirs, ps)
  {
    EnsureAllContains(dirs, ps);
    EnsureAllNoop(EnsureAll(dirs, ps), ps);
  }

  /** Only the requested paths and their ancestors are ever added. */
  lemma {:induction false} EnsureAllBounded(dirs: set<Path>, ps: seq<Path>)
    ensures EnsureAll(dirs, ps) <= dirs + Reach(ps)
    decreases |ps|
  {
    if ps != [] {
      EnsureAllBounded(dirs, ps[..|ps| - 1]);
    }
  }

  lemma ModelTargetsAppend(base: Path, models: seq<Path>, k: nat)
    requires k < |models|
    ensures ModelTargets(base, models[..k + 1]) == ModelTargets(base, models[..k]) + [Join(base, models[k])]
  {
    var a := ModelTargets(base, models[..k + 1]);
    var b := ModelTargets(base, models[..k]) + [Join(base, models[k])];
    assert |a| == |b| == k + 1;
    forall i | 0 <= i < k + 1 ensures a[i] == b[i] {
      assert models[..k + 1][i] == models[i];
      if i < k {
        assert models[..k][i] == models[i];
      }
    }
  }

  /** One iteration of the dataset loop extends the root's targets by
      `f/d` and then the model paths under it. */
  lemma RootTargetsStep(f: Path, datasets: seq<Path>, j: nat, models: seq<Path>)
    requires j < |datasets|
    ensures RootTargets(f, datasets[..j + 1], models)
            == RootTargets(f, datasets[..j], models) + [Join(f, datasets[j])] + ModelTargets(Join(f, datasets[j]), models)
  {
    assert datasets[..j + 1][..j] == datasets[..j];
    assert datasets[..j + 1][j] == datasets[j];
    var done := RootTargets(f, datasets[..j], models);
    var base := Join(f, datasets[j]);
    assert RootTargets(f, datasets[..j + 1], models) == done + ([base] + ModelTargets(base, models));
  }

  lemma {:induction false} RootTargetsCover(f: Path, datasets: seq<Path>, models: seq<Path>, j: nat)
    requires j < |datasets|
    ensures Join(f, datasets[j]) in RootTargets(f, datasets, models)
    ensures forall m :: m in models ==> Join(Join(f, datasets[j]), m) in RootTargets(f, datasets, models)
    decreases |datasets|
  {
    var n := |datasets| - 1;
    var init := RootTargets(f, datasets[..n], models);
    var last := DatasetTargets(f, datasets[n], models);
    assert RootTargets(f, datasets, models) == init + last;
    if j < n {
      assert datasets[..n][j] == datasets[j];
      RootTargetsCover(f, datasets[..n], models, j);
    } else {
      DatasetTargetsCover(f, datasets[j], models);
    }
  }

  lemma DatasetTargetsCover(f: Path, d: Path, models: seq<Path>)
    ensures Join(f, d) in DatasetTargets(f, d, models)
    ensures forall m :: m in models ==> Join(Join(f, d), m) in DatasetTargets(f, d, models)
  {
    var base := Join(f, d);
    var ts := DatasetTargets(f, d, models);
    assert ts[0] == base;
    forall m | m in models ensures Join(base, m) in ts {
      var k :| 0 <= k < |models| && models[k] == m;
      assert ts[1 + k] == ModelTargets(base, models)[k];
    }
  }

  /** The directories after one iteration of the dataset loop: `f/d` is
      ensured, then the model paths under it. */
  lemma DatasetStep(dirs: set<Path>, f: Path, datasets: seq<Path>, j: nat, models: seq<Path>)
    requires j < |datasets|
    ensures var base := Join(f, datasets[j]);
            EnsureAll(dirs, RootTargets(f, datasets[..j + 1], models))
            == EnsureAll(Ensure(EnsureAll(dirs, RootTargets(f, datasets[..j], models)), base), ModelTargets(base, models))
  {
    var done := RootTargets(f, datasets[..j], models);
    var base := Join(f, datasets[j]);
    RootTargetsStep(f, datasets, j, models);
    EnsureAllAppend(dirs, done, base);
    EnsureAllSplit(dirs, done + [base], ModelTargets(base, models));
  }

  /** The layout promised by the docstring of `create_folders`: for every root
      `f` and dataset `d`, `f/d` is among the targets, and so is `f/d/m` for
      every model `m`; `f/d` is there even when there are no models. */
  lemma {:induction false} TargetsCover(roots: seq<Path>, datasets: seq<Path>, models: seq<Path>, f: Path, d: Path)
    requires f in roots && d in datasets
    ensures Join(f, d) in Targets(roots, datasets, models)
    ensures forall m :: m in models ==> Join(Join(f, d), m) in Targets(roots, datasets, models)
    decreases |roots|
  {
    var n := |roots| - 1;
    var j :| 0 <= j < |datasets| && datasets[j] == d;
    if f == roots[n] {
      RootTargetsCover(f, datasets, models, j);
    } else {
      assert f in roots[..n];
      TargetsCover(roots[..n], datasets, models, f, d);
    }
  }

  /** Everything `create_folders` promises about the resulting directory set. */
  lemma CreateFoldersLayout(dirs: set<Path>, roots: seq<Path>, datasets: seq<Path>, models: seq<Path>)
    ensures dirs <= EnsureAll(dirs, Targets(roots, datasets, models))
    ensures EnsureAll(dirs, Targets(roots, datasets, models)) <= dirs + Reach(Targets(roots, datasets, models))
    ensures forall f, d :: f in roots && d in datasets ==>
              Join(f, d) in EnsureAll(dirs, Targets(roots, datasets, models))
    ensures forall f, d, m :: f in roots && d in datasets && m in models ==>
              Join(Join(f, d), m) in EnsureAll(dirs, Targets(roots, datasets, models))
  {
    var ts := Targets(roots, datasets, models);
    EnsureAllGrows(dirs, ts);
    EnsureAllBounded(dirs, ts);
    EnsureAllContains(dirs, ts);
    forall f, d | f in roots && d in datasets
      ensures Join(f, d) in EnsureAll(dirs, ts)
      ensures forall m :: m in models ==> Join(Join(f, d), m) in EnsureAll(dirs, ts)
    {
      TargetsCover(roots, datasets, models, f, d);
    }
  }

  // ---------------------------------------------------------------------------
  // write_dict_to_csv

  /** The rows of `path` after one `write_dict_to_csv(path, rec)`. */
  function Written(files: map<Path, seq<Row>>, path: Path, rec: Record): seq<Row>
  {
    if path in files then files[path] + [Values(rec)] else [Keys(rec), Values(rec)]
  }

  /** The files after `write_dict_to_csv(path, recs[0])`, ..., in order. */
  function WriteAll(files: map<Path, seq<Row>>, path: Path, recs: seq<Record>): map<Path, seq<Row>>
    decreases |recs|
  {
    if recs == [] then files
    else var before := WriteAll(files, path, recs[..|recs| - 1]);
         before[path := Written(before, path, recs[|recs| - 1])]
  }

  /** Only `path` is ever written. */
  lemma {:induction false} WriteAllOnlyPath(files: map<Path, seq<Row>>, path: Path, recs: seq<Record>, q: Path)
    requires q != path
    ensures q in WriteAll(files, path, recs) <==> q in files
    ensures q in files ==> WriteAll(files, path, recs)[q] == files[q]
    decreases |recs|
  {
    if recs != [] {
      WriteAllOnlyPath(files, path, recs[..|recs| - 1], q);
    }
  }

  /** Writing to an existing file appends one values row per record and never
      changes the rows already there. */
  lemma {:induction false} WriteAllAppends(files: map<Path, seq<Row>>, path: Path, recs: seq<Record>)
    requires path in files
    ensures path in WriteAll(files, path, recs)
    ensures |WriteAll(files, path, recs)[path]| == |files[path]| + |recs|
    ensures WriteAll(files, path, recs)[path][..|files[path]|] == files[path]
    ensures forall i :: 0 <= i < |recs| ==>
              WriteAll(files, path, recs)[path][|files[path]| + i] == Values(recs[i])
    decreases |recs|
  {
    if recs != [] {
      var n := |recs| - 1;
      WriteAllAppends(files, path, recs[..n]);
      var rows := WriteAll(files, path, recs)[path];
      var prev := WriteAll(files, path, recs[..n])[path];
      assert rows == prev + [Values(recs[n])];
      forall i | 0 <= i < |recs| ensures rows[|files[path]| + i] == Values(recs[i]) {
        if i < n {
          assert recs[..n][i] == recs[i];
        }
      }
    }
  }

  /** Starting from an absent file, n >= 1 writes give n + 1 rows: one header
      row, holding the keys of the first record, then the values of each
      record in call order. */
  lemma {:induction false} WriteAllFresh(files: map<Path, seq<Row>>, path: Path, recs: seq<Record>)
    requires path !in files && |recs| >= 1
    ensures path in WriteAll(files, path, recs)
    ensures |WriteAll(files, path, recs)[path]| == |recs| + 1
    ensures WriteAll(files, path, recs)[path][0] == Keys(recs[0])
    ensures forall i :: 0 <= i < |recs| ==> WriteAll(files, path, recs)[path][i + 1] == Values(recs[i])
  {
    var first := files[path := [Keys(recs[0]), Values(recs[0])]];
    assert WriteAll(files, path, [recs[0]]) == first by {
      assert [recs[0]][..0] == [] && [recs[0]][0] == recs[0];
      assert WriteAll(files, path, [recs[0]][..0]) == files;
    }
    var rest := recs[1..];
    assert WriteAll(files, path, recs) == WriteAll(first, path, rest) by {
      WriteAllSplit(files, path, [recs[0]], rest);
      assert [recs[0]] + rest == recs;
    }
    WriteAllAppends(first, path, rest);
    var rows := WriteAll(files, path, recs)[path];
    forall i | 0 <= i < |recs| ensures rows[i + 1] == Values(recs[i]) {
      if i > 0 {
        assert rows[|first[path]| + (i - 1)] == Values(rest[i - 1]);
        assert rest[i - 1] == recs[i];
      }
    }
  }

  lemma {:induction false} WriteAllSplit(files: map<Path, seq<Row>>, path: Path, a: seq<Record>, b: seq<Record>)
    ensures WriteAll(files, path, a + b) == WriteAll(WriteAll(files, path, a), path, b)
    decreases |b|
  {
    if b == [] {
      assert a + b == a;
    } else {
      var n := |b| - 1;
      assert (a + b)[..|a + b| - 1] == a + b[..n];
      WriteAllSplit(files, path, a, b[..n]);
    }
  }

  /** The keys of every record after the one that created the file are never
      looked at: two write sequences that agree on the values of every record
      (and, when the file is absent, on the keys of the first) give the same files. */
  lemma {:induction false} LaterKeysIgnored(files: map<Path, seq<Row>>, path: Path, recs: seq<Record>, recs': seq<Record>)
    requires |recs| == |recs'|
    requires forall i :: 0 <= i < |recs| ==> Values(recs[i]) == Values(recs'[i])
    requires path !in files && |recs| > 0 ==> Keys(recs[0]) == Keys(recs'[0])
    ensures WriteAll(files, path, recs) == WriteAll(files, path, recs')
    decreases |recs|
  {
    if recs != [] {
      var n := |recs| - 1;
      LaterKeysIgnored(files, path, recs[..n], recs'[..n]);
      if n > 0 {
        WriteAllOnlyPathIn(files, path, recs[..n]);
      }
    }
  }

  lemma WriteAllOnlyPathIn(files: map<Path, seq<Row>>, path: Path, recs: seq<Record>)
    requires |recs| > 0
    ensures path in WriteAll(files, path, recs)
  {
  }

  // ---------------------------------------------------------------------------

  class FileSystem {
    var dirs: set<Path>
    var files: map<Path, seq<Row>>

    constructor (dirs0: set<Path>, files0: map<Path, seq<Row>>)
      ensures dirs == dirs0 && files == files0
    {
      dirs := dirs0;
      files := files0;
    }

    /** `create_folders(datasets, models, first_level_folders)`: the loop over
        the roots; each iteration runs the loop over the datasets. */
    method CreateFolders(datasets: seq<Path>, models: seq<Path>, roots: seq<Path>)
      modifies this
      ensures dirs == EnsureAll(old(dirs), Targets(roots, datasets, models))
      ensures files == old(files)
      ensures old(dirs) <= dirs <= old(dirs) + Reach(Targets(roots, datasets, models))
      ensures forall f, d :: f in roots && d in datasets ==> Join(f, d) in dirs
      ensures forall f, d, m :: f in roots && d in datasets && m in models ==> Join(Join(f, d), m) in dirs
    {
      var i := 0;
      while i < |roots|
        invariant 0 <= i <= |roots|
        invariant dirs == EnsureAll(old(dirs), Targets(roots[..i], datasets, models))
        invariant files == old(files)
      {
        CreateDatasetFolders(roots[i], datasets, models);
        EnsureAllSplit(old(dirs), Targets(roots[..i], datasets, models), RootTargets(roots[i], datasets, models));
        assert roots[..i + 1][..i] == roots[..i];
        i := i + 1;
      }
      assert roots[..i] == roots;
      CreateFoldersLayout(old(dirs), roots, datasets, models);
    }

    /** The loop over the datasets under one root `f`: `f/d` is created when
        it is not a directory, then the loop over the models runs under it. */
    method CreateDatasetFolders(f: Path, datasets: seq<Path>, models: seq<Path>)
      modifies this
      ensures dirs == EnsureAll(old(dirs), RootTargets(f, datasets, models))
      ensures files == old(files)
    {
      var j := 0;
      while j < |datasets|
        invariant 0 <= j <= |datasets|
        invariant dirs == EnsureAll(old(dirs), RootTargets(f, datasets[..j], models))
        invariant files == old(files)
      {
        DatasetStep(old(dirs), f, datasets, j, models);
        ghost var before := dirs;
        var pathBase := Join(f, datasets[j]);
        if pathBase !in dirs {
          dirs := dirs + {pathBase} + Ancestors(pathBase);
        }
        assert dirs == Ensure(before, pathBase);
        CreateModelFolders(pathBase, models);
        j := j + 1;
      }
      assert datasets[..j] == datasets;
    }

    /** The loop over the models under `pathBase`. */
    method CreateModelFolders(pathBase: Path, models: seq<Path>)
      modifies this
      ensures dirs == EnsureAll(old(dirs), ModelTargets(pathBase, models))
      ensures files == old(files)
    {
      var k := 0;
      while k < |models|
        invariant 0 <= k <= |models|
        invariant dirs == EnsureAll(old(dirs), ModelTargets(pathBase, models[..k]))
        invariant files == old(files)
      {
        var pathFull := Join(pathBase, models[k]);
        if pathFull !in dirs {
          dirs := dirs + {pathFull} + Ancestors(pathFull);
        }
        ModelTargetsAppend(pathBase, models, k);
        EnsureAllAppend(old(dirs), ModelTargets(pathBase, models[..k]), pathFull);
        k := k + 1;
      }
      assert models[..k] == models;
    }

    /** `write_dict_to_csv(file, my_dict)`: on an absent file a header row of
        the keys then a row of the values; on an existing one the values row only. */
    method WriteDictToCsv(path: Path, rec: Record)
      modifies this
      ensures files == old(files)[path := Written(old(files), path, rec)]
      ensures path !in old(files) ==> files[path] == [Keys(rec), Values(rec)]
      ensures path in old(files) ==> files[path] == old(files[path]) + [Values(rec)]
      ensures dirs == old(dirs)
    {
      if path in files {
        files := files[path := files[path] + [Values(rec)]];
      } else {
        files := files[path := [Keys(rec), Values(rec)]];
      }
    }
  }
}
