/** src/clear_cache.py: empty the cache folders of the experiment harness,
    keeping each folder's `.gitignore`, on command-line request.

    Each cache folder is represented by its listing. What `os.unlink` and
    `shutil.rmtree` would fail on (permissions, busy files) is a parameter:
    `denied` holds the joined paths whose deletion raises. */
module ClearCache {
  import opened PosixPath

  /** What `isfile`, `islink` and `isdir` say of an entry; `Special` is a
      FIFO, socket or device, for which all three are false. */
  datatype Kind = Regular | Symlink | Directory | Special

  datatype Entry = Entry(name: string, kind: Kind)

  const GitIgnore: string := ".gitignore"

  /** The loop body tries to delete `e`: it is not `.gitignore`, and it is a
      file or a link (unlinked) or a directory (removed recursively). */
  predicate Attempted(e: Entry)
  {
    e.name != GitIgnore && e.kind != Special
  }

  /** `e` is still listed after `clear_cache(path)`. */
  predicate Survives(path: Path, e: Entry, denied: set<Path>)
  {
    !Attempted(e) || Join(path, e.name) in denied
  }

  /** The listing after `clear_cache(path)` has gone through `listing`. */
  function Remaining(path: Path, listing: seq<Entry>, denied: set<Path>): seq<Entry>
    decreases |listing|
  {
    if listing == [] then []
    else
      var e := listing[|listing| - 1];
      Remaining(path, listing[..|listing| - 1], denied) + (if Survives(path, e, denied) then [e] else [])
  }

  /** The paths named by the warnings `clear_cache(path)` prints, in order. */
  function Warnings(path: Path, listing: seq<Entry>, denied: set<Path>): seq<Path>
    decreases |listing|
  {
    if listing == [] then []
    else
      var e := listing[|listing| - 1];
      Warnings(path, listing[..|listing| - 1], denied)
      + (if Attempted(e) && Join(path, e.name) in denied then [Join(path, e.name)] else [])
  }

  lemma RemainingStep(path: Path, listing: seq<Entry>, i: nat, denied: set<Path>)
    requires i < |listing|
    ensures Remaining(path, listing[..i + 1], denied)
            == Remaining(path, listing[..i], denied) + (if Survives(path, listing[i], denied) then [listing[i]] else [])
    ensures Warnings(path, listing[..i + 1], denied)
            == Warnings(path, listing[..i], denied)
               + (if Attempted(listing[i]) && Join(path, listing[i].name) in denied then [Join(path, listing[i].name)] else [])
  {
    assert listing[..i + 1][..i] == listing[..i];
  }

  /** One pass of the deletion loop. The folder's current listing is `done`,
      what is left of the entries before `i`, followed by the entries from `i`
      on: entry `i` stands at index `|done|`, and either stays or is cut out. */
  lemma ClearStep(path: Path, listing: seq<Entry>, i: nat, denied: set<Path>, done: seq<Entry>)
    requires i < |listing| && done == Remaining(path, listing[..i], denied)
    ensures var e, current := listing[i], done + listing[i..];
            && |done| < |current| && current[|done|] == e
            && (Survives(path, e, denied) ==>
                  Remaining(path, listing[..i + 1], denied) == done + [e]
                  && (done + [e]) + listing[i + 1..] == current)
            && (!Survives(path, e, denied) ==>
                  Remaining(path, listing[..i + 1], denied) == done
                  && current[..|done|] + current[|done| + 1..] == done + listing[i + 1..])
    ensures Warnings(path, listing[..i + 1], denied)
            == Warnings(path, listing[..i], denied)
               + (if Attempted(listing[i]) && Join(path, listing[i].name) in denied then [Join(path, listing[i].name)] else [])
  {
    RemainingStep(path, listing, i, denied);
    var e := listing[i];
    var tail := listing[i + 1..];
    assert listing[i..] == [e] + tail;
    SplitAround(done, e, tail);
  }

  lemma UpdateTwice<K, V>(m: map<K, V>, k: K, a: V, b: V)
    ensures m[k := a][k := b] == m[k := b]
  {
  }

  /** Cutting `a + [x] + b` at `|a|`. */
  lemma SplitAround<T>(a: seq<T>, x: T, b: seq<T>)
    ensures var s := a + ([x] + b);
            |a| < |s| && s[|a|] == x && s[..|a|] == a && s[|a| + 1..] == b && (a + [x]) + b == s
  {
  }

  /** An entry is left iff it is `.gitignore`, is neither file, link nor
      directory, or its deletion failed; every other entry is gone, wherever it
      stands relative to the failures. */
  lemma {:induction false} RemainingSpec(path: Path, listing: seq<Entry>, denied: set<Path>)
    ensures forall e :: e in Remaining(path, listing, denied) <==> e in listing && Survives(path, e, denied)
    decreases |listing|
  {
    if listing != [] {
      var init := listing[..|listing| - 1];
      RemainingSpec(path, init, denied);
      assert listing == init + [listing[|listing| - 1]];
    }
  }

  /** A `.gitignore` is never deleted. */
  lemma GitIgnoreKept(path: Path, listing: seq<Entry>, denied: set<Path>, e: Entry)
    requires e in listing && e.name == GitIgnore
    ensures e in Remaining(path, listing, denied)
  {
    RemainingSpec(path, listing, denied);
  }

  /** Without failures only `.gitignore` and special files are left. */
  lemma NoFailuresClears(path: Path, listing: seq<Entry>)
    ensures forall e :: e in Remaining(path, listing, {}) ==> e.name == GitIgnore || e.kind == Special
  {
    RemainingSpec(path, listing, {});
  }

  /** A warning for each failed deletion and only for those, naming the
      entry's joined path. */
  lemma {:induction false} WarningsSpec(path: Path, listing: seq<Entry>, denied: set<Path>)
    ensures forall w :: w in Warnings(path, listing, denied) <==>
              exists e :: e in listing && Attempted(e) && Join(path, e.name) in denied && w == Join(path, e.name)
    ensures forall w :: w in Warnings(path, listing, denied) ==> w in denied
    decreases |listing|
  {
    if listing != [] {
      var init := listing[..|listing| - 1];
      WarningsSpec(path, init, denied);
      assert listing == init + [listing[|listing| - 1]];
    }
  }

  /** Clearing again with the same failures deletes nothing more. */
  lemma {:induction false} RemainingIdempotent(path: Path, listing: seq<Entry>, denied: set<Path>)
    ensures Remaining(path, Remaining(path, listing, denied), denied) == Remaining(path, listing, denied)
    decreases |listing|
  {
    if listing != [] {
      var init := listing[..|listing| - 1];
      var e := listing[|listing| - 1];
      RemainingIdempotent(path, init, denied);
      var r := Remaining(path, init, denied);
      if Survives(path, e, denied) {
        assert Remaining(path, listing, denied) == r + [e];
        assert (r + [e])[..|r|] == r;
      } else {
        assert Remaining(path, listing, denied) == r;
      }
    }
  }

  // ---------------------------------------------------------------------------
  // The command line

  /** The cache folders the script knows, in the order the `if` statements
      clear them. */
  datatype Folder = Log | Tensorboard | Results | ResultsShared | Saved

  /** The folder's path, relative to the working directory. */
  function Name(f: Folder): Path
  {
    match f
    case Log => "log"
    case Tensorboard => "log_tensorboard"
    case Results => "results"
    case ResultsShared => "results_shared"
    case Saved => "saved"
  }

  /** The value of the flag that selects a folder besides `all`. */
  function FlagFor(f: Folder): string
  {
    match f
    case Log => "log"
    case Tensorboard => "tb"
    case Results => "results"
    case ResultsShared => "results"
    case Saved => "saved"
  }

  /** The position of a folder in the clearing order. */
  function Rank(f: Folder): nat
  {
    match f
    case Log => 0
    case Tensorboard => 1
    case Results => 2
    case ResultsShared => 3
    case Saved => 4
  }

  const Canonical: seq<Folder> := [Log, Tensorboard, Results, ResultsShared, Saved]

  /** What the `__main__` block does with its arguments. */
  datatype Command =
    | Usage                          // no argument: the usage table is printed
    | Conflict(values: seq<string>)  // `all` with anything else: a warning, nothing cleared
    | Clear(folders: seq<Folder>)    // these folders are cleared, in this order

  /** `i[2:]`: the argument without its first two characters, whatever they are. */
  function FlagValue(arg: string): string
  {
    if |arg| <= 2 then "" else arg[2..]
  }

  function Values(args: seq<string>): seq<string>
  {
    seq(|args|, i requires 0 <= i < |args| => FlagValue(args[i]))
  }

  /** The `__main__` dispatch, lifted out of the sequence of `if` statements. */
  function Dispatch(args: seq<string>): Command
  {
    if args == [] then Usage
    else
      var values := Values(args);
      if "all" in values && |values| > 1 then Conflict(values)
      else Clear(Selection(values))
  }

  /** The folders the `if` statements clear, in order, once the conflict has
      been ruled out. */
  function Selection(values: seq<string>): seq<Folder>
  {
    (if "log" in values then [Log] else [])
    + ((if "tb" in values then [Tensorboard] else [])
    + ((if "results" in values then [Results, ResultsShared] else [])
    + ((if "saved" in values then [Saved] else [])
    + (if "all" in values then Canonical else []))))
  }

  /** Whatever the first two characters are, they are dropped: `p + v` with a
      two-character `p` gives `v`, and an argument of at most two characters
      gives the empty value. */
  lemma FlagValueSpec(p: string, v: string)
    requires |p| <= 2
    ensures FlagValue(p) == ""
    ensures |p| == 2 ==> FlagValue(p + v) == v
  {
    if |p| == 2 {
      assert (p + v)[2..] == v;
    }
  }

  /** No argument prints the usage; `all` beside any other argument, itself
      included, is a conflict; everything else clears. */
  lemma DispatchKind(args: seq<string>)
    ensures Dispatch(args) == Usage <==> args == []
    ensures Dispatch(args).Conflict? <==> |args| > 1 && "all" in Values(args)
    ensures Dispatch(args).Conflict? ==> Dispatch(args).values == Values(args)
  {
  }

  /** Strictly increasing in the clearing order: hence in that order and
      without repetition. */
  predicate Increasing(fs: seq<Folder>)
  {
    forall i, j :: 0 <= i < j < |fs| ==> Rank(fs[i]) < Rank(fs[j])
  }

  /** A folder is selected by its own flag or by `all`. */
  predicate Selected(c: Folder, values: seq<string>)
  {
    FlagFor(c) in values || "all" in values
  }

  /** The selected folders of `fs`, in the order of `fs`. */
  function Keep(fs: seq<Folder>, values: seq<string>): seq<Folder>
    decreases |fs|
  {
    if fs == [] then []
    else (if Selected(fs[0], values) then [fs[0]] else []) + Keep(fs[1..], values)
  }

  lemma {:induction false} KeepSpec(fs: seq<Folder>, values: seq<string>)
    ensures forall c :: c in Keep(fs, values) <==> c in fs && Selected(c, values)
    ensures Increasing(fs) ==> Increasing(Keep(fs, values))
    decreases |fs|
  {
    if fs != [] {
      var rest := Keep(fs[1..], values);
      KeepSpec(fs[1..], values);
      assert fs == [fs[0]] + fs[1..];
      if Increasing(fs) {
        assert Increasing(fs[1..]) by {
          forall i, j | 0 <= i < j < |fs[1..]| ensures Rank(fs[1..][i]) < Rank(fs[1..][j]) {
            assert fs[1..][i] == fs[i + 1] && fs[1..][j] == fs[j + 1];
          }
        }
        forall k | 0 <= k < |rest| ensures Rank(fs[0]) < Rank(rest[k]) {
          assert rest[k] in fs[1..];
          var m :| 0 <= m < |fs[1..]| && fs[1..][m] == rest[k];
          assert fs[m + 1] == rest[k];
        }
        if Selected(fs[0], values) {
          var r := [fs[0]] + rest;
          forall i, j | 0 <= i < j < |r| ensures Rank(r[i]) < Rank(r[j]) {
            assert r[j] == rest[j - 1];
            if i > 0 {
              assert r[i] == rest[i - 1];
            }
          }
        } else {
          assert Keep(fs, values) == rest;
        }
      }
    }
  }

  lemma CanonicalIncreasing()
    ensures Increasing(Canonical)
    ensures forall c :: c in Canonical
  {
    forall i, j | 0 <= i < j < |Canonical| ensures Rank(Canonical[i]) < Rank(Canonical[j]) {
      assert Rank(Canonical[i]) == i && Rank(Canonical[j]) == j;
    }
    forall c ensures c in Canonical {
      assert Canonical[Rank(c)] == c;
    }
  }

  /** Without `all`, each `if` statement clears its folders exactly when its
      own flag was given. */
  lemma SelectionWithoutAll(values: seq<string>)
    requires "all" !in values
    ensures Selection(values) == Keep(Canonical, values)
  {
    var p4: seq<Folder> := if "saved" in values then [Saved] else [];
    var p3: seq<Folder> := if "results" in values then [Results, ResultsShared] else [];
    var p2: seq<Folder> := if "tb" in values then [Tensorboard] else [];
    var p1: seq<Folder> := if "log" in values then [Log] else [];
    var c4: seq<Folder> := [Saved];
    var c3: seq<Folder> := [ResultsShared] + c4;
    var c2: seq<Folder> := [Results] + c3;
    var c1: seq<Folder> := [Tensorboard] + c2;
    assert Canonical == [Log] + c1;
    KeepCons(Saved, [], values);
    assert [Saved] + [] == c4 && Keep([], values) == [];
    KeepCons(ResultsShared, c4, values);
    KeepCons(Results, c3, values);
    assert Keep(c2, values) == p3 + p4;
    KeepCons(Tensorboard, c2, values);
    KeepCons(Log, c1, values);
    assert Selection(values) == p1 + (p2 + (p3 + (p4 + [])));
    assert p4 + [] == p4;
  }

  lemma KeepCons(c: Folder, rest: seq<Folder>, values: seq<string>)
    ensures Keep([c] + rest, values) == (if Selected(c, values) then [c] else []) + Keep(rest, values)
  {
    assert ([c] + rest)[1..] == rest;
  }

  /** `all` on its own clears every folder, exactly as the last `if` does. */
  lemma SelectionAllAlone(values: seq<string>)
    requires values == ["all"]
    ensures Selection(values) == Keep(Canonical, values)
  {
    assert Keep([Saved], values) == [Saved] by {
      assert [Saved][1..] == [];
    }
    assert Keep([ResultsShared, Saved], values) == [ResultsShared, Saved] by {
      assert [ResultsShared, Saved][1..] == [Saved];
    }
    assert Keep([Results, ResultsShared, Saved], values) == [Results, ResultsShared, Saved] by {
      assert [Results, ResultsShared, Saved][1..] == [ResultsShared, Saved];
    }
    assert Keep([Tensorboard, Results, ResultsShared, Saved], values) == [Tensorboard, Results, ResultsShared, Saved] by {
      assert [Tensorboard, Results, ResultsShared, Saved][1..] == [Results, ResultsShared, Saved];
    }
    assert Keep(Canonical, values) == Canonical by {
      assert Canonical[1..] == [Tensorboard, Results, ResultsShared, Saved];
    }
    assert "log" !in values && "tb" !in values && "results" !in values && "saved" !in values;
    assert Selection(values) == [] + ([] + ([] + ([] + Canonical)));
  }

  /** Outside a conflict, the `if` statements clear exactly the selected
      folders, in the fixed order. */
  lemma SelectionIsKeep(values: seq<string>)
    requires "all" in values ==> |values| == 1
    ensures Selection(values) == Keep(Canonical, values)
  {
    if "all" in values {
      assert values == [values[0]];
      SelectionAllAlone(values);
    } else {
      SelectionWithoutAll(values);
    }
  }

  /** The folders cleared come in the fixed order, each at most once; a
      folder is cleared iff its own flag or `all` was given. */
  lemma SelectionSpec(values: seq<string>)
    requires "all" in values ==> |values| == 1
    ensures Increasing(Selection(values))
    ensures forall c :: c in Selection(values) <==> FlagFor(c) in values || "all" in values
  {
    SelectionIsKeep(values);
    CanonicalIncreasing();
    KeepSpec(Canonical, values);
  }

  /** The same, for the arguments as given on the command line. */
  lemma DispatchClears(args: seq<string>)
    requires Dispatch(args).Clear?
    ensures Increasing(Dispatch(args).folders)
    ensures forall c :: c in Dispatch(args).folders <==> FlagFor(c) in Values(args) || "all" in Values(args)
  {
    SelectionSpec(Values(args));
  }

  /** `--all` alone clears the five folders in the fixed order. */
  lemma AllAloneClearsEverything(arg: string)
    requires FlagValue(arg) == "all"
    ensures Dispatch([arg]) == Clear([Log, Tensorboard, Results, ResultsShared, Saved])
    ensures Name(Tensorboard) == "log_tensorboard" && Name(ResultsShared) == "results_shared"
  {
    assert Values([arg]) == ["all"];
  }

  /** `--results` clears `results` and then `results_shared`. */
  lemma ResultsClearsShared(arg: string)
    requires FlagValue(arg) == "results"
    ensures Dispatch([arg]) == Clear([Results, ResultsShared])
  {
    assert Values([arg]) == ["results"];
  }

  /** Only which values were given matters, not their order or repetition. */
  lemma OrderIrrelevant(a: seq<string>, b: seq<string>)
    requires Dispatch(a).Clear? && Dispatch(b).Clear?
    requires forall v :: v in Values(a) <==> v in Values(b)
    ensures Dispatch(a) == Dispatch(b)
  {
    assert a != [] && b != [];
    if "all" in Values(a) {
      assert "all" in Values(b);
      assert Values(a)[0] == "all" && Values(b)[0] == "all";
    }
  }

  /** An unknown flag is ignored, unless `all` was given as well. */
  lemma UnknownIgnored(args: seq<string>, u: string)
    requires args != [] && "all" !in Values(args)
    requires FlagValue(u) !in {"log", "tb", "results", "saved", "all"}
    ensures Dispatch(args + [u]) == Dispatch(args)
  {
    assert Values(args + [u]) == Values(args) + [FlagValue(u)];
    OrderIrrelevantValues(args, u);
  }

  lemma OrderIrrelevantValues(args: seq<string>, u: string)
    requires args != [] && "all" !in Values(args)
    requires FlagValue(u) !in {"log", "tb", "results", "saved", "all"}
    ensures forall v :: v in {"log", "tb", "results", "saved", "all"} ==> (v in Values(args + [u]) <==> v in Values(args))
  {
    assert Values(args + [u]) == Values(args) + [FlagValue(u)];
  }

  // ---------------------------------------------------------------------------
  // Running the script

  /** How the process ends: `sys.exit(0)`, or the `FileNotFoundError` that
      `os.listdir` raises for a missing folder, which nothing catches. */
  datatype Exit = Exited(code: int) | Uncaught(missing: Path)

  datatype RunState = RunState(folders: map<Path, seq<Entry>>, warnings: seq<Path>, exit: Exit)

  /** `clear_cache(f)` for each `f` of `fs` in order, stopping at the first
      folder that does not exist. */
  function ClearEach(folders: map<Path, seq<Entry>>, fs: seq<Path>, denied: set<Path>): RunState
    decreases |fs|
  {
    if fs == [] then RunState(folders, [], Exited(0))
    else if fs[0] !in folders then RunState(folders, [], Uncaught(fs[0]))
    else
      var f := fs[0];
      var rest := ClearEach(folders[f := Remaining(f, folders[f], denied)], fs[1..], denied);
      RunState(rest.folders, Warnings(f, folders[f], denied) + rest.warnings, rest.exit)
  }

  function Names(fs: seq<Folder>): seq<Path>
  {
    seq(|fs|, i requires 0 <= i < |fs| => Name(fs[i]))
  }

  lemma ClearEachStep(folders: map<Path, seq<Entry>>, fs: seq<Path>, i: nat, denied: set<Path>)
    requires i < |fs|
    ensures fs[i] !in folders ==> ClearEach(folders, fs[i..], denied) == RunState(folders, [], Uncaught(fs[i]))
    ensures fs[i] in folders ==>
              var rest := ClearEach(folders[fs[i] := Remaining(fs[i], folders[fs[i]], denied)], fs[i + 1..], denied);
              ClearEach(folders, fs[i..], denied)
              == RunState(rest.folders, Warnings(fs[i], folders[fs[i]], denied) + rest.warnings, rest.exit)
  {
    assert fs[i..][0] == fs[i];
    assert fs[i..][1..] == fs[i + 1..];
  }

  /** The whole script on the arguments `args`. */
  function RunScript(folders: map<Path, seq<Entry>>, args: seq<string>, denied: set<Path>): RunState
  {
    match Dispatch(args)
    case Clear(fs) => ClearEach(folders, Names(fs), denied)
    case _ => RunState(folders, [], Exited(0))
  }

  /** The status is 0 iff every folder to be cleared exists; otherwise the
      script dies at the first missing one. It is never a non-zero `exit`. */
  lemma {:induction false} ClearEachExit(folders: map<Path, seq<Entry>>, fs: seq<Path>, denied: set<Path>)
    ensures ClearEach(folders, fs, denied).folders.Keys == folders.Keys
    ensures ClearEach(folders, fs, denied).exit == Exited(0) <==> forall i :: 0 <= i < |fs| ==> fs[i] in folders
    ensures ClearEach(folders, fs, denied).exit.Uncaught? ==>
              exists k :: 0 <= k < |fs| && fs[k] !in folders && ClearEach(folders, fs, denied).exit.missing == fs[k]
                          && forall j :: 0 <= j < k ==> fs[j] in folders
    ensures !ClearEach(folders, fs, denied).exit.Exited? || ClearEach(folders, fs, denied).exit.code == 0
    decreases |fs|
  {
    if fs != [] && fs[0] in folders {
      var f := fs[0];
      var next := folders[f := Remaining(f, folders[f], denied)];
      ClearEachExit(next, fs[1..], denied);
      assert next.Keys == folders.Keys;
      if ClearEach(folders, fs, denied).exit.Uncaught? {
        var k :| 0 <= k < |fs[1..]| && fs[1..][k] !in next && ClearEach(next, fs[1..], denied).exit.missing == fs[1..][k]
                 && forall j :: 0 <= j < k ==> fs[1..][j] in next;
        assert fs[k + 1] == fs[1..][k];
        assert forall j :: 1 <= j < k + 1 ==> fs[j] == fs[1..][j - 1];
      }
      assert forall i :: 1 <= i < |fs| ==> fs[i] == fs[1..][i - 1];
    }
  }

  /** Every `.gitignore`, in every folder, survives the script. */
  lemma {:induction false} ClearEachKeepsGitIgnore(folders: map<Path, seq<Entry>>, fs: seq<Path>, denied: set<Path>, f: Path, e: Entry)
    requires f in folders && e in folders[f] && e.name == GitIgnore
    ensures f in ClearEach(folders, fs, denied).folders && e in ClearEach(folders, fs, denied).folders[f]
    decreases |fs|
  {
    if fs != [] && fs[0] in folders {
      var f0 := fs[0];
      var next := folders[f0 := Remaining(f0, folders[f0], denied)];
      if f == f0 {
        GitIgnoreKept(f0, folders[f0], denied, e);
      }
      ClearEachKeepsGitIgnore(next, fs[1..], denied, f, e);
    }
  }

  /** The folders of `fs` that a run reaches: the longest prefix of `fs` whose
      folders all exist. The run dies at the folder right after it, if any. */
  function Visited(existing: set<Path>, fs: seq<Path>): (r: seq<Path>)
    ensures |r| <= |fs| && r == fs[..|r|]
    ensures forall i :: 0 <= i < |r| ==> r[i] in existing
    ensures |r| < |fs| ==> fs[|r|] !in existing
    decreases |fs|
  {
    if fs == [] || fs[0] !in existing then [] else [fs[0]] + Visited(existing, fs[1..])
  }

  /** What a run does to each folder: one that it reaches ends as what
      `clear_cache` leaves of its own old listing (clearing it twice deletes
      nothing more); every other folder keeps its listing. */
  lemma {:induction false} ClearEachEffect(folders: map<Path, seq<Entry>>, fs: seq<Path>, denied: set<Path>, f: Path)
    requires f in folders
    ensures f in ClearEach(folders, fs, denied).folders
    ensures ClearEach(folders, fs, denied).folders[f]
            == if f in Visited(folders.Keys, fs) then Remaining(f, folders[f], denied) else folders[f]
    decreases |fs|
  {
    if fs != [] && fs[0] in folders {
      var f0 := fs[0];
      var next := folders[f0 := Remaining(f0, folders[f0], denied)];
      assert next.Keys == folders.Keys;
      ClearEachEffect(next, fs[1..], denied, f);
      assert Visited(folders.Keys, fs) == [f0] + Visited(folders.Keys, fs[1..]);
      if f == f0 {
        RemainingIdempotent(f, folders[f], denied);
      }
    }
  }

  /** A folder the run does not name keeps its listing. */
  lemma ClearEachFrame(folders: map<Path, seq<Entry>>, fs: seq<Path>, denied: set<Path>, f: Path)
    requires f in folders && f !in fs
    ensures f in ClearEach(folders, fs, denied).folders
    ensures ClearEach(folders, fs, denied).folders[f] == folders[f]
  {
    ClearEachEffect(folders, fs, denied, f);
  }

  /** When every folder of `fs` exists, each of them ends as what
      `clear_cache` leaves of its old listing, duplicates included. */
  lemma ClearEachClearsAll(folders: map<Path, seq<Entry>>, fs: seq<Path>, denied: set<Path>, f: Path)
    requires forall i :: 0 <= i < |fs| ==> fs[i] in folders
    requires f in fs
    ensures f in ClearEach(folders, fs, denied).folders
    ensures ClearEach(folders, fs, denied).folders[f] == Remaining(f, folders[f], denied)
  {
    var v := Visited(folders.Keys, fs);
    assert v == fs;
    ClearEachEffect(folders, fs, denied, f);
  }

  lemma NameInjective(a: Folder, b: Folder)
    ensures Name(a) == Name(b) <==> a == b
  {
  }

  lemma NamesSpec(fs: seq<Folder>, c: Folder)
    ensures Name(c) in Names(fs) <==> c in fs
  {
    if Name(c) in Names(fs) {
      var i :| 0 <= i < |fs| && Names(fs)[i] == Name(c);
      NameInjective(fs[i], c);
    }
    if c in fs {
      var i :| 0 <= i < |fs| && fs[i] == c;
      assert Names(fs)[i] == Name(c);
    }
  }

  /** When every selected folder exists, the script clears exactly the
      selected cache folders, each as `clear_cache` does, and leaves every
      other folder as it was. */
  lemma RunClearsSelected(folders: map<Path, seq<Entry>>, args: seq<string>, denied: set<Path>)
    requires Dispatch(args).Clear?
    requires forall c :: c in Dispatch(args).folders ==> Name(c) in folders
    ensures RunScript(folders, args, denied).folders.Keys == folders.Keys
    ensures forall c :: Name(c) in folders ==>
              RunScript(folders, args, denied).folders[Name(c)]
              == if Selected(c, Values(args)) then Remaining(Name(c), folders[Name(c)], denied) else folders[Name(c)]
    ensures forall f :: f in folders && f !in Names(Dispatch(args).folders) ==>
              RunScript(folders, args, denied).folders[f] == folders[f]
  {
    var fs := Dispatch(args).folders;
    var ns := Names(fs);
    ClearEachExit(folders, ns, denied);
    DispatchClears(args);
    forall i | 0 <= i < |ns| ensures ns[i] in folders {
      assert fs[i] in fs;
    }
    forall c | Name(c) in folders
      ensures RunScript(folders, args, denied).folders[Name(c)]
              == if Selected(c, Values(args)) then Remaining(Name(c), folders[Name(c)], denied) else folders[Name(c)]
    {
      NamesSpec(fs, c);
      if c in fs {
        ClearEachClearsAll(folders, ns, denied, Name(c));
      } else {
        ClearEachFrame(folders, ns, denied, Name(c));
      }
    }
    forall f | f in folders && f !in ns ensures RunScript(folders, args, denied).folders[f] == folders[f] {
      ClearEachFrame(folders, ns, denied, f);
    }
  }

  /** The exit status of the script: 0 after the usage table, after a
      conflict, and after clearing when every selected folder exists. */
  lemma RunExitStatus(folders: map<Path, seq<Entry>>, args: seq<string>, denied: set<Path>)
    ensures RunScript(folders, args, denied).exit == Exited(0) <==>
              (Dispatch(args).Clear? ==> forall f :: f in Dispatch(args).folders ==> Name(f) in folders)
    ensures !Dispatch(args).Clear? ==> RunScript(folders, args, denied) == RunState(folders, [], Exited(0))
  {
    if Dispatch(args).Clear? {
      var fs := Dispatch(args).folders;
      ClearEachExit(folders, Names(fs), denied);
      forall f | f in fs ensures Name(f) in Names(fs) {
        var i :| 0 <= i < |fs| && fs[i] == f;
        assert Names(fs)[i] == Name(f);
      }
    }
  }

  // ---------------------------------------------------------------------------

  /** The cache folders on disk, each with its listing. */
  class CacheArea {
    var folders: map<Path, seq<Entry>>

    constructor (folders0: map<Path, seq<Entry>>)
      ensures folders == folders0
    {
      folders := folders0;
    }

    /** `clear_cache(path)`. `listed` is false when `os.listdir` raises because
        the folder does not exist; nothing is changed then. */
    method ClearCache(path: Path, denied: set<Path>) returns (listed: bool, warnings: seq<Path>)
      modifies this
      ensures listed <==> path in old(folders)
      ensures listed ==> folders == old(folders)[path := Remaining(path, old(folders)[path], denied)]
      ensures listed ==> warnings == Warnings(path, old(folders)[path], denied)
      ensures !listed ==> folders == old(folders) && warnings == []
    {
      if path !in folders {
        return false, [];
      }
      listed := true;
      var listing := folders[path];
      warnings := [];
      var kept := 0;
      ghost var done: seq<Entry> := [];
      assert listing[..0] == [] && listing[0..] == listing;
      assert done + listing[0..] == listing;
      assert old(folders)[path := listing] == old(folders);
      for i := 0 to |listing|
        invariant done == Remaining(path, listing[..i], denied)
        invariant folders == old(folders)[path := done + listing[i..]]
        invariant kept == |done|
        invariant warnings == Warnings(path, listing[..i], denied)
      {
        ClearStep(path, listing, i, denied, done);
        var current := folders[path];
        var e := listing[i];
        var deleted := false;
        if e.name != GitIgnore {
          var filePath := Join(path, e.name);
          if e.kind == Regular || e.kind == Symlink || e.kind == Directory {
            // os.unlink for a file or link, shutil.rmtree for a directory
            if filePath in denied {
              warnings := warnings + [filePath];
            } else {
              folders := folders[path := current[..kept] + current[kept + 1..]];
              deleted := true;
              UpdateTwice(old(folders), path, current, done + listing[i + 1..]);
            }
          }
        }
        if !deleted {
          kept, done := kept + 1, done + [e];
        }
      }
      assert listing[..|listing|] == listing && listing[|listing|..] == [];
      assert Remaining(path, listing, denied) + [] == Remaining(path, listing, denied);
    }

    /** The `__main__` block, given the command-line arguments. */
    method Run(args: seq<string>, denied: set<Path>) returns (exit: Exit, warnings: seq<Path>)
      modifies this
      ensures var r := RunScript(old(folders), args, denied);
              folders == r.folders && warnings == r.warnings && exit == r.exit
    {
      var command := Dispatch(args);
      if !command.Clear? {
        return Exited(0), [];
      }
      exit, warnings := ClearFolders(Names(command.folders), denied);
    }

    /** The `clear_cache` calls of the `if` statements, in order; an uncaught
        error from a missing folder ends the run. */
    method ClearFolders(fs: seq<Path>, denied: set<Path>) returns (exit: Exit, warnings: seq<Path>)
      modifies this
      ensures var r := ClearEach(old(folders), fs, denied);
              folders == r.folders && warnings == r.warnings && exit == r.exit
    {
      ghost var goal := ClearEach(folders, fs, denied);
      warnings := [];
      assert fs[0..] == fs;
      for i := 0 to |fs|
        invariant var rest := ClearEach(folders, fs[i..], denied);
                  rest.folders == goal.folders && warnings + rest.warnings == goal.warnings && rest.exit == goal.exit
      {
        ClearEachStep(folders, fs, i, denied);
        var listed, ws := ClearCache(fs[i], denied);
        if !listed {
          return Uncaught(fs[i]), warnings;
        }
        ghost var rest := ClearEach(folders, fs[i + 1..], denied);
        assert warnings + (ws + rest.warnings) == (warnings + ws) + rest.warnings;
        warnings := warnings + ws;
      }
      assert fs[|fs|..] == [];
      return Exited(0), warnings;
    }
  }
}
