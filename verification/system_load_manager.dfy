/** `SystemLoadManager`: loads the add-in's UI libraries from the first of a list of
    probe directories where the file exists. The directories are the add-in's own folder
    (from the assembly location and from its code base), the application base folder and
    an optional hint folder, without blanks and without repeats that differ only in case. */
module SystemLoadManager {
  import opened Wrappers
  import opened Seqs
  import opened Text

  // ---------------------------------------------------------------------------
  // Probe directories

  /** A candidate `dirs.Add`s when `string.IsNullOrEmpty` is false; `None` stands for a null
      result or a lookup that threw. */
  function AddIfPresent(dirs: seq<string>, dir: Option<string>): seq<string> {
    if dir.Some? && dir.value != "" then dirs + [dir.value] else dirs
  }

  /** The `dirs` list of `BuildProbeDirs`: the assembly's folder, the code base's folder, the
      application base, then the hint when it is not blank. */
  function Candidates(asmDir: Option<string>, codeBaseDir: Option<string>, baseDir: Option<string>, hintDir: Option<string>): seq<string> {
    var dirs := AddIfPresent(AddIfPresent(AddIfPresent([], asmDir), codeBaseDir), baseDir);
    if !IsNullOrWhiteSpace(hintDir) then dirs + [hintDir.value] else dirs
  }

  /** A non-blank hint is the last candidate; a blank or missing one is not a candidate. */
  lemma HintIsLastCandidate(asmDir: Option<string>, codeBaseDir: Option<string>, baseDir: Option<string>, hintDir: Option<string>)
    ensures !IsNullOrWhiteSpace(hintDir) ==>
      var c := Candidates(asmDir, codeBaseDir, baseDir, hintDir);
      c != [] && c[|c| - 1] == hintDir.value
    ensures IsNullOrWhiteSpace(hintDir) ==>
      Candidates(asmDir, codeBaseDir, baseDir, hintDir) == Candidates(asmDir, codeBaseDir, baseDir, None)
  {
  }

  predicate NonBlank(dir: string) {
    !IsBlank(dir)
  }

  /** The result of the dedup loop: the non-blank candidates, each kept only when no earlier
      kept one equals it ignoring case (`HashSet` with `StringComparer.OrdinalIgnoreCase`). */
  function ProbeDirs(dirs: seq<string>): seq<string> {
    DistinctBy(Filter(dirs, NonBlank), Fold)
  }

  /** No entry is blank, each is a candidate, and no two are equal ignoring case. */
  lemma ProbeDirsClean(dirs: seq<string>)
    ensures forall i :: 0 <= i < |ProbeDirs(dirs)| ==> NonBlank(ProbeDirs(dirs)[i]) && ProbeDirs(dirs)[i] in dirs
    ensures forall i, j :: 0 <= i < j < |ProbeDirs(dirs)| ==> !EqualsIgnoreCase(ProbeDirs(dirs)[i], ProbeDirs(dirs)[j])
  {
    var named := Filter(dirs, NonBlank);
    FilterSpec(dirs, NonBlank);
    var r := ProbeDirs(dirs);
    forall i | 0 <= i < |r| ensures NonBlank(r[i]) && r[i] in dirs {
      assert r[i] in named;
    }
  }

  /** Every non-blank candidate is represented, ignoring case. */
  lemma ProbeDirsCover(dirs: seq<string>)
    ensures forall k :: 0 <= k < |dirs| && NonBlank(dirs[k]) ==>
      exists i :: 0 <= i < |ProbeDirs(dirs)| && EqualsIgnoreCase(ProbeDirs(dirs)[i], dirs[k])
  {
    var named := Filter(dirs, NonBlank);
    FilterSpec(dirs, NonBlank);
    forall k | 0 <= k < |dirs| && NonBlank(dirs[k])
      ensures exists i :: 0 <= i < |ProbeDirs(dirs)| && EqualsIgnoreCase(ProbeDirs(dirs)[i], dirs[k])
    {
      assert dirs[k] in named;
      DistinctByCovers(named, Fold, dirs[k]);
      var r := DistinctBy(named, Fold);
      var i :| 0 <= i < |r| && Fold(r[i]) == Fold(dirs[k]);
      assert EqualsIgnoreCase(ProbeDirs(dirs)[i], dirs[k]);
    }
  }

  /** Each entry is the first non-blank candidate of its case-insensitive class, and the
      entries keep the order of those first occurrences. */
  lemma ProbeDirsKeepFirst(dirs: seq<string>)
    ensures forall i :: 0 <= i < |ProbeDirs(dirs)| ==>
      Filter(dirs, NonBlank)[FirstKeyIndex(Filter(dirs, NonBlank), Fold, Fold(ProbeDirs(dirs)[i]))] == ProbeDirs(dirs)[i]
    ensures forall i, j :: 0 <= i < j < |ProbeDirs(dirs)| ==>
      FirstKeyIndex(Filter(dirs, NonBlank), Fold, Fold(ProbeDirs(dirs)[i]))
        < FirstKeyIndex(Filter(dirs, NonBlank), Fold, Fold(ProbeDirs(dirs)[j]))
  {
    var named := Filter(dirs, NonBlank);
    assert ProbeDirs(dirs) == DistinctFrom(named, Fold, {});
    DistinctFromKeepsFirst(named, Fold, {});
    DistinctFromInOrder(named, Fold, {});
  }

  /** `BuildProbeDirs(hintDir)`, given what the host reports for the three folders. */
  method BuildProbeDirs(asmDir: Option<string>, codeBaseDir: Option<string>, baseDir: Option<string>, hintDir: Option<string>)
    returns (uniq: seq<string>)
    ensures uniq == ProbeDirs(Candidates(asmDir, codeBaseDir, baseDir, hintDir))
  {
    var dirs: seq<string> := [];
    if asmDir.Some? && asmDir.value != "" { dirs := dirs + [asmDir.value]; }
    if codeBaseDir.Some? && codeBaseDir.value != "" { dirs := dirs + [codeBaseDir.value]; }
    if baseDir.Some? && baseDir.value != "" { dirs := dirs + [baseDir.value]; }
    if !IsNullOrWhiteSpace(hintDir) { dirs := dirs + [hintDir.value]; }
    uniq := Dedup(dirs);
  }

  /** The dedup loop of `BuildProbeDirs`. */
  method Dedup(dirs: seq<string>) returns (uniq: seq<string>)
    ensures uniq == ProbeDirs(dirs)
  {
    uniq := [];
    var seen: set<string> := {};
    for i := 0 to |dirs|
      invariant uniq + DistinctFrom(Filter(dirs[i..], NonBlank), Fold, seen) == ProbeDirs(dirs)
    {
      var d := dirs[i];
      assert dirs[i..] == [d] + dirs[i + 1..];
      assert dirs[i..][1..] == dirs[i + 1..];
      if IsBlank(d) {
        continue;
      }
      if Fold(d) !in seen {
        seen := seen + {Fold(d)};
        uniq := uniq + [d];
      }
    }
  }

  // ---------------------------------------------------------------------------
  // Loading

  /** `Path.Combine(dir, fileName)` for a relative file name: a separator is put between
      them unless the folder already ends with one. */
  function Combine(dir: string, fileName: string): string {
    if dir == "" then fileName
    else if dir[|dir| - 1] == '\\' || dir[|dir| - 1] == '/' then dir + fileName
    else dir + "\\" + fileName
  }

  /** The full paths tried, one per directory, in order. */
  function Paths(dirs: seq<string>, fileName: string): (r: seq<string>)
    ensures |r| == |dirs| && forall k :: 0 <= k < |dirs| ==> r[k] == Combine(dirs[k], fileName)
  {
    Map(dirs, (d: string) => Combine(d, fileName))
  }

  /** The index of the first path that exists. */
  function FirstHit(paths: seq<string>, exists_: string -> bool): (r: Option<nat>)
    ensures r.Some? ==> r.value < |paths| && exists_(paths[r.value]) && forall k :: 0 <= k < r.value ==> !exists_(paths[k])
    ensures r.None? ==> forall k :: 0 <= k < |paths| ==> !exists_(paths[k])
  {
    if paths == [] then None
    else if exists_(paths[0]) then Some(0)
    else match FirstHit(paths[1..], exists_)
      case None => None
      case Some(k) => Some(k + 1)
  }

  /** `string.Join(sep, parts)`. */
  function Join(sep: string, parts: seq<string>): string {
    if parts == [] then ""
    else if |parts| == 1 then parts[0]
    else Join(sep, parts[..|parts| - 1]) + sep + parts[|parts| - 1]
  }

  /** Every part appears in the joined text, and the last part ends it. */
  lemma {:induction false} JoinContainsParts(sep: string, parts: seq<string>)
    ensures forall k :: 0 <= k < |parts| ==> Contains(Join(sep, parts), parts[k])
    ensures parts != [] ==> OccursAt(Join(sep, parts), parts[|parts| - 1], |Join(sep, parts)| - |parts[|parts| - 1]|)
  {
    if |parts| > 1 {
      var init := parts[..|parts| - 1];
      var last := parts[|parts| - 1];
      var j := Join(sep, parts);
      JoinContainsParts(sep, init);
      forall k | 0 <= k < |parts| ensures Contains(j, parts[k]) {
        if k < |init| {
          assert parts[k] == init[k];
          var p :| 0 <= p <= |Join(sep, init)| && OccursAt(Join(sep, init), init[k], p);
          assert j[p..p + |init[k]|] == Join(sep, init)[p..p + |init[k]|];
          assert OccursAt(j, parts[k], p);
        } else {
          assert OccursAt(j, last, |j| - |last|);
        }
      }
      assert j[|j| - |last|..] == last;
    } else if |parts| == 1 {
      assert parts[0][0..|parts[0]|] == parts[0];
      assert OccursAt(Join(sep, parts), parts[0], 0);
    }
  }

  /** How `TryLoadAssembly` ends: `Assembly.LoadFrom(path)`, or a `FileNotFoundException`
      with its message. */
  datatype LoadResult = LoadedFrom(path: string) | NotFound(message: string)

  /** The exception's message: the file name and every tried path, each on its own line. */
  function NotFoundMessage(fileName: string, tried: seq<string>): string {
    "Could not find '" + fileName + "'. Searched:\n - " + Join("\n - ", tried)
  }

  /** `TryLoadAssembly` as a function: the first directory holding the file, else the
      message listing all the paths. */
  function TryLoad(fileName: string, dirs: seq<string>, exists_: string -> bool): LoadResult {
    match FirstHit(Paths(dirs, fileName), exists_)
    case Some(k) => LoadedFrom(Paths(dirs, fileName)[k])
    case None => NotFound(NotFoundMessage(fileName, Paths(dirs, fileName)))
  }

  /** The file is loaded from the first directory, in order, where it exists; when none has
      it, the message names every tried path. */
  lemma TryLoadSpec(fileName: string, dirs: seq<string>, exists_: string -> bool)
    ensures TryLoad(fileName, dirs, exists_).LoadedFrom? <==>
      exists k :: 0 <= k < |dirs| && exists_(Combine(dirs[k], fileName))
    ensures TryLoad(fileName, dirs, exists_).LoadedFrom? ==>
      exists k :: 0 <= k < |dirs| && TryLoad(fileName, dirs, exists_).path == Combine(dirs[k], fileName)
        && exists_(Combine(dirs[k], fileName)) && forall m :: 0 <= m < k ==> !exists_(Combine(dirs[m], fileName))
    ensures TryLoad(fileName, dirs, exists_).NotFound? ==>
      forall k :: 0 <= k < |dirs| ==> Contains(TryLoad(fileName, dirs, exists_).message, Combine(dirs[k], fileName))
  {
    var paths := Paths(dirs, fileName);
    match FirstHit(paths, exists_)
    case Some(k) =>
    case None =>
      var joined := Join("\n - ", paths);
      var prefix := "Could not find '" + fileName + "'. Searched:\n - ";
      JoinContainsParts("\n - ", paths);
      forall k | 0 <= k < |dirs| ensures Contains(prefix + joined, paths[k]) {
        var p :| 0 <= p <= |joined| && OccursAt(joined, paths[k], p);
        assert (prefix + joined)[|prefix| + p..|prefix| + p + |paths[k]|] == joined[p..p + |paths[k]|];
        assert OccursAt(prefix + joined, paths[k], |prefix| + p);
      }
  }

  /** `TryLoadAssembly(fileName, hintDirs)`, with `exists_` standing for `File.Exists`. */
  method TryLoadAssembly(fileName: string, hintDirs: seq<string>, exists_: string -> bool) returns (r: LoadResult)
    ensures r == TryLoad(fileName, hintDirs, exists_)
  {
    var tried: seq<string> := [];
    for i := 0 to |hintDirs|
      invariant tried == Paths(hintDirs[..i], fileName)
      invariant forall k :: 0 <= k < i ==> !exists_(Combine(hintDirs[k], fileName))
    {
      var full := Combine(hintDirs[i], fileName);
      tried := tried + [full];
      if exists_(full) {
        FirstHitAt(Paths(hintDirs, fileName), exists_, i);
        return LoadedFrom(full);
      }
    }
    assert hintDirs[..|hintDirs|] == hintDirs;
    FirstHitNone(Paths(hintDirs, fileName), exists_);
    r := NotFound(NotFoundMessage(fileName, tried));
  }

  /** The first hit is the first index where the path exists. */
  lemma FirstHitAt(paths: seq<string>, exists_: string -> bool, i: nat)
    requires i < |paths| && exists_(paths[i]) && forall k :: 0 <= k < i ==> !exists_(paths[k])
    ensures FirstHit(paths, exists_) == Some(i)
  {
  }

  /** Without any existing path there is no hit. */
  lemma FirstHitNone(paths: seq<string>, exists_: string -> bool)
    requires forall k :: 0 <= k < |paths| ==> !exists_(paths[k])
    ensures FirstHit(paths, exists_) == None
  {
  }

  /** `LoadXceedToolkit(hintDir)`. */
  method LoadXceedToolkit(asmDir: Option<string>, codeBaseDir: Option<string>, baseDir: Option<string>, hintDir: Option<string>,
                          exists_: string -> bool)
    returns (r: LoadResult)
    ensures r == TryLoad("Xceed.Wpf.Toolkit.dll", ProbeDirs(Candidates(asmDir, codeBaseDir, baseDir, hintDir)), exists_)
  {
    var dirs := BuildProbeDirs(asmDir, codeBaseDir, baseDir, hintDir);
    r := TryLoadAssembly("Xceed.Wpf.Toolkit.dll", dirs, exists_);
  }

  /** `LoadMaterialDesign(hintDir)`: the themes library, then the colours library; a missing
      themes library throws before the colours are tried. */
  method LoadMaterialDesign(asmDir: Option<string>, codeBaseDir: Option<string>, baseDir: Option<string>, hintDir: Option<string>,
                            exists_: string -> bool)
    returns (results: seq<LoadResult>)
    ensures var dirs := ProbeDirs(Candidates(asmDir, codeBaseDir, baseDir, hintDir));
      var themes := TryLoad("MaterialDesignThemes.Wpf.dll", dirs, exists_);
      results == if themes.NotFound? then [themes] else [themes, TryLoad("MaterialDesignColors.dll", dirs, exists_)]
  {
    var dirs := BuildProbeDirs(asmDir, codeBaseDir, baseDir, hintDir);
    var themes := TryLoadAssembly("MaterialDesignThemes.Wpf.dll", dirs, exists_);
    if themes.NotFound? {
      return [themes];
    }
    var colors := TryLoadAssembly("MaterialDesignColors.dll", dirs, exists_);
    results := [themes, colors];
  }

  /** `LoadBehaviors(hintDir)`. */
  method LoadBehaviors(asmDir: Option<string>, codeBaseDir: Option<string>, baseDir: Option<string>, hintDir: Option<string>,
                       exists_: string -> bool)
    returns (r: LoadResult)
    ensures r == TryLoad("Microsoft.Xaml.Behaviors.dll", ProbeDirs(Candidates(asmDir, codeBaseDir, baseDir, hintDir)), exists_)
  {
    var dirs := BuildProbeDirs(asmDir, codeBaseDir, baseDir, hintDir);
    r := TryLoadAssembly("Microsoft.Xaml.Behaviors.dll", dirs, exists_);
  }
}
