/** Which projects a list of changed files touches, and from which directories. */
module ModifiedProjects {
  import opened Wrappers
  import opened PathNames
  import opened Projects

  // What the glob matcher answers; a malformed pattern makes its caller panic.
  datatype GlobResult = Match | NoMatch | BadPattern

  type Glob = (string, string) -> GlobResult

  function Normalized(patterns: seq<string>): seq<string> {
    seq(|patterns|, i requires 0 <= i < |patterns| => NormalizeFileName(patterns[i]))
  }

  lemma NormalizedIdempotent(patterns: seq<string>)
    ensures Normalized(Normalized(patterns)) == Normalized(patterns)
  {
    forall i | 0 <= i < |patterns|
      ensures Normalized(Normalized(patterns))[i] == Normalized(patterns)[i]
    {
      NormalizeIdempotent(patterns[i]);
    }
  }

  // The first answer other than NoMatch, in pattern order.
  function Scan(glob: Glob, patterns: seq<string>, name: string): GlobResult {
    if patterns == [] then NoMatch
    else if glob(patterns[0], name) != NoMatch then glob(patterns[0], name)
    else Scan(glob, patterns[1..], name)
  }

  ghost predicate Decides(glob: Glob, patterns: seq<string>, name: string, answer: GlobResult, i: nat) {
    && i < |patterns|
    && glob(patterns[i], name) == answer
    && forall j :: 0 <= j < i ==> glob(patterns[j], name) == NoMatch
  }

  lemma {:induction false} ScanMeans(glob: Glob, patterns: seq<string>, name: string)
    ensures Scan(glob, patterns, name) == NoMatch
       <==> forall i :: 0 <= i < |patterns| ==> glob(patterns[i], name) == NoMatch
    ensures Scan(glob, patterns, name) != NoMatch
        ==> exists i :: Decides(glob, patterns, name, Scan(glob, patterns, name), i)
    decreases patterns
  {
    if patterns != [] {
      var answer := Scan(glob, patterns, name);
      if glob(patterns[0], name) != NoMatch {
        assert Decides(glob, patterns, name, answer, 0);
      } else {
        ScanMeans(glob, patterns[1..], name);
        if answer != NoMatch {
          var i: nat :| Decides(glob, patterns[1..], name, answer, i);
          assert Decides(glob, patterns, name, answer, i + 1);
        } else {
          assert forall i :: 0 < i < |patterns| ==> glob(patterns[i], name) == glob(patterns[1..][i - 1], name);
        }
      }
    }
  }

  lemma {:induction false} ScanStops(glob: Glob, patterns: seq<string>, name: string, i: nat)
    requires i < |patterns| && forall j :: 0 <= j < i ==> glob(patterns[j], name) == NoMatch
    ensures Scan(glob, patterns, name) == Scan(glob, patterns[i..], name)
    decreases i
  {
    if i > 0 {
      ScanStops(glob, patterns[1..], name, i - 1);
      assert patterns[1..][i - 1..] == patterns[i..];
    }
  }

  // Included and not excluded; None when the matcher panics.
  function Verdict(glob: Glob, includes: seq<string>, excludes: seq<string>, file: string): Option<bool> {
    var name := NormalizeFileName(file);
    var included := Scan(glob, Normalized(includes), name);
    var excluded := Scan(glob, Normalized(excludes), name);
    if included.BadPattern? || excluded.BadPattern? then None else Some(included.Match? && excluded.NoMatch?)
  }

  ghost predicate Covered(glob: Glob, patterns: seq<string>, file: string) {
    exists i :: 0 <= i < |patterns| && glob(NormalizeFileName(patterns[i]), NormalizeFileName(file)) == Match
  }

  ghost predicate AllReadable(glob: Glob, patterns: seq<string>, file: string) {
    forall i :: 0 <= i < |patterns| ==> glob(NormalizeFileName(patterns[i]), NormalizeFileName(file)) != BadPattern
  }

  lemma ScanCovers(glob: Glob, patterns: seq<string>, file: string)
    requires AllReadable(glob, patterns, file)
    ensures Scan(glob, Normalized(patterns), NormalizeFileName(file)) != BadPattern
    ensures Scan(glob, Normalized(patterns), NormalizeFileName(file)) == Match <==> Covered(glob, patterns, file)
  {
    var name := NormalizeFileName(file);
    var normal := Normalized(patterns);
    ScanMeans(glob, normal, name);
    assert forall i :: 0 <= i < |patterns| ==> normal[i] == NormalizeFileName(patterns[i]);
    if Scan(glob, normal, name) != NoMatch {
      var i: nat :| Decides(glob, normal, name, Scan(glob, normal, name), i);
      assert normal[i] == NormalizeFileName(patterns[i]);
    }
  }

  // With readable patterns the order of the patterns does not matter.
  lemma VerdictMeans(glob: Glob, includes: seq<string>, excludes: seq<string>, file: string)
    requires AllReadable(glob, includes, file) && AllReadable(glob, excludes, file)
    ensures Verdict(glob, includes, excludes, file)
         == Some(Covered(glob, includes, file) && !Covered(glob, excludes, file))
  {
    ScanCovers(glob, includes, file);
    ScanCovers(glob, excludes, file);
  }

  // Some pattern decides, in pattern order, with the given answer.
  ghost predicate DecidedAs(glob: Glob, patterns: seq<string>, file: string, answer: GlobResult) {
    exists i: nat :: Decides(glob, Normalized(patterns), NormalizeFileName(file), answer, i)
  }

  lemma ScanDecides(glob: Glob, patterns: seq<string>, name: string, answer: GlobResult)
    requires answer != NoMatch
    ensures Scan(glob, patterns, name) == answer <==> exists i: nat :: Decides(glob, patterns, name, answer, i)
  {
    ScanMeans(glob, patterns, name);
    forall i: nat | Decides(glob, patterns, name, answer, i) ensures Scan(glob, patterns, name) == answer {
      ScanStops(glob, patterns, name, i);
    }
  }

  // With any patterns: the matcher panics exactly when the first decisive pattern of either list is malformed.
  lemma VerdictExactly(glob: Glob, includes: seq<string>, excludes: seq<string>, file: string)
    ensures var verdict := Verdict(glob, includes, excludes, file);
            var included, excluded := DecidedAs(glob, includes, file, Match), DecidedAs(glob, excludes, file, Match);
            var panics := DecidedAs(glob, includes, file, BadPattern) || DecidedAs(glob, excludes, file, BadPattern);
            && (verdict == None <==> panics)
            && (verdict == Some(true) <==> !panics && included && !excluded)
  {
    var name := NormalizeFileName(file);
    ScanDecides(glob, Normalized(includes), name, Match);
    ScanDecides(glob, Normalized(includes), name, BadPattern);
    ScanDecides(glob, Normalized(excludes), name, Match);
    ScanDecides(glob, Normalized(excludes), name, BadPattern);
  }

  // Patterns that an earlier file normalised answer as the original ones do.
  lemma NormalizedVerdict(glob: Glob, includes: seq<string>, excludes: seq<string>, file: string)
    ensures Verdict(glob, Normalized(includes), Normalized(excludes), file) == Verdict(glob, includes, excludes, file)
  {
    NormalizedIdempotent(includes);
    NormalizedIdempotent(excludes);
  }

  method NormalizeInPlace(patterns: array<string>)
    modifies patterns
    ensures patterns[..] == Normalized(old(patterns[..]))
  {
    var i := 0;
    while i < patterns.Length
      invariant 0 <= i <= patterns.Length
      invariant forall k :: 0 <= k < i ==> patterns[k] == NormalizeFileName(old(patterns[k]))
      invariant forall k :: i <= k < patterns.Length ==> patterns[k] == old(patterns[k])
    {
      patterns[i] := NormalizeFileName(patterns[i]);
      i := i + 1;
    }
  }

  method FirstAnswer(glob: Glob, patterns: array<string>, name: string) returns (answer: GlobResult)
    ensures answer == Scan(glob, patterns[..], name)
  {
    var i := 0;
    while i < patterns.Length
      invariant 0 <= i <= patterns.Length
      invariant forall j :: 0 <= j < i ==> glob(patterns[j], name) == NoMatch
    {
      answer := glob(patterns[i], name);
      if answer != NoMatch {
        ScanStops(glob, patterns[..], name, i);
        return;
      }
      i := i + 1;
    }
    ScanMeans(glob, patterns[..], name);
    answer := NoMatch;
  }

  // Both pattern lists are overwritten by their normal forms, whether or not they share storage.
  method MatchIncludeExcludePatternsToFile(glob: Glob, fileToMatch: string,
                                           includePatterns: array<string>, excludePatterns: array<string>)
    returns (matching: Option<bool>)
    modifies includePatterns, excludePatterns
    ensures includePatterns[..] == Normalized(old(includePatterns[..]))
    ensures excludePatterns[..] == Normalized(old(excludePatterns[..]))
    ensures matching == Verdict(glob, old(includePatterns[..]), old(excludePatterns[..]), fileToMatch)
  {
    var name := NormalizeFileName(fileToMatch);
    NormalizedIdempotent(includePatterns[..]);
    NormalizeInPlace(includePatterns);
    NormalizeInPlace(excludePatterns);
    var included := FirstAnswer(glob, includePatterns, name);
    if included == BadPattern {
      return None;
    }
    var excluded := FirstAnswer(glob, excludePatterns, name);
    if excluded == BadPattern {
      return None;
    }
    matching := Some(included == Match && excluded != Match);
  }

  // A project's patterns: those starting with a dot are relative to its directory.

  function Resolved(dir: string, patterns: seq<string>): seq<string> {
    if patterns == [] then []
    else
      var pattern := patterns[|patterns| - 1];
      Resolved(dir, patterns[..|patterns| - 1])
      + [if pattern != "" && pattern[0] == '.' then JoinPath([dir, pattern]) else pattern]
  }

  function IncludesOf(project: Project): seq<string> {
    Resolved(project.dir, project.includePatterns)
    + [if project.terragrunt then JoinPath([project.dir, "*"]) else JoinPath([project.dir, "**", "*"])]
  }

  function ExcludesOf(project: Project): seq<string> {
    Resolved(project.dir, project.excludePatterns)
  }

  // The configured patterns in their order, each joined to the project's directory exactly if it starts with a dot,
  // and after the includes the project's own pattern: everything below its directory or, for terragrunt, in it.
  lemma PatternsMean(project: Project)
    ensures var dir, includes, excludes := project.dir, IncludesOf(project), ExcludesOf(project);
            && |includes| == |project.includePatterns| + 1 && |excludes| == |project.excludePatterns|
            && (forall i :: 0 <= i < |project.includePatterns| ==>
                  includes[i] == if "." <= project.includePatterns[i]
                                 then JoinPath([dir, project.includePatterns[i]]) else project.includePatterns[i])
            && (forall i :: 0 <= i < |excludes| ==>
                  excludes[i] == if "." <= project.excludePatterns[i]
                                 then JoinPath([dir, project.excludePatterns[i]]) else project.excludePatterns[i])
            && includes[|includes| - 1] == Clean((if dir == "" then "" else dir + "/") +
                                                 (if project.terragrunt then "*" else "**/*"))
  {
    ResolvedMeans(project.dir, project.includePatterns);
    ResolvedMeans(project.dir, project.excludePatterns);
    JoinPathMeans(project.dir, "*");
    JoinPathOfThree(project.dir, "**", "*");
    assert "**" + "/" + "*" == "**/*";
    assert "" + "*" == "*" && "" + "**/*" == "**/*";
  }

  lemma StartsWithDot(pattern: string)
    ensures "." <= pattern <==> pattern != "" && pattern[0] == '.'
  {
    assert pattern != "" ==> pattern[..1] == [pattern[0]];
  }

  lemma {:induction false} ResolvedMeans(dir: string, patterns: seq<string>)
    ensures |Resolved(dir, patterns)| == |patterns|
    ensures forall i :: 0 <= i < |patterns| ==>
      Resolved(dir, patterns)[i] == if "." <= patterns[i] then JoinPath([dir, patterns[i]]) else patterns[i]
    decreases |patterns|
  {
    if patterns != [] {
      var init, last := patterns[..|patterns| - 1], patterns[|patterns| - 1];
      ResolvedMeans(dir, init);
      StartsWithDot(last);
      var resolved := if "." <= last then JoinPath([dir, last]) else last;
      assert Resolved(dir, patterns) == Resolved(dir, init) + [resolved];
      assert forall i :: 0 <= i < |init| ==> patterns[i] == init[i];
    }
  }

  // What a project's patterns say of each file.
  type Judge = string -> Option<bool>

  type Judges = Project -> Judge

  function JudgesOf(glob: Glob): Judges {
    project => file => Verdict(glob, IncludesOf(project), ExcludesOf(project), file)
  }

  ghost predicate JudgeBy(judge: Judge, glob: Glob, includes: seq<string>, excludes: seq<string>) {
    forall file {:trigger Verdict(glob, includes, excludes, file)} ::
      judge(file) == Verdict(glob, includes, excludes, file)
  }

  ghost predicate JudgesBy(judges: Judges, glob: Glob) {
    forall project {:trigger IncludesOf(project)} ::
      JudgeBy(judges(project), glob, IncludesOf(project), ExcludesOf(project))
  }

  predicate Touches(judge: Judge, file: string) {
    judge(file) == Some(true)
  }

  predicate Touched(judge: Judge, files: seq<string>) {
    exists i :: 0 <= i < |files| && Touches(judge, files[i])
  }

  ghost predicate Panics(judge: Judge, files: seq<string>) {
    exists i :: 0 <= i < |files| && judge(files[i]) == None
  }

  // The directories of the touching files, each once.
  function SourceDirs(judge: Judge, files: seq<string>): seq<string> {
    if files == [] then []
    else
      var file := files[|files| - 1];
      var before := SourceDirs(judge, files[..|files| - 1]);
      if Touches(judge, file) && Dir(file) !in before then before + [Dir(file)] else before
  }

  ghost predicate TouchedFrom(judge: Judge, files: seq<string>, dir: string) {
    exists i :: 0 <= i < |files| && Touches(judge, files[i]) && Dir(files[i]) == dir
  }

  lemma TouchedFromLonger(judge: Judge, files: seq<string>, file: string, dir: string)
    ensures TouchedFrom(judge, files + [file], dir)
       <==> TouchedFrom(judge, files, dir) || (Touches(judge, file) && Dir(file) == dir)
  {
    var more := files + [file];
    assert more[|files|] == file;
    assert forall i :: 0 <= i < |files| ==> more[i] == files[i];
    if TouchedFrom(judge, files, dir) {
      var i :| 0 <= i < |files| && Touches(judge, files[i]) && Dir(files[i]) == dir;
      assert more[i] == files[i];
    }
  }

  // Exactly the directories of the touching files, without repeats, ...
  lemma {:induction false} SourceDirsMeans(judge: Judge, files: seq<string>)
    ensures forall dir :: dir in SourceDirs(judge, files) <==> TouchedFrom(judge, files, dir)
    ensures forall a, b :: 0 <= a < b < |SourceDirs(judge, files)|
              ==> SourceDirs(judge, files)[a] != SourceDirs(judge, files)[b]
    decreases |files|
  {
    if files != [] {
      var before, file := files[..|files| - 1], files[|files| - 1];
      assert files == before + [file];
      SourceDirsMeans(judge, before);
      forall dir
        ensures dir in SourceDirs(judge, files) <==> TouchedFrom(judge, files, dir)
      {
        TouchedFromLonger(judge, before, file, dir);
      }
    }
  }

  // ... in the order of first sight: at any moment, what has been seen so far comes first.
  lemma {:induction false} SourceDirsGrow(judge: Judge, files: seq<string>, k: nat)
    requires k <= |files|
    ensures SourceDirs(judge, files[..k]) <= SourceDirs(judge, files)
    decreases |files|
  {
    if k < |files| {
      SourceDirsGrow(judge, files[..|files| - 1], k);
      assert files[..|files| - 1][..k] == files[..k];
    } else {
      assert files[..k] == files;
    }
  }

  lemma FirstSightOrder(judge: Judge, files: seq<string>, a: nat, b: nat, j: nat)
    requires a < b < |SourceDirs(judge, files)|
    requires j < |files| && Touches(judge, files[j])
    requires Dir(files[j]) == SourceDirs(judge, files)[b]
    ensures TouchedFrom(judge, files[..j], SourceDirs(judge, files)[a])
  {
    var dirs, seen := SourceDirs(judge, files), SourceDirs(judge, files[..j + 1]);
    SourceDirsGrow(judge, files, j + 1);
    SourceDirsGrow(judge, files, j);
    SourceDirsMeans(judge, files);
    SourceDirsMeans(judge, files[..j]);
    SourceDirsMeans(judge, files[..j + 1]);
    assert files[..j + 1][j] == files[j];
    assert TouchedFrom(judge, files[..j + 1], dirs[b]);
    assert dirs[b] in seen;
    assert b < |seen|;
    assert files[..j + 1][..j] == files[..j];
    assert |SourceDirs(judge, files[..j])| >= |seen| - 1;
    assert SourceDirs(judge, files[..j])[a] == dirs[a];
  }

  // The touched projects, in configuration order.
  function Modified(judges: Judges, projects: seq<Project>, files: seq<string>): seq<Project> {
    if projects == [] then []
    else
      var project := projects[|projects| - 1];
      Modified(judges, projects[..|projects| - 1], files)
      + (if Touched(judges(project), files) then [project] else [])
  }

  // The places in the configuration of the picked entries.
  ghost predicate ArePlaces(projects: seq<Project>, picks: seq<bool>, selected: seq<Project>, places: seq<nat>)
    requires |picks| == |projects|
  {
    && |places| == |selected|
    && (forall k :: 0 <= k < |places| ==> places[k] < |projects| && projects[places[k]] == selected[k])
    && (forall k, l :: 0 <= k < l < |places| ==> places[k] < places[l])
    && (forall i :: 0 <= i < |projects| ==> (i in places <==> picks[i]))
  }

  lemma OneMorePlace(projects: seq<Project>, picks: seq<bool>, selected: seq<Project>, places: seq<nat>,
                     project: Project, pick: bool)
    requires |picks| == |projects| && ArePlaces(projects, picks, selected, places)
    ensures ArePlaces(projects + [project], picks + [pick], selected + (if pick then [project] else []),
                      places + (if pick then [|projects|] else []))
  {
    assert |projects| !in places;
    forall i | 0 <= i <= |projects|
      ensures i in places + (if pick then [|projects|] else []) <==> (picks + [pick])[i]
    {
      assert i < |projects| ==> (i in places <==> picks[i]);
    }
  }

  lemma {:induction false} PlacesExist(judges: Judges, projects: seq<Project>, files: seq<string>)
    returns (picks: seq<bool>, places: seq<nat>)
    ensures |picks| == |projects| && ArePlaces(projects, picks, Modified(judges, projects, files), places)
    ensures forall i :: 0 <= i < |projects| ==> picks[i] == Touched(judges(projects[i]), files)
    decreases |projects|
  {
    if projects == [] {
      picks, places := [], [];
    } else {
      var init, project := projects[..|projects| - 1], projects[|projects| - 1];
      picks, places := PlacesExist(judges, init, files);
      var pick := Touched(judges(project), files);
      OneMorePlace(init, picks, Modified(judges, init, files), places, project, pick);
      assert projects == init + [project];
      picks, places := picks + [pick], places + if pick then [|init|] else [];
    }
  }

  // Every touched configuration entry once, in configuration order, and no other.
  lemma ModifiedMeans(judges: Judges, projects: seq<Project>, files: seq<string>) returns (places: seq<nat>)
    ensures |places| == |Modified(judges, projects, files)|
    ensures forall k :: 0 <= k < |places| ==>
      places[k] < |projects| && projects[places[k]] == Modified(judges, projects, files)[k]
    ensures forall k, l :: 0 <= k < l < |places| ==> places[k] < places[l]
    ensures forall i :: 0 <= i < |projects| ==> (i in places <==> Touched(judges(projects[i]), files))
  {
    var picks;
    picks, places := PlacesExist(judges, projects, files);
  }

  lemma TouchedMeans(judge: Judge, files: seq<string>)
    ensures Touched(judge, files) <==> SourceDirs(judge, files) != []
  {
    SourceDirsMeans(judge, files);
    var dirs := SourceDirs(judge, files);
    if Touched(judge, files) {
      var i :| 0 <= i < |files| && Touches(judge, files[i]);
      assert TouchedFrom(judge, files, Dir(files[i]));
      assert Dir(files[i]) in dirs;
    }
    if dirs != [] {
      assert dirs[0] in dirs;
    }
  }

  // Impacting locations by project name; a repeated name keeps its last entry.
  function Locations(judges: Judges, projects: seq<Project>, files: seq<string>): map<string, seq<string>> {
    if projects == [] then map[]
    else
      var project := projects[|projects| - 1];
      Locations(judges, projects[..|projects| - 1], files)[project.name := SourceDirs(judges(project), files)]
  }

  // With unique names, every project has its own entry, empty exactly when it is not modified.
  lemma {:induction false} LocationsMeans(judges: Judges, projects: seq<Project>, files: seq<string>, i: nat)
    requires i < |projects|
    requires forall j :: i < j < |projects| ==> projects[j].name != projects[i].name
    ensures projects[i].name in Locations(judges, projects, files)
    ensures Locations(judges, projects, files)[projects[i].name] == SourceDirs(judges(projects[i]), files)
    ensures Locations(judges, projects, files)[projects[i].name] == [] <==> !Touched(judges(projects[i]), files)
    decreases |projects|
  {
    TouchedMeans(judges(projects[i]), files);
    var last := |projects| - 1;
    if i < last {
      assert projects[..last][i] == projects[i];
      LocationsMeans(judges, projects[..last], files, i);
    }
  }

  datatype Selection = Selection(projects: seq<Project>, locations: map<string, seq<string>>)

  method ResolvePatterns(dir: string, patterns: seq<string>) returns (resolved: seq<string>)
    ensures resolved == Resolved(dir, patterns)
  {
    resolved := [];
    for i := 0 to |patterns|
      invariant resolved == Resolved(dir, patterns[..i])
    {
      assert patterns[..i + 1][..i] == patterns[..i];
      var pattern := patterns[i];
      if pattern != "" && pattern[0] == '.' {
        resolved := resolved + [JoinPath([dir, pattern])];
      } else {
        resolved := resolved + [pattern];
      }
    }
    assert patterns[..|patterns|] == patterns;
  }

  method PatternArrays(project: Project) returns (includePatterns: array<string>, excludePatterns: array<string>)
    ensures fresh(includePatterns) && fresh(excludePatterns)
    ensures includePatterns[..] == IncludesOf(project) && excludePatterns[..] == ExcludesOf(project)
  {
    var includes := ResolvePatterns(project.dir, project.includePatterns);
    var excludes := ResolvePatterns(project.dir, project.excludePatterns);
    if project.terragrunt {
      includes := includes + [JoinPath([project.dir, "*"])];
    } else {
      includes := includes + [JoinPath([project.dir, "**", "*"])];
    }
    includePatterns := new string[|includes|](i requires 0 <= i < |includes| => includes[i]);
    excludePatterns := new string[|excludes|](i requires 0 <= i < |excludes| => excludes[i]);
    assert includePatterns[..] == includes && excludePatterns[..] == excludes;
  }

  // The arrays go on answering as the judge does, although each file overwrites them.
  method MatchAgain(glob: Glob, file: string, includePatterns: array<string>, excludePatterns: array<string>,
                    ghost judge: Judge)
    returns (matching: Option<bool>)
    requires JudgeBy(judge, glob, includePatterns[..], excludePatterns[..])
    modifies includePatterns, excludePatterns
    ensures JudgeBy(judge, glob, includePatterns[..], excludePatterns[..])
    ensures matching == judge(file)
  {
    ghost var includes, excludes := includePatterns[..], excludePatterns[..];
    matching := MatchIncludeExcludePatternsToFile(glob, file, includePatterns, excludePatterns);
    assert matching == Verdict(glob, includes, excludes, file);
    forall f ensures judge(f) == Verdict(glob, Normalized(includes), Normalized(excludes), f) {
      NormalizedVerdict(glob, includes, excludes, f);
    }
  }

  lemma OneMoreFile(judge: Judge, files: seq<string>, i: nat)
    requires i < |files|
    ensures Touched(judge, files[..i + 1])
       <==> Touched(judge, files[..i]) || Touches(judge, files[i])
    ensures SourceDirs(judge, files[..i + 1]) ==
      var before := SourceDirs(judge, files[..i]);
      if Touches(judge, files[i]) && Dir(files[i]) !in before then before + [Dir(files[i])] else before
  {
    var more := files[..i + 1];
    assert more[..i] == files[..i] && more[i] == files[i];
    assert forall j :: 0 <= j < i ==> more[j] == files[..i][j];
    if Touched(judge, files[..i]) {
      var j :| 0 <= j < i && Touches(judge, files[..i][j]);
      assert Touches(judge, more[j]);
    }
  }

  // One project's patterns against all changed files; None when the matcher panics.
  method SourceChanges(glob: Glob, changedFiles: seq<string>, includePatterns: array<string>,
                       excludePatterns: array<string>, ghost judge: Judge)
    returns (isProjectAdded: bool, sourceChanges: Option<seq<string>>)
    requires JudgeBy(judge, glob, includePatterns[..], excludePatterns[..])
    modifies includePatterns, excludePatterns
    ensures sourceChanges == None <==> Panics(judge, changedFiles)
    ensures sourceChanges.Some? ==> isProjectAdded == Touched(judge, changedFiles)
    ensures sourceChanges.Some? ==> sourceChanges.value == SourceDirs(judge, changedFiles)
  {
    var dirs := [];
    isProjectAdded := false;
    for i := 0 to |changedFiles|
      invariant JudgeBy(judge, glob, includePatterns[..], excludePatterns[..])
      invariant forall j :: 0 <= j < i ==> judge(changedFiles[j]) != None
      invariant isProjectAdded == Touched(judge, changedFiles[..i])
      invariant dirs == SourceDirs(judge, changedFiles[..i])
    {
      var matching := MatchAgain(glob, changedFiles[i], includePatterns, excludePatterns, judge);
      if matching == None {
        return isProjectAdded, None;
      }
      OneMoreFile(judge, changedFiles, i);
      if matching.value {
        isProjectAdded := true;
        if Dir(changedFiles[i]) !in dirs {
          dirs := dirs + [Dir(changedFiles[i])];
        }
      }
    }
    assert changedFiles[..|changedFiles|] == changedFiles;
    sourceChanges := Some(dirs);
  }

  method SourceChangesForProject(glob: Glob, project: Project, changedFiles: seq<string>, ghost judges: Judges)
    returns (isProjectAdded: bool, sourceChanges: Option<seq<string>>)
    requires JudgesBy(judges, glob)
    ensures sourceChanges == None <==> Panics(judges(project), changedFiles)
    ensures sourceChanges.Some? ==> isProjectAdded == Touched(judges(project), changedFiles)
    ensures sourceChanges.Some? ==> sourceChanges.value == SourceDirs(judges(project), changedFiles)
  {
    var includePatterns, excludePatterns := PatternArrays(project);
    isProjectAdded, sourceChanges :=
      SourceChanges(glob, changedFiles, includePatterns, excludePatterns, judges(project));
  }

  lemma OneMoreProject(judges: Judges, projects: seq<Project>, files: seq<string>, i: nat)
    requires i < |projects|
    ensures Modified(judges, projects[..i + 1], files)
         == Modified(judges, projects[..i], files) + if Touched(judges(projects[i]), files) then [projects[i]] else []
    ensures Locations(judges, projects[..i + 1], files)
         == Locations(judges, projects[..i], files)[projects[i].name := SourceDirs(judges(projects[i]), files)]
  {
    assert projects[..i + 1][..i] == projects[..i];
  }

  // None when the matcher panics.
  method SelectProjects(glob: Glob, projects: seq<Project>, changedFiles: seq<string>, ghost judges: Judges)
    returns (selection: Option<Selection>)
    requires JudgesBy(judges, glob)
    ensures selection == None <==> exists i :: 0 <= i < |projects| && Panics(judges(projects[i]), changedFiles)
    ensures selection.Some? ==>
      && selection.value.projects == Modified(judges, projects, changedFiles)
      && selection.value.locations == Locations(judges, projects, changedFiles)
  {
    var result := [];
    var mapping := map[];
    for i := 0 to |projects|
      invariant forall j :: 0 <= j < i ==> !Panics(judges(projects[j]), changedFiles)
      invariant result == Modified(judges, projects[..i], changedFiles)
      invariant mapping == Locations(judges, projects[..i], changedFiles)
    {
      OneMoreProject(judges, projects, changedFiles, i);
      var project := projects[i];
      var isProjectAdded, sourceChanges := SourceChangesForProject(glob, project, changedFiles, judges);
      if sourceChanges == None {
        return None;
      }
      if isProjectAdded {
        result := result + [project];
      }
      mapping := mapping[project.name := sourceChanges.value];
    }
    assert projects[..|projects|] == projects;
    selection := Some(Selection(result, mapping));
  }

  // The project's patterns include the file and do not exclude it.
  ghost predicate Includes(glob: Glob, project: Project, file: string) {
    Covered(glob, IncludesOf(project), file) && !Covered(glob, ExcludesOf(project), file)
  }

  ghost predicate Readable(glob: Glob, project: Project, file: string) {
    AllReadable(glob, IncludesOf(project), file) && AllReadable(glob, ExcludesOf(project), file)
  }

  ghost predicate JudgesRightly(judges: Judges, glob: Glob, project: Project, files: seq<string>) {
    forall k :: 0 <= k < |files| ==> judges(project)(files[k]) == Some(Includes(glob, project, files[k]))
  }

  lemma ReadableJudges(judges: Judges, glob: Glob, project: Project, files: seq<string>)
    requires JudgesBy(judges, glob) && forall k :: 0 <= k < |files| ==> Readable(glob, project, files[k])
    ensures JudgesRightly(judges, glob, project, files)
  {
    forall k | 0 <= k < |files| ensures judges(project)(files[k]) == Some(Includes(glob, project, files[k])) {
      VerdictMeans(glob, IncludesOf(project), ExcludesOf(project), files[k]);
    }
  }

  lemma RightlyTouched(judges: Judges, glob: Glob, project: Project, files: seq<string>)
    requires JudgesRightly(judges, glob, project, files)
    ensures Touched(judges(project), files) <==> exists k :: 0 <= k < |files| && Includes(glob, project, files[k])
    ensures forall dir :: dir in SourceDirs(judges(project), files) <==>
      exists k :: 0 <= k < |files| && Includes(glob, project, files[k]) && Dir(files[k]) == dir
  {
    var judge := judges(project);
    forall k | 0 <= k < |files| ensures Touches(judge, files[k]) <==> Includes(glob, project, files[k]) {}
    SourceDirsMeans(judge, files);
    forall dir
      ensures TouchedFrom(judge, files, dir) <==>
              exists k :: 0 <= k < |files| && Includes(glob, project, files[k]) && Dir(files[k]) == dir
    {}
  }

  lemma RightlySelected(judges: Judges, glob: Glob, projects: seq<Project>, files: seq<string>)
    returns (places: seq<nat>)
    requires forall i :: 0 <= i < |projects| ==> JudgesRightly(judges, glob, projects[i], files)
    ensures IsSelection(glob, projects, files, Modified(judges, projects, files), Locations(judges, projects, files),
      places)
  {
    places := ModifiedMeans(judges, projects, files);
    forall i | 0 <= i < |projects| {
      RightlyTouched(judges, glob, projects[i], files);
    }
    forall i | 0 <= i < |projects| && forall j :: i < j < |projects| ==> projects[j].name != projects[i].name
      ensures projects[i].name in Locations(judges, projects, files)
      ensures Locations(judges, projects, files)[projects[i].name] == SourceDirs(judges(projects[i]), files)
    {
      LocationsMeans(judges, projects, files, i);
      SourceDirsMeans(judges(projects[i]), files);
    }
    forall i | 0 <= i < |projects| ensures NoDirTwice(SourceDirs(judges(projects[i]), files)) {
      SourceDirsMeans(judges(projects[i]), files);
    }
  }

  ghost predicate NoDirTwice(dirs: seq<string>) {
    forall a, b :: 0 <= a < b < |dirs| ==> dirs[a] != dirs[b]
  }

  // The selected projects are, in configuration order, the entries at the given places: those for which some changed
  // file is covered by an include and by no exclude; and the locations of a name are those of its last entry, the
  // directories of exactly these files, each once.
  ghost predicate IsSelection(glob: Glob, projects: seq<Project>, files: seq<string>, selected: seq<Project>,
                              locations: map<string, seq<string>>, places: seq<nat>)
  {
    && |places| == |selected|
    && (forall k :: 0 <= k < |places| ==> places[k] < |projects| && projects[places[k]] == selected[k])
    && (forall k, l :: 0 <= k < l < |places| ==> places[k] < places[l])
    && (forall i :: 0 <= i < |projects| ==>
          (i in places <==> exists k :: 0 <= k < |files| && Covered(glob, IncludesOf(projects[i]), files[k])
                                        && !Covered(glob, ExcludesOf(projects[i]), files[k])))
    && (forall i :: 0 <= i < |projects| && (forall j :: i < j < |projects| ==> projects[j].name != projects[i].name) ==>
          && projects[i].name in locations && NoDirTwice(locations[projects[i].name])
          && forall dir :: dir in locations[projects[i].name] <==>
               exists k :: 0 <= k < |files| && Covered(glob, IncludesOf(projects[i]), files[k])
                           && !Covered(glob, ExcludesOf(projects[i]), files[k]) && Dir(files[k]) == dir)
  }

  // The first decisive pattern of the includes or of the excludes is malformed.
  ghost predicate MeetsBadPattern(glob: Glob, project: Project, file: string) {
    DecidedAs(glob, IncludesOf(project), file, BadPattern) || DecidedAs(glob, ExcludesOf(project), file, BadPattern)
  }

  lemma PanicsMeans(judges: Judges, glob: Glob, project: Project, files: seq<string>)
    requires JudgesBy(judges, glob)
    ensures Panics(judges(project), files) <==> exists k :: 0 <= k < |files| && MeetsBadPattern(glob, project, files[k])
  {
    forall k | 0 <= k < |files|
      ensures judges(project)(files[k]) == None <==> MeetsBadPattern(glob, project, files[k]) {
      VerdictExactly(glob, IncludesOf(project), ExcludesOf(project), files[k]);
    }
  }

  method SelectRightly(glob: Glob, projects: seq<Project>, changedFiles: seq<string>, ghost judges: Judges)
    returns (selection: Option<Selection>, ghost places: seq<nat>)
    requires JudgesBy(judges, glob)
    ensures selection == None <==> exists i, k ::
      0 <= i < |projects| && 0 <= k < |changedFiles| && MeetsBadPattern(glob, projects[i], changedFiles[k])
    ensures selection.Some? ==>
      && selection.value.projects == Modified(judges, projects, changedFiles)
      && selection.value.locations == Locations(judges, projects, changedFiles)
    ensures (forall i, k :: 0 <= i < |projects| && 0 <= k < |changedFiles| ==>
               Readable(glob, projects[i], changedFiles[k])) ==>
      && selection.Some?
      && IsSelection(glob, projects, changedFiles, selection.value.projects, selection.value.locations, places)
  {
    selection := SelectProjects(glob, projects, changedFiles, judges);
    forall i | 0 <= i < |projects| {
      PanicsMeans(judges, glob, projects[i], changedFiles);
    }
    places := [];
    if forall i, k :: 0 <= i < |projects| && 0 <= k < |changedFiles| ==> Readable(glob, projects[i], changedFiles[k]) {
      forall i | 0 <= i < |projects| ensures JudgesRightly(judges, glob, projects[i], changedFiles) {
        ReadableJudges(judges, glob, projects[i], changedFiles);
      }
      places := RightlySelected(judges, glob, projects, changedFiles);
    }
  }

  method GetModifiedProjects(glob: Glob, projects: seq<Project>, changedFiles: seq<string>)
    returns (selection: Option<Selection>, ghost places: seq<nat>)
    ensures selection == None <==> exists i, k ::
      0 <= i < |projects| && 0 <= k < |changedFiles| && MeetsBadPattern(glob, projects[i], changedFiles[k])
    ensures selection.Some? ==>
      && selection.value.projects == Modified(JudgesOf(glob), projects, changedFiles)
      && selection.value.locations == Locations(JudgesOf(glob), projects, changedFiles)
    ensures (forall i, k :: 0 <= i < |projects| && 0 <= k < |changedFiles| ==>
               Readable(glob, projects[i], changedFiles[k])) ==>
      && selection.Some?
      && IsSelection(glob, projects, changedFiles, selection.value.projects, selection.value.locations, places)
  {
    selection, places := SelectRightly(glob, projects, changedFiles, JudgesOf(glob));
  }
}
