/** Slash-separated paths in canonical form: what the standard path functions of the source compute. */
module PathNames {

  function Split(s: string): (r: seq<string>)
    ensures |r| > 0
  {
    if s == "" then [""]
    else if s[0] == '/' then [""] + Split(s[1..])
    else
      var r := Split(s[1..]);
      [[s[0]] + r[0]] + r[1..]
  }

  function Join(segments: seq<string>): string {
    if segments == [] then ""
    else if |segments| == 1 then segments[0]
    else segments[0] + "/" + Join(segments[1..])
  }

  // The stack of segments after reading one more.
  function Push(rooted: bool, stack: seq<string>, segment: string): seq<string> {
    if segment == "" || segment == "." then stack
    else if segment != ".." then stack + [segment]
    else if stack != [] && stack[|stack| - 1] != ".." then stack[..|stack| - 1]
    else if rooted then stack
    else stack + [".."]
  }

  function Reduce(rooted: bool, stack: seq<string>, segments: seq<string>): seq<string>
    decreases segments
  {
    if segments == [] then stack else Reduce(rooted, Push(rooted, stack, segments[0]), segments[1..])
  }

  function Clean(path: string): string {
    if path == "" then "."
    else
      var rooted := path[0] == '/';
      var segments := Reduce(rooted, [], Split(path));
      if rooted then "/" + Join(segments) else if segments == [] then "." else Join(segments)
  }

  // Joining skips leading empty elements; without any other the result is empty.
  function JoinPath(elements: seq<string>): string {
    if elements == [] then ""
    else if elements[0] == "" then JoinPath(elements[1..])
    else Clean(Join(elements))
  }

  function Abs(path: string): string
    requires path != "" && path[0] == '/'
  {
    Clean(path)
  }

  // The name as an absolute path.
  function NormalizeFileName(fileName: string): string {
    RootedJoin(fileName);
    Abs(JoinPath(["/", fileName]))
  }

  // Everything up to the last slash, in canonical form.
  function Dir(path: string): string {
    Clean(UpToLastSlash(path))
  }

  function UpToLastSlash(path: string): string {
    if path == "" then ""
    else if path[|path| - 1] == '/' then path
    else UpToLastSlash(path[..|path| - 1])
  }

  lemma RootedJoin(fileName: string)
    ensures JoinPath(["/", fileName]) == Clean("//" + fileName)
    ensures JoinPath(["/", fileName]) != "" && JoinPath(["/", fileName])[0] == '/'
  {
    assert ["/", fileName][1..] == [fileName];
    assert Join(["/", fileName]) == "/" + "/" + Join([fileName]);
    assert "/" + "/" + fileName == "//" + fileName;
  }

  // Segments without slashes survive joining and splitting.

  ghost predicate Plain(segment: string) {
    '/' !in segment
  }

  lemma {:induction false} SplitOfPlain(segment: string, rest: string)
    requires Plain(segment)
    ensures Split(segment) == [segment]
    ensures Split(segment + "/" + rest) == [segment] + Split(rest)
    decreases |segment|
  {
    var whole := segment + "/" + rest;
    if segment == "" {
      assert whole[1..] == rest;
    } else {
      assert segment[0] in segment;
      assert forall c :: c in segment[1..] ==> c in segment;
      SplitOfPlain(segment[1..], rest);
      assert whole[1..] == segment[1..] + "/" + rest;
      assert [segment[0]] + segment[1..] == segment;
    }
  }

  lemma {:induction false} SplitOfJoin(segments: seq<string>)
    requires segments != [] && forall s :: s in segments ==> Plain(s)
    ensures Split(Join(segments)) == segments
    decreases |segments|
  {
    if |segments| == 1 {
      SplitOfPlain(segments[0], "");
    } else {
      SplitOfPlain(segments[0], Join(segments[1..]));
      SplitOfJoin(segments[1..]);
    }
  }

  lemma {:induction false} SplitIsPlain(s: string)
    ensures forall t :: t in Split(s) ==> Plain(t)
    decreases |s|
  {
    if s != "" {
      var r := Split(s[1..]);
      SplitIsPlain(s[1..]);
      forall t | t in Split(s) ensures Plain(t) {
        if s[0] == '/' {
          assert t == "" || t in r;
        } else {
          assert t == [s[0]] + r[0] || t in r[1..];
          assert r[0] in r;
        }
      }
    }
  }

  // Splitting loses nothing: joining the segments gives the string back.
  lemma {:induction false} JoinOfSplit(s: string)
    ensures Join(Split(s)) == s
    decreases |s|
  {
    if s != "" {
      var r := Split(s[1..]);
      JoinOfSplit(s[1..]);
      assert s == [s[0]] + s[1..];
      if s[0] == '/' {
        assert ([""] + r)[1..] == r;
      } else {
        var whole := [[s[0]] + r[0]] + r[1..];
        assert whole[1..] == r[1..];
      }
    }
  }

  // What reading segments means: empty and dot segments vanish, a name followed by dot-dot vanishes with it, and
  // dot-dot at the root vanishes.

  lemma {:induction false} ReduceAppend(rooted: bool, stack: seq<string>, a: seq<string>, b: seq<string>)
    ensures Reduce(rooted, stack, a + b) == Reduce(rooted, Reduce(rooted, stack, a), b)
    decreases a
  {
    if a == [] {
      assert a + b == b;
    } else {
      assert (a + b)[0] == a[0] && (a + b)[1..] == a[1..] + b;
      ReduceAppend(rooted, Push(rooted, stack, a[0]), a[1..], b);
    }
  }

  lemma ReduceOne(rooted: bool, stack: seq<string>, segment: string)
    ensures Reduce(rooted, stack, [segment]) == Push(rooted, stack, segment)
  {
    assert [segment][1..] == [];
  }

  lemma DotVanishes(rooted: bool, a: seq<string>, dot: string, b: seq<string>)
    requires dot == "" || dot == "."
    ensures Reduce(rooted, [], a + [dot] + b) == Reduce(rooted, [], a + b)
  {
    var stack := Reduce(rooted, [], a);
    ReduceAppend(rooted, [], a, b);
    ReduceAppend(rooted, [], a + [dot], b);
    ReduceAppend(rooted, [], a, [dot]);
    ReduceOne(rooted, stack, dot);
  }

  lemma UpCancels(rooted: bool, a: seq<string>, name: string, b: seq<string>)
    requires name != "" && name != "." && name != ".."
    ensures Reduce(rooted, [], a + [name, ".."] + b) == Reduce(rooted, [], a + b)
  {
    var stack := Reduce(rooted, [], a);
    ReduceAppend(rooted, [], a, b);
    ReduceAppend(rooted, [], a + [name, ".."], b);
    ReduceAppend(rooted, [], a, [name, ".."]);
    ReduceAppend(rooted, stack, [name], [".."]);
    assert [name] + [".."] == [name, ".."];
    ReduceOne(rooted, stack, name);
    ReduceOne(rooted, stack + [name], "..");
    assert (stack + [name])[..|stack|] == stack;
  }

  lemma UpAtRoot(b: seq<string>)
    ensures Reduce(true, [], [".."] + b) == Reduce(true, [], b)
  {
    ReduceAppend(true, [], [".."], b);
    ReduceOne(true, [], "..");
  }

  // Reduced segments: no empty or dot segment, and dot-dot only at the front of a relative path.
  ghost predicate Reduced(rooted: bool, stack: seq<string>) {
    && (forall i :: 0 <= i < |stack| ==> Plain(stack[i]) && stack[i] != "" && stack[i] != ".")
    && (forall i :: 0 <= i < |stack| && stack[i] == ".." ==> !rooted)
    && (forall i :: 0 < i < |stack| && stack[i] == ".." ==> stack[i - 1] == "..")
  }

  lemma PushKeepsReduced(rooted: bool, stack: seq<string>, segment: string)
    requires Reduced(rooted, stack) && Plain(segment)
    ensures Reduced(rooted, Push(rooted, stack, segment))
  {}

  lemma {:induction false} ReduceIsReduced(rooted: bool, stack: seq<string>, segments: seq<string>)
    requires Reduced(rooted, stack) && forall s :: s in segments ==> Plain(s)
    ensures Reduced(rooted, Reduce(rooted, stack, segments))
    decreases segments
  {
    if segments != [] {
      PushKeepsReduced(rooted, stack, segments[0]);
      ReduceIsReduced(rooted, Push(rooted, stack, segments[0]), segments[1..]);
    }
  }

  // Reading reduced segments again changes nothing.
  lemma {:induction false} ReduceOfReduced(rooted: bool, stack: seq<string>, segments: seq<string>)
    requires Reduced(rooted, stack + segments)
    ensures Reduce(rooted, stack, segments) == stack + segments
    decreases segments
  {
    if segments == [] {
      assert stack + segments == stack;
    } else {
      var whole := stack + segments;
      assert whole[|stack|] == segments[0];
      assert stack != [] ==> whole[|stack| - 1] == stack[|stack| - 1];
      assert stack + [segments[0]] + segments[1..] == whole;
      ReduceOfReduced(rooted, stack + [segments[0]], segments[1..]);
    }
  }

  lemma {:induction false} ReduceSkipsEmpty(rooted: bool, stack: seq<string>, segments: seq<string>)
    ensures Reduce(rooted, stack, [""] + segments) == Reduce(rooted, stack, segments)
  {
    assert ([""] + segments)[1..] == segments;
  }

  lemma SplitOfRooted(s: string)
    ensures Split("/" + s) == [""] + Split(s)
  {
    assert ("/" + s)[1..] == s;
  }

  // A canonical path has the reduced segments it was made of.
  lemma CleanRooted(segments: seq<string>, slashes: string)
    requires Reduced(true, segments) && (slashes == "/" || slashes == "///")
    ensures Reduce(true, [], Split(slashes + Join(segments))) == segments
  {
    var s := Join(segments);
    forall t | t in segments ensures Plain(t) {}
    if segments == [] {
      assert slashes + s == slashes;
      SlashesOnly(slashes);
    } else {
      SplitOfJoin(segments);
      SplitOfRooted(s);
      SplitOfRooted("/" + s);
      SplitOfRooted("/" + ("/" + s));
      assert "///" + s == "/" + ("/" + ("/" + s));
      ReduceSkipsEmpty(true, [], Split(s));
      ReduceSkipsEmpty(true, [], [""] + Split(s));
      ReduceSkipsEmpty(true, [], [""] + ([""] + Split(s)));
      ReduceOfReduced(true, [], segments);
      assert [] + segments == segments;
    }
  }

  lemma SlashesOnly(slashes: string)
    requires slashes == "/" || slashes == "///"
    ensures Reduce(true, [], Split(slashes)) == []
  {
    SplitOfRooted("");
    SplitOfRooted("/");
    SplitOfRooted("//");
    assert "/" + "" == "/" && "/" + "/" == "//" && "/" + "//" == "///";
    ReduceSkipsEmpty(true, [], Split(""));
    ReduceSkipsEmpty(true, [], Split("/"));
    ReduceSkipsEmpty(true, [], Split("//"));
  }

  lemma CleanRelative(segments: seq<string>)
    requires Reduced(false, segments) && segments != []
    ensures Join(segments) != "" && Join(segments)[0] != '/'
    ensures Reduce(false, [], Split(Join(segments))) == segments
  {
    forall t | t in segments ensures Plain(t) {}
    SplitOfJoin(segments);
    ReduceOfReduced(false, [], segments);
    assert [] + segments == segments;
    assert segments[0][0] in segments[0];
  }

  // Canonical form is final, for every path.
  lemma CleanIdempotent(path: string)
    ensures Clean(Clean(path)) == Clean(path)
  {
    if path != "" {
      var rooted := path[0] == '/';
      var segments := Reduce(rooted, [], Split(path));
      SplitIsPlain(path);
      ReduceIsReduced(rooted, [], Split(path));
      if rooted {
        CleanRooted(segments, "/");
      } else if segments != [] {
        CleanRelative(segments);
      } else {
        DotIsClean();
      }
    } else {
      DotIsClean();
    }
  }

  lemma DotIsClean()
    ensures Clean(".") == "."
  {
    SplitOfPlain(".", "");
    assert ["."][1..] == [];
  }

  // A normalised name is the absolute path of the name's own segments, reduced so that it never leaves the root.
  lemma NormalizedForm(fileName: string) returns (segments: seq<string>)
    ensures segments == Reduce(true, [], Split(fileName))
    ensures Reduced(true, segments) && NormalizeFileName(fileName) == "/" + Join(segments)
    ensures ".." !in segments
  {
    var path := "//" + fileName;
    RootedJoin(fileName);
    segments := Reduce(true, [], Split(path));
    SplitIsPlain(path);
    ReduceIsReduced(true, [], Split(path));
    CleanIdempotent(path);
    SplitOfRooted("/" + fileName);
    SplitOfRooted(fileName);
    assert path == "/" + ("/" + fileName);
    ReduceSkipsEmpty(true, [], Split("/" + fileName));
    ReduceSkipsEmpty(true, [], Split(fileName));
  }

  // A dot-dot takes back the directory before it, and does nothing at the root.

  lemma UpTakesBack(name: string, rest: string)
    requires Plain(name) && name != "" && name != "." && name != ".."
    ensures NormalizeFileName(name + "/" + ("../" + rest)) == NormalizeFileName(rest)
  {
    var s := NormalizedForm(name + "/" + ("../" + rest));
    var t := NormalizedForm(rest);
    SplitOfPlain(name, "../" + rest);
    SplitOfPlain("..", rest);
    assert ".." + "/" + rest == "../" + rest;
    assert [name] + ([".."] + Split(rest)) == [] + [name, ".."] + Split(rest);
    UpCancels(true, [], name, Split(rest));
    assert [] + Split(rest) == Split(rest);
  }

  lemma UpFromRoot(rest: string)
    ensures NormalizeFileName("../" + rest) == NormalizeFileName(rest)
  {
    var s := NormalizedForm("../" + rest);
    var t := NormalizedForm(rest);
    SplitOfPlain("..", rest);
    assert ".." + "/" + rest == "../" + rest;
    UpAtRoot(Split(rest));
  }

  // Joining

  lemma JoinPathMeans(dir: string, name: string)
    requires name != ""
    ensures JoinPath([dir, name]) == Clean(if dir == "" then name else dir + "/" + name)
  {
    assert [dir, name][1..] == [name];
    assert Join([name]) == name;
  }

  lemma JoinPathOfThree(dir: string, a: string, b: string)
    requires a != ""
    ensures JoinPath([dir, a, b]) == Clean(if dir == "" then a + "/" + b else dir + "/" + (a + "/" + b))
  {
    assert [dir, a, b][1..] == [a, b] && [a, b][1..] == [b];
    assert Join([b]) == b;
    assert Join([a, b]) == a + "/" + b;
    assert dir != "" ==> JoinPath([dir, a, b]) == Clean(Join([dir, a, b]));
    assert Join([dir, a, b]) == dir + "/" + (a + "/" + b);
    assert dir == "" ==> JoinPath([dir, a, b]) == JoinPath([a, b]);
  }

  // Directories

  lemma {:induction false} UpToLastSlashMeans(p: string, name: string)
    requires Plain(name)
    ensures UpToLastSlash(p + "/" + name) == p + "/" && UpToLastSlash(name) == ""
    decreases |name|
  {
    var whole := p + "/" + name;
    if name == "" {
      assert whole == p + "/";
    } else {
      var init := name[..|name| - 1];
      assert name[|name| - 1] in name && forall c :: c in init ==> c in name;
      assert whole[..|whole| - 1] == p + "/" + init;
      UpToLastSlashMeans(p, init);
    }
  }

  // The directory of a path is the canonical form of what precedes its last slash; without one, it is the dot.
  lemma DirMeans(p: string, name: string)
    requires Plain(name)
    ensures Dir(p + "/" + name) == Clean(p + "/") && Dir(name) == "."
  {
    UpToLastSlashMeans(p, name);
  }

  // The directory of a file in a canonical relative directory is that directory.
  lemma DirOfFile(segments: seq<string>, name: string)
    requires Reduced(false, segments) && segments != [] && Plain(name)
    ensures Dir(Join(segments) + "/" + name) == Join(segments)
  {
    var p := Join(segments);
    DirMeans(p, name);
    CleanRelative(segments);
    forall t | t in segments ensures Plain(t) {}
    JoinOfMore(segments, "");
    assert p + "/" + "" == p + "/";
    SplitOfJoin(segments + [""]);
    DotVanishes(false, segments, "", []);
    assert segments + [""] + [] == segments + [""] && segments + [] == segments;
    ReduceOfReduced(false, [], segments);
    assert [] + segments == segments;
  }

  lemma {:induction false} JoinOfMore(segments: seq<string>, last: string)
    requires segments != []
    ensures Join(segments + [last]) == Join(segments) + "/" + last
    decreases |segments|
  {
    var more := segments + [last];
    assert more[0] == segments[0] && more[1..] == segments[1..] + [last];
    if |segments| > 1 {
      JoinOfMore(segments[1..], last);
      assert Join(more) == segments[0] + "/" + (Join(segments[1..]) + "/" + last);
    } else {
      assert more[1..] == [last];
    }
  }

  // Normalising twice is normalising once, for every name.
  lemma NormalizeIdempotent(fileName: string)
    ensures NormalizeFileName(NormalizeFileName(fileName)) == NormalizeFileName(fileName)
  {
    var segments := NormalizedForm(fileName);
    var again := NormalizedForm("/" + Join(segments));
    CleanRooted(segments, "/");
  }
}
