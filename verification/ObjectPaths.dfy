/**
 Object names in cloud storage.

 `Done` stores a result under a name made from the order's file with its
 extension cut off; `Result` reads one made from the file with ".pov" cut off.
 Both names go through the lexical clean-up that Go's path.Join performs.
 */
module ObjectPaths {
  import opened Options

  /** A slash-separated name, as its elements. */
  type Path = seq<string>

  /** The index at which the extension of `s[..i]` starts: the last dot of the last element, or `i` if it has none. */
  function ExtStart(s: string, i: nat): (k: nat)
    requires i <= |s|
    ensures k <= i
    ensures forall j :: k <= j < i ==> s[j] != '/'
  {
    if i == 0 || s[i - 1] == '/' then i
    else if s[i - 1] == '.' then i - 1
    else
      var k := ExtStart(s, i - 1);
      if k == i - 1 then i else k
  }

  /** path.Ext */
  function Ext(file: string): string {
    file[ExtStart(file, |file|)..]
  }

  predicate EndsWith(s: string, suffix: string) {
    |suffix| <= |s| && s[|s| - |suffix|..] == suffix
  }

  /** strings.TrimSuffix */
  function TrimSuffix(s: string, suffix: string): string {
    if EndsWith(s, suffix) then s[..|s| - |suffix|] else s
  }

  /** The name `Done` gives the result of rendering `file`. */
  function DoneBase(file: string): string {
    TrimSuffix(file, Ext(file))
  }

  /** The name `Result` looks for. */
  function ResultBase(file: string): string {
    TrimSuffix(file, ".pov")
  }

  /** The elements between the slashes of `s`; there is always at least one. */
  function Split(s: string): (elements: Path)
    ensures |elements| >= 1
  {
    if s == "" then [""]
    else
      var rest := Split(s[1..]);
      if s[0] == '/' then [""] + rest else [[s[0]] + rest[0]] + rest[1..]
  }

  /** Lexical clean-up of a relative name: empty and "." elements vanish, ".." takes back an element. */
  function Clean(stack: Path, elements: Path): Path
    decreases |elements|
  {
    if elements == [] then stack
    else
      var e := elements[0];
      var stack' :=
        if e == "" || e == "." then stack
        else if e != ".." then stack + [e]
        else if stack == [] || stack[|stack| - 1] == ".." then stack + [e]
        else stack[..|stack| - 1];
      Clean(stack', elements[1..])
  }

  /** The directory that holds everything one lease produced. */
  function LeaseDir(batch: Option<string>, lease: string): Path {
    match batch
    case Some(b) => ["batch", b, lease]
    case None => ["single", lease]
  }

  function ObjectName(batch: Option<string>, lease: string, base: string, suffix: string): Path {
    Clean([], LeaseDir(batch, lease) + Split(base + suffix))
  }

  function PngName(batch: Option<string>, lease: string, base: string): Path {
    ObjectName(batch, lease, base, ".png")
  }

  function MetaName(batch: Option<string>, lease: string, base: string): Path {
    ObjectName(batch, lease, base, ".meta.pb.gz")
  }

  // ----- Splitting and cleaning

  function Joined(elements: Path): string
    requires elements != []
  {
    if |elements| == 1 then elements[0] else elements[0] + "/" + Joined(elements[1..])
  }

  /** The elements are what is between the slashes. */
  lemma {:induction false} SplitIsInverse(s: string)
    ensures Joined(Split(s)) == s
    ensures forall i :: 0 <= i < |Split(s)| ==> '/' !in Split(s)[i]
  {
    if s != "" {
      var rest := Split(s[1..]);
      SplitIsInverse(s[1..]);
      assert s == [s[0]] + s[1..];
      if s[0] == '/' {
        assert ([""] + rest)[1..] == rest;
      } else {
        JoinedAfter(s[0], rest);
      }
    }
  }

  lemma JoinedAfter(c: char, p: Path)
    requires p != []
    ensures Joined([[c] + p[0]] + p[1..]) == [c] + Joined(p)
  {
    var q := [[c] + p[0]] + p[1..];
    assert q[1..] == p[1..];
    if |p| > 1 {
      assert [c] + p[0] + "/" + Joined(p[1..]) == [c] + (p[0] + "/" + Joined(p[1..]));
    }
  }

  /** Where the elements lead from a directory, if not above the root. */
  function Walk(dir: Path, elements: Path): Option<Path>
    decreases |elements|
  {
    if elements == [] then Some(dir)
    else
      var e := elements[0];
      if e == "" || e == "." then Walk(dir, elements[1..])
      else if e != ".." then Walk(dir + [e], elements[1..])
      else if dir == [] then None
      else Walk(dir[..|dir| - 1], elements[1..])
  }

  /** Nothing superfluous: no "." and no empty element, and ".." only at the beginning. */
  predicate IsClean(p: Path) {
    && (forall i :: 0 <= i < |p| ==> p[i] != "" && p[i] != ".")
    && (forall i, j :: 0 <= i < j < |p| && p[j] == ".." ==> p[i] == "..")
  }

  lemma {:induction false} WalkOn(dir: Path, p: Path, q: Path)
    ensures Walk(dir, p + q) == if Walk(dir, p).None? then None else Walk(Walk(dir, p).value, q)
    decreases |p|
  {
    if p == [] {
      assert p + q == q;
    } else {
      assert (p + q)[1..] == p[1..] + q;
      var e := p[0];
      if e == "" || e == "." {
        WalkOn(dir, p[1..], q);
      } else if e != ".." {
        WalkOn(dir + [e], p[1..], q);
      } else if dir != [] {
        WalkOn(dir[..|dir| - 1], p[1..], q);
      }
    }
  }

  lemma WalkOne(dir: Path, e: string)
    ensures Walk(dir, [e]) ==
      if e == "" || e == "." then Some(dir)
      else if e != ".." then Some(dir + [e])
      else if dir == [] then None
      else Some(dir[..|dir| - 1])
  {
    assert [e][1..] == [];
  }

  /** Going down and up again leads nowhere. */
  lemma DownAndUp(dir: Path, stack: Path)
    requires stack != [] && Last(stack) !in {"", ".", ".."}
    ensures Walk(dir, stack + [".."]) == Walk(dir, Front(stack))
  {
    var front, e := Front(stack), Last(stack);
    assert stack == front + [e];
    WalkOn(dir, front + [e], [".."]);
    WalkOn(dir, front, [e]);
    if Walk(dir, front).Some? {
      var d := Walk(dir, front).value;
      WalkOne(d, e);
      WalkOne(d + [e], "..");
      assert (d + [e])[..|d|] == d;
    }
  }

  lemma Superfluous(dir: Path, stack: Path, e: string)
    requires e == "" || e == "."
    ensures Walk(dir, stack + [e]) == Walk(dir, stack)
  {
    WalkOn(dir, stack, [e]);
    if Walk(dir, stack).Some? {
      WalkOne(Walk(dir, stack).value, e);
    }
  }

  /** The cleaned name leads from every directory to where the name itself leads, and has nothing superfluous. */
  lemma {:induction false} CleanLeadsThere(dir: Path, stack: Path, elements: Path)
    requires IsClean(stack)
    ensures IsClean(Clean(stack, elements))
    ensures Walk(dir, Clean(stack, elements)) == Walk(dir, stack + elements)
    decreases |elements|
  {
    if elements == [] {
      assert stack + elements == stack;
    } else {
      var e, rest := elements[0], elements[1..];
      assert stack + elements == stack + [e] + rest;
      WalkOn(dir, stack + [e], rest);
      if e == "" || e == "." {
        Superfluous(dir, stack, e);
        WalkOn(dir, stack, rest);
        CleanLeadsThere(dir, stack, rest);
      } else if e != ".." || stack == [] || Last(stack) == ".." {
        CleanLeadsThere(dir, stack + [e], rest);
      } else {
        DownAndUp(dir, stack);
        WalkOn(dir, Front(stack), rest);
        CleanLeadsThere(dir, Front(stack), rest);
      }
    }
  }

  /** path.Join: the object is where the directory and then the file's name lead. */
  lemma ObjectIsThere(root: Path, batch: Option<string>, lease: string, base: string, suffix: string)
    ensures IsClean(ObjectName(batch, lease, base, suffix))
    ensures Walk(root, ObjectName(batch, lease, base, suffix)) == Walk(root, LeaseDir(batch, lease) + Split(base + suffix))
  {
    var elements := LeaseDir(batch, lease) + Split(base + suffix);
    CleanLeadsThere(root, [], elements);
    assert [] + elements == elements;
  }

  // ----- The extension

  lemma {:induction false} ExtStartsWithDot(s: string, i: nat)
    requires i <= |s|
    ensures ExtStart(s, i) < i ==> s[ExtStart(s, i)] == '.'
    ensures forall j :: ExtStart(s, i) < j < i ==> s[j] != '.'
  {
    if i != 0 && s[i - 1] != '/' && s[i - 1] != '.' {
      ExtStartsWithDot(s, i - 1);
    }
  }

  /** A file has extension ".pov" exactly if its name ends in ".pov". */
  lemma PovExtension(file: string)
    ensures Ext(file) == ".pov" <==> EndsWith(file, ".pov")
    ensures Ext(file) == "" ==> !EndsWith(file, ".pov")
  {
    var k := ExtStart(file, |file|);
    ExtStartsWithDot(file, |file|);
    if EndsWith(file, ".pov") {
      var n := |file|;
      assert file[n - 4..] == ".pov";
      assert file[n - 4] == '.' && file[n - 3] == 'p' && file[n - 2] == 'o' && file[n - 1] == 'v';
      assert ExtStart(file, n - 3) == n - 4;
      assert ExtStart(file, n - 2) == n - 4;
      assert ExtStart(file, n - 1) == n - 4;
      assert k == n - 4;
    }
  }

  lemma TrimmedByExtension(file: string)
    ensures DoneBase(file) + Ext(file) == file
  {
    var k := ExtStart(file, |file|);
    assert file[|file| - |Ext(file)|..] == Ext(file);
    assert DoneBase(file) == file[..k];
  }

  // ----- The last element of a name

  function Last(p: Path): string
    requires p != []
  {
    p[|p| - 1]
  }

  function Front(p: Path): Path
    requires p != []
  {
    p[..|p| - 1]
  }

  function AppendLast(p: Path, t: string): Path
    requires p != []
  {
    Front(p) + [Last(p) + t]
  }

  lemma {:induction false} SplitAppended(s: string, t: string)
    requires '/' !in t
    ensures Split(s + t) == AppendLast(Split(s), t)
  {
    if s == "" {
      assert s + t == t;
      SplitPlain(t);
      assert Front([""]) == [] && "" + t == t;
    } else {
      assert (s + t)[1..] == s[1..] + t;
      SplitAppended(s[1..], t);
      AppendAfterFirst(s[0], Split(s[1..]), t);
    }
  }

  lemma AppendAfterFirst(c: char, p: Path, t: string)
    requires p != []
    ensures AppendLast([""] + p, t) == [""] + AppendLast(p, t)
    ensures AppendLast([[c] + p[0]] + p[1..], t) == [[c] + AppendLast(p, t)[0]] + AppendLast(p, t)[1..]
  {
    if |p| == 1 {
      assert [c] + p[0] + t == [c] + (p[0] + t);
    }
  }

  lemma SplitAppend(s: string, t: string)
    requires '/' !in t
    ensures |Split(s + t)| == |Split(s)|
    ensures Last(Split(s + t)) == Last(Split(s)) + t
    ensures Front(Split(s + t)) == Front(Split(s))
  {
    SplitAppended(s, t);
  }

  lemma {:induction false} SplitPlain(t: string)
    requires '/' !in t
    ensures Split(t) == [t]
  {
    if t != "" {
      SplitPlain(t[1..]);
      assert [t[0]] + t[1..] == t;
    }
  }

  lemma {:induction false} CleanKeepsLast(stack: Path, elements: Path)
    requires elements != []
    requires Last(elements) !in {"", ".", ".."}
    ensures Clean(stack, elements) != []
    ensures Last(Clean(stack, elements)) == Last(elements)
    decreases |elements|
  {
    var e := elements[0];
    if |elements| == 1 {
      assert elements[1..] == [];
      assert Clean(stack, elements) == Clean(stack + [e], []);
    } else {
      var stack' :=
        if e == "" || e == "." then stack
        else if e != ".." then stack + [e]
        else if stack == [] || stack[|stack| - 1] == ".." then stack + [e]
        else stack[..|stack| - 1];
      assert Last(elements[1..]) == Last(elements);
      CleanKeepsLast(stack', elements[1..]);
    }
  }

  lemma LastOfObjectName(batch: Option<string>, lease: string, base: string, suffix: string)
    requires '/' !in suffix && |suffix| >= 3
    ensures ObjectName(batch, lease, base, suffix) != []
    ensures Last(ObjectName(batch, lease, base, suffix)) == Last(Split(base)) + suffix
  {
    SplitAppend(base, suffix);
    var elements := LeaseDir(batch, lease) + Split(base + suffix);
    assert Last(elements) == Last(Split(base)) + suffix;
    assert |Last(elements)| >= 3;
    CleanKeepsLast([], elements);
  }

  /** An image never has the name of metadata, whosever it is. */
  lemma PngIsNotMeta(batch: Option<string>, lease: string, base: string, batch': Option<string>, lease': string, base': string)
    ensures PngName(batch, lease, base) != MetaName(batch', lease', base')
  {
    LastOfObjectName(batch, lease, base, ".png");
    LastOfObjectName(batch', lease', base', ".meta.pb.gz");
    var png, meta := Last(PngName(batch, lease, base)), Last(MetaName(batch', lease', base'));
    assert png[|png| - 1] == 'g' && meta[|meta| - 1] == 'z';
  }

  /**
   The png that `Done` wrote is the png that `Result` reads exactly if the
   order's file has the extension ".pov" or none at all.
   */
  lemma ResultReadsWhatDoneWrote(batch: Option<string>, lease: string, file: string)
    ensures PngName(batch, lease, DoneBase(file)) == PngName(batch, lease, ResultBase(file))
       <==> Ext(file) in {"", ".pov"}
  {
    PovExtension(file);
    TrimmedByExtension(file);
    var ext := Ext(file);
    if ext == "" {
      assert DoneBase(file) == file;
    } else if ext != ".pov" {
      var k := ExtStart(file, |file|);
      assert ResultBase(file) == DoneBase(file) + ext;
      assert '/' !in ext by {
        forall j | 0 <= j < |ext| ensures ext[j] != '/' {
          assert ext[j] == file[k + j];
        }
      }
      SplitAppend(DoneBase(file), ext);
      LastOfObjectName(batch, lease, DoneBase(file), ".png");
      LastOfObjectName(batch, lease, ResultBase(file), ".png");
      assert |Last(PngName(batch, lease, ResultBase(file)))| > |Last(PngName(batch, lease, DoneBase(file)))|;
    }
  }

  /** A scene in a file named otherwise is stored, but not found. */
  lemma IncFilesAreLost(batch: Option<string>, lease: string)
    ensures PngName(batch, lease, DoneBase("a.inc")) != PngName(batch, lease, ResultBase("a.inc"))
  {
    var file := "a.inc";
    assert ExtStart(file, 2) == 1 && ExtStart(file, 3) == 1 && ExtStart(file, 4) == 1 && ExtStart(file, 5) == 1;
    assert Ext(file) == ".inc";
    ResultReadsWhatDoneWrote(batch, lease, file);
  }

  /** The file formats in use: a name ending in ".pov" is read back from where it was stored. */
  lemma PovFilesAreFound(batch: Option<string>, lease: string, file: string)
    requires EndsWith(file, ".pov")
    ensures PngName(batch, lease, DoneBase(file)) == PngName(batch, lease, ResultBase(file))
  {
    PovExtension(file);
    ResultReadsWhatDoneWrote(batch, lease, file);
  }
}
