/** Whether the objects of a lease are in its own directory, where no other lease's objects can be. */
module ObjectDirs {
  import opened Options
  import opened ObjectPaths

  /** An element that stands for itself; identifiers are of this kind. */
  predicate IsName(e: string) {
    e !in {"", ".", ".."} && '/' !in e
  }

  predicate AreNames(p: Path) {
    forall i :: 0 <= i < |p| ==> IsName(p[i])
  }

  predicate IsOptName(e: Option<string>) {
    e.Some? ==> IsName(e.value)
  }

  /** From `depth` directories down, the elements do not lead further up than that. */
  predicate Stays(depth: nat, elements: Path)
    decreases |elements|
  {
    if elements == [] then true
    else
      var e := elements[0];
      if e == "" || e == "." then Stays(depth, elements[1..])
      else if e == ".." then depth > 0 && Stays(depth - 1, elements[1..])
      else Stays(depth + 1, elements[1..])
  }

  /** The directories in the file's name do not lead out of where they start. */
  predicate StaysInside(file: string) {
    Stays(0, Front(Split(file)))
  }

  // ----- Staying

  /** Cutting off an extension does not change the directories. */
  lemma SameDirectories(file: string)
    ensures Front(Split(DoneBase(file))) == Front(Split(file))
    ensures StaysInside(DoneBase(file)) <==> StaysInside(file)
  {
    TrimmedByExtension(file);
    var ext := Ext(file);
    assert '/' !in ext by {
      forall j | 0 <= j < |ext|
        ensures ext[j] != '/'
      {
        assert ext[j] == file[ExtStart(file, |file|) + j];
      }
    }
    SplitAppend(DoneBase(file), ext);
  }

  lemma {:induction false} CleanNames(stack: Path, names: Path, elements: Path)
    requires AreNames(names)
    ensures Clean(stack, names + elements) == Clean(stack + names, elements)
    decreases |names|
  {
    if names == [] {
      assert names + elements == elements && stack + names == stack;
    } else {
      assert (names + elements)[1..] == names[1..] + elements;
      assert stack + [names[0]] + names[1..] == stack + names;
      CleanNames(stack + [names[0]], names[1..], elements);
    }
  }

  lemma {:induction false} StaysThenCleans(dir: Path, inner: Path, elements: Path)
    requires ".." !in inner && Stays(|inner|, elements)
    ensures dir <= Clean(dir + inner, elements)
    decreases |elements|
  {
    if elements != [] {
      var e, rest := elements[0], elements[1..];
      if e == "" || e == "." {
        StaysThenCleans(dir, inner, rest);
      } else if e == ".." {
        assert (dir + inner)[|dir + inner| - 1] == inner[|inner| - 1];
        assert (dir + inner)[..|dir + inner| - 1] == dir + inner[..|inner| - 1];
        StaysThenCleans(dir, inner[..|inner| - 1], rest);
      } else {
        assert dir + inner + [e] == dir + (inner + [e]);
        StaysThenCleans(dir, inner + [e], rest);
      }
    }
  }

  lemma {:induction false} CleanEndsWith(stack: Path, elements: Path, last: string)
    requires last !in {"", ".", ".."}
    ensures Clean(stack, elements + [last]) == Clean(stack, elements) + [last]
    decreases |elements|
  {
    if elements == [] {
      assert elements + [last] == [last] && [last][1..] == [];
      assert Clean(stack + [last], []) == stack + [last];
    } else {
      assert (elements + [last])[1..] == elements[1..] + [last];
      var e := elements[0];
      var stack' :=
        if e == "" || e == "." then stack
        else if e != ".." then stack + [e]
        else if stack == [] || stack[|stack| - 1] == ".." then stack + [e]
        else stack[..|stack| - 1];
      CleanEndsWith(stack', elements[1..], last);
    }
  }

  lemma DirIsNames(batch: Option<string>, lease: string)
    requires IsOptName(batch) && IsName(lease)
    ensures AreNames(LeaseDir(batch, lease))
  {
  }

  /** The name of an object: the lease's directory, then the file's own, then its last element and the suffix. */
  lemma ObjectNameIs(batch: Option<string>, lease: string, base: string, suffix: string)
    requires IsOptName(batch) && IsName(lease) && '/' !in suffix && |suffix| >= 3
    ensures ObjectName(batch, lease, base, suffix)
         == Clean(LeaseDir(batch, lease), Front(Split(base))) + [Last(Split(base)) + suffix]
  {
    var dir, front, last := LeaseDir(batch, lease), Front(Split(base)), Last(Split(base)) + suffix;
    DirIsNames(batch, lease);
    SplitAppend(base, suffix);
    FrontAndLast(Split(base + suffix));
    CleanDir(dir, front + [last]);
    CleanEndsWith(dir, front, last);
  }

  lemma FrontAndLast(p: Path)
    requires p != []
    ensures p == Front(p) + [Last(p)]
  {
  }

  lemma CleanDir(dir: Path, elements: Path)
    requires AreNames(dir)
    ensures Clean([], dir + elements) == Clean(dir, elements)
  {
    CleanNames([], dir, elements);
    assert [] + dir == dir;
  }

  lemma WithoutPov(name: string)
    ensures DoneBase(name + ".pov") == name
  {
    var file := name + ".pov";
    assert file[|file| - 4..] == ".pov";
    PovExtension(file);
    assert file[..|file| - 4] == name;
  }

  lemma PlainObject(batch: Option<string>, lease: string, name: string, suffix: string)
    requires IsOptName(batch) && IsName(lease) && '/' !in name && '/' !in suffix && |suffix| >= 3
    ensures ObjectName(batch, lease, name, suffix) == LeaseDir(batch, lease) + [name + suffix]
  {
    SplitPlain(name);
    assert Front([name]) == [] && Last([name]) == name;
    ObjectNameIs(batch, lease, name, suffix);
  }

  /** Where the results of a plain "name.pov" are. */
  lemma PlainObjects(batch: Option<string>, lease: string, name: string)
    requires IsOptName(batch) && IsName(lease) && '/' !in name
    ensures
      var base := DoneBase(name + ".pov");
      && (batch.Some? ==>
            && PngName(batch, lease, base) == ["batch", batch.value, lease, name + ".png"]
            && MetaName(batch, lease, base) == ["batch", batch.value, lease, name + ".meta.pb.gz"])
      && (batch.None? ==>
            && PngName(batch, lease, base) == ["single", lease, name + ".png"]
            && MetaName(batch, lease, base) == ["single", lease, name + ".meta.pb.gz"])
  {
    WithoutPov(name);
    PlainObject(batch, lease, name, ".png");
    PlainObject(batch, lease, name, ".meta.pb.gz");
  }

  /** What a file that stays inside is made into is in the directory of its lease. */
  lemma InOwnDirectory(batch: Option<string>, lease: string, base: string, suffix: string)
    requires IsOptName(batch) && IsName(lease) && '/' !in suffix && |suffix| >= 3
    requires StaysInside(base)
    ensures LeaseDir(batch, lease) < ObjectName(batch, lease, base, suffix)
  {
    var dir := LeaseDir(batch, lease);
    ObjectNameIs(batch, lease, base, suffix);
    assert dir + [] == dir;
    StaysThenCleans(dir, [], Front(Split(base)));
  }

  /** The lease in whose directory the name is. */
  function Owner(p: Path): string {
    if |p| >= 2 && p[0] == "single" then p[1] else if |p| >= 3 then p[2] else ""
  }

  lemma OwnerIs(batch: Option<string>, lease: string, p: Path)
    ensures LeaseDir(batch, lease) <= p ==> Owner(p) == lease
  {
  }

  /** Two leases whose files stay inside have no object in common. */
  lemma NamesDiffer(batch: Option<string>, lease: string, file: string, suffix: string,
                    batch': Option<string>, lease': string, file': string, suffix': string)
    requires IsOptName(batch) && IsName(lease) && IsOptName(batch') && IsName(lease') && lease != lease'
    requires '/' !in suffix && |suffix| >= 3 && '/' !in suffix' && |suffix'| >= 3
    requires StaysInside(file) && StaysInside(file')
    ensures ObjectName(batch, lease, DoneBase(file), suffix) != ObjectName(batch', lease', DoneBase(file'), suffix')
  {
    SameDirectories(file);
    SameDirectories(file');
    InOwnDirectory(batch, lease, DoneBase(file), suffix);
    InOwnDirectory(batch', lease', DoneBase(file'), suffix');
    OwnerIs(batch, lease, ObjectName(batch, lease, DoneBase(file), suffix));
    OwnerIs(batch', lease', ObjectName(batch', lease', DoneBase(file'), suffix'));
  }

  lemma {:induction false} NoDotsStay(depth: nat, elements: Path)
    requires ".." !in elements
    ensures Stays(depth, elements)
    decreases |elements|
  {
    if elements != [] {
      NoDotsStay(depth, elements[1..]);
      NoDotsStay(depth + 1, elements[1..]);
    }
  }

  /** A file name without an element ".." stays inside. */
  lemma PlainFilesStay(file: string)
    requires ".." !in Split(file)
    ensures StaysInside(file)
  {
    NoDotsStay(0, Front(Split(file)));
  }

  // ----- Leading out

  /** A file that leads out of its lease's directory can have the image of another lease. */
  lemma ClimbingFilesCollide()
    ensures !StaysInside("../b/x.pov") && StaysInside("x.pov")
    ensures PngName(None, "a", DoneBase("../b/x.pov")) == PngName(None, "b", DoneBase("x.pov")) == ["single", "b", "x.png"]
  {
    PovBase("../b/x");
    assert "../b/x" + ".pov" == "../b/x.pov";
    PovBase("x");
    assert "x" + ".pov" == "x.pov";
    SameDirectories("../b/x.pov");
    SameDirectories("x.pov");
    ClimbingName();
    PlainName();
  }

  lemma {:induction false} SplitSlash(e: string, s: string)
    requires '/' !in e
    ensures Split(e + "/" + s) == [e] + Split(s)
  {
    var all := e + "/" + s;
    if e == "" {
      assert all[1..] == s;
    } else {
      assert all[1..] == e[1..] + "/" + s;
      SplitSlash(e[1..], s);
      assert [e[0]] + e[1..] == e;
    }
  }

  lemma ClimbingSplit()
    ensures Split("../b/x") == ["..", "b", "x"]
  {
    SplitPlain("x");
    SplitSlash("b", "x");
    SplitSlash("..", "b/x");
    assert "b" + "/" + "x" == "b/x" && ".." + "/" + "b/x" == "../b/x";
  }

  lemma ClimbingName()
    ensures !StaysInside("../b/x")
    ensures PngName(None, "a", "../b/x") == ["single", "b", "x.png"]
  {
    ClimbingSplit();
    ObjectNameIs(None, "a", "../b/x", ".png");
    assert Front(["..", "b", "x"]) == ["..", "b"] && "x" + ".png" == "x.png";
    UpAndDown("single", "a", "b");
  }

  lemma UpAndDown(top: string, a: string, b: string)
    requires IsName(top) && IsName(a) && IsName(b)
    ensures Clean([top, a], ["..", b]) == [top, b]
  {
    assert ["..", b][1..] == [b] && [b][1..] == [];
    assert [top, a][..1] == [top] && [top] + [b] == [top, b];
    assert Clean([top, b], []) == [top, b];
    assert Clean([top], [b]) == [top, b];
  }

  lemma PlainName()
    ensures StaysInside("x")
    ensures PngName(None, "b", "x") == ["single", "b", "x.png"]
  {
    SplitPlain("x");
    ObjectNameIs(None, "b", "x", ".png");
    assert Front(["x"]) == [] && "x" + ".png" == "x.png";
    assert Clean(["single", "b"], []) == ["single", "b"];
  }

  lemma PovBase(base: string)
    ensures DoneBase(base + ".pov") == base
  {
    var file := base + ".pov";
    PovExtension(file);
    TrimmedByExtension(file);
    assert DoneBase(file) == file[..|file| - 4];
  }

  // ----- Exactly which objects another lease can have

  function Join(p: Path): string
    requires p != []
  {
    if |p| == 1 then p[0] else p[0] + "/" + Join(p[1..])
  }

  lemma {:induction false} SplitJoined(p: Path)
    requires p != [] && forall i :: 0 <= i < |p| ==> '/' !in p[i]
    ensures Split(Join(p)) == p
  {
    if |p| == 1 {
      SplitPlain(p[0]);
    } else {
      SplitJoined(p[1..]);
      SplitSlash(p[0], Join(p[1..]));
    }
  }

  lemma {:induction false} SplitHasNoSlash(s: string)
    ensures forall i :: 0 <= i < |Split(s)| ==> '/' !in Split(s)[i]
  {
    if s != "" {
      SplitHasNoSlash(s[1..]);
    }
  }

  /** A cleaned name has names only, after any number of ".." at its front. */
  predicate IsClean(p: Path) {
    forall i :: 0 <= i < |p| ==> IsName(p[i]) || (p[i] == ".." && forall j :: 0 <= j < i ==> p[j] == "..")
  }

  lemma {:induction false} CleanIsClean(stack: Path, elements: Path)
    requires IsClean(stack) && forall i :: 0 <= i < |elements| ==> '/' !in elements[i]
    ensures IsClean(Clean(stack, elements))
    decreases |elements|
  {
    if elements != [] {
      var e := elements[0];
      var stack' :=
        if e == "" || e == "." then stack
        else if e != ".." then stack + [e]
        else if stack == [] || stack[|stack| - 1] == ".." then stack + [e]
        else stack[..|stack| - 1];
      assert IsClean(stack');
      CleanIsClean(stack', elements[1..]);
    }
  }

  lemma ObjectNameIsClean(batch: Option<string>, lease: string, base: string)
    requires IsOptName(batch) && IsName(lease)
    ensures IsClean(PngName(batch, lease, base))
  {
    DirIsNames(batch, lease);
    SplitHasNoSlash(base + ".png");
    CleanIsClean([], LeaseDir(batch, lease) + Split(base + ".png"));
  }

  /** A name in a lease's directory is one that a file of that lease can lead to. */
  lemma FileFor(batch: Option<string>, lease: string, inner: Path, last: string) returns (file: string)
    requires IsOptName(batch) && IsName(lease) && AreNames(inner) && '/' !in last
    ensures StaysInside(file)
    ensures PngName(batch, lease, DoneBase(file)) == LeaseDir(batch, lease) + inner + [last + ".png"]
  {
    var base := Join(inner + [last]);
    file := base + ".pov";
    PovBase(base);
    SplitJoined(inner + [last]);
    assert Front(Split(base)) == inner && Last(Split(base)) == last;
    NoDotsStay(0, inner);
    SameDirectories(file);
    ObjectNameIs(batch, lease, base, ".png");
    assert inner + [] == inner;
    CleanNames(LeaseDir(batch, lease), inner, []);
  }

  lemma OtherFile(batch: Option<string>, lease: string, base: string, batch': Option<string>, lease': string) returns (file: string)
    requires IsOptName(batch) && IsName(lease) && IsOptName(batch') && IsName(lease')
    requires LeaseDir(batch', lease') < PngName(batch, lease, base)
    ensures StaysInside(file) && PngName(batch', lease', DoneBase(file)) == PngName(batch, lease, base)
  {
    var png, dir, last := PngName(batch, lease, base), LeaseDir(batch', lease'), Last(Split(base));
    ObjectNameIsClean(batch, lease, base);
    LastOfObjectName(batch, lease, base, ".png");
    SplitHasNoSlash(base);
    var inner := png[|dir|..|png| - 1];
    BelowDir(png, dir);
    NamesBelow(png, |dir|);
    file := FileFor(batch', lease', inner, last);
  }

  lemma BelowDir(p: Path, dir: Path)
    requires dir < p
    ensures p == dir + p[|dir|..|p| - 1] + [Last(p)]
  {
    assert p == dir + p[|dir|..];
    assert p[|dir|..] == p[|dir|..|p| - 1] + [Last(p)];
  }

  /** A clean name that does not lead up has names only. */
  lemma NamesBelow(p: Path, k: nat)
    requires IsClean(p) && 0 < k < |p| && IsName(p[0])
    ensures AreNames(p[k..|p| - 1])
  {
    forall i | k <= i < |p| - 1
      ensures IsName(p[i])
    {
    }
  }

  /**
   Another lease can have the image of this one exactly if the name of this
   one's image is in the other's directory; a file that stays inside is all
   the other one needs.
   */
  lemma SharedNameIff(batch: Option<string>, lease: string, file: string, batch': Option<string>, lease': string)
    requires IsOptName(batch) && IsName(lease) && IsOptName(batch') && IsName(lease')
    ensures
      var png := PngName(batch, lease, DoneBase(file));
      (exists file' :: StaysInside(file') && PngName(batch', lease', DoneBase(file')) == png) <==> LeaseDir(batch', lease') < png
  {
    var png := PngName(batch, lease, DoneBase(file));
    if file' :| StaysInside(file') && PngName(batch', lease', DoneBase(file')) == png {
      SameDirectories(file');
      InOwnDirectory(batch', lease', DoneBase(file'), ".png");
    }
    if LeaseDir(batch', lease') < png {
      var file' := OtherFile(batch, lease, DoneBase(file), batch', lease');
      assert StaysInside(file') && PngName(batch', lease', DoneBase(file')) == png;
    }
  }
}
