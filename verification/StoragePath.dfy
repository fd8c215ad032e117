/** Where a storage object of a backup is written: lexical path cleaning under a root directory. */
module StoragePath {
  import opened Prelude
  import opened Text

  predicate Rooted(path: string) { path != "" && path[0] == '/' }

  /** One step of lexical cleaning: empty and dot segments vanish, dot-dot removes its parent if there is one. */
  function Push(stack: seq<string>, segment: string): seq<string> {
    if segment == "" || segment == "." then stack
    else if segment == ".." then (if stack == [] then [] else stack[..|stack| - 1])
    else stack + [segment]
  }

  function PushAll(stack: seq<string>, segments: seq<string>): seq<string>
    decreases |segments|
  {
    if segments == [] then stack else PushAll(Push(stack, segments[0]), segments[1..])
  }

  function Normal(path: string): seq<string> { PushAll([], Split(path, '/')) }

  function Render(segments: seq<string>): string {
    if segments == [] then "/" else "/" + Join(segments, '/')
  }

  /** `filepath.Clean` of a rooted path. */
  function Clean(path: string): string
    requires Rooted(path)
  {
    Render(Normal(path))
  }

  /** `filepath.Abs`, given the working directory if it could be read. */
  function Abs(cwd: Option<string>, root: string): Option<string>
    requires cwd.Some? ==> Rooted(cwd.value)
  {
    if Rooted(root) then Some(Clean(root))
    else if cwd.None? then None
    else Some(Clean(cwd.value + "/" + root))
  }

  function LastSlash(path: string): nat
    requires Rooted(path)
    ensures LastSlash(path) < |path|
  {
    if path[|path| - 1] == '/' then |path| - 1 else LastSlash(path[..|path| - 1])
  }

  /** `filepath.Dir` of a rooted path. */
  function Dir(path: string): string
    requires Rooted(path)
  {
    Clean(path[..LastSlash(path) + 1])
  }

  datatype PathError = InvalidKey | NoWorkingDirectory

  /** `storagePath`. */
  function StoragePath(cwd: Option<string>, root: string, key: string): Result<string, PathError>
    requires cwd.Some? ==> Rooted(cwd.value)
  {
    var cleaned := Clean("/" + key);
    if cleaned == "/" || cleaned == "." || (|cleaned| >= 2 && cleaned[..2] == "..") then Err(InvalidKey)
    else match Abs(cwd, root)
      case None => Err(NoWorkingDirectory)
      case Some(absRoot) =>
        var path := Clean(absRoot + "/" + cleaned[1..]);
        if Dir(path) == "." || |path| < |absRoot| || path[..|absRoot|] != absRoot then Err(InvalidKey)
        else Ok(path)
  }

  // ----- Reasoning about segments

  predicate Plain(s: string) { s != "" && s != "." && s != ".." && '/' !in s }
  predicate AllPlain(segments: seq<string>) { forall s :: s in segments ==> Plain(s) }

  lemma {:induction false} PushAllPlain(stack: seq<string>, segments: seq<string>)
    requires AllPlain(stack) && forall s :: s in segments ==> '/' !in s
    ensures AllPlain(PushAll(stack, segments))
    decreases |segments|
  {
    if segments != [] { PushAllPlain(Push(stack, segments[0]), segments[1..]); }
  }

  lemma NormalPlain(path: string)
    ensures AllPlain(Normal(path))
  {
    JoinSplit(path, '/');
    PushAllPlain([], Split(path, '/'));
  }

  lemma {:induction false} PushAllOfPlain(stack: seq<string>, segments: seq<string>)
    requires AllPlain(segments)
    ensures PushAll(stack, segments) == stack + segments
    decreases |segments|
  {
    if segments != [] {
      assert Plain(segments[0]);
      PushAllOfPlain(stack + [segments[0]], segments[1..]);
      assert stack + [segments[0]] + segments[1..] == stack + segments;
    } else {
      assert stack + segments == stack;
    }
  }

  lemma {:induction false} PushAllConcat(stack: seq<string>, a: seq<string>, b: seq<string>)
    ensures PushAll(stack, a + b) == PushAll(PushAll(stack, a), b)
    decreases |a|
  {
    if a == [] {
      assert a + b == b;
    } else {
      PushAllConcat(Push(stack, a[0]), a[1..], b);
      assert (a + b)[1..] == a[1..] + b;
    }
  }

  lemma SplitConcat(a: string, b: string, sep: char)
    ensures Split(a + [sep] + b, sep) == Split(a, sep) + Split(b, sep)
  {
    hide Split, Join;
    JoinSplit(a, sep);
    JoinSplit(b, sep);
    JoinConcat(Split(a, sep), Split(b, sep), sep);
    SplitJoin(Split(a, sep) + Split(b, sep), sep);
  }

  lemma NormalConcat(a: string, b: string)
    ensures Normal(a + "/" + b) == PushAll(Normal(a), Split(b, '/'))
  {
    SplitConcat(a, b, '/');
    PushAllConcat([], Split(a, '/'), Split(b, '/'));
  }

  /**
   What cleaning does to a path's last segment: a name is kept, a dot or nothing vanishes, a dot-dot takes a name with
   it.
   */
  lemma CleaningSegments(path: string, name: string)
    requires Plain(name)
    ensures Normal(path + "/" + name) == Normal(path) + [name]
    ensures Normal(path + "/.") == Normal(path + "/") == Normal(path)
    ensures Normal(path + "/" + name + "/..") == Normal(path)
    ensures Normal("/..") == []
  {
    hide Split;
    SplitOne(name, '/');
    SplitOne(".", '/');
    SplitOne("..", '/');
    SplitOne("", '/');
    NormalConcat(path, name);
    NormalConcat(path, ".");
    NormalConcat(path, "");
    NormalConcat(path + "/" + name, "..");
    NormalConcat("", "..");
    assert path + "/." == path + "/" + "." && path + "/" == path + "/" + "";
    assert path + "/" + name + "/.." == (path + "/" + name) + "/" + "..";
    assert "/.." == "" + "/" + "..";
    assert PushAll(Normal(path), [name]) == PushAll(Normal(path) + [name], []) == Normal(path) + [name];
    assert PushAll(Normal(path), ["."]) == PushAll(Normal(path), []) == Normal(path);
    assert PushAll(Normal(path), [""]) == PushAll(Normal(path), []) == Normal(path);
    assert PushAll(Normal(path) + [name], [".."]) == PushAll(Normal(path), []);
    assert Normal("") == PushAll([], [""]) == PushAll([], []);
    assert PushAll([], [".."]) == PushAll([], []);
  }

  /** A relative root is taken from the working directory, a rooted one as it is. */
  lemma AbsSegments(cwd: string, root: string)
    requires Rooted(cwd)
    ensures Rooted(root) ==> forall c: Option<string> | c.Some? ==> Rooted(c.value) ::
              Abs(c, root).Some? && Normal(Abs(c, root).value) == Normal(root)
    ensures !Rooted(root) ==> Abs(None, root).None?
    ensures !Rooted(root) ==> Abs(Some(cwd), root).Some?
    ensures !Rooted(root) ==> Normal(Abs(Some(cwd), root).value) == PushAll(Normal(cwd), Split(root, '/'))
  {
    hide Split, PushAll, Render;
    var source := if Rooted(root) then root else cwd + "/" + root;
    NormalPlain(source);
    NormalRender(Normal(source));
    NormalConcat(cwd, root);
  }

  /** Rendering and cleaning are inverse on plain segments. */
  lemma NormalRender(segments: seq<string>)
    requires AllPlain(segments)
    ensures Normal(Render(segments)) == segments
  {
    if segments == [] {
      NormalConcat("", "");
      assert "/" == "" + "/" + "";
    } else {
      SplitJoin(segments, '/');
      NormalConcat("", Join(segments, '/'));
      assert "/" + Join(segments, '/') == "" + "/" + Join(segments, '/');
      PushAllOfPlain([], segments);
      assert [] + segments == segments;
    }
  }

  lemma {:induction false} JoinConcat(a: seq<string>, b: seq<string>, sep: char)
    requires a != [] && b != []
    ensures Join(a + b, sep) == Join(a, sep) + [sep] + Join(b, sep)
  {
    if |a| == 1 {
      assert (a + b)[1..] == b;
    } else {
      JoinConcat(a[1..], b, sep);
      assert (a + b)[1..] == a[1..] + b;
    }
  }

  /** A path rendered from more segments lies strictly below one rendered from a prefix of them. */
  lemma RenderBelow(root: seq<string>, rest: seq<string>)
    requires rest != []
    ensures Render(root + rest) ==
            if root == [] then Render(root) + Join(rest, '/') else Render(root) + "/" + Join(rest, '/')
  {
    if root == [] {
      assert root + rest == rest;
    } else {
      JoinConcat(root, rest, '/');
    }
  }

  /** `Dir` of a rooted path is rooted, so its guard never fires. */
  lemma DirRooted(path: string)
    requires Rooted(path)
    ensures Dir(path) != "."
  {
    assert Dir(path)[0] == '/';
  }

  /**
   `storagePath` fails on the key exactly when its segments cancel out; otherwise the result is the root's
   segments followed by the key's, strictly below the root, and the later guards never fire.
   */
  lemma StoragePathExact(cwd: Option<string>, root: string, key: string)
    requires cwd.Some? ==> Rooted(cwd.value)
    ensures var keySegments := Normal("/" + key);
            StoragePath(cwd, root, key) ==
            if keySegments == [] then Err(InvalidKey)
            else match Abs(cwd, root)
              case None => Err(NoWorkingDirectory)
              case Some(absRoot) => Ok(Render(Normal(absRoot) + keySegments))
    ensures StoragePath(cwd, root, key).Ok? ==>
              var absRoot, path := Abs(cwd, root).value, StoragePath(cwd, root, key).value;
              && Normal(path) == Normal(absRoot) + Normal("/" + key)
              && |path| > |absRoot| && path[..|absRoot|] == absRoot
              && (absRoot != "/" ==> path[|absRoot|] == '/')
              && AllPlain(Normal(path))
  {
    hide Split, Join, PushAll, Normal, LastSlash, Dir;
    var keySegments := Normal("/" + key);
    NormalPlain("/" + key);
    if keySegments != [] {
      var cleaned := Clean("/" + key);
      assert |Join(keySegments, '/')| > 0 by { JoinNonEmpty(keySegments); }
      assert cleaned[0] == '/' && cleaned[1..] == Join(keySegments, '/');
      if Abs(cwd, root).Some? {
        var absRoot := Abs(cwd, root).value;
        var source := if Rooted(root) then root else cwd.value + "/" + root;
        NormalPlain(source);
        NormalRender(Normal(source));
        var rootSegments := Normal(absRoot);
        assert absRoot == Render(rootSegments);
        SplitJoin(keySegments, '/');
        NormalConcat(absRoot, Join(keySegments, '/'));
        PushAllOfPlain(rootSegments, keySegments);
        var path := Render(rootSegments + keySegments);
        NormalRender(rootSegments + keySegments);
        RenderBelow(rootSegments, keySegments);
        DirRooted(path);
        assert path[..|absRoot|] == absRoot;
      }
    }
  }

  lemma JoinNonEmpty(segments: seq<string>)
    requires segments != [] && AllPlain(segments)
    ensures Join(segments, '/') != ""
  {
    assert Plain(segments[0]);
  }
}
