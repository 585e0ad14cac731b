/** Resolution of the comma-separated report path setting into a list of
    unique files (parser.go: getPaths, expandTilde, getFiles, uniqueItems,
    isURL). The home directory, path joining and glob expansion are
    parameters: they belong to the operating system and to other libraries. */
module Paths {
  import opened Wrappers
  import opened GoStrings
  import opened Seqs

  /** What the operating system and the glob library answer. `home` is
      os.UserHomeDir (a failure carries the error text), `join` is
      filepath.Join on two elements, and `glob` is zglob.Glob, which may fail. */
  datatype Environment = Environment(
    home: Result<string, string>,
    join: (string, string) -> string,
    glob: string -> Option<seq<string>>)

  // ---------------------------------------------------------------- getPaths

  /** The pieces getPaths keeps: every piece that is not empty, trimmed of
      white space, in order. A piece is checked for emptiness before it is
      trimmed, so an all-space piece is kept as the empty string. */
  function Kept(pieces: seq<string>): (r: seq<string>)
    ensures |r| <= |pieces|
  {
    if pieces == [] then []
    else
      var last := pieces[|pieces| - 1];
      Kept(pieces[..|pieces| - 1]) + (if last == "" then [] else [TrimSpace(last)])
  }

  /** getPaths: split the setting at every comma and keep the non-empty pieces, trimmed. */
  method GetPaths(globVal: string) returns (paths: seq<string>)
    ensures paths == Kept(Split(globVal, ','))
  {
    paths := [];
    var pieces := Split(globVal, ',');
    for i := 0 to |pieces|
      invariant paths == Kept(pieces[..i])
    {
      var val := pieces[i];
      assert pieces[..i + 1][..i] == pieces[..i];
      if val == "" {
        continue;
      }
      val := TrimSpace(val);
      paths := paths + [val];
    }
    assert pieces[..|pieces|] == pieces;
  }

  /** One more piece: getPaths appends its trimmed form unless it is empty. */
  lemma KeptSnoc(init: seq<string>, last: string)
    ensures Kept(init + [last]) == Kept(init) + (if last == "" then [] else [TrimSpace(last)])
  {
    assert |init + [last]| == |init| + 1;
    assert (init + [last])[..|init|] == init;
  }

  /** A string is among the kept paths exactly when it is the trimmed form of
      some non-empty piece; so no kept path starts or ends with white space. */
  lemma {:induction false} KeptMembers(pieces: seq<string>, x: string)
    ensures x in Kept(pieces) <==> exists k :: 0 <= k < |pieces| && pieces[k] != "" && TrimSpace(pieces[k]) == x
    ensures x in Kept(pieces) ==> IsTrimmed(x)
  {
    if pieces != [] {
      var init, last := pieces[..|pieces| - 1], pieces[|pieces| - 1];
      KeptMembers(init, x);
      InitLast(pieces);
      KeptSnoc(init, last);
      if x in Kept(init) {
        var k :| 0 <= k < |init| && init[k] != "" && TrimSpace(init[k]) == x;
        assert pieces[k] == init[k];
      }
      if exists k :: 0 <= k < |pieces| && pieces[k] != "" && TrimSpace(pieces[k]) == x {
        var k :| 0 <= k < |pieces| && pieces[k] != "" && TrimSpace(pieces[k]) == x;
        if k < |init| {
          assert init[k] == pieces[k];
        }
      }
    }
  }

  /** Pieces that are non-empty and already trimmed survive unchanged. */
  lemma {:induction false} KeptClean(pieces: seq<string>)
    requires forall k :: 0 <= k < |pieces| ==> pieces[k] != "" && IsTrimmed(pieces[k])
    ensures Kept(pieces) == pieces
  {
    if pieces != [] {
      var init, last := pieces[..|pieces| - 1], pieces[|pieces| - 1];
      KeptClean(init);
      TrimSpaceTrimmed(last);
      InitLast(pieces);
      KeptSnoc(init, last);
    }
  }

  /** Joining non-empty, trimmed, comma-free paths with commas and handing the
      result to getPaths gives those paths back. */
  lemma GetPathsJoin(paths: seq<string>)
    requires |paths| >= 1
    requires forall k :: 0 <= k < |paths| ==> paths[k] != "" && IsTrimmed(paths[k]) && ',' !in paths[k]
    ensures Kept(Split(Join(paths, ','), ',')) == paths
  {
    SplitJoin(paths, ',');
    KeptClean(paths);
  }

  /** The empty setting gives no paths. */
  lemma GetPathsEmpty()
    ensures Kept(Split("", ',')) == []
  {
    assert Split("", ',') == [""];
  }

  /** A path as a setting spells it when getPaths keeps it as it is. */
  predicate PlainPath(p: string) {
    p != "" && IsTrimmed(p) && ',' !in p
  }

  lemma SplitThree(x: string, y: string, z: string)
    requires ',' !in x && ',' !in y && ',' !in z
    ensures Split(x + "," + y + "," + z, ',') == [x, y, z]
  {
    assert x + "," + y + "," + z == x + [','] + (y + [','] + z);
    SplitPrefix(x, y + [','] + z, ',');
    SplitPrefix(y, z, ',');
    SplitNoSeparator(z, ',');
    Literals(x, y, z);
  }

  lemma KeptThree(x: string, y: string, z: string)
    ensures Kept([x, y, z]) ==
      (if x == "" then [] else [TrimSpace(x)]) + (if y == "" then [] else [TrimSpace(y)]) +
      (if z == "" then [] else [TrimSpace(z)])
  {
    Literals(x, y, z);
    KeptSnoc([], x);
    KeptSnoc([x], y);
    KeptSnoc([x, y], z);
  }

  /** White space around a path is removed. */
  lemma GetPathsSpaces(a: string, b: string, c: string)
    requires PlainPath(a) && PlainPath(b) && PlainPath(c)
    ensures Kept(Split(a + ", " + b + " , " + c, ',')) == [a, b, c]
  {
    assert AllSpace(" ") && AllSpace("");
    assert a + ", " + b + " , " + c == a + "," + (" " + b + " ") + "," + (" " + c);
    SplitThree(a, " " + b + " ", " " + c);
    TrimSpaceAround(" ", b, " ");
    TrimSpaceAround(" ", c, "");
    assert " " + c + "" == " " + c;
    TrimSpaceTrimmed(a);
    KeptThree(a, " " + b + " ", " " + c);
  }

  /** An empty piece between two commas is dropped. */
  lemma GetPathsEmptySegment(a: string, c: string)
    requires PlainPath(a) && PlainPath(c)
    ensures Kept(Split(a + ",," + c, ',')) == [a, c]
  {
    assert a + ",," + c == a + "," + "" + "," + c;
    SplitThree(a, "", c);
    TrimSpaceTrimmed(a);
    TrimSpaceTrimmed(c);
    KeptThree(a, "", c);
  }

  /** A piece of white space only is not empty, so it is kept, as "". */
  lemma GetPathsBlankPiece(a: string, c: string)
    requires PlainPath(a) && PlainPath(c)
    ensures Kept(Split(a + ", ," + c, ',')) == [a, "", c]
  {
    assert a + ", ," + c == a + "," + " " + "," + c;
    SplitThree(a, " ", c);
    TrimSpaceTrimmed(a);
    TrimSpaceTrimmed(c);
    TrimSpaceBlank(" ");
    KeptThree(a, " ", c);
  }

  // ------------------------------------------------------------- uniqueItems

  /** `items` with every repeated occurrence removed: an item is kept where
      it first occurs. */
  function Dedup(items: seq<string>): seq<string>
  {
    if items == [] then []
    else
      var init := items[..|items| - 1];
      var last := items[|items| - 1];
      if last in init then Dedup(init) else Dedup(init) + [last]
  }

  predicate Distinct(s: seq<string>) {
    forall i, j :: 0 <= i < j < |s| ==> s[i] != s[j]
  }

  /** The position of the first occurrence of `x` in `items`. */
  function FirstIndex(items: seq<string>, x: string): (k: nat)
    requires x in items
    ensures k < |items| && items[k] == x && x !in items[..k]
  {
    if items[0] == x then 0
    else
      var k := 1 + FirstIndex(items[1..], x);
      assert items[1..][..k - 1] == items[1..k];
      k
  }

  /** uniqueItems: one pass that appends each item not yet seen and records
      it in the seen-set. */
  method UniqueItems(items: seq<string>) returns (result: seq<string>)
    ensures result == Dedup(items)
  {
    result := [];
    var seen: set<string> := {};
    for i := 0 to |items|
      invariant result == Dedup(items[..i])
      invariant forall x :: x in seen <==> x in items[..i]
    {
      var item := items[i];
      assert items[..i + 1][..i] == items[..i];
      assert items[..i + 1] == items[..i] + [item];
      if item !in seen {
        result := result + [item];
        seen := seen + {item};
      }
    }
    assert items[..|items|] == items;
  }

  /** The result holds exactly the items of the input, each once. */
  lemma {:induction false} DedupElements(items: seq<string>)
    ensures forall x :: x in Dedup(items) <==> x in items
    ensures Distinct(Dedup(items))
    ensures |Dedup(items)| <= |items|
  {
    if items != [] {
      var init := items[..|items| - 1];
      DedupElements(init);
      assert items == init + [items[|items| - 1]];
    }
  }

  /** Items appear in the order of their first occurrence in the input. */
  lemma {:induction false} DedupOrder(items: seq<string>)
    ensures forall i, j :: 0 <= i < j < |Dedup(items)| ==>
      Dedup(items)[i] in items && Dedup(items)[j] in items &&
      FirstIndex(items, Dedup(items)[i]) < FirstIndex(items, Dedup(items)[j])
  {
    DedupElements(items);
    if items != [] {
      var init := items[..|items| - 1];
      var last := items[|items| - 1];
      DedupOrder(init);
      DedupElements(init);
      var d := Dedup(items);
      forall i, j | 0 <= i < j < |d|
        ensures FirstIndex(items, d[i]) < FirstIndex(items, d[j])
      {
        FirstIndexPrefix(items, init, d[i]);
        if j < |Dedup(init)| {
          FirstIndexPrefix(items, init, d[j]);
        } else {
          assert d[j] == last && last !in init;
          assert FirstIndex(items, d[j]) == |init| by {
            FirstIndexLast(items, init);
          }
        }
      }
    }
  }

  lemma FirstIndexPrefix(items: seq<string>, init: seq<string>, x: string)
    requires init <= items && x in init
    ensures x in items && FirstIndex(items, x) == FirstIndex(init, x)
  {
    var k, m := FirstIndex(items, x), FirstIndex(init, x);
    assert items[m] == x;
    assert init[..k] == items[..k] by {
      assert k <= m;
    }
  }

  lemma FirstIndexLast(items: seq<string>, init: seq<string>)
    requires |items| == |init| + 1 && init == items[..|init|] && items[|init|] !in init
    ensures FirstIndex(items, items[|init|]) == |init|
  {
    assert forall j :: 0 <= j < |init| ==> items[j] == init[j] && items[j] != items[|init|];
  }

  // ------------------------------------------------------------- expandTilde

  datatype TildeError = UserSpecificHome | HomeDirUnavailable(reason: string)

  const HomeErrorPrefix: string := "failed to fetch home directory: "

  /** The text of expandTilde's two errors; a failed home-directory lookup
      puts the lookup's own error text after a fixed prefix. */
  function TildeMessage(e: TildeError): (m: string)
    ensures e.UserSpecificHome? ==> m == "cannot expand user-specific home dir"
    ensures e.HomeDirUnavailable? ==>
      |m| >= |HomeErrorPrefix| && m[..|HomeErrorPrefix|] == HomeErrorPrefix && m[|HomeErrorPrefix|..] == e.reason
  {
    match e
    case UserSpecificHome => "cannot expand user-specific home dir"
    case HomeDirUnavailable(reason) => HomeErrorPrefix + reason
  }

  /** Every error has a message of its own: the text tells a user-specific
      path from a failed lookup, and one failed lookup from another. */
  lemma TildeMessageInjective(a: TildeError, b: TildeError)
    ensures TildeMessage(a) == TildeMessage(b) ==> a == b
  {
    if a.UserSpecificHome? && b.HomeDirUnavailable? {
      assert TildeMessage(a)[0] != TildeMessage(b)[0];
    }
    if a.HomeDirUnavailable? && b.UserSpecificHome? {
      assert TildeMessage(a)[0] != TildeMessage(b)[0];
    }
  }

  /** expandTilde. Only a leading `~` alone or followed by `/` or `\` is
      expanded; `~name` is refused before the home directory is looked up. */
  function ExpandTilde(path: string, env: Environment): (r: Result<string, TildeError>)
    ensures (path == "" || path[0] != '~') ==> r == Success(path)
    ensures r == Failure(UserSpecificHome)
            <==> |path| > 1 && path[0] == '~' && path[1] != '/' && path[1] != '\\'
    ensures r.Failure? && r.error.HomeDirUnavailable?
            <==> path != "" && path[0] == '~' && (|path| == 1 || path[1] == '/' || path[1] == '\\') && env.home.Failure?
    ensures r.Failure? && r.error.HomeDirUnavailable? ==> env.home.Failure? && r.error.reason == env.home.error
    ensures r.Success? && path != "" && path[0] == '~'
            ==> env.home.Success? && r.value == env.join(env.home.value, path[1..])
  {
    if path == "" then Success(path)
    else if path[0] != '~' then Success(path)
    else if |path| > 1 && path[1] != '/' && path[1] != '\\' then Failure(UserSpecificHome)
    else
      match env.home
      case Failure(reason) => Failure(HomeDirUnavailable(reason))
      case Success(dir) => Success(env.join(dir, path[1..]))
  }

  /** The cases of the unit tests: "", "/usr/local/bin" unchanged; "~" and
      "~/documents" joined to the home directory; "~user/documents" refused. */
  lemma ExpandTildeExamples(env: Environment)
    requires env.home.Success?
    ensures ExpandTilde("", env) == Success("")
    ensures ExpandTilde("/usr/local/bin", env) == Success("/usr/local/bin")
    ensures ExpandTilde("~", env) == Success(env.join(env.home.value, ""))
    ensures ExpandTilde("~/documents", env) == Success(env.join(env.home.value, "/documents"))
    ensures TildeMessage(ExpandTilde("~user/documents", env).error) == "cannot expand user-specific home dir"
  {
    assert "~"[1..] == "";
    assert "~/documents"[1..] == "/documents";
  }

  // ------------------------------------------------------------------- isURL

  /** isURL: longer than four characters and starting with "http". For a
      string that starts with the four ASCII bytes of "http", having more
      than four bytes and having more than four characters coincide. */
  predicate IsURL(source: string)
    ensures IsURL(source) <==> |source| > 4 && "http" <= source
  {
    |source| > 4 && source[..4] == "http"
  }

  lemma IsURLExamples()
    ensures IsURL("http://example.com") && IsURL("https://example.com")
    ensures !IsURL("/path/to/file.yaml") && !IsURL("./file.yaml") && !IsURL("") && !IsURL("http")
  {
    assert "http://example.com"[..4] == "http";
    assert "https://example.com"[..4] == "http";
    assert "/path/to/file.yaml"[0] != "http"[0];
    assert "./file.yaml"[0] != "http"[0];
  }

  // ---------------------------------------------------------------- getFiles

  /** What one configured path contributes: the glob matches of its
      tilde-expanded form, or nothing when expansion or globbing fails. */
  function MatchesOf(p: string, env: Environment): seq<string> {
    match ExpandTilde(p, env)
    case Failure(_) => []
    case Success(path) =>
      match env.glob(path)
      case None => []
      case Some(matches) => matches
  }

  /** The matches of every configured path, concatenated in order. */
  function Gathered(paths: seq<string>, env: Environment): seq<string> {
    if paths == [] then []
    else Gathered(paths[..|paths| - 1], env) + MatchesOf(paths[|paths| - 1], env)
  }

  /** The files getFiles resolves. */
  function ResolvedFiles(paths: seq<string>, env: Environment): seq<string> {
    Dedup(Gathered(paths, env))
  }

  /** getFiles: expand, glob and collect every path, skipping the ones that
      fail, then remove repeated files. */
  method GetFiles(paths: seq<string>, env: Environment) returns (files: seq<string>)
    ensures files == ResolvedFiles(paths, env)
  {
    var all: seq<string> := [];
    for i := 0 to |paths|
      invariant all == Gathered(paths[..i], env)
    {
      assert paths[..i + 1][..i] == paths[..i];
      var p := paths[i];
      var path := ExpandTilde(p, env);
      if path.Failure? {
        continue;
      }
      var matches := env.glob(path.value);
      if matches.None? {
        continue;
      }
      all := all + matches.value;
    }
    assert paths[..|paths|] == paths;
    files := UniqueItems(all);
  }

  /** A file is resolved exactly when some configured path expands, globs
      successfully and matches it; and no file is resolved twice. */
  lemma ResolvedFilesMembers(paths: seq<string>, env: Environment, f: string)
    ensures f in ResolvedFiles(paths, env) <==> exists k :: 0 <= k < |paths| && f in MatchesOf(paths[k], env)
    ensures Distinct(ResolvedFiles(paths, env))
  {
    DedupElements(Gathered(paths, env));
    GatheredMembers(paths, env, f);
  }

  lemma {:induction false} GatheredMembers(paths: seq<string>, env: Environment, f: string)
    ensures f in Gathered(paths, env) <==> exists k :: 0 <= k < |paths| && f in MatchesOf(paths[k], env)
  {
    if paths != [] {
      var init := paths[..|paths| - 1];
      GatheredMembers(init, env, f);
      if exists k :: 0 <= k < |init| && f in MatchesOf(init[k], env) {
        var k :| 0 <= k < |init| && f in MatchesOf(init[k], env);
        assert paths[k] == init[k];
      }
      if exists k :: 0 <= k < |paths| && f in MatchesOf(paths[k], env) {
        var k :| 0 <= k < |paths| && f in MatchesOf(paths[k], env);
        if k < |init| {
          assert init[k] == paths[k];
        }
      }
    }
  }
}
