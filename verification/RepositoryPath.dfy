/** Which paths a caller may name: plain ones inside the repository. */
module RepositoryPath {
  import opened Options
  import opened Text

  /** Lexical cleaning, part by part: nothing and "." say nothing, ".." takes back the part before it. */
  function CleanOnto(stack: seq<string>, parts: seq<string>, rooted: bool): seq<string>
    decreases |parts|
  {
    if parts == [] then stack
    else
      var p := parts[0];
      var next :=
        if p == "" || p == "." then stack
        else if p != ".." then stack + [p]
        else if stack != [] && stack[|stack| - 1] != ".." then stack[..|stack| - 1]
        else if rooted then stack
        else stack + [p];
      CleanOnto(next, parts[1..], rooted)
  }

  function Cleaned(path: string): seq<string> { CleanOnto([], Split(path, '/'), HasPrefix(path, "/")) }

  function CleanPath(path: string): string {
    var stack := Cleaned(path);
    if HasPrefix(path, "/") then "/" + (if stack == [] then "" else Join(stack, '/'))
    else if stack == [] then "."
    else Join(stack, '/')
  }

  /** Walked directory by directory from so many below the root, it steps above the root. */
  predicate Climbs(below: nat, parts: seq<string>)
    decreases |parts|
  {
    parts != [] &&
    var p := parts[0];
    if p == "" || p == "." then Climbs(below, parts[1..])
    else if p != ".." then Climbs(below + 1, parts[1..])
    else below == 0 || Climbs(below - 1, parts[1..])
  }

  predicate IsName(p: string) { p != "" && p != "." && p != ".." && '/' !in p }

  predicate Names(stack: seq<string>) { forall i :: 0 <= i < |stack| ==> IsName(stack[i]) }

  /** Named part by part below the root, or the root itself. */
  predicate Inside(path: string) { path == "." || Names(Split(path, '/')) }

  // ---------------------------------------------------------------- where a path leads

  /** One step down a directory tree from a directory, which is the names that lead to it from the root:
      nothing and "." stay, ".." goes to the directory above - the root is above itself. */
  function Step(at: seq<string>, part: string): seq<string> {
    match part
    case "" => at
    case "." => at
    case ".." => if at == [] then [] else at[..|at| - 1]
    case name => at + [name]
  }

  function Walk(at: seq<string>, parts: seq<string>): seq<string>
    decreases |parts|
  {
    if parts == [] then at else Walk(Step(at, parts[0]), parts[1..])
  }

  lemma {:induction false} WalkOn(at: seq<string>, a: seq<string>, b: seq<string>)
    ensures Walk(at, a + b) == Walk(Walk(at, a), b)
    decreases |a|
  {
    if a == [] {
      assert a + b == b;
    } else {
      assert (a + b)[1..] == a[1..] + b;
      WalkOn(Step(at, a[0]), a[1..], b);
    }
  }

  lemma WalkOne(at: seq<string>, stack: seq<string>, p: string)
    ensures Walk(at, stack + [p]) == Step(Walk(at, stack), p)
  {
    WalkOn(at, stack, [p]);
    assert Walk(Walk(at, stack), [p]) == Walk(Step(Walk(at, stack), p), [p][1..]);
  }

  /** A part that says nothing is not kept, and below the root neither is a step up. */
  ghost predicate Kept(stack: seq<string>, rooted: bool) {
    forall p :: p in stack ==> p != "" && p != "." && '/' !in p && (rooted ==> p != "..")
  }

  lemma TopKept(stack: seq<string>, rooted: bool)
    requires Kept(stack, rooted)
    ensures rooted && stack != [] ==> stack[|stack| - 1] != ".."
  {
    assert stack != [] ==> stack[|stack| - 1] in stack;
  }

  /** What has been kept so far and what is still to come lead where the path leads. */
  lemma {:induction false} CleanLeads(at: seq<string>, stack: seq<string>, parts: seq<string>, rooted: bool)
    requires Kept(stack, rooted) && (rooted ==> at == []) && forall p :: p in parts ==> '/' !in p
    ensures Walk(at, CleanOnto(stack, parts, rooted)) == Walk(Walk(at, stack), parts)
    ensures Kept(CleanOnto(stack, parts, rooted), rooted)
    decreases |parts|
  {
    if parts != [] {
      var p, n := parts[0], |stack|;
      assert p in parts;
      TopKept(stack, rooted);
      if p == "" || p == "." {
        CleanLeads(at, stack, parts[1..], rooted);
      } else if p == ".." && n > 0 && stack[n - 1] != ".." {
        WalkOne(at, stack[..n - 1], stack[n - 1]);
        assert stack == stack[..n - 1] + [stack[n - 1]] && stack[n - 1] in stack;
        CleanLeads(at, stack[..n - 1], parts[1..], rooted);
      } else if p == ".." && rooted {
        CleanLeads(at, stack, parts[1..], rooted);
      } else {
        WalkOne(at, stack, p);
        CleanLeads(at, stack + [p], parts[1..], rooted);
      }
    }
  }

  /** Cleaning changes how a path is written and not where it leads: from every directory a relative
      path and its clean form lead to one place, and so do an absolute path and its clean form. */
  lemma CleanSamePlace(at: seq<string>, path: string)
    requires HasPrefix(path, "/") ==> at == []
    ensures Walk(at, Split(CleanPath(path), '/')) == Walk(at, Split(path, '/'))
  {
    var rooted, stack := HasPrefix(path, "/"), Cleaned(path);
    SplitFree(path, '/');
    CleanLeads(at, [], Split(path, '/'), rooted);
    assert Walk(at, []) == at;
    if stack == [] {
      ShortPaths(at);
    } else {
      SplitJoin(stack, '/');
      if rooted {
        SplitHead("", '/', Join(stack, '/'));
        assert "" + ['/'] + Join(stack, '/') == "/" + Join(stack, '/');
        assert ([""] + stack)[1..] == stack;
      }
    }
  }

  lemma ShortPaths(at: seq<string>)
    ensures Walk(at, Split(".", '/')) == at && Walk(at, Split("/", '/')) == at
  {
    SplitPiece(".", '/');
    SplitHead("", '/', "");
    SplitPiece("", '/');
    assert "" + ['/'] + "" == "/";
    assert Walk(at, ["."]) == Walk(Step(at, "."), ["."][1..]);
    assert Walk(at, ["", ""]) == Walk(Step(at, ""), ["", ""][1..]);
    assert ["", ""][1..] == [""];
    assert Walk(at, [""]) == Walk(Step(at, ""), [""][1..]);
  }

  // ---------------------------------------------------------------- cleaning and walking

  predicate StartsAbove(stack: seq<string>) { stack != [] && stack[0] == ".." }

  lemma {:induction false} StaysAbove(stack: seq<string>, parts: seq<string>)
    requires StartsAbove(stack) && forall p :: p in parts ==> '/' !in p
    requires forall p :: p in stack ==> p != "" && '/' !in p
    ensures StartsAbove(CleanOnto(stack, parts, false))
    ensures forall p :: p in CleanOnto(stack, parts, false) ==> p != "" && '/' !in p
    decreases |parts|
  {
    if parts != [] {
      var p := parts[0];
      assert p in parts;
      if p == "" || p == "." {
        StaysAbove(stack, parts[1..]);
      } else if p == ".." && stack[|stack| - 1] != ".." {
        StaysAbove(stack[..|stack| - 1], parts[1..]);
      } else {
        StaysAbove(stack + [p], parts[1..]);
      }
    }
  }

  /** A cleaned relative path starts above the root exactly when walking it steps above the root;
      otherwise it is names all through. */
  lemma {:induction false} ClimbsExactly(stack: seq<string>, parts: seq<string>)
    requires Names(stack) && forall p :: p in parts ==> '/' !in p
    ensures StartsAbove(CleanOnto(stack, parts, false)) <==> Climbs(|stack|, parts)
    ensures !Climbs(|stack|, parts) ==> Names(CleanOnto(stack, parts, false))
    ensures forall p :: p in CleanOnto(stack, parts, false) ==> p != "" && '/' !in p
    decreases |parts|
  {
    if parts != [] {
      var p := parts[0];
      assert p in parts;
      if p == "" || p == "." {
        ClimbsExactly(stack, parts[1..]);
      } else if p != ".." {
        ClimbsExactly(stack + [p], parts[1..]);
      } else if stack == [] {
        StaysAbove([p], parts[1..]);
        assert stack + [p] == [p];
      } else {
        ClimbsExactly(stack[..|stack| - 1], parts[1..]);
      }
    }
  }

  lemma HasSlash(text: string)
    requires HasPrefix(text, "../")
    ensures '/' in text
  {
    assert text[2] == '/';
  }

  /** A joined path shows in its text how it starts. */
  lemma StartShows(stack: seq<string>)
    requires stack != [] && forall p :: p in stack ==> p != "" && '/' !in p
    ensures var text := Join(stack, '/');
            && text != "" && text[0] != '/' && text == stack[0] + text[|stack[0]|..]
            && (StartsAbove(stack) <==> text == ".." || HasPrefix(text, "../"))
  {
    var text, first := Join(stack, '/'), stack[0];
    assert first in stack && first[0] != '/';
    if |stack| == 1 {
      if HasPrefix(text, "../") { HasSlash(text); }
    } else {
      var rest := Join(stack[1..], '/');
      assert text == first + ['/'] + rest;
      assert text[|first|] == '/';
      if text == ".." || HasPrefix(text, "../") {
        assert text[0] == '.' && text[1] == '.';
        assert |first| >= 2;
        assert |text| > 2 && text[2] == '/';
        assert |first| == 2;
        assert first == "..";
      }
      if first == ".." {
        assert text[..3] == "../";
      }
    }
  }

  /** Refuses what is blank, absolute, or steps above the root; what is let through is a clean path of
      names inside the repository. */
  method ValidatePath(path: string) returns (clean: Option<string>)
    ensures clean.Some? <==> !Blank(path) && !HasPrefix(path, "/") && !Climbs(0, Split(path, '/'))
    ensures clean.Some? ==> clean.value == CleanPath(path) && Inside(clean.value)
  {
    hide IsSpace, Blank, TrimSpace;
    TrimSpaceEmpty(path);
    if TrimSpace(path) == "" {
      return None;
    }
    var cleaned := CleanPath(path);
    if HasPrefix(path, "/") {
      assert HasPrefix(cleaned, "/");
    } else {
      CleanedShows(path);
    }
    if HasPrefix(cleaned, "/") {
      return None;
    }
    if cleaned == ".." || HasPrefix(cleaned, "../") {
      return None;
    }
    return Some(cleaned);
  }

  lemma CleanedShows(path: string)
    requires !HasPrefix(path, "/")
    ensures !HasPrefix(CleanPath(path), "/")
    ensures CleanPath(path) == ".." || HasPrefix(CleanPath(path), "../") <==> Climbs(0, Split(path, '/'))
    ensures !Climbs(0, Split(path, '/')) ==> Inside(CleanPath(path))
  {
    hide Climbs, Split, CleanOnto;
    SplitFree(path, '/');
    ClimbsExactly([], Split(path, '/'));
    var stack := Cleaned(path);
    if stack != [] {
      StartShows(stack);
      if !Climbs(0, Split(path, '/')) {
        forall p | p in stack ensures '/' !in p {}
        SplitJoin(stack, '/');
      }
    }
  }
}
