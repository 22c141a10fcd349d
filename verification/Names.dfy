/** The names the data directory is addressed by: which names a user may choose, the search ref
    and graph name generated for a member, and which shard files belong to a repository. */
module Names {
  import opened Text

  const FULL_SHA: nat := 40
  const SHORT_SHA: nat := 12
  const MAX_NAME_LENGTH: nat := 100

  predicate IsAlphanumeric(c: char) {
    IsDigit(c) || 'a' <= c <= 'z' || 'A' <= c <= 'Z'
  }

  predicate IsNameChar(c: char) {
    IsAlphanumeric(c) || c == '.' || c == '_' || c == '-'
  }

  /** The allowlist every repository name and context id has to match. */
  predicate ValidName(name: string) {
    && 0 < |name| <= MAX_NAME_LENGTH
    && IsAlphanumeric(name[0])
    && forall i :: 0 <= i < |name| ==> IsNameChar(name[i])
  }

  /** Exactly the names of 1 to 100 letters, digits, dots, underscores and dashes that begin with a letter
      or a digit. */
  lemma ValidNameExactly(name: string)
    ensures ValidName(name) <==> 1 <= |name| <= 100 && Listed(name[0]) && forall i :: 0 <= i < |name| ==> Listed(name[i]) || name[i] in "._-"
  {
    forall c: char ensures IsAlphanumeric(c) <==> Listed(c) {
      DigitListed(c);
      LowerListed(c);
      UpperListed(c);
    }
    hide IsAlphanumeric, Listed;
  }

  predicate Listed(c: char) {
    c in "0123456789" || c in "abcdefghijklmnopqrstuvwxyz" || c in "ABCDEFGHIJKLMNOPQRSTUVWXYZ"
  }

  lemma DigitListed(c: char)
    ensures IsDigit(c) <==> c in "0123456789"
  {}

  lemma LowerListed(c: char)
    ensures 'a' <= c <= 'z' <==> c in "abcdefghijklmnopqrstuvwxyz"
  {}

  lemma UpperListed(c: char)
    ensures 'A' <= c <= 'Z' <==> c in "ABCDEFGHIJKLMNOPQRSTUVWXYZ"
  {}

  /** So a valid name is one element of a path, and not the directory itself or the one above. */
  lemma ValidNameIsElement(name: string)
    requires ValidName(name)
    ensures name != "" && '/' !in name && name != "." && name != ".."
  {}

  function ShortSha(revision: string): string
    requires |revision| >= SHORT_SHA
  {
    revision[..SHORT_SHA]
  }

  /** The branch one member is searched on. Only a context of several repositories spells the
      repository out. */
  function SearchRef(id: string, several: bool, repository: string, revision: string): string
    requires |revision| >= SHORT_SHA
  {
    if several then "vacmcp/" + repository + "-" + id + "-" + ShortSha(revision)
    else "vacmcp/" + id + "-" + ShortSha(revision)
  }

  /** The graph project one member is traced in. */
  function GraphRef(id: string, repository: string, revision: string): string
    requires |revision| >= SHORT_SHA
  {
    "vacmcp-" + repository + "-" + id + "-" + ShortSha(revision)
  }

  // ---------------------------------------------------------------- what a generated name tells

  /** The part of a generated name after its prefix: some text, a dash, and a short SHA. */
  lemma DashedSplit(x: string, s: string, y: string, t: string)
    requires |s| == |t|
    ensures x + "-" + s == y + "-" + t <==> x == y && s == t
  {
    var a, b := x + "-" + s, y + "-" + t;
    assert a[..|x|] == x && a[|x| + 1..] == s;
    assert b[..|y|] == y && b[|y| + 1..] == t;
    if a == b {
      assert |x| == |y|;
    }
  }

  /** Two graph names are one exactly when repository-dash-id and short SHA agree: the name does not
      say where the repository's name ends. */
  lemma GraphRefClash(id: string, r: string, v: string, id': string, r': string, v': string)
    requires |v| >= SHORT_SHA && |v'| >= SHORT_SHA
    ensures GraphRef(id, r, v) == GraphRef(id', r', v') <==>
            r + "-" + id == r' + "-" + id' && ShortSha(v) == ShortSha(v')
  {
    var x, y := "vacmcp-" + r + "-" + id, "vacmcp-" + r' + "-" + id';
    assert GraphRef(id, r, v) == x + "-" + ShortSha(v);
    assert GraphRef(id', r', v') == y + "-" + ShortSha(v');
    DashedSplit(x, ShortSha(v), y, ShortSha(v'));
    assert x == "vacmcp-" + (r + "-" + id) && y == "vacmcp-" + (r' + "-" + id');
    Prefixed("vacmcp-", r + "-" + id, r' + "-" + id');
  }

  lemma Prefixed(p: string, x: string, y: string)
    ensures p + x == p + y <==> x == y
  {
    assert (p + x)[|p|..] == x && (p + y)[|p|..] == y;
  }

  /** Within one repository the graph name determines the context id and the short SHA. */
  lemma GraphRefDetermines(r: string, id: string, v: string, id': string, v': string)
    requires |v| >= SHORT_SHA && |v'| >= SHORT_SHA
    ensures GraphRef(id, r, v) == GraphRef(id', r, v') <==> id == id' && ShortSha(v) == ShortSha(v')
  {
    GraphRefClash(id, r, v, id', r, v');
    assert r + "-" + id == (r + "-") + id && r + "-" + id' == (r + "-") + id';
    Prefixed(r + "-", id, id');
  }

  /** Within one clone and among contexts of one kind, over one repository or over several, the
      search ref determines the context id and the short SHA. */
  lemma SearchRefDetermines(several: bool, r: string, id: string, v: string, id': string, v': string)
    requires |v| >= SHORT_SHA && |v'| >= SHORT_SHA
    ensures SearchRef(id, several, r, v) == SearchRef(id', several, r, v') <==> id == id' && ShortSha(v) == ShortSha(v')
  {
    if several {
      var x, y := "vacmcp/" + r + "-" + id, "vacmcp/" + r + "-" + id';
      assert SearchRef(id, several, r, v) == x + "-" + ShortSha(v);
      assert SearchRef(id', several, r, v') == y + "-" + ShortSha(v');
      DashedSplit(x, ShortSha(v), y, ShortSha(v'));
      assert x == ("vacmcp/" + r + "-") + id && y == ("vacmcp/" + r + "-") + id';
      Prefixed("vacmcp/" + r + "-", id, id');
    } else {
      DashedSplit("vacmcp/" + id, ShortSha(v), "vacmcp/" + id', ShortSha(v'));
      Prefixed("vacmcp/", id, id');
    }
  }

  /** Across the two kinds a search ref is shared exactly when the single-repository context is
      called what the other spells out: repository, dash, id. */
  lemma SearchRefClash(r: string, id: string, v: string, id': string, v': string)
    requires |v| >= SHORT_SHA && |v'| >= SHORT_SHA
    ensures SearchRef(id, false, r, v) == SearchRef(id', true, r, v') <==> id == r + "-" + id' && ShortSha(v) == ShortSha(v')
  {
    var y := "vacmcp/" + r + "-" + id';
    assert SearchRef(id', true, r, v') == y + "-" + ShortSha(v');
    DashedSplit("vacmcp/" + id, ShortSha(v), y, ShortSha(v'));
    assert y == "vacmcp/" + (r + "-" + id');
    Prefixed("vacmcp/", id, r + "-" + id');
  }

  predicate NoHyphen(s: string) { '-' !in s }

  lemma HyphenInside(x: string, y: string, x': string, y': string)
    requires x + "-" + y == x' + "-" + y' && |x| < |x'|
    ensures !NoHyphen(x')
  {
    assert (x + "-" + y)[|x|] == '-';
    assert (x' + "-" + y')[|x|] == x'[|x|];
  }

  /** Where the first part has no hyphen, a dashed pair can be read back. */
  lemma HyphenFreePair(x: string, y: string, x': string, y': string)
    requires NoHyphen(x) && NoHyphen(x')
    requires x + "-" + y == x' + "-" + y'
    ensures x == x' && y == y'
  {
    var a, b := x + "-" + y, x' + "-" + y';
    if |x| < |x'| {
      HyphenInside(x, y, x', y');
    } else if |x'| < |x| {
      HyphenInside(x', y', x, y);
    }
    assert a[..|x|] == x && b[..|x'|] == x' && a[|x| + 1..] == y && b[|x'| + 1..] == y';
  }

  /** With hyphen-free repository names a graph name says everything: repository, id, short SHA. */
  lemma GraphRefRecovers(id: string, r: string, v: string, id': string, r': string, v': string)
    requires |v| >= SHORT_SHA && |v'| >= SHORT_SHA
    requires NoHyphen(r) && NoHyphen(r')
    requires GraphRef(id, r, v) == GraphRef(id', r', v')
    ensures r == r' && id == id' && ShortSha(v) == ShortSha(v')
  {
    GraphRefClash(id, r, v, id', r', v');
    HyphenFreePair(r, id, r', id');
  }

  /** Without that, two valid pairs can share a graph: `a` with `b-c`, and `a-b` with `c`. */
  lemma HyphensClash(v: string)
    requires |v| >= SHORT_SHA
    ensures ValidName("a") && ValidName("b-c") && ValidName("a-b") && ValidName("c")
    ensures GraphRef("b-c", "a", v) == GraphRef("c", "a-b", v)
  {
    assert "a" + "-" + "b-c" == "a-b" + "-" + "c";
    GraphRefClash("b-c", "a", v, "c", "a-b", v);
  }

  /** Within one context the graph names of two members tell their repositories apart. */
  lemma GraphRefTellsRepository(id: string, r1: string, v1: string, r2: string, v2: string)
    requires |v1| >= SHORT_SHA && |v2| >= SHORT_SHA
    requires GraphRef(id, r1, v1) == GraphRef(id, r2, v2)
    ensures r1 == r2
  {
    GraphRefClash(id, r1, v1, id, r2, v2);
    var a, b := r1 + "-" + id, r2 + "-" + id;
    assert a[..|r1|] == r1 && b[..|r2|] == r2;
  }

  // ---------------------------------------------------------------- shard files

  /** The name of one shard file of a repository, at one format version and shard number. */
  function ShardFile(repository: string, version: string, number: string): string {
    repository + "_v" + version + "." + number + ".zoekt"
  }

  /** A file name the anchored pattern of a repository selects. */
  ghost predicate IsShardOf(file: string, repository: string) {
    exists version, number ::
      AllDigits(version) && AllDigits(number) && file == ShardFile(repository, version, number)
  }

  lemma SeparatorInside(a: string, c: char, d: string, a': string, d': string)
    requires a + [c] + d == a' + [c] + d' && |d| < |d'|
    ensures exists k :: 0 <= k < |d'| && d'[k] == c
  {
    var s, t, at := a + [c] + d, a' + [c] + d', |d'| - |d| - 1;
    assert |s| == |t|;
    assert s[|s| - |d| - 1] == c && t[|t| - |d| - 1] == d'[at];
  }

  /** A run of digits after a character that is none is found from the right in one way only. */
  lemma LastDigits(a: string, c: char, d: string, a': string, d': string)
    requires !IsDigit(c) && AllDigits(d) && AllDigits(d')
    requires a + [c] + d == a' + [c] + d'
    ensures a == a' && d == d'
  {
    var s, t := a + [c] + d, a' + [c] + d';
    assert |s| == |t|;
    if |d| < |d'| {
      SeparatorInside(a, c, d, a', d');
    } else if |d'| < |d| {
      SeparatorInside(a', c, d', a, d);
    }
    assert s[..|a|] == a && t[..|a'|] == a' && s[|a| + 1..] == d && t[|a'| + 1..] == d';
  }

  /** A shard file belongs to at most one repository, names that look like each other's shards
      included: app_v1_v16.00000.zoekt is app_v1's and not app's. */
  lemma OneOwner(file: string, r: string, r': string)
    requires IsShardOf(file, r) && IsShardOf(file, r')
    ensures r == r'
  {
    var v, n :| AllDigits(v) && AllDigits(n) && file == ShardFile(r, v, n);
    var v', n' :| AllDigits(v') && AllDigits(n') && file == ShardFile(r', v', n');
    var x, x' := r + "_v" + v, r' + "_v" + v';
    var a, a' := x + ['.'] + n, x' + ['.'] + n';
    assert file == a + ".zoekt" && file == a' + ".zoekt";
    assert a == file[..|file| - 6] && a' == file[..|file| - 6];
    LastDigits(x, '.', n, x', n');
    assert x == (r + "_") + ['v'] + v && x' == (r' + "_") + ['v'] + v';
    LastDigits(r + "_", 'v', v, r' + "_", v');
    assert (r + "_")[..|r|] == r && (r' + "_")[..|r'|] == r';
  }
}
