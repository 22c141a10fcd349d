/** Keeping a caller's search inside the group that confines it to one repository and branch. A text is
    trimmed by its characters and scanned by its bytes; a string of bytes is one of chars below 256. */
module Query {
  import opened Options
  import opened Text

  // ---------------------------------------------------------------- how a query is read

  /** How many backslashes stand right before a position. */
  function Run(s: string, i: nat): nat
    requires i <= |s|
  {
    if i == 0 || s[i - 1] != '\\' then 0 else 1 + Run(s, i - 1)
  }

  /** An odd run of backslashes: the last of them escapes what follows. */
  predicate Escaped(s: string, i: nat)
    requires i <= |s|
  {
    Run(s, i) % 2 == 1
  }

  function Weight(s: string, i: nat): int
    requires i < |s|
  {
    if Escaped(s, i) then 0 else if s[i] == '(' then 1 else if s[i] == ')' then -1 else 0
  }

  /** How many groups are open before a position. */
  function Depth(s: string, i: nat): int
    requires i <= |s|
  {
    if i == 0 then 0 else Depth(s, i - 1) + Weight(s, i - 1)
  }

  /** A group opens at `from` and what closes it, first, is at `to`. */
  predicate Closes(s: string, from: nat, to: nat)
    requires from < to < |s|
  {
    && s[from] == '(' && !Escaped(s, from)
    && Depth(s, to + 1) == Depth(s, from)
    && forall i :: from < i <= to ==> Depth(s, i) > Depth(s, from)
  }

  /** Every group of the text is opened and closed within it. */
  predicate SelfContained(s: string) {
    Depth(s, |s|) == 0 && forall i :: 0 <= i <= |s| ==> Depth(s, i) >= 0
  }

  // ---------------------------------------------------------------- the check

  /** The scan as it runs: forward, a backslash taking the next byte with it. */
  method Balanced(query: string) returns (ok: bool)
    ensures ok <==> SelfContained(query)
  {
    var depth, i := 0, 0;
    while i < |query|
      invariant i <= |query| + 1
      invariant i <= |query| ==> !Escaped(query, i) && depth == Depth(query, i)
      invariant i == |query| + 1 ==> depth == Depth(query, |query|)
      invariant forall j :: 0 <= j <= i && j <= |query| ==> Depth(query, j) >= 0
      decreases |query| + 1 - i
    {
      assert Depth(query, i + 1) == Depth(query, i) + Weight(query, i);
      if query[i] == '\\' {
        assert Run(query, i + 1) == Run(query, i) + 1;
        if i + 1 < |query| {
          assert Depth(query, i + 2) == Depth(query, i + 1) + Weight(query, i + 1);
        }
        i := i + 1;
      } else if query[i] == '(' {
        depth := depth + 1;
      } else if query[i] == ')' {
        depth := depth - 1;
        if depth < 0 {
          return false;
        }
      }
      i := i + 1;
    }
    return depth == 0;
  }

  const META := "\\.+*?()|[]{}^$"

  function QuoteMeta(s: string): string {
    if s == "" then "" else (if s[0] in META then ['\\', s[0]] else [s[0]]) + QuoteMeta(s[1..])
  }

  /** What a pattern says literally, when it says nothing else: a character stands for itself unless it
      is one of the operators, and an operator after a backslash does too. */
  function Literally(pattern: string): Option<string> {
    if pattern == "" then Some("")
    else if pattern[0] == '\\' then
      if |pattern| > 1 && Operator(pattern[1]) then Before(pattern[1], Literally(pattern[2..])) else None
    else if Operator(pattern[0]) then None
    else Before(pattern[0], Literally(pattern[1..]))
  }

  predicate Operator(c: char) {
    c in {'\\', '.', '+', '*', '?', '(', ')', '|', '[', ']', '{', '}', '^', '$'}
  }

  function Before(c: char, rest: Option<string>): Option<string> {
    if rest.Some? then Some([c] + rest.value) else None
  }

  /** A quoted name is a pattern of that name and of no other. */
  lemma {:induction false} QuotedReadsLiterally(s: string)
    ensures Literally(QuoteMeta(s)) == Some(s)
  {
    if s != "" {
      var head := if s[0] in META then ['\\', s[0]] else [s[0]];
      var pattern := QuoteMeta(s);
      assert pattern == head + QuoteMeta(s[1..]);
      assert pattern[|head|..] == QuoteMeta(s[1..]);
      OperatorsQuoted(s[0]);
      hide Operator;
      QuotedReadsLiterally(s[1..]);
      assert s == [s[0]] + s[1..];
    }
  }

  lemma OperatorsQuoted(c: char)
    ensures c in META <==> Operator(c)
  {}

  /** What confines the query: the repository, matched whole and literally, and the branch. */
  function Filters(repository: string, branch: string): string {
    "repo:^" + QuoteMeta(repository) + "$ branch:" + branch + " "
  }

  /** The query in the adapter's own group, with the spaces that make it one. */
  function Grouped(query: string): string { "( " + query + " )" }

  method ScopedQuery(repository: string, branch: string, query: string) returns (text: Option<string>)
    ensures text.Some? <==> TrimSpace(query) != "" && SelfContained(TrimSpace(query))
    ensures text.Some? ==> text.value == Filters(repository, branch) + Grouped(TrimSpace(query))
    ensures text.Some? ==>
              text.value == "repo:^" + QuoteMeta(repository) + "$ branch:" + branch + " ( " + TrimSpace(query) + " )"
  {
    var trimmed := TrimSpace(query);
    if trimmed == "" {
      return None;
    }
    BytesReadAlike(trimmed);
    var ok := Balanced(Bytes(trimmed));
    if !ok {
      return None;
    }
    text := Some("repo:^" + QuoteMeta(repository) + "$ branch:" + branch + " " + ("( " + trimmed + " )"));
    assert " " + ("( " + trimmed + " )") == " ( " + trimmed + " )";
  }

  // ---------------------------------------------------------------- bytes and characters

  predicate NoStructure(u: string) { forall i :: 0 <= i < |u| ==> u[i] != '\\' && u[i] != '(' && u[i] != ')' }

  /** Bytes without structure change no depth, and end any run of backslashes. */
  lemma {:induction false} DepthOver(p: string, u: string, j: nat)
    requires NoStructure(u) && j <= |u|
    ensures Depth(p + u, |p| + j) == Depth(p, |p|)
    ensures j > 0 ==> Run(p + u, |p| + j) == 0
  {
    if j == 0 {
      DepthBefore(p, u, |p|);
    } else {
      DepthOver(p, u, j - 1);
      assert (p + u)[|p| + j - 1] == u[j - 1];
    }
  }

  predicate NeverBelow(s: string) { forall i :: 0 <= i <= |s| ==> Depth(s, i) >= 0 }

  lemma DepthsBefore(p: string, u: string)
    ensures forall i :: 0 <= i <= |p| ==> Depth(p + u, i) == Depth(p, i)
  {
    forall i | 0 <= i <= |p| ensures Depth(p + u, i) == Depth(p, i) { DepthBefore(p, u, i); }
  }

  /** What one more character does, wherever it stands. */
  function Change(run: nat, c: char): int { if run % 2 == 1 then 0 else if c == '(' then 1 else if c == ')' then -1 else 0 }

  lemma OneCharMore(p: string, c: char)
    ensures Depth(p + [c], |p| + 1) == Depth(p, |p|) + Change(Run(p, |p|), c)
    ensures Run(p + [c], |p| + 1) == if c == '\\' then Run(p, |p|) + 1 else 0
    ensures NeverBelow(p + [c]) <==> NeverBelow(p) && Depth(p + [c], |p| + 1) >= 0
  {
    DepthsBefore(p, [c]);
    RunBefore(p, [c], |p|);
    if NeverBelow(p + [c]) {
      forall i | 0 <= i <= |p| ensures Depth(p, i) >= 0 { assert Depth(p + [c], i) >= 0; }
    }
  }

  /** Bytes without structure change nothing. */
  lemma NothingMore(p: string, u: string)
    requires NoStructure(u) && u != ""
    ensures Depth(p + u, |p + u|) == Depth(p, |p|) && Run(p + u, |p + u|) == 0
    ensures NeverBelow(p + u) <==> NeverBelow(p)
  {
    DepthOver(p, u, |u|);
    DepthsBefore(p, u);
    if NeverBelow(p + u) {
      forall i | 0 <= i <= |p| ensures Depth(p, i) >= 0 { assert Depth(p + u, i) >= 0; }
    }
    if NeverBelow(p) {
      forall i | 0 <= i <= |p + u| ensures Depth(p + u, i) >= 0 {
        if i > |p| { DepthOver(p, u, i - |p|); }
      }
    }
  }

  lemma {:induction false} BytesDepth(s: string)
    ensures Depth(Bytes(s), |Bytes(s)|) == Depth(s, |s|) && Run(Bytes(s), |Bytes(s)|) == Run(s, |s|)
    ensures NeverBelow(Bytes(s)) <==> NeverBelow(s)
  {
    if s != "" {
      var p, c := s[..|s| - 1], s[|s| - 1];
      assert s == p + [c] && Bytes(s) == Bytes(p) + Utf8(c);
      BytesDepth(p);
      HighBytes(c);
      OneCharMore(p, c);
      hide Depth, Run, NeverBelow, Bytes, Utf8;
      if c as int < 0x80 {
        OneCharMore(Bytes(p), c);
      } else {
        NothingMore(p, [c]);
        NothingMore(Bytes(p), Utf8(c));
      }
    } else {
      assert Bytes("") == "";
    }
  }

  /** Reading a text by its bytes and by its characters comes to the same. */
  lemma BytesReadAlike(s: string)
    ensures SelfContained(Bytes(s)) <==> SelfContained(s)
  {
    BytesDepth(s);
  }

  // ---------------------------------------------------------------- why it is enough

  /** After anything but a backslash a text is read as if it stood alone. */
  lemma {:induction false} RunAfter(p: string, s: string, i: nat)
    requires i <= |s| && (p == "" || p[|p| - 1] != '\\')
    ensures Run(p + s, |p| + i) == Run(s, i)
  {
    if i > 0 && s[i - 1] == '\\' {
      RunAfter(p, s, i - 1);
    }
  }

  lemma {:induction false} DepthAfter(p: string, s: string, i: nat)
    requires i <= |s| && (p == "" || p[|p| - 1] != '\\')
    ensures Depth(p + s, |p| + i) == Depth(p + s, |p|) + Depth(s, i)
  {
    if i > 0 {
      DepthAfter(p, s, i - 1);
      RunAfter(p, s, i - 1);
      assert (p + s)[|p| + i - 1] == s[i - 1];
    }
  }

  /** What follows a position does not change how the text before it is read. */
  lemma {:induction false} RunBefore(s: string, t: string, i: nat)
    requires i <= |s|
    ensures Run(s + t, i) == Run(s, i)
  {
    if i > 0 && s[i - 1] == '\\' {
      RunBefore(s, t, i - 1);
    }
  }

  lemma {:induction false} DepthBefore(s: string, t: string, i: nat)
    requires i <= |s|
    ensures Depth(s + t, i) == Depth(s, i)
  {
    if i > 0 {
      DepthBefore(s, t, i - 1);
      RunBefore(s, t, i - 1);
      assert (s + t)[i - 1] == s[i - 1];
    }
  }

  /** The depths inside the group: one more than in the query alone, and the padding takes whatever
      a last backslash escapes, so the final parenthesis always counts. */
  lemma GroupDepths(query: string)
    ensures var w := Grouped(query);
            && Depth(w, 1) == 1 && Depth(w, |w| - 1) == 1 + Depth(query, |query|) && Depth(w, |w|) == Depth(query, |query|)
            && forall j :: 0 <= j <= |query| ==> Depth(w, 2 + j) == 1 + Depth(query, j)
  {
    var w := Grouped(query);
    assert w == "( " + (query + " )");
    assert Depth(w, 1) == 1 && Depth(w, 2) == 1 by { assert Depth(w, 0) == 0 && Run(w, 0) == 0 && w[0] == '(' && w[1] == ' '; }
    forall j | 0 <= j <= |query| ensures Depth(w, 2 + j) == 1 + Depth(query, j) {
      DepthAfter("( ", query + " )", j);
      DepthBefore(query, " )", j);
    }
    var k := |query| + 2;
    assert w[k] == ' ' && w[k + 1] == ')' && |w| == k + 2;
    assert Weight(w, k) == 0;
    assert Run(w, k + 1) == 0;
    assert Depth(w, k + 1) == Depth(w, k);
    assert Weight(w, k + 1) == -1;
  }

  /** A query is let through exactly when the group the adapter opens is closed by the adapter's
      own last parenthesis, and nothing of the query is outside it: whatever the query holds, a
      final backslash included, and whatever the repository and the branch are called. */
  lemma StaysInGroup(repository: string, branch: string, query: string)
    ensures var p, w := Filters(repository, branch), Grouped(query);
            SelfContained(query) <==> Closes(p + w, |p|, |p + w| - 1)
  {
    hide Depth, QuoteMeta;
    var p, w := Filters(repository, branch), Grouped(query);
    assert p[|p| - 1] == ' ';
    GroupDepths(query);
    RunAfter(p, w, 0);
    assert (p + w)[|p|] == '(';
    forall i | 0 <= i <= |w| ensures Depth(p + w, |p| + i) == Depth(p + w, |p|) + Depth(w, i) {
      DepthAfter(p, w, i);
    }
    if SelfContained(query) {
      forall i | |p| < i <= |p + w| - 1 ensures Depth(p + w, i) > Depth(p + w, |p|) {
        assert Depth(p + w, |p| + (i - |p|)) == Depth(p + w, |p|) + Depth(w, i - |p|);
        Inside(query, i - |p|);
      }
    }
    if Closes(p + w, |p|, |p + w| - 1) {
      forall j | 0 <= j <= |query| ensures Depth(query, j) >= 0 {
        assert Depth(w, 2 + j) == 1 + Depth(query, j);
        assert Depth(p + w, |p| + (2 + j)) > Depth(p + w, |p|);
      }
    }
  }

  lemma Inside(query: string, i: nat)
    requires SelfContained(query) && 0 < i < |Grouped(query)|
    ensures Depth(Grouped(query), i) >= 1
  {
    hide Depth;
    GroupDepths(query);
    if 2 <= i <= |query| + 2 {
      assert Depth(Grouped(query), 2 + (i - 2)) == 1 + Depth(query, i - 2);
    }
  }

  /** The padding is what makes it hold for a last backslash: without it such a query, let through
      by the check, would take the adapter's own parenthesis with it. */
  lemma PaddingNeeded()
    ensures SelfContained("\\")
    ensures !Closes("(" + "\\" + ")", 0, 2)
  {
    var s := "(\\)";
    assert Depth("\\", 0) == 0 && Depth("\\", 1) == 0;
    assert Run(s, 0) == 0 && Run(s, 1) == 0 && Run(s, 2) == 1;
    assert Depth(s, 1) == 1 && Depth(s, 2) == 1 && Depth(s, 3) == 1;
    assert "(" + "\\" + ")" == s;
  }
}
