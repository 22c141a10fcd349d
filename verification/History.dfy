/** Reading `git log --name-only` output into one entry per commit and path. */
module History {
  import opened Options
  import opened Text
  import opened RepositoryPath

  const RECORD_SEPARATOR: char := 0x1E as char
  const FIELD_SEPARATOR: char := 0x1F as char
  const DEFAULT_LIMIT: nat := 100

  datatype Entry = Entry(commit: string, path: string, author: string, timestamp: string, message: string)

  /** The cap a query is answered under: its own, or the default when it gave none. */
  function HistoryLimit(limit: int): (cap: Option<nat>)
    ensures cap.None? <==> limit < 0
    ensures cap.Some? ==> cap.value > 0 && (limit > 0 ==> cap.value == limit) && (limit == 0 ==> cap.value == DEFAULT_LIMIT)
  {
    if limit < 0 then None else if limit == 0 then Some(DEFAULT_LIMIT) else Some(limit)
  }

  function TrimNewlines(s: string): string {
    if s != "" && s[|s| - 1] == '\n' then TrimNewlines(s[..|s| - 1]) else s
  }

  // ---------------------------------------------------------------- one record

  /** What a record says once, for all of its paths; None for text this format did not produce. */
  function HeadOf(record: string, normalize: string -> string): Option<Entry> {
    if TrimSpace(record) == "" then None
    else
      var fields := SplitN(record, FIELD_SEPARATOR, 5);
      if |fields| < 5 then None
      else Some(Entry(TrimSpace(fields[0]), "", TrimSpace(fields[1]), normalize(TrimSpace(fields[2])), TrimNewlines(fields[3])))
  }

  function PathsOf(lines: seq<string>): seq<string> {
    if lines == [] then []
    else
      var path := TrimSpace(lines[0]);
      (if path == "" then [] else [path]) + PathsOf(lines[1..])
  }

  function PathLines(record: string): seq<string>
    requires |SplitN(record, FIELD_SEPARATOR, 5)| == 5
  {
    Split(SplitN(record, FIELD_SEPARATOR, 5)[4], '\n')
  }

  function WithPaths(head: Entry, paths: seq<string>): (entries: seq<Entry>)
    ensures |entries| == |paths| && forall i :: 0 <= i < |paths| ==> entries[i] == head.(path := paths[i])
  {
    seq(|paths|, i requires 0 <= i < |paths| => head.(path := paths[i]))
  }

  function EntriesOf(record: string, normalize: string -> string): seq<Entry> {
    match HeadOf(record, normalize)
    case None => []
    case Some(head) => WithPaths(head, PathsOf(PathLines(record)))
  }

  function AllEntries(records: seq<string>, normalize: string -> string): seq<Entry> {
    if records == [] then [] else EntriesOf(records[0], normalize) + AllEntries(records[1..], normalize)
  }

  /** Everything the output says: no query, no path, no cap. */
  function Unfiltered(out: string, normalize: string -> string): seq<Entry> {
    AllEntries(Split(out, RECORD_SEPARATOR), normalize)
  }

  // ---------------------------------------------------------------- filters and the cap

  /** What a query asks for: a text in the message, whatever its case, and a path; "" for any. */
  datatype Filter = Filter(needle: string, path: string, lower: string -> string)

  predicate InMessage(f: Filter, message: string) { f.needle == "" || Contains(f.lower(message), f.needle) }

  predicate OnPath(f: Filter, path: string) { f.path == "" || path == f.path }

  predicate Wants(f: Filter, e: Entry) { InMessage(f, e.message) && OnPath(f, e.path) }

  /** An entry is wanted when the text asked for, in lower case and without white space around it, stands in
      its message in lower case, and its path is the one asked for; what was not asked for excludes
      nothing. */
  lemma WantsExactly(query: string, path: string, lower: string -> string, e: Entry)
    ensures Wants(Question(query, path, lower), e) <==>
              && (lower(TrimSpace(query)) == "" || exists a, b :: lower(e.message) == a + lower(TrimSpace(query)) + b)
              && (path == "" || e.path == path)
  {
    hide TrimSpace;
    ContainsExactly(lower(e.message), lower(TrimSpace(query)));
  }

  function Select(f: Filter, entries: seq<Entry>): (r: seq<Entry>)
    ensures forall e :: e in r <==> e in entries && Wants(f, e)
  {
    if entries == [] then []
    else (if Wants(f, entries[0]) then [entries[0]] else []) + Select(f, entries[1..])
  }

  function Take(entries: seq<Entry>, limit: nat): seq<Entry> {
    if |entries| <= limit then entries else entries[..limit]
  }

  function Question(query: string, path: string, lower: string -> string): Filter {
    Filter(lower(TrimSpace(query)), path, lower)
  }

  lemma {:induction false} SelectTwo(f: Filter, a: seq<Entry>, b: seq<Entry>)
    ensures Select(f, a + b) == Select(f, a) + Select(f, b)
  {
    hide Wants;
    if a == [] {
      assert a + b == b;
    } else {
      assert (a + b)[1..] == a[1..] + b;
      SelectTwo(f, a[1..], b);
    }
  }

  lemma {:induction false} SelectNone(f: Filter, entries: seq<Entry>)
    requires forall e :: e in entries ==> !Wants(f, e)
    ensures Select(f, entries) == []
  {
    hide Wants;
    if entries != [] {
      assert entries[0] in entries;
      SelectNone(f, entries[1..]);
    }
  }

  // ---------------------------------------------------------------- the reader as it runs

  /** Takes one record's entries; `full` when the cap is reached and one more would not fit. */
  method ReadRecord(record: string, f: Filter, limit: nat, before: seq<Entry>, normalize: string -> string)
    returns (entries: seq<Entry>, full: bool)
    requires |before| <= limit
    ensures var all := before + Select(f, EntriesOf(record, normalize));
            entries == Take(all, limit) && (full <==> |all| > limit)
  {
    hide TrimSpace, SplitN, Split, PathsOf, Select, WithPaths, Wants, Contains, TrimNewlines;
    entries, full := before, false;
    ghost var wanted := Select(f, EntriesOf(record, normalize));
    Nothing(f, []);
    if TrimSpace(record) == "" {
      return;
    }
    var fields := SplitN(record, FIELD_SEPARATOR, 5);
    if |fields| < 5 {
      return;
    }
    var commit, author := TrimSpace(fields[0]), TrimSpace(fields[1]);
    var timestamp := normalize(TrimSpace(fields[2]));
    var message := TrimNewlines(fields[3]);
    var head := Entry(commit, "", author, timestamp, message);
    assert HeadOf(record, normalize) == Some(head);
    var lines := Split(fields[4], '\n');
    assert lines == PathLines(record);
    assert wanted == Select(f, WithPaths(head, PathsOf(lines)));
    hide EntriesOf;
    if f.needle != "" && !Contains(f.lower(message), f.needle) {
      Nothing(f, WithPaths(head, PathsOf(lines)));
      return;
    }
    entries, full := ReadPaths(lines, head, f, limit, before);
  }

  /** Takes the paths of one commit. */
  method ReadPaths(lines: seq<string>, head: Entry, f: Filter, limit: nat, before: seq<Entry>) returns (entries: seq<Entry>, full: bool)
    requires |before| <= limit && InMessage(f, head.message)
    ensures var all := before + Select(f, WithPaths(head, PathsOf(lines)));
            entries == Take(all, limit) && (full <==> |all| > limit)
  {
    hide TrimSpace, PathsOf, Select, WithPaths, Wants, InMessage;
    entries, full := before, false;
    ghost var all := before + Select(f, WithPaths(head, PathsOf(lines)));
    assert lines[0..] == lines;
    for j := 0 to |lines|
      invariant |entries| <= limit
      invariant all == entries + Select(f, WithPaths(head, PathsOf(lines[j..])))
    {
      NextLine(f, head, lines, j);
      var path := TrimSpace(lines[j]);
      if path == "" {
        continue;
      }
      if f.path != "" && path != f.path {
        continue;
      }
      if |entries| >= limit {
        assert all[..limit] == entries;
        return entries, true;
      }
      entries := entries + [head.(path := path)];
    }
    assert lines[|lines|..] == [];
    NoLines(f, head);
  }

  lemma Nothing(f: Filter, entries: seq<Entry>)
    ensures (forall e :: e in entries ==> !InMessage(f, e.message)) ==> Select(f, entries) == []
  {
    if forall e :: e in entries ==> !InMessage(f, e.message) { SelectNone(f, entries); }
  }

  lemma NoLines(f: Filter, head: Entry)
    ensures Select(f, WithPaths(head, PathsOf([]))) == []
  {}

  lemma NextLine(f: Filter, head: Entry, lines: seq<string>, j: nat)
    requires j < |lines| && InMessage(f, head.message)
    ensures var rest := Select(f, WithPaths(head, PathsOf(lines[j + 1..])));
            var path := TrimSpace(lines[j]);
            Select(f, WithPaths(head, PathsOf(lines[j..]))) ==
            if path != "" && OnPath(f, path) then [head.(path := path)] + rest else rest
  {
    hide InMessage, OnPath, TrimSpace;
    var path := TrimSpace(lines[j]);
    var rest := PathsOf(lines[j + 1..]);
    assert lines[j..][0] == lines[j] && lines[j..][1..] == lines[j + 1..];
    if path == "" {
      assert PathsOf(lines[j..]) == rest;
    } else {
      assert PathsOf(lines[j..]) == [path] + rest;
      assert WithPaths(head, [path] + rest) == [head.(path := path)] + WithPaths(head, rest);
      SelectTwo(f, [head.(path := path)], WithPaths(head, rest));
      SelectOne(f, head.(path := path));
    }
  }

  lemma SelectOne(f: Filter, e: Entry)
    ensures Select(f, [e]) == if Wants(f, e) then [e] else []
  {
    hide Wants;
    assert [e][1..] == [];
  }

  /** Filtering while reading, and stopping at the cap, is reading everything, filtering that and
      then capping. */
  method ParseHistory(out: string, query: string, path: string, limit: nat, lower: string -> string, normalize: string -> string)
    returns (entries: seq<Entry>)
    ensures entries == Take(Select(Question(query, path, lower), Unfiltered(out, normalize)), limit)
  {
    hide EntriesOf, Select;
    var f := Question(query, path, lower);
    entries := [];
    var records := Split(out, RECORD_SEPARATOR);
    ghost var all := Select(f, Unfiltered(out, normalize));
    assert records[0..] == records;
    for i := 0 to |records|
      invariant |entries| <= limit
      invariant all == entries + Select(f, AllEntries(records[i..], normalize))
    {
      assert records[i..][0] == records[i] && records[i..][1..] == records[i + 1..];
      SelectTwo(f, EntriesOf(records[i], normalize), AllEntries(records[i + 1..], normalize));
      ghost var here := entries + Select(f, EntriesOf(records[i], normalize));
      assert all == here + Select(f, AllEntries(records[i + 1..], normalize));
      var full: bool;
      entries, full := ReadRecord(records[i], f, limit, entries, normalize);
      if full {
        assert all[..limit] == here[..limit];
        return;
      }
    }
    SelectNone(f, []);
  }

  /** Why a query is refused, and what it is answered otherwise. */
  datatype Answer = Found(entries: seq<Entry>) | Invalid | NoRepository

  /** The path a query filters by: none for a blank one, and otherwise the clean path. */
  function FilterPath(path: string): string { if Blank(path) then "" else CleanPath(path) }

  /** Whether a path may be asked for. */
  predicate UsablePath(path: string) {
    Blank(path) || (!HasPrefix(path, "/") && !Climbs(0, Split(path, '/')))
  }

  /** What a query is answered. A negative cap or an unusable path is refused, in that order and before
      anything is looked up; then a repository nobody configured, and one git cannot read. The answer is
      the beginning of everything that was asked for, all of it or as much as the cap allows. What git
      prints for a path filter is a parameter. */
  method SearchHistory(repositories: set<string>, repository: string, git: string -> Option<string>,
                       query: string, path: string, limit: int, lower: string -> string, normalize: string -> string)
    returns (answer: Answer)
    ensures answer.Invalid? <==> limit < 0 || !UsablePath(path)
    ensures !answer.Invalid? ==> (answer.NoRepository? <==> repository !in repositories || git(FilterPath(path)).None?)
    ensures answer.Found? ==>
              var cap := if limit == 0 then 100 else limit;
              var all := Select(Question(query, FilterPath(path), lower), Unfiltered(git(FilterPath(path)).value, normalize));
              && answer.entries <= all && |answer.entries| <= cap && (|answer.entries| < |all| ==> |answer.entries| == cap)
  {
    hide IsSpace, Blank, TrimSpace, CleanPath, Climbs, Select, Unfiltered, Inside;
    var cap := HistoryLimit(limit);
    if cap.None? {
      return Invalid;
    }
    var filter := "";
    TrimSpaceEmpty(path);
    if TrimSpace(path) != "" {
      var cleaned := ValidatePath(path);
      if cleaned.None? {
        return Invalid;
      }
      filter := cleaned.value;
    }
    if repository !in repositories {
      return NoRepository;
    }
    var out := git(filter);
    if out.None? {
      return NoRepository;
    }
    var entries := ParseHistory(out.value, query, filter, cap.value, lower, normalize);
    return Found(entries);
  }

  /** An answer under a smaller cap is the beginning of the answer under a larger one. */
  lemma SmallerIsPrefix(entries: seq<Entry>, small: nat, large: nat)
    requires small <= large
    ensures Take(entries, small) <= Take(entries, large)
    ensures Take(Take(entries, large), small) == Take(entries, small)
  {}

  /** The two filters are independent of each other and of the order they are applied in. */
  lemma {:induction false} FiltersCommute(needle: string, path: string, lower: string -> string, entries: seq<Entry>)
    ensures Select(Filter(needle, "", lower), Select(Filter("", path, lower), entries)) == Select(Filter(needle, path, lower), entries)
    ensures Select(Filter("", path, lower), Select(Filter(needle, "", lower), entries)) == Select(Filter(needle, path, lower), entries)
  {
    if entries != [] {
      var first, rest := entries[0], entries[1..];
      FiltersCommute(needle, path, lower, rest);
      var byNeedle, byPath := Filter(needle, "", lower), Filter("", path, lower);
      assert Wants(byNeedle, first) && Wants(byPath, first) <==> Wants(Filter(needle, path, lower), first);
      hide Wants;
      SelectOne(byNeedle, first);
      SelectOne(byPath, first);
      SelectTwo(byNeedle, if Wants(byPath, first) then [first] else [], Select(byPath, rest));
      SelectTwo(byPath, if Wants(byNeedle, first) then [first] else [], Select(byNeedle, rest));
      SelectNone(byNeedle, []);
      SelectNone(byPath, []);
    }
  }

  // ---------------------------------------------------------------- how git prints a name

  /** A file's name is its bytes, one char each. These are printed as they are. */
  predicate Printable(c: char) { 0x20 <= c as int <= 0x7E }

  /** The bytes that make git quote a name, with core.quotePath as it is by default. */
  predicate Special(c: char) { !Printable(c) || c == '"' || c == '\\' }

  predicate NeedsQuoting(name: string) { exists i :: 0 <= i < |name| && Special(name[i]) }

  /** A byte as three octal digits. */
  function Octal(c: char): string {
    var n := c as int;
    [Digit(n / 64 % 8), Digit(n / 8 % 8), Digit(n % 8)]
  }

  /** One byte between quotes: by its letter, or by its number, when it is not printed as it is. */
  function Escape(c: char): string {
    if !Special(c) then [c]
    else if c == '"' || c == '\\' then ['\\', c]
    else if 0x07 <= c as int <= 0x0D then ['\\', "abtnvfr"[c as int - 0x07]]
    else "\\" + Octal(c)
  }

  function Escaped(name: string): string {
    if name == "" then "" else Escape(name[0]) + Escaped(name[1..])
  }

  /** A name as `git log --name-only` prints it without -z. */
  function Printed(name: string): string {
    if NeedsQuoting(name) then "\"" + Escaped(name) + "\"" else name
  }

  function PrintedAll(names: seq<string>): (texts: seq<string>)
    ensures |texts| == |names| && forall i :: 0 <= i < |names| ==> texts[i] == Printed(names[i])
  {
    seq(|names|, i requires 0 <= i < |names| => Printed(names[i]))
  }

  predicate AllPrintable(s: string) { forall i :: 0 <= i < |s| ==> Printable(s[i]) }

  lemma EscapePrintable(c: char)
    ensures AllPrintable(Escape(c)) && Escape(c) != ""
  {}

  lemma {:induction false} EscapedPrintable(name: string)
    ensures AllPrintable(Escaped(name)) && |Escaped(name)| >= |name|
  {
    hide Escape;
    if name != "" {
      EscapePrintable(name[0]);
      EscapedPrintable(name[1..]);
    }
  }

  /** What is printed is printable, and a quoted name is no name: it is longer than the one it stands for,
      and neither begins nor ends in white space. */
  lemma PrintedName(name: string)
    requires name != ""
    ensures Printed(name) != "" && AllPrintable(Printed(name))
    ensures NeedsQuoting(name) ==> |Printed(name)| > |name| && Trimmed(Printed(name))
    ensures Printed(name) == name <==> !NeedsQuoting(name)
  {
    EscapedPrintable(name);
    if !NeedsQuoting(name) {
      forall i | 0 <= i < |name| ensures Printable(name[i]) { assert !Special(name[i]); }
    } else {
      var text := Printed(name);
      assert text[0] == '"' && text[|text| - 1] == '"';
    }
  }

  // ---------------------------------------------------------------- reading a printed name back

  /** The byte a letter stands for after a backslash. */
  function Letter(c: char): Option<char> {
    match c
    case 'a' => Some(0x07 as char)
    case 'b' => Some(0x08 as char)
    case 't' => Some('\t')
    case 'n' => Some('\n')
    case 'v' => Some(0x0B as char)
    case 'f' => Some(0x0C as char)
    case 'r' => Some('\r')
    case '"' => Some('"')
    case '\\' => Some('\\')
    case _ => None
  }

  predicate OctalDigits(s: string) { |s| >= 3 && '0' <= s[0] <= '3' && '0' <= s[1] <= '7' && '0' <= s[2] <= '7' }

  function OctalValue(s: string): char
    requires OctalDigits(s)
  {
    Byte(64 * (s[0] as int - '0' as int) + 8 * (s[1] as int - '0' as int) + (s[2] as int - '0' as int))
  }

  /** What stands between quotes: a character for itself, and after a backslash a letter or three octal
      digits for a byte. */
  function Unescaped(text: string): string {
    if text == "" then ""
    else if text[0] != '\\' || |text| == 1 then [text[0]] + Unescaped(text[1..])
    else if Letter(text[1]).Some? then [Letter(text[1]).value] + Unescaped(text[2..])
    else if OctalDigits(text[1..]) then [OctalValue(text[1..])] + Unescaped(text[4..])
    else [text[0]] + Unescaped(text[1..])
  }

  /** A name that is quoted begins with a quote, and one that is not does not. */
  function Unprinted(text: string): string {
    if |text| >= 2 && text[0] == '"' then Unescaped(text[1..|text| - 1]) else text
  }

  lemma EscapedBack(c: char, rest: string)
    requires c as int < 256
    ensures Unescaped(Escape(c) + rest) == [c] + Unescaped(rest)
  {
    var text := Escape(c) + rest;
    if !Special(c) {
      assert text[1..] == rest;
    } else if c == '"' || c == '\\' || 0x07 <= c as int <= 0x0D {
      assert text[0] == '\\' && text[2..] == rest;
      LetterBack(c);
      assert text[1] == Escape(c)[1];
    } else {
      OctalBack(c);
      assert text[1..] == Octal(c) + rest && text[4..] == rest;
      assert text[1] == Octal(c)[0] && text[2] == Octal(c)[1] && text[3] == Octal(c)[2];
      assert OctalDigits(text[1..]) && OctalValue(text[1..]) == OctalValue(Octal(c));
      assert Letter(text[1]).None?;
    }
  }

  lemma LetterBack(c: char)
    requires c == '"' || c == '\\' || 0x07 <= c as int <= 0x0D
    ensures |Escape(c)| == 2 && Escape(c)[0] == '\\' && Letter(Escape(c)[1]) == Some(c)
  {}

  lemma OctalBack(c: char)
    requires c as int < 256
    ensures OctalDigits(Octal(c)) && OctalValue(Octal(c)) == c
  {}

  lemma {:induction false} EscapedReadsBack(name: string)
    requires forall i :: 0 <= i < |name| ==> name[i] as int < 256
    ensures Unescaped(Escaped(name)) == name
  {
    hide Escape, Unescaped;
    if name == "" {
      assert Unescaped("") == "" by { UnescapedNothing(); }
    } else {
      EscapedReadsBack(name[1..]);
      EscapedBack(name[0], Escaped(name[1..]));
      assert name == [name[0]] + name[1..];
    }
  }

  lemma UnescapedNothing()
    ensures Unescaped("") == ""
  {}

  /** Quoting loses nothing: what is printed reads back as the name, so two files are never printed alike. */
  lemma PrintedReadsBack(name: string)
    requires forall i :: 0 <= i < |name| ==> name[i] as int < 256
    ensures Unprinted(Printed(name)) == name
  {
    hide Escaped, Unescaped;
    if NeedsQuoting(name) {
      EscapedReadsBack(name);
      var text := Printed(name);
      assert text[1..|text| - 1] == Escaped(name);
    } else if name != "" {
      assert !Special(name[0]);
    }
  }

  // ---------------------------------------------------------------- what git writes

  /** One commit: its fields, the line breaks that end its message, and the names of its files. */
  datatype Commit = Commit(hash: string, author: string, date: string, message: string, breaks: nat, names: seq<string>)

  function Newlines(n: nat): string { seq(n, _ => '\n') }

  function RecordText(c: Commit): string {
    Join([c.hash, c.author, c.date, c.message + Newlines(c.breaks), "\n\n" + Terminated(PrintedAll(c.names), '\n')], FIELD_SEPARATOR)
  }

  function Render(commits: seq<Commit>): string {
    if commits == [] then "" else [RECORD_SEPARATOR] + RecordText(commits[0]) + Render(commits[1..])
  }

  /** Free of the two separators. */
  predicate Plain(s: string) { RECORD_SEPARATOR !in s && FIELD_SEPARATOR !in s }

  predicate PlainPath(path: string) { path != "" && Trimmed(path) && '\n' !in path && RECORD_SEPARATOR !in path }

  /** What git makes itself: a hash and a date. The line breaks that end a message are counted apart, and a
      file has a name. */
  predicate Shaped(c: Commit) {
    && c.hash != "" && Plain(c.hash) && Trimmed(c.hash) && Plain(c.date) && Trimmed(c.date)
    && (c.message == "" || c.message[|c.message| - 1] != '\n')
    && forall n :: n in c.names ==> n != ""
  }

  /** What the format relies on and git does not promise: no separator in the author or the message, and
      neither the author nor a name beginning or ending in white space. */
  predicate Legible(c: Commit) {
    Plain(c.author) && Trimmed(c.author) && Plain(c.message) && forall n :: n in c.names ==> Trimmed(n)
  }

  /** And no name that git quotes. */
  predicate Clean(c: Commit) { Legible(c) && forall n :: n in c.names ==> !NeedsQuoting(n) }

  function HeadSaid(c: Commit, normalize: string -> string): Entry { Entry(c.hash, "", c.author, normalize(c.date), c.message) }

  /** What a commit says: one entry for each of its files, under the file's name. */
  function Said(c: Commit, normalize: string -> string): seq<Entry> { WithPaths(HeadSaid(c, normalize), c.names) }

  /** And under the names as they are printed. */
  function Shown(c: Commit, normalize: string -> string): seq<Entry> { WithPaths(HeadSaid(c, normalize), PrintedAll(c.names)) }

  function AllSaid(commits: seq<Commit>, normalize: string -> string): seq<Entry> {
    if commits == [] then [] else Said(commits[0], normalize) + AllSaid(commits[1..], normalize)
  }

  lemma {:induction false} NewlinesTrimmed(message: string, n: nat)
    requires message == "" || message[|message| - 1] != '\n'
    ensures TrimNewlines(message + Newlines(n)) == message
  {
    if n == 0 {
      assert message + Newlines(0) == message;
    } else {
      assert (message + Newlines(n))[..|message| + n - 1] == message + Newlines(n - 1);
      NewlinesTrimmed(message, n - 1);
    }
  }

  lemma {:induction false} PathsBack(paths: seq<string>)
    requires forall p :: p in paths ==> PlainPath(p)
    ensures PathsOf(Split(Terminated(paths, '\n'), '\n')) == paths
  {
    hide IsSpace, TrimSpace, Trimmed;
    if paths == [] {
      BlankLine([]);
    } else {
      var path, rest := paths[0], Terminated(paths[1..], '\n');
      assert PlainPath(path);
      SplitHead(path, '\n', rest);
      TrimKeeps(path);
      PathsBack(paths[1..]);
      assert ([path] + Split(rest, '\n'))[1..] == Split(rest, '\n');
    }
  }

  lemma BlankLine(rest: seq<string>)
    ensures PathsOf([""] + rest) == PathsOf(rest)
  {
    assert ([""] + rest)[1..] == rest;
    assert TrimSpace("") == "";
  }

  lemma TwoBlankLines(s: string)
    ensures PathsOf(Split("\n\n" + s, '\n')) == PathsOf(Split(s, '\n'))
  {
    hide PathsOf, Split;
    SplitHead("", '\n', "\n" + s);
    SplitHead("", '\n', s);
    assert "" + "\n" + ("\n" + s) == "\n\n" + s && "" + "\n" + s == "\n" + s;
    BlankLine(Split("\n" + s, '\n'));
    BlankLine(Split(s, '\n'));
  }

  /** The printed names of a legible commit are lines that are read as they stand. */
  lemma PrintedPaths(c: Commit)
    requires Shaped(c)
    ensures forall p :: p in PrintedAll(c.names) ==> p != "" && AllPrintable(p) && '\n' !in p && RECORD_SEPARATOR !in p
    ensures Legible(c) ==> forall p :: p in PrintedAll(c.names) ==> PlainPath(p)
  {
    hide Trimmed;
    forall p | p in PrintedAll(c.names)
      ensures p != "" && AllPrintable(p) && '\n' !in p && RECORD_SEPARATOR !in p && (Legible(c) ==> Trimmed(p))
    {
      var i :| 0 <= i < |c.names| && PrintedAll(c.names)[i] == p;
      assert c.names[i] in c.names;
      PrintedName(c.names[i]);
    }
  }

  lemma RecordBack(c: Commit, normalize: string -> string)
    requires Shaped(c) && Legible(c)
    ensures EntriesOf(RecordText(c), normalize) == Shown(c, normalize)
  {
    PrintedPaths(c);
    hide IsSpace, Trimmed, TrimSpace, SplitN, Join, PathsOf, Split, Terminated, PrintedAll;
    var texts := PrintedAll(c.names);
    var pieces := [c.hash, c.author, c.date, c.message + Newlines(c.breaks), "\n\n" + Terminated(texts, '\n')];
    SplitNJoin(pieces, FIELD_SEPARATOR);
    NotBlankText(c);
    TrimKeeps(c.hash);
    TrimKeeps(c.author);
    TrimKeeps(c.date);
    NewlinesTrimmed(c.message, c.breaks);
    TwoBlankLines(Terminated(texts, '\n'));
    PathsBack(texts);
  }

  lemma NotBlankText(c: Commit)
    requires c.hash != "" && Trimmed(c.hash)
    ensures TrimSpace(RecordText(c)) != ""
  {
    hide IsSpace, TrimSpace;
    var text := RecordText(c);
    assert text[0] == c.hash[0];
    assert !Blank(text);
    TrimSpaceEmpty(text);
  }

  lemma {:induction false} TerminatedPlain(paths: seq<string>)
    requires forall p :: p in paths ==> RECORD_SEPARATOR !in p
    ensures RECORD_SEPARATOR !in Terminated(paths, '\n')
  {
    if paths != [] {
      assert paths[0] in paths;
      TerminatedPlain(paths[1..]);
    }
  }

  lemma RecordPlain(c: Commit)
    requires Shaped(c) && Legible(c)
    ensures RECORD_SEPARATOR !in RecordText(c)
  {
    PrintedPaths(c);
    hide Trimmed, PrintedAll;
    TerminatedPlain(PrintedAll(c.names));
    assert RECORD_SEPARATOR !in Newlines(c.breaks);
    var last := "\n\n" + Terminated(PrintedAll(c.names), '\n');
    var body := c.message + Newlines(c.breaks);
    assert RECORD_SEPARATOR !in last && RECORD_SEPARATOR !in body;
    hide Terminated;
    JoinFive(c.hash, c.author, c.date, body, last, FIELD_SEPARATOR);
  }

  lemma JoinFive(a: string, b: string, c: string, d: string, e: string, sep: char)
    ensures Join([a, b, c, d, e], sep) == a + [sep] + (b + [sep] + (c + [sep] + (d + [sep] + e)))
  {
    assert [d, e][1..] == [e] && Join([d, e], sep) == d + [sep] + e;
    assert [c, d, e][1..] == [d, e] && Join([c, d, e], sep) == c + [sep] + (d + [sep] + e);
    assert [b, c, d, e][1..] == [c, d, e] && Join([b, c, d, e], sep) == b + [sep] + (c + [sep] + (d + [sep] + e));
    assert [a, b, c, d, e][1..] == [b, c, d, e];
  }

  // ---------------------------------------------------------------- commit by commit

  /** What is read of one commit, in however many pieces its separators leave it. */
  function ReadOf(c: Commit, normalize: string -> string): seq<Entry> {
    AllEntries(Split(RecordText(c), RECORD_SEPARATOR), normalize)
  }

  function AllRead(commits: seq<Commit>, normalize: string -> string): seq<Entry> {
    if commits == [] then [] else ReadOf(commits[0], normalize) + AllRead(commits[1..], normalize)
  }

  lemma {:induction false} AllEntriesTwo(a: seq<string>, b: seq<string>, normalize: string -> string)
    ensures AllEntries(a + b, normalize) == AllEntries(a, normalize) + AllEntries(b, normalize)
  {
    hide EntriesOf;
    if a == [] {
      assert a + b == b;
    } else {
      assert (a + b)[1..] == a[1..] + b;
      AllEntriesTwo(a[1..], b, normalize);
    }
  }

  lemma {:induction false} RenderRead(commits: seq<Commit>, normalize: string -> string, first: string)
    ensures AllEntries(Split(first + Render(commits), RECORD_SEPARATOR), normalize) ==
            AllEntries(Split(first, RECORD_SEPARATOR), normalize) + AllRead(commits, normalize)
  {
    hide AllEntries, Split, RecordText;
    if commits == [] {
      assert first + Render(commits) == first;
    } else {
      var text := RecordText(commits[0]);
      var rest := text + Render(commits[1..]);
      RenderRead(commits[1..], normalize, text);
      assert first + Render(commits) == first + [RECORD_SEPARATOR] + rest;
      SplitTwo(first, RECORD_SEPARATOR, rest);
      AllEntriesTwo(Split(first, RECORD_SEPARATOR), Split(rest, RECORD_SEPARATOR), normalize);
    }
  }

  /** Whatever the commits hold, they are read one by one. */
  lemma ReadOneByOne(commits: seq<Commit>, normalize: string -> string)
    ensures Unfiltered(Render(commits), normalize) == AllRead(commits, normalize)
  {
    hide Render, AllRead;
    RenderRead(commits, normalize, "");
    assert "" + Render(commits) == Render(commits);
    assert TrimSpace("") == "";
    assert EntriesOf("", normalize) == [];
    assert [""][1..] == [];
  }

  /** A legible commit is read whole, under its names as they are printed. */
  lemma ReadLegible(c: Commit, normalize: string -> string)
    requires Shaped(c) && Legible(c)
    ensures ReadOf(c, normalize) == Shown(c, normalize)
  {
    hide EntriesOf, RecordText, Shown, Shaped, Legible;
    RecordPlain(c);
    RecordBack(c, normalize);
    var text := RecordText(c);
    SplitPiece(text, RECORD_SEPARATOR);
    assert [text][1..] == [];
    assert AllEntries([text], normalize) == EntriesOf(text, normalize) + AllEntries([], normalize);
  }

  // ---------------------------------------------------------------- what is ever read

  /** No entry that was ever read has a separator in its author or its message, or white space around its
      author or its path. */
  predicate Tidy(e: Entry) { Plain(e.message) && Plain(e.author) && Trimmed(e.author) && Trimmed(e.path) }

  lemma {:induction false} NewlinesOnly(s: string)
    ensures TrimNewlines(s) <= s
  {
    if s != "" && s[|s| - 1] == '\n' { NewlinesOnly(s[..|s| - 1]); }
  }

  lemma {:induction false} PathsTrimmed(lines: seq<string>)
    ensures forall p :: p in PathsOf(lines) ==> Trimmed(p)
  {
    hide Trimmed, TrimSpace;
    if lines != [] {
      TrimSpaceTrimmed(lines[0]);
      PathsTrimmed(lines[1..]);
    }
  }

  lemma {:induction false} TrimsToPart(s: string)
    ensures forall c :: c in TrimSpaceLeft(s) ==> c in s
  {
    hide IsSpace;
    if s != "" && IsSpace(s[0]) { TrimsToPart(s[1..]); }
  }

  lemma TrimSpacePart(s: string)
    ensures forall c :: c in TrimSpace(s) ==> c in s
  {
    hide IsSpace;
    TrimsToPart(s);
    TrimRightEnds(TrimSpaceLeft(s));
  }

  lemma RecordTidy(record: string, normalize: string -> string)
    requires RECORD_SEPARATOR !in record
    ensures forall e :: e in EntriesOf(record, normalize) ==> Tidy(e)
  {
    hide Trimmed, TrimSpace, PathsOf, Split, SplitN;
    var fields := SplitN(record, FIELD_SEPARATOR, 5);
    if HeadOf(record, normalize).Some? {
      SplitNFree(record, FIELD_SEPARATOR, 5, 1);
      SplitNFree(record, FIELD_SEPARATOR, 5, 3);
      TrimSpacePart(fields[1]);
      TrimSpaceTrimmed(fields[1]);
      NewlinesOnly(fields[3]);
      PathsTrimmed(PathLines(record));
    }
  }

  lemma {:induction false} AllTidy(records: seq<string>, normalize: string -> string)
    requires forall r :: r in records ==> RECORD_SEPARATOR !in r
    ensures forall e :: e in AllEntries(records, normalize) ==> Tidy(e)
  {
    hide EntriesOf, Tidy;
    if records != [] {
      RecordTidy(records[0], normalize);
      AllTidy(records[1..], normalize);
    }
  }

  lemma ReadTidy(c: Commit, normalize: string -> string)
    ensures forall e :: e in ReadOf(c, normalize) ==> Tidy(e)
  {
    hide Tidy, RecordText, Split, AllEntries;
    SplitFree(RecordText(c), RECORD_SEPARATOR);
    AllTidy(Split(RecordText(c), RECORD_SEPARATOR), normalize);
  }

  lemma SaidEntries(c: Commit, normalize: string -> string)
    ensures |Said(c, normalize)| == |c.names|
    ensures forall i :: 0 <= i < |c.names| ==> Said(c, normalize)[i] == HeadSaid(c, normalize).(path := c.names[i])
    ensures |Shown(c, normalize)| == |c.names|
    ensures forall i :: 0 <= i < |c.names| ==> Shown(c, normalize)[i] == HeadSaid(c, normalize).(path := Printed(c.names[i]))
  {}

  /** If what it says is tidy, a commit with files is legible. */
  lemma SaidTidy(c: Commit, normalize: string -> string)
    requires c.names != [] && forall e :: e in Said(c, normalize) ==> Tidy(e)
    ensures Legible(c)
  {
    hide Said, Trimmed, Shown;
    SaidEntries(c, normalize);
    assert Said(c, normalize)[0] in Said(c, normalize);
    forall n | n in c.names ensures Trimmed(n) {
      var i :| 0 <= i < |c.names| && c.names[i] == n;
      assert Said(c, normalize)[i] in Said(c, normalize);
    }
  }

  /** A text that is not blank has a line that is read as a path. */
  lemma {:induction false} SomePath(s: string)
    requires !Blank(s)
    ensures PathsOf(Split(s, '\n')) != []
  {
    hide IsSpace, TrimSpace;
    var rest := Split(s[1..], '\n');
    assert IsSpace('\n') by { LineBreakIsSpace(); }
    if s[0] == '\n' {
      assert !Blank(s[1..]);
      SomePath(s[1..]);
      assert ([""] + rest)[1..] == rest;
    } else {
      var line := [s[0]] + rest[0];
      assert Split(s, '\n') == [line] + rest[1..];
      assert ([line] + rest[1..])[1..] == rest[1..];
      TrimSpaceEmpty(line);
      TrimSpaceEmpty(rest[0]);
      if IsSpace(s[0]) {
        assert !Blank(s[1..]);
        SomePath(s[1..]);
        if !Blank(rest[0]) {
          var i :| 0 <= i < |rest[0]| && !IsSpace(rest[0][i]);
          assert line[i + 1] == rest[0][i];
        }
      } else {
        assert !IsSpace(line[0]);
      }
    }
  }

  lemma LineBreakIsSpace()
    ensures IsSpace('\n') && !IsSpace(FIELD_SEPARATOR)
  {}

  lemma {:induction false} NoPath(s: string)
    requires Blank(s)
    ensures PathsOf(Split(s, '\n')) == []
  {
    hide IsSpace, TrimSpace;
    if s == "" {
      BlankLine([]);
    } else {
      var rest := Split(s[1..], '\n');
      NoPath(s[1..]);
      if s[0] == '\n' {
        BlankLine(rest);
      } else {
        var line := [s[0]] + rest[0];
        assert Split(s, '\n') == [line] + rest[1..];
        assert ([line] + rest[1..])[1..] == rest[1..];
        TrimSpaceEmpty(line);
        TrimSpaceEmpty(rest[0]);
      }
    }
  }

  /** A piece of output nothing is read of: it has fewer than five fields, or nothing in the last. */
  predicate SilentPiece(piece: string) {
    var fields := SplitN(piece, FIELD_SEPARATOR, 5);
    |fields| < 5 || Blank(fields[4])
  }

  lemma PieceExactly(piece: string, normalize: string -> string)
    ensures EntriesOf(piece, normalize) == [] <==> SilentPiece(piece)
  {
    var fields := SplitN(piece, FIELD_SEPARATOR, 5);
    if |fields| == 5 {
      CutFree(piece, FIELD_SEPARATOR);
      hide IsSpace, TrimSpace, PathsOf, Split, SplitN, Cut;
      LineBreakIsSpace();
      assert FIELD_SEPARATOR in piece;
      assert !Blank(piece) by { var i :| 0 <= i < |piece| && piece[i] == FIELD_SEPARATOR; }
      TrimSpaceEmpty(piece);
      if Blank(fields[4]) { NoPath(fields[4]); } else { SomePath(fields[4]); }
    }
  }

  lemma {:induction false} AllSilent(records: seq<string>, normalize: string -> string)
    ensures AllEntries(records, normalize) == [] <==> forall r :: r in records ==> SilentPiece(r)
  {
    hide EntriesOf, SilentPiece;
    if records != [] {
      PieceExactly(records[0], normalize);
      AllSilent(records[1..], normalize);
      assert records == [records[0]] + records[1..];
    }
  }

  // ---------------------------------------------------------------- exactly when it holds

  /** A commit without files says nothing: none of its pieces may be read as anything. */
  predicate Silent(c: Commit) { forall piece :: piece in Split(RecordText(c), RECORD_SEPARATOR) ==> SilentPiece(piece) }

  predicate Recoverable(c: Commit) { if c.names == [] then Silent(c) else Clean(c) }

  lemma ShownAsSaid(c: Commit, normalize: string -> string)
    requires Shaped(c)
    ensures Shown(c, normalize) == Said(c, normalize) <==> forall n :: n in c.names ==> !NeedsQuoting(n)
  {
    hide Shown, Said, Printed, NeedsQuoting;
    SaidEntries(c, normalize);
    forall i | 0 <= i < |c.names| ensures Printed(c.names[i]) == c.names[i] <==> !NeedsQuoting(c.names[i]) {
      NamesNotEmpty(c, i);
      PrintedName(c.names[i]);
    }
    if Shown(c, normalize) == Said(c, normalize) {
      forall n | n in c.names ensures !NeedsQuoting(n) {
        var i :| 0 <= i < |c.names| && c.names[i] == n;
        assert Shown(c, normalize)[i].path == Said(c, normalize)[i].path;
      }
    }
  }

  /** One commit is read as it was said exactly when it is recoverable. */
  lemma CommitExactly(c: Commit, normalize: string -> string)
    requires Shaped(c)
    ensures ReadOf(c, normalize) == Said(c, normalize) <==> Recoverable(c)
  {
    hide AllEntries, Split, RecordText, Said, Shown, Legible, SilentPiece, Shaped, Tidy, NeedsQuoting;
    SaidEntries(c, normalize);
    if c.names == [] {
      AllSilent(Split(RecordText(c), RECORD_SEPARATOR), normalize);
    } else {
      if ReadOf(c, normalize) == Said(c, normalize) {
        ReadTidy(c, normalize);
        SaidTidy(c, normalize);
      }
      if Legible(c) {
        ReadLegible(c, normalize);
        ShownAsSaid(c, normalize);
      }
    }
  }

  lemma {:induction false} SaidIn(commits: seq<Commit>, normalize: string -> string, c: Commit, e: Entry)
    requires c in commits && e in Said(c, normalize)
    ensures e in AllSaid(commits, normalize)
  {
    hide Said;
    if commits[0] != c {
      SaidIn(commits[1..], normalize, c, e);
    }
  }

  lemma {:induction false} ReadIn(commits: seq<Commit>, normalize: string -> string)
    ensures forall e :: e in AllRead(commits, normalize) ==> Tidy(e)
  {
    hide ReadOf, Tidy;
    if commits != [] {
      ReadTidy(commits[0], normalize);
      ReadIn(commits[1..], normalize);
    }
  }

  lemma {:induction false} NoLess(commits: seq<Commit>, normalize: string -> string)
    requires forall c :: c in commits ==> |ReadOf(c, normalize)| >= |Said(c, normalize)|
    ensures |AllRead(commits, normalize)| >= |AllSaid(commits, normalize)|
  {
    hide ReadOf, Said;
    if commits != [] {
      assert commits[0] in commits;
      NoLess(commits[1..], normalize);
    }
  }

  /** Where no commit is read as less than it says, all are read as they say only if each is. */
  lemma {:induction false} EachAsSaid(commits: seq<Commit>, normalize: string -> string)
    requires forall c :: c in commits ==> |ReadOf(c, normalize)| >= |Said(c, normalize)|
    requires AllRead(commits, normalize) == AllSaid(commits, normalize)
    ensures forall c :: c in commits ==> ReadOf(c, normalize) == Said(c, normalize)
  {
    hide ReadOf, Said;
    if commits != [] {
      var c, rest := commits[0], commits[1..];
      assert c in commits;
      NoLess(rest, normalize);
      var a, b := ReadOf(c, normalize), Said(c, normalize);
      assert |a + AllRead(rest, normalize)| == |b + AllSaid(rest, normalize)|;
      assert (a + AllRead(rest, normalize))[..|a|] == a && (b + AllSaid(rest, normalize))[..|b|] == b;
      assert (a + AllRead(rest, normalize))[|a|..] == AllRead(rest, normalize) && (b + AllSaid(rest, normalize))[|b|..] == AllSaid(rest, normalize);
      EachAsSaid(rest, normalize);
      assert forall d :: d in commits ==> d == c || d in rest;
    }
  }

  lemma {:induction false} AllAsSaid(commits: seq<Commit>, normalize: string -> string)
    requires forall c :: c in commits ==> ReadOf(c, normalize) == Said(c, normalize)
    ensures AllRead(commits, normalize) == AllSaid(commits, normalize)
  {
    hide ReadOf, Said;
    if commits != [] {
      assert commits[0] in commits;
      AllAsSaid(commits[1..], normalize);
    }
  }

  /** A commit whose entries are all tidy is read as no less than it says. */
  lemma ReadNoLess(c: Commit, normalize: string -> string)
    requires Shaped(c) && forall e :: e in Said(c, normalize) ==> Tidy(e)
    ensures |ReadOf(c, normalize)| >= |Said(c, normalize)|
  {
    hide ReadOf, Said, Shown, Legible, Tidy, Shaped;
    SaidEntries(c, normalize);
    if c.names != [] {
      SaidTidy(c, normalize);
      ReadLegible(c, normalize);
    }
  }

  /** Reading what git wrote gives one entry per commit and file, in order and under the file's name, exactly
      when of every commit with files no author or message holds a separator, neither the author nor a
      name begins or ends in white space, and no name is quoted; and a commit without files leaves no
      piece that is read as anything. */
  lemma RoundTripExactly(commits: seq<Commit>, normalize: string -> string)
    requires forall c :: c in commits ==> Shaped(c)
    ensures Unfiltered(Render(commits), normalize) == AllSaid(commits, normalize) <==> forall c :: c in commits ==> Recoverable(c)
  {
    hide Unfiltered, Render, Said, AllSaid, ReadOf, AllRead, Shaped, Tidy, Recoverable;
    ReadOneByOne(commits, normalize);
    if forall c :: c in commits ==> Recoverable(c) {
      forall c | c in commits ensures ReadOf(c, normalize) == Said(c, normalize) { CommitExactly(c, normalize); }
      AllAsSaid(commits, normalize);
    }
    if AllRead(commits, normalize) == AllSaid(commits, normalize) {
      ReadIn(commits, normalize);
      forall c | c in commits ensures |ReadOf(c, normalize)| >= |Said(c, normalize)| {
        forall e | e in Said(c, normalize) ensures Tidy(e) { SaidIn(commits, normalize, c, e); }
        ReadNoLess(c, normalize);
      }
      EachAsSaid(commits, normalize);
      forall c | c in commits ensures Recoverable(c) { CommitExactly(c, normalize); }
    }
  }

  /** A commit without files is no trouble when its author and its message are plain. */
  lemma PlainIsSilent(c: Commit)
    requires Shaped(c) && c.names == [] && Plain(c.author) && Plain(c.message)
    ensures Silent(c)
  {
    hide Trimmed, SplitN, Join, Split, IsSpace;
    var body, last := c.message + Newlines(c.breaks), "\n\n" + Terminated(PrintedAll(c.names), '\n');
    assert PrintedAll(c.names) == [] && last == "\n\n";
    JoinFive(c.hash, c.author, c.date, body, last, FIELD_SEPARATOR);
    assert RECORD_SEPARATOR !in body && FIELD_SEPARATOR !in body;
    SplitPiece(RecordText(c), RECORD_SEPARATOR);
    SplitNJoin([c.hash, c.author, c.date, body, last], FIELD_SEPARATOR);
    LineBreakIsSpace();
  }

  // ---------------------------------------------------------------- where it does not

  /** One commit of one file. */
  function OneFile(author: string, message: string, name: string): Commit { Commit("h", author, "d", message, 1, [name]) }

  lemma OneFileExactly(author: string, message: string, name: string, normalize: string -> string)
    requires name != "" && (message == "" || message[|message| - 1] != '\n')
    ensures var c := OneFile(author, message, name);
            Shaped(c) && (Unfiltered(Render([c]), normalize) == AllSaid([c], normalize) <==> Clean(c))
  {
    var c := OneFile(author, message, name);
    assert Shaped(c);
    hide Unfiltered, Render, AllSaid, Clean;
    assert |c.names| == 1 && c == [c][0] && forall d :: d in [c] ==> d == c;
    assert Recoverable(c) <==> Clean(c);
    RoundTripExactly([c], normalize);
  }

  /** A file called " x" is not reported under that name. */
  lemma SpacedPath(normalize: string -> string)
    ensures var c := OneFile("a", "m", " x"); Shaped(c) && Unfiltered(Render([c]), normalize) != AllSaid([c], normalize)
  {
    OneFileExactly("a", "m", " x", normalize);
    assert OneFile("a", "m", " x").names[0] == " x" && !Trimmed(" x");
  }

  /** A message that holds either separator is not reported. */
  lemma SeparatedMessage(normalize: string -> string, sep: char)
    requires sep == '\U{1E}' || sep == '\U{1F}'
    ensures var c := OneFile("a", ['m', sep, 'n'], "x"); Shaped(c) && Unfiltered(Render([c]), normalize) != AllSaid([c], normalize)
  {
    OneFileExactly("a", ['m', sep, 'n'], "x", normalize);
    assert ['m', sep, 'n'][1] == sep;
  }

  /** Nor is an author whose name does. */
  lemma SeparatedAuthor(normalize: string -> string, sep: char)
    requires sep == '\U{1E}' || sep == '\U{1F}'
    ensures var c := OneFile(['a', sep, 'b'], "m", "x"); Shaped(c) && Unfiltered(Render([c]), normalize) != AllSaid([c], normalize)
  {
    OneFileExactly(['a', sep, 'b'], "m", "x", normalize);
    assert ['a', sep, 'b'][1] == sep;
  }

  lemma {:induction false} ShownPrintable(commits: seq<Commit>, normalize: string -> string)
    requires forall c :: c in commits ==> Shaped(c) && Legible(c)
    ensures forall e :: e in AllRead(commits, normalize) ==> AllPrintable(e.path)
  {
    hide ReadOf, Shown, Legible, Shaped, Said, Printed;
    if commits != [] {
      var c := commits[0];
      assert c in commits;
      ReadLegible(c, normalize);
      SaidEntries(c, normalize);
      forall e | e in Shown(c, normalize) ensures AllPrintable(e.path) {
        var i :| 0 <= i < |c.names| && Shown(c, normalize)[i] == e;
        assert c.names[i] != "" by { NamesNotEmpty(c, i); }
        PrintedName(c.names[i]);
      }
      ShownPrintable(commits[1..], normalize);
    }
  }

  lemma NamesNotEmpty(c: Commit, i: nat)
    requires Shaped(c) && i < |c.names|
    ensures c.names[i] != ""
  {
    assert c.names[i] in c.names;
  }

  /** A file whose name holds anything but printable ASCII is not found by its name, however often it was
      changed: what is compared with the name asked for is the quoted text. */
  lemma NotFoundByName(commits: seq<Commit>, name: string, query: string, lower: string -> string, normalize: string -> string)
    requires name != "" && !AllPrintable(name) && forall c :: c in commits ==> Shaped(c) && Legible(c)
    ensures Select(Question(query, name, lower), Unfiltered(Render(commits), normalize)) == []
  {
    hide AllRead, Unfiltered, Render, AllPrintable, Legible, Shaped, Select;
    ReadOneByOne(commits, normalize);
    ShownPrintable(commits, normalize);
    SelectNone(Question(query, name, lower), AllRead(commits, normalize));
  }

  const E_ACUTE_GO := [0xC3 as char, 0xA9 as char, '.', 'g', 'o']
  const E_ACUTE_GO_PRINTED := "\"\\303\\251.go\""

  /** A file called "\U{E9}.go", an e with an acute accent, is reported under the quoted text of its name, and
      a query for its name has no answer. */
  lemma QuotedName(query: string, lower: string -> string, normalize: string -> string)
    ensures Bytes("\U{E9}.go") == E_ACUTE_GO && Printed(E_ACUTE_GO) == E_ACUTE_GO_PRINTED
    ensures var c := OneFile("a", "m", E_ACUTE_GO);
            && Shaped(c) && Unfiltered(Render([c]), normalize) != AllSaid([c], normalize)
            && Unfiltered(Render([c]), normalize) == [Entry("h", E_ACUTE_GO_PRINTED, "a", normalize("d"), "m")]
            && Select(Question(query, E_ACUTE_GO, lower), Unfiltered(Render([c]), normalize)) == []
  {
    EAcuteBytes();
    EAcutePrinted();
    EAcuteCommit();
    hide Printed, Bytes, Unfiltered, Render, AllSaid, Clean, Legible, Shaped, ReadOf, AllPrintable, Select, OneFile, Shown;
    var c := OneFile("a", "m", E_ACUTE_GO);
    OneFileExactly("a", "m", E_ACUTE_GO, normalize);
    assert forall d :: d in [c] ==> d == c;
    NotFoundByName([c], E_ACUTE_GO, query, lower, normalize);
    OneRead(c, normalize);
    EAcuteShown(normalize);
  }

  lemma OneRead(c: Commit, normalize: string -> string)
    requires Shaped(c) && Legible(c)
    ensures Unfiltered(Render([c]), normalize) == Shown(c, normalize)
  {
    hide Shown, Unfiltered, Render, ReadOf, Legible, Shaped;
    ReadOneByOne([c], normalize);
    ReadLegible(c, normalize);
    assert [c][1..] == [];
    assert AllRead([c], normalize) == Shown(c, normalize) + AllRead([], normalize);
  }

  lemma EAcuteCommit()
    ensures var c := OneFile("a", "m", E_ACUTE_GO); Shaped(c) && Legible(c) && !Clean(c)
    ensures !AllPrintable(E_ACUTE_GO)
  {
    var c := OneFile("a", "m", E_ACUTE_GO);
    assert Special(E_ACUTE_GO[0]) && NeedsQuoting(E_ACUTE_GO);
    assert c.names[0] == E_ACUTE_GO;
  }

  lemma EAcuteShown(normalize: string -> string)
    ensures Shown(OneFile("a", "m", E_ACUTE_GO), normalize) == [Entry("h", Printed(E_ACUTE_GO), "a", normalize("d"), "m")]
  {
    hide Printed;
  }

  lemma EAcuteBytes()
    ensures Bytes("\U{E9}.go") == E_ACUTE_GO
  {
    assert "\U{E9}.go"[..3] == "\U{E9}.g";
    assert "\U{E9}.g"[..2] == "\U{E9}." && "\U{E9}."[..1] == "\U{E9}" && "\U{E9}"[..0] == "";
  }

  lemma EAcuteEscapes()
    ensures Escape(0xC3 as char) == "\\303" && Escape(0xA9 as char) == "\\251"
    ensures Escape('.') == "." && Escape('g') == "g" && Escape('o') == "o" && Special(0xC3 as char)
  {}

  lemma EscapedNext(c: char, rest: string)
    ensures Escaped([c] + rest) == Escape(c) + Escaped(rest)
  {
    assert ([c] + rest)[1..] == rest;
  }

  lemma EAcutePrinted()
    ensures Printed(E_ACUTE_GO) == E_ACUTE_GO_PRINTED
  {
    hide Escape, Escaped, Special;
    EAcuteEscapes();
    EscapedNothing();
    assert E_ACUTE_GO[0] == 0xC3 as char && NeedsQuoting(E_ACUTE_GO);
    EscapedNext('o', "");
    assert Escaped("o") == "o" by { assert ['o'] + "" == "o"; }
    EscapedNext('g', "o");
    assert Escaped("go") == "go" by { assert ['g'] + "o" == "go"; }
    EscapedNext('.', "go");
    assert Escaped(".go") == ".go" by { assert ['.'] + "go" == ".go"; }
    EscapedNext(0xA9 as char, ".go");
    EscapedNext(0xC3 as char, [0xA9 as char] + ".go");
    assert E_ACUTE_GO == [0xC3 as char] + ([0xA9 as char] + ".go");
    assert Escaped(E_ACUTE_GO) == "\\303" + ("\\251" + ".go");
    assert E_ACUTE_GO_PRINTED == "\"" + ("\\303" + ("\\251" + ".go")) + "\"";
  }

  lemma EscapedNothing()
    ensures Escaped("") == ""
  {}
}
