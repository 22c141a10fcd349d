/** Replacing a record file: any number of writers and deleters of one directory, every call of which
    may fail and every one of which may be killed anywhere. */
module AtomicWrite {
  import opened Options

  /** What a file holds: a whole body, or whatever a write that did not finish left. */
  datatype File = Whole(body: string) | Torn

  /** What a writer does next with its temporary file. */
  datatype Phase = Writing | Flushing | Closing | Renaming | Settling

  datatype Writer = Writer(target: string, body: string, tmp: string, phase: Phase)

  datatype Disk = Disk(files: map<string, File>, writers: map<nat, Writer>)

  datatype Label =
    | Begin(p: nat, name: string, body: string, tmp: string)
    | Go(p: nat)
    | Fail(p: nat)
    | Kill(p: nat)
    | Delete(name: string)

  const EXTENSION := ".json"

  /** Only a file with the record suffix is a record. */
  predicate IsRecord(file: string) {
    |file| >= |EXTENSION| && file[|file| - |EXTENSION|..] == EXTENSION
  }

  const TEMPORARY := ".tmp-"

  function Apply(d: Disk, l: Label): Option<Disk> {
    match l
    case Begin(p, name, body, tmp) =>
      // a fixed start and a random number: a name no file has, and none that is still in use
      if p !in d.writers && !IsRecord(tmp) && TEMPORARY <= tmp && tmp !in d.files &&
         forall q :: q in d.writers ==> d.writers[q].tmp != tmp
      then
        Some(Disk(d.files[tmp := Whole("")], d.writers[p := Writer(name + EXTENSION, body, tmp, Writing)]))
      else None
    case Go(p) => if p in d.writers then Some(Advance(d, p, d.writers[p])) else None
    case Fail(p) =>
      // the temporary file is removed by its name, also when only flushing the directory failed
      if p in d.writers then Some(Disk(d.files - {d.writers[p].tmp}, d.writers - {p})) else None
    case Kill(p) =>
      if p in d.writers then
        var w := d.writers[p];
        Some(Disk(if w.phase.Writing? then d.files[w.tmp := Torn] else d.files, d.writers - {p}))
      else None
    case Delete(name) =>
      if name + EXTENSION in d.files then Some(d.(files := d.files - {name + EXTENSION})) else None
  }

  function Advance(d: Disk, p: nat, w: Writer): Disk {
    match w.phase
    case Writing => Disk(d.files[w.tmp := Whole(w.body)], d.writers[p := w.(phase := Flushing)])
    case Flushing => d.(writers := d.writers[p := w.(phase := Closing)])
    case Closing => d.(writers := d.writers[p := w.(phase := Renaming)])
    case Renaming =>
      if w.tmp in d.files then Disk((d.files - {w.tmp})[w.target := d.files[w.tmp]], d.writers[p := w.(phase := Settling)])
      else Disk(d.files, d.writers - {p})
    case Settling => Disk(d.files, d.writers - {p})
  }

  /** What a listing reads. */
  function Records(files: map<string, File>): map<string, File> {
    map file | file in files && IsRecord(file) :: files[file]
  }

  /** Every writer has a temporary file of its own, holding its whole body once it was written, and
      every record is whole. */
  ghost predicate Sound(d: Disk) {
    && (forall p :: p in d.writers ==>
          && (d.writers[p].phase.Settling? || d.writers[p].tmp in d.files) && !IsRecord(d.writers[p].tmp) && IsRecord(d.writers[p].target)
          && (!d.writers[p].phase.Writing? && !d.writers[p].phase.Settling? ==> d.files[d.writers[p].tmp] == Whole(d.writers[p].body)))
    && (forall p, q :: p in d.writers && q in d.writers && d.writers[p].tmp == d.writers[q].tmp ==> p == q)
    && (forall file :: file in d.files && IsRecord(file) ==> d.files[file].Whole?)
  }

  lemma Suffixed(name: string)
    ensures IsRecord(name + EXTENSION)
  {}

  lemma SoundStep(d: Disk, l: Label)
    requires Sound(d) && Apply(d, l).Some?
    ensures Sound(Apply(d, l).value)
  {
    hide IsRecord, Advance;
    match l {
      case Begin(p, name, body, tmp) => Suffixed(name);
      case Delete(name) => Suffixed(name);
      case Go(p) => SoundGo(d, p);
      case _ =>
    }
  }

  lemma SoundGo(d: Disk, p: nat)
    requires Sound(d) && p in d.writers
    ensures Sound(Advance(d, p, d.writers[p]))
  {
    hide Sound, Advance;
    match d.writers[p].phase
    case Writing => SoundWrite(d, p);
    case Renaming => SoundRename(d, p);
    case _ => SoundOtherwise(d, p);
  }

  lemma SoundWrite(d: Disk, p: nat)
    requires Sound(d) && p in d.writers && d.writers[p].phase.Writing?
    ensures Sound(Advance(d, p, d.writers[p]))
  {
    hide IsRecord;
  }

  lemma SoundRename(d: Disk, p: nat)
    requires Sound(d) && p in d.writers && d.writers[p].phase.Renaming?
    ensures Sound(Advance(d, p, d.writers[p]))
  {
    hide IsRecord;
  }

  lemma SoundOtherwise(d: Disk, p: nat)
    requires Sound(d) && p in d.writers && !d.writers[p].phase.Writing? && !d.writers[p].phase.Renaming?
    ensures Sound(Advance(d, p, d.writers[p]))
  {
    hide IsRecord;
  }

  /** The step at which a writer's file becomes the record. */
  predicate Renames(d: Disk, l: Label) { l.Go? && l.p in d.writers && d.writers[l.p].phase.Renaming? }

  /** A listing sees a write all at once or not at all: only the rename changes what is listed, and it
      changes the one record to the whole body it was given. Failed and killed writers, and what they
      leave behind, are never seen. */
  lemma OldOrNew(d: Disk, l: Label)
    requires Sound(d) && Apply(d, l).Some?
    ensures var before, after := Records(d.files), Records(Apply(d, l).value.files);
            after == if Renames(d, l) then before[d.writers[l.p].target := Whole(d.writers[l.p].body)]
                     else if l.Delete? then before - {l.name + EXTENSION}
                     else before
  {
    hide IsRecord;
    match l {
      case Delete(name) => Suffixed(name);
      case _ =>
    }
  }

  function Run(d: Disk, labels: seq<Label>): Option<Disk>
    decreases |labels|
  {
    if labels == [] then Some(d)
    else match Apply(d, labels[0])
      case None => None
      case Some(next) => Run(next, labels[1..])
  }

  /** The records and bodies writers have set out to write. */
  function Offers(labels: seq<Label>): set<(string, string)> {
    set i | 0 <= i < |labels| && labels[i].Begin? :: (labels[i].name + EXTENSION, labels[i].body)
  }

  ghost predicate Accounted(d: Disk, offers: set<(string, string)>) {
    && (forall p :: p in d.writers ==> (d.writers[p].target, d.writers[p].body) in offers)
    && (forall file :: file in d.files && IsRecord(file) && d.files[file].Whole? ==> (file, d.files[file].body) in offers)
  }

  lemma AccountedStep(d: Disk, l: Label, offers: set<(string, string)>)
    requires Sound(d) && Accounted(d, offers) && Apply(d, l).Some?
    ensures Accounted(Apply(d, l).value, offers + Offers([l]))
  {
    hide IsRecord;
    if l.Begin? {
      assert [l][0] == l && (l.name + EXTENSION, l.body) in Offers([l]);
    }
  }

  lemma {:induction false} AccountedRun(d: Disk, labels: seq<Label>, offers: set<(string, string)>)
    requires Sound(d) && Accounted(d, offers) && Run(d, labels).Some?
    ensures Sound(Run(d, labels).value) && Accounted(Run(d, labels).value, offers + Offers(labels))
    decreases |labels|
  {
    hide Sound, Accounted, Apply, Offers;
    if labels == [] {
      assert offers + Offers([]) == offers by { NoOffers(); }
    } else {
      SoundStep(d, labels[0]);
      AccountedStep(d, labels[0], offers);
      AccountedRun(Apply(d, labels[0]).value, labels[1..], offers + Offers([labels[0]]));
      OffersNext(labels);
      assert offers + Offers([labels[0]]) + Offers(labels[1..]) == offers + Offers(labels);
    }
  }

  lemma NoOffers()
    ensures Offers([]) == {}
  {}

  lemma OffersNext(labels: seq<Label>)
    requires labels != []
    ensures Offers(labels) == Offers([labels[0]]) + Offers(labels[1..])
  {
    forall o | o in Offers(labels) ensures o in Offers([labels[0]]) + Offers(labels[1..]) {
      var i :| 0 <= i < |labels| && labels[i].Begin? && o == (labels[i].name + EXTENSION, labels[i].body);
      if i == 0 { assert [labels[0]][0] == labels[i]; } else { assert labels[1..][i - 1] == labels[i]; }
    }
    forall o | o in Offers([labels[0]]) ensures o in Offers(labels) {
      assert labels[0].Begin? && o == (labels[0].name + EXTENSION, labels[0].body);
    }
    forall o | o in Offers(labels[1..]) ensures o in Offers(labels) {
      var i :| 0 <= i < |labels[1..]| && labels[1..][i].Begin? && o == (labels[1..][i].name + EXTENSION, labels[1..][i].body);
      assert labels[i + 1] == labels[1..][i];
    }
  }

  const EMPTY := Disk(map[], map[])

  /** Whatever was interleaved, failed or was killed: every record there is, is whole, and is a body
      somebody set out to file under that name. */
  lemma NeverTorn(labels: seq<Label>, file: string)
    requires Run(EMPTY, labels).Some? && file in Records(Run(EMPTY, labels).value.files)
    ensures var content := Run(EMPTY, labels).value.files[file];
            content.Whole? && (file, content.body) in Offers(labels)
  {
    hide Offers;
    AccountedRun(EMPTY, labels, {});
    assert {} + Offers(labels) == Offers(labels);
  }

  // ---------------------------------------------------------------- what a run makes of a listing

  /** What happens to the records: one is filed, or one is deleted. */
  datatype Event = Filed(file: string, body: string) | Deleted(file: string)

  /** What a step does to the records, if anything. */
  function EventOf(d: Disk, l: Label): Option<Event> {
    if Renames(d, l) then Some(Filed(d.writers[l.p].target, d.writers[l.p].body))
    else if l.Delete? then Some(Deleted(l.name + EXTENSION))
    else None
  }

  function Happen(records: map<string, File>, e: Option<Event>): map<string, File> {
    match e
    case None => records
    case Some(Filed(file, body)) => records[file := Whole(body)]
    case Some(Deleted(file)) => records - {file}
  }

  /** A directory in which records are replaced and deleted in single steps: what the writers look like
      to a reader. */
  function Replay(records: map<string, File>, d: Disk, labels: seq<Label>): map<string, File>
    decreases |labels|
  {
    if labels == [] then records
    else match Apply(d, labels[0])
      case None => records
      case Some(next) => Replay(Happen(records, EventOf(d, labels[0])), next, labels[1..])
  }

  /** However writers and deleters are interleaved, fail and are killed, what is listed at the end is what
      the renames and the deletions, in their order, make of what was listed at the start. */
  lemma {:induction false} Linearizes(d: Disk, labels: seq<Label>)
    requires Sound(d) && Run(d, labels).Some?
    ensures Records(Run(d, labels).value.files) == Replay(Records(d.files), d, labels)
    decreases |labels|
  {
    hide Sound, Apply, Records;
    if labels != [] {
      SoundStep(d, labels[0]);
      OldOrNew(d, labels[0]);
      Linearizes(Apply(d, labels[0]).value, labels[1..]);
    }
  }

  /** No step of the run renames this writer's file over its record. */
  ghost predicate NeverRenames(d: Disk, labels: seq<Label>, file: string)
    decreases |labels|
  {
    labels != [] ==>
      && (EventOf(d, labels[0]).Some? ==> EventOf(d, labels[0]).value.file != file)
      && (Apply(d, labels[0]).Some? ==> NeverRenames(Apply(d, labels[0]).value, labels[1..], file))
  }

  /** A record no writer of which got to its rename, and which nobody deleted, is as it was, whatever was
      begun, torn, failed or killed on its behalf. */
  lemma {:induction false} UntouchedBefore(d: Disk, labels: seq<Label>, file: string)
    requires Sound(d) && Run(d, labels).Some? && NeverRenames(d, labels, file)
    ensures file in Records(Run(d, labels).value.files) <==> file in Records(d.files)
    ensures file in Records(d.files) ==> Records(Run(d, labels).value.files)[file] == Records(d.files)[file]
    decreases |labels|
  {
    hide Sound, Apply, Records;
    if labels != [] {
      SoundStep(d, labels[0]);
      OldOrNew(d, labels[0]);
      UntouchedBefore(Apply(d, labels[0]).value, labels[1..], file);
    }
  }

  // ---------------------------------------------------------------- one writer that stops

  /** The steps of one writer. */
  function Goes(p: nat, steps: nat): (labels: seq<Label>)
    ensures |labels| == steps
  {
    seq(steps, _ => Go(p))
  }

  /** How it stops before its end: a call that fails, or a signal that kills it. */
  predicate Stops(l: Label, p: nat) { l == Fail(p) || l == Kill(p) }

  /** A writer that gets so far and then fails or is killed. */
  function Stopped(p: nat, name: string, body: string, tmp: string, steps: nat, stop: Label): seq<Label> {
    [Begin(p, name, body, tmp)] + (Goes(p, steps) + [stop])
  }

  const PHASES: seq<Phase> := [Writing, Flushing, Closing, Renaming, Settling]

  /** Where a writer is after some of its steps, and whether it has replaced the record. */
  ghost predicate Underway(start: Disk, d: Disk, p: nat, name: string, body: string, tmp: string, steps: nat) {
    && steps < |PHASES|
    && d.writers == start.writers[p := Writer(name + EXTENSION, body, tmp, PHASES[steps])]
    && Sound(d)
    && Records(d.files) == (if steps == 4 then Records(start.files)[name + EXTENSION := Whole(body)] else Records(start.files))
    && tmp !in start.files && !IsRecord(tmp)
    && d.files == (if steps == 4 then start.files[name + EXTENSION := Whole(body)] else start.files[tmp := Whole(if steps == 0 then "" else body)])
  }

  lemma {:induction false} GoesOn(start: Disk, d: Disk, p: nat, name: string, body: string, tmp: string, done: nat, steps: nat)
    requires Underway(start, d, p, name, body, tmp, done) && done + steps < |PHASES|
    ensures Run(d, Goes(p, steps)).Some? && Underway(start, Run(d, Goes(p, steps)).value, p, name, body, tmp, done + steps)
    decreases steps
  {
    hide Underway, Apply, IsRecord;
    if steps > 0 {
      var l := Go(p);
      assert Goes(p, steps)[0] == l && Goes(p, steps)[1..] == Goes(p, steps - 1);
      OneStepOn(start, d, p, name, body, tmp, done);
      GoesOn(start, Apply(d, l).value, p, name, body, tmp, done + 1, steps - 1);
    }
  }

  lemma OneStepOn(start: Disk, d: Disk, p: nat, name: string, body: string, tmp: string, done: nat)
    requires Underway(start, d, p, name, body, tmp, done) && done + 1 < |PHASES|
    ensures Apply(d, Go(p)).Some? && Underway(start, Apply(d, Go(p)).value, p, name, body, tmp, done + 1)
  {
    hide Records, Sound, Apply, IsRecord;
    NextPhase(d, p, d.writers[p], done);
    NextFiles(start, d, p, name, body, tmp, done);
    Suffixed(name);
    SoundStep(d, Go(p));
    OldOrNew(d, Go(p));
  }

  lemma NextPhase(d: Disk, p: nat, w: Writer, done: nat)
    requires Sound(d) && p in d.writers && d.writers[p] == w && done + 1 < |PHASES| && w.phase == PHASES[done]
    ensures Apply(d, Go(p)).Some? && Apply(d, Go(p)).value.writers == d.writers[p := w.(phase := PHASES[done + 1])]
  {
    hide IsRecord;
  }

  lemma NextFiles(start: Disk, d: Disk, p: nat, name: string, body: string, tmp: string, done: nat)
    requires done + 1 < |PHASES| && p in d.writers && d.writers[p] == Writer(name + EXTENSION, body, tmp, PHASES[done])
    requires tmp !in start.files && d.files == start.files[tmp := Whole(if done == 0 then "" else body)]
    ensures Apply(d, Go(p)).Some?
    ensures Apply(d, Go(p)).value.files == if done == 3 then start.files[name + EXTENSION := Whole(body)] else start.files[tmp := Whole(body)]
  {}

  predicate CanBegin(d: Disk, p: nat, tmp: string) {
    p !in d.writers && !IsRecord(tmp) && TEMPORARY <= tmp && tmp !in d.files && forall q :: q in d.writers ==> d.writers[q].tmp != tmp
  }

  lemma Begins(d: Disk, p: nat, name: string, body: string, tmp: string)
    requires Sound(d) && CanBegin(d, p, tmp)
    ensures Apply(d, Begin(p, name, body, tmp)).Some? && Underway(d, Apply(d, Begin(p, name, body, tmp)).value, p, name, body, tmp, 0)
  {
    SoundStep(d, Begin(p, name, body, tmp));
    OldOrNew(d, Begin(p, name, body, tmp));
    hide Sound, Records;
  }

  lemma RunTwo(d: Disk, l: Label, steps: seq<Label>, stop: Label)
    requires Apply(d, l).Some? && Run(Apply(d, l).value, steps).Some?
    ensures Run(d, [l] + (steps + [stop])) == Run(Run(Apply(d, l).value, steps).value, [stop])
  {
    hide Apply;
    assert ([l] + (steps + [stop]))[1..] == steps + [stop];
    RunAppend(Apply(d, l).value, steps, [stop]);
  }

  lemma {:induction false} RunAppend(d: Disk, a: seq<Label>, b: seq<Label>)
    requires Run(d, a).Some?
    ensures Run(d, a + b) == Run(Run(d, a).value, b)
    decreases |a|
  {
    hide Apply;
    if a == [] {
      assert a + b == b;
    } else {
      assert (a + b)[1..] == a[1..] + b;
      RunAppend(Apply(d, a[0]).value, a[1..], b);
    }
  }

  /** A writer that stops, failing or killed, at any of its steps and beside whatever else is on the disk,
      has left the records as they were exactly when it stopped before its rename, or the record already
      was what it set out to write. After its rename it has filed the record, though it reports failure. */
  lemma StoppedLeaves(d: Disk, p: nat, name: string, body: string, tmp: string, steps: nat, stop: Label)
    requires Sound(d) && CanBegin(d, p, tmp) && steps < |PHASES| && Stops(stop, p)
    ensures Run(d, Stopped(p, name, body, tmp, steps, stop)).Some?
    ensures var end, file := Run(d, Stopped(p, name, body, tmp, steps, stop)).value, name + EXTENSION;
            && p !in end.writers
            && Records(end.files) == (if steps == 4 then Records(d.files)[file := Whole(body)] else Records(d.files))
            && (Records(end.files) == Records(d.files) <==>
                  steps < 4 || (file in d.files && d.files[file] == Whole(body)))
            && end.writers == d.writers
            && (stop.Fail? ==> end.files == if steps == 4 then d.files[file := Whole(body)] else d.files)
            && (stop.Kill? ==> end.files == if steps == 4 then d.files[file := Whole(body)] else d.files[tmp := if steps == 0 then Torn else Whole(body)])
  {
    hide Records, Sound, IsRecord;
    var l := Begin(p, name, body, tmp);
    Begins(d, p, name, body, tmp);
    var begun := Apply(d, l).value;
    GoesOn(d, begun, p, name, body, tmp, 0, steps);
    var mid := Run(begun, Goes(p, steps)).value;
    RunTwo(d, l, Goes(p, steps), stop);
    OldOrNew(mid, stop);
    assert [stop][1..] == [];
    var end := Apply(mid, stop).value;
    StopFiles(d, mid, p, name, body, tmp, steps, stop);
    Suffixed(name);
    FiledOrNot(d, name + EXTENSION, body);
  }

  /** A writer that fails takes its temporary file away again; one that is killed leaves it. */
  lemma StopFiles(d: Disk, mid: Disk, p: nat, name: string, body: string, tmp: string, steps: nat, stop: Label)
    requires Underway(d, mid, p, name, body, tmp, steps) && Stops(stop, p) && p !in d.writers
    ensures Apply(mid, stop).Some?
    ensures var end, file := Apply(mid, stop).value, name + EXTENSION;
            && end.writers == d.writers
            && (stop.Fail? ==> end.files == if steps == 4 then d.files[file := Whole(body)] else d.files)
            && (stop.Kill? ==> end.files == if steps == 4 then d.files[file := Whole(body)] else d.files[tmp := if steps == 0 then Torn else Whole(body)])
  {
    hide Records, Sound, IsRecord;
    Suffixed(name);
  }

  /** A writer that nothing stops replaces the record and leaves nothing else behind. */
  lemma Finishes(d: Disk, p: nat, name: string, body: string, tmp: string)
    requires Sound(d) && CanBegin(d, p, tmp)
    ensures Run(d, [Begin(p, name, body, tmp)] + (Goes(p, 4) + [Go(p)])) == Some(d.(files := d.files[name + EXTENSION := Whole(body)]))
  {
    hide Records, Sound, IsRecord;
    var l := Begin(p, name, body, tmp);
    Begins(d, p, name, body, tmp);
    var begun := Apply(d, l).value;
    GoesOn(d, begun, p, name, body, tmp, 0, 4);
    RunTwo(d, l, Goes(p, 4), Go(p));
    assert [Go(p)][1..] == [];
    LastStep(d, Run(begun, Goes(p, 4)).value, p, name, body, tmp);
  }

  lemma LastStep(d: Disk, mid: Disk, p: nat, name: string, body: string, tmp: string)
    requires Underway(d, mid, p, name, body, tmp, 4) && p !in d.writers
    ensures Apply(mid, Go(p)) == Some(d.(files := d.files[name + EXTENSION := Whole(body)]))
  {
    hide Records, Sound, IsRecord;
    var w := Writer(name + EXTENSION, body, tmp, Settling);
    assert mid.writers[p] == w && Apply(mid, Go(p)) == Some(Disk(mid.files, mid.writers - {p}));
    assert d.writers[p := w] - {p} == d.writers;
  }

  lemma FiledOrNot(d: Disk, file: string, body: string)
    requires IsRecord(file)
    ensures Records(d.files)[file := Whole(body)] == Records(d.files) <==> file in d.files && d.files[file] == Whole(body)
  {
    hide IsRecord;
    if Records(d.files)[file := Whole(body)] == Records(d.files) {
      assert file in Records(d.files)[file := Whole(body)] && Records(d.files)[file := Whole(body)][file] == Whole(body);
    }
  }

  /** So a write that fails may have replaced the record: from an empty directory, a writer whose last
      flush fails leaves its body under its name. */
  lemma FailedYetFiled(name: string, body: string)
    ensures var labels := Stopped(0, name, body, ".tmp-1", 4, Fail(0));
            && labels[|labels| - 1] == Fail(0)
            && Run(EMPTY, labels).Some? && Records(Run(EMPTY, labels).value.files) == map[name + ".json" := Whole(body)]
  {
    var labels := Stopped(0, name, body, ".tmp-1", 4, Fail(0));
    StoppedLeaves(EMPTY, 0, name, body, ".tmp-1", 4, Fail(0));
    assert Records(EMPTY.files) == map[];
  }
}
