/** The life of the persistent graph-engine session: any number of callers, the attempts that bring
    a session up, retirements and shutdowns, interleaved at every critical section.

    `State` is what the provider's fields and the goroutines around them amount to; each transition
    function below is one critical section or one thing a goroutine does between two of them. The
    class `Provider` is the code: its methods are the critical sections, proved against these. */
module Session {
  import opened Options

  /** A session, named by the attempt that opened it: one attempt opens at most one. */
  type Id = nat

  /** How far the goroutine of an attempt is: connecting, back with a session or an error, settled,
      or gone with its done channel closed. */
  datatype Progress = Connecting | Opened | Failed | Settled | Gone

  datatype Attempt = Attempt(progress: Progress, abandoned: bool)

  /** How far a Close call is: waiting for an attempt to go, or holding the session it took out. The
      sets record what was open when the call began and when it took the session, and `alone` that
      no other Close has overlapped it. */
  datatype Closer =
    | Waiting(attempt: Option<Id>, before: set<Id>, alone: bool)
    | Holding(session: Option<Id>, before: set<Id>, upto: set<Id>, alone: bool)

  datatype State = State(
    session: Option<Id>,
    starting: Option<Id>,
    cliOnly: bool,
    closed: bool,
    attempts: map<Id, Attempt>,
    openings: set<Id>,
    closes: multiset<Id>,
    closers: map<nat, Closer>)

  const INITIAL := State(None, None, false, false, map[], {}, multiset{}, map[])

  // ---------------------------------------------------------------- transitions

  /** A call looks for the session; with none, none starting and no reason against, it begins the
      one attempt. */
  function Enter(s: State, next: Id): State {
    if s.session.Some? || s.cliOnly || s.closed || s.starting.Some? then s
    else s.(starting := Some(next), attempts := s.attempts[next := Attempt(Connecting, false)])
  }

  /** The connector comes back, with a session or an error. */
  function Connect(s: State, a: Id, ok: bool): State
    requires a in s.attempts
  {
    if ok then s.(attempts := s.attempts[a := s.attempts[a].(progress := Opened)], openings := s.openings + {a})
    else s.(attempts := s.attempts[a := s.attempts[a].(progress := Failed)])
  }

  function Settle(s: State, a: Id): State
    requires a in s.attempts
  {
    var attempt := s.attempts[a];
    var t := s.(starting := if s.starting == Some(a) then None else s.starting,
                attempts := s.attempts[a := attempt.(progress := Settled)]);
    if attempt.progress != Opened then
      if attempt.abandoned then t else t.(cliOnly := true)
    else if attempt.abandoned || s.closed then t.(closes := s.closes + multiset{a})
    else t.(session := Some(a))
  }

  /** The done channel closes. */
  function Signal(s: State, a: Id): State
    requires a in s.attempts
  {
    s.(attempts := s.attempts[a := s.attempts[a].(progress := Gone)])
  }

  function Retire(s: State, broken: Id): State {
    if s.session == Some(broken) then s.(session := None, closes := s.closes + multiset{broken}) else s
  }

  /** Everybody's call has been overlapped by another. */
  function Overlapped(closers: map<nat, Closer>): map<nat, Closer> {
    map c | c in closers :: closers[c].(alone := false)
  }

  function CloseBegin(s: State, c: nat): State {
    s.(closed := true,
       attempts := if s.starting.Some? && s.starting.value in s.attempts
                   then s.attempts[s.starting.value := s.attempts[s.starting.value].(abandoned := true)] else s.attempts,
       closers := Overlapped(s.closers)[c := Waiting(s.starting, s.openings, s.closers == map[])])
  }

  function CloseEnd(s: State, c: nat): State
    requires c in s.closers
  {
    s.(session := None, closed := false,
       closers := s.closers[c := Holding(s.session, s.closers[c].before, s.openings, s.closers[c].alone)])
  }

  function CloseReturn(s: State, c: nat): State
    requires c in s.closers && s.closers[c].Holding?
  {
    s.(closers := s.closers - {c},
       closes := if s.closers[c].session.Some? then s.closes + multiset{s.closers[c].session.value} else s.closes)
  }

  datatype Label =
    | LEnter(next: Id)
    | LConnect(a: Id, ok: bool)
    | LSettle(a: Id)
    | LSignal(a: Id)
    | LRetire(broken: Id)
    | LCloseBegin(c: nat)
    | LCloseEnd(c: nat)
    | LCloseReturn(c: nat)

  predicate Enabled(s: State, l: Label) {
    match l
    case LEnter(next) => next !in s.attempts
    case LConnect(a, _) => a in s.attempts && s.attempts[a].progress.Connecting?
    case LSettle(a) => a in s.attempts && (s.attempts[a].progress.Opened? || s.attempts[a].progress.Failed?)
    case LSignal(a) => a in s.attempts && s.attempts[a].progress.Settled?
    case LRetire(_) => true
    case LCloseBegin(c) => c !in s.closers
    case LCloseEnd(c) =>
      c in s.closers && s.closers[c].Waiting? &&
      (s.closers[c].attempt.Some? ==> s.closers[c].attempt.value in s.attempts && s.attempts[s.closers[c].attempt.value].progress.Gone?)
    case LCloseReturn(c) => c in s.closers && s.closers[c].Holding?
  }

  function Next(s: State, l: Label): State
    requires Enabled(s, l)
  {
    match l
    case LEnter(next) => Enter(s, next)
    case LConnect(a, ok) => Connect(s, a, ok)
    case LSettle(a) => Settle(s, a)
    case LSignal(a) => Signal(s, a)
    case LRetire(broken) => Retire(s, broken)
    case LCloseBegin(c) => CloseBegin(s, c)
    case LCloseEnd(c) => CloseEnd(s, c)
    case LCloseReturn(c) => CloseReturn(s, c)
  }

  // ---------------------------------------------------------------- the invariant

  /** An attempt that has not been settled. */
  predicate InFlight(s: State, a: Id) {
    a in s.attempts && (s.attempts[a].progress.Connecting? || s.attempts[a].progress.Opened? || s.attempts[a].progress.Failed?)
  }

  /** The session an attempt has opened and nobody has been given yet. */
  predicate Unfiled(s: State, a: Id) {
    a in s.attempts && s.attempts[a].progress.Opened?
  }

  predicate HeldBy(s: State, c: nat, x: Id) {
    c in s.closers && s.closers[c].Holding? && s.closers[c].session == Some(x)
  }

  ghost predicate Owned(s: State, x: Id) {
    Unfiled(s, x) || s.session == Some(x) || exists c :: HeldBy(s, c, x)
  }

  /** What has been opened is in exactly one place until it is closed, and then in none. */
  ghost predicate Ownership(s: State) {
    && (forall a :: Unfiled(s, a) ==> a in s.openings && s.session != Some(a) && !exists c :: HeldBy(s, c, a))
    && (s.session.Some? ==> s.session.value in s.openings && !exists c :: HeldBy(s, c, s.session.value))
    && (forall c, x :: HeldBy(s, c, x) ==> x in s.openings)
    && (forall c, d, x :: HeldBy(s, c, x) && HeldBy(s, d, x) ==> c == d)
    && OpenersKnown(s)
    && (forall x :: s.closes[x] == if x in s.openings && !Owned(s, x) then 1 else 0)
  }

  ghost predicate CloserOk(s: State, k: Closer) {
    match k
    case Waiting(attempt, before, alone) =>
      && before <= s.openings
      && (attempt.Some? ==> attempt.value in s.attempts && (InFlight(s, attempt.value) ==> s.attempts[attempt.value].abandoned))
      && (forall x :: x in before && Unfiled(s, x) ==> attempt == Some(x))
      && (alone ==> s.closed && (s.starting.Some? ==> s.starting == attempt))
    case Holding(session, before, upto, alone) =>
      && before <= upto <= s.openings
      && (forall x :: x in before ==> !Unfiled(s, x) && s.session != Some(x))
      && (alone ==> forall x :: x in upto ==> !Unfiled(s, x) && s.session != Some(x))
  }

  ghost predicate Inv(s: State) {
    && (forall a: Id :: InFlight(s, a) <==> s.starting == Some(a))
    && !(s.session.Some? && s.starting.Some?)
    && Ownership(s)
    && (forall c :: c in s.closers ==> CloserOk(s, s.closers[c]))
    && (forall c, d :: c in s.closers && d in s.closers && c != d ==> !s.closers[c].alone)
  }

  lemma EnterInv(s: State, next: Id)
    requires Inv(s) && next !in s.attempts
    ensures Inv(Enter(s, next))
  {
    var t := Enter(s, next);
    assert forall a :: a != next ==> (Unfiled(t, a) <==> Unfiled(s, a)) && (InFlight(t, a) <==> InFlight(s, a));
    assert forall c, x :: HeldBy(t, c, x) <==> HeldBy(s, c, x);
  }

  lemma ConnectViews(s: State, a: Id, ok: bool)
    requires Inv(s) && Enabled(s, LConnect(a, ok))
    ensures var t := Connect(s, a, ok);
            && InFlight(s, a) && InFlight(t, a)
            && (forall b :: b != a ==> (Unfiled(t, b) <==> Unfiled(s, b)) && (InFlight(t, b) <==> InFlight(s, b)))
            && (forall c, x :: HeldBy(t, c, x) <==> HeldBy(s, c, x))
            && !Unfiled(s, a) && (Unfiled(t, a) <==> ok) && s.session == None && t.session == None && a !in s.openings
            && t.openings == (if ok then s.openings + {a} else s.openings) && t.closes == s.closes
  {
    hide CloserOk;
    assert InFlight(s, a);
  }

  lemma ConnectClosers(s: State, a: Id, ok: bool)
    requires Inv(s) && Enabled(s, LConnect(a, ok))
    ensures forall c :: c in s.closers ==> CloserOk(Connect(s, a, ok), s.closers[c])
  {
    ConnectViews(s, a, ok);
    hide Ownership, HeldBy, Unfiled, InFlight;
  }

  lemma ConnectOwnership(s: State, a: Id, ok: bool)
    requires Inv(s) && Enabled(s, LConnect(a, ok))
    ensures Ownership(Connect(s, a, ok))
  {
    ConnectViews(s, a, ok);
    hide CloserOk, HeldBy, Unfiled, InFlight;
  }

  lemma ConnectInv(s: State, a: Id, ok: bool)
    requires Inv(s) && Enabled(s, LConnect(a, ok))
    ensures Inv(Connect(s, a, ok))
  {
    ConnectViews(s, a, ok);
    ConnectClosers(s, a, ok);
    ConnectOwnership(s, a, ok);
    hide CloserOk, Ownership, HeldBy, Unfiled, InFlight;
  }

  /** What settling changes of where a session is: an opened one is filed or closed. */
  lemma SettleViews(s: State, a: Id)
    requires Inv(s) && Enabled(s, LSettle(a))
    ensures var t := Settle(s, a);
            && s.session == None && (Unfiled(s, a) ==> s.closes[a] == 0)
            && (forall b :: Unfiled(t, b) <==> b != a && Unfiled(s, b))
            && (forall c, x :: HeldBy(t, c, x) <==> HeldBy(s, c, x))
            && t.openings == s.openings
            && (Unfiled(s, a) ==> (t.session == Some(a) && t.closes == s.closes) || (t.session == None && t.closes == s.closes + multiset{a}))
            && (!Unfiled(s, a) ==> t.session == None && t.closes == s.closes)
  {
    hide CloserOk;
    assert InFlight(s, a);
  }

  /** The attempts that opened something are still known, and past connecting. */
  ghost predicate OpenersKnown(s: State) {
    forall x :: x in s.openings ==> x in s.attempts && !s.attempts[x].progress.Connecting? && !s.attempts[x].progress.Failed?
  }

  lemma SettleOpeners(s: State, a: Id)
    requires Enabled(s, LSettle(a)) && OpenersKnown(s)
    ensures OpenersKnown(Settle(s, a))
  {}

  lemma SettleOwnership(s: State, a: Id)
    requires Inv(s) && Enabled(s, LSettle(a))
    ensures Ownership(Settle(s, a))
  {
    hide CloserOk, HeldBy, Unfiled, InFlight, Settle, Enabled;
    SettleViews(s, a);
    SettleOpeners(s, a);
  }

  lemma SettleClosers(s: State, a: Id)
    requires Inv(s) && Enabled(s, LSettle(a))
    ensures forall c :: c in s.closers ==> CloserOk(Settle(s, a), s.closers[c])
  {
    var t := Settle(s, a);
    assert InFlight(s, a) && s.starting == Some(a);
    assert forall b :: b != a ==> (Unfiled(t, b) <==> Unfiled(s, b)) && (InFlight(t, b) <==> InFlight(s, b));
    hide Ownership;
  }

  lemma SettleInv(s: State, a: Id)
    requires Inv(s) && Enabled(s, LSettle(a))
    ensures Inv(Settle(s, a))
  {
    SettleOwnership(s, a);
    SettleClosers(s, a);
    hide Ownership, CloserOk;
    var t := Settle(s, a);
    assert InFlight(s, a);
    assert forall b :: b != a ==> (InFlight(t, b) <==> InFlight(s, b));
  }

  lemma SignalInv(s: State, a: Id)
    requires Inv(s) && Enabled(s, LSignal(a))
    ensures Inv(Signal(s, a))
  {
    var t := Signal(s, a);
    assert forall b :: (Unfiled(t, b) <==> Unfiled(s, b)) && (InFlight(t, b) <==> InFlight(s, b));
    assert forall c, x :: HeldBy(t, c, x) <==> HeldBy(s, c, x);
  }

  lemma RetireInv(s: State, broken: Id)
    requires Inv(s)
    ensures Inv(Retire(s, broken))
  {
    var t := Retire(s, broken);
    assert forall b :: (Unfiled(t, b) <==> Unfiled(s, b)) && (InFlight(t, b) <==> InFlight(s, b));
    assert forall c, x :: HeldBy(t, c, x) <==> HeldBy(s, c, x);
  }

  lemma CloseBeginOwnership(s: State, c: nat)
    requires Inv(s) && c !in s.closers
    ensures Ownership(CloseBegin(s, c))
  {
    hide CloserOk;
    var t := CloseBegin(s, c);
    assert forall b :: Unfiled(t, b) <==> Unfiled(s, b);
    assert forall d, x :: HeldBy(t, d, x) <==> HeldBy(s, d, x);
    assert forall b :: b in s.attempts ==> b in t.attempts && t.attempts[b].progress == s.attempts[b].progress;
    hide HeldBy, Unfiled, CloseBegin, Inv;
    assert t.session == s.session && t.openings == s.openings && t.closes == s.closes;
  }

  lemma CloseBeginClosers(s: State, c: nat)
    requires Inv(s) && c !in s.closers
    ensures var t := CloseBegin(s, c); forall d :: d in t.closers ==> CloserOk(t, t.closers[d])
  {
    hide Ownership;
    var t := CloseBegin(s, c);
    assert s.starting.Some? ==> InFlight(s, s.starting.value);
    assert forall b :: (Unfiled(t, b) <==> Unfiled(s, b)) && (InFlight(t, b) <==> InFlight(s, b));
    assert forall x :: Unfiled(s, x) ==> InFlight(s, x);
    forall d | d in t.closers ensures CloserOk(t, t.closers[d]) {
      assert d != c ==> t.closers[d] == s.closers[d].(alone := false);
    }
  }

  lemma CloseBeginInv(s: State, c: nat)
    requires Inv(s) && c !in s.closers
    ensures Inv(CloseBegin(s, c))
  {
    CloseBeginOwnership(s, c);
    CloseBeginClosers(s, c);
    hide Ownership, CloserOk;
    var t := CloseBegin(s, c);
    assert forall b :: InFlight(t, b) <==> InFlight(s, b);
  }

  lemma CloseEndInv(s: State, c: nat)
    requires Inv(s) && Enabled(s, LCloseEnd(c))
    ensures Inv(CloseEnd(s, c))
  {
    var t := CloseEnd(s, c);
    assert forall b :: (Unfiled(t, b) <==> Unfiled(s, b)) && (InFlight(t, b) <==> InFlight(s, b));
    assert forall d, x :: d != c ==> (HeldBy(t, d, x) <==> HeldBy(s, d, x));
    assert forall x: Id :: HeldBy(t, c, x) <==> s.session == Some(x);
    assert forall x :: Unfiled(s, x) ==> InFlight(s, x);
  }

  lemma CloseReturnOwnership(s: State, c: nat)
    requires Inv(s) && Enabled(s, LCloseReturn(c))
    ensures Ownership(CloseReturn(s, c))
  {
    hide CloserOk;
    var t := CloseReturn(s, c);
    assert forall b :: Unfiled(t, b) <==> Unfiled(s, b);
    assert forall d, x :: d != c ==> (HeldBy(t, d, x) <==> HeldBy(s, d, x));
    if s.closers[c].session.Some? {
      assert HeldBy(s, c, s.closers[c].session.value);
    }
    assert forall x: Id :: HeldBy(s, c, x) <==> s.closers[c].session == Some(x);
    assert forall x :: !HeldBy(t, c, x);
    hide HeldBy, Unfiled;
  }

  lemma CloseReturnInv(s: State, c: nat)
    requires Inv(s) && Enabled(s, LCloseReturn(c))
    ensures Inv(CloseReturn(s, c))
  {
    CloseReturnOwnership(s, c);
    hide Ownership;
    var t := CloseReturn(s, c);
    assert forall b :: (Unfiled(t, b) <==> Unfiled(s, b)) && (InFlight(t, b) <==> InFlight(s, b));
  }

  /** Every step of every goroutine keeps the invariant. */
  lemma StepInv(s: State, l: Label)
    requires Inv(s) && Enabled(s, l)
    ensures Inv(Next(s, l))
  {
    hide Inv;
    match l
    case LEnter(next) => EnterInv(s, next);
    case LConnect(a, ok) => ConnectInv(s, a, ok);
    case LSettle(a) => SettleInv(s, a);
    case LSignal(a) => SignalInv(s, a);
    case LRetire(broken) => RetireInv(s, broken);
    case LCloseBegin(c) => CloseBeginInv(s, c);
    case LCloseEnd(c) => CloseEndInv(s, c);
    case LCloseReturn(c) => CloseReturnInv(s, c);
  }

  // ---------------------------------------------------------------- over all interleavings

  ghost predicate Runs(s: State, labels: seq<Label>, end: State)
    decreases |labels|
  {
    if labels == [] then s == end
    else Enabled(s, labels[0]) && Runs(Next(s, labels[0]), labels[1..], end)
  }

  ghost predicate Reachable(s: State) {
    exists labels :: Runs(INITIAL, labels, s)
  }

  lemma {:induction false} RunInv(s: State, labels: seq<Label>, end: State)
    requires Inv(s) && Runs(s, labels, end)
    ensures Inv(end)
    decreases |labels|
  {
    hide Inv, Enabled, Next;
    if labels != [] {
      StepInv(s, labels[0]);
      RunInv(Next(s, labels[0]), labels[1..], end);
    }
  }

  lemma ReachableInv(s: State)
    requires Reachable(s)
    ensures Inv(s)
  {
    var labels :| Runs(INITIAL, labels, s);
    RunInv(INITIAL, labels, s);
  }

  /** At most one attempt is in flight and no session is up beside it; no session is closed twice;
      and one that is open still has exactly one owner: the provider, the attempt that opened it, or
      a Close about to close it. */
  lemma SingleOwner(s: State)
    requires Reachable(s)
    ensures forall a, b :: InFlight(s, a) && InFlight(s, b) ==> a == b
    ensures !(s.session.Some? && s.starting.Some?)
    ensures forall x :: s.closes[x] <= 1 && (s.closes[x] == 1 ==> x in s.openings && !Owned(s, x))
    ensures forall x :: x in s.openings && s.closes[x] == 0 ==> Owned(s, x)
    ensures s.session.Some? ==> s.closes[s.session.value] == 0
    ensures forall c, d, x :: HeldBy(s, c, x) && HeldBy(s, d, x) ==> c == d
  {
    ReachableInv(s);
    hide CloserOk, InFlight, Unfiled;
  }

  /** A live session is never overwritten: it leaves the provider by being retired and closed, or by
      being taken out by a Close, and leaves an empty place. */
  lemma NeverOverwritten(s: State, l: Label)
    requires Inv(s) && Enabled(s, l) && s.session.Some? && Next(s, l).session != s.session
    ensures Next(s, l).session == None
    ensures (l == LRetire(s.session.value) && Next(s, l).closes[s.session.value] == 1) ||
            (l.LCloseEnd? && HeldBy(Next(s, l), l.c, s.session.value))
  {
    hide CloserOk;
    assert l.LSettle? ==> InFlight(s, l.a);
    assert s.closes[s.session.value] == 0;
  }

  /** The provider falls back to the one-shot mode for good only on an attempt that failed by
      itself, never on one a Close stopped. */
  lemma FallsBackOnFailureOnly(s: State, l: Label)
    requires Enabled(s, l) && !s.cliOnly && Next(s, l).cliOnly
    ensures l.LSettle? && s.attempts[l.a].progress.Failed? && !s.attempts[l.a].abandoned
  {}

  /** A Close that returns has closed everything opened before it was called, except what an
      overlapping Close has taken and is still closing. One that nothing overlapped has closed
      everything opened up to the moment it took the session. */
  lemma CloseCloses(s: State, c: nat)
    requires Reachable(s) && Enabled(s, LCloseReturn(c))
    ensures forall x :: x in s.closers[c].before ==>
              Next(s, LCloseReturn(c)).closes[x] == 1 || exists d :: d != c && HeldBy(s, d, x)
    ensures s.closers[c].alone ==> forall x :: x in s.closers[c].upto ==> Next(s, LCloseReturn(c)).closes[x] == 1
    ensures s.closers[c].before <= s.closers[c].upto
  {
    ReachableInv(s);
    CloseReturnInv(s, c);
    var t := Next(s, LCloseReturn(c));
    assert CloserOk(s, s.closers[c]);
    assert forall b :: Unfiled(t, b) <==> Unfiled(s, b);
    assert forall d, x :: HeldBy(t, d, x) ==> d != c && HeldBy(s, d, x);
    hide HeldBy, Unfiled;
  }

  /** What is being settled is the one attempt, its session not closed. */
  lemma StartedAndUnclosed(s: State, a: Id)
    requires Inv(s) && Enabled(s, LSettle(a))
    ensures s.starting == Some(a) && s.session == None
    ensures s.attempts[a].progress.Opened? ==> s.closes[a] == 0
  {
    hide CloserOk;
    assert InFlight(s, a);
    assert s.attempts[a].progress.Opened? ==> Unfiled(s, a);
  }

  /** What a Close has taken out is not closed yet. */
  lemma HeldUnclosed(s: State, c: nat)
    requires Inv(s) && Enabled(s, LCloseReturn(c)) && s.closers[c].session.Some?
    ensures s.closes[s.closers[c].session.value] == 0
  {
    hide CloserOk;
    assert HeldBy(s, c, s.closers[c].session.value);
  }

  /** A session that was retired is closed, once, and is not the session any more; retiring one that is
      not the session - a call found it broken after another had retired it - changes nothing. */
  lemma RetiredIsClosed(s: State, x: Id)
    requires Reachable(s)
    ensures Enabled(s, LRetire(x)) && Next(s, LRetire(x)).session != Some(x)
    ensures s.session == Some(x) ==> Next(s, LRetire(x)).session == None && Next(s, LRetire(x)).closes[x] == 1
    ensures s.session != Some(x) ==> Next(s, LRetire(x)) == s
  {
    ReachableInv(s);
  }

  /** It is never the session again: a session that some call was given and then found broken is not
      handed out after it was retired, however the provider is used from there. */
  lemma RetiredForGood(s: State, x: Id, labels: seq<Label>, end: State)
    requires Reachable(s) && x in s.openings && !Unfiled(s, x) && Runs(Next(s, LRetire(x)), labels, end)
    ensures end.session != Some(x)
  {
    RetiredIsClosed(s, x);
    ReachableInv(s);
    StepInv(s, LRetire(x));
    assert Out(Next(s, LRetire(x)), x) by { hide CloserOk; }
    OutStays(Next(s, LRetire(x)), x, labels, end);
  }

  /** What has left the provider does not come back: an attempt files its session once. */
  ghost predicate Out(s: State, x: Id) {
    x in s.attempts && !InFlight(s, x) && s.session != Some(x)
  }

  lemma OutStep(s: State, x: Id, l: Label)
    requires Enabled(s, l) && Out(s, x)
    ensures Out(Next(s, l), x)
  {}

  lemma {:induction false} OutStays(s: State, x: Id, labels: seq<Label>, end: State)
    requires Out(s, x) && Runs(s, labels, end)
    ensures Out(end, x)
    decreases |labels|
  {
    hide Enabled, Next, Out;
    if labels != [] {
      OutStep(s, x, labels[0]);
      OutStays(Next(s, labels[0]), x, labels[1..], end);
    }
  }

  /** One attempt that failed by itself turns the provider into a one-shot one: from then on no run
      begins another attempt, and there is no session any more. */
  lemma FailureIsForGood(s: State, a: Id, labels: seq<Label>, end: State)
    requires Reachable(s) && a in s.attempts && s.attempts[a] == Attempt(Failed, false) && Runs(Next(s, LSettle(a)), labels, end)
    ensures end.cliOnly && end.session == None && end.starting == None && end.attempts.Keys == s.attempts.Keys
  {
    ReachableInv(s);
    StepInv(s, LSettle(a));
    StartedAndUnclosed(s, a);
    OneShotStays(Next(s, LSettle(a)), labels, end);
  }

  lemma OneShotStep(s: State, l: Label)
    requires Inv(s) && Enabled(s, l) && s.cliOnly && s.session == None && s.starting == None
    ensures var t := Next(s, l); t.cliOnly && t.session == None && t.starting == None && t.attempts.Keys == s.attempts.Keys
  {
    hide Ownership, CloserOk;
    assert l.LSettle? ==> InFlight(s, l.a);
  }

  lemma {:induction false} OneShotStays(s: State, labels: seq<Label>, end: State)
    requires Inv(s) && s.cliOnly && s.session == None && s.starting == None && Runs(s, labels, end)
    ensures end.cliOnly && end.session == None && end.starting == None && end.attempts.Keys == s.attempts.Keys
    decreases |labels|
  {
    hide Enabled, Next, Inv;
    if labels != [] {
      OneShotStep(s, labels[0]);
      StepInv(s, labels[0]);
      OneShotStays(Next(s, labels[0]), labels[1..], end);
    }
  }

  /** A provider that was closed is usable again: the next call begins a new attempt, which can bring a
      session up, unless the provider had fallen back for good. */
  lemma UsableAgain(s: State, c: nat, next: Id)
    requires Inv(s) && Enabled(s, LCloseEnd(c)) && s.starting == None && !s.cliOnly && next !in s.attempts
    ensures var t := Next(Next(s, LCloseEnd(c)), LEnter(next));
            && t.starting == Some(next) && next in t.attempts && t.attempts[next] == Attempt(Connecting, false)
            && Enabled(t, LConnect(next, true)) && Enabled(Next(t, LConnect(next, true)), LSettle(next))
            && Next(Next(t, LConnect(next, true)), LSettle(next)).session == Some(next)
  {
    hide Ownership, CloserOk;
  }

  /** A provider whose first attempt has brought its session up. */
  const SERVING := State(Some(0), None, false, false, map[0 := Attempt(Settled, false)], {0}, multiset{}, map[])

  lemma ServingReachable()
    ensures Runs(INITIAL, [LEnter(0), LConnect(0, true), LSettle(0)], SERVING)
  {
    var labels := [LEnter(0), LConnect(0, true), LSettle(0)];
    var s1 := Next(INITIAL, labels[0]);
    var s2 := Next(s1, labels[1]);
    assert Next(s2, labels[2]) == SERVING;
    assert labels[1..] == [labels[1], labels[2]] && labels[2..] == [labels[2]];
    RunsStep(s2, labels[2..], SERVING);
    RunsStep(s1, labels[1..], SERVING);
    RunsStep(INITIAL, labels, SERVING);
  }

  /** When two Close calls overlap, the second can return with the session still open: the first
      has taken it out and not closed it yet. */
  lemma OverlapLeavesOpen(s: State)
    requires s.session.Some? && s.starting.None? && s.closers == map[] && s.closes[s.session.value] == 0
    requires s.session.value in s.openings
    ensures exists labels, end ::
              && Runs(s, labels, end) && Enabled(end, LCloseReturn(2))
              && s.session.value in end.closers[2].before
              && Next(end, LCloseReturn(2)).closes[s.session.value] == 0
  {
    var labels := [LCloseBegin(1), LCloseBegin(2), LCloseEnd(1), LCloseEnd(2)];
    var s1 := Next(s, labels[0]);
    var s2 := Next(s1, labels[1]);
    assert s2.closers == map[1 := Waiting(None, s.openings, false), 2 := Waiting(None, s.openings, false)];
    var s3 := Next(s2, labels[2]);
    assert s3.session.None? && s3.closes == s.closes;
    var end := Next(s3, labels[3]);
    assert labels[3..] == [labels[3]] && labels[2..][1..] == labels[3..] && labels[1..][1..] == labels[2..];
    RunsStep(s3, labels[3..], end);
    RunsStep(s2, labels[2..], end);
    RunsStep(s1, labels[1..], end);
    RunsStep(s, labels, end);
  }

  lemma RunsStep(s: State, labels: seq<Label>, end: State)
    requires labels != [] && Enabled(s, labels[0]) && Runs(Next(s, labels[0]), labels[1..], end)
    ensures Runs(s, labels, end)
  {}

  lemma {:induction false} RunsOn(s: State, a: seq<Label>, mid: State, b: seq<Label>, end: State)
    requires Runs(s, a, mid) && Runs(mid, b, end)
    ensures Runs(s, a + b, end)
    decreases |a|
  {
    hide Enabled, Next;
    if a == [] {
      assert a + b == b;
    } else {
      assert (a + b)[1..] == a[1..] + b;
      RunsOn(Next(s, a[0]), a[1..], mid, b, end);
    }
  }

  /** And that happens: from the start, one attempt, and two Close calls that overlap. */
  lemma OverlapHappens()
    ensures exists labels, end ::
              && Runs(INITIAL, labels, end) && Enabled(end, LCloseReturn(2))
              && 0 in end.closers[2].before && Next(end, LCloseReturn(2)).closes[0] == 0
  {
    hide Runs, Next;
    ServingReachable();
    OverlapLeavesOpen(SERVING);
    var labels, end :| Runs(SERVING, labels, end) && Enabled(end, LCloseReturn(2))
      && 0 in end.closers[2].before && Next(end, LCloseReturn(2)).closes[0] == 0;
    RunsOn(INITIAL, [LEnter(0), LConnect(0, true), LSettle(0)], SERVING, labels, end);
  }
}

/** The provider's fields and the critical sections of its methods. */
module SessionProvider {
  import opened Options
  import opened Session

  class Provider {
    var session: Option<Id>
    var starting: Option<Id>
    var cliOnly: bool
    var closed: bool
    var attempts: map<Id, Attempt>
    ghost var openings: set<Id>
    ghost var closes: multiset<Id>
    ghost var closers: map<nat, Closer>

    ghost function Now(): State
      reads this
    {
      State(session, starting, cliOnly, closed, attempts, openings, closes, closers)
    }

    constructor ()
      ensures Now() == INITIAL && Inv(Now())
    {
      session, starting, cliOnly, closed, attempts := None, None, false, false, map[];
      openings, closes, closers := {}, multiset{}, map[];
    }

    /** The first section of persistent: use the session there is, go without one, or wait for the
        one attempt, which is begun here when there is none. */
    method Persistent(next: Id) returns (use: Option<Id>, wait: Option<Id>)
      requires Inv(Now()) && next !in attempts
      modifies this
      ensures Now() == Next(old(Now()), LEnter(next)) && Inv(Now())
      ensures wait.None? ==> use == session && (use.Some? || cliOnly || closed)
      ensures wait.Some? ==> use.None? && wait == starting && InFlight(Now(), wait.value)
      ensures use.Some? ==> use.value in openings && closes[use.value] == 0
      ensures wait.None? <==> old(session).Some? || old(cliOnly) || old(closed)
      ensures wait.Some? && old(starting).None? ==>
                wait == Some(next) && attempts == old(attempts)[next := Attempt(Connecting, false)]
      ensures wait.None? || old(starting).Some? ==> attempts == old(attempts) && starting == old(starting)
      ensures session == old(session) && cliOnly == old(cliOnly) && closed == old(closed)
      ensures openings == old(openings) && closes == old(closes) && closers == old(closers)
    {
      StepInv(Now(), LEnter(next));
      if session.Some? || cliOnly || closed {
        use, wait := session, None;
      } else {
        if starting.None? {
          attempts := attempts[next := Attempt(Connecting, false)];
          starting := Some(next);
        }
        use, wait := None, starting;
      }
    }

    /** The connector coming back. */
    method Connected(a: Id, ok: bool)
      requires Inv(Now()) && Enabled(Now(), LConnect(a, ok))
      modifies this
      ensures Now() == Next(old(Now()), LConnect(a, ok)) && Inv(Now())
      ensures attempts == old(attempts)[a := Attempt(if ok then Opened else Failed, old(attempts)[a].abandoned)]
      ensures openings == old(openings) + (if ok then {a} else {})
      ensures session == old(session) && starting == old(starting) && cliOnly == old(cliOnly) && closed == old(closed)
      ensures closes == old(closes) && closers == old(closers)
    {
      StepInv(Now(), LConnect(a, ok));
      if ok {
        attempts := attempts[a := attempts[a].(progress := Opened)];
        openings := openings + {a};
      } else {
        attempts := attempts[a := attempts[a].(progress := Failed)];
      }
    }

    /** settle: the only place the session and the fallback flag are set. */
    method SettleAttempt(a: Id)
      requires Inv(Now()) && Enabled(Now(), LSettle(a))
      modifies this
      ensures Now() == Next(old(Now()), LSettle(a)) && Inv(Now())
      ensures old(starting) == Some(a) && starting == None && attempts == old(attempts)[a := Attempt(Settled, old(attempts)[a].abandoned)]
      ensures old(attempts)[a].progress.Failed? ==> session == None && closes == old(closes)
      ensures cliOnly <==> old(cliOnly) || (old(attempts)[a].progress.Failed? && !old(attempts)[a].abandoned)
      ensures old(attempts)[a].progress.Opened? && !old(attempts)[a].abandoned && !closed ==> session == Some(a) && closes == old(closes)
      ensures old(attempts)[a].progress.Opened? && (old(attempts)[a].abandoned || closed) ==>
                session == None && closes == old(closes) + multiset{a} && closes[a] == 1
      ensures closed == old(closed) && openings == old(openings) && closers == old(closers)
    {
      StepInv(Now(), LSettle(a));
      StartedAndUnclosed(Now(), a);
      var attempt := attempts[a];
      if starting == Some(a) {
        starting := None;
      }
      attempts := attempts[a := attempt.(progress := Settled)];
      if attempt.progress.Failed? {
        if attempt.abandoned {
          return;
        }
        cliOnly := true;
        return;
      }
      if attempt.abandoned || closed {
        closes := closes + multiset{a};
        return;
      }
      session := Some(a);
    }

    /** The attempt's goroutine ending. */
    method Done(a: Id)
      requires Inv(Now()) && Enabled(Now(), LSignal(a))
      modifies this
      ensures Now() == Next(old(Now()), LSignal(a)) && Inv(Now())
      ensures Now() == old(Now()).(attempts := old(attempts)[a := Attempt(Gone, old(attempts)[a].abandoned)])
    {
      StepInv(Now(), LSignal(a));
      attempts := attempts[a := attempts[a].(progress := Gone)];
    }

    /** retire: drops a broken session, unless it has been replaced. */
    method RetireSession(broken: Id)
      requires Inv(Now())
      modifies this
      ensures Now() == Next(old(Now()), LRetire(broken)) && Inv(Now())
      ensures old(session) == Some(broken) ==>
                session == None && closes == old(closes) + multiset{broken} && closes[broken] == 1
      ensures old(session) != Some(broken) ==> session == old(session) && closes == old(closes)
      ensures starting == old(starting) && cliOnly == old(cliOnly) && closed == old(closed) && attempts == old(attempts)
      ensures openings == old(openings) && closers == old(closers)
    {
      StepInv(Now(), LRetire(broken));
      if session == Some(broken) {
        session := None;
        closes := closes + multiset{broken};
      }
    }

    /** The first section of Close: no new attempt may begin, and the one in flight is to stop. */
    method CloseFirst(ghost c: nat) returns (attempt: Option<Id>)
      requires Inv(Now()) && c !in closers
      modifies this
      ensures Now() == Next(old(Now()), LCloseBegin(c)) && Inv(Now())
      ensures attempt == starting
      ensures attempt.Some? ==>
                && attempt.value in old(attempts)
                && attempts == old(attempts)[attempt.value := Attempt(old(attempts)[attempt.value].progress, true)]
      ensures attempt.None? ==> attempts == old(attempts)
      ensures closed && starting == old(starting) && session == old(session) && cliOnly == old(cliOnly)
      ensures openings == old(openings) && closes == old(closes)
      ensures c in closers && closers[c] == Waiting(attempt, openings, old(closers) == map[])
      ensures forall d :: d in closers && d != c ==> d in old(closers) && closers[d] == old(closers)[d].(alone := false)
    {
      StepInv(Now(), LCloseBegin(c));
      assert starting.Some? ==> InFlight(Now(), starting.value);
      closers := Overlapped(closers)[c := Waiting(starting, openings, closers == map[])];
      closed := true;
      attempt := starting;
      if attempt.Some? {
        attempts := attempts[attempt.value := attempts[attempt.value].(abandoned := true)];
      }
    }

    /** The second section of Close, once the attempt it stopped is gone. */
    method CloseSecond(ghost c: nat) returns (taken: Option<Id>)
      requires Inv(Now()) && Enabled(Now(), LCloseEnd(c))
      modifies this
      ensures Now() == Next(old(Now()), LCloseEnd(c)) && Inv(Now())
      ensures taken == old(session) && session == None
      ensures taken.Some? ==> closes[taken.value] == 0
      ensures !closed && starting == old(starting) && cliOnly == old(cliOnly) && attempts == old(attempts)
      ensures openings == old(openings) && closes == old(closes)
      ensures closers == old(closers)[c := Holding(taken, old(closers)[c].before, openings, old(closers)[c].alone)]
    {
      StepInv(Now(), LCloseEnd(c));
      taken := session;
      closers := closers[c := Holding(session, closers[c].before, openings, closers[c].alone)];
      session, closed := None, false;
    }

    /** What Close does last, with no lock held: closing the session it took out. */
    method CloseLast(ghost c: nat, taken: Option<Id>)
      requires Inv(Now()) && Enabled(Now(), LCloseReturn(c)) && closers[c].session == taken
      modifies this
      ensures Now() == Next(old(Now()), LCloseReturn(c)) && Inv(Now())
      ensures taken.Some? ==> closes == old(closes) + multiset{taken.value} && closes[taken.value] == 1
      ensures taken.None? ==> closes == old(closes)
      ensures closers == old(closers) - {c} && session == old(session) && starting == old(starting)
      ensures cliOnly == old(cliOnly) && closed == old(closed) && attempts == old(attempts) && openings == old(openings)
    {
      StepInv(Now(), LCloseReturn(c));
      if taken.Some? {
        HeldUnclosed(Now(), c);
      }
      if taken.Some? {
        closes := closes + multiset{taken.value};
      }
      closers := closers - {c};
    }
  }
}
