/** The queued Save Backup: requests, and runs that copy every entry's primary to its snapshot in
    resumable steps, by any number of tasks. Each critical section and each flash step is one step. */
module SaveBackup {
  datatype Report = Unset | Queued | Done | Failed

  /** Where a run is; gen: the request it works for, i: its next entry. */
  datatype Pc =
    | Out
    | Top
    | At(gen: nat, i: nat)
    | StaleSeen(gen: nat, i: nat)          // the entry's primary has not been repaired
    | Copied(gen: nat, i: nat, since: bool)  // since: the copy came after the latest queued request
    | Renamed(gen: nat, i: nat)
    | NotCopied(gen: nat, i: nat)
    | Stopping(gen: nat, i: nat)           // no slot, the restart took over, or the lock was busy
    | Closing(gen: nat)
    | Finishing(gen: nat, failed: bool)

  /** Where a task is in requestSnapshot; walked: the requests queued before it copied the entries itself. */
  datatype Asking = NotAsking | MayDoItNow | DidIt(ok: bool, walked: nat) | MustQueue

  /** n: the entries; queued: how many requests were queued so far;
      covered, absent: copied and renamed, or seen without a primary, since the latest queued request. */
  datatype State = State(n: nat, gen: nat, next: nat, pending: bool, failed: bool, report: Report,
                         runs: map<nat, Pc>, asks: map<nat, Asking>, covered: set<nat>, absent: set<nat>, queued: nat)

  datatype Event =
    // a request
    | Ask(t: nat, deferred: bool) | DoNow(t: nat, ran: bool, ok: bool, writer: bool) | Publish(t: nat) | Queue(t: nat)
    // a run
    | Enter(r: nat) | Read(r: nat) | MarkRefused(r: nat) | NoPrimary(r: nat) | Stale(r: nat) | SkipStale(r: nat)
    | Copy(r: nat, ok: bool) | Rename(r: nat, ok: bool) | NotRun(r: nat) | Advance(r: nat) | Note(r: nat) | Stop(r: nat)
    | ReachEnd(r: nat) | ReadFailed(r: nat) | Finish(r: nat)

  function Start(n: nat): State {
    State(n, 0, 0, false, false, Unset, map[], map[], {}, {}, 0)
  }

  function RunOf(s: State, r: nat): Pc {
    if r in s.runs then s.runs[r] else Out
  }

  function AskOf(s: State, t: nat): Asking {
    if t in s.asks then s.asks[t] else NotAsking
  }

  predicate Enabled(s: State, e: Event) {
    match e
    case Ask(t, _) => AskOf(s, t).NotAsking?
    case DoNow(t, _, _, _) => AskOf(s, t).MayDoItNow?
    case Publish(t) => AskOf(s, t).DidIt?
    case Queue(t) => AskOf(s, t).MustQueue?
    case Enter(r) => RunOf(s, r).Out?
    case Read(r) => RunOf(s, r).Top?
    case MarkRefused(r) => RunOf(s, r).At? || RunOf(s, r).Closing?
    case NoPrimary(r) => RunOf(s, r).At? && RunOf(s, r).i < s.n
    case Stale(r) => RunOf(s, r).At? && RunOf(s, r).i < s.n
    case SkipStale(r) => RunOf(s, r).StaleSeen?
    case Copy(r, _) => RunOf(s, r).At? && RunOf(s, r).i < s.n
    case Rename(r, _) => RunOf(s, r).Copied?
    case NotRun(r) => (RunOf(s, r).At? && RunOf(s, r).i < s.n) || RunOf(s, r).Copied?
    case Advance(r) => RunOf(s, r).Renamed?
    case Note(r) => RunOf(s, r).NotCopied?
    case Stop(r) => RunOf(s, r).Stopping?
    case ReachEnd(r) => RunOf(s, r).At? && RunOf(s, r).i >= s.n
    case ReadFailed(r) => RunOf(s, r).Closing?
    case Finish(r) => RunOf(s, r).Finishing?
  }

  function Entries(n: nat): (e: set<nat>)
    ensures forall i: nat :: i in e <==> i < n
  {
    if n == 0 then {} else Entries(n - 1) + {n - 1}
  }

  function AskAt(s: State, t: nat, a: Asking): State {
    s.(asks := s.asks[t := a])
  }

  function RunAt(s: State, r: nat, pc: Pc): State {
    s.(runs := s.runs[r := pc])
  }

  /** The copies under way were made before the request that comes now. */
  function CopiedBefore(pc: Pc): Pc {
    if pc.Copied? then pc.(since := false) else pc
  }

  function AskStep(s: State, e: Event): State
    requires Enabled(s, e) && (e.Ask? || e.DoNow? || e.Publish? || e.Queue?)
  {
    match e
    case Ask(t, deferred) => AskAt(s, t, if deferred || s.pending then MustQueue else MayDoItNow)
    case DoNow(t, ran, ok, writer) =>
      if !ran && writer then AskAt(s, t, MustQueue)
      else
        var u := AskAt(s, t, DidIt(ran && ok, s.queued));
        if ran && ok then u.(covered := s.covered + Entries(s.n)) else u
    case Publish(t) =>
      AskAt(s, t, NotAsking).(gen := s.gen + 1, report := if AskOf(s, t).ok then Done else Failed)
    case Queue(t) =>
      AskAt(s, t, NotAsking).(gen := s.gen + 1, next := 0, failed := false, pending := true, report := Queued,
                              runs := map r | r in s.runs :: CopiedBefore(s.runs[r]), covered := {}, absent := {},
                              queued := s.queued + 1)
  }

  function RunStep(s: State, e: Event): State
    requires Enabled(s, e) && !(e.Ask? || e.DoNow? || e.Publish? || e.Queue?)
  {
    var pc := RunOf(s, e.r);
    match e
    case Enter(r) => RunAt(s, r, Top)
    case Read(r) => RunAt(s, r, if s.pending then At(s.gen, s.next) else Out)
    case MarkRefused(r) => RunAt(s, r, Out)
    case NoPrimary(r) => RunAt(s, r, At(pc.gen, pc.i + 1)).(absent := s.absent + {pc.i})
    case Stale(r) => RunAt(s, r, StaleSeen(pc.gen, pc.i))
    case SkipStale(r) =>
      if pc.gen == s.gen then RunAt(s, r, At(pc.gen, pc.i + 1)).(next := pc.i + 1, failed := true)
      else RunAt(s, r, Top)
    case Copy(r, ok) => RunAt(s, r, if ok then Copied(pc.gen, pc.i, true) else NotCopied(pc.gen, pc.i))
    case Rename(r, ok) =>
      if ok then RunAt(s, r, Renamed(pc.gen, pc.i)).(covered := s.covered + if pc.since then {pc.i} else {})
      else RunAt(s, r, NotCopied(pc.gen, pc.i))
    case NotRun(r) => RunAt(s, r, Stopping(pc.gen, pc.i))
    case Advance(r) =>
      if pc.gen == s.gen then RunAt(s, r, At(pc.gen, pc.i + 1)).(next := pc.i + 1) else RunAt(s, r, Top)
    case Note(r) =>
      if pc.gen == s.gen then RunAt(s, r, At(pc.gen, pc.i + 1)).(next := pc.i + 1, failed := true)
      else RunAt(s, r, Top)
    case Stop(r) => RunAt(s, r, Out).(next := if pc.gen == s.gen then pc.i else s.next)
    case ReachEnd(r) => RunAt(s, r, Closing(pc.gen))
    case ReadFailed(r) => RunAt(s, r, Finishing(pc.gen, s.failed))
    case Finish(r) =>
      if pc.gen == s.gen then RunAt(s, r, Out).(pending := false, report := if pc.failed then Failed else Done)
      else RunAt(s, r, if s.pending then Top else Out)
  }

  function Step(s: State, e: Event): State
    requires Enabled(s, e)
  {
    if e.Ask? || e.DoNow? || e.Publish? || e.Queue? then AskStep(s, e) else RunStep(s, e)
  }

  /** Every entry below k is backed up since the latest queued request, or had no primary. */
  predicate Good(s: State, k: nat) {
    forall j :: 0 <= j < k ==> j in s.covered || j in s.absent
  }

  predicate RunTrue(s: State, pc: Pc) {
    match pc
    case At(g, i) => g == s.gen && !s.failed ==> Good(s, i)
    case StaleSeen(g, i) => g == s.gen && !s.failed ==> Good(s, i)
    case Copied(g, i, since) => g == s.gen ==> since && (s.failed || Good(s, i))
    case Renamed(g, i) => g == s.gen ==> i in s.covered && (s.failed || Good(s, i))
    case NotCopied(g, i) => g == s.gen && !s.failed ==> Good(s, i)
    case Stopping(g, i) => g == s.gen && !s.failed ==> Good(s, i)
    case Closing(g) => g == s.gen && !s.failed ==> Good(s, s.n)
    case Finishing(g, f) => g == s.gen && !f ==> Good(s, s.n)
    case _ => true
  }

  predicate AskTrue(s: State, a: Asking) {
    a.DidIt? ==> a.walked <= s.queued && (a.ok && a.walked == s.queued ==> Good(s, s.n))
  }

  ghost predicate Inv(s: State) {
    && (s.failed || Good(s, s.next))
    && (forall r: nat :: RunTrue(s, RunOf(s, r)) && (HasGen(RunOf(s, r)) ==> RunOf(s, r).gen <= s.gen))
    && (s.report.Queued? ==> s.pending)
    && (forall t: nat :: AskTrue(s, AskOf(s, t)))
  }

  predicate HasGen(pc: Pc) {
    !pc.Out? && !pc.Top?
  }

  lemma SameRuns(s: State, t: State)
    requires t.runs == s.runs
    ensures forall r: nat :: RunOf(t, r) == RunOf(s, r)
  {
  }

  lemma SetRun(s: State, t: State, r: nat, pc: Pc)
    requires t.runs == s.runs[r := pc]
    ensures forall u: nat :: RunOf(t, u) == if u == r then pc else RunOf(s, u)
  {
  }

  lemma SetAsk(s: State, t: State, r: nat, a: Asking)
    requires t.asks == s.asks[r := a]
    ensures forall u: nat :: AskOf(t, u) == if u == r then a else AskOf(s, u)
  {
  }

  lemma AskKeeps(s: State, e: Event)
    requires Inv(s) && Enabled(s, e) && (e.Ask? || e.DoNow? || e.Publish? || e.Queue?)
    ensures Inv(AskStep(s, e))
  {
    var t := AskStep(s, e);
    SetAsk(s, t, e.t, AskOf(t, e.t));
    if e.Queue? {
      assert forall r: nat :: RunOf(t, r) == CopiedBefore(RunOf(s, r));
    } else {
      SameRuns(s, t);
      assert forall k: nat :: Good(s, k) ==> Good(t, k);
    }
  }

  lemma FlashKeeps(s: State, e: Event)
    requires Inv(s) && Enabled(s, e) && (e.NoPrimary? || e.Copy? || e.Rename? || e.NotRun? || e.Stale?)
    ensures Inv(RunStep(s, e))
  {
    var t := RunStep(s, e);
    SetRun(s, t, e.r, RunOf(t, e.r));
    assert forall k: nat :: Good(s, k) ==> Good(t, k);
    assert forall u: nat :: AskOf(t, u) == AskOf(s, u);
    hide RunOf, AskOf;
  }

  lemma RunKeeps(s: State, e: Event)
    requires Inv(s) && Enabled(s, e) && !(e.Ask? || e.DoNow? || e.Publish? || e.Queue?)
    ensures Inv(RunStep(s, e))
  {
    if e.NoPrimary? || e.Copy? || e.Rename? || e.NotRun? || e.Stale? {
      FlashKeeps(s, e);
    } else {
      NoteKeeps(s, e);
    }
  }

  lemma NoteKeeps(s: State, e: Event)
    requires Inv(s) && Enabled(s, e) && !(e.Ask? || e.DoNow? || e.Publish? || e.Queue?)
    requires !(e.NoPrimary? || e.Copy? || e.Rename? || e.NotRun? || e.Stale?)
    ensures Inv(RunStep(s, e))
  {
    hide *;
    var t := RunStep(s, e);
    NoteMoves(s, e);
    NoteStays(s, t, e.r);
  }

  /** A step of a run that leaves what is backed up as it was. */
  ghost predicate Notes(s: State, t: State, r: nat) {
    && t.n == s.n && t.gen == s.gen && t.covered == s.covered && t.absent == s.absent && t.queued == s.queued
    && t.asks == s.asks && (s.failed ==> t.failed) && (t.report.Queued? ==> t.pending)
    && (forall u: nat :: u != r ==> RunOf(t, u) == RunOf(s, u))
  }

  lemma NoteMoves(s: State, e: Event)
    requires Inv(s) && Enabled(s, e) && !(e.Ask? || e.DoNow? || e.Publish? || e.Queue?)
    requires !(e.NoPrimary? || e.Copy? || e.Rename? || e.NotRun? || e.Stale?)
    ensures var t, pc := RunStep(s, e), RunOf(RunStep(s, e), e.r);
      Notes(s, t, e.r) && RunTrue(t, pc) && (HasGen(pc) ==> pc.gen <= t.gen) && (t.failed || Good(t, t.next))
  {
  }

  lemma NoteStays(s: State, t: State, r: nat)
    requires Inv(s) && Notes(s, t, r)
    requires RunTrue(t, RunOf(t, r)) && (HasGen(RunOf(t, r)) ==> RunOf(t, r).gen <= t.gen)
    requires t.failed || Good(t, t.next)
    ensures Inv(t)
  {
    assert forall k: nat :: Good(t, k) == Good(s, k);
    assert forall u: nat :: AskOf(t, u) == AskOf(s, u);
    hide RunOf, AskOf, Good;
  }

  predicate CanRun(s: State, run: seq<Event>)
    decreases run
  {
    run == [] || (Enabled(s, run[0]) && CanRun(Step(s, run[0]), run[1..]))
  }

  function After(s: State, run: seq<Event>): State
    requires CanRun(s, run)
    decreases run
  {
    if run == [] then s else After(Step(s, run[0]), run[1..])
  }

  lemma {:induction false} RunIsTrue(s: State, run: seq<Event>)
    requires Inv(s) && CanRun(s, run)
    ensures Inv(After(s, run))
    decreases run
  {
    if run != [] {
      var e := run[0];
      if e.Ask? || e.DoNow? || e.Publish? || e.Queue? { AskKeeps(s, e); } else { RunKeeps(s, e); }
      hide Inv, AskStep, RunStep, Enabled;
      RunIsTrue(Step(s, e), run[1..]);
    }
  }

  lemma StartIsTrue(n: nat)
    ensures Inv(Start(n))
  {
    assert forall r: nat :: RunOf(Start(n), r).Out? && AskOf(Start(n), r).NotAsking?;
  }

  /** Whatever requests, refusals, resumptions and takeovers came before: a run that ends with Done has a
      copy and rename of every entry with a primary after the latest queued request; and only such an end,
      or one that reports a failure, takes a request off the queue. */
  lemma DoneIsEarned(n: nat, run: seq<Event>, e: Event)
    requires CanRun(Start(n), run) && Enabled(After(Start(n), run), e)
    ensures var s, t := After(Start(n), run), Step(After(Start(n), run), e);
      && (e.Finish? && RunOf(s, e.r).gen == s.gen ==>
            !t.pending && (t.report.Failed? || (t.report.Done? && Good(t, n))))
      && (s.pending && !t.pending ==> e.Finish? && RunOf(s, e.r).gen == s.gen)
  {
    StartIsTrue(n);
    RunIsTrue(Start(n), run);
    SameEntries(Start(n), run);
  }

  /** A request done at once reports Done rightly if none was queued since its walk over the entries. */
  lemma DirectDoneIsEarned(n: nat, run: seq<Event>, t: nat)
    requires CanRun(Start(n), run) && AskOf(After(Start(n), run), t).DidIt?
    ensures var s := After(Start(n), run); AskOf(s, t).ok && AskOf(s, t).walked == s.queued ==> Good(s, n)
  {
    StartIsTrue(n);
    RunIsTrue(Start(n), run);
    SameEntries(Start(n), run);
  }

  /** Nothing is found stale, no copy or rename fails, and nothing more is queued. */
  predicate Clean(run: seq<Event>) {
    forall e :: e in run ==> !e.Stale? && !e.Queue? && (e.Copy? || e.Rename? ==> e.ok)
  }

  /** No run at the current generation has come upon a failure. */
  ghost predicate Unspoiled(s: State) {
    && !s.failed
    && (forall r: nat :: HasGen(RunOf(s, r)) ==> RunOf(s, r).gen <= s.gen)
    && (forall r: nat :: HasGen(RunOf(s, r)) && RunOf(s, r).gen == s.gen ==> Fine(RunOf(s, r)))
  }

  predicate Fine(pc: Pc) {
    !pc.StaleSeen? && !pc.NotCopied? && (pc.Finishing? ==> !pc.failed)
  }

  lemma StaysUnspoiled(s: State, e: Event)
    requires Unspoiled(s) && Enabled(s, e) && Clean([e])
    ensures Unspoiled(Step(s, e))
  {
    assert e in [e];
    var t := Step(s, e);
    if e.Ask? || e.DoNow? || e.Publish? {
      SameRuns(s, t);
    } else {
      SetRun(s, t, e.r, RunOf(t, e.r));
    }
    hide RunOf;
  }

  lemma {:induction false} RunStaysUnspoiled(s: State, run: seq<Event>)
    requires Unspoiled(s) && CanRun(s, run) && Clean(run)
    ensures Unspoiled(After(s, run))
    decreases run
  {
    if run != [] {
      assert run[0] in run && forall e :: e in run[1..] ==> e in run;
      StaysUnspoiled(s, run[0]);
      hide Unspoiled, Step, Enabled;
      RunStaysUnspoiled(Step(s, run[0]), run[1..]);
    }
  }

  lemma QueuedIsUnspoiled(s: State, t: nat)
    requires Inv(s) && Enabled(s, Queue(t))
    ensures Unspoiled(Step(s, Queue(t)))
  {
    var u := Step(s, Queue(t));
    assert forall r: nat :: RunOf(u, r) == CopiedBefore(RunOf(s, r));
    hide RunOf;
  }

  /** The other half: a run for the latest request reports Failed only if since that request was queued an entry was
      found stale, or a copy or rename failed; with none of these it reports Done. */
  lemma FailedIsEarned(n: nat, before: seq<Event>, t: nat, since: seq<Event>, r: nat)
    requires CanRun(Start(n), before) && Enabled(After(Start(n), before), Queue(t))
    requires CanRun(Step(After(Start(n), before), Queue(t)), since) && Clean(since)
    requires var s := After(Step(After(Start(n), before), Queue(t)), since);
      Enabled(s, Finish(r)) && RunOf(s, r).gen == s.gen
    ensures Step(After(Step(After(Start(n), before), Queue(t)), since), Finish(r)).report.Done?
  {
    StartIsTrue(n);
    RunIsTrue(Start(n), before);
    QueuedIsUnspoiled(After(Start(n), before), t);
    RunStaysUnspoiled(Step(After(Start(n), before), Queue(t)), since);
  }

  /** A request is done at once only with nothing put off and nothing pending, by a task that could; it says Done only
      if its copies all went well. */
  lemma AtOnceIff(s: State, t: nat, deferred: bool, ran: bool, ok: bool, writer: bool)
    requires AskOf(s, t).NotAsking?
    ensures var a := Step(s, Ask(t, deferred));
      && (AskOf(a, t).MayDoItNow? <==> !deferred && !s.pending)
      && (AskOf(a, t).MustQueue? <==> deferred || s.pending)
      && (!deferred && !s.pending ==>
            var b := Step(a, DoNow(t, ran, ok, writer));
            && (AskOf(b, t).MustQueue? <==> !ran && writer)
            && (AskOf(b, t).DidIt? ==> (Step(b, Publish(t)).report.Done? <==> ran && ok)))
  {
  }

  /** What is left to do at a place of a run that is at the current generation. */
  function ToDo(n: nat, pc: Pc): nat {
    match pc
    case Out => 0
    case Top => 8 * n + 16
    case At(_, i) => Places(n, i) + 7
    case StaleSeen(_, i) => Begun(n, i) + 6
    case Copied(_, i, _) => Begun(n, i) + 6
    case Renamed(_, i) => Begun(n, i) + 5
    case NotCopied(_, i) => Begun(n, i) + 5
    case Stopping(_, i) => Begun(n, i) + 4
    case Closing(_) => 2
    case Finishing(_, _) => 1
  }

  function Places(n: nat, i: nat): nat {
    if i < n then 8 * (n - i) else 0
  }

  function Begun(n: nat, i: nat): nat {
    if i < n then 8 * (n - i) else 8
  }

  /** Each step brings a run nearer its end, unless it finds out that a newer request is waiting: then it starts
      over. */
  lemma RunGoesOn(s: State, e: Event)
    requires Enabled(s, e) && !(e.Ask? || e.DoNow? || e.Publish? || e.Queue?) && !e.Enter?
    ensures var a, b, t := RunOf(s, e.r), RunOf(Step(s, e), e.r), Step(s, e);
      && (ToDo(s.n, b) < ToDo(s.n, a) || (b.Top? && HasGen(a) && a.gen != s.gen))
      && (HasGen(a) && a.gen != s.gen && s.pending && (e.SkipStale? || e.Advance? || e.Note? || e.Finish?) ==> b.Top?)
      && (e.Read? && s.pending ==> b == At(s.gen, s.next))
  {
  }

  /** With every entry's step noted the next run goes on behind it; what fails is remembered. */
  lemma NotedOnce(s: State, e: Event)
    requires Enabled(s, e) && (e.Advance? || e.Note? || e.SkipStale?) && RunOf(s, e.r).gen == s.gen
    ensures var t := Step(s, e);
      && t.next == RunOf(s, e.r).i + 1 && RunOf(t, e.r) == At(s.gen, t.next)
      && (t.failed <==> s.failed || !e.Advance?)
  {
  }

  /** A queued request is pending, says so, and begins with the first entry. */
  lemma QueuedBegins(s: State, t: nat)
    requires Enabled(s, Queue(t))
    ensures var u := Step(s, Queue(t)); u.pending && u.report.Queued? && u.next == 0 && !u.failed && u.gen == s.gen + 1
  {
  }

  /** A run that had to stop is taken up at the entry it stopped at. */
  lemma StoppedGoesOn(s: State, r: nat, q: nat)
    requires RunOf(s, r).Stopping? && RunOf(s, r).gen == s.gen && s.pending && q != r && RunOf(s, q).Out?
    ensures var t := Step(Step(Step(s, Stop(r)), Enter(q)), Read(q));
      RunOf(t, r).Out? && RunOf(t, q) == At(s.gen, RunOf(s, r).i) && t.pending && t.failed == s.failed
  {
  }

  lemma {:induction false} SameEntries(s: State, run: seq<Event>)
    requires CanRun(s, run)
    ensures After(s, run).n == s.n
    decreases run
  {
    if run != [] {
      hide Enabled;
      SameEntries(Step(s, run[0]), run[1..]);
    }
  }

  /** A queued request is seen to be queued until its run ends, unless a direct one reports in between. */
  lemma QueuedIsPending(n: nat, run: seq<Event>)
    requires CanRun(Start(n), run)
    ensures After(Start(n), run).report.Queued? ==> After(Start(n), run).pending
  {
    StartIsTrue(n);
    RunIsTrue(Start(n), run);
  }

  predicate NoneQueued(run: seq<Event>) {
    forall e :: e in run ==> !e.Queue?
  }

  /** With nothing more queued the run leads to where task t is about to report Done, over a queued request
      that failed. */
  predicate Outdates(s: State, t: nat, run: seq<Event>) {
    CanRun(s, run) && NoneQueued(run) && Outdated(After(s, run), t)
  }

  predicate Outdated(s: State, t: nat) {
    AskOf(s, t).DidIt? && AskOf(s, t).ok && !s.pending && s.failed && !Good(s, s.n)
  }

  ghost predicate CanBeOutdated(s: State, t: nat) {
    exists run :: Outdates(s, t, run)
  }

  /** Exactly a request queued between a direct one's walk and its report can make the direct one report Done
      over the failure of what was queued. */
  lemma DirectDoneOutdatedIff(n: nat, run: seq<Event>, t: nat, e: Event)
    requires n > 0 && CanRun(Start(n), run) && Enabled(After(Start(n), run), e)
    requires var a := AskOf(After(Start(n), run), t); a.DidIt? && a.ok && a.walked == After(Start(n), run).queued
    ensures CanBeOutdated(Step(After(Start(n), run), e), t) <==> e.Queue?
  {
    StartIsTrue(n);
    RunIsTrue(Start(n), run);
    SameEntries(Start(n), run);
    var s := After(Start(n), run);
    if e.Queue? {
      var rest := QueuedFails(Step(s, e), t);
    } else {
      RunIsTrue(s, [e]);
      assert Step(s, e) == After(s, [e]);
      StaysEarned(s, [e], t);
      if rest :| Outdates(Step(s, e), t, rest) {
        RunIsTrue(Step(s, e), rest);
        StaysEarned(Step(s, e), rest, t);
        assert false;
      }
    }
  }

  /** Two requests are enough: task 2 queues one between the walk and the report of task 1. */
  lemma DirectDoneCanBeOutdated() returns (run: seq<Event>)
    ensures CanRun(Start(1), run) && AskOf(After(Start(1), run), 1).DidIt? && CanBeOutdated(After(Start(1), run), 1)
  {
    run := [Ask(1, false), DoNow(1, true, true, true), Ask(2, true), Queue(2)];
    var a := Step(Start(1), run[0]);
    var b := Step(a, run[1]);
    var c := Step(b, run[2]);
    var d := Step(c, run[3]);
    assert After(Start(1), run) == After(a, run[1..]) == After(b, run[2..]) == After(c, run[3..])
      == After(d, run[4..]) == d;
    var rest := QueuedFails(d, 1);
  }

  predicate Earned(s: State, t: nat) {
    AskOf(s, t).DidIt? ==> AskOf(s, t).walked == s.queued
  }

  lemma {:induction false} StaysEarned(s: State, run: seq<Event>, t: nat)
    requires Earned(s, t) && CanRun(s, run) && NoneQueued(run)
    ensures Earned(After(s, run), t)
    decreases run
  {
    if run != [] {
      assert run[0] in run && forall e :: e in run[1..] ==> e in run;
      StaysEarned(Step(s, run[0]), run[1..], t);
    }
  }

  // ---- the queued request that fails: a run of a new task finds every primary stale

  lemma Fresh(m: map<nat, Pc>) returns (r: nat)
    ensures r !in m
  {
    r := Above(m.Keys);
  }

  lemma {:induction false} Above(s: set<nat>) returns (r: nat)
    ensures forall k :: k in s ==> k < r
    decreases |s|
  {
    r := 0;
    if s != {} {
      var k :| k in s;
      var above := Above(s - {k});
      r := if k < above then above else k + 1;
      assert forall j :: j in s ==> j == k || j in s - {k};
    }
  }

  lemma QueuedFails(s: State, t: nat) returns (run: seq<Event>)
    requires s.n > 0 && s.pending && s.next == 0 && s.covered == s.absent == {}
    requires AskOf(s, t).DidIt? && AskOf(s, t).ok
    ensures Outdates(s, t, run)
  {
    var r := Fresh(s.runs);
    var u := Step(s, Enter(r));
    var v := Step(u, Read(r));
    run := SkipsAll(v, r, t);
    run := Before(u, t, Read(r), run);
    run := Before(s, t, Enter(r), run);
  }

  lemma Before(s: State, t: nat, e: Event, rest: seq<Event>) returns (run: seq<Event>)
    requires Enabled(s, e) && !e.Queue? && Outdates(Step(s, e), t, rest)
    ensures Outdates(s, t, run)
  {
    run := [e] + rest;
    assert run[1..] == rest;
    assert forall f :: f in run ==> f == e || f in rest;
  }

  lemma {:induction false} SkipsAll(s: State, r: nat, t: nat) returns (run: seq<Event>)
    requires s.n > 0 && s.covered == s.absent == {} && AskOf(s, t).DidIt? && AskOf(s, t).ok
    requires RunOf(s, r).At? && RunOf(s, r).gen == s.gen && RunOf(s, r).i <= s.n
    requires RunOf(s, r).i > 0 ==> s.failed
    ensures Outdates(s, t, run)
    decreases s.n - RunOf(s, r).i
  {
    var pc := RunOf(s, r);
    if pc.i == s.n {
      run := RunEnds(s, r, t);
    } else {
      var u := Step(s, Stale(r));
      run := SkipsAll(Step(u, SkipStale(r)), r, t);
      run := Before(u, t, SkipStale(r), run);
      run := Before(s, t, Stale(r), run);
    }
  }

  lemma RunEnds(s: State, r: nat, t: nat) returns (run: seq<Event>)
    requires s.n > 0 && s.covered == s.absent == {} && AskOf(s, t).DidIt? && AskOf(s, t).ok && s.failed
    requires RunOf(s, r) == At(s.gen, s.n)
    ensures Outdates(s, t, run)
  {
    var u := Step(s, ReachEnd(r));
    var v := Step(u, ReadFailed(r));
    var w := Step(v, Finish(r));
    assert 0 !in w.covered && 0 !in w.absent && AskOf(w, t) == AskOf(s, t);
    assert Outdates(w, t, []);
    run := Before(v, t, Finish(r), []);
    run := Before(u, t, ReadFailed(r), run);
    run := Before(s, t, ReachEnd(r), run);
  }

  // ---- a run from end to end

  lemma Prepend(s: State, e: Event, rest: seq<Event>) returns (run: seq<Event>)
    requires Enabled(s, e) && CanRun(Step(s, e), rest)
    ensures CanRun(s, run) && After(s, run) == After(Step(s, e), rest)
  {
    run := [e] + rest;
    assert run[1..] == rest;
  }

  predicate Complete(t: State) {
    t.report.Done? && !t.pending && !t.failed && RunOf(t, 2).Out? && Good(t, t.n)
  }

  /** One queued request and one run over any number of entries, each copied and renamed: Done, and all are covered. */
  lemma WholeRun(n: nat) returns (run: seq<Event>)
    ensures CanRun(Start(n), run) && Complete(After(Start(n), run)) && After(Start(n), run).n == n
  {
    var a := Step(Start(n), Ask(1, true));
    var b := Step(a, Queue(1));
    var c := Step(b, Enter(2));
    var d := Step(c, Read(2));
    run := EntriesRun(d, 0);
    hide CanRun, After, Step, Complete;
    run := Prepend(c, Read(2), run);
    run := Prepend(b, Enter(2), run);
    run := Prepend(a, Queue(1), run);
    run := Prepend(Start(n), Ask(1, true), run);
  }

  lemma {:induction false} EntriesRun(s: State, i: nat) returns (run: seq<Event>)
    requires RunOf(s, 2) == At(s.gen, i) && i <= s.n && s.pending && !s.failed && Good(s, i)
    ensures CanRun(s, run) && Complete(After(s, run)) && After(s, run).n == s.n
    decreases s.n - i
  {
    if i == s.n {
      run := RunDone(s);
    } else {
      var a := Step(s, Copy(2, true));
      var b := Step(a, Rename(2, true));
      var c := Step(b, Advance(2));
      assert Good(c, i + 1) && RunOf(c, 2) == At(c.gen, i + 1);
      run := EntriesRun(c, i + 1);
      hide CanRun, After, Step, Complete;
      run := Prepend(b, Advance(2), run);
      run := Prepend(a, Rename(2, true), run);
      run := Prepend(s, Copy(2, true), run);
    }
  }

  lemma RunDone(s: State) returns (run: seq<Event>)
    requires RunOf(s, 2) == At(s.gen, s.n) && s.pending && !s.failed && Good(s, s.n)
    ensures CanRun(s, run) && Complete(After(s, run)) && After(s, run).n == s.n
  {
    var a := Step(s, ReachEnd(2));
    var b := Step(a, ReadFailed(2));
    var c := Step(b, Finish(2));
    assert Good(c, c.n) && Complete(c) && CanRun(c, []) && After(c, []) == c;
    hide CanRun, After, Step, Complete;
    run := Prepend(b, Finish(2), []);
    run := Prepend(a, ReadFailed(2), run);
    run := Prepend(s, ReachEnd(2), run);
  }

  // ---- failures are told

  /** A copy or a rename that fails, and a stale entry, are noted by a run at the current generation. */
  lemma FailureIsNoted(s: State, r: nat)
    requires HasGen(RunOf(s, r)) && RunOf(s, r).gen == s.gen
    ensures Enabled(s, Copy(r, false)) ==>
      RunOf(Step(s, Copy(r, false)), r).NotCopied? && Step(Step(s, Copy(r, false)), Note(r)).failed
    ensures Enabled(s, Rename(r, false)) ==>
      RunOf(Step(s, Rename(r, false)), r).NotCopied? && Step(Step(s, Rename(r, false)), Note(r)).failed
    ensures Enabled(s, Stale(r)) ==>
      RunOf(Step(s, Stale(r)), r).StaleSeen? && Step(Step(s, Stale(r)), SkipStale(r)).failed
  {
  }

  /** What was noted is told until the next request is queued: a run that comes to its end reports Failed. */
  lemma {:induction false} FailedStays(s: State, run: seq<Event>)
    requires s.failed && CanRun(s, run) && NoneQueued(run)
    ensures After(s, run).failed
    decreases run
  {
    if run != [] {
      assert run[0] in run && forall e :: e in run[1..] ==> e in run;
      FailedStep(s, run[0]);
      hide Step, Enabled;
      FailedStays(Step(s, run[0]), run[1..]);
    }
  }

  lemma FailedStep(s: State, e: Event)
    requires s.failed && Enabled(s, e) && !e.Queue?
    ensures Step(s, e).failed
  {
    hide RunOf, AskOf;
  }

  lemma EndTells(s: State, r: nat)
    requires RunOf(s, r).Closing? && RunOf(s, r).gen == s.gen
    ensures var t := Step(Step(s, ReadFailed(r)), Finish(r));
      t.report == (if s.failed then Failed else Done) && !t.pending && RunOf(t, r).Out?
  {
  }

  /** An entry counts as backed up only by a copy that went through, made since the latest queued request, and its
      rename. */
  lemma CoveredBy(s: State, e: Event)
    requires Enabled(s, e)
    ensures var t := Step(s, e);
      forall j :: j in t.covered && j !in s.covered ==>
        || (e.DoNow? && e.ran && e.ok)
        || (e.Rename? && e.ok && RunOf(s, e.r) == Copied(RunOf(s, e.r).gen, j, true))
    ensures forall r: nat :: RunOf(Step(s, e), r).Copied? && !RunOf(s, r).Copied? ==> e == Copy(r, true)
  {
    var t := Step(s, e);
    if e.Queue? {
      assert forall r: nat :: RunOf(t, r) == CopiedBefore(RunOf(s, r));
    } else if e.Ask? || e.DoNow? || e.Publish? {
      SameRuns(s, t);
    } else {
      SetRun(s, t, e.r, RunOf(t, e.r));
    }
    hide RunOf, AskOf;
  }
}
