/** A graceful restart: the module hooks, the flush of put-off writes, the after-shutdown step and the
    reset, whichever of the loop task, the restart callers and the IDF shutdown handler gets there first. */
module Restart {
  const U32 := 0x1_0000_0000
  const HANDOFF_MS := 3000
  const BUDGET_MS := 500
  const DEADLINE_MS := 30000

  /** What runShutdownOnce was called for: the whole restart, or the hooks alone (then a reset or not). */
  datatype Purpose = Whole | HooksOnly(reset: bool)

  /** Where the flush is run from. */
  datatype From = InHooks(purpose: Purpose) | InAfter

  datatype Pc =
    | Idle
    | Parked                     // a later caller, waiting for the reset under way
    | Claimed                    // the first caller
    | Handoff                    // waits for the loop to take the hooks
    | AtClaim(purpose: Purpose)  // about to claim the hooks
    | NothingBegun(purpose: Purpose)
    | Hooks(purpose: Purpose, k: nat)  // k hooks to go
    | HooksEnd(purpose: Purpose)
    | WaitHooks
    | AtFlush(from: From)
    | Flushing(from: From)
    | WaitFlush(from: From)
    | AtAfter
    | AfterReady
    | AfterEnd
    | WaitAfter
    | Resetting(orderly: bool)   // orderly: at the end of the whole restart

  /** claimed: shutdownDone_; ran: the hooks run, by their place in the install order; owner: who claimed them. */
  datatype HooksPart = HooksPart(claimed: bool, done: bool, abandon: bool, ran: seq<nat>, owner: set<nat>)

  /** state: 0 not begun, 1 under way, 2 done; times: how often it was begun; gaveUp: whose wait for it ran out. */
  datatype FlushPart = FlushPart(state: nat, times: nat, flusher: set<nat>, gaveUp: set<nat>)

  /** state: as for the flush; steps: how often the after-shutdown step was run; late: whose wait for it ran out. */
  datatype AfterPart = AfterPart(state: nat, steps: nat, finisher: set<nat>, late: set<nat>)

  datatype State = State(modules: nat, loopTask: nat, begun: bool, restartClaimed: bool, requested: bool, off: bool,
                         pcs: map<nat, Pc>, hooks: HooksPart, flush: FlushPart, after: AfterPart)

  datatype EnterStep = Restart | Request | LoopSees | EspReset | Shutdown | HandoffSeen | HandoffOver | Reset

  datatype HookStep = ClaimHooks | SkipAll | RunHook | EndHooks | NoteDone | HooksSeen | HooksOver

  datatype FlushStep = ClaimFlush | EndFlush | FlushSeen | FlushOver

  datatype AfterStep = ClaimAfter | RunStep(allowed: bool) | EndAfter | AfterSeen | AfterOver

  /** Task t's next step. */
  datatype Event = Enter(t: nat, enter: EnterStep) | Hook(t: nat, hook: HookStep) | Flush(t: nat, flush: FlushStep)
                 | Finish(t: nat, finish: AfterStep)

  function Start(modules: nat, loopTask: nat, begun: bool): State {
    State(modules, loopTask, begun, false, false, false, map[], HooksPart(false, false, false, [], {}),
          FlushPart(0, 0, {}, {}), AfterPart(0, 0, {}, {}))
  }

  function PcOf(s: State, t: nat): Pc {
    if t in s.pcs then s.pcs[t] else Idle
  }

  predicate CanEnter(s: State, t: nat, e: EnterStep) {
    var pc := PcOf(s, t);
    match e
    case Restart => pc.Idle?
    case Request => pc.Claimed?
    case LoopSees => pc.Idle? && t == s.loopTask && s.begun && s.requested
    case EspReset => pc.Idle? || pc.Parked?
    case Shutdown => pc.Idle?
    case HandoffSeen => pc.Handoff? && s.hooks.claimed
    case HandoffOver => pc.Handoff?
    case Reset => pc.Resetting?
  }

  predicate CanHook(s: State, t: nat, e: HookStep) {
    var pc := PcOf(s, t);
    match e
    case ClaimHooks => pc.AtClaim?
    case SkipAll => pc.NothingBegun?
    case RunHook => pc.Hooks? && pc.k > 0
    case EndHooks => pc.Hooks? && pc.k == 0
    case NoteDone => pc.HooksEnd?
    case HooksSeen => pc.WaitHooks? && s.hooks.done
    case HooksOver => pc.WaitHooks?
  }

  predicate CanFlush(s: State, t: nat, e: FlushStep) {
    var pc := PcOf(s, t);
    match e
    case ClaimFlush => pc.AtFlush?
    case EndFlush => pc.Flushing?
    case FlushSeen => pc.WaitFlush? && s.flush.state == 2
    case FlushOver => pc.WaitFlush?
  }

  predicate CanFinish(s: State, t: nat, e: AfterStep) {
    var pc := PcOf(s, t);
    match e
    case ClaimAfter => pc.AtAfter?
    case RunStep(_) => pc.AfterReady?
    case EndAfter => pc.AfterEnd?
    case AfterSeen => pc.WaitAfter? && s.after.state == 2
    case AfterOver => pc.WaitAfter?
  }

  predicate Enabled(s: State, e: Event) {
    !s.off &&
    match e
    case Enter(t, p) => CanEnter(s, t, p)
    case Hook(t, p) => CanHook(s, t, p)
    case Flush(t, p) => CanFlush(s, t, p)
    case Finish(t, p) => CanFinish(s, t, p)
  }

  function At(s: State, t: nat, pc: Pc): State {
    s.(pcs := s.pcs[t := pc])
  }

  /** Past runShutdownOnce. */
  function AfterHooks(p: Purpose): Pc {
    if p.Whole? then AtAfter else if p.reset then Resetting(false) else Idle
  }

  /** Past runFlushOnce. */
  function AfterFlush(f: From): Pc {
    if f.InAfter? then AfterReady else HooksEnd(f.purpose)
  }

  /** restartDevice's way to the hooks, the loop's, the shutdown handler's; and the reset. */
  function Entering(s: State, t: nat, e: EnterStep): State
    requires CanEnter(s, t, e)
  {
    match e
    case Restart => if s.restartClaimed then At(s, t, Parked) else At(s, t, Claimed).(restartClaimed := true)
    case Request =>
      if !s.begun || t == s.loopTask then At(s, t, AtClaim(Whole)) else At(s, t, Handoff).(requested := true)
    case LoopSees => At(s, t, AtClaim(Whole))
    case EspReset => At(s, t, if s.hooks.claimed then Resetting(false) else AtClaim(HooksOnly(true)))
    case Shutdown => At(s, t, AtClaim(HooksOnly(false)))
    case HandoffSeen => At(s, t, WaitHooks)
    case HandoffOver => At(s, t, AtClaim(Whole))
    case Reset => s.(off := true)
  }

  /** runShutdownOnce and waitHooks. */
  function Hooking(s: State, t: nat, e: HookStep): State
    requires CanHook(s, t, e)
  {
    var pc, h := PcOf(s, t), s.hooks;
    match e
    case ClaimHooks =>
      if h.claimed then At(s, t, if pc.purpose.Whole? then WaitHooks else AfterHooks(pc.purpose))
      else
        At(s, t, if s.begun then Hooks(pc.purpose, s.modules) else NothingBegun(pc.purpose))
        .(begun := false, hooks := h.(claimed := true, owner := h.owner + {t}))
    case SkipAll => At(s, t, AfterHooks(pc.purpose)).(flush := s.flush.(state := 2), hooks := h.(done := true))
    case RunHook =>
      if h.abandon then At(s, t, AtFlush(InHooks(pc.purpose)))
      else At(s, t, Hooks(pc.purpose, pc.k - 1)).(hooks := h.(ran := h.ran + [pc.k - 1]))
    case EndHooks => At(s, t, AtFlush(InHooks(pc.purpose)))
    case NoteDone => At(s, t, AfterHooks(pc.purpose)).(hooks := h.(done := true))
    case HooksSeen => At(s, t, AtAfter)
    case HooksOver => At(s, t, AtAfter).(hooks := h.(abandon := true))
  }

  /** runFlushOnce. */
  function FlushingOn(s: State, t: nat, e: FlushStep): State
    requires CanFlush(s, t, e)
  {
    var from, f := PcOf(s, t).from, s.flush;
    match e
    case ClaimFlush =>
      if f.state == 0 then At(s, t, Flushing(from))
        .(flush := f.(state := 1, times := f.times + 1, flusher := f.flusher + {t}))
      else At(s, t, WaitFlush(from))
    case EndFlush => At(s, t, AfterFlush(from)).(flush := f.(state := 2))
    case FlushSeen => At(s, t, AfterFlush(from))
    case FlushOver => At(s, t, AfterFlush(from)).(flush := f.(gaveUp := f.gaveUp + {t}))
  }

  /** runAfterShutdownOnce. */
  function Finishing(s: State, t: nat, e: AfterStep): State
    requires CanFinish(s, t, e)
  {
    var a := s.after;
    match e
    case ClaimAfter =>
      if a.state == 0 then At(s, t, AtFlush(InAfter)).(after := a.(state := 1, finisher := a.finisher + {t}))
      else At(s, t, WaitAfter)
    case RunStep(allowed) => At(s, t, AfterEnd).(after := a.(steps := if allowed then a.steps + 1 else a.steps))
    case EndAfter => At(s, t, Resetting(true)).(after := a.(state := 2))
    case AfterSeen => At(s, t, Resetting(true))
    case AfterOver => At(s, t, Resetting(true)).(after := a.(late := a.late + {t}))
  }

  function Step(s: State, e: Event): State
    requires Enabled(s, e)
  {
    match e
    case Enter(t, p) => Entering(s, t, p)
    case Hook(t, p) => Hooking(s, t, p)
    case Flush(t, p) => FlushingOn(s, t, p)
    case Finish(t, p) => Finishing(s, t, p)
  }

  /** The hooks in reverse install order, the first k of it left out. */
  function Reverse(n: nat, k: nat): (r: seq<nat>)
    requires k <= n
    ensures |r| == n - k && forall i :: 0 <= i < |r| ==> r[i] == n - 1 - i
  {
    seq(n - k, i requires 0 <= i < n - k => n - 1 - i)
  }

  predicate Owns(pc: Pc) {
    pc.NothingBegun? || pc.Hooks? || pc.HooksEnd? ||
    ((pc.AtFlush? || pc.Flushing? || pc.WaitFlush?) && pc.from.InHooks?)
  }

  predicate Finishes(pc: Pc) {
    pc.AfterReady? || pc.AfterEnd? || ((pc.AtFlush? || pc.Flushing? || pc.WaitFlush?) && pc.from.InAfter?)
  }

  predicate AtMostOne(tasks: set<nat>) {
    forall t: nat, u: nat :: t in tasks && u in tasks ==> t == u
  }

  /** The hooks are their claimer's, and run in reverse order. */
  ghost predicate OneOwner(s: State) {
    var h := s.hooks;
    && AtMostOne(h.owner) && (h.claimed <==> h.owner != {})
    && (forall t: nat :: Owns(PcOf(s, t)) ==> t in h.owner)
    && |h.ran| <= s.modules && h.ran == Reverse(s.modules, s.modules - |h.ran|)
    && (!h.claimed ==> h.ran == [])
    && (forall t: nat :: PcOf(s, t).Hooks? ==> PcOf(s, t).k == s.modules - |h.ran|)
  }

  ghost predicate OneFlush(s: State) {
    var f := s.flush;
    && f.state <= 2 && f.times <= 1 && AtMostOne(f.flusher) && (f.state == 0 ==> f.times == 0 && f.flusher == {})
    && (forall t: nat :: PcOf(s, t).Flushing? ==> t in f.flusher)
    && (forall t: nat :: PcOf(s, t).WaitFlush? ==> f.state > 0)
    && (f.state == 1 ==> exists t: nat :: PcOf(s, t).Flushing?)
  }

  ghost predicate OneFinisher(s: State) {
    var a := s.after;
    && a.state <= 2 && a.steps <= 1 && AtMostOne(a.finisher) && (a.state == 0 <==> a.finisher == {})
    && (forall t: nat :: Finishes(PcOf(s, t)) ==> t in a.finisher && a.state == 1)
    && (a.steps > 0 ==> a.state > 0 && forall t: nat :: Finishes(PcOf(s, t)) ==> PcOf(s, t).AfterEnd?)
  }

  /** What comes before what. */
  ghost predicate Ordered(s: State) {
    && (forall t: nat, u: nat :: PcOf(s, t).AfterReady? && PcOf(s, u).Flushing? ==> t in s.flush.gaveUp)
    && (forall t: nat :: PcOf(s, t).AfterReady? ==> s.flush.state > 0)
    && (forall t: nat :: PcOf(s, t).Flushing? && s.flush.state == 2 ==> PcOf(s, t).from.InAfter?)
    && (forall t: nat :: PcOf(s, t).AtAfter? || Finishes(PcOf(s, t)) ==> s.hooks.done || s.hooks.abandon)
    && (forall t: nat :: PcOf(s, t) == Resetting(true) ==> s.after.state == 2 || t in s.after.late)
  }

  ghost predicate Inv(s: State) {
    OneOwner(s) && OneFlush(s) && OneFinisher(s) && Ordered(s)
  }

  /** A step of task u. */
  ghost predicate Moves(s: State, t: State, u: nat) {
    t.modules == s.modules && forall v: nat :: v != u ==> PcOf(t, v) == PcOf(s, v)
  }

  lemma OwnerStill(s: State, t: State, u: nat)
    requires OneOwner(s) && Moves(s, t, u) && t.hooks.claimed == s.hooks.claimed
    requires t.hooks.owner == s.hooks.owner && t.hooks.ran == s.hooks.ran
    requires Owns(PcOf(t, u)) ==> Owns(PcOf(s, u)) && !PcOf(t, u).Hooks?
    ensures OneOwner(t)
  {
    hide PcOf, AtMostOne;
  }

  lemma FlushStill(s: State, t: State, u: nat)
    requires OneFlush(s) && Moves(s, t, u) && t.flush == s.flush
    requires !PcOf(s, u).Flushing? && !PcOf(t, u).Flushing? && !PcOf(t, u).WaitFlush?
    ensures OneFlush(t)
  {
    if s.flush.state == 1 {
      var v: nat :| PcOf(s, v).Flushing?;
      assert PcOf(t, v).Flushing?;
    }
    hide PcOf, AtMostOne;
  }

  lemma FinisherStill(s: State, t: State, u: nat)
    requires OneFinisher(s) && Moves(s, t, u) && t.after == s.after
    requires Finishes(PcOf(t, u)) ==> Finishes(PcOf(s, u)) && !PcOf(s, u).AfterEnd?
    ensures OneFinisher(t)
  {
    hide PcOf, Finishes, AtMostOne;
  }

  /** A step that brings its task to none of the places that the order is about. */
  lemma OrderStill(s: State, t: State, u: nat)
    requires Ordered(s) && Moves(s, t, u) && t.flush == s.flush && t.after == s.after
    requires (s.hooks.done ==> t.hooks.done) && (s.hooks.abandon ==> t.hooks.abandon)
    requires var pc := PcOf(t, u);
      && !Finishes(pc) && !pc.Flushing? && pc != Resetting(true)
      && (pc.AtAfter? ==> t.hooks.done || t.hooks.abandon)
    ensures Ordered(t)
  {
    hide PcOf;
  }

  lemma EnterKeeps(s: State, t: nat, e: EnterStep)
    requires Inv(s) && CanEnter(s, t, e) && !e.Reset?
    ensures Inv(Entering(s, t, e))
  {
    var r := Entering(s, t, e);
    assert Moves(s, r, t) && r.hooks == s.hooks && r.flush == s.flush && r.after == s.after;
    assert !Owns(PcOf(r, t)) && !Finishes(PcOf(r, t)) && !PcOf(r, t).AtAfter? && PcOf(r, t) != Resetting(true);
    hide Entering, PcOf, OneOwner, OneFlush, OneFinisher, Ordered, Moves;
    assert !PcOf(r, t).Flushing? && !PcOf(r, t).WaitFlush?;
    OwnerStill(s, r, t);
    FlushStill(s, r, t);
    FinisherStill(s, r, t);
    OrderStill(s, r, t);
  }

  lemma ClaimKeepsOwner(s: State, t: nat)
    requires OneOwner(s) && CanHook(s, t, ClaimHooks)
    ensures OneOwner(Hooking(s, t, ClaimHooks))
  {
    assert Moves(s, Hooking(s, t, ClaimHooks), t);
    hide PcOf;
  }

  lemma RunKeepsOwner(s: State, t: nat)
    requires OneOwner(s) && CanHook(s, t, RunHook)
    ensures OneOwner(Hooking(s, t, RunHook))
  {
    assert Moves(s, Hooking(s, t, RunHook), t);
    assert t in s.hooks.owner;
    hide PcOf;
  }

  lemma SkipKeeps(s: State, t: nat)
    requires OneOwner(s) && OneFlush(s) && Ordered(s) && CanHook(s, t, SkipAll)
    ensures var r := Hooking(s, t, SkipAll); OneFlush(r) && Ordered(r)
  {
    var r := Hooking(s, t, SkipAll);
    assert Moves(s, r, t);
    assert t in s.hooks.owner;
    hide PcOf, Reverse;
  }

  /** Where a step of the hooks brings its task, and what it leaves alone. */
  lemma HookMoves(s: State, t: nat, e: HookStep)
    requires CanHook(s, t, e)
    ensures var r, pc := Hooking(s, t, e), PcOf(Hooking(s, t, e), t);
      && Moves(s, r, t) && r.after == s.after && (e != SkipAll ==> r.flush == s.flush)
      && !PcOf(s, t).Flushing? && !Finishes(pc) && !pc.Flushing? && !pc.WaitFlush? && pc != Resetting(true)
  {
    hide Hooking;
    HookPlaces(s, t, e);
  }

  /** Task t goes on within the hooks or past them; nothing of the after-shutdown step changes. */
  predicate Placed(s: State, r: State, t: nat, e: HookStep) {
    var pc := PcOf(r, t);
    && r.pcs == s.pcs[t := pc] && r.modules == s.modules && r.after == s.after && (e != SkipAll ==> r.flush == s.flush)
    && (pc.Hooks? || pc.HooksEnd? || pc.NothingBegun? || pc.WaitHooks? || pc.AtAfter? || pc == Resetting(false)
        || pc.Idle? || (pc.AtFlush? && pc.from.InHooks?))
  }

  lemma HookPlaces(s: State, t: nat, e: HookStep)
    requires CanHook(s, t, e)
    ensures Placed(s, Hooking(s, t, e), t, e)
  {
    hide Hooking, Placed;
    if e.ClaimHooks? {
      ClaimPlaces(s, t);
    } else if e.RunHook? || e.EndHooks? || e.HooksSeen? || e.HooksOver? {
      RunPlaces(s, t, e);
    } else {
      DonePlaces(s, t, e);
    }
  }

  lemma ClaimPlaces(s: State, t: nat)
    requires CanHook(s, t, ClaimHooks)
    ensures Placed(s, Hooking(s, t, ClaimHooks), t, ClaimHooks)
  {
  }

  lemma RunPlaces(s: State, t: nat, e: HookStep)
    requires CanHook(s, t, e) && (e.RunHook? || e.EndHooks? || e.HooksSeen? || e.HooksOver?)
    ensures Placed(s, Hooking(s, t, e), t, e)
  {
  }

  lemma DonePlaces(s: State, t: nat, e: HookStep)
    requires CanHook(s, t, e) && (e.SkipAll? || e.NoteDone?)
    ensures Placed(s, Hooking(s, t, e), t, e)
  {
  }

  lemma HookOrder(s: State, t: nat, e: HookStep)
    requires CanHook(s, t, e)
    ensures var r, pc := Hooking(s, t, e), PcOf(Hooking(s, t, e), t);
      && (s.hooks.done ==> r.hooks.done) && (s.hooks.abandon ==> r.hooks.abandon)
      && (e != SkipAll && pc.AtAfter? ==> r.hooks.done || r.hooks.abandon)
  {
  }

  lemma HookOwner(s: State, t: nat, e: HookStep)
    requires CanHook(s, t, e) && e != ClaimHooks && e != RunHook
    ensures var r, pc := Hooking(s, t, e), PcOf(Hooking(s, t, e), t);
      && r.hooks.(done := s.hooks.done, abandon := s.hooks.abandon) == s.hooks
      && (Owns(pc) ==> Owns(PcOf(s, t)) && !pc.Hooks?)
  {
  }

  lemma HookKeeps(s: State, t: nat, e: HookStep)
    requires OneOwner(s) && OneFlush(s) && OneFinisher(s) && Ordered(s) && CanHook(s, t, e)
    ensures Inv(Hooking(s, t, e))
  {
    hide *;
    var r := Hooking(s, t, e);
    HookMoves(s, t, e);
    HookOrder(s, t, e);
    FinisherStill(s, r, t);
    match e {
      case ClaimHooks => ClaimKeepsOwner(s, t);
      case RunHook => RunKeepsOwner(s, t);
      case _ =>
        HookOwner(s, t, e);
        OwnerStill(s, r, t);
    }
    if e == SkipAll {
      SkipKeeps(s, t);
    } else {
      FlushStill(s, r, t);
      OrderStill(s, r, t);
    }
    Together(r);
  }

  lemma Apart(s: State)
    requires Inv(s)
    ensures OneOwner(s) && OneFlush(s) && OneFinisher(s) && Ordered(s)
  {
    hide OneOwner, OneFlush, OneFinisher, Ordered;
  }

  lemma Together(s: State)
    requires OneOwner(s) && OneFlush(s) && OneFinisher(s) && Ordered(s)
    ensures Inv(s)
  {
    hide OneOwner, OneFlush, OneFinisher, Ordered;
  }

  lemma FlushKeepsOrder(s: State, t: nat, e: FlushStep)
    requires OneFinisher(s) && OneFlush(s) && Ordered(s) && CanFlush(s, t, e)
    ensures Ordered(FlushingOn(s, t, e))
  {
    assert Moves(s, FlushingOn(s, t, e), t);
    hide PcOf;
  }

  lemma FlushMoves(s: State, t: nat, e: FlushStep)
    requires CanFlush(s, t, e)
    ensures var r, pc := FlushingOn(s, t, e), PcOf(FlushingOn(s, t, e), t);
      && Moves(s, r, t) && r.after == s.after && r.hooks == s.hooks
      && (Owns(pc) ==> Owns(PcOf(s, t)) && !pc.Hooks?)
      && (Finishes(pc) ==> Finishes(PcOf(s, t)) && !PcOf(s, t).AfterEnd?)
  {
  }

  lemma FlushKeepsFlush(s: State, t: nat, e: FlushStep)
    requires OneFlush(s) && CanFlush(s, t, e)
    ensures OneFlush(FlushingOn(s, t, e))
  {
    var r := FlushingOn(s, t, e);
    assert Moves(s, r, t);
    if e.ClaimFlush? && s.flush.state == 0 {
      assert PcOf(r, t).Flushing?;
    } else if r.flush.state == 1 {
      var u: nat :| PcOf(s, u).Flushing?;
      assert u != t;
      assert PcOf(r, u).Flushing?;
    }
    hide PcOf;
  }

  lemma FlushKeeps(s: State, t: nat, e: FlushStep)
    requires OneOwner(s) && OneFlush(s) && OneFinisher(s) && Ordered(s) && CanFlush(s, t, e)
    ensures Inv(FlushingOn(s, t, e))
  {
    hide *;
    var r := FlushingOn(s, t, e);
    FlushMoves(s, t, e);
    OwnerStill(s, r, t);
    FinisherStill(s, r, t);
    FlushKeepsFlush(s, t, e);
    FlushKeepsOrder(s, t, e);
    Together(r);
  }

  lemma FinishKeepsOrder(s: State, t: nat, e: AfterStep)
    requires OneFinisher(s) && Ordered(s) && CanFinish(s, t, e)
    ensures Ordered(Finishing(s, t, e))
  {
    assert Moves(s, Finishing(s, t, e), t);
    hide PcOf;
  }

  lemma FinishMoves(s: State, t: nat, e: AfterStep)
    requires CanFinish(s, t, e)
    ensures var r, pc := Finishing(s, t, e), PcOf(Finishing(s, t, e), t);
      && Moves(s, r, t) && r.flush == s.flush && r.hooks == s.hooks
      && !Owns(pc) && !PcOf(s, t).Flushing? && !pc.Flushing? && !pc.WaitFlush?
  {
  }

  lemma FinishKeepsFinisher(s: State, t: nat, e: AfterStep)
    requires OneFinisher(s) && CanFinish(s, t, e)
    ensures OneFinisher(Finishing(s, t, e))
  {
    assert Moves(s, Finishing(s, t, e), t);
    hide PcOf;
  }

  lemma FinishKeeps(s: State, t: nat, e: AfterStep)
    requires OneOwner(s) && OneFlush(s) && OneFinisher(s) && Ordered(s) && CanFinish(s, t, e)
    ensures Inv(Finishing(s, t, e))
  {
    hide *;
    var r := Finishing(s, t, e);
    FinishMoves(s, t, e);
    OwnerStill(s, r, t);
    FlushStill(s, r, t);
    FinishKeepsFinisher(s, t, e);
    FinishKeepsOrder(s, t, e);
    Together(r);
  }

  lemma StepKeeps(s: State, e: Event)
    requires Inv(s) && Enabled(s, e)
    ensures Inv(Step(s, e))
  {
    Apart(s);
    hide Entering, Hooking, FlushingOn, Finishing, CanHook, CanFlush, CanFinish, Inv;
    match e
    case Enter(t, Reset) => OffKeeps(s, t);
    case Enter(t, p) => EnterKeeps(s, t, p);
    case Hook(t, p) => HookKeeps(s, t, p);
    case Flush(t, p) => FlushKeeps(s, t, p);
    case Finish(t, p) => FinishKeeps(s, t, p);
  }

  lemma OffKeeps(s: State, t: nat)
    requires Inv(s) && CanEnter(s, t, Reset)
    ensures Inv(Entering(s, t, Reset))
  {
    assert forall u: nat :: PcOf(Entering(s, t, Reset), u) == PcOf(s, u);
    hide PcOf;
  }

  predicate CanRun(s: State, run: seq<Event>)
    decreases run
  {
    run == [] || (Enabled(s, run[0]) && CanRun(Step(s, run[0]), run[1..]))
  }

  function After(s: State, run: seq<Event>): State
    requires CanRun(s, run)
    decreases run
  {
    if run == [] then s else After(Step(s, run[0]), run[1..])
  }

  lemma {:induction false} RunKeeps(s: State, run: seq<Event>)
    requires Inv(s) && CanRun(s, run)
    ensures Inv(After(s, run))
    decreases run
  {
    if run != [] {
      StepKeeps(s, run[0]);
      hide Inv, Step, Enabled;
      RunKeeps(Step(s, run[0]), run[1..]);
    }
  }

  lemma StartIsGood(modules: nat, loopTask: nat, begun: bool)
    ensures Inv(Start(modules, loopTask, begun))
  {
    assert forall t: nat :: PcOf(Start(modules, loopTask, begun), t).Idle?;
  }

  /** Every restart, by whichever tasks: the hooks run once each at most, in reverse install order and on the one
      task that claimed them; the flush is begun, and the after-shutdown step run, once at most. */
  lemma OnceAndInOrder(modules: nat, loopTask: nat, begun: bool, run: seq<Event>)
    requires CanRun(Start(modules, loopTask, begun), run)
    ensures var s := After(Start(modules, loopTask, begun), run);
      && |s.hooks.ran| <= s.modules && s.hooks.ran == Reverse(s.modules, s.modules - |s.hooks.ran|)
      && AtMostOne(s.hooks.owner) && (forall t: nat :: PcOf(s, t).Hooks? ==> t in s.hooks.owner)
      && s.flush.times <= 1 && s.after.steps <= 1
  {
    StartIsGood(modules, loopTask, begun);
    RunKeeps(Start(modules, loopTask, begun), run);
  }

  /** The after-shutdown step comes once the hooks are over or given up on, and the flush has ended, unless this
      task's wait for it ran out; a task that ends the restart resets only after the step, or after its wait for
      it ran out. */
  lemma FlushComesFirst(modules: nat, loopTask: nat, begun: bool, run: seq<Event>, t: nat)
    requires CanRun(Start(modules, loopTask, begun), run)
    ensures var s := After(Start(modules, loopTask, begun), run);
      && (PcOf(s, t).AfterReady? ==>
            && (s.hooks.done || s.hooks.abandon) && s.flush.state > 0
            && (t in s.flush.gaveUp || (s.flush.state == 2 && forall u: nat :: !PcOf(s, u).Flushing?)))
      && (PcOf(s, t) == Resetting(true) ==> s.after.state == 2 || t in s.after.late)
  {
    StartIsGood(modules, loopTask, begun);
    RunKeeps(Start(modules, loopTask, begun), run);
  }

  // ---- nothing is left out

  /** The claimer is through with the hooks. */
  predicate PastHooks(pc: Pc) {
    pc.HooksEnd? || ((pc.AtFlush? || pc.Flushing? || pc.WaitFlush?) && pc.from.InHooks?)
  }

  /** begun: whether anything was at first; allowed: whether every after-shutdown step was let through. */
  ghost predicate Thorough(s: State, begun: bool, allowed: bool) {
    var all := !begun || s.hooks.abandon || |s.hooks.ran| == s.modules;
    && (!s.hooks.claimed ==> s.begun == begun) && (s.hooks.done ==> all)
    && (forall t: nat :: PcOf(s, t).NothingBegun? ==> !begun)
    && (forall t: nat :: PastHooks(PcOf(s, t)) ==> all)
    && (s.flush.state > 0 ==> s.flush.times == 1 || !begun)
    && (allowed ==> (s.after.state == 2 ==> s.after.steps == 1)
                    && forall t: nat :: PcOf(s, t).AfterEnd? ==> s.after.steps == 1)
  }

  lemma HookThorough(s: State, t: nat, e: HookStep, begun: bool, allowed: bool)
    requires Inv(s) && Thorough(s, begun, allowed) && CanHook(s, t, e)
    ensures Thorough(Hooking(s, t, e), begun, allowed)
  {
    hide Inv, Thorough, Hooking, CanHook;
    if e.RunHook? || e.EndHooks? {
      HooksThorough(s, t, e, begun, allowed);
    } else {
      OthersThorough(s, t, e, begun, allowed);
    }
  }

  lemma HooksThorough(s: State, t: nat, e: HookStep, begun: bool, allowed: bool)
    requires Inv(s) && Thorough(s, begun, allowed) && CanHook(s, t, e) && (e.RunHook? || e.EndHooks?)
    ensures Thorough(Hooking(s, t, e), begun, allowed)
  {
    var r := Hooking(s, t, e);
    assert Moves(s, r, t);
    assert PcOf(s, t).k == s.modules - |s.hooks.ran| && t in s.hooks.owner;
    assert forall u: nat :: PastHooks(PcOf(s, u)) ==> u in s.hooks.owner && u != t;
    hide PcOf, Reverse, AtMostOne;
  }

  lemma OthersThorough(s: State, t: nat, e: HookStep, begun: bool, allowed: bool)
    requires Inv(s) && Thorough(s, begun, allowed) && CanHook(s, t, e) && !e.RunHook? && !e.EndHooks?
    ensures Thorough(Hooking(s, t, e), begun, allowed)
  {
    assert Moves(s, Hooking(s, t, e), t);
    hide PcOf, Reverse, AtMostOne, Inv;
  }

  lemma EnterThorough(s: State, t: nat, e: EnterStep, begun: bool, allowed: bool)
    requires Thorough(s, begun, allowed) && CanEnter(s, t, e)
    ensures Thorough(Entering(s, t, e), begun, allowed)
  {
    var r := Entering(s, t, e);
    assert Moves(s, r, t) && r.hooks == s.hooks && r.flush == s.flush && r.after == s.after && r.begun == s.begun;
    assert e.Reset? || !(PastHooks(PcOf(r, t)) || PcOf(r, t).NothingBegun? || PcOf(r, t).AfterEnd?);
    assert e.Reset? ==> PcOf(r, t) == PcOf(s, t);
    hide PcOf, Entering;
  }

  lemma FlushThorough(s: State, t: nat, e: FlushStep, begun: bool, allowed: bool)
    requires OneFlush(s) && Thorough(s, begun, allowed) && CanFlush(s, t, e)
    ensures Thorough(FlushingOn(s, t, e), begun, allowed)
  {
    var r := FlushingOn(s, t, e);
    assert Moves(s, r, t) && r.hooks == s.hooks && r.after == s.after && r.begun == s.begun;
    assert PastHooks(PcOf(r, t)) ==> PastHooks(PcOf(s, t));
    assert !PcOf(r, t).NothingBegun? && !PcOf(r, t).AfterEnd?;
    if e.EndFlush? { assert PcOf(s, t).Flushing?; }
    assert e.EndFlush? ==> s.flush.state > 0 || s.flush.times == 0;
    hide PcOf;
  }

  lemma FinishThorough(s: State, t: nat, e: AfterStep, begun: bool, allowed: bool)
    requires OneFinisher(s) && Thorough(s, begun, allowed) && CanFinish(s, t, e)
    requires allowed && e.RunStep? ==> e.allowed
    ensures Thorough(Finishing(s, t, e), begun, allowed)
  {
    var r := Finishing(s, t, e);
    assert Moves(s, r, t) && r.hooks == s.hooks && r.flush == s.flush && r.begun == s.begun;
    assert !PastHooks(PcOf(r, t)) && !PcOf(r, t).NothingBegun?;
    if e.RunStep? { assert Finishes(PcOf(s, t)) && !PcOf(s, t).AfterEnd?; }
    hide PcOf;
  }

  lemma StepThorough(s: State, e: Event, begun: bool, allowed: bool)
    requires Inv(s) && Thorough(s, begun, allowed) && Enabled(s, e)
    requires allowed && e.Finish? && e.finish.RunStep? ==> e.finish.allowed
    ensures Thorough(Step(s, e), begun, allowed)
  {
    Apart(s);
    hide Inv, Thorough, OneOwner, OneFlush, OneFinisher, Ordered;
    hide Entering, Hooking, FlushingOn, Finishing, CanEnter, CanHook, CanFlush, CanFinish;
    match e
    case Enter(t, p) => EnterThorough(s, t, p, begun, allowed);
    case Hook(t, p) => HookThorough(s, t, p, begun, allowed);
    case Flush(t, p) => FlushThorough(s, t, p, begun, allowed);
    case Finish(t, p) => FinishThorough(s, t, p, begun, allowed);
  }

  predicate AllAllowed(run: seq<Event>) {
    forall e :: e in run && e.Finish? && e.finish.RunStep? ==> e.finish.allowed
  }

  lemma {:induction false} RunThorough(s: State, run: seq<Event>, begun: bool, allowed: bool)
    requires Inv(s) && Thorough(s, begun, allowed) && CanRun(s, run) && (allowed ==> AllAllowed(run))
    ensures Thorough(After(s, run), begun, allowed) && After(s, run).modules == s.modules
    decreases run
  {
    if run != [] {
      assert run[0] in run && forall e :: e in run[1..] ==> e in run;
      StepKeeps(s, run[0]);
      StepThorough(s, run[0], begun, allowed);
      SameModules(s, run[0]);
      hide Inv, Thorough, Step, Enabled;
      RunThorough(Step(s, run[0]), run[1..], begun, allowed);
    }
  }

  lemma SameModules(s: State, e: Event)
    requires Enabled(s, e)
    ensures Step(s, e).modules == s.modules
  {
  }

  /** Every restart of a device that has begun: once the hooks are done, each has run, the last installed first,
      unless they were given up on; once the flush is over it was really made; and once the after-shutdown step is
      over it was run, unless writes were paused then. */
  lemma NothingLeftOut(modules: nat, loopTask: nat, run: seq<Event>)
    requires CanRun(Start(modules, loopTask, true), run)
    ensures var s := After(Start(modules, loopTask, true), run);
      && (s.hooks.done && !s.hooks.abandon ==>
            |s.hooks.ran| == modules && forall i :: 0 <= i < modules ==> s.hooks.ran[i] == modules - 1 - i)
      && (s.flush.state == 2 ==> s.flush.times == 1)
      && (AllAllowed(run) && s.after.state == 2 ==> s.after.steps == 1)
  {
    StartIsGood(modules, loopTask, true);
    StartThorough(modules, loopTask, AllAllowed(run));
    RunKeeps(Start(modules, loopTask, true), run);
    RunThorough(Start(modules, loopTask, true), run, true, AllAllowed(run));
  }

  predicate Calls(pc: Pc) {
    pc.Claimed? || pc.Handoff?
  }

  /** No module goes on once the hooks are claimed; the hooks end after the flush, or after the wait for it; and one
      caller at a time asks for the restart. */
  ghost predicate Served(s: State) {
    && (s.hooks.claimed ==> !s.begun)
    && (forall t: nat :: PcOf(s, t).HooksEnd? ==> s.flush.state == 2 || t in s.flush.gaveUp)
    && (s.hooks.done ==> s.flush.state == 2 || s.flush.gaveUp != {})
    && (forall t: nat :: Calls(PcOf(s, t)) ==> s.restartClaimed)
    && (forall t: nat, u: nat :: Calls(PcOf(s, t)) && Calls(PcOf(s, u)) ==> t == u)
  }

  lemma HookServed(s: State, t: nat, e: HookStep)
    requires Served(s) && CanHook(s, t, e)
    ensures Served(Hooking(s, t, e))
  {
    HookPlaces(s, t, e);
    var r := Hooking(s, t, e);
    assert r.restartClaimed == s.restartClaimed && r.flush.gaveUp == s.flush.gaveUp && !PcOf(r, t).HooksEnd?;
    assert (r.hooks.claimed ==> !r.begun) && (s.flush.state == 2 ==> r.flush.state == 2);
    assert r.hooks.done ==> s.hooks.done || PcOf(s, t).HooksEnd? || r.flush.state == 2;
    assert !Calls(PcOf(r, t)) && forall u: nat :: u != t ==> PcOf(r, u) == PcOf(s, u);
    hide Hooking, PcOf, Placed;
  }

  lemma EnterServed(s: State, t: nat, e: EnterStep)
    requires Served(s) && CanEnter(s, t, e)
    ensures Served(Entering(s, t, e))
  {
    var r := Entering(s, t, e);
    assert r.hooks == s.hooks && r.flush == s.flush && r.begun == s.begun && (s.restartClaimed ==> r.restartClaimed);
    assert forall u: nat :: u != t ==> PcOf(r, u) == PcOf(s, u);
    assert Calls(PcOf(r, t)) ==> r.restartClaimed && (Calls(PcOf(s, t)) || !s.restartClaimed);
    assert PcOf(r, t).HooksEnd? ==> PcOf(s, t).HooksEnd?;
    hide PcOf, Entering;
  }

  lemma FlushServed(s: State, t: nat, e: FlushStep)
    requires Served(s) && CanFlush(s, t, e)
    ensures Served(FlushingOn(s, t, e))
  {
    var r := FlushingOn(s, t, e);
    assert r.hooks == s.hooks && r.begun == s.begun && r.restartClaimed == s.restartClaimed;
    assert s.flush.gaveUp <= r.flush.gaveUp && (s.flush.state == 2 ==> r.flush.state == 2);
    assert PcOf(r, t).HooksEnd? ==> r.flush.state == 2 || t in r.flush.gaveUp;
    assert !Calls(PcOf(r, t)) && forall u: nat :: u != t ==> PcOf(r, u) == PcOf(s, u);
    hide PcOf, FlushingOn;
  }

  lemma FinishServed(s: State, t: nat, e: AfterStep)
    requires Served(s) && CanFinish(s, t, e)
    ensures Served(Finishing(s, t, e))
  {
    var r := Finishing(s, t, e);
    assert r.hooks == s.hooks && r.flush == s.flush && r.begun == s.begun && r.restartClaimed == s.restartClaimed;
    assert !Calls(PcOf(r, t)) && !PcOf(r, t).HooksEnd? && forall u: nat :: u != t ==> PcOf(r, u) == PcOf(s, u);
    hide PcOf, Finishing;
  }

  lemma StepServed(s: State, e: Event)
    requires Served(s) && Enabled(s, e)
    ensures Served(Step(s, e))
  {
    hide Served, Entering, Hooking, FlushingOn, Finishing, CanEnter, CanHook, CanFlush, CanFinish;
    match e
    case Enter(t, p) => EnterServed(s, t, p);
    case Hook(t, p) => HookServed(s, t, p);
    case Flush(t, p) => FlushServed(s, t, p);
    case Finish(t, p) => FinishServed(s, t, p);
  }

  lemma {:induction false} RunServed(s: State, run: seq<Event>)
    requires Served(s) && CanRun(s, run)
    ensures Served(After(s, run))
    decreases run
  {
    if run != [] {
      StepServed(s, run[0]);
      hide Served, Step, Enabled;
      RunServed(Step(s, run[0]), run[1..]);
    }
  }

  /** Over every restart: once the hooks are claimed the modules are not ticked any more, once they are done the put-off
      writes are flushed, unless a wait for the flush ran out, and later callers park. */
  lemma HooksThenFlush(modules: nat, loopTask: nat, begun: bool, run: seq<Event>)
    requires CanRun(Start(modules, loopTask, begun), run)
    ensures var s := After(Start(modules, loopTask, begun), run);
      && (s.hooks.claimed ==> !s.begun)
      && (s.hooks.done && s.flush.gaveUp == {} ==> s.flush.state == 2)
      && forall t: nat, u: nat :: Calls(PcOf(s, t)) && Calls(PcOf(s, u)) ==> t == u
  {
    assert forall t: nat :: PcOf(Start(modules, loopTask, begun), t).Idle?;
    RunServed(Start(modules, loopTask, begun), run);
  }

  /** Hooks that were given up on: not one more is begun. */
  lemma {:induction false} AbandonedStops(s: State, run: seq<Event>)
    requires s.hooks.abandon && CanRun(s, run)
    ensures After(s, run).hooks.abandon && After(s, run).hooks.ran == s.hooks.ran
    decreases run
  {
    if run != [] {
      AbandonedStep(s, run[0]);
      hide Step, Enabled;
      AbandonedStops(Step(s, run[0]), run[1..]);
    }
  }

  lemma AbandonedStep(s: State, e: Event)
    requires s.hooks.abandon && Enabled(s, e)
    ensures Step(s, e).hooks.abandon && Step(s, e).hooks.ran == s.hooks.ran
  {
    hide PcOf;
  }

  function Allowed(run: seq<Event>): nat {
    if run == [] then 0
    else (if run[0].Finish? && run[0].finish == RunStep(true) then 1 else 0) + Allowed(run[1..])
  }

  /** While writes are paused the after-shutdown step is never run. */
  lemma {:induction false} StepsAreAllowed(s: State, run: seq<Event>)
    requires CanRun(s, run)
    ensures After(s, run).after.steps <= s.after.steps + Allowed(run)
    decreases run
  {
    if run != [] {
      OneStep(s, run[0]);
      hide Step, Enabled;
      StepsAreAllowed(Step(s, run[0]), run[1..]);
    }
  }

  lemma OneStep(s: State, e: Event)
    requires Enabled(s, e)
    ensures Step(s, e).after.steps <= s.after.steps + if e.Finish? && e.finish == RunStep(true) then 1 else 0
  {
    hide PcOf;
  }

  /** A caller off the loop hands the hooks to a loop that is free: that can take them at once. */
  lemma RequestReachesLoop(s: State, t: nat)
    requires CanEnter(s, t, Request) && s.begun && t != s.loopTask && PcOf(s, s.loopTask).Idle? && !s.hooks.claimed
    ensures var asked := Entering(s, t, Request);
      && PcOf(asked, t).Handoff? && CanEnter(asked, s.loopTask, LoopSees)
      && var taken := Hooking(Entering(asked, s.loopTask, LoopSees), s.loopTask, ClaimHooks);
        PcOf(taken, s.loopTask) == Hooks(Whole, s.modules) && CanEnter(taken, t, HandoffSeen)
  {
  }

  lemma StartThorough(modules: nat, loopTask: nat, allowed: bool)
    ensures Thorough(Start(modules, loopTask, true), true, allowed)
  {
    assert forall t: nat :: PcOf(Start(modules, loopTask, true), t).Idle?;
  }

  // ---- the deadline

  const WRITE_WAIT_MS := 1000
  const LOCK_WAIT_MS := 1000
  const FILE_MS := 500

  /** What the write gate put off: saves, a Save Backup over some files, the boot record, other jobs' milliseconds. */
  datatype PutOff = PutOff(saves: nat, backup: bool, files: nat, bootRecord: bool, jobsMs: nat)

  function UnwrappedAllowance(p: PutOff): nat {
    var saves := p.saves * (WRITE_WAIT_MS + LOCK_WAIT_MS + 2 * FILE_MS);
    var backup := if p.backup then (p.files * 2 + 2) * (WRITE_WAIT_MS + FILE_MS) + LOCK_WAIT_MS else 0;
    saves + backup + (if p.bootRecord then 2 else 0) * WRITE_WAIT_MS + p.jobsMs + 1000
  }

  /** flushAllowanceMs, in 32 bits. */
  function Allowance(p: PutOff): nat {
    UnwrappedAllowance(p) % U32
  }

  /** Three seconds a save, 1.5 s for either step of each file of a Save Backup and of its marker, and a second for its
      lock, two for the boot record, and one more. */
  lemma AllowanceIs(p: PutOff)
    ensures UnwrappedAllowance(p) ==
      3000 * p.saves + (if p.backup then 3000 * p.files + 3000 + 1000 else 0) + (if p.bootRecord then 2000 else 0)
      + p.jobsMs + 1000
  {
  }

  /** shutdownGraceMs, in 32 bits. */
  function Grace(modules: nat, allowance: nat): nat {
    (modules * BUDGET_MS + 1000 + allowance) % U32
  }

  /** restartDeadlineMs, in 32 bits. */
  function Deadline(modules: nat, allowance: nat): nat {
    var need := (HANDOFF_MS + Grace(modules, allowance) + 5000) % U32;
    if need > DEADLINE_MS then need else DEADLINE_MS
  }

  /** The deadline is armed with what was put off at the call, the caller waits by what is put off after the
      handoff. It outlasts the handoff and that wait just when they fit the fixed deadline, or the first sum fits
      32 bits and the second grace is within its margin. */
  lemma DeadlineIsLongerIff(modules: nat, armed: nat, waited: nat)
    ensures Deadline(modules, armed) > HANDOFF_MS + Grace(modules, waited)
      <==> || HANDOFF_MS + Grace(modules, waited) < DEADLINE_MS
           || (HANDOFF_MS + Grace(modules, armed) + 5000 < U32 && Grace(modules, waited) < Grace(modules, armed) + 5000)
  {
    var g := Grace(modules, armed);
    assert HANDOFF_MS + g + 5000 >= U32 ==> (HANDOFF_MS + g + 5000) % U32 == HANDOFF_MS + g + 5000 - U32;
  }

  /** In what was put off in between: one more save is within the margin, a second is not unless all fits the
      fixed deadline. */
  lemma SavesInBetween(modules: nat, p: PutOff, more: nat)
    requires HANDOFF_MS + modules * BUDGET_MS + 6000 + UnwrappedAllowance(p.(saves := p.saves + more)) < U32
    ensures var armed, waited := Allowance(p), Allowance(p.(saves := p.saves + more));
      Deadline(modules, armed) > HANDOFF_MS + Grace(modules, waited)
      <==> more <= 1 || HANDOFF_MS + Grace(modules, waited) < DEADLINE_MS
  {
    MoreSaves(p, more);
    hide UnwrappedAllowance;
    var armed, waited := UnwrappedAllowance(p), UnwrappedAllowance(p.(saves := p.saves + more));
    assert Allowance(p) == armed && Allowance(p.(saves := p.saves + more)) == waited;
    assert Grace(modules, armed) == modules * BUDGET_MS + 1000 + armed;
    assert Grace(modules, waited) == modules * BUDGET_MS + 1000 + waited;
    hide Grace, Allowance;
    DeadlineIsLongerIff(modules, armed, waited);
  }

  lemma MoreSaves(p: PutOff, more: nat)
    ensures UnwrappedAllowance(p.(saves := p.saves + more)) == UnwrappedAllowance(p) + 3000 * more
  {
  }

  /** Ten modules, nothing put off when the restart is asked for, seven saves put off by the hooks: the chip is
      reset while the caller still waits for them. */
  lemma DeadlineCanBeShort()
    ensures var armed, waited := Allowance(PutOff(0, false, 0, false, 0)), Allowance(PutOff(7, false, 0, false, 0));
      Deadline(10, armed) < HANDOFF_MS + Grace(10, waited)
  {
  }

  // ---- a restart from end to end

  /** Task 1 asks for it, the loop runs every hook, flushes and runs the after-shutdown step while task 1 waits for
      each, and then the chip is reset: for any number of modules. */
  lemma WholeRestart(modules: nat, loopTask: nat) returns (s: State)
    requires loopTask != 1
    ensures CanReach(modules, loopTask, s) && s.off && PcOf(s, 1) == Resetting(true)
    ensures s.hooks.ran == Reverse(modules, 0) && s.hooks.done && !s.hooks.abandon
    ensures s.flush == FlushPart(2, 1, {loopTask}, {}) && s.after == AfterPart(2, 1, {loopTask}, {})
  {
    s := Start(modules, loopTask, true);
    StartIsReached(modules, loopTask);
    hide CanReach;
    s := On(modules, loopTask, s, Enter(1, Restart));
    s := On(modules, loopTask, s, Enter(1, Request));
    s := On(modules, loopTask, s, Enter(loopTask, LoopSees));
    s := On(modules, loopTask, s, Hook(loopTask, ClaimHooks));
    s := On(modules, loopTask, s, Enter(1, HandoffSeen));
    s := HooksRun(modules, loopTask, s);
    s := LoopFinishes(modules, loopTask, s);
  }

  /** A run leads there. */
  ghost predicate CanReach(modules: nat, loopTask: nat, s: State) {
    exists run :: CanRun(Start(modules, loopTask, true), run) && s == After(Start(modules, loopTask, true), run)
  }

  lemma StartIsReached(modules: nat, loopTask: nat)
    ensures CanReach(modules, loopTask, Start(modules, loopTask, true))
  {
    assert CanRun(Start(modules, loopTask, true), []);
  }

  lemma {:induction false} Append(s: State, run: seq<Event>, e: Event)
    requires CanRun(s, run) && Enabled(After(s, run), e)
    ensures CanRun(s, run + [e]) && After(s, run + [e]) == Step(After(s, run), e)
    decreases run
  {
    hide Step, Enabled;
    if run == [] {
      assert run + [e] == [e] && [e][1..] == [];
      assert After(Step(s, e), []) == Step(s, e);
    } else {
      Append(Step(s, run[0]), run[1..], e);
      assert (run + [e])[1..] == run[1..] + [e];
    }
  }

  lemma On(modules: nat, loopTask: nat, s: State, e: Event) returns (t: State)
    requires CanReach(modules, loopTask, s) && Enabled(s, e)
    ensures CanReach(modules, loopTask, t) && t == Step(s, e)
  {
    var run :| CanRun(Start(modules, loopTask, true), run) && s == After(Start(modules, loopTask, true), run);
    Append(Start(modules, loopTask, true), run, e);
    t := Step(s, e);
  }

  lemma {:induction false} HooksRun(modules: nat, loopTask: nat, s: State) returns (t: State)
    requires CanReach(modules, loopTask, s) && !s.off && PcOf(s, loopTask).Hooks? && !s.hooks.abandon
    requires PcOf(s, loopTask).purpose.Whole? && PcOf(s, loopTask).k <= modules
    requires s.hooks.ran == Reverse(modules, PcOf(s, loopTask).k)
    ensures CanReach(modules, loopTask, t)
    ensures t == s.(pcs := s.pcs[loopTask := Hooks(Whole, 0)], hooks := s.hooks.(ran := Reverse(modules, 0)))
    decreases PcOf(s, loopTask).k
  {
    hide CanReach;
    if PcOf(s, loopTask).k == 0 {
      t := s;
      assert s.pcs[loopTask := Hooks(Whole, 0)] == s.pcs;
    } else {
      var k := PcOf(s, loopTask).k;
      var u := On(modules, loopTask, s, Hook(loopTask, RunHook));
      assert u.hooks.ran == Reverse(modules, k - 1);
      t := HooksRun(modules, loopTask, u);
      assert u.pcs[loopTask := Hooks(Whole, 0)] == s.pcs[loopTask := Hooks(Whole, 0)];
    }
  }

  lemma LoopFinishes(modules: nat, loopTask: nat, s: State) returns (t: State)
    requires CanReach(modules, loopTask, s) && !s.off && loopTask != 1 && !s.hooks.abandon && !s.hooks.done
    requires PcOf(s, loopTask) == Hooks(Whole, 0) && PcOf(s, 1).WaitHooks?
    requires s.flush == FlushPart(0, 0, {}, {}) && s.after == AfterPart(0, 0, {}, {})
    ensures CanReach(modules, loopTask, t) && t.off && PcOf(t, 1) == Resetting(true)
    ensures t.hooks == s.hooks.(done := true)
    ensures t.flush == FlushPart(2, 1, {loopTask}, {}) && t.after == AfterPart(2, 1, {loopTask}, {})
  {
    hide CanReach;
    t := On(modules, loopTask, s, Hook(loopTask, EndHooks));
    t := On(modules, loopTask, t, Flush(loopTask, ClaimFlush));
    t := On(modules, loopTask, t, Flush(loopTask, EndFlush));
    t := On(modules, loopTask, t, Hook(loopTask, NoteDone));
    t := On(modules, loopTask, t, Finish(loopTask, ClaimAfter));
    t := On(modules, loopTask, t, Hook(1, HooksSeen));
    t := On(modules, loopTask, t, Finish(1, ClaimAfter));
    assert PcOf(t, 1).WaitAfter? && PcOf(t, loopTask) == AtFlush(InAfter);
    t := StepIsRun(modules, loopTask, t);
  }

  lemma StepIsRun(modules: nat, loopTask: nat, s: State) returns (t: State)
    requires CanReach(modules, loopTask, s) && !s.off && loopTask != 1
    requires PcOf(s, loopTask) == AtFlush(InAfter) && PcOf(s, 1).WaitAfter?
    requires s.flush == FlushPart(2, 1, {loopTask}, {}) && s.after == AfterPart(1, 0, {loopTask}, {})
    ensures CanReach(modules, loopTask, t) && t.off && PcOf(t, 1) == Resetting(true)
    ensures t.hooks == s.hooks && t.flush == s.flush && t.after == AfterPart(2, 1, {loopTask}, {})
  {
    hide CanReach;
    t := On(modules, loopTask, s, Flush(loopTask, ClaimFlush));
    t := On(modules, loopTask, t, Flush(loopTask, FlushSeen));
    t := On(modules, loopTask, t, Finish(loopTask, RunStep(true)));
    t := On(modules, loopTask, t, Finish(loopTask, EndAfter));
    t := On(modules, loopTask, t, Finish(1, AfterSeen));
    t := On(modules, loopTask, t, Enter(1, Reset));
  }

  /** Where nobody answers: a caller whose waits run out takes over, gives the hooks up and resets. */
  lemma TakeoverGoesOn(s: State, t: nat)
    requires !s.off
    ensures CanEnter(s, t, HandoffOver) ==> PcOf(Entering(s, t, HandoffOver), t) == AtClaim(Whole)
    ensures CanHook(s, t, ClaimHooks) && s.hooks.claimed && PcOf(s, t).purpose.Whole? ==>
      PcOf(Hooking(s, t, ClaimHooks), t).WaitHooks?
    ensures CanHook(s, t, HooksOver) ==>
      Hooking(s, t, HooksOver).hooks.abandon && PcOf(Hooking(s, t, HooksOver), t).AtAfter?
    ensures CanFlush(s, t, FlushOver) && PcOf(s, t).from.InAfter? ==> PcOf(FlushingOn(s, t, FlushOver), t).AfterReady?
    ensures CanFinish(s, t, AfterOver) ==> PcOf(Finishing(s, t, AfterOver), t) == Resetting(true)
    ensures CanEnter(s, t, Shutdown) ==> PcOf(Entering(s, t, Shutdown), t) == AtClaim(HooksOnly(false))
    ensures CanEnter(s, t, EspReset) && !s.hooks.claimed ==>
      PcOf(Entering(s, t, EspReset), t) == AtClaim(HooksOnly(true))
  {
  }

  /** Before anything has begun there are no hooks and there is nothing to flush. */
  lemma NothingToShutDown(s: State, t: nat)
    requires CanHook(s, t, ClaimHooks) && !s.hooks.claimed && !s.begun
    ensures var claimed := Hooking(s, t, ClaimHooks);
      && CanHook(claimed, t, SkipAll)
      && var r := Hooking(claimed, t, SkipAll);
        r.hooks.done && r.hooks.ran == s.hooks.ran && r.flush.state == 2 && r.flush.times == s.flush.times
        && PcOf(r, t) == AfterHooks(PcOf(s, t).purpose)
  {
  }

  /** On the loop, and before anything has begun, the caller takes the hooks itself; elsewhere the loop takes them, only
      when it was asked, and the caller waits only for hooks that were taken. */
  lemma WhoTakesTheHooks(s: State, t: nat)
    ensures CanEnter(s, t, Request) && (!s.begun || t == s.loopTask) ==>
      PcOf(Entering(s, t, Request), t) == AtClaim(Whole)
    ensures CanEnter(s, t, Request) && s.begun && t != s.loopTask ==> PcOf(Entering(s, t, Request), t).Handoff?
    ensures CanEnter(s, t, LoopSees) <==> t == s.loopTask && PcOf(s, t).Idle? && s.begun && s.requested
    ensures CanEnter(s, t, HandoffSeen) ==> s.hooks.claimed
    ensures CanHook(s, t, HooksSeen) ==> s.hooks.done
    ensures CanFlush(s, t, FlushSeen) ==> s.flush.state == 2
    ensures CanFinish(s, t, AfterSeen) ==> s.after.state == 2
  {
  }
}
