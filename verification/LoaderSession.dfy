/** The loader's two tasks, the session and the web server's, over the slot, its mutex, the
    event bits, imageIn, appValid and the phase. Each step is one task's next access. */
module LoaderSession {
  datatype Holder = Free | BySession | ByWeb

  /** What ota_0 holds: what it held when the loader started, nothing that boots, or a whole checked image. */
  datatype Slot = AsWas | Empty | Image

  datatype Bits = Bits(done: bool, back: bool, start: bool, end: bool)

  datatype Outcome = Ok | Before | After

  /** Where the session goes on if a boot is refused. */
  datatype Next = ToServe(back: bool, uploading: bool) | ToHub

  datatype SessionPc =
    | Hub                                    // between serves and pulls
    | Serve(uploading: bool)                 // the top of serve's loop
    | Waiting(uploading: bool)
    | Got(b: Bits, uploading: bool)          // the bits are read, not yet cleared
    | Handle(b: Bits, uploading: bool)
    | Activate(next: Next)                   // in activate, about to validate
    | Activated(v: nat)
    | Leave                                  // appValid was read as true
    | Return(next: Next)                     // in returnToApp, about to validate
    | Returned(v: nat)
    | Locked                                 // holds the writer, imageIn not yet read
    | Pulling(touched: bool)
    | PullIn                                 // the pulled image is whole, imageIn not yet set
    | Pulled(r: Outcome)                     // the writer not yet given back
    | AfterPull(r: Outcome)
    | Restarted(v: nat, byReturn: bool)

  datatype WebPc =
    | Idle
    | Checked                                // past the first look at imageIn and the phase
    | Holding                                // holds the writer, imageIn not yet read again
    | Begun                                  // the start bit is set
    | Writing(touched: bool)
    | Failed
    | Ending                                 // the writer given back, the end bit not yet set
    | Whole                                  // the uploaded image passed
    | Renounced                              // appValid is false
    | Announcing                             // imageIn is set, the done bit not yet
    | Announced                              // the writer not yet given back
    | BackAsked                              // appValid was read as true

  /** boots: whether the slot's first content boots; ver counts the slot's changes. */
  datatype State = State(pc: SessionPc, web: WebPc, writer: Holder, bits: Bits, imageIn: bool, appValid: bool,
                         activating: bool, slot: Slot, ver: nat, boots: bool)

  datatype ServeStep = EnterServe | ServeTop | ServeTimeout | ServeWait | ServeClear | ServeAct

  datatype LeaveStep = ActivateOr(ok: bool) | ReturnOr(ok: bool) | Restart | ReadApp | GoBack

  datatype PullStep =
    | PullTake | PullLook | PullWrite(erased: bool) | PullFinish | PullMark | PullFail(left: Slot) | PullGive | PullNext

  datatype UploadStep =
    | UpCheck | UpTake | UpRecheck | UpPhase | UpWrite(erased: bool) | UpFail(kept: Slot) | UpGive | UpEnd
    | UpFinish | UpRenounce | UpIn | UpDone | UpAnnounced | BackCheck | BackSet

  /** The next step of the session (serving, leaving or pulling) or of the web server's task. */
  datatype Event = InServe(serve: ServeStep) | InLeave(leave: LeaveStep) | InPull(pull: PullStep)
                 | OnWeb(up: UploadStep)

  const NONE := Bits(false, false, false, false)

  function Start(boots: bool, appValid: bool): State {
    State(Hub, Idle, Free, NONE, false, appValid, false, AsWas, 0, boots)
  }

  /** A blank head never passes the bootloader's check; what may pass may also fail it. */
  predicate MayBoot(s: State) {
    s.slot.Image? || (s.slot.AsWas? && s.boots)
  }

  /** Whether the task is at that step, and what it looks at lets it take it. */
  predicate CanServe(s: State, e: ServeStep) {
    match e
    case EnterServe => s.pc.Hub?
    case ServeTop => s.pc.Serve?
    case ServeTimeout => s.pc.Serve? && !s.pc.uploading
    case ServeWait => s.pc.Waiting?
    case ServeClear => s.pc.Got?
    case ServeAct => s.pc.Handle?
  }

  predicate CanLeave(s: State, e: LeaveStep) {
    match e
    case ActivateOr(ok) => s.pc.Activate? && (ok ==> MayBoot(s))
    case ReturnOr(ok) => s.pc.Return? && (ok ==> MayBoot(s))
    case Restart => (s.pc.Activated? || s.pc.Returned?) && s.web.Idle?  // stopping the server waits for its handler
    case ReadApp => s.pc.Hub? && s.appValid
    case GoBack => s.pc.Leave?
  }

  predicate CanPull(s: State, e: PullStep) {
    match e
    case PullTake => s.pc.Hub? && s.writer.Free?
    case PullLook => s.pc.Locked?
    case PullWrite(_) => s.pc.Pulling?
    case PullFinish => s.pc.Pulling?
    case PullMark => s.pc.PullIn?
    case PullFail(left) => s.pc.Pulling? && (left.AsWas? ==> s.slot.AsWas?)
    case PullGive => s.pc.Pulled?
    case PullNext => s.pc.AfterPull?
  }

  predicate CanUpload(s: State, e: UploadStep) {
    match e
    case UpCheck => s.web.Idle? && !s.imageIn && !s.activating
    case UpTake => s.web.Checked?
    case UpRecheck => s.web.Holding?
    case UpPhase => s.web.Begun?
    case UpWrite(_) => s.web.Writing?
    case UpFail(kept) => s.web.Writing? && (kept.AsWas? ==> s.slot.AsWas?)
    case UpGive => s.web.Failed?
    case UpEnd => s.web.Ending?
    case UpFinish => s.web.Writing?
    case UpRenounce => s.web.Whole?
    case UpIn => s.web.Renounced?
    case UpDone => s.web.Announcing?
    case UpAnnounced => s.web.Announced?
    case BackCheck => s.web.Idle? && s.appValid
    case BackSet => s.web.BackAsked?
  }

  predicate Enabled(s: State, e: Event) {
    match e
    case InServe(p) => CanServe(s, p)
    case InLeave(p) => CanLeave(s, p)
    case InPull(p) => CanPull(s, p)
    case OnWeb(p) => !s.pc.Restarted? && CanUpload(s, p)
  }

  function Minus(a: Bits, b: Bits): Bits {
    Bits(a.done && !b.done, a.back && !b.back, a.start && !b.start, a.end && !b.end)
  }

  /** A slot that is as it was had no erase that worked. */
  function Written(s: State, slot: Slot): State {
    if slot.AsWas? then s else s.(slot := slot, ver := s.ver + 1)
  }

  /** serve(): the bits are read, then cleared, then acted upon. */
  function Serving(s: State, e: ServeStep): (t: State)
    requires CanServe(s, e)
    ensures t.slot == s.slot && t.ver == s.ver && t.imageIn == s.imageIn
  {
    match e
    case EnterServe => s.(pc := Serve(false))
    case ServeTop => s.(pc := Waiting(s.pc.uploading), activating := s.activating && s.pc.uploading)
    case ServeTimeout => s.(pc := Hub)
    case ServeWait => s.(pc := Got(s.bits, s.pc.uploading))
    case ServeClear => s.(pc := Handle(s.pc.b, s.pc.uploading), bits := Minus(s.bits, s.pc.b))
    case ServeAct =>
      var b := s.pc.b;
      var uploading := (s.pc.uploading || b.start) && !b.end && !b.done;
      if b.done then s.(pc := Activate(ToServe(b.back, uploading)), activating := true)
      else if b.back then s.(pc := Return(ToServe(false, uploading)), activating := true)
      else s.(pc := Serve(uploading))
  }

  /** activate() and returnToApp(): each validates the slot, then restarts. */
  function Leaving(s: State, e: LeaveStep): (t: State)
    requires CanLeave(s, e)
    ensures t.slot == s.slot && t.ver == s.ver
  {
    match e
    case ActivateOr(ok) =>
      if ok then s.(pc := Activated(s.ver))
      else
        s.(appValid := false, imageIn := false,
           pc := if s.pc.next.ToHub? then AfterPull(After)
                 else if s.pc.next.back then Return(ToServe(false, s.pc.next.uploading))
                 else Serve(s.pc.next.uploading))
    case ReturnOr(ok) =>
      if ok then s.(pc := Returned(s.ver))
      else s.(appValid := false, pc := if s.pc.next.ToHub? then Hub else Serve(s.pc.next.uploading))
    case Restart => s.(pc := Restarted(s.pc.v, s.pc.Returned?))
    case ReadApp => s.(pc := Leave)
    case GoBack => s.(pc := Return(ToHub), activating := true)
  }

  /** runPull() under the writer's mutex, pullOnce() within it. */
  function PullingOn(s: State, e: PullStep): State
    requires CanPull(s, e)
  {
    match e
    case PullTake => s.(pc := Locked, writer := BySession)
    case PullLook =>
      if s.imageIn then s.(pc := Pulled(Ok), bits := s.bits.(done := false, start := false))
      else s.(pc := Pulling(false), activating := false)
    case PullWrite(erased) => (if erased then Written(s, Empty) else s).(pc := Pulling(true))
    case PullFinish => Written(s, Image).(pc := PullIn)
    case PullMark => s.(pc := Pulled(Ok), appValid := false, imageIn := true)
    case PullFail(left) =>
      if s.pc.touched then Written(s, left).(pc := Pulled(After), appValid := false) else s.(pc := Pulled(Before))
    case PullGive => s.(pc := AfterPull(s.pc.r), writer := Free)
    case PullNext => if s.pc.r.Ok? then s.(pc := Activate(ToHub), activating := true) else s.(pc := Hub)
  }

  /** onUpload() and onBack(). */
  function Uploading(s: State, e: UploadStep): State
    requires CanUpload(s, e)
  {
    match e
    case UpCheck => s.(web := Checked)
    case UpTake => if s.writer.Free? then s.(web := Holding, writer := ByWeb) else s.(web := Idle)
    case UpRecheck =>
      if s.imageIn then s.(web := Idle, writer := Free) else s.(web := Begun, bits := s.bits.(start := true))
    case UpPhase => s.(web := Writing(false), activating := false)
    case UpWrite(erased) => (if erased then Written(s, Empty) else s).(web := Writing(true))
    case UpFail(kept) =>
      if s.web.touched then Written(s, kept).(web := Failed, appValid := false) else s.(web := Failed)
    case UpGive => s.(web := Ending, writer := Free)
    case UpEnd => s.(web := Idle, bits := s.bits.(end := true))
    case UpFinish => Written(s, Image).(web := Whole)
    case UpRenounce => s.(web := Renounced, appValid := false)
    case UpIn => s.(web := Announcing, imageIn := true)
    case UpDone => s.(web := Announced, bits := s.bits.(done := true))
    case UpAnnounced => s.(web := Idle, writer := Free)
    case BackCheck => s.(web := BackAsked)
    case BackSet => s.(web := Idle, bits := s.bits.(back := true))
  }

  function Step(s: State, e: Event): State
    requires Enabled(s, e)
  {
    match e
    case InServe(p) => Serving(s, p)
    case InLeave(p) => Leaving(s, p)
    case InPull(p) => PullingOn(s, p)
    case OnWeb(p) => Uploading(s, p)
  }

  predicate CanRun(s: State, run: seq<Event>)
    decreases run
  {
    run == [] || (Enabled(s, run[0]) && CanRun(Step(s, run[0]), run[1..]))
  }

  function Afterwards(s: State, run: seq<Event>): State
    requires CanRun(s, run)
    decreases run
  {
    if run == [] then s else Afterwards(Step(s, run[0]), run[1..])
  }

  predicate SessionHolds(pc: SessionPc) {
    pc.Locked? || pc.Pulling? || pc.PullIn? || pc.Pulled?
  }

  predicate WebHolds(web: WebPc) {
    && !web.Idle? && !web.Checked? && !web.Ending? && !web.BackAsked?
  }

  function One(b: bool): nat {
    if b then 1 else 0
  }

  /** The ways an image that is in is on its way to be activated. */
  function Claims(s: State): nat {
    One(s.web.Announcing?) + One(s.bits.done) + One(s.pc.Handle? && s.pc.b.done)
    + One(s.pc.Activate? || s.pc.Activated?)
    + One((s.pc.Pulled? || s.pc.AfterPull?) && s.pc.r.Ok?)
  }

  /** One task at most writes the slot, and none once an image is in. */
  predicate Exclusive(s: State) {
    && (s.writer.BySession? <==> SessionHolds(s.pc)) && (s.writer.ByWeb? <==> WebHolds(s.web))
    && (s.pc.Pulling? || s.pc.PullIn? ==> !s.imageIn)
    && (s.web.Begun? || s.web.Writing? || s.web.Failed? || s.web.Whole? || s.web.Renounced? ==> !s.imageIn)
  }

  /** An image that is in is claimed exactly once. */
  predicate Claimed(s: State) {
    && (s.pc.Restarted? || Claims(s) == One(s.imageIn))
    && (s.pc.Got? && s.pc.b.done ==> s.bits.done) && (s.web.Ending? && !s.pc.Restarted? ==> !s.bits.done)
    && (s.pc.Restarted? && !s.pc.byReturn ==> s.imageIn)
  }

  /** What the slot holds, and that activate() restarts into what it validated. */
  predicate Sound(s: State) {
    && (s.imageIn ==> s.slot.Image? && !s.appValid)
    && (s.pc.PullIn? || s.web.Whole? || s.web.Renounced? ==> s.slot.Image?)
    && (s.web.Renounced? ==> !s.appValid)
    && (s.slot.AsWas? <==> s.ver == 0)
    && (s.pc.Activated? ==> s.pc.v == s.ver)
    && (s.pc.Restarted? && !s.pc.byReturn ==> s.pc.v == s.ver)
  }

  predicate Inv(s: State) {
    Exclusive(s) && Claimed(s) && Sound(s)
  }

  lemma ServeKeeps(s: State, e: ServeStep)
    requires Inv(s) && CanServe(s, e)
    ensures Inv(Serving(s, e))
  {
    match e
    case ServeClear => ClearKeeps(s);
    case ServeAct => ActKeeps(s);
    case _ =>
  }

  lemma ClearKeeps(s: State)
    requires Inv(s) && s.pc.Got?
    ensures Inv(Serving(s, ServeClear))
  {
    assert s.pc.b.done ==> s.bits.done;
  }

  lemma ActKeeps(s: State)
    requires Inv(s) && s.pc.Handle?
    ensures Inv(Serving(s, ServeAct))
  {
    var b, t := s.pc.b, Serving(s, ServeAct);
    assert t == s.(pc := t.pc, activating := t.activating);
    assert if b.done then t.pc.Activate? else t.pc.Return? || t.pc.Serve?;
    hide Serving;
  }

  lemma LeaveKeeps(s: State, e: LeaveStep)
    requires Inv(s) && CanLeave(s, e)
    ensures Inv(Leaving(s, e))
  {
  }

  lemma PullKeeps(s: State, e: PullStep)
    requires Inv(s) && CanPull(s, e)
    ensures Inv(PullingOn(s, e))
  {
    hide Inv, PullingOn;
    if e.PullWrite? || e.PullFail? || e.PullFinish? { PullWriteKeeps(s, e); } else { PullPassKeeps(s, e); }
  }

  lemma PullWriteKeeps(s: State, e: PullStep)
    requires Inv(s) && CanPull(s, e) && (e.PullWrite? || e.PullFail? || e.PullFinish?)
    ensures Inv(PullingOn(s, e))
  {
  }

  lemma PullPassKeeps(s: State, e: PullStep)
    requires Inv(s) && CanPull(s, e) && !e.PullWrite? && !e.PullFail? && !e.PullFinish?
    ensures Inv(PullingOn(s, e))
  {
  }

  lemma UploadKeeps(s: State, e: UploadStep)
    requires Inv(s) && CanUpload(s, e)
    ensures Inv(Uploading(s, e))
  {
    if e.UpWrite? || e.UpFail? || e.UpFinish? {
      WriteKeeps(s, e);
    } else if e.UpGive? || e.UpEnd? {
      GiveKeeps(s, e);
    } else {
      PassKeeps(s, e);
    }
  }

  lemma GiveKeeps(s: State, e: UploadStep)
    requires Inv(s) && CanUpload(s, e) && (e.UpGive? || e.UpEnd?)
    ensures Inv(Uploading(s, e))
  {
  }

  lemma PassKeeps(s: State, e: UploadStep)
    requires Inv(s) && CanUpload(s, e) && !e.UpWrite? && !e.UpFail? && !e.UpFinish? && !e.UpGive? && !e.UpEnd?
    ensures Inv(Uploading(s, e))
  {
  }

  lemma WriteKeeps(s: State, e: UploadStep)
    requires Inv(s) && CanUpload(s, e) && (e.UpWrite? || e.UpFail? || e.UpFinish?)
    ensures Inv(Uploading(s, e))
  {
  }

  lemma StepKeeps(s: State, e: Event)
    requires Inv(s) && Enabled(s, e)
    ensures Inv(Step(s, e))
  {
    hide Inv, Serving, Leaving, PullingOn, Uploading, CanServe, CanLeave, CanPull, CanUpload;
    match e
    case InServe(p) => ServeKeeps(s, p);
    case InLeave(p) => LeaveKeeps(s, p);
    case InPull(p) => PullKeeps(s, p);
    case OnWeb(p) => UploadKeeps(s, p);
  }

  /** Over every interleaving of the two tasks. */
  lemma {:induction false} RunKeeps(s: State, run: seq<Event>)
    requires Inv(s) && CanRun(s, run)
    ensures Inv(Afterwards(s, run))
    decreases run
  {
    if run != [] {
      StepKeeps(s, run[0]);
      hide Inv, Step, Enabled;
      RunKeeps(Step(s, run[0]), run[1..]);
    }
  }

  ghost predicate Reachable(s: State) {
    exists boots, appValid, run :: CanRun(Start(boots, appValid), run) && s == Afterwards(Start(boots, appValid), run)
  }

  lemma ReachableIsGood(s: State)
    requires Reachable(s)
    ensures Inv(s)
  {
    var boots, appValid, run :|
      CanRun(Start(boots, appValid), run) && s == Afterwards(Start(boots, appValid), run);
    RunKeeps(Start(boots, appValid), run);
  }

  /** A write is the mutex holder's own, and comes before any image is in. */
  lemma OnlyTheHolderWrites(s: State, e: Event)
    requires Reachable(s) && Enabled(s, e)
    ensures Step(s, e).slot != s.slot ==> Step(s, e).ver == s.ver + 1
    ensures Step(s, e).ver != s.ver ==> !s.imageIn && s.writer == if e.OnWeb? then ByWeb else BySession
  {
    ReachableIsGood(s);
    hide Reachable, Inv, Serving, Leaving, PullingOn, Uploading, CanServe, CanLeave, CanPull, CanUpload;
    match e
    case InServe(_) =>
    case InLeave(_) =>
    case InPull(p) => PullWrites(s, p);
    case OnWeb(p) => UploadWrites(s, p);
  }

  lemma PullWrites(s: State, e: PullStep)
    requires Inv(s) && CanPull(s, e)
    ensures var t := PullingOn(s, e);
      (t.slot == s.slot && t.ver == s.ver) || (t.ver == s.ver + 1 && !s.imageIn && s.writer.BySession?)
  {
  }

  lemma UploadWrites(s: State, e: UploadStep)
    requires Inv(s) && CanUpload(s, e)
    ensures var t := Uploading(s, e);
      (t.slot == s.slot && t.ver == s.ver) || (t.ver == s.ver + 1 && !s.imageIn && s.writer.ByWeb?)
  {
  }

  /** A restart from activate() follows a validation of the slot as it still is: a whole checked image. */
  lemma ActivationIsSafe(s: State)
    requires Reachable(s) && s.pc.Restarted? && !s.pc.byReturn
    ensures s.pc.v == s.ver && s.slot.Image? && s.imageIn
  {
    ReachableIsGood(s);
  }

  lemma {:induction false} RunsJoin(s: State, a: seq<Event>, b: seq<Event>)
    requires CanRun(s, a) && CanRun(Afterwards(s, a), b)
    ensures CanRun(s, a + b) && Afterwards(s, a + b) == Afterwards(Afterwards(s, a), b)
    decreases a
  {
    hide Step, Enabled;
    if a == [] {
      assert a + b == b;
    } else {
      assert (a + b)[1..] == a[1..] + b;
      RunsJoin(Step(s, a[0]), a[1..], b);
    }
  }

  lemma ReachOn(s: State, run: seq<Event>)
    requires Reachable(s) && CanRun(s, run)
    ensures Reachable(Afterwards(s, run))
  {
    var boots, appValid, first :|
      CanRun(Start(boots, appValid), first) && s == Afterwards(Start(boots, appValid), first);
    RunsJoin(Start(boots, appValid), first, run);
  }

  // ---- returnToApp: what may still write to the slot between its validation and the restart

  predicate PastCheck(web: WebPc) {
    web.Checked? || web.Holding? || web.Begun? || web.Writing?
  }

  /** An upload is past its look at imageIn and the phase, or the phase would let one by. */
  predicate Exposed(s: State) {
    !s.imageIn && !s.web.Whole? && !s.web.Renounced? && (PastCheck(s.web) || !s.activating)
  }

  lemma CoveredStays(s: State, e: UploadStep)
    requires s.pc.Returned? && Inv(s) && !Exposed(s) && CanUpload(s, e)
    ensures var t := Uploading(s, e);
      t.pc == s.pc && t.ver == s.ver && t.slot == s.slot && t.boots == s.boots && !Exposed(t)
  {
  }

  /** Not exposed: the slot stays as validated up to the restart. */
  lemma {:induction false} CoveredReturn(s: State, run: seq<Event>)
    requires s.pc.Returned? && Inv(s) && !Exposed(s) && CanRun(s, run)
    ensures var t := Afterwards(s, run);
      t.ver == s.ver && t.slot == s.slot && t.boots == s.boots && (t.pc.Restarted? ==> t.pc.v == s.pc.v)
    decreases run
  {
    if run != [] {
      StepKeeps(s, run[0]);
      if run[0].OnWeb? {
        CoveredStays(s, run[0].up);
        hide Inv, Exposed, Uploading, CanUpload;
        CoveredReturn(Step(s, run[0]), run[1..]);
      } else {
        assert run[1..] == [];
      }
    }
  }

  function Rank(web: WebPc): nat {
    match web
    case Writing(_) => 0
    case Begun => 1
    case Holding => 2
    case Checked => 3
    case Idle => 4
    case Failed => 6
    case _ => 5
  }

  /** Exposed: an upload that then fails leaves a blank slot, and the restart goes there all the same. */
  lemma ExposedReturn(s: State) returns (run: seq<Event>)
    requires s.pc.Returned? && Inv(s) && Exposed(s)
    ensures Spoils(s, run)
    decreases Rank(s.web)
  {
    if s.web.Writing? {
      run := SpoilIt(s);
    } else {
      var e := match s.web {
        case Begun => UpPhase
        case Holding => UpRecheck
        case Checked => UpTake
        case Idle => UpCheck
        case Failed => UpGive
        case Ending => UpEnd
        case BackAsked => BackSet
        case _ => UpAnnounced
      };
      TowardsWriting(s, e);
      StepKeeps(s, OnWeb(e));
      hide Inv, Exposed, Uploading, CanUpload;
      var rest := ExposedReturn(Step(s, OnWeb(e)));
      Prepend(s, OnWeb(e), rest);
      run := [OnWeb(e)] + rest;
    }
  }

  lemma TowardsWriting(s: State, e: UploadStep)
    requires s.pc.Returned? && Inv(s) && Exposed(s) && !s.web.Writing?
    requires e == match s.web {
      case Begun => UpPhase
      case Holding => UpRecheck
      case Checked => UpTake
      case Idle => UpCheck
      case Failed => UpGive
      case Ending => UpEnd
      case BackAsked => BackSet
      case _ => UpAnnounced
    }
    ensures CanUpload(s, e)
    ensures var t := Uploading(s, e); t.pc == s.pc && Exposed(t) && Rank(t.web) < Rank(s.web)
  {
  }

  lemma Prepend(s: State, e: Event, rest: seq<Event>)
    requires Enabled(s, e) && CanRun(Step(s, e), rest)
    ensures CanRun(s, [e] + rest) && Afterwards(s, [e] + rest) == Afterwards(Step(s, e), rest)
  {
    assert ([e] + rest)[1..] == rest;
  }

  lemma SpoilIt(s: State) returns (run: seq<Event>)
    requires s.pc.Returned? && s.web.Writing?
    ensures Spoils(s, run)
  {
    var a := Step(s, OnWeb(UpWrite(true)));
    var b := Step(a, OnWeb(UpFail(Empty)));
    var c := Step(b, OnWeb(UpGive));
    var d := Step(c, OnWeb(UpEnd));
    Prepend(d, InLeave(Restart), []);
    Prepend(c, OnWeb(UpEnd), [InLeave(Restart)]);
    run := [OnWeb(UpEnd)] + [InLeave(Restart)];
    Prepend(b, OnWeb(UpGive), run);
    run := [OnWeb(UpGive)] + run;
    Prepend(a, OnWeb(UpFail(Empty)), run);
    run := [OnWeb(UpFail(Empty))] + run;
    Prepend(s, OnWeb(UpWrite(true)), run);
    run := [OnWeb(UpWrite(true))] + run;
  }

  predicate Spoils(s: State, run: seq<Event>) {
    CanRun(s, run) && Afterwards(s, run).pc.Restarted? && Afterwards(s, run).slot.Empty?
  }

  ghost predicate CanBeSpoiled(s: State) {
    exists run :: Spoils(s, run)
  }

  /** Every restart from there boots the very content that was validated. */
  ghost predicate BootsValidated(s: State) {
    forall run :: CanRun(s, run) && Afterwards(s, run).pc.Restarted? ==> Validated(Afterwards(s, run))
  }

  predicate Validated(t: State)
    requires t.pc.Restarted?
  {
    t.pc.v == t.ver && MayBoot(t)
  }

  /** When returnToApp has just validated the slot, its restart can end in a blank slot exactly if
      an upload is past its check or may still pass it; else it boots what was validated. */
  lemma ReturnSpoiledIff(s: State)
    requires Reachable(s) && s.pc.Returned? && s.pc.v == s.ver && MayBoot(s)
    ensures CanBeSpoiled(s) <==> Exposed(s)
    ensures BootsValidated(s) <==> !Exposed(s)
  {
    ReachableIsGood(s);
    if Exposed(s) {
      var run := ExposedReturn(s);
      assert !Validated(Afterwards(s, run));
    } else {
      forall run | CanRun(s, run)
        ensures !Spoils(s, run)
        ensures Afterwards(s, run).pc.Restarted? ==> Validated(Afterwards(s, run))
      {
        CoveredReturn(s, run);
      }
    }
  }

  lemma ReachStep(s: State, e: Event) returns (t: State)
    requires Reachable(s) && Enabled(s, e)
    ensures t == Step(s, e) && Reachable(t)
  {
    t := Step(s, e);
    Prepend(s, e, []);
    ReachOn(s, [e] + []);
  }

  lemma StartIsReachable(boots: bool, appValid: bool)
    ensures Reachable(Start(boots, appValid))
  {
    assert CanRun(Start(boots, appValid), []);
  }

  /** The page's "back" while an upload has just passed its check: the restart can end in a blank slot. */
  lemma BackDuringAnUpload() returns (s: State)
    ensures Reachable(s) && s.pc.Returned? && s.pc.v == s.ver && CanBeSpoiled(s)
  {
    StartIsReachable(true, true);
    s := Start(true, true);
    hide Reachable, CanBeSpoiled;
    s := ReachStep(s, OnWeb(BackCheck));
    s := ReachStep(s, OnWeb(BackSet));
    s := ReachStep(s, OnWeb(UpCheck));
    s := ReachStep(s, InServe(EnterServe));
    s := ReachStep(s, InServe(ServeTop));
    s := ReachStep(s, InServe(ServeWait));
    s := ReachStep(s, InServe(ServeClear));
    s := ReachStep(s, InServe(ServeAct));
    s := ReachStep(s, InLeave(ReturnOr(true)));
    assert Exposed(s);
    ReturnSpoiledIff(s);
  }

  // ---- what a restart boots

  /** In the run returnToApp validates the slot while an upload may still write to it. */
  predicate ReturnsExposed(s: State, run: seq<Event>)
    requires CanRun(s, run)
    decreases run
  {
    && run != []
    && ((run[0] == InLeave(ReturnOr(true)) && Exposed(Step(s, run[0]))) || ReturnsExposed(Step(s, run[0]), run[1..]))
  }

  predicate OnCourse(s: State) {
    && (s.pc.Returned? ==> s.pc.v == s.ver && MayBoot(s) && !Exposed(s))
    && (s.pc.Restarted? ==> Validated(s))
  }

  lemma StaysOnCourse(s: State, e: Event)
    requires Inv(s) && OnCourse(s) && Enabled(s, e)
    requires e == InLeave(ReturnOr(true)) ==> !Exposed(Step(s, e))
    ensures OnCourse(Step(s, e)) && Step(s, e).boots == s.boots
  {
    hide Inv, OnCourse, Serving, Leaving, PullingOn, Uploading, CanServe, CanLeave, CanPull, CanUpload;
    match e
    case InServe(p) => ServeOnCourse(s, p);
    case InLeave(p) => LeaveOnCourse(s, p);
    case InPull(p) => PullOnCourse(s, p);
    case OnWeb(p) => UploadOnCourse(s, p);
  }

  lemma ServeOnCourse(s: State, e: ServeStep)
    requires CanServe(s, e)
    ensures OnCourse(Serving(s, e)) && Serving(s, e).boots == s.boots
  {
  }

  lemma LeaveOnCourse(s: State, e: LeaveStep)
    requires Inv(s) && OnCourse(s) && CanLeave(s, e) && (e == ReturnOr(true) ==> !Exposed(Leaving(s, e)))
    ensures OnCourse(Leaving(s, e)) && Leaving(s, e).boots == s.boots
  {
    if !e.Restart? {
      hide Inv;
    }
  }

  lemma PullOnCourse(s: State, e: PullStep)
    requires CanPull(s, e)
    ensures OnCourse(PullingOn(s, e)) && PullingOn(s, e).boots == s.boots
  {
  }

  lemma UploadOnCourse(s: State, e: UploadStep)
    requires Inv(s) && OnCourse(s) && !s.pc.Restarted? && CanUpload(s, e)
    ensures OnCourse(Uploading(s, e)) && Uploading(s, e).boots == s.boots
  {
    if s.pc.Returned? {
      CoveredStays(s, e);
    }
    hide Inv, Exposed;
  }

  lemma {:induction false} RunStaysOnCourse(s: State, run: seq<Event>)
    requires Inv(s) && OnCourse(s) && CanRun(s, run) && !ReturnsExposed(s, run)
    ensures var t := Afterwards(s, run); Inv(t) && OnCourse(t) && t.boots == s.boots
    decreases run
  {
    if run != [] {
      StepKeeps(s, run[0]);
      StaysOnCourse(s, run[0]);
      hide Inv, Step, Enabled, OnCourse, Exposed;
      RunStaysOnCourse(Step(s, run[0]), run[1..]);
    }
  }

  /** Unless returnToApp validated the slot while an upload could still write to it, a restart boots what was
      validated last: the slot's first content if it was never written, else a whole checked image. */
  lemma NothingElseBoots(boots: bool, appValid: bool, run: seq<Event>)
    requires CanRun(Start(boots, appValid), run) && !ReturnsExposed(Start(boots, appValid), run)
    ensures var t := Afterwards(Start(boots, appValid), run);
      t.pc.Restarted? ==> t.pc.v == t.ver && if t.ver == 0 then t.slot.AsWas? && boots else t.slot.Image?
  {
    RunStaysOnCourse(Start(boots, appValid), run);
  }

  ghost predicate EndsInImage(s: State) {
    forall run :: CanRun(s, run) && Afterwards(s, run).pc.Restarted? ==>
      Afterwards(s, run).slot.Image? && Afterwards(s, run).pc.v == Afterwards(s, run).ver
  }

  /** Once the slot was written to, a validation by returnToApp ends in the whole checked image that it saw
      exactly when it was not exposed; one by activate() always does. */
  lemma NoWayBackIff(s: State, e: LeaveStep)
    requires Reachable(s) && s.ver > 0 && CanLeave(s, e) && (e == ReturnOr(true) || e == ActivateOr(true))
    ensures EndsInImage(Leaving(s, e)) <==> e.ActivateOr? || !Exposed(Leaving(s, e))
  {
    var t := ReachStep(s, InLeave(e));
    ReachableIsGood(s);
    ReachableIsGood(t);
    if e.ActivateOr? {
      forall run | CanRun(t, run) && Afterwards(t, run).pc.Restarted?
        ensures Afterwards(t, run).slot.Image? && Afterwards(t, run).pc.v == Afterwards(t, run).ver
      {
        ActivatedStays(t, run);
        RunKeeps(t, run);
      }
    } else {
      ReturnSpoiledIff(t);
      if Exposed(t) {
        var run :| Spoils(t, run);
        assert !Afterwards(t, run).slot.Image?;
      } else {
        assert BootsValidated(t);
        forall run | CanRun(t, run) && Afterwards(t, run).pc.Restarted?
          ensures Afterwards(t, run).slot.Image? && Afterwards(t, run).pc.v == Afterwards(t, run).ver
        {
          assert Validated(Afterwards(t, run));
          CoveredReturn(t, run);
        }
      }
    }
  }

  lemma {:induction false} ActivatedStays(s: State, run: seq<Event>)
    requires (s.pc.Activated? || (s.pc.Restarted? && !s.pc.byReturn)) && CanRun(s, run)
    ensures var t := Afterwards(s, run); t.pc.Activated? || (t.pc.Restarted? && !t.pc.byReturn)
    decreases run
  {
    if run != [] {
      ActivatedStays(Step(s, run[0]), run[1..]);
    }
  }

  // ---- what the page is told of the app

  /** A writer that touched the slot, or may have, and has not yet said what became of it. */
  predicate StillAtIt(s: State) {
    (s.pc.Pulling? && s.pc.touched) || s.pc.PullIn? || (s.web.Writing? && s.web.touched) || s.web.Whole?
  }

  /** The old app counts as valid only over the slot as it was, but for a writer that is still at it. */
  predicate AppTrue(s: State) {
    s.appValid && !s.slot.AsWas? ==> StillAtIt(s)
  }

  lemma StepKeepsApp(s: State, e: Event)
    requires Inv(s) && AppTrue(s) && Enabled(s, e)
    ensures AppTrue(Step(s, e)) && (Step(s, e).appValid ==> s.appValid)
  {
    hide AppTrue, Serving, Leaving, PullingOn, Uploading, CanServe, CanLeave, CanPull, CanUpload, Inv;
    match e
    case InServe(p) => ServeKeepsApp(s, p);
    case InLeave(p) => LeaveKeepsApp(s, p);
    case InPull(p) => PullKeepsApp(s, p);
    case OnWeb(p) => UploadKeepsApp(s, p);
  }

  lemma ServeKeepsApp(s: State, e: ServeStep)
    requires AppTrue(s) && CanServe(s, e)
    ensures AppTrue(Serving(s, e)) && (Serving(s, e).appValid ==> s.appValid)
  {
  }

  lemma LeaveKeepsApp(s: State, e: LeaveStep)
    requires AppTrue(s) && CanLeave(s, e)
    ensures AppTrue(Leaving(s, e)) && (Leaving(s, e).appValid ==> s.appValid)
  {
  }

  lemma PullKeepsApp(s: State, e: PullStep)
    requires AppTrue(s) && Inv(s) && CanPull(s, e)
    ensures AppTrue(PullingOn(s, e)) && (PullingOn(s, e).appValid ==> s.appValid)
  {
  }

  lemma UploadKeepsApp(s: State, e: UploadStep)
    requires AppTrue(s) && Inv(s) && CanUpload(s, e)
    ensures AppTrue(Uploading(s, e)) && (Uploading(s, e).appValid ==> s.appValid)
  {
  }

  lemma {:induction false} RunKeepsApp(s: State, run: seq<Event>)
    requires Inv(s) && AppTrue(s) && CanRun(s, run)
    ensures AppTrue(Afterwards(s, run)) && (Afterwards(s, run).appValid ==> s.appValid)
    decreases run
  {
    if run != [] {
      StepKeeps(s, run[0]);
      StepKeepsApp(s, run[0]);
      hide Inv, AppTrue, Step, Enabled;
      RunKeepsApp(Step(s, run[0]), run[1..]);
    }
  }

  /** Over every run: where "back" is accepted, or the session goes to the app for want of a network, the slot is as it
      was, unless a writer that touched it is still at it. */
  lemma NoBackOverALeftSlot(boots: bool, appValid: bool, run: seq<Event>)
    requires CanRun(Start(boots, appValid), run)
    ensures var s := Afterwards(Start(boots, appValid), run);
      CanUpload(s, BackCheck) || CanLeave(s, ReadApp) ==> appValid && (s.slot.AsWas? || StillAtIt(s))
  {
    RunKeepsApp(Start(boots, appValid), run);
  }

  /** What the bootloader refused is never offered again. */
  lemma RefusedIsNotOffered(s: State, e: LeaveStep, run: seq<Event>)
    requires Reachable(s) && CanLeave(s, e) && (e == ActivateOr(false) || e == ReturnOr(false))
    requires CanRun(Leaving(s, e), run)
    ensures var t := Afterwards(Leaving(s, e), run); !CanUpload(t, BackCheck) && !CanLeave(t, ReadApp)
  {
    hide *;
    LeaveIsStep(s, e);
    var t := ReachStep(s, InLeave(e));
    ReachableIsGood(t);
    RefusedClears(s, e);
    NotValid(t);
    RunKeepsApp(t, run);
    NotValid(Afterwards(t, run));
  }

  lemma LeaveIsStep(s: State, e: LeaveStep)
    requires CanLeave(s, e)
    ensures Enabled(s, InLeave(e)) && Step(s, InLeave(e)) == Leaving(s, e)
  {
    hide CanLeave, Leaving;
  }

  lemma RefusedClears(s: State, e: LeaveStep)
    requires CanLeave(s, e) && (e == ActivateOr(false) || e == ReturnOr(false))
    ensures !Leaving(s, e).appValid
  {
  }

  lemma NotValid(s: State)
    ensures !s.appValid ==> AppTrue(s) && !CanUpload(s, BackCheck) && !CanLeave(s, ReadApp)
  {
  }

  /** An image that is in and noted, or a "back" that is, gets the session to validate the slot: by serve's own steps
      alone, the image first. */
  lemma NotedIsActedOn(s: State) returns (t: State)
    requires Reachable(s) && s.pc.Serve? && (s.bits.done || s.bits.back)
    ensures Reachable(t) && t == s.(pc := t.pc, bits := NONE, activating := true)
    ensures if s.bits.done then t.pc == Activate(ToServe(s.bits.back, false)) else t.pc.Return?
  {
    hide Reachable;
    t := ReachStep(s, InServe(ServeTop));
    t := ReachStep(t, InServe(ServeWait));
    t := ReachStep(t, InServe(ServeClear));
    t := ReachStep(t, InServe(ServeAct));
  }

  /** An image that did not boot gives way to the "back" that came with it, else serve goes on. */
  lemma RefusedGoesOn(s: State)
    requires s.pc.Activate? && s.pc.next.ToServe?
    ensures var t := Leaving(s, ActivateOr(false));
      !t.imageIn && if s.pc.next.back then t.pc.Return? else t.pc == Serve(s.pc.next.uploading)
  {
  }

  /** The phase: a validation is entered with it set, unless right after one that was refused; a writer that sets out
      takes it, and so does serve when it waits for nothing of an upload. */
  lemma PhaseTells(s: State, e: Event)
    requires Enabled(s, e)
    ensures var t := Step(s, e);
      && ((t.pc.Activate? || t.pc.Return?) && !s.pc.Activate? && !s.pc.Return? ==> t.activating)
      && ((t.web.Writing? && !s.web.Writing?) || (t.pc.Pulling? && !s.pc.Pulling?) ==> !t.activating)
      && (t.pc.Waiting? && !s.pc.Waiting? ==> t.activating == (s.activating && t.pc.uploading))
  {
    hide Serving, Leaving, PullingOn, Uploading, CanServe, CanLeave, CanPull, CanUpload;
    match e
    case InServe(p) => ServePhase(s, p);
    case InLeave(p) => LeavePhase(s, p);
    case InPull(p) => PullPhase(s, p);
    case OnWeb(p) => UploadPhase(s, p);
  }

  lemma ServePhase(s: State, e: ServeStep)
    requires CanServe(s, e)
    ensures var t := Serving(s, e);
      && (t.pc.Activate? || t.pc.Return? ==> t.activating) && t.web == s.web && !t.pc.Pulling?
      && (t.pc.Waiting? && !s.pc.Waiting? ==> t.activating == (s.activating && t.pc.uploading))
  {
  }

  lemma LeavePhase(s: State, e: LeaveStep)
    requires CanLeave(s, e)
    ensures var t := Leaving(s, e);
      && (t.pc.Activate? || t.pc.Return? ==> t.activating || s.pc.Activate?)
      && t.web == s.web && !t.pc.Pulling? && !t.pc.Waiting?
  {
  }

  lemma PullPhase(s: State, e: PullStep)
    requires CanPull(s, e)
    ensures var t := PullingOn(s, e);
      && (t.pc.Activate? || t.pc.Return? ==> t.activating)
      && t.web == s.web && (t.pc.Pulling? && !s.pc.Pulling? ==> !t.activating) && !t.pc.Waiting?
  {
  }

  lemma UploadPhase(s: State, e: UploadStep)
    requires CanUpload(s, e)
    ensures var t := Uploading(s, e);
      t.pc == s.pc && (t.web.Writing? && !s.web.Writing? ==> !t.activating)
  {
  }

  /** An upload is turned away at once where an image is in or being activated, where a writer is at it, and where an
      image came in meanwhile. */
  lemma UploadTurnedAway(s: State)
    ensures s.imageIn || s.activating ==> !CanUpload(s, UpCheck)
    ensures s.web.Checked? && !s.writer.Free? ==> Uploading(s, UpTake) == s.(web := Idle)
    ensures s.web.Checked? && s.writer.Free? ==> Uploading(s, UpTake).web.Holding?
    ensures s.web.Holding? && s.imageIn ==> Uploading(s, UpRecheck) == s.(web := Idle, writer := Free)
    ensures s.web.Holding? && !s.imageIn ==> Uploading(s, UpRecheck).web.Begun? && Uploading(s, UpRecheck).bits.start
  {
  }

  // ---- the clock that an upload holds

  predicate HoldsClock(pc: SessionPc) {
    match pc
    case Serve(uploading) => uploading
    case Waiting(uploading) => uploading
    case Got(_, uploading) => uploading
    case Handle(b, uploading) => (uploading || b.start) && !b.end && !b.done
    case Activate(next) => next.ToServe? && next.uploading
    case Return(next) => next.ToServe? && next.uploading
    case _ => false
  }

  /** An upload that has set its start bit and will still set its end or its done bit. */
  predicate UnderWay(web: WebPc) {
    web.Begun? || web.Writing? || web.Failed? || web.Ending? || web.Whole? || web.Renounced? || web.Announcing?
  }

  predicate Timed(s: State) {
    && (HoldsClock(s.pc) || s.bits.start ==> UnderWay(s.web) || s.bits.end || s.bits.done)
    && (s.pc.Activate? && s.pc.next.ToServe? ==> !s.pc.next.uploading)
    && (s.pc.Got? ==> Minus(s.pc.b, s.bits) == NONE)
    && (s.pc.Got? && s.bits.start && !s.pc.b.start ==>
          UnderWay(s.web) || (s.bits.done && !s.pc.b.done) || (s.bits.end && !s.pc.b.end))
  }

  /** An end is set where serve has just read an earlier one: it will be cleared with it, while the start
      bit that came after the reading stays. */
  predicate EndIsLost(s: State, e: Event) {
    s.pc.Got? && s.pc.b.end && !s.pc.b.start && s.bits.start && e == OnWeb(UpEnd)
  }

  predicate Orderly(s: State, run: seq<Event>)
    requires CanRun(s, run)
    decreases run
  {
    run == [] || (!EndIsLost(s, run[0]) && Orderly(Step(s, run[0]), run[1..]))
  }

  lemma ServeKeepsTime(s: State, e: ServeStep)
    requires Inv(s) && Timed(s) && CanServe(s, e)
    ensures Timed(Serving(s, e))
  {
  }

  lemma UploadKeepsTime(s: State, e: UploadStep)
    requires Inv(s) && Timed(s) && CanUpload(s, e) && !EndIsLost(s, OnWeb(e))
    ensures Timed(Uploading(s, e))
  {
  }

  lemma LeaveKeepsTime(s: State, e: LeaveStep)
    requires Inv(s) && Timed(s) && CanLeave(s, e)
    ensures Timed(Leaving(s, e))
  {
  }

  lemma PullKeepsTime(s: State, e: PullStep)
    requires Inv(s) && Timed(s) && CanPull(s, e)
    ensures Timed(PullingOn(s, e))
  {
  }

  lemma StepKeepsTime(s: State, e: Event)
    requires Inv(s) && Timed(s) && Enabled(s, e) && !EndIsLost(s, e)
    ensures Timed(Step(s, e))
  {
    hide Inv, Timed, Serving, Leaving, PullingOn, Uploading, CanServe, CanLeave, CanPull, CanUpload;
    match e
    case InServe(p) => ServeKeepsTime(s, p);
    case InLeave(p) => LeaveKeepsTime(s, p);
    case InPull(p) => PullKeepsTime(s, p);
    case OnWeb(p) => UploadKeepsTime(s, p);
  }

  lemma {:induction false} OrderlyKeepsTime(s: State, run: seq<Event>)
    requires Inv(s) && Timed(s) && CanRun(s, run) && Orderly(s, run)
    ensures Timed(Afterwards(s, run)) && Inv(Afterwards(s, run))
    decreases run
  {
    if run != [] {
      StepKeeps(s, run[0]);
      StepKeepsTime(s, run[0]);
      hide Inv, Timed, Step, Enabled, EndIsLost;
      OrderlyKeepsTime(Step(s, run[0]), run[1..]);
    }
  }

  /** serve waits without a time limit, no event on the way and no upload to bring one. */
  predicate Stuck(s: State) {
    s.pc == Waiting(true) && s.bits == NONE && !UnderWay(s.web)
  }

  /** As long as no end is lost, an upload that holds the clock is under way, or its end is already noted:
      serve never waits for nothing. */
  lemma NeverStuck(boots: bool, appValid: bool, run: seq<Event>)
    requires CanRun(Start(boots, appValid), run) && Orderly(Start(boots, appValid), run)
    ensures !Stuck(Afterwards(Start(boots, appValid), run))
  {
    OrderlyKeepsTime(Start(boots, appValid), run);
  }

  /** The run gets stuck, and loses no end on the way. */
  predicate Sticks(s: State, run: seq<Event>) {
    CanRun(s, run) && Orderly(s, run) && Stuck(Afterwards(s, run))
  }

  ghost predicate GetsStuck(s: State) {
    exists run :: Sticks(s, run)
  }

  ghost predicate ReachableInOrder(s: State) {
    exists boots, appValid, run ::
      CanRun(Start(boots, appValid), run) && Orderly(Start(boots, appValid), run) &&
      s == Afterwards(Start(boots, appValid), run)
  }

  /** The exact step: where no end was lost so far, serve can come to wait for nothing after an event, with no
      further end lost, just when that event loses one. */
  lemma StuckIff(s: State, e: Event)
    requires ReachableInOrder(s) && Enabled(s, e)
    ensures GetsStuck(Step(s, e)) <==> EndIsLost(s, e)
  {
    InOrderIsTimed(s);
    StepKeeps(s, e);
    if EndIsLost(s, e) {
      LostAtClear(Step(s, e));
    } else {
      StepKeepsTime(s, e);
      TimedNeverSticks(Step(s, e));
    }
  }

  lemma InOrderIsTimed(s: State)
    requires ReachableInOrder(s)
    ensures Inv(s) && Timed(s)
  {
    var boots, appValid, run :|
      CanRun(Start(boots, appValid), run) && Orderly(Start(boots, appValid), run) &&
      s == Afterwards(Start(boots, appValid), run);
    OrderlyKeepsTime(Start(boots, appValid), run);
  }

  lemma TimedNeverSticks(s: State)
    requires Inv(s) && Timed(s)
    ensures !GetsStuck(s)
  {
    if run :| Sticks(s, run) {
      OrderlyKeepsTime(s, run);
      assert false;
    }
  }

  lemma SticksBefore(s: State, e: Event)
    requires Enabled(s, e) && !EndIsLost(s, e) && GetsStuck(Step(s, e))
    ensures GetsStuck(s)
  {
    var rest :| Sticks(Step(s, e), rest);
    Prepend(s, e, rest);
    assert ([e] + rest)[1..] == rest;
    assert Sticks(s, [e] + rest);
  }

  // The way to the wait: the lost end's bit is cleared, then serve acts on a start that is over.

  lemma LostAtClear(s: State)
    requires s.pc.Got? && s.pc.b.end && !s.pc.b.start && !s.pc.b.done && s.web.Idle? && s.bits.start && !s.bits.done
    ensures GetsStuck(s)
  {
    var t := Step(s, InServe(ServeClear));
    LostAtAct(t);
    SticksBefore(s, InServe(ServeClear));
  }

  lemma LostAtAct(s: State)
    requires s.pc.Handle? && !s.pc.b.done && s.web.Idle? && s.bits.start && !s.bits.end && !s.bits.done
    ensures GetsStuck(s)
  {
    var t := Step(s, InServe(ServeAct));
    if t.pc.Return? {
      StartedAtTop(Step(t, InLeave(ReturnOr(false))));
      SticksBefore(t, InLeave(ReturnOr(false)));
    } else {
      StartedAtTop(t);
    }
    SticksBefore(s, InServe(ServeAct));
  }

  lemma StartedAtTop(s: State)
    requires s.pc.Serve? && s.web.Idle? && s.bits.start && !s.bits.end && !s.bits.done
    ensures GetsStuck(s)
  {
    var t := Step(s, InServe(ServeTop));
    var u := Step(t, InServe(ServeWait));
    StartedAtAct(Step(u, InServe(ServeClear)));
    SticksBefore(u, InServe(ServeClear));
    SticksBefore(t, InServe(ServeWait));
    SticksBefore(s, InServe(ServeTop));
  }

  lemma StartedAtAct(s: State)
    requires s.pc.Handle? && s.pc.b.start && !s.pc.b.end && !s.pc.b.done && s.web.Idle? && s.bits == NONE
    ensures GetsStuck(s)
  {
    var t := Step(s, InServe(ServeAct));
    if t.pc.Return? {
      OverAtTop(Step(t, InLeave(ReturnOr(false))));
      SticksBefore(t, InLeave(ReturnOr(false)));
    } else {
      OverAtTop(t);
    }
    SticksBefore(s, InServe(ServeAct));
  }

  lemma OverAtTop(s: State)
    requires s.pc == Serve(true) && s.web.Idle? && s.bits == NONE
    ensures GetsStuck(s)
  {
    assert Sticks(Step(s, InServe(ServeTop)), []);
    SticksBefore(s, InServe(ServeTop));
  }

  /** One that begins and ends just there makes serve wait for nothing: its end bit is cleared unseen,
      its start bit is not. */
  lemma CanGetStuck() returns (s: State)
    ensures Reachable(s) && Stuck(s) && s.web.Idle? && s.writer.Free?
  {
    StartIsReachable(true, true);
    s := Start(true, true);
    hide Reachable;
    s := ReachStep(s, InServe(EnterServe));
    s := ReachStep(s, InServe(ServeTop));
    s := UploadBegins(s);
    s := ServesOnce(s);
    s := UploadFails(s);
    s := ReachStep(s, InServe(ServeWait));
    s := UploadBegins(s);
    s := UploadFails(s);
    s := ReachStep(s, InServe(ServeClear));
    s := ReachStep(s, InServe(ServeAct));
    s := ReachStep(s, InServe(ServeTop));
    s := ServesOnce(s);
  }

  lemma UploadBegins(s: State) returns (t: State)
    requires Reachable(s) && s.web.Idle? && s.writer.Free? && !s.imageIn && !s.activating && !s.pc.Restarted?
    ensures Reachable(t) && t == s.(bits := s.bits.(start := true), web := Writing(false), writer := ByWeb)
  {
    hide Reachable;
    t := ReachStep(s, OnWeb(UpCheck));
    t := ReachStep(t, OnWeb(UpTake));
    t := ReachStep(t, OnWeb(UpRecheck));
    t := ReachStep(t, OnWeb(UpPhase));
  }

  lemma UploadFails(s: State) returns (t: State)
    requires Reachable(s) && s.web == Writing(false) && !s.pc.Restarted?
    ensures Reachable(t) && t == s.(bits := s.bits.(end := true), web := Idle, writer := Free)
  {
    hide Reachable;
    t := ReachStep(s, OnWeb(UpFail(Empty)));
    t := ReachStep(t, OnWeb(UpGive));
    t := ReachStep(t, OnWeb(UpEnd));
  }

  lemma ServesOnce(s: State) returns (t: State)
    requires Reachable(s) && s.pc == Waiting(false) && !s.activating && s.bits == NONE.(start := true)
    ensures Reachable(t) && t == s.(bits := NONE, pc := Waiting(true))
  {
    hide Reachable;
    t := ReachStep(s, InServe(ServeWait));
    t := ReachStep(t, InServe(ServeClear));
    t := ReachStep(t, InServe(ServeAct));
    t := ReachStep(t, InServe(ServeTop));
  }

  // ---- that it all can come to its end

  /** A download that succeeds is booted. */
  lemma PullIsBooted(boots: bool, appValid: bool) returns (s: State)
    ensures Reachable(s) && s.pc.Restarted? && !s.pc.byReturn && s.slot.Image? && s.imageIn && s.writer.Free?
  {
    StartIsReachable(boots, appValid);
    s := Start(boots, appValid);
    hide Reachable;
    s := ReachStep(s, InPull(PullTake));
    s := ReachStep(s, InPull(PullLook));
    s := ReachStep(s, InPull(PullWrite(true)));
    s := ReachStep(s, InPull(PullFinish));
    s := ReachStep(s, InPull(PullMark));
    s := ReachStep(s, InPull(PullGive));
    s := ReachStep(s, InPull(PullNext));
    s := ReachStep(s, InLeave(ActivateOr(true)));
    s := ReachStep(s, InLeave(Restart));
  }

  /** One that fails gives the writer back, and serve goes on; an upload that then succeeds is booted. */
  lemma UploadIsBooted(boots: bool, appValid: bool) returns (s: State)
    ensures Reachable(s) && s.pc.Restarted? && !s.pc.byReturn && s.slot.Image? && s.imageIn && s.writer.Free?
  {
    s := ServesAfterAFailure(boots, appValid);
    hide Reachable;
    s := UploadBegins(s);
    s := ServesOnce(s);
    s := ReachStep(s, OnWeb(UpWrite(true)));
    s := ReachStep(s, OnWeb(UpFinish));
    s := ReachStep(s, OnWeb(UpRenounce));
    s := ReachStep(s, OnWeb(UpIn));
    s := ReachStep(s, OnWeb(UpDone));
    s := ReachStep(s, OnWeb(UpAnnounced));
    s := ReachStep(s, InServe(ServeWait));
    s := ReachStep(s, InServe(ServeClear));
    s := ReachStep(s, InServe(ServeAct));
    s := ReachStep(s, InLeave(ActivateOr(true)));
    s := ReachStep(s, InLeave(Restart));
  }

  lemma ServesAfterAFailure(boots: bool, appValid: bool) returns (s: State)
    ensures Reachable(s) && s.pc == Waiting(false) && s.web.Idle? && s.writer.Free? && s.bits == NONE
    ensures !s.imageIn && !s.activating && s.slot.Empty? && !s.appValid
  {
    StartIsReachable(boots, appValid);
    s := Start(boots, appValid);
    hide Reachable;
    s := ReachStep(s, InPull(PullTake));
    s := ReachStep(s, InPull(PullLook));
    s := ReachStep(s, InPull(PullWrite(true)));
    s := ReachStep(s, InPull(PullFail(Empty)));
    s := ReachStep(s, InPull(PullGive));
    s := ReachStep(s, InPull(PullNext));
    s := ReachStep(s, InServe(EnterServe));
    s := ReachStep(s, InServe(ServeTop));
  }

  /** A "back" over the app as it was boots that app. */
  lemma BackBootsTheApp() returns (s: State)
    ensures Reachable(s) && s.pc.Restarted? && s.pc.byReturn && s.slot.AsWas? && s.boots
  {
    StartIsReachable(true, true);
    s := Start(true, true);
    hide Reachable;
    s := ReachStep(s, OnWeb(BackCheck));
    s := ReachStep(s, OnWeb(BackSet));
    s := ReachStep(s, InServe(EnterServe));
    s := NotedIsActedOn(s);
    s := ReachStep(s, InLeave(ReturnOr(true)));
    s := ReachStep(s, InLeave(Restart));
  }

  /** So does the session by itself when it finds no network. */
  lemma NoNetworkBootsTheApp() returns (s: State)
    ensures Reachable(s) && s.pc.Restarted? && s.pc.byReturn && s.slot.AsWas? && s.boots
  {
    StartIsReachable(true, true);
    s := Start(true, true);
    hide Reachable;
    s := ReachStep(s, InServe(EnterServe));
    s := ReachStep(s, InServe(ServeTimeout));
    s := ReachStep(s, InLeave(ReadApp));
    s := ReachStep(s, InLeave(GoBack));
    s := ReachStep(s, InLeave(ReturnOr(true)));
    s := ReachStep(s, InLeave(Restart));
  }

  /** A refused app leaves the session where it was. */
  lemma RefusedReturn(s: State)
    requires s.pc.Return?
    ensures var t := Leaving(s, ReturnOr(false));
      t == s.(appValid := false, pc := t.pc)
      && t.pc == if s.pc.next.ToHub? then Hub else Serve(s.pc.next.uploading)
  {
  }

  /** While an upload holds the clock serve does not time out. */
  lemma NoTimeoutDuringAnUpload(s: State)
    ensures CanServe(s, ServeTimeout) ==> !HoldsClock(s.pc)
  {
  }
}
