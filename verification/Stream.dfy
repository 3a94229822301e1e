/**
 Stream selection, epochs and input routing between the session worker and the presenting widget.

 The worker owns the receivers and is the only writer of the epoch; the widget owns what is on screen.
 Both share the epoch, the frame mailbox and the input queue. A step is one atomic access of either
 thread, so operations that touch shared state more than once take several steps and the other thread
 may act in between: clearing bumps the epoch first and empties the mailbox later, and the widget reads
 the epoch, takes a frame and draws one after another.
 */
module Stream {
  import opened Wrappers
  import opened Mailbox

  /** What a window is called by its host: the client and the surface within it. */
  datatype Application = Application(client: nat, local: nat)

  /** A surface of one receiver's runtime; two receivers may use equal ones. */
  datatype Surface = Surface(source: nat, application: Application)

  /** Where a frame comes from. */
  datatype Origin = Origin(receiver: nat, surface: Surface)

  datatype Frame = Frame(origin: Origin, image: nat, layout: nat, epoch: nat)

  datatype Input = Input(epoch: nat, route: Option<Surface>)

  datatype Receiver = Receiver(
    requested: Option<Application>,
    selected: Option<Surface>,
    waiting: Option<Frame>,
    active: bool)

  const IDLE := Receiver(None, None, None, false)

  /** What follows once the shared state has been cleared. */
  datatype Purpose = Assign(receiver: nat, application: Option<Application>) | Unmap(receiver: nat) | Remove(receiver: nat)

  datatype Worker = Free | Draining(purpose: Purpose) | Finishing(purpose: Purpose)

  datatype Widget = Ready | Loaded(epoch: nat) | Taken | Captured(input: Input)

  /** `displayed` is the stamp and the geometry's surface the widget goes by; `texture` what it holds. */
  datatype Display = Display(stamp: nat, surface: Surface)

  datatype State = State(
    epoch: nat,
    frames: seq<Slot<Frame>>,
    wanted: bool,
    inputs: seq<Input>,
    receivers: map<nat, Receiver>,
    worker: Worker,
    widget: Widget,
    known: nat,
    displayed: Option<Display>,
    texture: Option<Frame>,
    onScreen: Option<Frame>,
    blank: bool)

  const MAX_INPUTS: nat := 128

  /** Twice the interval of a 60 Hz presentation, in nanoseconds, below the ceiling of 34 ms. */
  const FRAME_AGE: nat := 33_333_334

  datatype WorkerStep =
    | Create(receiver: nat)
    | Select(receiver: nat, application: Option<Application>)
    | CommitUnmapped(receiver: nat)
    | Discard(receiver: nat)
    | Drain
    | Finish
    | Role(receiver: nat, surface: Surface)
    | Commit(receiver: nat, image: nat, layout: nat, hold: bool, now: nat)
    | Release(receiver: nat, now: nat)
    | Poll(receiver: nat)
    | Dispatch(receiver: nat)
    | DropInputs

  datatype WidgetStep =
    | Load
    | Take(now: nat)
    | Fail(now: nat)
    | Draw
    | DrawNothing
    | Pause
    | Destroy
    | Replace
    | Prepare
    | Capture(routed: bool)
    | Send

  datatype Step = Work(work: WorkerStep) | Show(show: WidgetStep)

  predicate Requests(s: State, r: nat) {
    r in s.receivers && s.receivers[r].requested.Some?
  }

  /** A role event settles the choice only for the requested window, and only if nothing is chosen yet. */
  predicate Chooses(receiver: Receiver, surface: Surface) {
    receiver.selected.None? && receiver.requested == Some(surface.application)
  }

  /** Input reaches the runtime only if the receiver is active, in the current epoch, for the selected surface. */
  predicate Accepts(s: State, r: nat, input: Input) {
    && r in s.receivers && s.receivers[r].active && input.epoch == s.epoch
    && (input.route.Some? ==> s.receivers[r].selected == input.route)
  }

  // ---------------------------------------------------------------------
  // Steps
  // ---------------------------------------------------------------------

  ghost predicate CanWork(step: WorkerStep, s: State) {
    match step
    case Drain => s.worker.Draining?
    case Finish => s.worker.Finishing?
    case Create(r) => s.worker.Free? && r !in s.receivers
    case Select(r, application) =>
      && s.worker.Free? && r in s.receivers
      && (application.Some? ==> forall other | other in s.receivers && other != r :: !Requests(s, other))
    case CommitUnmapped(r) => s.worker.Free? && r in s.receivers && s.receivers[r].selected.Some?
    case Commit(r, _, _, _, _) => s.worker.Free? && r in s.receivers && s.receivers[r].selected.Some?
    case Release(r, _) => s.worker.Free? && r in s.receivers && s.receivers[r].waiting.Some?
    case Dispatch(r) => s.worker.Free? && r in s.receivers && s.inputs != []
    case DropInputs => s.worker.Free?
    case _ => s.worker.Free? && step.receiver in s.receivers
  }

  predicate CanShow(step: WidgetStep, s: State) {
    match step
    case Take(_) => s.widget.Loaded?
    case Fail(_) => s.widget.Loaded?
    case Draw => s.widget.Taken?
    case Send => s.widget.Captured?
    case Capture(_) => s.widget.Ready? && s.displayed.Some? && s.displayed.value.stamp == s.epoch
    case _ => s.widget.Ready?
  }

  ghost predicate Can(step: Step, s: State) {
    match step
    case Work(work) => CanWork(work, s)
    case Show(show) => CanShow(show, s)
  }

  /** The mailbox keeps only frames alike in epoch, surface and layout. */
  function Published(frames: seq<Slot<Frame>>, frame: Frame, now: nat): seq<Slot<Frame>> {
    if frames == [] then [Slot(now, frame)]
    else
      var last := frames[|frames| - 1].item;
      if last.epoch == frame.epoch && last.layout == frame.layout && last.origin.surface == frame.origin.surface
      then Pushed(frames, true, Slot(now, frame))
      else [Slot(now, frame)]
  }

  function With(s: State, r: nat, receiver: Receiver): State {
    s.(receivers := s.receivers[r := receiver])
  }

  /** `Shared::clear` starts by moving to a new epoch. */
  function Clear(s: State, purpose: Purpose): State {
    s.(epoch := s.epoch + 1, worker := Draining(purpose))
  }

  function Finished(s: State, purpose: Purpose): State {
    match purpose
    case Assign(r, application) =>
      With(s, r, Receiver(application, None, None, if r in s.receivers then s.receivers[r].active else false))
    case Unmap(r) => if r in s.receivers then With(s, r, s.receivers[r].(waiting := None)) else s
    case Remove(r) => s.(receivers := s.receivers - {r})
  }

  function Stamp(s: State, step: WorkerStep): Frame
    requires step.Commit? && step.receiver in s.receivers && s.receivers[step.receiver].selected.Some?
  {
    Frame(Origin(step.receiver, s.receivers[step.receiver].selected.value), step.image, step.layout, s.epoch)
  }

  function DoWork(step: WorkerStep, s: State): State
    requires CanWork(step, s)
  {
    match step
    case Create(r) => With(s, r, IDLE)
    case Select(r, application) => Clear(s, Assign(r, application))
    case CommitUnmapped(r) => Clear(s, Unmap(r))
    case Discard(r) =>
      if s.receivers[r].requested.Some? then Clear(s, Remove(r)) else s.(receivers := s.receivers - {r})
    case Drain => s.(frames := [], worker := Finishing(s.worker.purpose))
    case Finish => Finished(s, s.worker.purpose).(worker := Free)
    case Role(r, surface) =>
      if Chooses(s.receivers[r], surface) then With(s, r, s.receivers[r].(selected := Some(surface))) else s
    case Commit(r, _, _, hold, now) =>
      var frame := Stamp(s, step);
      if hold then With(s, r, s.receivers[r].(waiting := Some(frame)))
      else With(s, r, s.receivers[r].(waiting := None)).(frames := Published(s.frames, frame, now))
    case Release(r, now) =>
      With(s, r, s.receivers[r].(waiting := None))
        .(frames := Published(s.frames, s.receivers[r].waiting.value, now))
    case Poll(r) => With(s, r, s.receivers[r].(active := s.receivers[r].requested.Some? && s.wanted))
    case Dispatch(r) => s.(inputs := s.inputs[1..])
    case DropInputs => s.(inputs := [])
  }

  /** The widget drops what it holds once it notices another epoch. */
  function Noticed(s: State): State {
    if s.known == s.epoch then s else s.(texture := None, displayed := None, known := s.epoch)
  }

  function Taking(s: State, epoch: nat, now: nat): State {
    var selection := Popped(s.frames, Some(FRAME_AGE), now);
    var t := s.(frames := selection.rest);
    if selection.frame.Some? && selection.frame.value.item.epoch == epoch then
      var frame := selection.frame.value.item;
      t.(texture := Some(frame), displayed := Some(Display(epoch, frame.origin.surface)))
    else t
  }

  function DoShow(step: WidgetStep, s: State): State
    requires CanShow(step, s)
  {
    match step
    case Load => Noticed(s).(widget := Loaded(s.epoch))
    case Take(now) => Taking(s, s.widget.epoch, now).(widget := Taken)
    case Fail(now) =>
      s.(frames := Popped(s.frames, Some(FRAME_AGE), now).rest, texture := None, displayed := None,
         wanted := false, onScreen := None, widget := Ready)
    case Draw => s.(onScreen := if s.displayed.Some? then s.texture else None, blank := false, widget := Ready)
    case DrawNothing => s.(onScreen := None, blank := true)
    case Pause => s.(displayed := None, wanted := false)
    case Destroy => s.(displayed := None, texture := None, wanted := false)
    case Replace => s.(known := 0, displayed := None, texture := None, wanted := false)
    case Prepare => s.(wanted := true)
    case Capture(routed) =>
      s.(widget := Captured(Input(s.epoch, if routed then Some(s.displayed.value.surface) else None)))
    case Send =>
      s.(inputs := if |s.inputs| < MAX_INPUTS then s.inputs + [s.widget.input] else s.inputs, widget := Ready)
  }

  function Apply(step: Step, s: State): State
    requires Can(step, s)
  {
    match step
    case Work(work) => DoWork(work, s)
    case Show(show) => DoShow(show, s)
  }

  predicate Init(s: State) {
    s == State(0, [], false, [], map[], Free, Ready, 0, None, None, None, false)
  }

  ghost predicate Next(s: State, step: Step, t: State) {
    Can(step, s) && t == Apply(step, s)
  }

  ghost predicate Legal(states: seq<State>, steps: seq<Step>) {
    && |states| == |steps| + 1
    && Init(states[0])
    && forall i {:trigger steps[i]} :: 0 <= i < |steps| ==> Next(states[i], steps[i], states[i + 1])
  }

  // ---------------------------------------------------------------------
  // One epoch, one surface
  // ---------------------------------------------------------------------

  /** The one surface whose frames may carry the present epoch. */
  predicate Selected(s: State, origin: Origin) {
    && s.worker.Free? && Requests(s, origin.receiver)
    && s.receivers[origin.receiver].selected == Some(origin.surface)
  }

  /** A frame of the present epoch shows the selected surface. */
  predicate Sound(s: State, frame: Frame) {
    frame.epoch < s.epoch || (frame.epoch == s.epoch && Selected(s, frame.origin))
  }

  /** At most one receiver has a request, also once a pending selection is carried out. */
  ghost predicate OneRequest(s: State) {
    && (forall a, b | Requests(s, a) && Requests(s, b) :: a == b)
    && (!s.worker.Free? && s.worker.purpose.Assign? && s.worker.purpose.application.Some? ==>
          forall other | Requests(s, other) :: other == s.worker.purpose.receiver)
  }

  ghost predicate SoundReceiver(s: State, r: nat)
    requires r in s.receivers
  {
    var receiver := s.receivers[r];
    && (receiver.selected.Some? ==> receiver.requested == Some(receiver.selected.value.application))
    && (receiver.waiting.Some? ==>
          && receiver.waiting.value.origin.receiver == r && receiver.selected == Some(receiver.waiting.value.origin.surface)
          && receiver.waiting.value.epoch <= s.epoch)
  }

  ghost predicate SoundFrames(s: State) {
    && |s.frames| <= 2
    && forall i :: 0 <= i < |s.frames| ==> Sound(s, s.frames[i].item)
  }

  /** What the widget holds is a frame of the stamp it goes by, and comes from the surface it names. */
  ghost predicate SoundDisplay(s: State) {
    && (s.displayed.Some? ==>
          && s.texture.Some? && s.texture.value.epoch == s.displayed.value.stamp == s.known
          && s.texture.value.origin.surface == s.displayed.value.surface)
    && (s.texture.Some? ==> Sound(s, s.texture.value))
    && (s.widget.Loaded? ==> s.widget.epoch == s.known)
    && (s.displayed.Some? && !s.blank && (s.widget.Ready? || s.widget.Captured?) ==> s.onScreen == s.texture)
    && (s.blank ==> s.onScreen.None?)
    && s.known <= s.epoch
  }

  ghost predicate Inv(s: State) {
    && OneRequest(s) && SoundFrames(s) && SoundDisplay(s)
    && forall r :: r in s.receivers ==> SoundReceiver(s, r)
  }

  /** Changing a receiver but not what it requests or has selected keeps the selection. */
  lemma KeepsSelection(s: State, r: nat, receiver: Receiver, origin: Origin)
    requires Selected(s, origin) && r in s.receivers
    requires receiver.requested == s.receivers[r].requested && receiver.selected == s.receivers[r].selected
    ensures Selected(With(s, r, receiver), origin)
  {
  }

  lemma WorkKeepsSelection(s: State, step: WorkerStep, origin: Origin)
    requires Selected(s, origin) && CanWork(step, s)
    ensures DoWork(step, s).epoch == s.epoch ==> Selected(DoWork(step, s), origin)
  {
    match step
    case Commit(r, _, _, hold, _) =>
      KeepsSelection(s, r, s.receivers[r].(waiting := if hold then Some(Stamp(s, step)) else None), origin);
    case Release(r, _) => KeepsSelection(s, r, s.receivers[r].(waiting := None), origin);
    case Poll(r) =>
      KeepsSelection(s, r, s.receivers[r].(active := s.receivers[r].requested.Some? && s.wanted), origin);
    case _ =>
  }

  lemma EpochOnlyGrows(s: State, step: Step)
    requires Can(step, s)
    ensures s.epoch <= Apply(step, s).epoch
  {
  }

  /** Whatever frame was sound stays sound, also one that exists no more. */
  lemma StaysSound(s: State, step: Step, frame: Frame)
    requires Can(step, s) && Sound(s, frame)
    ensures Sound(Apply(step, s), frame)
  {
    EpochOnlyGrows(s, step);
    if frame.epoch == s.epoch && step.Work? {
      WorkKeepsSelection(s, step.work, frame.origin);
    }
  }

  lemma StampIsSound(s: State, step: WorkerStep)
    requires Inv(s) && step.Commit? && CanWork(step, s)
    ensures Sound(s, Stamp(s, step))
  {
    assert SoundReceiver(s, step.receiver);
  }

  lemma OneRequestStays(s: State, step: Step)
    requires OneRequest(s) && Can(step, s)
    ensures OneRequest(Apply(step, s))
  {
    if step.Work? && step.work.Finish? {
      var t := Apply(step, s);
      assert forall q :: Requests(t, q) ==> Requests(s, q) || (s.worker.purpose.Assign? && q == s.worker.purpose.receiver);
    } else {
      NothingNewIsRequested(s, step);
      hide Requests;
    }
  }

  /** Only the end of a clearing gives a receiver a request. */
  lemma NothingNewIsRequested(s: State, step: Step)
    requires Can(step, s) && step != Work(Finish)
    ensures forall q :: Requests(Apply(step, s), q) ==> Requests(s, q)
  {
    if step.Work? {
      forall q | q in DoWork(step.work, s).receivers
        ensures DoWork(step.work, s).receivers[q].requested.Some? ==> Requests(s, q)
      {
        ReceiverChange(s, step.work, q);
        hide DoWork;
      }
    }
  }

  /** What a step other than the end of a clearing can do to one receiver. */
  lemma ReceiverChange(s: State, step: WorkerStep, r: nat)
    requires CanWork(step, s) && !step.Finish? && r in DoWork(step, s).receivers
    ensures var receiver := DoWork(step, s).receivers[r];
            receiver == IDLE
            || (&& r in s.receivers && receiver.requested == s.receivers[r].requested
                && (receiver.selected == s.receivers[r].selected
                    || (step == Role(r, receiver.selected.value) && Chooses(s.receivers[r], step.surface)))
                && (receiver.waiting == s.receivers[r].waiting || receiver.waiting.None?
                    || (step.Commit? && step.receiver == r && receiver.waiting == Some(Stamp(s, step))))
                && receiver.active == if step == Poll(r) then receiver.requested.Some? && s.wanted
                                      else s.receivers[r].active)
  {
  }

  lemma FinishKeepsReceivers(s: State, r: nat)
    requires Inv(s) && CanWork(Finish, s) && r in DoWork(Finish, s).receivers
    ensures SoundReceiver(DoWork(Finish, s), r)
  {
    hide OneRequest, SoundFrames, SoundDisplay;
    if r in s.receivers {
      assert SoundReceiver(s, r);
    }
    match s.worker.purpose
    case Assign(q, application) =>
    case _ =>
  }

  lemma ReceiverStaysSound(s: State, step: WorkerStep, r: nat)
    requires Inv(s) && CanWork(step, s) && r in DoWork(step, s).receivers
    ensures SoundReceiver(DoWork(step, s), r)
  {
    if step.Finish? {
      FinishKeepsReceivers(s, r);
    } else {
      ReceiverChange(s, step, r);
      EpochOnlyGrows(s, Work(step));
      hide DoWork;
      if r in s.receivers {
        assert SoundReceiver(s, r);
      }
    }
  }

  /** The frames may follow each other in one queue. */
  predicate Alike(a: Frame, b: Frame) {
    a.epoch == b.epoch && a.layout == b.layout && a.origin.surface == b.origin.surface
  }

  /** A frame is queued behind the newest one before it if they are alike, and else replaces all there was. */
  lemma PublishMeans(frames: seq<Slot<Frame>>, frame: Frame, now: nat)
    requires |frames| <= 2
    ensures var queue := Published(frames, frame, now);
            if frames != [] && Alike(frames[|frames| - 1].item, frame)
            then queue == [frames[|frames| - 1], Slot(now, frame)] else queue == [Slot(now, frame)]
  {
  }

  ghost predicate QueueAlike(frames: seq<Slot<Frame>>) {
    |frames| <= 2 && (|frames| == 2 ==> Alike(frames[0].item, frames[1].item))
  }

  lemma StepKeepsAlike(s: State, step: Step)
    requires Can(step, s) && QueueAlike(s.frames)
    ensures QueueAlike(Apply(step, s).frames)
  {
    match step
    case Work(work) =>
      if work.Commit? {
        PublishMeans(s.frames, Stamp(s, work), work.now);
      } else if work.Release? {
        PublishMeans(s.frames, s.receivers[work.receiver].waiting.value, work.now);
      }
      hide Published, Finished, Alike;
    case Show(show) =>
      hide Alike;
  }

  /** The frames that wait for the widget are always alike in epoch, layout and surface. */
  lemma {:induction false} WaitingFramesAreAlike(states: seq<State>, steps: seq<Step>, k: nat)
    requires Legal(states, steps) && k < |states|
    ensures QueueAlike(states[k].frames)
  {
    if k > 0 {
      WaitingFramesAreAlike(states, steps, k - 1);
      assert Next(states[k - 1], steps[k - 1], states[k]);
      StepKeepsAlike(states[k - 1], steps[k - 1]);
    }
  }

  lemma PublishedFrames(frames: seq<Slot<Frame>>, frame: Frame, now: nat)
    requires |frames| <= 2
    ensures |Published(frames, frame, now)| <= 2
    ensures forall slot | slot in Published(frames, frame, now) :: slot in frames || slot.item == frame
  {
  }

  /** The mailbox only ever holds what it held, what was stamped, or what waited. */
  lemma WorkKeepsFrames(s: State, step: WorkerStep, slot: Slot<Frame>)
    requires Inv(s) && CanWork(step, s) && slot in DoWork(step, s).frames
    ensures Sound(s, slot.item)
  {
    match step
    case Commit(_, _, _, _, now) =>
      StampIsSound(s, step);
      PublishedFrames(s.frames, Stamp(s, step), now);
    case Release(r, now) =>
      assert SoundReceiver(s, r);
      PublishedFrames(s.frames, s.receivers[r].waiting.value, now);
    case _ =>
  }

  lemma PoppedFrames(frames: seq<Slot<Frame>>, now: nat)
    requires |frames| <= 2
    ensures var p := Popped(frames, Some(FRAME_AGE), now);
            && |p.rest| <= 2 && (p.frame.Some? ==> p.frame.value in frames)
            && forall slot | slot in p.rest :: slot in frames
  {
  }

  lemma ShowKeepsFrames(s: State, step: WidgetStep, slot: Slot<Frame>)
    requires SoundFrames(s) && CanShow(step, s) && slot in DoShow(step, s).frames
    ensures Sound(s, slot.item)
  {
    match step
    case Take(now) => PoppedFrames(s.frames, now);
    case Fail(now) => PoppedFrames(s.frames, now);
    case _ =>
  }

  lemma AtMostTwo(s: State, step: Step)
    requires |s.frames| <= 2 && Can(step, s)
    ensures |Apply(step, s).frames| <= 2
  {
    match step
    case Work(Commit(_, _, _, _, now)) => PublishedFrames(s.frames, Stamp(s, step.work), now);
    case Work(Release(r, now)) => PublishedFrames(s.frames, s.receivers[r].waiting.value, now);
    case Show(Take(now)) => PoppedFrames(s.frames, now);
    case Show(Fail(now)) => PoppedFrames(s.frames, now);
    case _ =>
  }

  lemma FrameStaysSound(s: State, step: Step, slot: Slot<Frame>)
    requires Inv(s) && Can(step, s) && slot in Apply(step, s).frames
    ensures Sound(Apply(step, s), slot.item)
  {
    hide DoWork;
    hide DoShow;
    match step
    case Work(work) =>
      WorkKeepsFrames(s, work, slot);
      StaysSound(s, step, slot.item);
    case Show(show) =>
      ShowKeepsFrames(s, show, slot);
      StaysSound(s, step, slot.item);
  }

  lemma FramesStaySound(s: State, step: Step)
    requires Inv(s) && Can(step, s)
    ensures SoundFrames(Apply(step, s))
  {
    hide Apply;
    var t := Apply(step, s);
    forall i | 0 <= i < |t.frames|
      ensures Sound(t, t.frames[i].item)
    {
      FrameStaysSound(s, step, t.frames[i]);
    }
    AtMostTwo(s, step);
  }

  lemma WorkLeavesWidget(s: State, step: WorkerStep)
    requires CanWork(step, s)
    ensures var t := DoWork(step, s);
            && t.widget == s.widget && t.known == s.known && t.displayed == s.displayed && t.texture == s.texture
            && t.onScreen == s.onScreen && t.blank == s.blank
  {
  }

  lemma WorkKeepsDisplay(s: State, step: WorkerStep)
    requires SoundDisplay(s) && CanWork(step, s)
    ensures SoundDisplay(DoWork(step, s))
  {
    WorkLeavesWidget(s, step);
    EpochOnlyGrows(s, Work(step));
    if s.texture.Some? {
      StaysSound(s, Work(step), s.texture.value);
    }
    hide DoWork;
  }

  lemma ShowLeavesWorker(s: State, step: WidgetStep)
    requires CanShow(step, s)
    ensures var t := DoShow(step, s); t.epoch == s.epoch && t.receivers == s.receivers && t.worker == s.worker
  {
  }

  lemma ShowKeepsDisplay(s: State, step: WidgetStep)
    requires SoundDisplay(s) && SoundFrames(s) && CanShow(step, s)
    ensures SoundDisplay(DoShow(step, s))
  {
    match step
    case Take(now) => TakeKeepsDisplay(s, now);
    case _ =>
  }

  lemma TakeKeepsDisplay(s: State, now: nat)
    requires SoundDisplay(s) && SoundFrames(s) && s.widget.Loaded?
    ensures SoundDisplay(DoShow(Take(now), s))
  {
    PoppedFrames(s.frames, now);
    hide Popped;
  }

  lemma NextInv(s: State, step: Step, t: State)
    requires Inv(s) && Next(s, step, t)
    ensures Inv(t)
  {
    FramesStaySound(s, step);
    OneRequestStays(s, step);
    hide DoWork;
    hide DoShow;
    match step
    case Work(work) =>
      WorkKeepsDisplay(s, work);
      forall r | r in t.receivers
        ensures SoundReceiver(t, r)
      {
        ReceiverStaysSound(s, work, r);
      }
    case Show(show) =>
      ShowKeepsDisplay(s, show);
      ShowLeavesWorker(s, show);
      forall r | r in t.receivers
        ensures SoundReceiver(t, r)
      {
        assert SoundReceiver(s, r);
      }
  }

  lemma {:induction false} AlwaysInv(states: seq<State>, steps: seq<Step>, k: nat)
    requires Legal(states, steps) && k < |states|
    ensures Inv(states[k])
  {
    if k > 0 {
      AlwaysInv(states, steps, k - 1);
      assert Next(states[k - 1], steps[k - 1], states[k]);
      NextInv(states[k - 1], steps[k - 1], states[k]);
    }
  }

  // ---------------------------------------------------------------------
  // Whole runs
  // ---------------------------------------------------------------------

  lemma {:induction false} SoundLater(states: seq<State>, steps: seq<Step>, i: nat, k: nat, frame: Frame)
    requires Legal(states, steps) && i <= k < |states| && Sound(states[i], frame)
    ensures Sound(states[k], frame)
    decreases k
  {
    if i < k {
      SoundLater(states, steps, i, k - 1, frame);
      assert Next(states[k - 1], steps[k - 1], states[k]);
      StaysSound(states[k - 1], steps[k - 1], frame);
    }
  }

  lemma {:induction false} EpochsGrow(states: seq<State>, steps: seq<Step>, i: nat, k: nat)
    requires Legal(states, steps) && i <= k < |states|
    ensures states[i].epoch <= states[k].epoch
    decreases k
  {
    if i < k {
      EpochsGrow(states, steps, i, k - 1);
      assert Next(states[k - 1], steps[k - 1], states[k]);
      EpochOnlyGrows(states[k - 1], steps[k - 1]);
    }
  }

  /** The widget is paused, destroyed or replaced, or fails. */
  predicate Stops(step: Step) {
    step.Show? && (step.show.Pause? || step.show.Destroy? || step.show.Replace? || step.show.Fail?)
  }

  /** Step `p` prepared the widget, which has not stopped since. */
  ghost predicate PreparedAt(steps: seq<Step>, p: nat, k: nat)
    requires k <= |steps|
  {
    p < k && steps[p] == Show(Prepare) && forall i :: p < i < k ==> !Stops(steps[i])
  }

  lemma NextWanted(s: State, step: Step)
    requires Can(step, s)
    ensures Apply(step, s).wanted <==> step == Show(Prepare) || (s.wanted && !Stops(step))
  {
    if step.Work? {
      WorkLeavesWanted(s, step.work);
    }
    hide DoWork;
  }

  lemma WorkLeavesWanted(s: State, step: WorkerStep)
    requires CanWork(step, s)
    ensures DoWork(step, s).wanted == s.wanted
  {
  }

  /** Pictures are wanted exactly while a widget that was prepared has not stopped. */
  lemma {:induction false} WantedMeans(states: seq<State>, steps: seq<Step>, k: nat)
    requires Legal(states, steps) && k < |states|
    ensures states[k].wanted <==> exists p: nat :: PreparedAt(steps, p, k)
  {
    if k > 0 {
      var n := k - 1;
      WantedMeans(states, steps, n);
      assert Next(states[n], steps[n], states[k]);
      NextWanted(states[n], steps[n]);
      hide Apply, Can, Legal;
      if states[k].wanted {
        if steps[n] == Show(Prepare) {
          assert PreparedAt(steps, n, k);
        } else {
          var p: nat :| PreparedAt(steps, p, n);
          assert PreparedAt(steps, p, k);
        }
      }
      if p: nat :| PreparedAt(steps, p, k) {
        assert p < n ==> PreparedAt(steps, p, n);
      }
    }
  }

  /** What the widget goes by was taken from the mailbox since it last stopped, and its picture since it let one go. */
  lemma {:induction false} DisplayedWasTaken(states: seq<State>, steps: seq<Step>, k: nat) returns (p: nat)
    requires Legal(states, steps) && k < |states| && states[k].displayed.Some?
    ensures p < k && steps[p].Show? && steps[p].show.Take? && forall i :: p < i < k ==> !Stops(steps[i])
  {
    var n := k - 1;
    assert Next(states[n], steps[n], states[k]);
    if steps[n].Show? && steps[n].show.Take? {
      p := n;
    } else {
      if steps[n].Work? {
        WorkLeavesWidget(states[n], steps[n].work);
      }
      hide DoWork;
      p := DisplayedWasTaken(states, steps, n);
    }
  }

  lemma {:induction false} TextureWasTaken(states: seq<State>, steps: seq<Step>, k: nat) returns (p: nat)
    requires Legal(states, steps) && k < |states| && states[k].texture.Some?
    ensures p < k && steps[p].Show? && steps[p].show.Take?
    ensures forall i :: p < i < k && Stops(steps[i]) ==> steps[i] == Show(Pause)
  {
    var n := k - 1;
    assert Next(states[n], steps[n], states[k]);
    if steps[n].Show? && steps[n].show.Take? {
      p := n;
    } else {
      if steps[n].Work? {
        WorkLeavesWidget(states[n], steps[n].work);
      }
      hide DoWork;
      p := TextureWasTaken(states, steps, n);
    }
  }

  /** Before the worker finishes a clearing, the mailbox is empty, whatever the widget does meanwhile. */
  lemma {:induction false} ClearingEmptiesMailbox(states: seq<State>, steps: seq<Step>, k: nat)
    requires Legal(states, steps) && k < |states| && states[k].worker.Finishing?
    ensures states[k].frames == []
  {
    if k > 0 {
      var n := k - 1;
      assert Next(states[n], steps[n], states[k]);
      if states[n].worker.Finishing? {
        ClearingEmptiesMailbox(states, steps, n);
      }
    }
  }

  /**
   The whole of a clearing, if the widget does nothing meanwhile: a new epoch, no frame left, and a receiver that is
   assigned its application, holds no frame back any more, or is gone.
   */
  lemma ClearingMeans(s: State, step: WorkerStep, purpose: Purpose)
    requires CanWork(step, s) && !s.worker.Draining? && !s.worker.Finishing?
    requires DoWork(step, s) == Clear(s, purpose)
    ensures var t := DoWork(Finish, DoWork(Drain, DoWork(step, s)));
            && t.epoch == s.epoch + 1 && t.frames == [] && t.worker == Free
            && match purpose
               case Assign(r, application) =>
                 step == WorkerStep.Select(r, application) && t.receivers.Keys == s.receivers.Keys
                 && t.receivers[r] == Receiver(application, None, None, s.receivers[r].active)
                 && forall other | other in s.receivers && other != r :: t.receivers[other] == s.receivers[other]
               case Unmap(r) =>
                 step == CommitUnmapped(r) && t.receivers == s.receivers[r := s.receivers[r].(waiting := None)]
               case Remove(r) =>
                 step == Discard(r) && s.receivers[r].requested.Some? && r !in t.receivers
                 && forall other | other in s.receivers && other != r :: other in t.receivers && t.receivers[other] == s.receivers[other]
  {
  }

  /** Selecting, unmapping, and discarding a receiver with a request clear; discarding another only removes it. */
  lemma WhatClears(s: State, r: nat, application: Option<Application>)
    requires s.worker.Free? && r in s.receivers
    ensures CanWork(WorkerStep.Select(r, application), s) ==>
              DoWork(WorkerStep.Select(r, application), s) == Clear(s, Assign(r, application))
    ensures CanWork(CommitUnmapped(r), s) ==> DoWork(CommitUnmapped(r), s) == Clear(s, Unmap(r))
    ensures var t := DoWork(Discard(r), s);
            if s.receivers[r].requested.Some? then t == Clear(s, Remove(r))
            else t.epoch == s.epoch && t.frames == s.frames && t.receivers.Keys == s.receivers.Keys - {r}
  {
  }

  /** Step `i` of the run stamped `frame`. */
  ghost predicate StampedAt(states: seq<State>, steps: seq<Step>, i: nat, frame: Frame)
    requires i < |steps| < |states|
  {
    && steps[i].Work? && steps[i].work.Commit? && CanWork(steps[i].work, states[i])
    && frame == Stamp(states[i], steps[i].work)
  }

  /** All frames ever stamped with one epoch come from one surface of one receiver. */
  lemma OneSurfacePerEpoch(states: seq<State>, steps: seq<Step>, i: nat, j: nat, f: Frame, g: Frame)
    requires Legal(states, steps) && i <= j < |steps|
    requires StampedAt(states, steps, i, f) && StampedAt(states, steps, j, g) && f.epoch == g.epoch
    ensures f.origin == g.origin
  {
    AlwaysInv(states, steps, i);
    AlwaysInv(states, steps, j);
    StampIsSound(states[i], steps[i].work);
    StampIsSound(states[j], steps[j].work);
    SoundLater(states, steps, i, j, f);
  }

  /** The frame is in the mailbox, held back by a receiver, or in the hands of the widget. */
  ghost predicate Held(s: State, frame: Frame) {
    || (exists slot | slot in s.frames :: slot.item == frame)
    || (exists r | r in s.receivers :: s.receivers[r].waiting == Some(frame))
    || s.texture == Some(frame) || s.onScreen == Some(frame)
  }

  lemma NewlyWaiting(s: State, step: WorkerStep, r: nat, frame: Frame)
    requires CanWork(step, s) && r in DoWork(step, s).receivers && DoWork(step, s).receivers[r].waiting == Some(frame)
    ensures Held(s, frame) || (step.Commit? && frame == Stamp(s, step))
  {
    if step.Finish? {
      FinishWaits(s, r);
    } else {
      ReceiverChange(s, step, r);
    }
    hide DoWork;
  }

  lemma FinishWaits(s: State, r: nat)
    requires CanWork(Finish, s) && r in DoWork(Finish, s).receivers && DoWork(Finish, s).receivers[r].waiting.Some?
    ensures r in s.receivers && s.receivers[r].waiting == DoWork(Finish, s).receivers[r].waiting
  {
  }

  lemma NewlyQueued(s: State, step: WorkerStep, slot: Slot<Frame>)
    requires |s.frames| <= 2 && CanWork(step, s) && slot in DoWork(step, s).frames
    ensures Held(s, slot.item) || (step.Commit? && slot.item == Stamp(s, step))
  {
    match step
    case Commit(_, _, _, _, now) => PublishedFrames(s.frames, Stamp(s, step), now);
    case Release(q, now) => PublishedFrames(s.frames, s.receivers[q].waiting.value, now);
    case _ =>
  }

  lemma NewlyHeldByWork(s: State, step: WorkerStep, frame: Frame)
    requires |s.frames| <= 2 && CanWork(step, s) && Held(DoWork(step, s), frame) && !Held(s, frame)
    ensures step.Commit? && frame == Stamp(s, step)
  {
    var t := DoWork(step, s);
    WorkLeavesWidget(s, step);
    hide DoWork;
    if r :| r in t.receivers && t.receivers[r].waiting == Some(frame) {
      NewlyWaiting(s, step, r, frame);
    } else {
      var slot :| slot in t.frames && slot.item == frame;
      NewlyQueued(s, step, slot);
    }
  }

  lemma NothingNewIsShown(s: State, step: WidgetStep, frame: Frame)
    requires |s.frames| <= 2 && CanShow(step, s) && Held(DoShow(step, s), frame)
    ensures Held(s, frame)
  {
    match step
    case Take(now) => PoppedFrames(s.frames, now);
    case Fail(now) => PoppedFrames(s.frames, now);
    case _ =>
  }

  lemma {:induction false} HeldWasStamped(states: seq<State>, steps: seq<Step>, k: nat, frame: Frame) returns (i: nat)
    requires Legal(states, steps) && k < |states| && Held(states[k], frame)
    ensures i < k && StampedAt(states, steps, i, frame)
  {
    AlwaysInv(states, steps, k - 1);
    assert Next(states[k - 1], steps[k - 1], states[k]);
    if Held(states[k - 1], frame) {
      i := HeldWasStamped(states, steps, k - 1, frame);
    } else {
      i := k - 1;
      match steps[i]
      case Work(work) => NewlyHeldByWork(states[i], work, frame);
      case Show(show) => NothingNewIsShown(states[i], show, frame);
    }
  }

  /**
   Pixels are shown only under the stamp they were given. A stamp that is still current stands for the
   selected surface, so what a deselected window left behind never passes for a later selection.
   */
  lemma ShownUnderOwnStamp(states: seq<State>, steps: seq<Step>, k: nat)
    requires Legal(states, steps) && k < |steps| && steps[k] == Show(Draw) && states[k].displayed.Some?
    ensures var shown, display := states[k + 1].onScreen, states[k].displayed.value;
            && shown.Some? && shown.value.epoch == display.stamp && shown.value.origin.surface == display.surface
            && (display.stamp == states[k].epoch ==> Selected(states[k], shown.value.origin))
            && exists i: nat :: i < k && StampedAt(states, steps, i, shown.value)
  {
    AlwaysInv(states, steps, k);
    assert Next(states[k], steps[k], states[k + 1]);
    var i := HeldWasStamped(states, steps, k, states[k].texture.value);
  }

  /** Two pictures shown under one stamp show the same surface, however far apart. */
  lemma OnePicturePerStamp(states: seq<State>, steps: seq<Step>, j: nat, k: nat, f: Frame, g: Frame)
    requires Legal(states, steps) && j < |states| && k < |states|
    requires states[j].onScreen == Some(f) && states[k].onScreen == Some(g) && f.epoch == g.epoch
    ensures f.origin == g.origin
  {
    var a := HeldWasStamped(states, steps, j, f);
    var b := HeldWasStamped(states, steps, k, g);
    if a <= b {
      OneSurfacePerEpoch(states, steps, a, b, f, g);
    } else {
      OneSurfacePerEpoch(states, steps, b, a, g, f);
    }
  }

  /** Step `j` captured `input` from what the widget went by. */
  ghost predicate CapturedAt(states: seq<State>, steps: seq<Step>, j: nat, input: Input)
    requires j < |steps| < |states|
  {
    && steps[j].Show? && CanShow(steps[j].show, states[j]) && steps[j].show.Capture?
    && input == DoShow(steps[j].show, states[j]).widget.input
  }

  predicate OnItsWay(s: State, input: Input) {
    input in s.inputs || s.widget == Captured(input)
  }

  lemma WorkOnlyTakesInputs(s: State, step: WorkerStep, input: Input)
    requires CanWork(step, s) && input in DoWork(step, s).inputs
    ensures input in s.inputs
  {
  }

  /** Inputs wait in order: each capture is queued once, at the end, if there is room for it, and taken from the front. */
  lemma InputsWaitInOrder(s: State, step: Step)
    requires Can(step, s)
    ensures var t := Apply(step, s);
            match step
            case Show(Send) =>
              t.widget.Ready? && t.inputs == if |s.inputs| < 128 then s.inputs + [s.widget.input] else s.inputs
            case Work(Dispatch(_)) => s.inputs == [s.inputs[0]] + t.inputs
            case Work(DropInputs) => t.inputs == []
            case _ => t.inputs == s.inputs
  {
    if step.Work? && !step.work.Dispatch? && !step.work.DropInputs? {
      WorkLeavesInputs(s, step.work);
      hide DoWork;
    }
  }

  lemma WorkLeavesInputs(s: State, step: WorkerStep)
    requires CanWork(step, s) && !step.Dispatch? && !step.DropInputs?
    ensures DoWork(step, s).inputs == s.inputs
  {
  }

  lemma {:induction false} InputsAreBounded(states: seq<State>, steps: seq<Step>, k: nat)
    requires Legal(states, steps) && k < |states|
    ensures |states[k].inputs| <= 128
  {
    if k > 0 {
      InputsAreBounded(states, steps, k - 1);
      assert Next(states[k - 1], steps[k - 1], states[k]);
      InputsWaitInOrder(states[k - 1], steps[k - 1]);
      hide Apply, Can;
    }
  }

  lemma NewInput(s: State, step: Step, input: Input)
    requires Can(step, s) && OnItsWay(Apply(step, s), input) && !OnItsWay(s, input)
    ensures step.Show? && step.show.Capture? && input == DoShow(step.show, s).widget.input
  {
    if step.Work? {
      WorkLeavesWidget(s, step.work);
      if input in Apply(step, s).inputs {
        WorkOnlyTakesInputs(s, step.work, input);
      }
    }
    hide DoWork;
  }

  lemma {:induction false} InputWasCaptured(states: seq<State>, steps: seq<Step>, k: nat, input: Input) returns (j: nat)
    requires Legal(states, steps) && k < |states| && OnItsWay(states[k], input)
    ensures j < k && CapturedAt(states, steps, j, input)
  {
    assert Next(states[k - 1], steps[k - 1], states[k]);
    if OnItsWay(states[k - 1], input) {
      j := InputWasCaptured(states, steps, k - 1, input);
    } else {
      NewInput(states[k - 1], steps[k - 1], input);
      j := k - 1;
    }
  }

  /**
   An input that is dispatched was captured at some step `j`. It reaches the runtime exactly if the receiver is
   active, the epoch has not changed since, and a route leads to the surface selected.
   */
  lemma InputIsAccepted(states: seq<State>, steps: seq<Step>, k: nat, r: nat) returns (j: nat)
    requires Legal(states, steps) && k < |steps| && steps[k] == Work(Dispatch(r)) && states[k].inputs != []
    ensures var input := states[k].inputs[0];
            && j < k && CapturedAt(states, steps, j, input) && r in states[k].receivers
            && (Accepts(states[k], r, input) <==>
                  && states[k].receivers[r].active
                  && (forall i :: j <= i <= k ==> states[i].epoch == states[j].epoch)
                  && (input.route.Some? ==> states[k].receivers[r].selected == input.route))
  {
    var input := states[k].inputs[0];
    j := InputWasCaptured(states, steps, k, input);
    assert Next(states[k], steps[k], states[k + 1]);
    forall i | j <= i <= k && states[j].epoch == states[k].epoch
      ensures states[i].epoch == states[j].epoch
    {
      EpochsGrow(states, steps, j, i);
      EpochsGrow(states, steps, i, k);
    }
  }

  /** Step `p` polled the receiver while it had a request and the widget wanted pictures. */
  ghost predicate PolledAt(states: seq<State>, steps: seq<Step>, p: nat, r: nat)
    requires p < |steps| < |states|
  {
    steps[p] == Work(Poll(r)) && Requests(states[p], r) && states[p].wanted
  }

  lemma NewlyActive(s: State, step: Step, r: nat)
    requires Can(step, s) && r in Apply(step, s).receivers && Apply(step, s).receivers[r].active
    ensures (r in s.receivers && s.receivers[r].active) || (step == Work(Poll(r)) && Requests(s, r) && s.wanted)
    ensures step == Work(Poll(r)) ==> Requests(s, r) && s.wanted
  {
    match step
    case Show(show) => ShowLeavesWorker(s, show);
    case Work(work) =>
      if work.Finish? {
        FinishKeepsActive(s, r);
      } else {
        ReceiverChange(s, work, r);
      }
    hide DoWork, DoShow;
  }

  lemma FinishKeepsActive(s: State, r: nat)
    requires CanWork(Finish, s) && r in DoWork(Finish, s).receivers
    ensures DoWork(Finish, s).receivers[r].active <==> r in s.receivers && s.receivers[r].active
  {
  }

  /** An active receiver was polled since, and at its last poll it had a request and pictures were wanted. */
  lemma {:induction false} ActiveWasWanted(states: seq<State>, steps: seq<Step>, k: nat, r: nat) returns (p: nat)
    requires Legal(states, steps) && k < |states| && r in states[k].receivers && states[k].receivers[r].active
    ensures p < k && PolledAt(states, steps, p, r)
    ensures forall i :: p < i < k ==> steps[i] != Work(Poll(r))
  {
    assert Next(states[k - 1], steps[k - 1], states[k]);
    NewlyActive(states[k - 1], steps[k - 1], r);
    if steps[k - 1] == Work(Poll(r)) {
      p := k - 1;
    } else {
      p := ActiveWasWanted(states, steps, k - 1, r);
    }
  }

  /**
   A routed touch that reaches a receiver's runtime goes to the surface this receiver has selected. It was
   captured while the widget held a frame of this very surface, which was on screen exactly if the last paint
   had an area, and the epoch has not changed since.
   */
  lemma RoutedTouch(states: seq<State>, steps: seq<Step>, k: nat, r: nat) returns (j: nat)
    requires Legal(states, steps) && k < |steps| && steps[k] == Work(Dispatch(r)) && states[k].inputs != []
    requires states[k].inputs[0].route.Some? && Accepts(states[k], r, states[k].inputs[0])
    ensures var input := states[k].inputs[0];
            && Selected(states[k], Origin(r, input.route.value))
            && j < k && CapturedAt(states, steps, j, input)
            && states[j].texture.Some? && states[j].texture.value.origin == Origin(r, input.route.value)
            && (states[j].onScreen == states[j].texture <==> !states[j].blank)
            && forall i :: j <= i <= k ==> states[i].epoch == input.epoch
  {
    var input := states[k].inputs[0];
    j := InputWasCaptured(states, steps, k, input);
    AlwaysInv(states, steps, j);
    AlwaysInv(states, steps, k);
    assert Next(states[k], steps[k], states[k + 1]);
    forall i | j <= i <= k
      ensures states[i].epoch == input.epoch
    {
      EpochsGrow(states, steps, j, i);
      EpochsGrow(states, steps, i, k);
    }
    assert SoundReceiver(states[k], r) && Requests(states[k], r);
    SoundLater(states, steps, j, k, states[j].texture.value);
    assert Requests(states[k], states[j].texture.value.origin.receiver);
  }

  lemma Extend(states: seq<State>, steps: seq<Step>, step: Step) returns (states': seq<State>, steps': seq<Step>)
    requires Legal(states, steps) && Can(step, states[|steps|])
    ensures Legal(states', steps')
    ensures states' == states + [Apply(step, states[|steps|])] && steps' == steps + [step]
  {
    states', steps' := states + [Apply(step, states[|steps|])], steps + [step];
    forall i | 0 <= i < |steps'|
      ensures Next(states'[i], steps'[i], states'[i + 1])
    {
      assert i < |steps| ==> Next(states[i], steps[i], states[i + 1]);
    }
  }

  lemma OneWindowRequested(application: Application) returns (states: seq<State>, steps: seq<Step>)
    ensures Legal(states, steps) && |steps| == 5
    ensures states[5] == State(1, [], true, [], map[0 := Receiver(Some(application), None, None, false)],
                               Free, Ready, 0, None, None, None, false)
  {
    states, steps := [State(0, [], false, [], map[], Free, Ready, 0, None, None, None, false)], [];
    states, steps := Extend(states, steps, Show(Prepare));
    states, steps := Extend(states, steps, Work(Create(0)));
    states, steps := Extend(states, steps, Work(WorkerStep.Select(0, Some(application))));
    states, steps := Extend(states, steps, Work(Drain));
    states, steps := Extend(states, steps, Work(Finish));
  }

  lemma OneWindowSelected(surface: Surface) returns (states: seq<State>, steps: seq<Step>)
    ensures Legal(states, steps) && |steps| == 7
    ensures states[7] == State(1, [], true, [], map[0 := Receiver(Some(surface.application), Some(surface), None, true)],
                               Free, Ready, 0, None, None, None, false)
  {
    states, steps := OneWindowRequested(surface.application);
    states, steps := Extend(states, steps, Work(Role(0, surface)));
    states, steps := Extend(states, steps, Work(Poll(0)));
  }

  lemma OnePictureShown(surface: Surface) returns (states: seq<State>, steps: seq<Step>)
    ensures Legal(states, steps) && |steps| == 11
    ensures var receiver := Receiver(Some(surface.application), Some(surface), None, true);
            var frame := Frame(Origin(0, surface), 0, 0, 1);
            states[11] == State(1, [], true, [], map[0 := receiver], Free, Ready, 1,
                                Some(Display(1, surface)), Some(frame), Some(frame), false)
  {
    states, steps := OneWindowSelected(surface);
    states, steps := Extend(states, steps, Work(Commit(0, 0, 0, false, 0)));
    states, steps := Extend(states, steps, Show(Load));
    states, steps := Extend(states, steps, Show(Take(0)));
    states, steps := Extend(states, steps, Show(Draw));
  }

  /** The exception for an empty paint does happen: its touch is routed although no picture is on screen. */
  lemma TouchWithoutPicture(surface: Surface) returns (states: seq<State>, steps: seq<Step>)
    ensures Legal(states, steps) && |steps| == 15
    ensures steps[12] == Show(Capture(true)) && states[12].onScreen.None?
    ensures steps[14] == Work(Dispatch(0)) && states[14].inputs == [Input(1, Some(surface))]
    ensures Accepts(states[14], 0, states[14].inputs[0])
  {
    states, steps := OnePictureShown(surface);
    states, steps := Extend(states, steps, Show(DrawNothing));
    states, steps := Extend(states, steps, Show(Capture(true)));
    states, steps := Extend(states, steps, Show(Send));
    states, steps := Extend(states, steps, Work(Dispatch(0)));
  }
}
