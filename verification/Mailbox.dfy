/**
 The bounded frame handoff between the stream worker and the presenter.

 The class has the source's two slots. Its methods are proved against functions on the queue the slots
 hold, and every submitted item is accounted for by exactly one outcome.
 */
module Mailbox {
  import opened Wrappers

  datatype Slot<T> = Slot(at: nat, item: T)

  datatype Stats = Stats(submitted: nat, selected: nat, superseded: nat, stale: nat, invalidated: nat)

  /** What a selection gives: the frame to show, a predecessor that was too old, and the queue left. */
  datatype Selection<T> = Selection(frame: Option<Slot<T>>, stale: Option<T>, rest: seq<Slot<T>>)

  /** The queue after an item came in; without smoothing only the latest item is kept. */
  function Pushed<T>(queue: seq<Slot<T>>, smoothing: bool, slot: Slot<T>): seq<Slot<T>> {
    if !smoothing then [slot]
    else if |queue| < 2 then queue + [slot]
    else [queue[|queue| - 1], slot]
  }

  predicate Overdue<T>(queue: seq<Slot<T>>, limit: Option<nat>, now: nat) {
    |queue| > 1 && limit.Some? && now > queue[0].at + limit.value
  }

  function Popped<T>(queue: seq<Slot<T>>, limit: Option<nat>, now: nat): Selection<T> {
    if queue == [] then Selection(None, None, [])
    else if Overdue(queue, limit, now) then Selection(Some(queue[1]), Some(queue[0].item), queue[2..])
    else Selection(Some(queue[0]), None, queue[1..])
  }

  /** Only the newest item is kept before an ordered control. */
  function Collapsed<T>(queue: seq<Slot<T>>): seq<Slot<T>> {
    if queue == [] then [] else [queue[|queue| - 1]]
  }

  class PresentationMailbox<T> {
    var first: Option<Slot<T>>
    var second: Option<Slot<T>>
    var maximumAge: Option<nat>
    var stats: Stats

    function Queue(): seq<Slot<T>>
      reads this
    {
      (if first.Some? then [first.value] else []) + (if second.Some? then [second.value] else [])
    }

    /** No gap before the second slot, and every submitted item has one outcome or still waits. */
    ghost predicate Valid()
      reads this
    {
      && (second.Some? ==> first.Some? && maximumAge.Some?)
      && stats.submitted
         == stats.selected + stats.superseded + stats.stale + stats.invalidated + |Queue()|
    }

    constructor (maximumAge: Option<nat>)
      ensures Valid() && Queue() == [] && this.maximumAge == maximumAge && stats == Stats(0, 0, 0, 0, 0)
    {
      first, second, this.maximumAge, stats := None, None, maximumAge, Stats(0, 0, 0, 0, 0);
    }

    method Push(item: T, now: nat) returns (removed: Option<T>)
      requires Valid()
      modifies this
      ensures Valid() && maximumAge == old(maximumAge)
      ensures Queue() == Pushed(old(Queue()), maximumAge.Some?, Slot(now, item))
      ensures stats == old(stats).(submitted := old(stats.submitted) + 1,
                                   superseded := old(stats.superseded) + if removed.Some? then 1 else 0)
      ensures removed == if |Queue()| == |old(Queue())| then Some(old(Queue())[0].item) else None
    {
      stats := stats.(submitted := stats.submitted + 1);
      if first.None? || maximumAge.None? {
        removed := if first.Some? then Some(first.value.item) else None;
        stats := stats.(superseded := stats.superseded + if first.Some? then 1 else 0);
        first := Some(Slot(now, item));
        return;
      }
      if second.None? {
        second := Some(Slot(now, item));
        return None;
      }
      stats := stats.(superseded := stats.superseded + 1);
      removed := Some(first.value.item);
      first, second := second, Some(Slot(now, item));
    }

    method Pop(now: nat) returns (frame: Option<T>, age: nat, dropped: Option<T>)
      requires Valid()
      modifies this
      ensures Valid() && maximumAge == old(maximumAge)
      ensures var s := Popped(old(Queue()), maximumAge, now);
              && Queue() == s.rest && dropped == s.stale
              && frame == (if s.frame.Some? then Some(s.frame.value.item) else None)
              && age == (if s.frame.Some? && s.frame.value.at <= now then now - s.frame.value.at else 0)
      ensures stats == old(stats).(selected := old(stats.selected) + if frame.Some? then 1 else 0,
                                   stale := old(stats.stale) + if dropped.Some? then 1 else 0)
    {
      dropped := None;
      if second.Some? && first.Some? && maximumAge.Some? && now > first.value.at + maximumAge.value {
        stats := stats.(stale := stats.stale + 1);
        dropped := Some(first.value.item);
        first, second := second, None;
      }
      var selected := first;
      stats := stats.(selected := stats.selected + if selected.Some? then 1 else 0);
      first, second := second, None;
      match selected
      case None =>
        frame, age := None, 0;
      case Some(slot) =>
        frame, age := Some(slot.item), if slot.at <= now then now - slot.at else 0;
    }

    /** Collapses history before an ordered control, keeping the newest item and its age. */
    method KeepLatest() returns (retired: Option<T>)
      requires Valid()
      modifies this
      ensures Valid() && maximumAge == old(maximumAge)
      ensures stats == old(stats).(invalidated := old(stats.invalidated) + if retired.Some? then 1 else 0)
      ensures Queue() == Collapsed(old(Queue()))
      ensures retired == if |old(Queue())| == 2 then Some(old(Queue())[0].item) else None
    {
      retired := None;
      if second.Some? {
        retired := Some(first.value.item);
        stats := stats.(invalidated := stats.invalidated + 1);
        first, second := second, None;
      }
    }

    method Drain() returns (retired: seq<T>)
      requires Valid()
      modifies this
      ensures Valid() && maximumAge == old(maximumAge)
      ensures Queue() == []
      ensures |retired| == |old(Queue())| && forall i :: 0 <= i < |retired| ==> retired[i] == old(Queue())[i].item
      ensures stats == old(stats).(invalidated := old(stats.invalidated) + |retired|)
    {
      retired := (if first.Some? then [first.value.item] else []) + (if second.Some? then [second.value.item] else []);
      stats := stats.(invalidated := stats.invalidated + |retired|);
      first, second := None, None;
    }
  }

  /** The waiting queue never exceeds two, an item only moves forward, and the newest is never thrown away. */
  lemma PushKeepsNewest<T>(queue: seq<Slot<T>>, smoothing: bool, slot: Slot<T>)
    requires |queue| <= 2
    ensures var q := Pushed(queue, smoothing, slot);
            && 1 <= |q| <= 2 && q[|q| - 1] == slot
            && (smoothing && queue != [] ==> q[|q| - 2] == queue[|queue| - 1])
  {
  }

  /** A waiting frame is always selected, however old; only a predecessor of a newer one can be too old. */
  lemma PopNeverStarves<T>(queue: seq<Slot<T>>, limit: Option<nat>, now: nat)
    requires 0 < |queue| <= 2
    ensures var s := Popped(queue, limit, now);
            && s.frame.Some? && s.frame.value in queue && |s.rest| < |queue|
            && (s.stale.Some? ==> s.frame.value == queue[|queue| - 1])
            && (s.rest != [] ==> s.rest[|s.rest| - 1] == queue[|queue| - 1])
  {
  }

  // ---------------------------------------------------------------------
  // Whole histories of one mailbox: items are numbered as they are submitted
  // ---------------------------------------------------------------------

  datatype Operation = Submit(at: nat) | Select(now: nat) | Collapse | Clear

  datatype History = History(queue: seq<Slot<nat>>, shown: seq<nat>, submitted: nat)

  function AfterSelect(h: History, limit: Option<nat>, now: nat): History {
    var s := Popped(h.queue, limit, now);
    History(s.rest, h.shown + if s.frame.Some? then [s.frame.value.item] else [], h.submitted)
  }

  function Replay(operations: seq<Operation>, limit: Option<nat>): History {
    if operations == [] then History([], [], 0)
    else
      var before := Replay(operations[..|operations| - 1], limit);
      match operations[|operations| - 1]
      case Submit(at) =>
        History(Pushed(before.queue, limit.Some?, Slot(at, before.submitted)), before.shown, before.submitted + 1)
      case Select(now) => AfterSelect(before, limit, now)
      case Collapse => before.(queue := Collapsed(before.queue))
      case Clear => before.(queue := [])
  }

  /** A mailbox that goes through these operations holds, and has shown, what their replay says. */
  method Perform(operations: seq<Operation>, limit: Option<nat>)
    returns (mailbox: PresentationMailbox<nat>, shown: seq<nat>)
    ensures mailbox.Valid() && mailbox.maximumAge == limit && fresh(mailbox)
    ensures mailbox.Queue() == Replay(operations, limit).queue && shown == Replay(operations, limit).shown
    ensures mailbox.stats.submitted == Replay(operations, limit).submitted && mailbox.stats.selected == |shown|
  {
    mailbox := new PresentationMailbox(limit);
    shown := [];
    for i := 0 to |operations|
      invariant fresh(mailbox) && mailbox.Valid() && mailbox.maximumAge == limit
      invariant mailbox.Queue() == Replay(operations[..i], limit).queue && shown == Replay(operations[..i], limit).shown
      invariant mailbox.stats.submitted == Replay(operations[..i], limit).submitted
      invariant mailbox.stats.selected == |shown|
    {
      assert operations[..i + 1][..i] == operations[..i];
      match operations[i]
      case Submit(at) =>
        var removed := mailbox.Push(mailbox.stats.submitted, at);
      case Select(now) =>
        var frame, age, dropped := mailbox.Pop(now);
        if frame.Some? {
          shown := shown + [frame.value];
        }
      case Collapse =>
        var retired := mailbox.KeepLatest();
      case Clear =>
        var retired := mailbox.Drain();
    }
    assert operations[..|operations|] == operations;
  }

  /** Shown items, then waiting ones, in the order of submission and each at most once. */
  ghost predicate Ordered(h: History) {
    && |h.queue| <= 2
    && (forall i, j :: 0 <= i < j < |h.shown| ==> h.shown[i] < h.shown[j])
    && (forall i, j :: 0 <= i < |h.shown| && 0 <= j < |h.queue| ==> h.shown[i] < h.queue[j].item)
    && (|h.queue| == 2 ==> h.queue[0].item < h.queue[1].item)
    && (forall i :: 0 <= i < |h.shown| ==> h.shown[i] < h.submitted)
    && (forall j :: 0 <= j < |h.queue| ==> h.queue[j].item < h.submitted)
  }

  lemma SelectKeepsOrder(h: History, limit: Option<nat>, now: nat)
    requires Ordered(h)
    ensures Ordered(AfterSelect(h, limit, now))
  {
    var s := Popped(h.queue, limit, now);
    if s.frame.Some? {
      var i := if s.stale.Some? then 1 else 0;
      assert s.frame.value == h.queue[i];
      assert forall j :: 0 <= j < |s.rest| ==> s.rest[j] == h.queue[i + 1 + j];
    }
  }

  lemma SubmitKeepsOrder(h: History, smoothing: bool, at: nat)
    requires Ordered(h)
    ensures Ordered(History(Pushed(h.queue, smoothing, Slot(at, h.submitted)), h.shown, h.submitted + 1))
  {
  }

  /** No frame is shown twice, and none after a later one, whatever was pushed, collapsed or cleared. */
  lemma {:induction false} NeverReplayed(operations: seq<Operation>, limit: Option<nat>)
    ensures Ordered(Replay(operations, limit))
  {
    if operations != [] {
      NeverReplayed(operations[..|operations| - 1], limit);
      var before := Replay(operations[..|operations| - 1], limit);
      match operations[|operations| - 1]
      case Submit(at) => SubmitKeepsOrder(before, limit.Some?, at);
      case Select(now) => SelectKeepsOrder(before, limit, now);
      case _ =>
    }
  }
}
