/** The slot-to-epoch notification loop that the relay task of `Service::spawn`
    runs: every slot the clock yields is mapped to its epoch, the loop keeps the
    highest epoch seen so far and a "next epoch" flag, and it reports each slot
    together with that flag to the relay's `on_slot`.

    The clock is not part of this model: `epochFor` stands for `clock.epoch_for`,
    the starting epoch for `clock.current_epoch()`, and a finite sequence of slots
    for a prefix of the clock's slot stream.  The sequence of notifications a run
    produces is the log of the `on_slot` calls, in the order they were made.

    As in the code, the flag is never cleared once it has been set: after the
    first slot whose epoch is above the starting epoch, every later slot is
    reported with the flag set (see FlagStaysSetWithinEpoch). */
module EpochTracking {

  type Slot = nat
  type Epoch = nat

  /** One call `relay.on_slot(slot, next_epoch)`. */
  datatype Notification = Notification(slot: Slot, isNewEpoch: bool)

  /** The two variables the loop threads through its iterations. */
  datatype TrackerState = TrackerState(currentEpoch: Epoch, nextEpoch: bool)

  /** The state the loop starts in: the clock's current epoch and a cleared flag. */
  function Initial(startEpoch: Epoch): TrackerState {
    TrackerState(startEpoch, false)
  }

  /** One iteration on `slot`: the epoch only ever moves up, to the slot's epoch
      when that is higher, and the flag is raised exactly then; otherwise the
      state is left as it was. */
  function Step(epochFor: Slot -> Epoch, st: TrackerState, slot: Slot): (r: TrackerState)
    ensures st.currentEpoch <= r.currentEpoch && epochFor(slot) <= r.currentEpoch
    ensures r.currentEpoch == st.currentEpoch || r.currentEpoch == epochFor(slot)
    ensures r.nextEpoch <==> st.nextEpoch || st.currentEpoch < epochFor(slot)
  {
    var epoch := epochFor(slot);
    if epoch > st.currentEpoch then TrackerState(epoch, true) else st
  }

  /** The state after the loop has consumed `slots`, in order, starting from `init`. */
  function Run(epochFor: Slot -> Epoch, init: TrackerState, slots: seq<Slot>): TrackerState
    decreases |slots|
  {
    if slots == [] then init
    else Step(epochFor, Run(epochFor, init, slots[..|slots| - 1]), slots[|slots| - 1])
  }

  /** The `on_slot` calls the loop makes while it consumes `slots` from `init`:
      one per slot, in stream order, each carrying the flag as it stands right
      after that slot has been processed. */
  function Notifications(epochFor: Slot -> Epoch, init: TrackerState, slots: seq<Slot>): seq<Notification> {
    seq(|slots|, k requires 0 <= k < |slots| => Notification(slots[k], Run(epochFor, init, slots[..k + 1]).nextEpoch))
  }

  /** Some processed slot lies in an epoch beyond `start`. */
  ghost predicate Advanced(epochFor: Slot -> Epoch, start: Epoch, slots: seq<Slot>) {
    exists i :: 0 <= i < |slots| && epochFor(slots[i]) > start
  }

  /** `e` is the maximum of `start` and the epochs of all `slots`. */
  ghost predicate IsHighestEpoch(e: Epoch, epochFor: Slot -> Epoch, start: Epoch, slots: seq<Slot>) {
    && start <= e
    && (forall i :: 0 <= i < |slots| ==> epochFor(slots[i]) <= e)
    && (e == start || exists i :: 0 <= i < |slots| && epochFor(slots[i]) == e)
  }

  /** After the loop has consumed `slots`, `current_epoch` is the maximum of the
      epoch it started from and the epochs of all processed slots. */
  lemma {:induction false} RunReachesHighestEpoch(epochFor: Slot -> Epoch, init: TrackerState, slots: seq<Slot>)
    ensures IsHighestEpoch(Run(epochFor, init, slots).currentEpoch, epochFor, init.currentEpoch, slots)
    decreases |slots|
  {
    if slots != [] {
      var n := |slots| - 1;
      var prefix := slots[..n];
      RunReachesHighestEpoch(epochFor, init, prefix);
      var prev := Run(epochFor, init, prefix).currentEpoch;
      var e := Run(epochFor, init, slots).currentEpoch;
      forall i | 0 <= i < |slots|
        ensures epochFor(slots[i]) <= e
      {
        if i < n {
          assert slots[i] == prefix[i];
        }
      }
      if e != init.currentEpoch && e == prev {
        var j :| 0 <= j < |prefix| && epochFor(prefix[j]) == prev;
        assert slots[j] == prefix[j];
      }
    }
  }

  /** The flag after `slots` is set exactly when it was set at the start or some
      processed slot's epoch exceeded the starting epoch. */
  lemma {:induction false} RunFlagMeansAdvanced(epochFor: Slot -> Epoch, init: TrackerState, slots: seq<Slot>)
    ensures Run(epochFor, init, slots).nextEpoch <==>
      init.nextEpoch || Advanced(epochFor, init.currentEpoch, slots)
    decreases |slots|
  {
    if slots != [] {
      var n := |slots| - 1;
      var prefix := slots[..n];
      RunFlagMeansAdvanced(epochFor, init, prefix);
      RunReachesHighestEpoch(epochFor, init, prefix);
      var prev := Run(epochFor, init, prefix);
      if Advanced(epochFor, init.currentEpoch, prefix) {
        var j :| 0 <= j < |prefix| && epochFor(prefix[j]) > init.currentEpoch;
        assert slots[j] == prefix[j];
      } else if Advanced(epochFor, init.currentEpoch, slots) {
        assert prev.currentEpoch == init.currentEpoch;
      }
    }
  }

  /** `current_epoch` never decreases: after more slots it is at least as high. */
  lemma {:induction false} EpochNeverDecreases(epochFor: Slot -> Epoch, init: TrackerState, slots: seq<Slot>, i: nat, j: nat)
    requires i <= j <= |slots|
    ensures Run(epochFor, init, slots[..i]).currentEpoch <= Run(epochFor, init, slots[..j]).currentEpoch
    decreases j - i
  {
    if i < j {
      EpochNeverDecreases(epochFor, init, slots, i, j - 1);
      assert slots[..j][..j - 1] == slots[..j - 1];
    }
  }

  /** The flag reported for the k-th slot of a run from the loop's initial state
      is set exactly when one of the slots up to and including it lies in an
      epoch beyond the starting epoch. */
  lemma NotificationFlagMeansAdvanced(epochFor: Slot -> Epoch, startEpoch: Epoch, slots: seq<Slot>, k: nat)
    requires k < |slots|
    ensures Notifications(epochFor, Initial(startEpoch), slots)[k].isNewEpoch <==>
      Advanced(epochFor, startEpoch, slots[..k + 1])
  {
    RunFlagMeansAdvanced(epochFor, Initial(startEpoch), slots[..k + 1]);
  }

  /** Once a reported flag is set, every later reported flag is set too. */
  lemma NotificationFlagIsSticky(epochFor: Slot -> Epoch, init: TrackerState, slots: seq<Slot>, i: nat, j: nat)
    requires i <= j < |slots|
    requires Notifications(epochFor, init, slots)[i].isNewEpoch
    ensures Notifications(epochFor, init, slots)[j].isNewEpoch
  {
    RunFlagMeansAdvanced(epochFor, init, slots[..i + 1]);
    RunFlagMeansAdvanced(epochFor, init, slots[..j + 1]);
    if !init.nextEpoch {
      var w :| 0 <= w < i + 1 && epochFor(slots[..i + 1][w]) > init.currentEpoch;
      assert slots[..j + 1][w] == slots[..i + 1][w];
    }
  }

  /** With 32 slots per epoch and the clock in epoch 0, slot 32 opens epoch 1 and
      is reported with the flag set; slot 33, still in epoch 1, is reported with
      the flag set as well, because the loop never clears it. */
  lemma FlagStaysSetWithinEpoch()
    ensures Notifications(s => s / 32, Initial(0), [31, 32, 33])
      == [Notification(31, false), Notification(32, true), Notification(33, true)]
  {
    var epochFor: Slot -> Epoch := s => s / 32;
    var slots: seq<Slot> := [31, 32, 33];
    assert slots[..1] == [31] && slots[..2] == [31, 32] && slots[..3] == slots;
    assert Run(epochFor, Initial(0), [31]) == TrackerState(0, false);
    assert Run(epochFor, Initial(0), [31, 32]) == TrackerState(1, true);
    assert Run(epochFor, Initial(0), slots) == TrackerState(1, true);
  }

  /** The loop's mutable state: `current_epoch` and `next_epoch`, with the
      clock's `epoch_for` it consults on every slot. */
  class EpochTracker {
    const epochFor: Slot -> Epoch
    var currentEpoch: Epoch
    var nextEpoch: bool

    function State(): TrackerState
      reads this
    {
      TrackerState(currentEpoch, nextEpoch)
    }

    constructor (epochFor: Slot -> Epoch, startEpoch: Epoch)
      ensures this.epochFor == epochFor
      ensures State() == Initial(startEpoch)
    {
      this.epochFor := epochFor;
      currentEpoch := startEpoch;
      nextEpoch := false;
    }

    /** Consumes one slot and returns the flag to report with it. */
    method OnSlot(slot: Slot) returns (isNewEpoch: bool)
      modifies this
      ensures State() == Step(epochFor, old(State()), slot)
      ensures isNewEpoch == nextEpoch
    {
      var epoch := epochFor(slot);
      if epoch > currentEpoch {
        currentEpoch := epoch;
        nextEpoch := true;
      }
      isNewEpoch := nextEpoch;
    }
  }

  /** The body of the relay task: starts from the clock's current epoch, consumes
      `slots` in order and returns the `on_slot` calls it made. */
  method SlotLoop(epochFor: Slot -> Epoch, startEpoch: Epoch, slots: seq<Slot>) returns (calls: seq<Notification>)
    ensures calls == Notifications(epochFor, Initial(startEpoch), slots)
    ensures |calls| == |slots|
    ensures forall k :: 0 <= k < |slots| ==> calls[k].slot == slots[k]
    ensures forall k :: 0 <= k < |slots| ==>
      (calls[k].isNewEpoch <==> Advanced(epochFor, startEpoch, slots[..k + 1]))
  {
    var tracker := new EpochTracker(epochFor, startEpoch);
    calls := [];
    var i := 0;
    while i < |slots|
      invariant 0 <= i <= |slots|
      invariant tracker.epochFor == epochFor
      invariant tracker.State() == Run(epochFor, Initial(startEpoch), slots[..i])
      invariant |calls| == i
      invariant forall k :: 0 <= k < i ==>
        calls[k] == Notification(slots[k], Run(epochFor, Initial(startEpoch), slots[..k + 1]).nextEpoch)
    {
      var isNewEpoch := tracker.OnSlot(slots[i]);
      assert slots[..i + 1][..i] == slots[..i];
      calls := calls + [Notification(slots[i], isNewEpoch)];
      i := i + 1;
    }
    forall k | 0 <= k < |slots|
      ensures calls[k].isNewEpoch <==> Advanced(epochFor, startEpoch, slots[..k + 1])
    {
      NotificationFlagMeansAdvanced(epochFor, startEpoch, slots, k);
    }
  }
}
