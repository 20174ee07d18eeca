/**
 * The live-byte tracker of the layer census: which storages live, and a log of what they hold.
 *
 * An address is used again once the storage there is freed, so a storage is its address and how
 * many storages were freed there before it.
 */
module LiveBytes {
  import opened Common

  datatype Key = Key(address: int, generation: nat)

  datatype Event = Event(key: Key, delta: int)

  datatype Tracker = Tracker(sizes: map<Key, nat>, generation: map<int, nat>, events: seq<Event>)

  const NEW_TRACKER := Tracker(map[], map[], [])

  function Generation(t: Tracker, address: int): nat {
    if address in t.generation then t.generation[address] else 0
  }

  /** The storage at an address, in the lifetime it has now. */
  function KeyAt(t: Tracker, address: int): Key {
    Key(address, Generation(t, address))
  }

  function Tracked(t: Tracker, address: int, nbytes: nat): Tracker {
    var key := KeyAt(t, address);
    if key in t.sizes then t
    else t.(sizes := t.sizes[key := nbytes], events := t.events + [Event(key, nbytes)])
  }

  /** What the finalizer of a tracked storage does; an empty storage leaves no event. */
  function Freed(t: Tracker, key: Key): Tracker
    requires key in t.sizes
  {
    var size: int := t.sizes[key];
    Tracker(t.sizes - {key}, t.generation[key.address := key.generation + 1],
            if size == 0 then t.events else t.events + [Event(key, -size)])
  }

  // ---- any interleaving of allocations and frees ----------------------------------------

  datatype Action = Track(address: int, nbytes: nat) | Free(key: Key)

  predicate Enabled(t: Tracker, a: Action) { a.Free? ==> a.key in t.sizes }

  function Apply(t: Tracker, a: Action): Tracker
    requires Enabled(t, a)
  {
    match a
    case Track(address, nbytes) => Tracked(t, address, nbytes)
    case Free(key) => Freed(t, key)
  }

  /** Whether a finalizer only ever runs for a storage that is tracked and live. */
  predicate Runs(t: Tracker, acts: seq<Action>)
    decreases |acts|, 0
  {
    acts == [] || (Runs(t, acts[..|acts| - 1]) && Enabled(After(t, acts[..|acts| - 1]), acts[|acts| - 1]))
  }

  function After(t: Tracker, acts: seq<Action>): Tracker
    requires Runs(t, acts)
    decreases |acts|, 1
  {
    if acts == [] then t else Apply(After(t, acts[..|acts| - 1]), acts[|acts| - 1])
  }

  /** What the log says of one storage. */
  function Deltas(events: seq<Event>, key: Key): seq<int> {
    if events == [] then []
    else
      var last := events[|events| - 1];
      Deltas(events[..|events| - 1], key) + (if last.key == key then [last.delta] else [])
  }

  /**
   * A live storage was allocated once and not freed, one that is yet to come is not in the log, and
   * a freed one was allocated once and freed once.
   */
  ghost predicate Lifecycle(t: Tracker, key: Key) {
    var deltas := Deltas(t.events, key);
    if key in t.sizes then key == KeyAt(t, key.address) && deltas == [t.sizes[key]]
    else if key.generation >= Generation(t, key.address) then deltas == []
    else deltas == [0] || (|deltas| == 2 && deltas[0] > 0 && deltas[1] == -deltas[0])
  }

  ghost predicate Inv(t: Tracker) {
    forall key :: Lifecycle(t, key)
  }

  lemma AppendedDeltas(events: seq<Event>, e: Event, key: Key)
    ensures Deltas(events + [e], key) == Deltas(events, key) + (if e.key == key then [e.delta] else [])
  {
    assert (events + [e])[..|events|] == events;
  }

  lemma TrackKeepsLifecycle(t: Tracker, address: int, nbytes: nat, key: Key)
    requires Lifecycle(t, key) && Lifecycle(t, KeyAt(t, address))
    ensures Lifecycle(Tracked(t, address, nbytes), key)
  {
    AppendedDeltas(t.events, Event(KeyAt(t, address), nbytes), key);
  }

  lemma FreeKeepsLifecycle(t: Tracker, freed: Key, key: Key)
    requires freed in t.sizes && Lifecycle(t, key) && Lifecycle(t, freed)
    ensures Lifecycle(Freed(t, freed), key)
  {
    var size: int := t.sizes[freed];
    AppendedDeltas(t.events, Event(freed, -size), key);
  }

  lemma ActionKeepsLifecycle(t: Tracker, a: Action, key: Key)
    requires Inv(t) && Enabled(t, a)
    ensures Lifecycle(Apply(t, a), key)
  {
    assert Lifecycle(t, key);
    match a
    case Track(address, nbytes) =>
      assert Lifecycle(t, KeyAt(t, address));
      TrackKeepsLifecycle(t, address, nbytes, key);
    case Free(freed) =>
      assert Lifecycle(t, freed);
      FreeKeepsLifecycle(t, freed, key);
  }

  /** Over any interleaving of allocations and frees, with any reuse of addresses. */
  lemma {:induction false} RunKeepsInv(t: Tracker, acts: seq<Action>)
    requires Inv(t) && Runs(t, acts)
    ensures Inv(After(t, acts))
  {
    if acts != [] {
      var before, a := acts[..|acts| - 1], acts[|acts| - 1];
      RunKeepsInv(t, before);
      forall key ensures Lifecycle(Apply(After(t, before), a), key) {
        ActionKeepsLifecycle(After(t, before), a, key);
      }
    }
  }

  lemma NewTrackerInv(acts: seq<Action>)
    requires Runs(NEW_TRACKER, acts)
    ensures Inv(After(NEW_TRACKER, acts))
  {
    assert Inv(NEW_TRACKER);
    RunKeepsInv(NEW_TRACKER, acts);
  }

  /** At most one storage lives at an address, whatever has been allocated and freed. */
  lemma OneStoragePerAddress(acts: seq<Action>, k: Key, j: Key)
    requires Runs(NEW_TRACKER, acts) && k in After(NEW_TRACKER, acts).sizes && j in After(NEW_TRACKER, acts).sizes
    requires k.address == j.address
    ensures k == j
  {
    var t := After(NEW_TRACKER, acts);
    NewTrackerInv(acts);
    assert Lifecycle(t, k) && Lifecycle(t, j);
  }

  lemma GenerationsRise(t: Tracker, a: Action, address: int)
    requires Inv(t) && Enabled(t, a)
    ensures Generation(Apply(t, a), address) >= Generation(t, address)
  {
    if a.Free? { assert Lifecycle(t, a.key); }
  }

  lemma {:induction false} NeverAgain(t: Tracker, acts: seq<Action>, key: Key)
    requires Inv(t) && Runs(t, acts) && key.generation < Generation(t, key.address)
    ensures key !in After(t, acts).sizes
    ensures key.generation < Generation(After(t, acts), key.address)
    ensures Deltas(After(t, acts).events, key) == Deltas(t.events, key)
  {
    if acts == [] {
      assert Lifecycle(t, key);
    } else {
      var before, a := acts[..|acts| - 1], acts[|acts| - 1];
      NeverAgain(t, before, key);
      RunKeepsInv(t, before);
      var reached := After(t, before);
      GenerationsRise(reached, a, key.address);
      assert Lifecycle(reached, key);
      match a
      case Track(address, nbytes) => AppendedDeltas(reached.events, Event(KeyAt(reached, address), nbytes), key);
      case Free(freed) =>
        var size: int := reached.sizes[freed];
        AppendedDeltas(reached.events, Event(freed, -size), key);
    }
  }

  /** A freed storage never lives again, whatever takes its address, and the log says no more of it. */
  lemma FreedStaysFreed(acts: seq<Action>, i: nat, j: nat)
    requires Runs(NEW_TRACKER, acts) && i < j <= |acts| && acts[i].Free?
    ensures Runs(NEW_TRACKER, acts[..i + 1]) && Runs(NEW_TRACKER, acts[..j])
    ensures acts[i].key !in After(NEW_TRACKER, acts[..j]).sizes
    ensures Deltas(After(NEW_TRACKER, acts[..j]).events, acts[i].key)
            == Deltas(After(NEW_TRACKER, acts[..i + 1]).events, acts[i].key)
  {
    LogsArePrefixes(NEW_TRACKER, acts, j);
    FreeRaises(acts, i);
    assert acts[..j] == acts[..i + 1] + acts[i + 1..j];
    FreedBefore(acts[..i + 1], acts[i + 1..j], acts[..j], acts[i].key);
  }

  lemma FreedBefore(head: seq<Action>, tail: seq<Action>, all: seq<Action>, key: Key)
    requires Runs(NEW_TRACKER, head) && all == head + tail && Runs(NEW_TRACKER, all)
    requires key.generation < Generation(After(NEW_TRACKER, head), key.address)
    ensures key !in After(NEW_TRACKER, all).sizes
    ensures Deltas(After(NEW_TRACKER, all).events, key) == Deltas(After(NEW_TRACKER, head).events, key)
  {
    SplitRun(NEW_TRACKER, head, tail);
    NewTrackerInv(head);
    NeverAgain(After(NEW_TRACKER, head), tail, key);
  }

  lemma FreeRaises(acts: seq<Action>, i: nat)
    requires Runs(NEW_TRACKER, acts) && i < |acts| && acts[i].Free?
    ensures Runs(NEW_TRACKER, acts[..i + 1])
    ensures Generation(After(NEW_TRACKER, acts[..i + 1]), acts[i].key.address) == acts[i].key.generation + 1
  {
    LogsArePrefixes(NEW_TRACKER, acts, i);
    assert acts[..i + 1][..i] == acts[..i];
  }

  // ---- sums of the log and of the live sizes ----------------------------------------------

  /** The sum of a log's deltas, but for some storages'. */
  function Live(events: seq<Event>, excluded: set<Key>): int {
    if events == [] then 0
    else
      var last := events[|events| - 1];
      Live(events[..|events| - 1], excluded) + (if last.key in excluded then 0 else last.delta)
  }

  ghost function SumSizes<K>(sizes: map<K, nat>): nat
    decreases |sizes|
  {
    if sizes == map[] then 0
    else
      var key :| key in sizes;
      sizes[key] + SumSizes(sizes - {key})
  }

  lemma {:induction false} SumSizesRemove<K>(sizes: map<K, nat>, key: K)
    requires key in sizes
    ensures SumSizes(sizes) == sizes[key] + SumSizes(sizes - {key})
    decreases |sizes|
  {
    var first :| first in sizes && SumSizes(sizes) == sizes[first] + SumSizes(sizes - {first});
    if first != key {
      SumSizesRemove(sizes - {first}, key);
      SumSizesRemove(sizes - {key}, first);
      assert sizes - {first} - {key} == sizes - {key} - {first};
    }
  }

  lemma AppendedLive(events: seq<Event>, e: Event, excluded: set<Key>)
    ensures Live(events + [e], excluded) == Live(events, excluded) + (if e.key in excluded then 0 else e.delta)
  {
    assert (events + [e])[..|events|] == events;
  }

  /** An allocation or a free moves the log's sum and the live sizes' sum alike. */
  lemma ActionMovesBoth(t: Tracker, a: Action, excluded: set<Key>)
    requires Enabled(t, a) && Live(t.events, excluded) == SumSizes(t.sizes - excluded)
    ensures Live(Apply(t, a).events, excluded) == SumSizes(Apply(t, a).sizes - excluded)
  {
    match a
    case Track(address, nbytes) =>
      var key := KeyAt(t, address);
      if key !in t.sizes {
        AppendedLive(t.events, Event(key, nbytes), excluded);
        OneMoreSize(t.sizes, key, nbytes, excluded);
      }
    case Free(key) =>
      var size: int := t.sizes[key];
      AppendedLive(t.events, Event(key, -size), excluded);
      OneMoreSize(t.sizes - {key}, key, t.sizes[key], excluded);
      assert (t.sizes - {key})[key := t.sizes[key]] == t.sizes;
  }

  lemma OneMoreSize(sizes: map<Key, nat>, key: Key, size: nat, excluded: set<Key>)
    requires key !in sizes
    ensures SumSizes(sizes[key := size] - excluded) ==
            SumSizes(sizes - excluded) + (if key in excluded then 0 else size)
  {
    var more, rest := sizes[key := size] - excluded, sizes - excluded;
    if key in excluded {
      assert more == rest;
    } else {
      SumSizesRemove(more, key);
      assert more - {key} == rest;
    }
  }

  /** At every moment the log sums to the bytes of the live storages, for any choice of storages. */
  lemma {:induction false} LogSumsToSizes(acts: seq<Action>, excluded: set<Key>)
    requires Runs(NEW_TRACKER, acts)
    ensures var t := After(NEW_TRACKER, acts); Live(t.events, excluded) == SumSizes(t.sizes - excluded)
  {
    if acts == [] {
      assert NEW_TRACKER.sizes - excluded == map[];
    } else {
      LogSumsToSizes(acts[..|acts| - 1], excluded);
      ActionMovesBoth(After(NEW_TRACKER, acts[..|acts| - 1]), acts[|acts| - 1], excluded);
    }
  }

  // ---- the peak ------------------------------------------------------------------------------

  /** Where the sum, followed from start on, was last raised above all before. */
  function FirstPeak(events: seq<Event>, start: nat, excluded: set<Key>): (at: nat)
    requires start <= |events|
    ensures start <= at <= |events|
  {
    if |events| == start then start
    else
      var n := |events| - 1;
      var before := FirstPeak(events[..n], start, excluded);
      if Live(events, excluded) > Live(events[..before], excluded) then |events| else before
  }

  /** It is the first moment, from start on, at which the storages that are not excluded hold the most. */
  lemma {:induction false} FirstPeakIsFirst(events: seq<Event>, start: nat, excluded: set<Key>, i: nat)
    requires start <= i <= |events|
    ensures var at := FirstPeak(events, start, excluded);
            && Live(events[..i], excluded) <= Live(events[..at], excluded)
            && (i < at ==> Live(events[..i], excluded) < Live(events[..at], excluded))
  {
    var n := |events| - 1;
    assert events[..|events|] == events;
    if i <= n && start <= n {
      FirstPeakIsFirst(events[..n], start, excluded, i);
      var before := FirstPeak(events[..n], start, excluded);
      assert events[..n][..i] == events[..i] && events[..n][..before] == events[..before];
    } else if start <= n {
      var before := FirstPeak(events[..n], start, excluded);
      assert events[..n][..before] == events[..before];
    }
  }

  /** The part of a log's sum that is apart. */
  function Held(events: seq<Event>, excluded: set<Key>, apart: set<Key>): int {
    if events == [] then 0
    else
      var last := events[|events| - 1];
      Held(events[..|events| - 1], excluded, apart)
      + (if last.key in apart && last.key !in excluded then last.delta else 0)
  }

  lemma {:induction false} LeavingOutTheHeld(events: seq<Event>, excluded: set<Key>, apart: set<Key>)
    ensures Live(events, excluded) - Held(events, excluded, apart) == Live(events, excluded + apart)
  {
    if events != [] {
      LeavingOutTheHeld(events[..|events| - 1], excluded, apart);
    }
  }

  lemma FirstPeakStep(events: seq<Event>, start: nat, excluded: set<Key>, i: nat)
    requires start <= i < |events|
    ensures var before := FirstPeak(events[..i], start, excluded);
            FirstPeak(events[..i + 1], start, excluded) ==
            if Live(events[..i + 1], excluded) > Live(events[..before], excluded) then i + 1 else before
  {
    assert events[..i + 1][..i] == events[..i];
    var before := FirstPeak(events[..i], start, excluded);
    assert events[..i + 1][..before] == events[..before];
  }

  lemma SumsStep(events: seq<Event>, i: nat, excluded: set<Key>, apart: set<Key>)
    requires i < |events|
    ensures Live(events[..i + 1], excluded) ==
            Live(events[..i], excluded) + (if events[i].key in excluded then 0 else events[i].delta)
    ensures Held(events[..i + 1], excluded, apart) ==
            Held(events[..i], excluded, apart)
            + (if events[i].key in apart && events[i].key !in excluded then events[i].delta else 0)
  {
    assert events[..i + 1][..i] == events[..i];
  }

  /** The tracker as the object it is. */
  class LiveBytes {
    var sizes: map<Key, nat>
    var generation: map<int, nat>
    var events: seq<Event>

    ghost function View(): Tracker
      reads this
    {
      Tracker(sizes, generation, events)
    }

    constructor ()
      ensures View() == NEW_TRACKER
    {
      sizes, generation, events := map[], map[], [];
    }

    function KeyOf(address: int): Key
      reads this
    {
      Key(address, if address in generation then generation[address] else 0)
    }

    method Track(address: int, nbytes: nat)
      modifies this
      ensures View() == Tracked(old(View()), address, nbytes)
    {
      var key := KeyOf(address);
      if key in sizes {
        return;
      }
      sizes := sizes[key := nbytes];
      events := events + [Event(key, nbytes)];
    }

    method Free(key: Key)
      requires key in sizes
      modifies this
      ensures View() == Freed(old(View()), key)
    {
      var size: int := sizes[key];
      sizes := sizes - {key};
      generation := generation[key.address := key.generation + 1];
      if size != 0 {
        events := events + [Event(key, -size)];
      }
    }

    /** The bytes live when the most are, from event start on; what is apart counts only toward finding it. */
    method Peak(start: nat, excluded: set<Key>, apart: set<Key>) returns (bytes: int)
      ensures var from := Min(start, |events|);
              bytes == Live(events[..FirstPeak(events, from, excluded)], excluded + apart)
    {
      var from, log := Min(start, |events|), events;
      var live, held := 0, 0;
      for i := 0 to from
        invariant live == Live(log[..i], excluded) && held == Held(log[..i], excluded, apart)
      {
        var key, delta := log[i].key, log[i].delta;
        SumsStep(log, i, excluded, apart);
        if key !in excluded {
          live := live + delta;
          held := held + (if key in apart then delta else 0);
        }
      }
      bytes := Climb(log, from, excluded, apart, live, held);
    }
  }

  /** The second half of a peak: follow the log and remember where the most was live first. */
  method Climb(log: seq<Event>, from: nat, excluded: set<Key>, apart: set<Key>, liveAtFrom: int, heldAtFrom: int)
    returns (bytesAtTop: int)
    requires from <= |log|
    requires liveAtFrom == Live(log[..from], excluded) && heldAtFrom == Held(log[..from], excluded, apart)
    ensures bytesAtTop == Live(log[..FirstPeak(log, from, excluded)], excluded + apart)
  {
    var live, held, top := liveAtFrom, heldAtFrom, liveAtFrom;
    bytesAtTop := live - held;
    LeavingOutTheHeld(log[..from], excluded, apart);
    ghost var at: nat := from;
    for i := from to |log|
      invariant live == Live(log[..i], excluded) && held == Held(log[..i], excluded, apart)
      invariant at <= i && at == FirstPeak(log[..i], from, excluded)
      invariant top == Live(log[..at], excluded) && bytesAtTop == Live(log[..at], excluded + apart)
    {
      var key, delta := log[i].key, log[i].delta;
      SumsStep(log, i, excluded, apart);
      PeakStep(log, from, excluded, i, at);
      LeavingOutTheHeld(log[..i + 1], excluded, apart);
      if key !in excluded {
        live := live + delta;
        held := held + (if key in apart then delta else 0);
        if live > top {
          top, bytesAtTop, at := live, live - held, i + 1;
        }
      }
    }
    assert log[..|log|] == log;
  }

  /** One more event moves the peak exactly when more is live after it than was at the peak so far. */
  lemma PeakStep(log: seq<Event>, from: nat, excluded: set<Key>, i: nat, at: nat)
    requires from <= i < |log| && at == FirstPeak(log[..i], from, excluded)
    ensures FirstPeak(log[..i + 1], from, excluded) ==
            if Live(log[..i + 1], excluded) > Live(log[..at], excluded) then i + 1 else at
    ensures Live(log[..i], excluded) <= Live(log[..at], excluded)
  {
    FirstPeakStep(log, from, excluded, i);
    FirstPeakIsFirst(log[..i], from, excluded, i);
    assert log[..i][..i] == log[..i] && log[..i][..at] == log[..at];
  }

  // ---- what the peak means -----------------------------------------------------------------

  /** The log only grows, by at most one event an action. */
  lemma {:induction false} LogsArePrefixes(t: Tracker, acts: seq<Action>, j: nat)
    requires Runs(t, acts) && j <= |acts|
    ensures Runs(t, acts[..j]) && After(t, acts[..j]).events <= After(t, acts).events
    ensures j < |acts| ==>
              Runs(t, acts[..j + 1]) && |After(t, acts[..j + 1]).events| <= |After(t, acts[..j]).events| + 1
    decreases |acts|
  {
    if j == |acts| {
      assert acts[..j] == acts;
    } else {
      var n := |acts| - 1;
      LogsArePrefixes(t, acts[..n], j);
      assert acts[..n][..j] == acts[..j];
      if j < n {
        assert acts[..n][..j + 1] == acts[..j + 1];
      } else {
        assert acts[..j + 1] == acts && acts[..j] == acts[..n];
      }
    }
  }

  /** Before a moment of a run its log has fewer than n events. */
  predicate LogsBelow(acts: seq<Action>, j: nat, n: nat)
    requires j <= |acts|
  {
    forall i | 0 <= i < j :: Runs(NEW_TRACKER, acts[..i]) && |After(NEW_TRACKER, acts[..i]).events| < n
  }

  /** The first moment of a run at which its log had n events. */
  lemma {:induction false} MomentOf(acts: seq<Action>, n: nat) returns (j: nat)
    requires Runs(NEW_TRACKER, acts) && n <= |After(NEW_TRACKER, acts).events|
    ensures j <= |acts| && Runs(NEW_TRACKER, acts[..j])
    ensures After(NEW_TRACKER, acts[..j]).events == After(NEW_TRACKER, acts).events[..n]
    ensures LogsBelow(acts, j, n)
  {
    var last := |acts| - 1;
    if acts != [] && n <= |After(NEW_TRACKER, acts[..last]).events| {
      LogsArePrefixes(NEW_TRACKER, acts, last);
      j := MomentOf(acts[..last], n);
      forall i | 0 <= i <= j ensures acts[..last][..i] == acts[..i] {}
    } else {
      j := |acts|;
      assert acts[..j] == acts;
      forall i | 0 <= i < j
        ensures Runs(NEW_TRACKER, acts[..i]) && |After(NEW_TRACKER, acts[..i]).events| < n
      {
        LogsArePrefixes(NEW_TRACKER, acts[..last], i);
        assert acts[..last][..i] == acts[..i];
      }
      if acts != [] {
        LogsArePrefixes(NEW_TRACKER, acts, last);
        assert acts[..last + 1] == acts;
      }
    }
  }

  /** The live bytes of a moment of a run, but for some storages'. */
  ghost function LiveAt(acts: seq<Action>, j: nat, excluded: set<Key>): nat
    requires j <= |acts| && Runs(NEW_TRACKER, acts[..j])
  {
    SumSizes(After(NEW_TRACKER, acts[..j]).sizes - excluded)
  }

  /** The first moment, from a given one on, at which the storages that are not excluded hold the most. */
  ghost predicate FirstMost(acts: seq<Action>, from: nat, excluded: set<Key>, j: nat) {
    && from <= j <= |acts| && Runs(NEW_TRACKER, acts[..j])
    && forall i | from <= i <= |acts| ::
         && Runs(NEW_TRACKER, acts[..i])
         && LiveAt(acts, i, excluded) <= LiveAt(acts, j, excluded)
         && (i < j ==> LiveAt(acts, i, excluded) < LiveAt(acts, j, excluded))
  }

  /**
   * What a peak reports: the bytes of the storages neither excluded nor apart that lived at the first
   * moment, from the one the peak is taken from, at which the storages that are not excluded held the
   * most.
   */
  lemma PeakIsOfLiveStorages(acts: seq<Action>, from: nat, excluded: set<Key>, apart: set<Key>) returns (j: nat)
    requires Runs(NEW_TRACKER, acts) && from <= |acts|
    ensures FirstMost(acts, from, excluded, j)
    ensures Runs(NEW_TRACKER, acts[..from])
    ensures var events, start := After(NEW_TRACKER, acts).events, |After(NEW_TRACKER, acts[..from]).events|;
            && start <= |events|
            && Live(events[..FirstPeak(events, start, excluded)], excluded + apart)
               == LiveAt(acts, j, excluded + apart)
  {
    LogsArePrefixes(NEW_TRACKER, acts, from);
    var events, start := After(NEW_TRACKER, acts).events, |After(NEW_TRACKER, acts[..from]).events|;
    var at := FirstPeak(events, start, excluded);
    j := MomentFrom(acts, from, at);
    LogSumsToSizes(acts[..j], excluded + apart);
    forall i | from <= i <= |acts|
      ensures Runs(NEW_TRACKER, acts[..i]) && LiveAt(acts, i, excluded) <= LiveAt(acts, j, excluded)
      ensures i < j ==> LiveAt(acts, i, excluded) < LiveAt(acts, j, excluded)
    {
      AtPeakOrBelow(acts, from, i, j, excluded, events, start, at);
    }
  }

  lemma LogsGrow(acts: seq<Action>, i: nat, j: nat)
    requires Runs(NEW_TRACKER, acts) && i <= j <= |acts|
    ensures Runs(NEW_TRACKER, acts[..i]) && Runs(NEW_TRACKER, acts[..j])
    ensures After(NEW_TRACKER, acts[..i]).events <= After(NEW_TRACKER, acts[..j]).events
    ensures After(NEW_TRACKER, acts[..j]).events <= After(NEW_TRACKER, acts).events
  {
    LogsArePrefixes(NEW_TRACKER, acts, j);
    LogsArePrefixes(NEW_TRACKER, acts[..j], i);
    assert acts[..j][..i] == acts[..i];
  }

  /** The first moment, from a given one on, at which the log has n events. */
  lemma MomentFrom(acts: seq<Action>, from: nat, n: nat) returns (j: nat)
    requires Runs(NEW_TRACKER, acts) && from <= |acts| && Runs(NEW_TRACKER, acts[..from])
    requires |After(NEW_TRACKER, acts[..from]).events| <= n <= |After(NEW_TRACKER, acts).events|
    ensures from <= j <= |acts| && Runs(NEW_TRACKER, acts[..j])
    ensures After(NEW_TRACKER, acts[..j]).events == After(NEW_TRACKER, acts).events[..n]
    ensures j == from || LogsBelow(acts, j, n)
  {
    j := MomentOf(acts, n);
    if j < from {
      LogsGrow(acts, j, from);
      j := from;
    }
  }

  lemma AtPeakOrBelow(acts: seq<Action>, from: nat, i: nat, j: nat, excluded: set<Key>, events: seq<Event>, start: nat,
                      at: nat)
    requires Runs(NEW_TRACKER, acts) && from <= i <= |acts| && from <= j <= |acts|
    requires events == After(NEW_TRACKER, acts).events
    requires Runs(NEW_TRACKER, acts[..from]) && Runs(NEW_TRACKER, acts[..j])
    requires start == |After(NEW_TRACKER, acts[..from]).events| <= |events| && at == FirstPeak(events, start, excluded)
    requires After(NEW_TRACKER, acts[..j]).events == events[..at]
    requires j == from || LogsBelow(acts, j, at)
    ensures Runs(NEW_TRACKER, acts[..i]) && LiveAt(acts, i, excluded) <= LiveAt(acts, j, excluded)
    ensures i < j ==> LiveAt(acts, i, excluded) < LiveAt(acts, j, excluded)
  {
    LogsGrow(acts, from, i);
    LogSumsToSizes(acts[..i], excluded);
    LogSumsToSizes(acts[..j], excluded);
    var n := |After(NEW_TRACKER, acts[..i]).events|;
    assert After(NEW_TRACKER, acts[..i]).events == events[..n];
    FirstPeakIsFirst(events, start, excluded, n);
  }

  // ---- what a forward saves for its backward --------------------------------------------------

  /** What autograd saved, by storage and lifetime, and the op that first saved each. */
  datatype Saves<Op> = Saves(saved: map<Key, nat>, savedOp: map<Key, Op>)

  /** The forward's actions: allocations, frees, and saves of a storage, for an op if ops are told apart. */
  datatype Step<Op> = Memory(action: Action) | Pack(address: int, nbytes: nat, op: Option<Op>)

  function Packed<Op>(s: Saves<Op>, t: Tracker, stored: set<int>, address: int, nbytes: nat, op: Option<Op>)
    : Saves<Op>
  {
    if address in stored then s
    else
      var key := KeyAt(t, address);
      Saves(s.saved[key := nbytes],
            if op.Some? && key !in s.savedOp then s.savedOp[key := op.value] else s.savedOp)
  }

  predicate ForwardRuns<Op>(t: Tracker, steps: seq<Step<Op>>) {
    Runs(t, Actions(steps))
  }

  /** The memory actions of a forward. */
  function Actions<Op>(steps: seq<Step<Op>>): seq<Action> {
    if steps == [] then []
    else
      var last := steps[|steps| - 1];
      Actions(steps[..|steps| - 1]) + (if last.Memory? then [last.action] else [])
  }

  lemma EarlierRuns<Op>(t: Tracker, steps: seq<Step<Op>>)
    requires steps != [] && ForwardRuns(t, steps)
    ensures ForwardRuns(t, steps[..|steps| - 1])
  {
    var acts, before := Actions(steps), Actions(steps[..|steps| - 1]);
    if steps[|steps| - 1].Memory? {
      assert acts[..|acts| - 1] == before;
    } else {
      assert before + [] == before;
    }
  }

  function SavesAfter<Op>(t: Tracker, stored: set<int>, steps: seq<Step<Op>>): Saves<Op>
    requires ForwardRuns(t, steps)
  {
    if steps == [] then Saves(map[], map[])
    else
      EarlierRuns(t, steps);
      var before, last := steps[..|steps| - 1], steps[|steps| - 1];
      var s := SavesAfter(t, stored, before);
      if last.Memory? then s
      else Packed(s, After(t, Actions(before)), stored, last.address, last.nbytes, last.op)
  }

  /** The saves still live once the forward has run. */
  function StillHeld<Op>(s: Saves<Op>, end: Tracker): map<Key, nat> {
    map key | key in s.saved && key in end.sizes :: s.saved[key]
  }

  /** A save that the forward freed is left out, even if its address holds another one by then. */
  lemma FreedSavesAreLeftOut<Op>(inputs: seq<Action>, stored: set<int>, steps: seq<Step<Op>>, i: nat)
    requires Runs(NEW_TRACKER, inputs) && ForwardRuns(After(NEW_TRACKER, inputs), steps)
    requires i < |Actions(steps)| && Actions(steps)[i].Free?
    ensures var t := After(NEW_TRACKER, inputs);
            Actions(steps)[i].key !in StillHeld(SavesAfter(t, stored, steps), After(t, Actions(steps)))
  {
    var acts := Actions(steps);
    JoinRun(NEW_TRACKER, inputs, acts);
    assert (inputs + acts)[|inputs| + i] == acts[i] && (inputs + acts)[..|inputs + acts|] == inputs + acts;
    FreedStaysFreed(inputs + acts, |inputs| + i, |inputs| + |acts|);
  }

  lemma {:induction false} JoinRun(t: Tracker, before: seq<Action>, rest: seq<Action>)
    requires Runs(t, before) && Runs(After(t, before), rest)
    ensures Runs(t, before + rest) && After(t, before + rest) == After(After(t, before), rest)
    decreases |rest|
  {
    if rest == [] {
      assert before + rest == before;
    } else {
      var earlier, all := rest[..|rest| - 1], before + rest;
      assert all[..|all| - 1] == before + earlier;
      JoinRun(t, before, earlier);
    }
  }

  lemma {:induction false} SplitRun(t: Tracker, before: seq<Action>, rest: seq<Action>)
    requires Runs(t, before + rest)
    ensures Runs(t, before) && Runs(After(t, before), rest)
    ensures After(After(t, before), rest) == After(t, before + rest)
    decreases |rest|
  {
    if rest == [] {
      assert before + rest == before;
    } else {
      var earlier, all := rest[..|rest| - 1], before + rest;
      assert all[..|all| - 1] == before + earlier;
      SplitRun(t, before, earlier);
    }
  }

  /** Every save has an op when every pack names one. */
  lemma {:induction false} EverySaveHasAnOp<Op>(t: Tracker, stored: set<int>, steps: seq<Step<Op>>)
    requires ForwardRuns(t, steps) && forall s | s in steps && s.Pack? :: s.op.Some?
    ensures SavesAfter(t, stored, steps).saved.Keys == SavesAfter(t, stored, steps).savedOp.Keys
  {
    if steps != [] {
      EarlierRuns(t, steps);
      EverySaveHasAnOp(t, stored, steps[..|steps| - 1]);
      assert steps[|steps| - 1] in steps;
    }
  }

  /** What is held for one op. */
  function SavedFor<Op(==)>(held: map<Key, nat>, savedOp: map<Key, Op>, op: Op): map<Key, nat> {
    map key | key in held && key in savedOp && savedOp[key] == op :: held[key]
  }

  ghost function HeldFor<Op>(held: map<Key, nat>, savedOp: map<Key, Op>, op: Op): nat {
    SumSizes(SavedFor(held, savedOp, op))
  }

  function Get<Op(==)>(bytes: map<Op, nat>, op: Op): nat {
    if op in bytes then bytes[op] else 0
  }

  /** The ops' bytes with one more held storage counted. */
  function Counted<Op(==)>(bytes: map<Op, nat>, key: Key, size: nat, savedOp: map<Key, Op>): map<Op, nat> {
    if key in savedOp then bytes[savedOp[key] := Get(bytes, savedOp[key]) + size] else bytes
  }

  lemma CountOneMore<Op(!new)>(before: map<Op, nat>, bytes: map<Op, nat>, held: map<Key, nat>, key: Key, size: nat,
                               savedOp: map<Key, Op>)
    requires key !in held && forall op :: Get(bytes, op) == Get(before, op) + HeldFor(held, savedOp, op)
    ensures forall op :: Get(Counted(bytes, key, size, savedOp), op) ==
                         Get(before, op) + HeldFor(held[key := size], savedOp, op)
  {
    forall op
      ensures Get(Counted(bytes, key, size, savedOp), op) == Get(before, op) + HeldFor(held[key := size], savedOp, op)
    {
      OneMoreHeld(held, key, size, savedOp, op);
      assert Get(bytes, op) == Get(before, op) + HeldFor(held, savedOp, op);
    }
  }

  /** The held bytes, each counted toward the op that first saved it. */
  method CountByOp<Op(==, !new)>(held: map<Key, nat>, savedOp: map<Key, Op>, before: map<Op, nat>)
    returns (bytes: map<Op, nat>)
    ensures forall op :: Get(bytes, op) == Get(before, op) + HeldFor(held, savedOp, op)
  {
    bytes := before;
    var rest := held.Keys;
    ghost var done: map<Key, nat> := map[];
    forall op ensures HeldFor(done, savedOp, op) == 0 {
      assert SavedFor(done, savedOp, op) == map[];
    }
    while rest != {}
      invariant rest <= held.Keys && done == held - rest
      invariant forall op :: Get(bytes, op) == Get(before, op) + HeldFor(done, savedOp, op)
      decreases |rest|
    {
      var key :| key in rest;
      rest := rest - {key};
      CountOneMore(before, bytes, done, key, held[key], savedOp);
      done := done[key := held[key]];
      bytes := Counted(bytes, key, held[key], savedOp);
      assert done == held - rest;
    }
    assert held - {} == held;
  }

  lemma OneMoreHeld<Op>(held: map<Key, nat>, key: Key, size: nat, savedOp: map<Key, Op>, op: Op)
    requires key !in held
    ensures HeldFor(held[key := size], savedOp, op) ==
            HeldFor(held, savedOp, op) + (if key in savedOp && savedOp[key] == op then size else 0)
  {
    var few, more := SavedFor(held, savedOp, op), SavedFor(held[key := size], savedOp, op);
    if key in savedOp && savedOp[key] == op {
      SumSizesRemove(more, key);
      assert more - {key} == few;
    } else {
      assert more == few;
    }
  }

  lemma WithoutOp<Op(!new)>(before: map<Op, nat>, bytes: map<Op, nat>, op: Op)
    requires forall other :: Get(bytes, other) == Get(before, other)
    ensures forall other :: Get(bytes - {op}, other) == Get(before - {op}, other)
    ensures SumSizes(before) == Get(before, op) + SumSizes(before - {op})
    ensures SumSizes(bytes) == Get(before, op) + SumSizes(bytes - {op})
  {
    assert Get(bytes, op) == Get(before, op);
    if op in before { SumSizesRemove(before, op); } else { assert before - {op} == before; }
    if op in bytes { SumSizesRemove(bytes, op); } else { assert bytes - {op} == bytes; }
    forall other ensures Get(bytes - {op}, other) == Get(before - {op}, other) {
      assert Get(bytes, other) == Get(before, other);
    }
  }

  lemma {:induction false} SameBytes<Op(!new)>(before: map<Op, nat>, bytes: map<Op, nat>)
    requires forall op :: Get(bytes, op) == Get(before, op)
    ensures SumSizes(bytes) == SumSizes(before)
    decreases |before| + |bytes|
  {
    if op :| op in before.Keys + bytes.Keys {
      WithoutOp(before, bytes, op);
      SameBytes(before - {op}, bytes - {op});
    }
  }

  lemma LessBytes<Op>(bytes: map<Op, nat>, op: Op, size: nat)
    requires size <= Get(bytes, op)
    ensures SumSizes(bytes) == SumSizes(bytes[op := Get(bytes, op) - size]) + size
  {
    var fewer := bytes[op := Get(bytes, op) - size];
    SumSizesRemove(fewer, op);
    assert fewer - {op} == bytes - {op};
    if op in bytes { SumSizesRemove(bytes, op); } else { assert bytes - {op} == bytes; }
  }

  /** Counted by op, the held bytes are all there: the ops' bytes grow by exactly what the forward is said to save. */
  lemma {:induction false} OpsSumToHeld<Op(!new)>(held: map<Key, nat>, savedOp: map<Key, Op>, before: map<Op, nat>,
                                                  bytes: map<Op, nat>)
    requires held.Keys <= savedOp.Keys
    requires forall op :: Get(bytes, op) == Get(before, op) + HeldFor(held, savedOp, op)
    ensures SumSizes(bytes) == SumSizes(before) + SumSizes(held)
    decreases |held|
  {
    if key :| key in held {
      var op, rest := savedOp[key], held - {key};
      assert rest[key := held[key]] == held;
      forall other ensures HeldFor(held, savedOp, other) ==
                           HeldFor(rest, savedOp, other) + (if savedOp[key] == other then held[key] else 0) {
        OneMoreHeld(rest, key, held[key], savedOp, other);
      }
      assert Get(bytes, op) == Get(before, op) + HeldFor(held, savedOp, op);
      var fewer := bytes[op := Get(bytes, op) - held[key]];
      LessBytes(bytes, op, held[key]);
      forall other ensures Get(fewer, other) == Get(before, other) + HeldFor(rest, savedOp, other) {
        assert Get(bytes, other) == Get(before, other) + HeldFor(held, savedOp, other);
      }
      OpsSumToHeld(rest, savedOp, before, fewer);
      SumSizesRemove(held, key);
    } else {
      forall op ensures Get(bytes, op) == Get(before, op) {
        assert SavedFor(held, savedOp, op) == map[];
        assert Get(bytes, op) == Get(before, op) + HeldFor(held, savedOp, op);
      }
      assert held == map[];
      SameBytes(before, bytes);
    }
  }

  // ---- measuring a layer ------------------------------------------------------------------------

  method SumOf<K(==)>(sizes: map<K, nat>) returns (sum: nat)
    ensures sum == SumSizes(sizes)
  {
    sum := 0;
    var rest := sizes;
    while rest != map[]
      invariant sum + SumSizes(rest) == SumSizes(sizes)
      decreases |rest|
    {
      var key :| key in rest;
      SumSizesRemove(rest, key);
      sum := sum + rest[key];
      rest := rest - {key};
    }
  }

  method Act(live: LiveBytes, a: Action)
    requires Enabled(live.View(), a)
    modifies live
    ensures live.View() == Apply(old(live.View()), a)
  {
    match a {
      case Track(address, nbytes) => live.Track(address, nbytes);
      case Free(key) => live.Free(key);
    }
  }

  method ActAll(live: LiveBytes, acts: seq<Action>)
    requires Runs(live.View(), acts)
    modifies live
    ensures live.View() == After(old(live.View()), acts)
  {
    ghost var t := live.View();
    for i := 0 to |acts|
      invariant Runs(t, acts[..i]) && live.View() == After(t, acts[..i])
    {
      LogsArePrefixes(t, acts, i + 1);
      assert acts[..i + 1][..i] == acts[..i];
      Act(live, acts[i]);
    }
    assert acts[..|acts|] == acts;
  }

  lemma ForwardPrefix<Op>(t: Tracker, steps: seq<Step<Op>>, i: nat)
    requires ForwardRuns(t, steps) && i < |steps|
    ensures ForwardRuns(t, steps[..i]) && ForwardRuns(t, steps[..i + 1])
    ensures steps[i].Memory? ==> Enabled(After(t, Actions(steps[..i])), steps[i].action)
    ensures steps[i].Memory? ==> Actions(steps[..i + 1]) == Actions(steps[..i]) + [steps[i].action]
    ensures steps[i].Pack? ==> Actions(steps[..i + 1]) == Actions(steps[..i])
    decreases |steps|
  {
    var n := |steps| - 1;
    EarlierRuns(t, steps);
    if i < n {
      ForwardPrefix(t, steps[..n], i);
      assert steps[..n][..i] == steps[..i] && steps[..n][..i + 1] == steps[..i + 1];
    } else {
      assert steps[..i + 1] == steps;
      var acts := Actions(steps);
      if steps[n].Memory? {
        assert acts[..|acts| - 1] == Actions(steps[..n]);
      } else {
        assert Actions(steps[..n]) + [] == Actions(steps[..n]);
      }
    }
  }

  /** Run a forward: its allocations and frees, and what autograd saves. */
  method RunForward<Op(==)>(live: LiveBytes, stored: set<int>, steps: seq<Step<Op>>) returns (saves: Saves<Op>)
    requires ForwardRuns(live.View(), steps)
    modifies live
    ensures live.View() == After(old(live.View()), Actions(steps))
    ensures saves == SavesAfter(old(live.View()), stored, steps)
  {
    ghost var t := live.View();
    saves := Saves(map[], map[]);
    for i := 0 to |steps|
      invariant ForwardRuns(t, steps[..i]) && live.View() == After(t, Actions(steps[..i]))
      invariant saves == SavesAfter(t, stored, steps[..i])
    {
      ForwardPrefix(t, steps, i);
      assert steps[..i + 1][..i] == steps[..i];
      if steps[i].Memory? {
        assert Actions(steps[..i + 1])[..|Actions(steps[..i])|] == Actions(steps[..i]);
        Act(live, steps[i].action);
      } else if steps[i].address !in stored {
        var key := live.KeyOf(steps[i].address);
        saves := Saves(
          saves.saved[key := steps[i].nbytes],
          if steps[i].op.Some? && key !in saves.savedOp then saves.savedOp[key := steps[i].op.value]
          else saves.savedOp);
      }
    }
    assert steps[..|steps|] == steps;
  }

  /** What a measurement is taken of: addresses of what runs, and the actions of its forward and backward. */
  datatype Layer<Op> = Layer(
    params: set<int>, inputs: seq<Action>, forward: seq<Step<Op>>, output: int, shared: set<int>,
    gradInputs: seq<Action>, backward: seq<Action>, grads: set<Key>)

  /** What happens up to the end of the forward ... */
  function ForwardActs<Op>(layer: Layer<Op>): seq<Action> {
    layer.inputs + Actions(layer.forward)
  }

  /** ... and to the end of the backward. */
  function LayerActs<Op>(layer: Layer<Op>): seq<Action> {
    ForwardActs(layer) + (layer.gradInputs + layer.backward)
  }

  /** Whether a finalizer only ever runs for a storage that is tracked and live, from a new tracker on. */
  predicate LayerRuns<Op>(layer: Layer<Op>) {
    Runs(NEW_TRACKER, LayerActs(layer))
  }

  function ForwardEnd<Op>(layer: Layer<Op>): Tracker
    requires LayerRuns(layer)
  {
    SplitRun(NEW_TRACKER, ForwardActs(layer), layer.gradInputs + layer.backward);
    After(NEW_TRACKER, ForwardActs(layer))
  }

  /** The parts of a layer's run, each from where the one before ended. */
  lemma LayerParts<Op>(layer: Layer<Op>)
    requires LayerRuns(layer)
    ensures Runs(NEW_TRACKER, layer.inputs) && ForwardRuns(After(NEW_TRACKER, layer.inputs), layer.forward)
    ensures ForwardEnd(layer) == After(After(NEW_TRACKER, layer.inputs), Actions(layer.forward))
    ensures Runs(ForwardEnd(layer), layer.gradInputs)
    ensures Runs(After(ForwardEnd(layer), layer.gradInputs), layer.backward)
    ensures After(After(ForwardEnd(layer), layer.gradInputs), layer.backward) == After(NEW_TRACKER, LayerActs(layer))
  {
    SplitRun(NEW_TRACKER, ForwardActs(layer), layer.gradInputs + layer.backward);
    SplitRun(NEW_TRACKER, layer.inputs, Actions(layer.forward));
    SplitRun(ForwardEnd(layer), layer.gradInputs, layer.backward);
  }

  function LayerSaves<Op>(layer: Layer<Op>): Saves<Op>
    requires LayerRuns(layer)
  {
    LayerParts(layer);
    SavesAfter(After(NEW_TRACKER, layer.inputs), layer.params, layer.forward)
  }

  function KeysAt(t: Tracker, addresses: set<int>): set<Key> {
    set a | a in addresses :: KeyAt(t, a)
  }

  /** The storages neither count of the backward holds: the output's and the parameters'. */
  function LeftOut<Op>(layer: Layer<Op>): set<Key>
    requires LayerRuns(layer)
  {
    KeysAt(ForwardEnd(layer), layer.params + {layer.output})
  }

  /**
   * Bytes a forward saves for its backward, and what the backward holds when it holds the most.  Told
   * apart by op, the ops' bytes grow by what the forward is said to save, unless it is checkpointed.
   * The peak is what was live at the first moment, from the end of the forward on, at which the
   * storages it does not leave out held the most, less the parameters' gradients.
   */
  method Measure<Op(==, !new)>(layer: Layer<Op>, checkpointed: bool, ops: map<Op, nat>)
    returns (saved: nat, peak: int, byOp: map<Op, nat>)
    requires LayerRuns(layer)
    ensures var end, held := ForwardEnd(layer), StillHeld(LayerSaves(layer), ForwardEnd(layer));
            && saved == (if checkpointed then SumSizes(end.sizes - (LeftOut(layer) + KeysAt(end, layer.shared)))
                         else SumSizes(held))
            && (forall op :: Get(byOp, op) == Get(ops, op) + HeldFor(held, LayerSaves(layer).savedOp, op))
            && ((forall s | s in layer.forward && s.Pack? :: s.op.Some?) ==>
                  SumSizes(byOp) == SumSizes(ops) + SumSizes(held))
    ensures 0 <= peak
    ensures exists j :: FirstMost(LayerActs(layer), |ForwardActs(layer)|, LeftOut(layer), j)
                        && peak == LiveAt(LayerActs(layer), j, LeftOut(layer) + layer.grads)
  {
    LayerParts(layer);
    var live := new LiveBytes();
    var saves, leftOut, kept := MeasureForward(live, layer);
    var start := |live.events|;
    var held := StillHeldNow(saves, live.sizes);
    assert held == StillHeld(saves, ForwardEnd(layer));
    MeasureBackward(live, layer);
    byOp := CountSaves(layer, held, saves, ops);
    var heldBytes := SumOf(held);
    saved := if checkpointed then kept else heldBytes;
    peak := live.Peak(start, leftOut, layer.grads);
    ghost var acts := LayerActs(layer);
    assert acts[..|ForwardActs(layer)|] == ForwardActs(layer);
    ghost var j := PeakIsOfLiveStorages(acts, |ForwardActs(layer)|, leftOut, layer.grads);
  }

  method CountSaves<Op(==, !new)>(layer: Layer<Op>, held: map<Key, nat>, saves: Saves<Op>, ops: map<Op, nat>)
    returns (byOp: map<Op, nat>)
    requires LayerRuns(layer) && saves == LayerSaves(layer) && held == StillHeld(saves, ForwardEnd(layer))
    ensures forall op :: Get(byOp, op) == Get(ops, op) + HeldFor(held, saves.savedOp, op)
    ensures (forall s | s in layer.forward && s.Pack? :: s.op.Some?) ==>
              SumSizes(byOp) == SumSizes(ops) + SumSizes(held)
  {
    byOp := CountByOp(held, saves.savedOp, ops);
    if forall s | s in layer.forward && s.Pack? :: s.op.Some? {
      LayerParts(layer);
      EverySaveHasAnOp(After(NEW_TRACKER, layer.inputs), layer.params, layer.forward);
      OpsSumToHeld(held, saves.savedOp, ops, byOp);
    }
  }

  function StillHeldNow<Op>(s: Saves<Op>, sizes: map<Key, nat>): map<Key, nat> {
    map key | key in s.saved && key in sizes :: s.saved[key]
  }

  method MeasureForward<Op(==)>(live: LiveBytes, layer: Layer<Op>)
    returns (saves: Saves<Op>, leftOut: set<Key>, kept: nat)
    requires LayerRuns(layer) && live.View() == NEW_TRACKER
    modifies live
    ensures live.View() == ForwardEnd(layer)
    ensures saves == LayerSaves(layer) && leftOut == LeftOut(layer)
    ensures kept == SumSizes(live.sizes - (leftOut + KeysAt(live.View(), layer.shared)))
  {
    LayerParts(layer);
    ActAll(live, layer.inputs);
    saves := RunForward(live, layer.params, layer.forward);
    leftOut := set a | a in layer.params + {layer.output} :: live.KeyOf(a);
    assert leftOut == KeysAt(live.View(), layer.params + {layer.output});
    var shared := set a | a in layer.shared :: live.KeyOf(a);
    assert shared == KeysAt(live.View(), layer.shared);
    kept := SumOf(live.sizes - (leftOut + shared));
  }

  method MeasureBackward<Op>(live: LiveBytes, layer: Layer<Op>)
    requires LayerRuns(layer) && live.View() == ForwardEnd(layer)
    modifies live
    ensures live.View() == After(NEW_TRACKER, LayerActs(layer))
  {
    LayerParts(layer);
    ActAll(live, layer.gradInputs);
    ActAll(live, layer.backward);
  }
}
