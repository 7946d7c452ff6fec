/** One-shot and repeating callbacks measured in milliseconds of accumulated frame time.
    The caller converts the frame delta from seconds to milliseconds before `Update`. */
module Timers {
  import opened Seqs
  import opened OrderedMaps

  type TimerId = nat

  /** An opaque callback identity; invoking callbacks is reported as the ids of the timers fired. */
  type Callback = nat

  datatype Timer = Timer(id: TimerId, callback: Callback, delay: int, elapsed: nat, isInterval: bool, active: bool)

  /** The timer table: a JavaScript `Map` from id to timer, iterated in insertion order. */
  type Table = OrderedMap<TimerId, Timer>

  /** A timer fires on an update of `deltaMs` exactly when its new elapsed time reaches its delay. */
  predicate Fires(t: Timer, deltaMs: nat) {
    t.elapsed + deltaMs >= t.delay
  }

  /** A one-shot timer that fires is scheduled for removal. */
  predicate Expires(t: Timer, deltaMs: nat) {
    Fires(t, deltaMs) && !t.isInterval
  }

  /** A timer's record after an update: its elapsed time grows by the delta, and an interval
      that fires gives back one delay, keeping the overshoot. */
  function Advance(t: Timer, deltaMs: nat): Timer {
    var e := t.elapsed + deltaMs;
    t.(elapsed := if e >= t.delay && t.isInterval then e - t.delay else e)
  }

  /** The timers among `keys` whose callbacks fire during an update of `deltaMs`, in the order of
      `keys`. */
  function FiredAmong(keys: seq<TimerId>, tm: Table, deltaMs: nat): seq<TimerId> {
    if keys == [] then []
    else
      var k := keys[|keys| - 1];
      FiredAmong(keys[..|keys| - 1], tm, deltaMs) + (if k in tm.values && Fires(tm.values[k], deltaMs) then [k] else [])
  }

  /** The one-shot timers among `keys` that fire during an update of `deltaMs`, in order. */
  function ExpiredAmong(keys: seq<TimerId>, tm: Table, deltaMs: nat): seq<TimerId> {
    if keys == [] then []
    else
      var k := keys[|keys| - 1];
      ExpiredAmong(keys[..|keys| - 1], tm, deltaMs) + (if k in tm.values && Expires(tm.values[k], deltaMs) then [k] else [])
  }

  /** The one-shot timers that fire, and are removed, during an update of `deltaMs`. */
  function Expired(tm: Table, deltaMs: nat): set<TimerId> {
    set k | k in tm.values && Expires(tm.values[k], deltaMs)
  }

  /** The timers that remain in the table after an update of `deltaMs`. */
  function Kept(tm: Table, deltaMs: nat): set<TimerId> {
    set k | k in tm.values && !Expires(tm.values[k], deltaMs)
  }

  /** The callbacks `Update` invokes, as timer ids in the table's iteration order. */
  function Fired(tm: Table, deltaMs: nat): seq<TimerId> {
    FiredAmong(tm.keys, tm, deltaMs)
  }

  /** The table after `Update`: every timer advanced, fired one-shots deleted. */
  function AfterUpdate(tm: Table, deltaMs: nat): Table {
    OrderedMap(Without(tm.keys, Expired(tm, deltaMs)),
               map k | k in Kept(tm, deltaMs) :: Advance(tm.values[k], deltaMs))
  }

  /** What the manager keeps true of its table between calls. */
  ghost predicate WellFormed(tm: Table, nextId: nat) {
    && tm.Valid()
    && 1 <= nextId
    && forall k :: k in tm.values ==> 1 <= k < nextId && tm.values[k].id == k && tm.values[k].active
  }

  /** `Update` keeps the table well formed. */
  lemma AfterUpdateWellFormed(tm: Table, nextId: nat, deltaMs: nat)
    requires WellFormed(tm, nextId)
    ensures WellFormed(AfterUpdate(tm, deltaMs), nextId)
  {
    var r := AfterUpdate(tm, deltaMs);
    WithoutDistinct(tm.keys, Expired(tm, deltaMs));
    forall k | k in r.keys ensures k in r.values {
      assert k in tm.keys && k !in Expired(tm, deltaMs);
    }
  }

  /** The timer records part-way through the sweep: those in `done` are advanced. */
  function AdvancedSome(values: map<TimerId, Timer>, done: set<TimerId>, deltaMs: nat): map<TimerId, Timer> {
    map k | k in values :: if k in done then Advance(values[k], deltaMs) else values[k]
  }

  lemma AdvanceOneMore(values: map<TimerId, Timer>, done: set<TimerId>, id: TimerId, deltaMs: nat)
    requires id in values && id !in done
    ensures AdvancedSome(values, done + {id}, deltaMs)
         == AdvancedSome(values, done, deltaMs)[id := Advance(values[id], deltaMs)]
  {
  }

  /** One step of `Update`'s sweep, at position `i` of the iteration order. */
  lemma SweepStep(tm: Table, i: nat, deltaMs: nat)
    requires tm.Valid() && i < |tm.keys|
    ensures var k := tm.keys[i];
      && k in tm.values
      && AdvancedSome(tm.values, Elements(tm.keys[..i]), deltaMs)[k] == tm.values[k]
      && AdvancedSome(tm.values, Elements(tm.keys[..i + 1]), deltaMs)
         == AdvancedSome(tm.values, Elements(tm.keys[..i]), deltaMs)[k := Advance(tm.values[k], deltaMs)]
      && FiredAmong(tm.keys[..i + 1], tm, deltaMs)
         == FiredAmong(tm.keys[..i], tm, deltaMs) + (if Fires(tm.values[k], deltaMs) then [k] else [])
      && ExpiredAmong(tm.keys[..i + 1], tm, deltaMs)
         == ExpiredAmong(tm.keys[..i], tm, deltaMs) + (if Expires(tm.values[k], deltaMs) then [k] else [])
  {
    var keys := tm.keys;
    var k := keys[i];
    assert keys[..i + 1][..i] == keys[..i];
    assert Elements(keys[..i + 1]) == Elements(keys[..i]) + {k};
    assert k !in Elements(keys[..i]);
    AdvanceOneMore(tm.values, Elements(keys[..i]), k, deltaMs);
  }

  lemma AdvancedAll(values: map<TimerId, Timer>, deltaMs: nat)
    ensures AdvancedSome(values, values.Keys, deltaMs) == map k | k in values :: Advance(values[k], deltaMs)
  {
  }

  /** Advancing every timer and then deleting the expired ones is `AfterUpdate`. */
  lemma SweepThenDelete(tm: Table, deltaMs: nat)
    ensures AfterUpdate(tm, deltaMs) ==
      OrderedMap(Without(tm.keys, Expired(tm, deltaMs)),
                 (map k | k in tm.values :: Advance(tm.values[k], deltaMs)) - Expired(tm, deltaMs))
  {
  }

  /** Deleting the one-shots the sweep collected from the advanced table gives `AfterUpdate`. */
  lemma DeleteExpired(tm: Table, deltaMs: nat, completed: seq<TimerId>)
    requires tm.Valid() && completed == ExpiredAmong(tm.keys, tm, deltaMs)
    ensures AfterUpdate(tm, deltaMs) ==
      OrderedMap(tm.keys, map k | k in tm.values :: Advance(tm.values[k], deltaMs)).RemoveAll(Elements(completed))
  {
    ExpiredAmongMembers(tm.keys, tm, deltaMs);
    assert Elements(completed) == Expired(tm, deltaMs);
    SweepThenDelete(tm, deltaMs);
  }

  lemma {:induction false} FiredAmongMembers(keys: seq<TimerId>, tm: Table, deltaMs: nat)
    requires forall k :: k in keys ==> k in tm.values
    ensures forall k :: k in FiredAmong(keys, tm, deltaMs) ==> k in keys && Fires(tm.values[k], deltaMs)
    ensures forall k :: k in keys && Fires(tm.values[k], deltaMs) ==> k in FiredAmong(keys, tm, deltaMs)
    ensures Distinct(keys) ==> Distinct(FiredAmong(keys, tm, deltaMs))
  {
    if keys != [] {
      var init := keys[..|keys| - 1];
      assert keys == init + [keys[|keys| - 1]];
      FiredAmongMembers(init, tm, deltaMs);
      if Distinct(keys) {
        assert Distinct(init);
      }
    }
  }

  lemma {:induction false} ExpiredAmongMembers(keys: seq<TimerId>, tm: Table, deltaMs: nat)
    requires forall k :: k in keys ==> k in tm.values
    ensures forall k :: k in ExpiredAmong(keys, tm, deltaMs) ==> k in keys && Expires(tm.values[k], deltaMs)
    ensures forall k :: k in keys && Expires(tm.values[k], deltaMs) ==> k in ExpiredAmong(keys, tm, deltaMs)
  {
    if keys != [] {
      var init := keys[..|keys| - 1];
      assert keys == init + [keys[|keys| - 1]];
      ExpiredAmongMembers(init, tm, deltaMs);
    }
  }

  /** A timer fires exactly when its new elapsed time reaches its delay, and at most once per
      update: the fired ids are distinct and come from the table. */
  lemma FiresExactlyOnce(tm: Table, deltaMs: nat)
    requires tm.Valid()
    ensures forall k :: k in Fired(tm, deltaMs) ==>
              k in tm.values && tm.values[k].elapsed + deltaMs >= tm.values[k].delay
    ensures forall k :: k in tm.values && tm.values[k].elapsed + deltaMs >= tm.values[k].delay ==>
              k in Fired(tm, deltaMs)
    ensures Distinct(Fired(tm, deltaMs))
  {
    FiredAmongMembers(tm.keys, tm, deltaMs);
  }

  /** After an update every other timer's elapsed time has grown by the delta; a fired one-shot
      is gone; a fired interval keeps the overshoot `elapsed + delta - delay`, not zero. */
  lemma UpdateOutcome(tm: Table, deltaMs: nat, k: TimerId)
    requires tm.Valid() && k in tm.values
    ensures var t := tm.values[k]; var after := AfterUpdate(tm, deltaMs);
      && (Fires(t, deltaMs) && !t.isInterval ==> k !in after.values && k !in after.keys)
      && (Fires(t, deltaMs) && t.isInterval ==>
            k in after.values && after.values[k].elapsed == t.elapsed + deltaMs - t.delay)
      && (!Fires(t, deltaMs) ==>
            k in after.values && after.values[k].elapsed == t.elapsed + deltaMs)
      && (k in after.values ==> after.values[k].(elapsed := t.elapsed) == t)
  {
  }

  /** The table holding only `t`. */
  function Single(t: Timer): (r: Table)
    ensures r.Valid() && r.keys == [t.id] && r.values == map[t.id := t]
  {
    OrderedMap([t.id], map[t.id := t])
  }

  /** The callbacks an update of a table holding one timer invokes. */
  lemma SingleFired(t: Timer, deltaMs: nat)
    ensures Fired(Single(t), deltaMs) == (if Fires(t, deltaMs) then [t.id] else [])
  {
    var tm := Single(t);
    assert tm.keys[..0] == [];
    assert FiredAmong(tm.keys, tm, deltaMs)
        == FiredAmong([], tm, deltaMs) + (if Fires(t, deltaMs) then [t.id] else []);
  }

  /** A table holding one timer after an update. */
  lemma SingleAfter(t: Timer, deltaMs: nat)
    ensures AfterUpdate(Single(t), deltaMs)
         == if Expires(t, deltaMs) then OrderedMap([], map[]) else Single(Advance(t, deltaMs))
  {
    var tm := Single(t);
    if Expires(t, deltaMs) {
      assert Expired(tm, deltaMs) == {t.id};
      assert Kept(tm, deltaMs) == {};
    } else {
      assert Kept(tm, deltaMs) == {t.id};
      assert Expired(tm, deltaMs) == {};
    }
  }

  /** A one-shot timer of 1000 ms given four updates of 300 ms fires once, on the fourth, and is
      then absent. */
  lemma OneShotExample(cb: Callback)
    ensures var t0 := Single(Timer(1, cb, 1000, 0, false, true));
      var t1 := AfterUpdate(t0, 300);
      var t2 := AfterUpdate(t1, 300);
      var t3 := AfterUpdate(t2, 300);
      && Fired(t0, 300) == [] && Fired(t1, 300) == [] && Fired(t2, 300) == []
      && Fired(t3, 300) == [1] && AfterUpdate(t3, 300).values == map[]
  {
    var t := Timer(1, cb, 1000, 0, false, true);
    SingleFired(t, 300);
    SingleAfter(t, 300);
    SingleFired(t.(elapsed := 300), 300);
    SingleAfter(t.(elapsed := 300), 300);
    SingleFired(t.(elapsed := 600), 300);
    SingleAfter(t.(elapsed := 600), 300);
    SingleFired(t.(elapsed := 900), 300);
    SingleAfter(t.(elapsed := 900), 300);
  }

  /** An interval of 500 ms given one update of 1200 ms fires once and keeps 700 ms. */
  lemma IntervalExample(cb: Callback)
    ensures var t0 := Single(Timer(1, cb, 500, 0, true, true));
      && Fired(t0, 1200) == [1]
      && AfterUpdate(t0, 1200).values == map[1 := Timer(1, cb, 500, 700, true, true)]
  {
    SingleFired(Timer(1, cb, 500, 0, true, true), 1200);
    SingleAfter(Timer(1, cb, 500, 0, true, true), 1200);
  }

  class TimerManager {
    var timers: Table
    var nextId: nat

    ghost predicate Valid()
      reads this
    {
      WellFormed(timers, nextId)
    }

    constructor ()
      ensures Valid() && timers == Empty() && nextId == 1
    {
      timers := Empty();
      nextId := 1;
    }

    /** Schedules a one-shot timer; returns the next id, which no timer in the table has. */
    method SetTimeout(callback: Callback, delay: int) returns (id: TimerId)
      requires Valid()
      modifies this
      ensures Valid()
      ensures id == old(nextId) && nextId == id + 1 && id !in old(timers.values)
      ensures timers == old(timers).Put(id, Timer(id, callback, delay, 0, false, true))
      ensures timers.keys == old(timers.keys) + [id]
    {
      id := nextId;
      nextId := nextId + 1;
      timers := timers.Put(id, Timer(id, callback, delay, 0, false, true));
    }

    /** Schedules a repeating timer; ids are shared with `SetTimeout`. */
    method SetInterval(callback: Callback, interval: int) returns (id: TimerId)
      requires Valid()
      modifies this
      ensures Valid()
      ensures id == old(nextId) && nextId == id + 1 && id !in old(timers.values)
      ensures timers == old(timers).Put(id, Timer(id, callback, interval, 0, true, true))
      ensures timers.keys == old(timers.keys) + [id]
    {
      id := nextId;
      nextId := nextId + 1;
      timers := timers.Put(id, Timer(id, callback, interval, 0, true, true));
    }

    /** Removes the timer with that id; an unknown id changes nothing. */
    method ClearTimeout(id: TimerId)
      requires Valid()
      modifies this
      ensures Valid() && nextId == old(nextId)
      ensures timers == old(timers).Remove(id)
      ensures id !in old(timers.values) ==> timers == old(timers)
    {
      if id in timers.values {
        timers := timers.Remove(id);
      }
    }

    /** The same as `ClearTimeout`: either clears any timer by id. */
    method ClearInterval(id: TimerId)
      requires Valid()
      modifies this
      ensures Valid() && nextId == old(nextId)
      ensures timers == old(timers).Remove(id)
    {
      ClearTimeout(id);
    }

    /** Advances every timer by `deltaMs`, reports the timers whose callbacks fire in iteration
        order, then deletes the fired one-shots. */
    method Update(deltaMs: nat) returns (fired: seq<TimerId>)
      requires Valid()
      modifies this
      ensures Valid() && nextId == old(nextId)
      ensures fired == Fired(old(timers), deltaMs)
      ensures timers == AfterUpdate(old(timers), deltaMs)
    {
      ghost var before := timers;
      var completed;
      fired, completed := AdvanceTimers(deltaMs);
      DeleteTimers(completed);
      DeleteExpired(before, deltaMs, completed);
      AfterUpdateWellFormed(before, nextId, deltaMs);
    }

    /** The sweep of `Update`: advances every timer in iteration order, collecting the fired ids
        and the ids of the fired one-shots. */
    method AdvanceTimers(deltaMs: nat) returns (fired: seq<TimerId>, completed: seq<TimerId>)
      requires timers.Valid()
      modifies this
      ensures nextId == old(nextId) && timers.keys == old(timers.keys)
      ensures timers.values == map k | k in old(timers.values) :: Advance(old(timers.values)[k], deltaMs)
      ensures fired == Fired(old(timers), deltaMs)
      ensures completed == ExpiredAmong(old(timers.keys), old(timers), deltaMs)
    {
      ghost var before := timers;
      var keys := timers.keys;
      completed := [];
      fired := [];
      var i := 0;
      while i < |keys|
        invariant 0 <= i <= |keys|
        invariant nextId == old(nextId) && timers.keys == keys
        invariant timers.values == AdvancedSome(before.values, Elements(keys[..i]), deltaMs)
        invariant fired == FiredAmong(keys[..i], before, deltaMs)
        invariant completed == ExpiredAmong(keys[..i], before, deltaMs)
      {
        var id := keys[i];
        SweepStep(before, i, deltaMs);
        var fires, expires := AdvanceTimer(id, deltaMs);
        if fires {
          fired := fired + [id];
        }
        if expires {
          completed := completed + [id];
        }
        i := i + 1;
      }
      assert keys[..i] == keys;
      assert Elements(keys) == before.values.Keys;
      AdvancedAll(before.values, deltaMs);
    }

    /** One step of the sweep: advances the timer `id` and says whether it fires and whether it
        is a one-shot that fires. */
    method AdvanceTimer(id: TimerId, deltaMs: nat) returns (fires: bool, expires: bool)
      requires id in timers.values
      modifies this
      ensures nextId == old(nextId) && timers.keys == old(timers.keys)
      ensures timers.values == old(timers.values)[id := Advance(old(timers.values[id]), deltaMs)]
      ensures fires == Fires(old(timers.values[id]), deltaMs)
      ensures expires == Expires(old(timers.values[id]), deltaMs)
    {
      var timer := timers.values[id];
      timer := timer.(elapsed := timer.elapsed + deltaMs);
      fires, expires := false, false;
      if timer.elapsed >= timer.delay {
        fires := true;
        if timer.isInterval {
          timer := timer.(elapsed := timer.elapsed - timer.delay);
        } else {
          expires := true;
        }
      }
      timers := timers.(values := timers.values[id := timer]);
    }

    /** The deferred deletions of `Update`. */
    method DeleteTimers(completed: seq<TimerId>)
      modifies this
      ensures nextId == old(nextId)
      requires timers.Valid()
      ensures timers == old(timers).RemoveAll(Elements(completed))
    {
      ghost var t0 := timers;
      t0.RemoveAllNothing();
      assert Elements(completed[..0]) == {};
      var j := 0;
      while j < |completed|
        invariant 0 <= j <= |completed|
        invariant nextId == old(nextId)
        invariant timers == t0.RemoveAll(Elements(completed[..j]))
      {
        t0.RemoveOneMore(completed, j);
        timers := timers.Remove(completed[j]);
        j := j + 1;
      }
      assert completed[..j] == completed;
    }

    /** Empties the table; the id counter is not reset. */
    method Dispose()
      requires Valid()
      modifies this
      ensures Valid() && nextId == old(nextId)
      ensures timers == Empty() && ActiveTimerCount() == 0
    {
      timers := Empty();
    }

    /** The number of timers in the table (`Map.prototype.size`). */
    function ActiveTimerCount(): (n: nat)
      requires Valid()
      reads this
      ensures n == |timers.keys|
    {
      timers.SizeIsLength();
      |timers.values|
    }
  }
}
