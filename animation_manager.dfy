/** Tweens of numeric object properties, advanced by frame time in milliseconds.
    A tween waits out an optional start delay, then moves its property from the value it had when
    the tween was created towards a target, along an easing curve, over a fixed duration. */
module Animations {
  import opened Options
  import opened Seqs
  import opened OrderedMaps
  import opened Decimal

  type Callback = nat

  /** A property value as a tween sees it: `None` is `undefined` (the property is absent). */
  type Value = Option<real>

  /** One animated property: an object identity and the name of one of its numeric fields. */
  datatype Cell = Cell(target: nat, property: string)

  /** The cells after assigning `v` to `c`; assigning `undefined` leaves the property absent. */
  function Assign(cells: map<Cell, real>, c: Cell, v: Value): (r: map<Cell, real>)
    ensures v.Some? ==> c in r && r[c] == v.value
    ensures v.None? ==> c !in r
    ensures forall o :: o != c ==> (o in r <==> o in cells)
    ensures forall o :: o != c && o in r ==> r[o] == cells[o]
  {
    match v
    case Some(x) => cells[c := x]
    case None => cells - {c}
  }

  /** The objects whose properties tweens read and write. */
  class PropertyStore {
    var cells: map<Cell, real>

    constructor (cells: map<Cell, real>)
      ensures this.cells == cells
    {
      this.cells := cells;
    }

    /** Reads a property; an absent one is `undefined`. */
    function Get(c: Cell): (v: Value)
      reads this
      ensures v.Some? <==> c in cells
      ensures v.Some? ==> v.value == cells[c]
    {
      if c in cells then Some(cells[c]) else None
    }

    /** Writes a property. */
    method Set(c: Cell, v: Value)
      modifies this
      ensures cells == Assign(old(cells), c, v)
      ensures Get(c) == v
    {
      cells := Assign(cells, c, v);
    }
  }

  /** The callbacks a tick invokes, in order. */
  datatype Event = OnUpdate(callback: Callback, value: Value) | OnComplete(callback: Callback)

  /** What a tween was created with. `startDelay` 0 means no delay; durations are positive. */
  datatype Config = Config(
    property: Cell,
    to: real,
    duration: nat,
    easing: Option<string>,
    startDelay: nat,
    onComplete: Option<Callback>,
    onUpdate: Option<Callback>)

  /** The names of the six easing curves; any other name, or none, is linear. */
  const EasingNames: seq<string> :=
    ["easeInQuad", "easeOutQuad", "easeInOutQuad", "easeInCubic", "easeOutCubic", "easeInOutCubic"]

  /** What every easing curve promises: it starts at 0, ends at 1 and stays within [0, 1]. */
  ghost predicate IsEasing(p: real, r: real) {
    && (p == 0.0 ==> r == 0.0)
    && (p == 1.0 ==> r == 1.0)
    && (0.0 <= p <= 1.0 ==> 0.0 <= r <= 1.0)
  }

  lemma SquareBounds(q: real)
    ensures 0.0 <= q <= 1.0 ==> 0.0 <= q * q <= q
  {
    if 0.0 <= q <= 1.0 {
      assert q * q <= q * 1.0;
    }
  }

  lemma CubeBounds(q: real)
    ensures 0.0 <= q <= 1.0 ==> 0.0 <= q * q * q <= q
  {
    if 0.0 <= q <= 1.0 {
      SquareBounds(q);
      assert q * q * q <= q * q * 1.0;
    }
  }

  function EaseInQuad(p: real): (r: real)
    ensures IsEasing(p, r)
  {
    SquareBounds(p);
    p * p
  }

  function EaseOutQuad(p: real): (r: real)
    ensures IsEasing(p, r)
  {
    var q := 1.0 - p;
    SquareBounds(q);
    assert p * (2.0 - p) == 1.0 - q * q;
    p * (2.0 - p)
  }

  function EaseInOutQuad(p: real): (r: real)
    ensures IsEasing(p, r)
  {
    if p < 0.5 then
      var q := 2.0 * p;
      SquareBounds(q);
      assert 2.0 * p * p == q * q / 2.0;
      2.0 * p * p
    else
      var q := 2.0 - 2.0 * p;
      SquareBounds(q);
      assert -1.0 + (4.0 - 2.0 * p) * p == 1.0 - q * q / 2.0;
      -1.0 + (4.0 - 2.0 * p) * p
  }

  function EaseInCubic(p: real): (r: real)
    ensures IsEasing(p, r)
  {
    CubeBounds(p);
    p * p * p
  }

  /** The source decrements `progress` in place before cubing it. */
  function EaseOutCubic(p: real): (r: real)
    ensures IsEasing(p, r)
  {
    var q := p - 1.0;
    CubeBounds(1.0 - p);
    assert q * q * q == -((1.0 - p) * (1.0 - p) * (1.0 - p));
    q * q * q + 1.0
  }

  function EaseInOutCubic(p: real): (r: real)
    ensures IsEasing(p, r)
  {
    if p < 0.5 then
      var q := 2.0 * p;
      CubeBounds(q);
      assert 4.0 * p * p * p == q * q * q / 2.0;
      4.0 * p * p * p
    else
      var q := 2.0 - 2.0 * p;
      CubeBounds(q);
      assert (p - 1.0) * (2.0 * p - 2.0) * (2.0 * p - 2.0) == -(q * q * q) / 2.0;
      (p - 1.0) * (2.0 * p - 2.0) * (2.0 * p - 2.0) + 1.0
  }

  /** The easing curve named `easing` at progress `p`. Every curve starts at 0, ends at 1 and stays
      within [0, 1] on [0, 1]; an unknown or absent name is the identity. */
  function ApplyEasing(easing: Option<string>, p: real): (r: real)
    ensures p == 0.0 ==> r == 0.0
    ensures p == 1.0 ==> r == 1.0
    ensures 0.0 <= p <= 1.0 ==> 0.0 <= r <= 1.0
    ensures (easing.None? || easing.value !in EasingNames) ==> r == p
  {
    var name := easing.GetOr("");
    if name == "easeInQuad" then EaseInQuad(p)
    else if name == "easeOutQuad" then EaseOutQuad(p)
    else if name == "easeInOutQuad" then EaseInOutQuad(p)
    else if name == "easeInCubic" then EaseInCubic(p)
    else if name == "easeOutCubic" then EaseOutCubic(p)
    else if name == "easeInOutCubic" then EaseInOutCubic(p)
    else p
  }

  /** The fraction of the duration elapsed, `min(startTime / duration, 1)`. */
  function Progress(startTime: nat, duration: nat): (r: real)
    requires duration > 0
    ensures 0.0 <= r <= 1.0
    ensures r == 1.0 <==> startTime >= duration
    ensures r < 1.0 ==> r * duration as real == startTime as real
  {
    var q := startTime as real / duration as real;
    if q < 1.0 then q else 1.0
  }

  lemma ScaleBetween(d: real, p: real)
    ensures p == 0.0 ==> d * p == 0.0
    ensures p == 1.0 ==> d * p == d
    ensures 0.0 <= p <= 1.0 && d >= 0.0 ==> 0.0 <= d * p <= d
    ensures 0.0 <= p <= 1.0 && d < 0.0 ==> d <= d * p <= 0.0
  {
    if 0.0 <= p <= 1.0 {
      assert d - d * p == d * (1.0 - p);
    }
  }

  /** `d` scaled by a fraction `p`: within [0, d] (or [d, 0]) when `p` is in [0, 1]. */
  function Scale(d: real, p: real): (r: real)
    ensures p == 0.0 ==> r == 0.0
    ensures p == 1.0 ==> r == d
    ensures 0.0 <= p <= 1.0 && d >= 0.0 ==> 0.0 <= r <= d
    ensures 0.0 <= p <= 1.0 && d < 0.0 ==> d <= r <= 0.0
  {
    var r := d * p;
    ScaleBetween(d, p);
    r
  }

  /** The value written at eased progress `p`: numbers are interpolated linearly, from the initial
      value at 0 to exactly the target at 1, never leaving the range between them on [0, 1]; when
      the initial value is not a number, the property jumps to the target at the half-way point. */
  function Interpolate(start: Value, end: real, p: real): (r: Value)
    ensures p == 0.0 ==> r == start
    ensures p == 1.0 ==> r == Some(end)
    ensures start.Some? && 0.0 <= p <= 1.0 ==>
      r.Some? && (start.value <= r.value <= end || end <= r.value <= start.value)
    ensures start.None? ==> (r.None? <==> p < 0.5) && (r.Some? ==> r.value == end)
  {
    match start
    case Some(a) => Some(a + Scale(end - a, p))
    case None => if p < 0.5 then None else Some(end)
  }

  /** A tween's clock: milliseconds since it started (or, before it starts, since it was
      created), and whether it has started or been stopped. */
  datatype Clock = Clock(startTime: nat, isStarted: bool, isStopped: bool)

  /** A tween as data: what it was created with, the value its property had then, and its clock. */
  datatype Tween = Tween(cfg: Config, initial: Value, clock: Clock)

  /** Still inside the start-delay window: a tick only advances the clock. */
  predicate Waiting(t: Tween) {
    && !t.clock.isStopped && !t.clock.isStarted
    && t.cfg.startDelay != 0 && t.clock.startTime < t.cfg.startDelay
  }

  /** A tick that moves the property. */
  predicate Runs(t: Tween) {
    !t.clock.isStopped && !Waiting(t)
  }

  /** The clock after a tick of `deltaMs`. On the tick that ends the delay window the clock is
      reset to 0 before that tick's delta is added. */
  function NextClock(t: Tween, deltaMs: nat): Clock {
    var c := t.clock;
    if c.isStopped then c
    else if Waiting(t) then c.(startTime := c.startTime + deltaMs)
    else Clock((if c.isStarted then c.startTime else 0) + deltaMs, true, false)
  }

  function Step(t: Tween, deltaMs: nat): Tween {
    t.(clock := NextClock(t, deltaMs))
  }

  /** `isComplete`: started, and the clock has reached the duration. */
  predicate Complete(t: Tween) {
    t.clock.isStarted && t.clock.startTime >= t.cfg.duration
  }

  /** The progress fraction a running tick computes. */
  function TickProgress(t: Tween, deltaMs: nat): real
    requires t.cfg.duration > 0
  {
    Progress(NextClock(t, deltaMs).startTime, t.cfg.duration)
  }

  /** The value a tick writes to the property, if it writes one. */
  function TickWrite(t: Tween, deltaMs: nat): Option<Value>
    requires t.cfg.duration > 0
  {
    if Runs(t) then Some(Interpolate(t.initial, t.cfg.to, ApplyEasing(t.cfg.easing, TickProgress(t, deltaMs))))
    else None
  }

  /** The property cells after a tick. */
  function TickCells(cells: map<Cell, real>, t: Tween, deltaMs: nat): map<Cell, real>
    requires t.cfg.duration > 0
  {
    match TickWrite(t, deltaMs)
    case None => cells
    case Some(v) => Assign(cells, t.cfg.property, v)
  }

  /** The callbacks a tick invokes: `onUpdate` with the value just written, then `onComplete`
      when progress has reached 1. */
  function TickEvents(t: Tween, deltaMs: nat): seq<Event>
    requires t.cfg.duration > 0
  {
    if Runs(t) then
      var v := TickWrite(t, deltaMs).value;
      (if t.cfg.onUpdate.Some? then [OnUpdate(t.cfg.onUpdate.value, v)] else [])
      + (if TickProgress(t, deltaMs) >= 1.0 && t.cfg.onComplete.Some? then [OnComplete(t.cfg.onComplete.value)] else [])
    else []
  }

  /** A stopped tween does nothing on a tick. */
  lemma StoppedIsInert(t: Tween, deltaMs: nat)
    requires t.cfg.duration > 0 && t.clock.isStopped
    ensures Step(t, deltaMs) == t && TickWrite(t, deltaMs) == None && TickEvents(t, deltaMs) == []
  {
  }

  /** Inside the delay window a tick only advances the clock: it writes nothing, calls nothing
      and does not complete. */
  lemma WaitingTick(t: Tween, deltaMs: nat)
    requires t.cfg.duration > 0 && Waiting(t)
    ensures Step(t, deltaMs).clock == t.clock.(startTime := t.clock.startTime + deltaMs)
    ensures TickWrite(t, deltaMs) == None && TickEvents(t, deltaMs) == []
    ensures !Complete(Step(t, deltaMs))
  {
  }

  /** The tick that ends the delay window starts the clock from 0, discarding the time spent
      waiting, and counts that tick's own delta. */
  lemma StartingTick(t: Tween, deltaMs: nat)
    requires t.cfg.duration > 0 && Runs(t) && !t.clock.isStarted
    ensures Step(t, deltaMs).clock == Clock(deltaMs, true, false)
    ensures TickWrite(t, deltaMs).Some?
  {
  }

  /** A running tick completes the tween exactly when its progress reaches 1; that tick writes
      exactly the target value, and `onComplete` is called on it and on no other tick. */
  lemma CompletionTick(t: Tween, deltaMs: nat)
    requires t.cfg.duration > 0
    ensures Runs(t) ==> (Complete(Step(t, deltaMs)) <==> TickProgress(t, deltaMs) == 1.0)
    ensures Runs(t) && Complete(Step(t, deltaMs)) ==> TickWrite(t, deltaMs) == Some(Some(t.cfg.to))
    ensures forall cb: Callback :: OnComplete(cb) in TickEvents(t, deltaMs) <==>
      Runs(t) && Complete(Step(t, deltaMs)) && t.cfg.onComplete == Some(cb)
  {
    if Runs(t) {
      var p := TickProgress(t, deltaMs);
      assert Complete(Step(t, deltaMs)) <==> p == 1.0;
    }
  }

  /** A running tick writes the initial value interpolated towards the target, never beyond it. */
  lemma WriteBetween(t: Tween, deltaMs: nat)
    requires t.cfg.duration > 0 && Runs(t) && t.initial.Some?
    ensures var w := TickWrite(t, deltaMs);
      && w.Some? && w.value.Some?
      && (t.initial.value <= w.value.value <= t.cfg.to || t.cfg.to <= w.value.value <= t.initial.value)
  {
  }

  /** A tween after `stop`. */
  function Stopped(t: Tween): Tween {
    t.(clock := t.clock.(isStopped := true))
  }

  /** A tween object; its configuration and the captured initial value never change. */
  class Animation {
    const cfg: Config
    const initialValue: Value
    var startTime: nat
    var isStarted: bool
    var isStopped: bool

    /** The tween's state as data. */
    function State(): Tween
      reads this
    {
      Tween(cfg, initialValue, Clock(startTime, isStarted, isStopped))
    }

    /** Captures the property's current value as the start of the tween. */
    constructor (cfg: Config, store: PropertyStore)
      ensures State() == Tween(cfg, store.Get(cfg.property), Clock(0, false, false))
    {
      this.cfg := cfg;
      initialValue := store.Get(cfg.property);
      startTime := 0;
      isStarted := false;
      isStopped := false;
    }

    /** One frame of `deltaMs`: returns the callbacks invoked, in order. */
    method Update(deltaMs: nat, store: PropertyStore) returns (events: seq<Event>)
      requires cfg.duration > 0
      modifies this, store
      ensures State() == Step(old(State()), deltaMs)
      ensures store.cells == TickCells(old(store.cells), old(State()), deltaMs)
      ensures events == TickEvents(old(State()), deltaMs)
    {
      events := [];
      if isStopped {
        return;
      }
      if !isStarted {
        if cfg.startDelay != 0 && startTime < cfg.startDelay {
          startTime := startTime + deltaMs;
          return;
        }
        isStarted := true;
        startTime := 0;
      }
      startTime := startTime + deltaMs;
      var progress := Progress(startTime, cfg.duration);
      var eased := ApplyEasing(cfg.easing, progress);
      store.Set(cfg.property, Interpolate(initialValue, cfg.to, eased));
      if cfg.onUpdate.Some? {
        events := events + [OnUpdate(cfg.onUpdate.value, store.Get(cfg.property))];
      }
      if progress >= 1.0 && cfg.onComplete.Some? {
        events := events + [OnComplete(cfg.onComplete.value)];
      }
    }

    /** `isComplete`. */
    function IsComplete(): (b: bool)
      reads this
      ensures b <==> Complete(State())
    {
      isStarted && startTime >= cfg.duration
    }

    /** Marks the tween stopped; later ticks do nothing. */
    method Stop()
      modifies this
      ensures State() == Stopped(old(State()))
    {
      isStopped := true;
    }
  }

  /** Where an id came from: `animate` issues `anim-N`, step `i` of `animateSequence` issues
      `seq-N-i`, N being the counter after its increment. */
  datatype Origin = Single(serial: nat) | InSequence(serial: nat, index: nat)

  function IdOf(o: Origin): string {
    match o
    case Single(n) => "anim-" + Show(n)
    case InSequence(n, i) => "seq-" + Show(n) + "-" + Show(i)
  }

  /** Distinct origins give distinct ids. */
  lemma IdOfInjective(o1: Origin, o2: Origin)
    requires IdOf(o1) == IdOf(o2)
    ensures o1 == o2
  {
    var s := IdOf(o1);
    match o1 {
      case Single(a) =>
        assert s[0] == 'a';
        match o2 {
          case Single(b) => PrefixedShowInjective("anim-", a, b);
          case InSequence(_, _) =>
        }
      case InSequence(a, x) =>
        assert s[0] == 's';
        match o2 {
          case Single(_) =>
          case InSequence(b, y) =>
            assert s == "seq-" + (Show(a) + "-" + Show(x));
            assert IdOf(o2) == "seq-" + (Show(b) + "-" + Show(y));
            assert Show(a) + "-" + Show(x) == s[4..] == Show(b) + "-" + Show(y);
            ShowDashInjective(a, Show(x), b, Show(y));
            ShowInjective(x, y);
        }
    }
  }

  /** Every key was issued with a serial below `n`, so an id with serial `n` is new. */
  lemma IssuedIdIsNew(keys: set<string>, origin: map<string, Origin>, n: nat, o: Origin)
    requires forall k :: k in keys ==> k in origin && origin[k].serial < n && k == IdOf(origin[k])
    requires o.serial == n
    ensures IdOf(o) !in keys
  {
    if IdOf(o) in keys {
      IdOfInjective(origin[IdOf(o)], o);
    }
  }

  /** The ids `animateSequence` issues for `count` steps when the counter stands at `n`:
      `seq-(n+1)-0`, `seq-(n+2)-1`, and so on. */
  function SequenceIds(n: nat, count: nat): (ids: seq<string>)
    ensures |ids| == count
  {
    if count == 0 then [] else SequenceIds(n, count - 1) + [IdOf(InSequence(n + count, count - 1))]
  }

  /** Step `i` of a sequence gets the id `seq-<n+i+1>-<i>`. */
  lemma {:induction false} SequenceIdAt(n: nat, count: nat, i: nat)
    requires i < count
    ensures SequenceIds(n, count)[i] == "seq-" + Show(n + i + 1) + "-" + Show(i)
  {
    if i < count - 1 {
      SequenceIdAt(n, count - 1, i);
    }
  }

  /** A step of `animateSequence`; `delay` 0 stands for an absent delay. */
  datatype SequenceItem = SequenceItem(
    property: Cell,
    to: real,
    duration: nat,
    easing: Option<string>,
    onComplete: Option<Callback>,
    onUpdate: Option<Callback>,
    delay: nat)

  function ConfigOf(item: SequenceItem, startDelay: nat): Config {
    Config(item.property, item.to, item.duration, item.easing, startDelay, item.onComplete, item.onUpdate)
  }

  /** The time the steps take end to end: every delay plus every duration. */
  function Span(items: seq<SequenceItem>): nat {
    if items == [] then 0 else Span(items[..|items| - 1]) + items[|items| - 1].delay + items[|items| - 1].duration
  }

  /** The start delay of step `i`: everything before it, then its own delay. */
  function Offset(items: seq<SequenceItem>, i: nat): nat
    requires i < |items|
  {
    Span(items[..i]) + items[i].delay
  }

  /** The tween step `i` is created as when the properties hold `cells`. */
  function Planned(items: seq<SequenceItem>, cells: map<Cell, real>, i: nat): Tween
    requires i < |items|
  {
    var p := items[i].property;
    Tween(ConfigOf(items[i], Offset(items, i)), if p in cells then Some(cells[p]) else None, Clock(0, false, false))
  }

  /** Each step starts after the previous one has run its full duration, plus its own delay. */
  lemma OffsetsChain(items: seq<SequenceItem>, i: nat)
    requires i + 1 < |items|
    ensures Offset(items, i + 1) == Offset(items, i) + items[i].duration + items[i + 1].delay
  {
    assert items[..i + 1][..i] == items[..i];
  }

  /** Steps of 500 ms and 300 ms with delays 0 and 200 ms start at 0 and 700 ms. */
  lemma SequenceExample(c: Cell)
    ensures var items := [SequenceItem(c, 1.0, 500, None, None, None, 0), SequenceItem(c, 2.0, 300, None, None, None, 200)];
      Offset(items, 0) == 0 && Offset(items, 1) == 700
  {
    var items := [SequenceItem(c, 1.0, 500, None, None, None, 0), SequenceItem(c, 2.0, 300, None, None, None, 200)];
    assert items[..0] == [];
    assert items[..1][..0] == [];
  }

  /** The property cells after ticking the tweens of `keys` in order; later writes win. */
  function SweepCells(keys: seq<string>, tw: map<string, Tween>, cells: map<Cell, real>, deltaMs: nat): map<Cell, real> {
    if keys == [] then cells
    else
      var k := keys[|keys| - 1];
      var before := SweepCells(keys[..|keys| - 1], tw, cells, deltaMs);
      if k in tw && tw[k].cfg.duration > 0 then TickCells(before, tw[k], deltaMs) else before
  }

  /** The callbacks invoked by ticking the tweens of `keys` in order. */
  function SweepEvents(keys: seq<string>, tw: map<string, Tween>, deltaMs: nat): seq<Event> {
    if keys == [] then []
    else
      var k := keys[|keys| - 1];
      SweepEvents(keys[..|keys| - 1], tw, deltaMs)
        + (if k in tw && tw[k].cfg.duration > 0 then TickEvents(tw[k], deltaMs) else [])
  }

  /** The ids among `keys` whose tweens are complete after their tick, in order. */
  function CompletedAmong(keys: seq<string>, tw: map<string, Tween>, deltaMs: nat): seq<string> {
    if keys == [] then []
    else
      var k := keys[|keys| - 1];
      CompletedAmong(keys[..|keys| - 1], tw, deltaMs)
        + (if k in tw && Complete(Step(tw[k], deltaMs)) then [k] else [])
  }

  /** The tweens an update removes: those complete after their tick. */
  function Completed(tw: map<string, Tween>, deltaMs: nat): set<string> {
    set k | k in tw && Complete(Step(tw[k], deltaMs))
  }

  lemma {:induction false} CompletedAmongMembers(keys: seq<string>, tw: map<string, Tween>, deltaMs: nat)
    ensures forall k :: k in CompletedAmong(keys, tw, deltaMs) <==> k in keys && k in Completed(tw, deltaMs)
  {
    if keys != [] {
      var init := keys[..|keys| - 1];
      assert keys == init + [keys[|keys| - 1]];
      CompletedAmongMembers(init, tw, deltaMs);
    }
  }

  /** One step of the update sweep, at position `i` of the iteration order. */
  lemma SweepStep(keys: seq<string>, i: nat, tw: map<string, Tween>, cells: map<Cell, real>, deltaMs: nat)
    requires i < |keys| && keys[i] in tw && tw[keys[i]].cfg.duration > 0
    ensures var k := keys[i];
      && SweepCells(keys[..i + 1], tw, cells, deltaMs) == TickCells(SweepCells(keys[..i], tw, cells, deltaMs), tw[k], deltaMs)
      && SweepEvents(keys[..i + 1], tw, deltaMs) == SweepEvents(keys[..i], tw, deltaMs) + TickEvents(tw[k], deltaMs)
      && CompletedAmong(keys[..i + 1], tw, deltaMs)
         == CompletedAmong(keys[..i], tw, deltaMs) + (if Complete(Step(tw[k], deltaMs)) then [k] else [])
  {
    assert keys[..i + 1][..i] == keys[..i];
  }

  /** A tween's `onComplete` is among the callbacks of a sweep exactly when that tween runs on
      the sweep and is complete after its tick, which is when the sweep removes it. */
  lemma {:induction false} SweepCompletions(keys: seq<string>, tw: map<string, Tween>, deltaMs: nat, cb: Callback)
    ensures OnComplete(cb) in SweepEvents(keys, tw, deltaMs) <==>
      exists k :: k in keys && k in tw && tw[k].cfg.duration > 0 && Runs(tw[k])
        && Complete(Step(tw[k], deltaMs)) && tw[k].cfg.onComplete == Some(cb)
  {
    if keys != [] {
      var init, k := keys[..|keys| - 1], keys[|keys| - 1];
      assert keys == init + [k];
      SweepCompletions(init, tw, deltaMs, cb);
      if k in tw && tw[k].cfg.duration > 0 {
        CompletionTick(tw[k], deltaMs);
      }
    }
  }

  /** The tweens part-way through the update sweep: those in `done` have had their tick. */
  function SteppedSome(tw: map<string, Tween>, done: set<string>, deltaMs: nat): map<string, Tween> {
    map k | k in tw :: if k in done then Step(tw[k], deltaMs) else tw[k]
  }

  /** The sweep ticks the tween at position `i` of the iteration order, untouched until then. */
  lemma SteppedOneMore(keys: seq<string>, i: nat, tw: map<string, Tween>, deltaMs: nat)
    requires Distinct(keys) && i < |keys| && keys[i] in tw
    ensures SteppedSome(tw, Elements(keys[..i]), deltaMs)[keys[i]] == tw[keys[i]]
    ensures SteppedSome(tw, Elements(keys[..i + 1]), deltaMs)
         == SteppedSome(tw, Elements(keys[..i]), deltaMs)[keys[i] := Step(tw[keys[i]], deltaMs)]
  {
    var k := keys[i];
    assert Elements(keys[..i + 1]) == Elements(keys[..i]) + {k} by {
      assert keys[..i + 1] == keys[..i] + [k];
    }
    assert k !in Elements(keys[..i]);
  }

  /** Once every key has had its tick, every tween has been stepped. */
  lemma SteppedAll(keys: seq<string>, tw: map<string, Tween>, deltaMs: nat)
    requires forall k :: k in tw <==> k in keys
    ensures SteppedSome(tw, Elements(keys), deltaMs) == map k | k in tw :: Step(tw[k], deltaMs)
  {
  }

  lemma SteppedNone(tw: map<string, Tween>, deltaMs: nat)
    ensures SteppedSome(tw, {}, deltaMs) == tw
  {
  }

  /** The tweens of the first `|objs|` steps of a sequence, as planned from the property values
      in `store`. */
  ghost predicate Recorded(store: PropertyStore, items: seq<SequenceItem>, objs: seq<Animation>, tweens: seq<Tween>)
    reads store, set j | 0 <= j < |objs| :: objs[j]
  {
    && |objs| == |tweens| <= |items|
    && (forall j :: 0 <= j < |objs| ==> objs[j].State() == tweens[j])
    && (forall j :: 0 <= j < |tweens| ==> tweens[j] == Planned(items, store.cells, j))
  }

  /** Recording one more step as planned. */
  lemma RecordedSnoc(store: PropertyStore, items: seq<SequenceItem>, objs: seq<Animation>, tweens: seq<Tween>, a: Animation)
    requires Recorded(store, items, objs, tweens) && |objs| < |items|
    requires a.State() == Planned(items, store.cells, |objs|)
    ensures Recorded(store, items, objs + [a], tweens + [a.State()])
  {
  }

  /** What the manager keeps true between calls: every tween has a positive duration, no tween
      object is stored under two ids (`owner` maps each object back to its id), and every id was
      issued from the counter. */
  ghost predicate WellFormed(animations: OrderedMap<string, Animation>, nextId: nat,
                             origin: map<string, Origin>, owner: map<Animation, string>) {
    && animations.Valid()
    && (forall k :: k in animations.values ==>
          && animations.values[k].cfg.duration > 0
          && animations.values[k] in owner && owner[animations.values[k]] == k
          && k in origin && origin[k].serial <= nextId && k == IdOf(origin[k]))
  }

  /** Storing a new tween object under a newly issued id keeps the table well formed. */
  lemma RegisteredWellFormed(animations: OrderedMap<string, Animation>, nextId: nat,
                             origin: map<string, Origin>, owner: map<Animation, string>, o: Origin, a: Animation)
    requires WellFormed(animations, nextId, origin, owner)
    requires o.serial == nextId + 1 && IdOf(o) !in animations.values && a !in owner && a.cfg.duration > 0
    ensures WellFormed(animations.Put(IdOf(o), a), nextId + 1, origin[IdOf(o) := o], owner[a := IdOf(o)])
  {
    var id := IdOf(o);
    forall k | k in animations.values
      ensures animations.values[k] != a && k != id
    {
    }
  }

  class AnimationManager {
    var animations: OrderedMap<string, Animation>
    var nextId: nat
    ghost var origin: map<string, Origin>
    ghost var owner: map<Animation, string>

    ghost predicate Valid()
      reads this
    {
      WellFormed(animations, nextId, origin, owner)
    }

    /** The tween objects in the table. */
    ghost function Objects(): set<Animation>
      reads this
    {
      set k | k in animations.values :: animations.values[k]
    }

    /** The table's tweens as data. */
    ghost function Tweens(): map<string, Tween>
      reads this, Objects()
    {
      map k | k in animations.values :: animations.values[k].State()
    }

    constructor ()
      ensures Valid() && animations == Empty() && nextId == 0
    {
      animations := Empty();
      nextId := 0;
      origin := map[];
      owner := map[];
    }

    /** Issues the id of `o` from the counter and stores a new tween under it. */
    method Register(store: PropertyStore, cfg: Config, o: Origin) returns (id: string)
      requires Valid() && cfg.duration > 0 && o.serial == nextId + 1
      modifies this
      ensures Valid()
      ensures nextId == old(nextId) + 1 && id == IdOf(o)
      ensures id !in old(animations.values)
      ensures id in animations.values && fresh(animations.values[id])
      ensures animations == old(animations).Put(id, animations.values[id])
      ensures animations.values[id].State() == Tween(cfg, store.Get(cfg.property), Clock(0, false, false))
    {
      id := IdOf(o);
      IssuedIdIsNew(animations.values.Keys, origin, nextId + 1, o);
      var a := new Animation(cfg, store);
      assert a !in owner;
      RegisteredWellFormed(animations, nextId, origin, owner, o, a);
      nextId := nextId + 1;
      animations := animations.Put(id, a);
      origin := origin[id := o];
      owner := owner[a := id];
    }

    /** Starts a tween of `cfg.property`, capturing its current value; returns a fresh id. */
    method Animate(store: PropertyStore, cfg: Config) returns (id: string)
      requires Valid() && cfg.duration > 0
      modifies this
      ensures Valid()
      ensures nextId == old(nextId) + 1 && id == IdOf(Single(nextId))
      ensures id !in old(animations.values)
      ensures animations.keys == old(animations.keys) + [id]
      ensures animations.values.Keys == old(animations.values.Keys) + {id}
      ensures forall k :: k in old(animations.values) ==> animations.values[k] == old(animations.values[k])
      ensures fresh(animations.values[id])
      ensures animations.values[id].State() == Tween(cfg, store.Get(cfg.property), Clock(0, false, false))
    {
      id := Register(store, cfg, Single(nextId + 1));
    }

    /** Creates one tween per step, all capturing the property values as they are now; step `i`
        waits `Offset(items, i)` before it starts. Returns the ids in step order. */
    method AnimateSequence(store: PropertyStore, items: seq<SequenceItem>) returns (ids: seq<string>)
      requires Valid() && forall i :: 0 <= i < |items| ==> items[i].duration > 0
      modifies this
      ensures Valid()
      ensures nextId == old(nextId) + |items|
      ensures ids == SequenceIds(old(nextId), |items|)
      ensures animations.keys == old(animations.keys) + ids
      ensures forall k :: k in old(animations.values) ==> animations.values[k] == old(animations.values[k])
      ensures forall i :: 0 <= i < |ids| ==> animations.values[ids[i]].State() == Planned(items, store.cells, i)
    {
      ghost var table0 := animations;
      ghost var objs, tweens;
      ids, objs, tweens := IssueSteps(store, items);
      DistinctSplit(table0.keys, ids);
      table0.PutAllNew(ids, objs);
    }

    /** The loop of `AnimateSequence`: runs every step in order, accumulating the start delay. */
    method IssueSteps(store: PropertyStore, items: seq<SequenceItem>)
      returns (ids: seq<string>, ghost objs: seq<Animation>, ghost tweens: seq<Tween>)
      requires Valid() && forall i :: 0 <= i < |items| ==> items[i].duration > 0
      modifies this
      ensures Issued(items, |items|, Span(items), ids, objs, old(animations), old(nextId))
      ensures Recorded(store, items, objs, tweens)
    {
      ghost var table0 := animations;
      ids := [];
      objs := [];
      tweens := [];
      var totalDelay: nat := 0;
      var i := 0;
      while i < |items|
        invariant 0 <= i <= |items|
        invariant Issued(items, i, totalDelay, ids, objs, table0, old(nextId))
        invariant Recorded(store, items, objs, tweens)
      {
        ids, totalDelay, objs, tweens := Extend(store, items, i, totalDelay, ids, objs, tweens, table0, old(nextId));
        i := i + 1;
      }
      assert items[..i] == items;
    }

    /** What `AnimateSequence` has done to the table after its first `i` steps. */
    ghost predicate Issued(items: seq<SequenceItem>, i: nat, totalDelay: nat, ids: seq<string>,
                           objs: seq<Animation>, table0: OrderedMap<string, Animation>, n0: nat)
      reads this
    {
      && i <= |items| && |ids| == i && |objs| == i
      && Valid()
      && totalDelay == Span(items[..i])
      && nextId == n0 + i
      && ids == SequenceIds(n0, i)
      && animations.keys == table0.keys + ids
      && animations == table0.PutAll(ids, objs)
    }

    /** Runs step `i` and records it in the ghost history. */
    method Extend(store: PropertyStore, items: seq<SequenceItem>, i: nat, totalDelay: nat, ids: seq<string>,
                  ghost objs: seq<Animation>, ghost tweens: seq<Tween>, ghost table0: OrderedMap<string, Animation>,
                  ghost n0: nat)
      returns (ids': seq<string>, totalDelay': nat, ghost objs': seq<Animation>, ghost tweens': seq<Tween>)
      requires i < |items| && items[i].duration > 0
      requires Issued(items, i, totalDelay, ids, objs, table0, n0)
      requires Recorded(store, items, objs, tweens)
      modifies this
      ensures Issued(items, i + 1, totalDelay', ids', objs', table0, n0)
      ensures Recorded(store, items, objs', tweens')
    {
      ghost var a;
      ids', totalDelay', a := AddStep(store, items, i, totalDelay, ids, n0);
      objs' := objs + [a];
      tweens' := tweens + [a.State()];
      RecordedSnoc(store, items, objs, tweens, a);
      table0.PutAllSnoc(ids, objs, ids'[i], a);
      table0.PutAllAppendsOne(ids, objs, ids'[i], a);
    }

    /** One iteration of `AnimateSequence`: issues the id of step `i` and stores its tween. */
    method AddStep(store: PropertyStore, items: seq<SequenceItem>, i: nat, totalDelay: nat, ids: seq<string>,
                   ghost n0: nat)
      returns (ids': seq<string>, totalDelay': nat, ghost a: Animation)
      requires i < |items| && items[i].duration > 0
      requires Valid()
      requires totalDelay == Span(items[..i])
      requires nextId == n0 + i
      requires ids == SequenceIds(n0, i)
      modifies this
      ensures Valid()
      ensures totalDelay' == Span(items[..i + 1])
      ensures nextId == n0 + i + 1
      ensures ids' == SequenceIds(n0, i + 1) && ids' == ids + [ids'[i]]
      ensures ids'[i] !in old(animations.values)
      ensures animations == old(animations).Put(ids'[i], a) && fresh(a)
      ensures a.State() == Planned(items, store.cells, i)
    {
      var item := items[i];
      var startDelay := totalDelay + item.delay;
      var o := InSequence(nextId + 1, i);
      assert SequenceIds(n0, i + 1) == SequenceIds(n0, i) + [IdOf(o)];
      var id := Register(store, ConfigOf(item, startDelay), o);
      a := animations.values[id];
      ids' := ids + [id];
      assert items[..i + 1][..i] == items[..i];
      totalDelay' := startDelay + item.duration;
    }

    /** Stops and removes the tween with that id; an unknown id changes nothing. No completion
        callback is run. */
    method StopAnimation(id: string)
      requires Valid()
      modifies this, Objects()
      ensures Valid() && nextId == old(nextId)
      ensures animations == old(animations).Remove(id)
      ensures id in old(animations.values) ==> old(animations.values[id]).State() == Stopped(old(Tweens())[id])
      ensures forall k :: k in animations.values ==> animations.values[k].State() == old(animations.values[k].State())
    {
      if id in animations.values {
        var a := animations.values[id];
        a.Stop();
        animations := animations.Remove(id);
      }
    }

    /** One frame of `deltaMs`: ticks every tween in insertion order, then deletes those that
        are complete after their tick. Returns the callbacks invoked, in order. */
    method Update(deltaMs: nat, store: PropertyStore) returns (events: seq<Event>)
      requires Valid()
      modifies this, store, Objects()
      ensures Valid() && nextId == old(nextId)
      ensures events == SweepEvents(old(animations.keys), old(Tweens()), deltaMs)
      ensures store.cells == SweepCells(old(animations.keys), old(Tweens()), old(store.cells), deltaMs)
      ensures animations == old(animations).RemoveAll(Completed(old(Tweens()), deltaMs))
      ensures forall k :: k in old(animations.values) ==>
        old(animations.values[k]).State() == Step(old(Tweens())[k], deltaMs)
    {
      ghost var tw := Tweens();
      ghost var table := animations;
      var completed;
      events, completed := Sweep(deltaMs, store);
      DeleteAll(completed);
      CompletedAmongMembers(table.keys, tw, deltaMs);
      assert Elements(completed) == Completed(tw, deltaMs);
    }

    /** The first half of `Update`: ticks every tween in insertion order and collects the ids of
        those complete after their tick. The table itself does not change. */
    method Sweep(deltaMs: nat, store: PropertyStore) returns (events: seq<Event>, completed: seq<string>)
      requires Valid()
      modifies store, Objects()
      ensures forall k :: k in animations.values ==> animations.values[k].State() == Step(old(Tweens())[k], deltaMs)
      ensures events == SweepEvents(animations.keys, old(Tweens()), deltaMs)
      ensures store.cells == SweepCells(animations.keys, old(Tweens()), old(store.cells), deltaMs)
      ensures completed == CompletedAmong(animations.keys, old(Tweens()), deltaMs)
    {
      ghost var tw := Tweens();
      var keys := animations.keys;
      events, completed := [], [];
      SteppedNone(tw, deltaMs);
      var i := 0;
      while i < |keys|
        invariant 0 <= i <= |keys|
        invariant Tweens() == SteppedSome(tw, Elements(keys[..i]), deltaMs)
        invariant events == SweepEvents(keys[..i], tw, deltaMs)
        invariant store.cells == SweepCells(keys[..i], tw, old(store.cells), deltaMs)
        invariant completed == CompletedAmong(keys[..i], tw, deltaMs)
      {
        var id := keys[i];
        SteppedOneMore(keys, i, tw, deltaMs);
        SweepStep(keys, i, tw, old(store.cells), deltaMs);
        var e, done := TickOne(id, deltaMs, store);
        events := events + e;
        if done {
          completed := completed + [id];
        }
        i := i + 1;
      }
      assert keys[..i] == keys;
      SteppedAll(keys, tw, deltaMs);
      assert forall k :: k in animations.values ==> k in Tweens() && Tweens()[k] == animations.values[k].State();
    }

    /** Ticks the tween stored under `id`; no other tween changes. */
    method TickOne(id: string, deltaMs: nat, store: PropertyStore) returns (events: seq<Event>, complete: bool)
      requires Valid() && id in animations.values
      modifies store, animations.values[id]
      ensures Tweens() == old(Tweens())[id := Step(old(Tweens())[id], deltaMs)]
      ensures events == TickEvents(old(Tweens())[id], deltaMs)
      ensures store.cells == TickCells(old(store.cells), old(Tweens())[id], deltaMs)
      ensures complete == Complete(Step(old(Tweens())[id], deltaMs))
    {
      var a := animations.values[id];
      events := a.Update(deltaMs, store);
      complete := a.IsComplete();
      forall k | k in animations.values && k != id
        ensures animations.values[k] != a
      {
        assert owner[animations.values[k]] == k;
      }
    }

    /** The second half of `Update`: deletes the given ids one by one. */
    method DeleteAll(completed: seq<string>)
      requires Valid()
      modifies this
      ensures Valid() && nextId == old(nextId)
      ensures animations == old(animations).RemoveAll(Elements(completed))
    {
      ghost var t0 := animations;
      t0.RemoveAllNothing();
      assert Elements(completed[..0]) == {};
      var j := 0;
      while j < |completed|
        invariant 0 <= j <= |completed|
        invariant Valid() && nextId == old(nextId)
        invariant animations == t0.RemoveAll(Elements(completed[..j]))
      {
        t0.RemoveOneMore(completed, j);
        animations := animations.Remove(completed[j]);
        j := j + 1;
      }
      assert completed[..j] == completed;
    }

    /** Stops every tween and empties the table. */
    method StopAllAnimations()
      requires Valid()
      modifies this, Objects()
      ensures Valid() && nextId == old(nextId) && animations == Empty()
      ensures forall k :: k in old(animations.values) ==>
        old(animations.values[k]).State() == Stopped(old(animations.values[k].State()))
    {
      var table := animations;
      var keys := table.keys;
      var objs := seq(|keys|, j requires 0 <= j < |keys| => table.values[keys[j]]);
      StopEach(objs);
      forall k | k in table.values
        ensures table.values[k].State() == Stopped(old(table.values[k].State()))
      {
        var j :| 0 <= j < |keys| && keys[j] == k;
        assert objs[j] == table.values[k];
      }
      animations := Empty();
    }
  }

  /** Stops the given tweens one by one. */
  method StopEach(objs: seq<Animation>)
    requires forall i, j :: 0 <= i < j < |objs| ==> objs[i] != objs[j]
    modifies set i | 0 <= i < |objs| :: objs[i]
    ensures forall i :: 0 <= i < |objs| ==> objs[i].State() == Stopped(old(objs[i].State()))
  {
    var i := 0;
    while i < |objs|
      invariant 0 <= i <= |objs|
      invariant forall j :: 0 <= j < i ==> objs[j].State() == Stopped(old(objs[j].State()))
      invariant forall j :: i <= j < |objs| ==> objs[j].State() == old(objs[j].State())
    {
      objs[i].Stop();
      i := i + 1;
    }
  }
}
