/** The engine that ties the managers together for scripts: it holds the scene's object list,
    answers name and tag queries over it, runs the managers in a fixed order every frame, and
    hands scripts an API record. */
module Engine {
  import opened Options
  import opened Seqs
  import Input
  import Gui
  import Animations
  import Messages
  import Timers

  /** The parts of a scene object the engine reads. */
  datatype SceneObject = SceneObject(id: string, name: string, tags: Option<seq<string>>)

  /** The scene-wide script hooks, as callback ids. */
  datatype SceneCallbacks = SceneCallbacks(onStart: Option<nat>, onUpdate: Option<nat>)

  /** What one frame does, in the order it does it. */
  datatype FrameStep =
    | InputRefreshed
    | Animated(events: seq<Animations.Event>)
    | TimersFired(timers: seq<Timers.TimerId>)
    | SceneUpdated(callback: nat, deltaMs: nat, time: real)

  /** The API record a script receives: the scene hooks copied at creation time, and the
      managers themselves, shared with the engine. */
  datatype Api = Api(onStart: Option<nat>, onUpdate: Option<nat>, input: Input.InputManager,
                     gui: Gui.GuiManager, current: Option<SceneObject>, time: Option<real>,
                     delta: Option<real>)

  /** `Array.prototype.find`: the first object with the name. */
  function ObjectByName(objects: seq<SceneObject>, name: string): (r: Option<SceneObject>)
    ensures r.None? <==> forall i :: 0 <= i < |objects| ==> objects[i].name != name
    ensures r.Some? ==> exists i :: 0 <= i < |objects| && objects[i] == r.value && r.value.name == name
                                    && forall j :: 0 <= j < i ==> objects[j].name != name
  {
    if objects == [] then None
    else if objects[0].name == name then Some(objects[0])
    else
      var r := ObjectByName(objects[1..], name);
      assert forall j :: 0 <= j < |objects| - 1 ==> objects[1..][j] == objects[j + 1];
      r
  }

  /** Whether the object carries the tag; an object without a tag list carries none. */
  predicate HasTag(o: SceneObject, tag: string) {
    o.tags.Some? && tag in o.tags.value
  }

  /** `Array.prototype.filter` on the tag test, in list order. */
  function ObjectsByTag(objects: seq<SceneObject>, tag: string): (r: seq<SceneObject>)
    ensures |r| <= |objects|
    ensures forall o :: o in r <==> o in objects && HasTag(o, tag)
  {
    if objects == [] then []
    else
      assert objects == [objects[0]] + objects[1..];
      (if HasTag(objects[0], tag) then [objects[0]] else []) + ObjectsByTag(objects[1..], tag)
  }

  /** The tag query keeps list order: on a list split in two, it is the query of each part. */
  lemma {:induction false} ObjectsByTagAppend(a: seq<SceneObject>, b: seq<SceneObject>, tag: string)
    ensures ObjectsByTag(a + b, tag) == ObjectsByTag(a, tag) + ObjectsByTag(b, tag)
  {
    if a == [] {
      assert a + b == b;
    } else {
      assert (a + b)[0] == a[0];
      assert (a + b)[1..] == a[1..] + b;
      ObjectsByTagAppend(a[1..], b, tag);
    }
  }

  /** A list whose objects all carry the tag is its own tag query. */
  lemma {:induction false} ObjectsByTagAll(objects: seq<SceneObject>, tag: string)
    requires forall i :: 0 <= i < |objects| ==> HasTag(objects[i], tag)
    ensures ObjectsByTag(objects, tag) == objects
  {
    if objects != [] {
      ObjectsByTagAll(objects[1..], tag);
    }
  }

  /** The steps of one frame: input first, then tweens, then timers, then the scene hook. */
  function Frame(events: seq<Animations.Event>, fired: seq<Timers.TimerId>, hooks: SceneCallbacks,
                 deltaMs: nat, time: real): (r: seq<FrameStep>)
    ensures |r| == if hooks.onUpdate.Some? then 4 else 3
    ensures r[0] == InputRefreshed && r[1] == Animated(events) && r[2] == TimersFired(fired)
    ensures hooks.onUpdate.Some? ==> r[3] == SceneUpdated(hooks.onUpdate.value, deltaMs, time)
  {
    [InputRefreshed, Animated(events), TimersFired(fired)]
      + (if hooks.onUpdate.Some? then [SceneUpdated(hooks.onUpdate.value, deltaMs, time)] else [])
  }

  class GameEngine {
    const input: Input.InputManager
    const gui: Gui.GuiManager
    const animations: Animations.AnimationManager
    const messages: Messages.MessageManager
    const timers: Timers.TimerManager
    var objects: seq<SceneObject>
    var callbacks: SceneCallbacks

    ghost predicate Valid()
      reads this, gui, animations, messages, timers
    {
      gui.Valid() && animations.Valid() && messages.Valid() && timers.Valid()
    }

    /** A new engine has fresh managers, no objects and no scene hooks. */
    constructor ()
      ensures Valid() && fresh(input) && fresh(gui) && fresh(animations) && fresh(messages) && fresh(timers)
      ensures objects == [] && callbacks == SceneCallbacks(None, None)
      ensures timers.timers.keys == [] && animations.animations.keys == []
    {
      input := new Input.InputManager();
      gui := new Gui.GuiManager();
      animations := new Animations.AnimationManager();
      messages := new Messages.MessageManager();
      timers := new Timers.TimerManager();
      objects := [];
      callbacks := SceneCallbacks(None, None);
    }

    /** Replaces the object list wholesale. */
    method SetObjects(objs: seq<SceneObject>)
      modifies this
      ensures objects == objs && callbacks == old(callbacks)
    {
      objects := objs;
    }

    method SetSceneCallbacks(hooks: SceneCallbacks)
      modifies this
      ensures callbacks == hooks && objects == old(objects)
    {
      callbacks := hooks;
    }

    function GetObjectByName(name: string): (r: Option<SceneObject>)
      reads this
      ensures r.Some? ==> r.value in objects && r.value.name == name
      ensures r.None? <==> forall o :: o in objects ==> o.name != name
    {
      ObjectByName(objects, name)
    }

    function FindObjectsByTag(tag: string): (r: seq<SceneObject>)
      reads this
      ensures forall o :: o in r <==> o in objects && HasTag(o, tag)
    {
      ObjectsByTag(objects, tag)
    }

    /** The API for a script: the hooks as they are now, the live managers, and the context. */
    function CreateApi(current: Option<SceneObject>, time: Option<real>, delta: Option<real>): (r: Api)
      reads this
      ensures r.onStart == callbacks.onStart && r.onUpdate == callbacks.onUpdate
      ensures r.input == input && r.gui == gui
      ensures r.current == current && r.time == time && r.delta == delta
    {
      Api(callbacks.onStart, callbacks.onUpdate, input, gui, current, time, delta)
    }

    /** Builds an API, then changes the scene hooks: the API keeps the hooks it was built with
        but shares the managers. */
    method ApiThenNewCallbacks(hooks: SceneCallbacks) returns (api: Api)
      modifies this
      ensures api.onStart == old(callbacks.onStart) && api.onUpdate == old(callbacks.onUpdate)
      ensures callbacks == hooks && api.input == input && api.gui == gui
    {
      api := CreateApi(None, None, None);
      SetSceneCallbacks(hooks);
    }

    /** One frame of `deltaMs` at scene time `time`, with the navigator's gamepad slots: input
        first, then the tweens over `store`, then the timers, then the scene's update hook. */
    method Update(deltaMs: nat, time: real, slots: seq<Option<Input.Gamepad>>, store: Animations.PropertyStore)
      returns (steps: seq<FrameStep>)
      requires Valid()
      modifies input, animations, store, animations.Objects(), timers
      ensures Valid()
      ensures steps == Frame(Animations.SweepEvents(old(animations.animations.keys), old(animations.Tweens()), deltaMs),
                             Timers.Fired(old(timers.timers), deltaMs), callbacks, deltaMs, time)
      ensures input.Keys() == Input.EndFrame(old(input.Keys())) && input.gamepads == Input.Connected(slots)
      ensures input.mouseButtons == old(input.mouseButtons)
      ensures input.mouseX == old(input.mouseX) && input.mouseY == old(input.mouseY)
      ensures animations.animations
           == old(animations.animations).RemoveAll(Animations.Completed(old(animations.Tweens()), deltaMs))
      ensures forall k :: k in old(animations.animations.values) ==>
        old(animations.animations.values[k]).State() == Animations.Step(old(animations.Tweens())[k], deltaMs)
      ensures store.cells
           == Animations.SweepCells(old(animations.animations.keys), old(animations.Tweens()), old(store.cells), deltaMs)
      ensures timers.timers == Timers.AfterUpdate(old(timers.timers), deltaMs)
    {
      ghost var table0, tweens0, cells0 := animations.animations, animations.Tweens(), store.cells;
      input.Update(slots);
      assert animations.animations == table0 && animations.Tweens() == tweens0 && store.cells == cells0;
      var events, fired := Tick(deltaMs, store);
      steps := Frame(events, fired, callbacks, deltaMs, time);
    }

    /** The managers' part of a frame: the tweens over `store`, then the timers. */
    method Tick(deltaMs: nat, store: Animations.PropertyStore) returns (events: seq<Animations.Event>, fired: seq<Timers.TimerId>)
      requires Valid()
      modifies animations, store, animations.Objects(), timers
      ensures Valid()
      ensures events == Animations.SweepEvents(old(animations.animations.keys), old(animations.Tweens()), deltaMs)
      ensures fired == Timers.Fired(old(timers.timers), deltaMs)
      ensures animations.animations
           == old(animations.animations).RemoveAll(Animations.Completed(old(animations.Tweens()), deltaMs))
      ensures forall k :: k in old(animations.animations.values) ==>
        old(animations.animations.values[k]).State() == Animations.Step(old(animations.Tweens())[k], deltaMs)
      ensures store.cells
           == Animations.SweepCells(old(animations.animations.keys), old(animations.Tweens()), old(store.cells), deltaMs)
      ensures timers.timers == Timers.AfterUpdate(old(timers.timers), deltaMs)
    {
      ghost var table0 := timers.timers;
      events := animations.Update(deltaMs, store);
      assert timers.timers == table0;
      ghost var cells1 := store.cells;
      fired := timers.Update(deltaMs);
      assert store.cells == cells1;
    }

    /** Shuts the input down and empties the timer table; tweens, handlers and GUI stay. */
    method Dispose()
      requires Valid()
      modifies timers
      ensures Valid() && timers.timers.keys == [] && timers.ActiveTimerCount() == 0
    {
      timers.Dispose();
    }
  }
}
