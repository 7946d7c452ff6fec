# Behaviour runtime of a browser scene editor, in Dafny

This project models the in-memory core of a 3D scene editor whose objects carry scripts that
run every frame in "play" mode. The core is a small frame-driven engine and a few editor
helpers:

- `Timers`: the timer table. It holds one-shot and repeating timers, counted in milliseconds
  of accumulated frame time.
- `Animations`: the tween table. Each tween has a start-delay window, a progress fraction
  clamped to [0, 1] and six polynomial easing curves. `animateSequence` chains tweens into one
  timeline.
- `Messages`: per-object message handlers, global handlers and the object-to-tags map.
  Tag targets are resolved at send time.
- `Gui`: the registry of on-screen controls. It maps `gui-N` ids to elements and keeps named,
  ordered containers. Every change is announced to the renderer.
- `Input`: keyboard sets with edge detection, mouse buttons and gamepad snapshots, and the
  name tables scripts use.
- `Engine`: the facade. It answers name and tag queries over the scene's object list, runs
  the managers in a fixed order each frame and builds the API record scripts receive.
- `Editor`: the editor store. It covers the naming rule for new objects and the
  delete/update/toggle/clear transitions.
- `Panel`: the properties panel's `#rrggbb` colour parser and printer, the axis index of a
  transform edit and the material edit.
- `Templates`: the constant library of starter scripts, looked up by category and by name.

Helper modules: `OrderedMaps` models ECMAScript's insertion-ordered `Map`, since iteration
order decides the order of callbacks. `Seqs` holds `indexOf`/`splice` and distinctness.
`Decimal` renders numbers the way a template literal `${n}` does. `Ascii` holds letter case
and the `[a-zA-Z]` class. `Options` stands in for `undefined`/`null`.

Modelling choices:

- Times are whole milliseconds (`nat`). The caller converts the frame delta from seconds.
- Callbacks and handlers are opaque ids. An operation that invokes them returns a trace: the
  invocations it makes, in order.
- Easing and interpolation are over `real`.
- Colours are handled at byte level. The store's `value/255` channels are related to the
  bytes separately (`Panel.Normalized`, `Panel.ChannelOfNormalized`).
- The GUI change event is a counter (`notifications`).
- `navigator.getGamepads()` is a parameter of `Input.InputManager.Update`.
- The UUID and the two `Math.random()` draws of `addObject` are parameters.

Behaviour worth knowing, as the code has it:

- `animateSequence` with steps of 500 ms and 300 ms and delays 0 and 200 ms starts the steps
  at 0 ms and 700 ms (`Animations.SequenceExample`). Step `i` starts after the delays and
  durations of the earlier steps plus its own delay.
- The engine's `dispose` disposes the input and the timers only. The GUI registry, the tweens
  and the message tables keep their contents (`Engine.GameEngine.Dispose`).
- `broadcast` targets every id that has a handler table. `removeAllHandlers` leaves an object
  registered without a table, so `broadcast` skips it; `addMessageHandler` creates a table
  for an id that never registered, so `broadcast` reaches it. After those sends, `broadcast`
  calls the global handlers once more with no source (`Messages.MessageManager.Broadcast`).

## Model

| member | source | states |
|---|---|---|
| `Timers.TimerManager.constructor` | src/lib/gameEngine/TimerManager.ts:10-12 | a new manager has an empty table and its id counter at 1 |
| `Timers.TimerManager.SetTimeout` | src/lib/gameEngine/TimerManager.ts:14-27 | returns the counter's value, which no timer has, and bumps the counter; appends a one-shot with elapsed 0, active, `isInterval` false |
| `Timers.TimerManager.SetInterval` | src/lib/gameEngine/TimerManager.ts:29-42 | same id rule, shared with `SetTimeout`; appends a repeating timer with elapsed 0 |
| `Timers.TimerManager.ClearTimeout` | src/lib/gameEngine/TimerManager.ts:44-50 | removes exactly that timer, keeping the others and their order; an unknown id changes nothing |
| `Timers.TimerManager.ClearInterval` | src/lib/gameEngine/TimerManager.ts:52-54 | identical to `ClearTimeout` |
| `Timers.TimerManager.Update` | src/lib/gameEngine/TimerManager.ts:62-90 | fires the timers whose new elapsed reaches their delay, in table order; the new table is `AfterUpdate`; well-formedness is kept |
| `Timers.TimerManager.AdvanceTimers` | src/lib/gameEngine/TimerManager.ts:66-86 | the sweep advances every timer, reports the fired ids in order and collects the fired one-shots |
| `Timers.TimerManager.AdvanceTimer` | src/lib/gameEngine/TimerManager.ts:69-85 | one timer gains the delta; a fired interval gives back one delay; says whether it fired and whether it expires |
| `Timers.TimerManager.DeleteTimers` | src/lib/gameEngine/TimerManager.ts:88-89 | the deferred deletes remove exactly the collected ids |
| `Timers.TimerManager.Dispose` | src/lib/gameEngine/TimerManager.ts:92-94 | the table is empty and the active count is 0; the id counter is not reset |
| `Timers.TimerManager.ActiveTimerCount` | src/lib/gameEngine/TimerManager.ts:96-98 | the map's size equals the number of keys in iteration order |
| `Timers.Fires` | src/lib/gameEngine/TimerManager.ts:69-71 | defines when a timer fires: its elapsed time plus the delta reaches its delay (`Timers.FiresExactlyOnce`) |
| `Timers.Advance` | src/lib/gameEngine/TimerManager.ts:69-80 | defines a timer after an update: elapsed grows by the delta, and a firing interval gives back one delay and keeps the overshoot (`Timers.IntervalExample`) |
| `Timers.FiredAmong` | src/lib/gameEngine/TimerManager.ts:66-76 | defines the firing timers among some ids, in their order (`Timers.FiredAmongMembers`) |
| `Timers.Fired` | src/lib/gameEngine/TimerManager.ts:66-76 | defines an update's callback trace: the firing timers in the table's iteration order (`Timers.UpdateOutcome`) |
| `Timers.Expired` | src/lib/gameEngine/TimerManager.ts:78-89 | defines the one-shots that fire, which the update deletes (`Timers.ExpiredAmongMembers`) |
| `Timers.AfterUpdate` | src/lib/gameEngine/TimerManager.ts:62-90 | defines the table after an update: fired one-shots deleted, the rest advanced in their old order (`Timers.UpdateOutcome`, `Timers.AfterUpdateWellFormed`) |
| `Timers.FiresExactlyOnce` | src/lib/gameEngine/TimerManager.ts:66-76 | a timer fires iff elapsed + delta reaches its delay, and fires at most once per update |
| `Timers.FiredAmongMembers` | src/lib/gameEngine/TimerManager.ts:66-76 | the sweep reports exactly the timers whose new elapsed reaches their delay, each once |
| `Timers.ExpiredAmongMembers` | src/lib/gameEngine/TimerManager.ts:78-84 | the ids collected for deletion are exactly the fired one-shots |
| `Timers.UpdateOutcome` | src/lib/gameEngine/TimerManager.ts:69-89 | a fired one-shot is gone; a fired interval keeps elapsed + delta - delay, not 0; an unfired timer gains the delta; nothing else in a record changes |
| `Timers.AfterUpdateWellFormed` | src/lib/gameEngine/TimerManager.ts:62-90 | an update keeps ids below the counter and the table consistent |
| `Timers.OneShotExample` | src/lib/gameEngine/TimerManager.ts:81-89 | a 1000 ms one-shot over four 300 ms updates fires once, on the fourth, and is then absent |
| `Timers.IntervalExample` | src/lib/gameEngine/TimerManager.ts:78-80 | a 500 ms interval given one 1200 ms update fires once and keeps 700 ms |
| `Animations.EaseInQuad` | src/lib/gameEngine/AnimationManager.ts:169-170 | `p*p` maps 0 to 0 and 1 to 1 and stays in [0,1] on [0,1] |
| `Animations.EaseOutQuad` | src/lib/gameEngine/AnimationManager.ts:171-172 | `p*(2-p)` maps 0 to 0 and 1 to 1 and stays in [0,1] |
| `Animations.EaseInOutQuad` | src/lib/gameEngine/AnimationManager.ts:173-174 | the two-piece quadratic maps 0 to 0 and 1 to 1 and stays in [0,1] |
| `Animations.EaseInCubic` | src/lib/gameEngine/AnimationManager.ts:175-176 | `p³` maps 0 to 0 and 1 to 1 and stays in [0,1] |
| `Animations.EaseOutCubic` | src/lib/gameEngine/AnimationManager.ts:177-178 | `(p-1)³+1` (after the in-place decrement) maps 0 to 0 and 1 to 1 and stays in [0,1] |
| `Animations.EaseInOutCubic` | src/lib/gameEngine/AnimationManager.ts:179-180 | the two-piece cubic maps 0 to 0 and 1 to 1 and stays in [0,1] |
| `Animations.ApplyEasing` | src/lib/gameEngine/AnimationManager.ts:167-184 | every named curve maps 0 to 0 and 1 to 1 and stays in [0,1]; an unknown or absent name is the identity |
| `Animations.Progress` | src/lib/gameEngine/AnimationManager.ts:119 | `min(t/duration, 1)` lies in [0,1] and is 1 exactly when t ≥ duration |
| `Animations.Interpolate` | src/lib/gameEngine/AnimationManager.ts:148-165 | numbers: the initial value at 0, exactly the target at 1, between the two on [0,1]; a non-number start jumps to the target at 0.5 |
| `Animations.PropertyStore.Get` | src/lib/gameEngine/AnimationManager.ts:93-104 | reading an absent property gives `undefined` |
| `Animations.PropertyStore.Set` | src/lib/gameEngine/AnimationManager.ts:135-146 | writing a property changes only that cell, and reading it back gives the written value |
| `Animations.Animation.constructor` | src/lib/gameEngine/AnimationManager.ts:87-104 | captures the property's value at creation as the initial value; the clock is at 0, not started and not stopped |
| `Animations.Animation.Update` | src/lib/gameEngine/AnimationManager.ts:106-133 | one tick: the new clock is `Step`, the property is written per `TickCells`, and the callbacks invoked are `TickEvents` |
| `Animations.Animation.IsComplete` | src/lib/gameEngine/AnimationManager.ts:197-199 | complete iff started and the clock has reached the duration |
| `Animations.Animation.Stop` | src/lib/gameEngine/AnimationManager.ts:201-203 | sets only the stopped flag |
| `Animations.Waiting` | src/lib/gameEngine/AnimationManager.ts:109-113 | defines the delay window: not stopped, not started, a non-zero start delay not yet reached (`Animations.WaitingTick`) |
| `Animations.Runs` | src/lib/gameEngine/AnimationManager.ts:107-118 | defines a tick that moves the property: not stopped and outside the delay window |
| `Animations.NextClock` | src/lib/gameEngine/AnimationManager.ts:106-118 | defines the clock after a tick: a stopped clock stays; in the window the delta is added; otherwise the clock is started, reset to 0 on the first running tick, and the delta added (`Animations.StartingTick`) |
| `Animations.Step` | src/lib/gameEngine/AnimationManager.ts:106-118 | defines the tween after a tick: only its clock changes |
| `Animations.TickWrite` | src/lib/gameEngine/AnimationManager.ts:119-122 | defines the value a running tick writes: the eased progress interpolated from the initial value to the target (`Animations.WriteBetween`) |
| `Animations.TickCells` | src/lib/gameEngine/AnimationManager.ts:135-146 | defines the property cells after a tick: the written value assigned to the tween's cell |
| `Animations.TickEvents` | src/lib/gameEngine/AnimationManager.ts:124-132 | defines a tick's callbacks: `onUpdate` with the written value, then `onComplete` once progress reaches 1 (`Animations.CompletionTick`) |
| `Animations.SweepEvents` | src/lib/gameEngine/AnimationManager.ts:66-71 | defines an update's callback trace: every tween's tick callbacks, in table order |
| `Animations.SweepCells` | src/lib/gameEngine/AnimationManager.ts:66-71 | defines the property cells after an update: every tween ticked in table order, later writes winning |
| `Animations.Completed` | src/lib/gameEngine/AnimationManager.ts:68-74 | defines the ids an update deletes: the tweens complete after their tick (`Animations.CompletedAmongMembers`, `Animations.SweepCompletions`) |
| `Animations.IdOf` | src/lib/gameEngine/AnimationManager.ts:21-35 | defines the ids `anim-N` and `seq-N-i` (`Animations.IdOfInjective`) |
| `Animations.SequenceIds` | src/lib/gameEngine/AnimationManager.ts:31-42 | one id per step, `seq-(n+1)-0`, `seq-(n+2)-1`, and so on (`Animations.SequenceIdAt`) |
| `Animations.Span` | src/lib/gameEngine/AnimationManager.ts:29-45 | defines the time a run of steps takes: every delay plus every duration |
| `Animations.Offset` | src/lib/gameEngine/AnimationManager.ts:32-38 | defines step `i`'s start delay: the span of the earlier steps plus its own delay (`Animations.OffsetsChain`) |
| `Animations.Planned` | src/lib/gameEngine/AnimationManager.ts:36-39 | defines the tween step `i` is created as: the step's options with its offset as start delay, the property's current value, a fresh clock |
| `Animations.StoppedIsInert` | src/lib/gameEngine/AnimationManager.ts:106-107 | a stopped tween's tick changes nothing, writes nothing and calls nothing |
| `Animations.WaitingTick` | src/lib/gameEngine/AnimationManager.ts:109-113 | inside the delay window a tick only advances the clock; no write, no callback, not complete |
| `Animations.StartingTick` | src/lib/gameEngine/AnimationManager.ts:114-118 | the tick that ends the delay restarts the clock at 0, adds its own delta and writes |
| `Animations.CompletionTick` | src/lib/gameEngine/AnimationManager.ts:118-133 | a running tick completes the tween iff its progress reaches 1; that tick writes exactly the target; `onComplete` fires on exactly that tick |
| `Animations.WriteBetween` | src/lib/gameEngine/AnimationManager.ts:118-146 | a running tick writes a value between the initial value and the target |
| `Animations.IdOfInjective` | src/lib/gameEngine/AnimationManager.ts:21-35 | `anim-N` and `seq-N-i` ids are distinct for distinct origins |
| `Animations.IssuedIdIsNew` | src/lib/gameEngine/AnimationManager.ts:21-36 | an id built from the incremented counter is not yet in the table |
| `Animations.SequenceIdAt` | src/lib/gameEngine/AnimationManager.ts:31-42 | step `i` of a sequence gets the id `seq-(n+i+1)-i` |
| `Animations.OffsetsChain` | src/lib/gameEngine/AnimationManager.ts:29-45 | each step starts after the previous step's start plus its duration, plus its own delay |
| `Animations.SequenceExample` | src/lib/gameEngine/AnimationManager.ts:27-47 | steps 500/300 with delays 0/200 start at 0 and 700 |
| `Animations.CompletedAmongMembers` | src/lib/gameEngine/AnimationManager.ts:66-71 | the ids collected for deletion are exactly those complete after their tick |
| `Animations.SweepCompletions` | src/lib/gameEngine/AnimationManager.ts:63-75 | an update calls a tween's `onComplete` iff that tween ran, completed and is removed |
| `Animations.AnimationManager.constructor` | src/lib/gameEngine/AnimationManager.ts:16-18 | an empty table with the counter at 0 |
| `Animations.AnimationManager.Register` | src/lib/gameEngine/AnimationManager.ts:20-24 | bumps the counter, issues an id no tween has, appends a tween that captured the current value, and leaves the other tweens alone |
| `Animations.AnimationManager.Animate` | src/lib/gameEngine/AnimationManager.ts:20-25 | returns a fresh `anim-N` id with N the incremented counter; appends a new tween; the other tweens are untouched |
| `Animations.AnimationManager.AnimateSequence` | src/lib/gameEngine/AnimationManager.ts:27-48 | one fresh id per step, in order, appended to the table; step `i` is created with start delay `Offset(items, i)` |
| `Animations.AnimationManager.IssueSteps` | src/lib/gameEngine/AnimationManager.ts:31-45 | the loop issues one id per step in order, accumulates delays and durations into the start offset, and appends each tween |
| `Animations.AnimationManager.StopAnimation` | src/lib/gameEngine/AnimationManager.ts:50-56 | stops and removes that id with no completion callback; an unknown id changes nothing |
| `Animations.AnimationManager.StopAllAnimations` | src/lib/gameEngine/AnimationManager.ts:58-61 | stops every tween and empties the table |
| `Animations.AnimationManager.Update` | src/lib/gameEngine/AnimationManager.ts:63-75 | ticks every tween in table order, then removes exactly those complete after their tick |
| `Animations.AnimationManager.Sweep` | src/lib/gameEngine/AnimationManager.ts:66-71 | the sweep steps every tween and collects the completed ids in order |
| `Animations.AnimationManager.TickOne` | src/lib/gameEngine/AnimationManager.ts:67-70 | ticking one tween leaves every other tween unchanged |
| `Animations.AnimationManager.DeleteAll` | src/lib/gameEngine/AnimationManager.ts:74 | the deferred deletes remove exactly the collected ids |
| `Animations.StopEach` | src/lib/gameEngine/AnimationManager.ts:59 | every tween is marked stopped |
| `Messages.MessageManager.constructor` | src/lib/gameEngine/MessageManager.ts:5-8 | all three tables start empty |
| `Messages.MessageManager.RegisterObject` | src/lib/gameEngine/MessageManager.ts:10-15 | sets the tags; creates an empty handler table only if none exists, so the handlers of a re-registered object are kept |
| `Messages.MessageManager.UnregisterObject` | src/lib/gameEngine/MessageManager.ts:17-20 | removes that id's handler table and tag entry and nothing else |
| `Messages.MessageManager.AddMessageHandler` | src/lib/gameEngine/MessageManager.ts:22-33 | appends to the end of the `(id, type)` list, creating the table and list lazily; other lists are unchanged |
| `Messages.MessageManager.AddGlobalMessageHandler` | src/lib/gameEngine/MessageManager.ts:35-41 | appends to the type's global list; other types are unchanged |
| `Messages.MessageManager.SendMessage` | src/lib/gameEngine/MessageManager.ts:43-61 | the target's handlers for the type in order, then every global handler with the target as source |
| `Messages.MessageManager.SendGlobalMessage` | src/lib/gameEngine/MessageManager.ts:89-100 | every global handler of the type, in order, told the given source |
| `Messages.MessageManager.SendMessageToTag` | src/lib/gameEngine/MessageManager.ts:63-77 | resolves the tagged ids at send time, in tag-map order, then sends to each |
| `Messages.MessageManager.Broadcast` | src/lib/gameEngine/MessageManager.ts:79-87 | sends to every id with a handler table, in order, then calls the global handlers once more with no source |
| `Messages.MessageManager.SendEach` | src/lib/gameEngine/MessageManager.ts:74-76 | sends to each target in turn |
| `Messages.MessageManager.RemoveMessageHandler` | src/lib/gameEngine/MessageManager.ts:102-113 | removes only the first occurrence of that handler from that list; nothing else changes |
| `Messages.MessageManager.RemoveAllHandlers` | src/lib/gameEngine/MessageManager.ts:115-117 | drops the handler table and keeps the tags |
| `Messages.MessageManager.Clear` | src/lib/gameEngine/MessageManager.ts:119-123 | all three tables are empty |
| `Messages.GlobalCalls` | src/lib/gameEngine/MessageManager.ts:89-100 | one call per global handler of the type, in order, each with the given source |
| `Messages.Listed` | src/lib/gameEngine/MessageManager.ts:45-48 | defines an object's handlers for a type, in the order added, or none |
| `Messages.GlobalListed` | src/lib/gameEngine/MessageManager.ts:90-91 | defines the global handlers for a type, in the order added, or none |
| `Messages.MessageCalls` | src/lib/gameEngine/MessageManager.ts:43-61 | defines `sendMessage`'s trace: the object's handlers in order, then the global ones told the target as source (`Messages.MessageCallsOrder`) |
| `Messages.SendAll` | src/lib/gameEngine/MessageManager.ts:73-76 | defines the trace of `sendMessage` to each target in turn (`Messages.SendAllCalls`) |
| `Messages.TagTargets` | src/lib/gameEngine/MessageManager.ts:65-71 | defines the objects whose tag list holds the tag, in the tag map's order (`Messages.TagTargetsMembers`) |
| `Messages.MessageCallsOrder` | src/lib/gameEngine/MessageManager.ts:43-61 | a send makes exactly the object handlers' calls first, then the global ones |
| `Messages.TagTargetsMembers` | src/lib/gameEngine/MessageManager.ts:63-71 | the tag targets are exactly the ids in the tag map whose tags contain the tag, each once; unregistered ids never appear |
| `Messages.SendAllCalls` | src/lib/gameEngine/MessageManager.ts:73-76 | every call of a multi-target send comes from the send to one of the targets |
| `Messages.SendAllType` | src/lib/gameEngine/MessageManager.ts:43-61 | every invocation carries the type of the message sent |
| `Messages.AddThenRemove` | src/lib/gameEngine/MessageManager.ts:22-33 | adding a new handler and then removing it restores the list |
| `Gui.GuiManager.constructor` | src/lib/gameEngine/GUIManager.ts:12-20 | a fresh manager has exactly one container, `default`, which is empty |
| `Gui.GuiManager.Insert` | src/lib/gameEngine/GUIManager.ts:22-40 | a fresh `gui-N` id with N incremented; stores the element and appends the id to its container, creating it if absent; other containers unchanged; one notification |
| `Gui.GuiManager.AddToContainer` | src/lib/gameEngine/GUIManager.ts:129-134 | appends the id to the container, creating it lazily at the end of the container order |
| `Gui.GuiManager.AddButton` | src/lib/gameEngine/GUIManager.ts:26-40 | stores a button with its callback under a fresh id |
| `Gui.GuiManager.AddSlider` | src/lib/gameEngine/GUIManager.ts:42-68 | stores a slider with value, min, max, step and callback under a fresh id |
| `Gui.GuiManager.AddToggle` | src/lib/gameEngine/GUIManager.ts:70-90 | stores a toggle with its flag and callback under a fresh id |
| `Gui.GuiManager.AddText` | src/lib/gameEngine/GUIManager.ts:92-105 | stores a text element with no callback under a fresh id |
| `Gui.GuiManager.AddInput` | src/lib/gameEngine/GUIManager.ts:107-127 | stores an input with its string and callback under a fresh id |
| `Gui.GuiManager.RemoveElement` | src/lib/gameEngine/GUIManager.ts:136-148 | deletes the element and its first occurrence from every container; no container lists it afterwards; notifies |
| `Gui.GuiManager.DropEverywhere` | src/lib/gameEngine/GUIManager.ts:140-145 | the loop drops the first occurrence from each container list |
| `Gui.SpliceOut` | src/lib/gameEngine/GUIManager.ts:141-144 | `indexOf` then `splice(index, 1)` removes the first occurrence only; a list without the id is unchanged; a duplicate-free list loses exactly that id |
| `Gui.GuiManager.ClearContainer` | src/lib/gameEngine/GUIManager.ts:150-155 | deletes exactly the elements the container lists and sets it to empty; notifies |
| `Gui.GuiManager.DeleteListed` | src/lib/gameEngine/GUIManager.ts:152 | deletes exactly the listed ids |
| `Gui.GuiManager.ClearAll` | src/lib/gameEngine/GUIManager.ts:157-161 | empties the elements and every container but keeps the container names; notifies |
| `Gui.GuiManager.EmptyEverywhere` | src/lib/gameEngine/GUIManager.ts:159 | empties every container list |
| `Gui.GuiManager.GetElements` | src/lib/gameEngine/GUIManager.ts:163-166 | the container's elements in its order; an unknown container gives the empty list |
| `Gui.GuiManager.GetAllContainers` | src/lib/gameEngine/GUIManager.ts:168-170 | every container name once, `default` among them |
| `Gui.GuiManager.UpdateElement` | src/lib/gameEngine/GUIManager.ts:172-178 | an unknown id changes nothing and does not notify; otherwise only the given fields are overwritten |
| `Gui.GuiManager.TriggerElement` | src/lib/gameEngine/GUIManager.ts:180-189 | calls the callback with the explicit value if given, else the stored value; a missing element or callback is a no-op |
| `Gui.Merge` | src/lib/gameEngine/GUIManager.ts:175 | for each of id, kind, caption, value, callback, min, max and step: a supplied field overwrites, an absent one is kept; an empty update changes nothing |
| `Gui.GuiId` | src/lib/gameEngine/GUIManager.ts:22-24 | defines the id `gui-N` of the `N`-th element (`Gui.GuiIdInjective`) |
| `Gui.ListOf` | src/lib/gameEngine/GUIManager.ts:164 | defines a container's list, empty for an unknown name |
| `Gui.GuiIdInjective` | src/lib/gameEngine/GUIManager.ts:22-24 | distinct counter values give distinct `gui-N` ids |
| `Gui.IssuedGuiIdIsNew` | src/lib/gameEngine/GUIManager.ts:22-24 | the id made from the incremented counter names no element yet, and later ids stay free |
| `Gui.PresentAll` | src/lib/gameEngine/GUIManager.ts:165 | when every id has an element, the `filter(Boolean)` drops nothing |
| `Gui.InsertedWellFormed` | src/lib/gameEngine/GUIManager.ts:26-40 | adding an element keeps ids unique across the registry and each listed once |
| `Gui.RemovedWellFormed` | src/lib/gameEngine/GUIManager.ts:136-148 | removal keeps the registry well formed and no list names the id |
| `Gui.ClearedWellFormed` | src/lib/gameEngine/GUIManager.ts:150-155 | clearing a container keeps the registry well formed |
| `Gui.EmptiedWellFormed` | src/lib/gameEngine/GUIManager.ts:157-161 | clearing everything keeps the registry well formed |
| `Input.KeyDown` | src/lib/gameEngine/InputManager.ts:15-20 | the key is held afterwards; it joins `pressed` iff it was not already held |
| `Input.KeyUp` | src/lib/gameEngine/InputManager.ts:22-25 | the key leaves `keys` and joins `released` |
| `Input.EndFrame` | src/lib/gameEngine/InputManager.ts:47-50 | empties `pressed` and `released` and keeps `keys` |
| `Input.RepeatIsInert` | src/lib/gameEngine/InputManager.ts:15-20 | repeated keydowns of a held key change nothing |
| `Input.PressedForOneFrame` | src/lib/gameEngine/InputManager.ts:15-20 | a held key reports pressed in its first frame only |
| `Input.PressAfterRelease` | src/lib/gameEngine/InputManager.ts:15-25 | releasing and pressing again in the next frame reports the new press |
| `Input.Connected` | src/lib/gameEngine/InputManager.ts:56-59 | the connected pads are exactly the pads of the non-empty slots; as many as slots when every slot holds a pad |
| `Input.ConnectedAppend` | src/lib/gameEngine/InputManager.ts:56-59 | the filter keeps slot order: the pads of two runs of slots are the first run's pads followed by the second's |
| `Input.NormalizeKey` | src/lib/gameEngine/InputManager.ts:74-102 | a letter becomes `Key`+upper case, a digit `Digit`+digit, a table name its code, anything else unchanged |
| `Input.NormalizeKeyIdempotent` | src/lib/gameEngine/InputManager.ts:74-102 | normalising a normalised key changes nothing |
| `Input.LetterCaseIgnored` | src/lib/gameEngine/InputManager.ts:92-94 | a letter names the same key in either case |
| `Input.Lookup` | src/lib/gameEngine/InputManager.ts:116 | a case-insensitive table lookup with 0 for a missing name |
| `Input.LookupIgnoresCase` | src/lib/gameEngine/InputManager.ts:116 | the lookups do not depend on the case of the name |
| `Input.MouseButtonNumber` | src/lib/gameEngine/InputManager.ts:110-117 | `left/middle/right` in any case map to 0/1/2 and anything else to 0 |
| `Input.AxisIndex` | src/lib/gameEngine/InputManager.ts:134-142 | `x/y/rx/ry` in any case map to 0/1/2/3 and anything else to 0 |
| `Input.ButtonIndex` | src/lib/gameEngine/InputManager.ts:154-174 | button names map into 0..15, each standard name to its index, unknown names to 0 |
| `Input.ButtonTable` | src/lib/gameEngine/InputManager.ts:155-172 | the button table is a bijection from the 16 names onto 0..15 |
| `Input.AxisValue` | src/lib/gameEngine/InputManager.ts:131 | a missing axis reads 0 |
| `Input.ButtonValue` | src/lib/gameEngine/InputManager.ts:151 | a missing button is not pressed |
| `Input.InputManager.constructor` | src/lib/gameEngine/InputManager.ts:1-11 | all sets are empty, the pointer is at (0, 0), no gamepads |
| `Input.InputManager.OnKeyDown` | src/lib/gameEngine/InputManager.ts:15-20 | the key sets become `KeyDown` of the old ones; nothing else changes |
| `Input.InputManager.OnKeyUp` | src/lib/gameEngine/InputManager.ts:22-25 | the key sets become `KeyUp` of the old ones; nothing else changes |
| `Input.InputManager.OnMouseDown` | src/lib/gameEngine/InputManager.ts:28-30 | adds the button |
| `Input.InputManager.OnMouseUp` | src/lib/gameEngine/InputManager.ts:32-34 | removes the button |
| `Input.InputManager.OnMouseMove` | src/lib/gameEngine/InputManager.ts:36-39 | records the pointer position |
| `Input.InputManager.Update` | src/lib/gameEngine/InputManager.ts:47-59 | empties `pressed`/`released`, keeps `keys` and mouse state, takes the connected pads |
| `Input.InputManager.IsKeyDown` | src/lib/gameEngine/InputManager.ts:62-64 | tests the normalised key against `keys` |
| `Input.InputManager.WasKeyPressed` | src/lib/gameEngine/InputManager.ts:66-68 | tests the normalised key against `keysPressed` |
| `Input.InputManager.WasKeyReleased` | src/lib/gameEngine/InputManager.ts:70-72 | tests the normalised key against `keysReleased` |
| `Input.InputManager.IsMouseDown` | src/lib/gameEngine/InputManager.ts:105-108 | a name goes through the mouse table, a number is used as is |
| `Input.InputManager.MousePosition` | src/lib/gameEngine/InputManager.ts:119-121 | a copy of the pointer position |
| `Input.InputManager.GamepadAxis` | src/lib/gameEngine/InputManager.ts:124-132 | an index past the connected pads gives 0; otherwise the named or numbered axis, 0 if missing |
| `Input.InputManager.GamepadButton` | src/lib/gameEngine/InputManager.ts:144-152 | an index past the connected pads gives false; otherwise the named or numbered button |
| `Engine.ObjectByName` | src/lib/gameEngine/GameAPI.ts:144-146 | the first object in list order with the name, or none when no object has it |
| `Engine.ObjectsByTag` | src/lib/gameEngine/GameAPI.ts:148-150 | the objects whose tag list contains the tag; objects without tags are excluded |
| `Engine.HasTag` | src/lib/gameEngine/GameAPI.ts:149 | defines the tag test: the object has a tag list and the tag is in it |
| `Engine.ObjectsByTagAppend` | src/lib/gameEngine/GameAPI.ts:148-150 | the tag query keeps list order |
| `Engine.ObjectsByTagAll` | src/lib/gameEngine/GameAPI.ts:148-150 | a list whose objects all carry the tag is returned whole |
| `Engine.Frame` | src/lib/gameEngine/GameAPI.ts:157-170 | a frame runs input, then tweens, then timers, then `onUpdate` if one is set |
| `Engine.GameEngine.constructor` | src/lib/gameEngine/GameAPI.ts:55-64 | fresh managers, no objects, no scene hooks |
| `Engine.GameEngine.SetObjects` | src/lib/gameEngine/GameAPI.ts:74-76 | replaces the object list wholesale |
| `Engine.GameEngine.SetSceneCallbacks` | src/lib/gameEngine/GameAPI.ts:172-174 | replaces the scene hooks |
| `Engine.GameEngine.GetObjectByName` | src/lib/gameEngine/GameAPI.ts:144-146 | an object of the list with that name, or none iff no object has it |
| `Engine.GameEngine.FindObjectsByTag` | src/lib/gameEngine/GameAPI.ts:148-150 | exactly the listed objects carrying the tag |
| `Engine.GameEngine.CreateApi` | src/lib/gameEngine/GameAPI.ts:78-106 | the record copies the current hooks and shares the live input and GUI managers |
| `Engine.GameEngine.ApiThenNewCallbacks` | src/lib/gameEngine/GameAPI.ts:96-97 | an API built before `setSceneCallbacks` keeps the old hooks |
| `Engine.GameEngine.Update` | src/lib/gameEngine/GameAPI.ts:157-170 | input refresh, then the tween tick, then the timer tick, then `onUpdate`: the key sets end the frame, the mouse state is kept, the pads are the connected slots; the tween table loses its completed tweens, each tween's clock takes one step and the property cells are the sweep's writes; the timer table is the one-update successor; the trace is the tweens' callbacks, the timers' callbacks, then the scene hook |
| `Engine.GameEngine.Tick` | src/lib/gameEngine/GameAPI.ts:159-160 | the tween sweep then the timer sweep: the same tween, cell and timer outcomes, with the callbacks of each |
| `Engine.GameEngine.Dispose` | src/lib/gameEngine/GameAPI.ts:176-179 | leaves the timer table empty |
| `Editor.Vec3.With` | src/components/3d-editor/PropertiesPanel.tsx:23 | replaces one component and keeps the other two |
| `Editor.Apply` | src/store/editorStore.ts:104-113 | `{...o, ...u}`: for each of id, name, kind, position, rotation, scale, visible, material and script, a supplied field overwrites and an absent one is kept; an empty patch changes nothing |
| `Editor.OfType` | src/store/editorStore.ts:73 | the objects of a type, in list order |
| `Editor.OfTypeAppend` | src/store/editorStore.ts:73 | counting by type distributes over concatenation |
| `Editor.NewName` | src/store/editorStore.ts:67-74 | the bare type name when no object of the type exists, else `"<Name> <k+1>"` for k existing |
| `Editor.BaseName` | src/store/editorStore.ts:67-71 | defines the display name of each object type |
| `Editor.NewNameInjective` | src/store/editorStore.ts:74 | different counts give different names |
| `Editor.DefaultObject` | src/store/editorStore.ts:42-55 | zero position and rotation, unit scale, visible, grey, opacity 1, empty script, the given id and name |
| `Editor.Deleted` | src/store/editorStore.ts:99 | the objects without that id, nothing else |
| `Editor.DeletedAppend` | src/store/editorStore.ts:99 | deletion keeps list order |
| `Editor.DeletedAbsent` | src/store/editorStore.ts:99 | deleting an absent id changes nothing |
| `Editor.Updated` | src/store/editorStore.ts:106-108 | the patch is merged into exactly the objects with that id, positions unchanged |
| `Editor.Reselect` | src/store/editorStore.ts:109-111 | the selection is patched only if its id matches |
| `Editor.EditorStore.constructor` | src/store/editorStore.ts:57-63 | empty scene, no selection, translate mode, not playing, empty global script |
| `Editor.EditorStore.AddObject` | src/store/editorStore.ts:66-91 | appends exactly one default object named by the rule, selects it, and offsets it in a non-empty scene |
| `Editor.EditorStore.SelectObject` | src/store/editorStore.ts:93-95 | sets only the selection |
| `Editor.EditorStore.DeleteObject` | src/store/editorStore.ts:97-102 | removes every object with the id and clears the selection only if it had that id |
| `Editor.EditorStore.UpdateObject` | src/store/editorStore.ts:104-113 | merges into the matching objects and into the selection only if its id matches |
| `Editor.EditorStore.SetTransformMode` | src/store/editorStore.ts:115-117 | sets only the mode |
| `Editor.EditorStore.TogglePlayMode` | src/store/editorStore.ts:119-121 | negates `isPlaying`, so two toggles restore it |
| `Editor.EditorStore.SetGlobalScript` | src/store/editorStore.ts:123-125 | sets only the global script |
| `Editor.EditorStore.ClearScene` | src/store/editorStore.ts:176-183 | no objects, no selection, empty global script, not playing; mode kept |
| `Editor.AddCountsOne` | src/store/editorStore.ts:73-88 | adding an object raises its type's count by one |
| `Editor.SuccessiveNamesDiffer` | src/store/editorStore.ts:67-90 | two objects of one type added in a row get different names |
| `Editor.ThreeCubes` | src/store/editorStore.ts:67-74 | the first three cubes are `Cube`, `Cube 2`, `Cube 3` |
| `Editor.NameCanRepeat` | src/store/editorStore.ts:73-74 | the rule counts survivors, so after a deletion a new cube can repeat the name `Cube 2` |
| `Panel.Digits` | src/components/3d-editor/PropertiesPanel.tsx:37 | matches iff an optional `#` is followed by exactly six hex digits of either case |
| `Panel.HexToRgb` | src/components/3d-editor/PropertiesPanel.tsx:36-43 | a colour iff the pattern matches, else null |
| `Panel.ToHex` | src/components/3d-editor/PropertiesPanel.tsx:49 | `toString(16)` has one digit exactly below 16 |
| `Panel.HexChar` | src/components/3d-editor/PropertiesPanel.tsx:49 | a hex digit value prints as a lower-case digit that parses back to it |
| `Panel.PadTwo` | src/components/3d-editor/PropertiesPanel.tsx:49 | `padStart(2, '0')` leaves two or more characters alone and left-pads shorter strings to two |
| `Panel.ByteHex` | src/components/3d-editor/PropertiesPanel.tsx:46-49 | a byte prints as its two lower-case hex digits |
| `Panel.RgbToHex` | src/components/3d-editor/PropertiesPanel.tsx:45-50 | always `#` and six lower-case hex digits |
| `Panel.ParseByteHex` | src/components/3d-editor/PropertiesPanel.tsx:39-49 | parsing a printed byte gives it back |
| `Panel.ParsePair` | src/components/3d-editor/PropertiesPanel.tsx:39-41 | defines `parseInt(s, 16)` on two hex digits (`Panel.PairRoundTrip`) |
| `Panel.RgbRoundTrip` | src/components/3d-editor/PropertiesPanel.tsx:36-50 | `hexToRgb(rgbToHex(c)) = c` |
| `Panel.PairRoundTrip` | src/components/3d-editor/PropertiesPanel.tsx:39-49 | two parsed digits print back in lower case |
| `Panel.HexRoundTrip` | src/components/3d-editor/PropertiesPanel.tsx:36-50 | `rgbToHex(hexToRgb(h)) = "#" + lowercase(digits of h)` for every accepted h |
| `Panel.PrintParsed` | src/components/3d-editor/PropertiesPanel.tsx:36-50 | three parsed digit pairs print back as `#` and the pairs in lower case |
| `Panel.Normalized` | src/components/3d-editor/PropertiesPanel.tsx:39-41 | bytes divided by 255 lie in [0,1] |
| `Panel.Channel` | src/components/3d-editor/PropertiesPanel.tsx:46-48 | `Math.round(x*255)` is the nearest integer, halves up |
| `Panel.ChannelOfNormalized` | src/components/3d-editor/PropertiesPanel.tsx:39-48 | scaling back by 255 and rounding recovers the byte |
| `Panel.NormalizedRoundTrip` | src/components/3d-editor/PropertiesPanel.tsx:39-48 | rounding the three normalised channels back gives the original colour |
| `Panel.StoredColorRoundTrip` | src/components/3d-editor/PropertiesPanel.tsx:36-50 | a typed colour stored as `/255` channels prints back as its digits in lower case |
| `Panel.ColorToHex` | src/components/3d-editor/PropertiesPanel.tsx:45-50 | defines the printing of a stored colour: each channel rounded to a byte, then `#rrggbb` (`Panel.StoredColorRoundTrip`) |
| `Panel.AxisIndex` | src/components/3d-editor/PropertiesPanel.tsx:23 | `x` gives 0, `y` gives 1, anything else 2 |
| `Panel.TransformPatch` | src/components/3d-editor/PropertiesPanel.tsx:21-25 | defines a transform edit's patch: the edited vector with one component replaced (`Panel.TransformEdit`) |
| `Panel.MaterialPatch` | src/components/3d-editor/PropertiesPanel.tsx:27-34 | defines a material edit's patch: the material with the one field replaced (`Panel.MaterialEditKeepsRest`) |
| `Panel.TransformEdit` | src/components/3d-editor/PropertiesPanel.tsx:21-25 | a transform edit changes one component of one vector and nothing else |
| `Panel.MaterialEditKeepsRest` | src/components/3d-editor/PropertiesPanel.tsx:27-34 | a material edit replaces only the named field and keeps the rest |
| `Templates.InCategory` | src/lib/gameEngine/ScriptTemplates.ts:270 | exactly the templates of the category, no more of them than the table has |
| `Templates.InCategoryAppend` | src/lib/gameEngine/ScriptTemplates.ts:270 | the filter keeps table order: filtering a table split in two filters each part and joins the results |
| `Templates.InCategoryAll` | src/lib/gameEngine/ScriptTemplates.ts:270 | a table whose templates all have the category comes back whole, in order |
| `Templates.InCategoryNone` | src/lib/gameEngine/ScriptTemplates.ts:270 | a table with no template of the category filters to nothing |
| `Templates.TemplatesByCategory` | src/lib/gameEngine/ScriptTemplates.ts:269-271 | exactly the library's templates with that category |
| `Templates.AllTemplates` | src/lib/gameEngine/ScriptTemplates.ts:273-275 | the whole table of eleven templates, as it stands |
| `Templates.InputTemplates` | src/lib/gameEngine/ScriptTemplates.ts:27-71 | the `Input` category yields the arrow-key and spacebar templates, in table order, and nothing else |
| `Templates.Named` | src/lib/gameEngine/ScriptTemplates.ts:278 | the first template with the name, or none if no template has it |
| `Templates.TemplateByName` | src/lib/gameEngine/ScriptTemplates.ts:277-279 | a template with the name from the library, or none iff absent |
| `Templates.NamesDistinct` | src/lib/gameEngine/ScriptTemplates.ts:8-257 | template names are pairwise distinct |
| `Templates.LookupByListedName` | src/lib/gameEngine/ScriptTemplates.ts:277-279 | a lookup by any listed name returns that template |
| `Templates.CategoriesListed` | src/lib/gameEngine/ScriptTemplates.ts:259-267 | every template's category is listed, and no category twice |
| `Templates.CategoriesPartition` | src/lib/gameEngine/ScriptTemplates.ts:269-271 | over distinct categories covering the table, the per-category results return each template once |
| `Templates.LibraryPartition` | src/lib/gameEngine/ScriptTemplates.ts:8-271 | the listed categories' lookups together return all eleven templates |

## Left out

- Vector and Euler tweens are not modelled. Their interpolation goes through the THREE.js
  `lerpVectors` and quaternion `slerp` library calls. Tweens target numeric properties only.
- Dotted property paths are not traversed over live JavaScript objects. A tween's target is
  one numeric cell (`Animations.Cell`: an object identity and a property name). A path that
  does not resolve, and so throws, is not modelled.
- Floating point is not modelled. The seconds-to-milliseconds conversion is done by the
  caller, so deltas are whole milliseconds. Easing is exact `real` arithmetic. Colours are
  bytes; the `/255` store value is related to them exactly.
- `Animations.AnimationManager.Animate`: requires a positive duration. With a duration of 0,
  a tick whose delta leaves the clock at 0 computes the progress `0/0`, which is NaN, and NaN
  is not a `real`. (A tick with a positive delta gives `Infinity`, clamped to 1: the tween
  writes its target, fires `onComplete` and is removed.) The members below carry the same
  requirement for the same reason.
- `Animations.AnimationManager.AnimateSequence`: requires every step's duration to be positive.
- `Animations.AnimationManager.IssueSteps`: requires every step's duration to be positive.
- `Animations.AnimationManager.AddStep`: requires the step's duration to be positive.
- `Animations.AnimationManager.Register`: requires the tween's duration to be positive.
- `Animations.RegisteredWellFormed`: requires the tween's duration to be positive.
- `Animations.Animation.Update`: requires a positive duration.
- `Animations.Progress`: requires a positive duration; `TickProgress`, `TickWrite`,
  `TickCells` and `TickEvents` inherit it. `SweepCells` and `SweepEvents` leave a tween with
  duration 0 untouched, a case the manager's invariant rules out.
- `wait` is not modelled. It is an async promise resolved by a one-shot timer; its timer
  behaves as `SetTimeout`.
- Callbacks are opaque ids recorded in traces. A callback that throws is caught by the source
  and logged; this is not modelled. A callback that changes a manager during that manager's
  own sweep (re-entrancy) is not modelled either.
- The message payload `data`, and the `{...data, sourceId}` object handed to global handlers,
  are not modelled. Only the source id is recorded.
- Timer `active` flag: `clearTimeout` deletes the timer as soon as it sets the flag false. So
  every timer in the table is active (part of `Valid`), and the sweep's skip of inactive
  timers never runs.
- Browser plumbing is not modelled: `window` event listeners (they become the `On…` methods),
  the `contextmenu` handler, `InputManager.dispose` (empty), `initAudio`, `playSound`
  (`AudioContext`, `fetch`), and the logging-only stubs `setGravity`, `spawn` and `restart`.
  The `gui-update` event payload is a notification counter.
- `createAPI` is modelled without the bound engine functions and the `mesh` handle. The
  record keeps the scene hooks as they were at call time and shares the input and GUI
  managers.
- The name tables are plain JavaScript objects. Names inherited from `Object.prototype`, such
  as `toString`, would look up a function rather than fall through; this is not modelled.
- Non-integer, NaN or negative gamepad indices are not modelled beyond "no pad here".
- Default arguments (`container = 'default'`, a slider's `step = 0.1`) are passed by the
  caller explicitly.
- `Editor.Apply` and `Gui.Merge` treat an absent patch field as "keep". A field present with
  value `undefined` would overwrite with `undefined` in the source.
- `Panel.TransformPatch` builds a new vector. The source's shallow copy writes the new
  component into the selected object's own array before calling `updateObject`; this aliasing
  is not modelled.
- Store persistence is not modelled: `saveProject`/`loadProject` (JSON, Blob, FileReader, the
  DOM). The UUID and the random placement draws of `addObject` are parameters.
- The script source strings of the template library are not modelled; only the name,
  description and category of each template are.
- Rendering and UI-only components are not part of this model.
