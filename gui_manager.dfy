/** The declarative on-screen controls scripts create: elements with fresh `gui-N` ids, grouped
    into named containers that list element ids in insertion order. Every change is announced
    to the renderer; the model counts the announcements. */
module Gui {
  import opened Options
  import opened Seqs
  import opened OrderedMaps
  import opened Decimal

  type Callback = nat

  datatype Kind = Button | Slider | Toggle | Text | Input

  /** The values the controls hold: a slider a number, a toggle a flag, an input a string. */
  datatype GuiValue = Number(n: real) | Flag(b: bool) | Chars(s: string)

  datatype Element = Element(id: string, kind: Kind, caption: string, value: Option<GuiValue>,
                             callback: Option<Callback>, min: Option<real>, max: Option<real>,
                             step: Option<real>)

  /** The fields an update supplies; absent fields are left as they are. */
  datatype Updates = Updates(id: Option<string>, kind: Option<Kind>, caption: Option<string>,
                             value: Option<GuiValue>, callback: Option<Callback>, min: Option<real>,
                             max: Option<real>, step: Option<real>)

  /** A callback invocation made by `TriggerElement`, with the value it passes. */
  datatype Invocation = Invocation(callback: Callback, value: Option<GuiValue>)

  const DefaultContainer: string := "default"

  /** The id of the `n`-th element created. */
  function GuiId(n: nat): string {
    "gui-" + Show(n)
  }

  lemma GuiIdInjective(a: nat, b: nat)
    requires GuiId(a) == GuiId(b)
    ensures a == b
  {
    PrefixedShowInjective("gui-", a, b);
  }

  /** `Object.assign(element, updates)`: every supplied field overwrites, the rest stay. */
  function Merge(e: Element, u: Updates): (r: Element)
    ensures u.id.Some? ==> r.id == u.id.value
    ensures u.id.None? ==> r.id == e.id
    ensures u.kind.Some? ==> r.kind == u.kind.value
    ensures u.kind.None? ==> r.kind == e.kind
    ensures u.caption.Some? ==> r.caption == u.caption.value
    ensures u.caption.None? ==> r.caption == e.caption
    ensures u.value.Some? ==> r.value == u.value
    ensures u.value.None? ==> r.value == e.value
    ensures u.callback.Some? ==> r.callback == u.callback
    ensures u.callback.None? ==> r.callback == e.callback
    ensures u.min.Some? ==> r.min == u.min
    ensures u.min.None? ==> r.min == e.min
    ensures u.max.Some? ==> r.max == u.max
    ensures u.max.None? ==> r.max == e.max
    ensures u.step.Some? ==> r.step == u.step
    ensures u.step.None? ==> r.step == e.step
    ensures u == Updates(None, None, None, None, None, None, None, None) ==> r == e
  {
    Element(u.id.GetOr(e.id), u.kind.GetOr(e.kind), u.caption.GetOr(e.caption),
            u.value.Or(e.value), u.callback.Or(e.callback), u.min.Or(e.min), u.max.Or(e.max), u.step.Or(e.step))
  }

  /** The list of a container, or the empty list for an unknown name. */
  function ListOf(containers: OrderedMap<string, seq<string>>, c: string): seq<string> {
    if c in containers.values then containers.values[c] else []
  }

  /** The elements the ids name, in order, skipping ids with no element. */
  function Present(ids: seq<string>, elements: map<string, Element>): seq<Element> {
    if ids == [] then []
    else
      var id := ids[|ids| - 1];
      Present(ids[..|ids| - 1], elements) + (if id in elements then [elements[id]] else [])
  }

  /** When every id names an element, nothing is skipped. */
  lemma {:induction false} PresentAll(ids: seq<string>, elements: map<string, Element>)
    requires forall i :: 0 <= i < |ids| ==> ids[i] in elements
    ensures |Present(ids, elements)| == |ids|
    ensures forall i :: 0 <= i < |ids| ==> Present(ids, elements)[i] == elements[ids[i]]
  {
    if ids != [] {
      PresentAll(ids[..|ids| - 1], elements);
    }
  }

  /** The container table is a well-formed ordered map that holds `default` and lists each id
      at most once per container. */
  ghost predicate Shaped(containers: OrderedMap<string, seq<string>>) {
    && containers.Valid()
    && DefaultContainer in containers.values
    && forall c :: c in containers.values ==> Distinct(containers.values[c])
  }

  /** Every listed id names an element whose home is the container listing it. */
  ghost predicate Listed(lists: map<string, seq<string>>, elements: map<string, Element>, home: map<string, string>) {
    forall c, x :: c in lists && x in lists[c] ==> x in elements && x in home && home[x] == c
  }

  /** Every element is listed by its home container. */
  ghost predicate Homed(lists: map<string, seq<string>>, elements: map<string, Element>, home: map<string, string>) {
    forall x :: x in elements ==> x in home && home[x] in lists && x in lists[home[x]]
  }

  /** No id the counter has yet to issue names an element. */
  ghost predicate Unissued(elements: map<string, Element>, nextId: nat) {
    forall n: nat :: n > nextId ==> GuiId(n) !in elements
  }

  /** Each element lives in exactly one container, each container lists each of its ids once,
      and every listed id names an element. `home` maps an element id to its container and
      no id still to be issued is taken. */
  ghost predicate WellFormed(elements: map<string, Element>, containers: OrderedMap<string, seq<string>>,
                             nextId: nat, home: map<string, string>) {
    && Shaped(containers)
    && Listed(containers.values, elements, home)
    && Homed(containers.values, elements, home)
    && Unissued(elements, nextId)
  }

  class GuiManager {
    var elements: map<string, Element>
    var containers: OrderedMap<string, seq<string>>
    var nextId: nat
    /** How many change notifications have been sent to the renderer. */
    var notifications: nat
    ghost var home: map<string, string>

    ghost predicate Valid()
      reads this
    {
      WellFormed(elements, containers, nextId, home)
    }

    /** A fresh manager has one empty container, `default`. */
    constructor ()
      ensures Valid()
      ensures elements == map[] && containers.keys == [DefaultContainer]
      ensures containers.values == map[DefaultContainer := []]
      ensures nextId == 0 && notifications == 0
    {
      elements := map[];
      containers := Empty<string, seq<string>>().Put(DefaultContainer, []);
      nextId := 0;
      notifications := 0;
      home := map[];
    }

    /** What the add methods share: issues an id, stores the element under it, appends the id to
        the container (creating it when absent) and notifies. */
    method Insert(kind: Kind, caption: string, value: Option<GuiValue>, callback: Option<Callback>,
                  min: Option<real>, max: Option<real>, step: Option<real>, container: string)
      returns (id: string)
      requires Valid()
      modifies this
      ensures Valid()
      ensures nextId == old(nextId) + 1 && id == GuiId(nextId) && id !in old(elements)
      ensures elements == old(elements)[id := Element(id, kind, caption, value, callback, min, max, step)]
      ensures ListOf(containers, container) == ListOf(old(containers), container) + [id]
      ensures forall c :: c != container ==> ListOf(containers, c) == ListOf(old(containers), c)
      ensures container in old(containers.values) ==> containers.keys == old(containers.keys)
      ensures container !in old(containers.values) ==> containers.keys == old(containers.keys) + [container]
      ensures notifications == old(notifications) + 1
    {
      InsertedWellFormed(elements, containers, nextId, home,
                         Element(GuiId(nextId + 1), kind, caption, value, callback, min, max, step), container);
      nextId := nextId + 1;
      id := GuiId(nextId);
      elements := elements[id := Element(id, kind, caption, value, callback, min, max, step)];
      home := home[id := container];
      AddToContainer(container, id);
      notifications := notifications + 1;
    }

    /** Appends `elementId` to the container, creating the container when absent. */
    method AddToContainer(container: string, elementId: string)
      requires containers.Valid()
      modifies this`containers
      ensures containers.Valid()
      ensures containers == old(containers).Put(container, ListOf(old(containers), container) + [elementId])
      ensures ListOf(containers, container) == ListOf(old(containers), container) + [elementId]
      ensures forall c :: c != container ==> ListOf(containers, c) == ListOf(old(containers), c)
      ensures container in old(containers.values) ==> containers.keys == old(containers.keys)
      ensures container !in old(containers.values) ==> containers.keys == old(containers.keys) + [container]
    {
      var list := if container in containers.values then containers.values[container] else [];
      containers := containers.Put(container, list + [elementId]);
    }

    method AddButton(caption: string, callback: Callback, container: string) returns (id: string)
      requires Valid()
      modifies this
      ensures Valid() && nextId == old(nextId) + 1 && id == GuiId(nextId)
      ensures elements == old(elements)[id := Element(id, Button, caption, None, Some(callback), None, None, None)]
      ensures ListOf(containers, container) == ListOf(old(containers), container) + [id]
      ensures forall c :: c != container ==> ListOf(containers, c) == ListOf(old(containers), c)
      ensures container in old(containers.values) ==> containers.keys == old(containers.keys)
      ensures container !in old(containers.values) ==> containers.keys == old(containers.keys) + [container]
      ensures notifications == old(notifications) + 1
    {
      id := Insert(Button, caption, None, Some(callback), None, None, None, container);
    }

    /** `step` defaults to 0.1 in the source; here the caller passes it. */
    method AddSlider(caption: string, min: real, max: real, value: real, callback: Callback, step: real,
                     container: string) returns (id: string)
      requires Valid()
      modifies this
      ensures Valid() && nextId == old(nextId) + 1 && id == GuiId(nextId)
      ensures elements == old(elements)[id := Element(id, Slider, caption, Some(Number(value)), Some(callback),
                                                      Some(min), Some(max), Some(step))]
      ensures ListOf(containers, container) == ListOf(old(containers), container) + [id]
      ensures forall c :: c != container ==> ListOf(containers, c) == ListOf(old(containers), c)
      ensures container in old(containers.values) ==> containers.keys == old(containers.keys)
      ensures container !in old(containers.values) ==> containers.keys == old(containers.keys) + [container]
      ensures notifications == old(notifications) + 1
    {
      id := Insert(Slider, caption, Some(Number(value)), Some(callback), Some(min), Some(max), Some(step), container);
    }

    method AddToggle(caption: string, value: bool, callback: Callback, container: string) returns (id: string)
      requires Valid()
      modifies this
      ensures Valid() && nextId == old(nextId) + 1 && id == GuiId(nextId)
      ensures elements == old(elements)[id := Element(id, Toggle, caption, Some(Flag(value)), Some(callback), None, None, None)]
      ensures ListOf(containers, container) == ListOf(old(containers), container) + [id]
      ensures forall c :: c != container ==> ListOf(containers, c) == ListOf(old(containers), c)
      ensures container in old(containers.values) ==> containers.keys == old(containers.keys)
      ensures container !in old(containers.values) ==> containers.keys == old(containers.keys) + [container]
      ensures notifications == old(notifications) + 1
    {
      id := Insert(Toggle, caption, Some(Flag(value)), Some(callback), None, None, None, container);
    }

    /** A text element has no callback; the text is its caption. */
    method AddText(text: string, container: string) returns (id: string)
      requires Valid()
      modifies this
      ensures Valid() && nextId == old(nextId) + 1 && id == GuiId(nextId)
      ensures elements == old(elements)[id := Element(id, Text, text, None, None, None, None, None)]
      ensures ListOf(containers, container) == ListOf(old(containers), container) + [id]
      ensures forall c :: c != container ==> ListOf(containers, c) == ListOf(old(containers), c)
      ensures container in old(containers.values) ==> containers.keys == old(containers.keys)
      ensures container !in old(containers.values) ==> containers.keys == old(containers.keys) + [container]
      ensures notifications == old(notifications) + 1
    {
      id := Insert(Text, text, None, None, None, None, None, container);
    }

    method AddInput(caption: string, value: string, callback: Callback, container: string) returns (id: string)
      requires Valid()
      modifies this
      ensures Valid() && nextId == old(nextId) + 1 && id == GuiId(nextId)
      ensures elements == old(elements)[id := Element(id, Input, caption, Some(Chars(value)), Some(callback), None, None, None)]
      ensures ListOf(containers, container) == ListOf(old(containers), container) + [id]
      ensures forall c :: c != container ==> ListOf(containers, c) == ListOf(old(containers), c)
      ensures container in old(containers.values) ==> containers.keys == old(containers.keys)
      ensures container !in old(containers.values) ==> containers.keys == old(containers.keys) + [container]
      ensures notifications == old(notifications) + 1
    {
      id := Insert(Input, caption, Some(Chars(value)), Some(callback), None, None, None, container);
    }

    /** Deletes the element and its first occurrence in every container, and notifies, whether
        or not the id was known. */
    method RemoveElement(id: string)
      requires Valid()
      modifies this
      ensures Valid() && nextId == old(nextId)
      ensures elements == old(elements) - {id}
      ensures containers.keys == old(containers.keys)
      ensures forall c :: c in containers.values <==> c in old(containers.values)
      ensures forall c :: c in containers.values ==> containers.values[c] == RemoveFirst(old(containers.values[c]), id)
      ensures forall c :: id !in ListOf(containers, c)
      ensures notifications == old(notifications) + 1
    {
      elements := elements - {id};
      ghost var before := containers;
      DropEverywhere(id);
      notifications := notifications + 1;
      RemovedWellFormed(old(elements), before, nextId, home, id);
    }

    /** The loop of `RemoveElement`: drops the first `id` from every container list. */
    method DropEverywhere(id: string)
      requires containers.Valid()
      modifies this
      ensures containers == old(containers).(values := Dropped(old(containers.values), old(containers.values.Keys), id))
      ensures elements == old(elements) && nextId == old(nextId) && home == old(home)
      ensures notifications == old(notifications)
    {
      var keys := containers.keys;
      var lists := containers.values;
      var i := 0;
      while i < |keys|
        invariant 0 <= i <= |keys|
        invariant lists == Dropped(containers.values, Elements(keys[..i]), id)
        modifies {}
      {
        DroppedOneMore(containers.values, keys, i, id);
        var list := SpliceOut(lists[keys[i]], id);
        lists := lists[keys[i] := list];
        i := i + 1;
      }
      assert Elements(keys[..i]) == containers.values.Keys by {
        assert keys[..i] == keys;
      }
      containers := containers.(values := lists);
    }

    /** Deletes exactly the elements the container lists and leaves it empty (creating it empty
        when it did not exist), then notifies. */
    method ClearContainer(container: string)
      requires Valid()
      modifies this
      ensures Valid() && nextId == old(nextId)
      ensures elements == old(elements) - Elements(ListOf(old(containers), container))
      ensures containers == old(containers).Put(container, [])
      ensures notifications == old(notifications) + 1
    {
      var list := if container in containers.values then containers.values[container] else [];
      ghost var e0 := elements;
      DeleteListed(list);
      containers := containers.Put(container, []);
      notifications := notifications + 1;
      ClearedWellFormed(e0, old(containers), nextId, home, container);
    }

    /** The loop of `ClearContainer`: deletes every element the list names. */
    method DeleteListed(list: seq<string>)
      modifies this
      ensures elements == old(elements) - Elements(list)
      ensures containers == old(containers) && nextId == old(nextId) && home == old(home)
      ensures notifications == old(notifications)
    {
      var j := 0;
      while j < |list|
        invariant 0 <= j <= |list|
        invariant elements == old(elements) - Elements(list[..j])
        invariant containers == old(containers) && nextId == old(nextId) && home == old(home)
        invariant notifications == old(notifications)
      {
        assert Elements(list[..j + 1]) == Elements(list[..j]) + {list[j]} by {
          assert list[..j + 1] == list[..j] + [list[j]];
        }
        elements := elements - {list[j]};
        j := j + 1;
      }
      assert list[..j] == list;
    }

    /** Deletes every element and empties every container; the container names stay. */
    method ClearAll()
      requires Valid()
      modifies this
      ensures Valid() && nextId == old(nextId)
      ensures elements == map[]
      ensures containers.keys == old(containers.keys)
      ensures forall c :: c in containers.values <==> c in old(containers.values)
      ensures forall c :: c in containers.values ==> containers.values[c] == []
      ensures notifications == old(notifications) + 1
    {
      elements := map[];
      ghost var before := containers;
      EmptyEverywhere();
      notifications := notifications + 1;
      EmptiedWellFormed(before, nextId, home);
    }

    /** The loop of `ClearAll`: empties every container list. */
    method EmptyEverywhere()
      requires containers.Valid()
      modifies this
      ensures containers == old(containers).(values := Emptied(old(containers.values), old(containers.values.Keys)))
      ensures elements == old(elements) && nextId == old(nextId) && home == old(home)
      ensures notifications == old(notifications)
    {
      var keys := containers.keys;
      ghost var before := containers;
      var i := 0;
      while i < |keys|
        invariant 0 <= i <= |keys|
        invariant containers == before.(values := Emptied(before.values, Elements(keys[..i])))
        invariant elements == old(elements) && nextId == old(nextId) && home == old(home)
        invariant notifications == old(notifications)
      {
        EmptiedOneMore(before.values, keys, i);
        containers := containers.(values := containers.values[keys[i] := []]);
        i := i + 1;
      }
      assert Elements(keys[..i]) == before.values.Keys by {
        assert keys[..i] == keys;
      }
    }

    /** The container's elements in its order; an unknown container has none. */
    function GetElements(container: string): (r: seq<Element>)
      requires Valid()
      reads this
      ensures |r| == |ListOf(containers, container)|
      ensures forall i :: 0 <= i < |r| ==> r[i] == elements[ListOf(containers, container)[i]]
    {
      var ids := ListOf(containers, container);
      PresentAll(ids, elements);
      Present(ids, elements)
    }

    /** The container names in creation order. */
    function GetAllContainers(): (r: seq<string>)
      requires Valid()
      reads this
      ensures DefaultContainer in r && Distinct(r)
      ensures forall c :: c in r <==> c in containers.values
    {
      containers.keys
    }

    /** Overwrites the supplied fields of a known element and notifies; an unknown id changes
        nothing and sends no notification. */
    method UpdateElement(id: string, updates: Updates)
      requires Valid()
      modifies this
      ensures Valid() && nextId == old(nextId) && containers == old(containers)
      ensures id in old(elements) ==> elements == old(elements)[id := Merge(old(elements[id]), updates)]
      ensures id in old(elements) ==> notifications == old(notifications) + 1
      ensures id !in old(elements) ==> elements == old(elements) && notifications == old(notifications)
    {
      if id in elements {
        elements := elements[id := Merge(elements[id], updates)];
        notifications := notifications + 1;
      }
    }

    /** Calls the element's callback with the given value, or with the stored one when none is
        given; a missing element or callback does nothing. */
    method TriggerElement(id: string, value: Option<GuiValue>) returns (call: Option<Invocation>)
      ensures id !in elements || elements[id].callback.None? ==> call == None
      ensures id in elements && elements[id].callback.Some? ==>
        call == Some(Invocation(elements[id].callback.value, if value.Some? then value else elements[id].value))
    {
      call := None;
      if id in elements && elements[id].callback.Some? {
        var e := elements[id];
        call := Some(Invocation(e.callback.value, if value.Some? then value else e.value));
      }
    }
  }

  /** `indexOf` followed by `splice(index, 1)`: removes the first `id` from one container list,
      leaving the list alone when it does not hold `id`. */
  method SpliceOut(list: seq<string>, id: string) returns (r: seq<string>)
    ensures r == RemoveFirst(list, id)
    ensures id !in list ==> r == list
    ensures Distinct(list) ==> Distinct(r) && id !in r && forall y :: y in r <==> y in list && y != id
  {
    if Distinct(list) {
      RemoveFirstDistinct(list, id);
    }
    r := list;
    var index := IndexOf(list, id);
    if index > -1 {
      r := list[..index] + list[index + 1..];
    }
  }

  /** The container lists with the first `id` dropped from those in `done`. */
  function Dropped(lists: map<string, seq<string>>, done: set<string>, id: string): map<string, seq<string>> {
    map c | c in lists :: if c in done then RemoveFirst(lists[c], id) else lists[c]
  }

  lemma DroppedOneMore(lists: map<string, seq<string>>, keys: seq<string>, i: nat, id: string)
    requires Distinct(keys) && i < |keys| && keys[i] in lists
    ensures Dropped(lists, Elements(keys[..i]), id)[keys[i]] == lists[keys[i]]
    ensures Dropped(lists, Elements(keys[..i + 1]), id)
         == Dropped(lists, Elements(keys[..i]), id)[keys[i] := RemoveFirst(lists[keys[i]], id)]
  {
    assert Elements(keys[..i + 1]) == Elements(keys[..i]) + {keys[i]} by {
      assert keys[..i + 1] == keys[..i] + [keys[i]];
    }
    assert keys[i] !in Elements(keys[..i]);
  }

  /** The container lists with those in `done` emptied. */
  function Emptied(lists: map<string, seq<string>>, done: set<string>): map<string, seq<string>> {
    map c | c in lists :: if c in done then [] else lists[c]
  }

  lemma EmptiedOneMore(lists: map<string, seq<string>>, keys: seq<string>, i: nat)
    requires Distinct(keys) && i < |keys| && keys[i] in lists
    ensures Emptied(lists, Elements(keys[..i + 1])) == Emptied(lists, Elements(keys[..i]))[keys[i] := []]
  {
    assert Elements(keys[..i + 1]) == Elements(keys[..i]) + {keys[i]} by {
      assert keys[..i + 1] == keys[..i] + [keys[i]];
    }
  }

  /** Emptying every container, with every element deleted, keeps the registry well formed. */
  lemma EmptiedWellFormed(containers: OrderedMap<string, seq<string>>, nextId: nat, home: map<string, string>)
    requires Shaped(containers)
    ensures WellFormed(map[], containers.(values := Emptied(containers.values, containers.values.Keys)), nextId, home)
  {
  }

  /** Adding a new element to the end of a container keeps the registry well formed. */
  lemma InsertedWellFormed(elements: map<string, Element>, containers: OrderedMap<string, seq<string>>,
                           nextId: nat, home: map<string, string>, e: Element, c: string)
    requires WellFormed(elements, containers, nextId, home)
    ensures var id := GuiId(nextId + 1);
      WellFormed(elements[id := e], containers.Put(c, ListOf(containers, c) + [id]), nextId + 1,
                 home[id := c])
  {
    var id := GuiId(nextId + 1);
    IssuedGuiIdIsNew(elements, nextId, e);
    var old_ := ListOf(containers, c);
    assert id !in old_;
    assert Distinct(old_ + [id]) by {
      assert forall i :: 0 <= i < |old_| ==> (old_ + [id])[i] == old_[i];
    }
    assert Listed(containers.values, elements, home) && id !in elements;
    AppendedListed(containers.values, elements, home, c, id, e);
    AppendedHomed(containers.values, elements, home, c, id, e);
  }

  /** The next id the counter issues names no element yet, and once it is taken the ids after
      it are still free. */
  lemma IssuedGuiIdIsNew(elements: map<string, Element>, nextId: nat, e: Element)
    requires Unissued(elements, nextId)
    ensures GuiId(nextId + 1) !in elements
    ensures Unissued(elements[GuiId(nextId + 1) := e], nextId + 1)
  {
    forall n: nat | n > nextId + 1
      ensures GuiId(n) != GuiId(nextId + 1)
    {
      if GuiId(n) == GuiId(nextId + 1) {
        GuiIdInjective(n, nextId + 1);
      }
    }
  }

  /** Appending a new element's id to its home container keeps every listed id an element
      whose home is the container listing it. */
  lemma AppendedListed(lists: map<string, seq<string>>, elements: map<string, Element>,
                       home: map<string, string>, c: string, id: string, e: Element)
    requires Listed(lists, elements, home) && id !in elements
    ensures var l := if c in lists then lists[c] else [];
      Listed(lists[c := l + [id]], elements[id := e], home[id := c])
  {
    var l := if c in lists then lists[c] else [];
    var lists' := lists[c := l + [id]];
    forall d, x | d in lists' && x in lists'[d]
      ensures x in elements[id := e] && x in home[id := c] && home[id := c][x] == d
    {
      if d == c && x != id {
        assert x in l;
      }
    }
  }

  /** Appending a new element's id to its home container keeps every element listed by its
      home. */
  lemma AppendedHomed(lists: map<string, seq<string>>, elements: map<string, Element>,
                      home: map<string, string>, c: string, id: string, e: Element)
    requires Homed(lists, elements, home)
    ensures var l := if c in lists then lists[c] else [];
      Homed(lists[c := l + [id]], elements[id := e], home[id := c])
  {
    var l := if c in lists then lists[c] else [];
    var lists' := lists[c := l + [id]];
    forall x | x in elements || x == id
      ensures x in home[id := c] && home[id := c][x] in lists' && x in lists'[home[id := c][x]]
    {
      if x != id && home[x] == c {
        assert x in l;
      }
    }
  }

  /** Lists that lose exactly `id` still name only elements, each from its home. */
  lemma ListedWithout(lists: map<string, seq<string>>, lists': map<string, seq<string>>,
                      elements: map<string, Element>, home: map<string, string>, id: string)
    requires Listed(lists, elements, home)
    requires forall c :: c in lists' <==> c in lists
    requires forall c, y :: c in lists' && y in lists'[c] ==> y in lists[c] && y != id
    ensures Listed(lists', elements - {id}, home)
  {
  }

  /** Lists that lose exactly `id` still list every other element in its home. */
  lemma HomedWithout(lists: map<string, seq<string>>, lists': map<string, seq<string>>,
                     elements: map<string, Element>, home: map<string, string>, id: string)
    requires Homed(lists, elements, home)
    requires forall c :: c in lists' <==> c in lists
    requires forall c, y :: c in lists' && y in lists[c] && y != id ==> y in lists'[c]
    ensures Homed(lists', elements - {id}, home)
  {
  }

  /** Removing an element keeps the registry well formed. */
  lemma RemovedWellFormed(elements: map<string, Element>, containers: OrderedMap<string, seq<string>>,
                          nextId: nat, home: map<string, string>, id: string)
    requires WellFormed(elements, containers, nextId, home)
    ensures var lists := Dropped(containers.values, containers.values.Keys, id);
      && WellFormed(elements - {id}, containers.(values := lists), nextId, home)
      && forall c :: c in lists ==> id !in lists[c]
  {
    var lists := Dropped(containers.values, containers.values.Keys, id);
    forall c | c in lists
      ensures Distinct(lists[c]) && id !in lists[c]
      ensures forall y :: y in lists[c] <==> y in containers.values[c] && y != id
    {
      RemoveFirstDistinct(containers.values[c], id);
    }
    ListedWithout(containers.values, lists, elements, home, id);
    HomedWithout(containers.values, lists, elements, home, id);
  }

  /** Clearing a container, with its elements deleted, keeps the registry well formed. */
  lemma ClearedWellFormed(elements: map<string, Element>, containers: OrderedMap<string, seq<string>>,
                          nextId: nat, home: map<string, string>, c: string)
    requires WellFormed(elements, containers, nextId, home)
    ensures WellFormed(elements - Elements(ListOf(containers, c)), containers.Put(c, []), nextId, home)
  {
    var gone := Elements(ListOf(containers, c));
    var lists := containers.Put(c, []).values;
    assert Homed(lists, elements - gone, home) by {
      forall x | x in elements - gone
        ensures home[x] in lists && x in lists[home[x]]
      {
        assert home[x] == c ==> x in gone;
      }
    }
    assert Listed(lists, elements - gone, home) by {
      forall d, x | d in lists && x in lists[d]
        ensures x in elements - gone && x in home && home[x] == d
      {
        assert d != c && home[x] == d;
      }
    }
  }
}
