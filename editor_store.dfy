/** The editor's global store: the scene's object list, the selected object, the gizmo mode, play
    mode and the global script. Every action replaces some of the fields with new values computed
    by the pure functions below. */
module Editor {
  import opened Options
  import opened Decimal

  datatype ObjectType = Cube | Sphere | Plane

  datatype TransformMode = Translate | Rotate | Scale

  /** A three-component vector; component 0 is `x`, 1 is `y` and 2 is `z`. */
  datatype Vec3 = Vec3(x: real, y: real, z: real) {
    function Get(i: nat): (r: real)
      requires i < 3
    {
      if i == 0 then x else if i == 1 then y else z
    }

    /** The vector with component `i` replaced by `v`. */
    function With(i: nat, v: real): (r: Vec3)
      requires i < 3
      ensures r.Get(i) == v
      ensures forall j :: 0 <= j < 3 && j != i ==> r.Get(j) == Get(j)
    {
      if i == 0 then Vec3(v, y, z) else if i == 1 then Vec3(x, v, z) else Vec3(x, y, v)
    }
  }

  /** A colour with channels normalised to [0, 1]. */
  datatype Color = Color(r: real, g: real, b: real)

  datatype Material = Material(color: Color, opacity: real)

  datatype SceneObject = SceneObject(id: string, name: string, kind: ObjectType, position: Vec3,
                                     rotation: Vec3, scale: Vec3, visible: bool, material: Material,
                                     script: Option<string>)

  /** A partial object: the fields an update supplies. */
  datatype Patch = Patch(id: Option<string>, name: Option<string>, kind: Option<ObjectType>,
                         position: Option<Vec3>, rotation: Option<Vec3>, scale: Option<Vec3>,
                         visible: Option<bool>, material: Option<Material>, script: Option<string>)

  const NoChange: Patch := Patch(None, None, None, None, None, None, None, None, None)

  /** `{ ...o, ...p }`: every supplied field overwrites, the others are kept. */
  function Apply(o: SceneObject, p: Patch): (r: SceneObject)
    ensures p.id.Some? ==> r.id == p.id.value
    ensures p.id.None? ==> r.id == o.id
    ensures p.name.Some? ==> r.name == p.name.value
    ensures p.name.None? ==> r.name == o.name
    ensures p.kind.Some? ==> r.kind == p.kind.value
    ensures p.kind.None? ==> r.kind == o.kind
    ensures p.position.Some? ==> r.position == p.position.value
    ensures p.position.None? ==> r.position == o.position
    ensures p.rotation.Some? ==> r.rotation == p.rotation.value
    ensures p.rotation.None? ==> r.rotation == o.rotation
    ensures p.scale.Some? ==> r.scale == p.scale.value
    ensures p.scale.None? ==> r.scale == o.scale
    ensures p.visible.Some? ==> r.visible == p.visible.value
    ensures p.visible.None? ==> r.visible == o.visible
    ensures p.material.Some? ==> r.material == p.material.value
    ensures p.material.None? ==> r.material == o.material
    ensures p.script.Some? ==> r.script == p.script
    ensures p.script.None? ==> r.script == o.script
    ensures p == NoChange ==> r == o
  {
    SceneObject(p.id.GetOr(o.id), p.name.GetOr(o.name), p.kind.GetOr(o.kind),
                p.position.GetOr(o.position), p.rotation.GetOr(o.rotation), p.scale.GetOr(o.scale),
                p.visible.GetOr(o.visible), p.material.GetOr(o.material),
                p.script.Or(o.script))
  }

  function BaseName(t: ObjectType): string {
    match t
    case Cube => "Cube"
    case Sphere => "Sphere"
    case Plane => "Plane"
  }

  /** The objects of type `t`, in list order. */
  function OfType(objects: seq<SceneObject>, t: ObjectType): (r: seq<SceneObject>)
    ensures |r| <= |objects|
    ensures forall o :: o in r <==> o in objects && o.kind == t
  {
    if objects == [] then []
    else
      assert objects == [objects[0]] + objects[1..];
      (if objects[0].kind == t then [objects[0]] else []) + OfType(objects[1..], t)
  }

  lemma {:induction false} OfTypeAppend(a: seq<SceneObject>, b: seq<SceneObject>, t: ObjectType)
    ensures OfType(a + b, t) == OfType(a, t) + OfType(b, t)
  {
    if a == [] {
      assert a + b == b;
    } else {
      assert (a + b)[0] == a[0];
      assert (a + b)[1..] == a[1..] + b;
      OfTypeAppend(a[1..], b, t);
    }
  }

  /** The name `addObject` gives a new object of type `t`: the bare type name when the scene has
      none of that type, otherwise the type name followed by one more than their count. */
  function NewName(objects: seq<SceneObject>, t: ObjectType): (r: string)
    ensures |OfType(objects, t)| == 0 ==> r == BaseName(t)
    ensures |OfType(objects, t)| > 0 ==> r == BaseName(t) + " " + Show(|OfType(objects, t)| + 1)
  {
    var count := |OfType(objects, t)|;
    if count > 0 then BaseName(t) + " " + Show(count + 1) else BaseName(t)
  }

  /** Scenes with different numbers of objects of a type give new objects of that type different
      names. */
  lemma NewNameInjective(a: seq<SceneObject>, b: seq<SceneObject>, t: ObjectType)
    requires |OfType(a, t)| != |OfType(b, t)|
    ensures NewName(a, t) != NewName(b, t)
  {
    var m, n := |OfType(a, t)|, |OfType(b, t)|;
    if m > 0 && n > 0 {
      if NewName(a, t) == NewName(b, t) {
        assert BaseName(t) + " " + Show(m + 1) == (BaseName(t) + " ") + Show(m + 1);
        assert BaseName(t) + " " + Show(n + 1) == (BaseName(t) + " ") + Show(n + 1);
        PrefixedShowInjective(BaseName(t) + " ", m + 1, n + 1);
      }
    } else if m > 0 {
      assert |NewName(a, t)| > |BaseName(t)|;
    } else {
      assert |NewName(b, t)| > |BaseName(t)|;
    }
  }

  /** A new object with zero position and rotation, unit scale, visible, light grey, opaque and
      with an empty script. The id is the caller's (a fresh UUID in the editor). */
  function DefaultObject(t: ObjectType, name: string, id: string): (r: SceneObject)
    ensures r.id == id && r.name == name && r.kind == t && r.visible
    ensures r.position == Vec3(0.0, 0.0, 0.0) && r.rotation == Vec3(0.0, 0.0, 0.0)
    ensures r.scale == Vec3(1.0, 1.0, 1.0)
    ensures r.material == Material(Color(0.7, 0.7, 0.7), 1.0) && r.script == Some("")
  {
    SceneObject(id, name, t, Vec3(0.0, 0.0, 0.0), Vec3(0.0, 0.0, 0.0), Vec3(1.0, 1.0, 1.0), true,
                Material(Color(0.7, 0.7, 0.7), 1.0), Some(""))
  }

  /** The list without the objects that have the id, the rest in order. */
  function Deleted(objects: seq<SceneObject>, id: string): (r: seq<SceneObject>)
    ensures |r| <= |objects|
    ensures forall o :: o in r <==> o in objects && o.id != id
  {
    if objects == [] then []
    else
      assert objects == [objects[0]] + objects[1..];
      (if objects[0].id != id then [objects[0]] else []) + Deleted(objects[1..], id)
  }

  /** Deleting keeps list order: on a list split in two, it deletes from each part. */
  lemma {:induction false} DeletedAppend(a: seq<SceneObject>, b: seq<SceneObject>, id: string)
    ensures Deleted(a + b, id) == Deleted(a, id) + Deleted(b, id)
  {
    if a == [] {
      assert a + b == b;
    } else {
      assert (a + b)[0] == a[0];
      assert (a + b)[1..] == a[1..] + b;
      DeletedAppend(a[1..], b, id);
    }
  }

  /** Deleting an id no object has changes nothing. */
  lemma {:induction false} DeletedAbsent(objects: seq<SceneObject>, id: string)
    requires forall i :: 0 <= i < |objects| ==> objects[i].id != id
    ensures Deleted(objects, id) == objects
  {
    if objects != [] {
      DeletedAbsent(objects[1..], id);
    }
  }

  /** The list with the patch applied to the objects that have the id. */
  function Updated(objects: seq<SceneObject>, id: string, p: Patch): (r: seq<SceneObject>)
    ensures |r| == |objects|
    ensures forall i :: 0 <= i < |objects| ==> r[i] == if objects[i].id == id then Apply(objects[i], p) else objects[i]
  {
    if objects == [] then []
    else [if objects[0].id == id then Apply(objects[0], p) else objects[0]] + Updated(objects[1..], id, p)
  }

  /** The selection after any change to the object with the id. */
  function Reselect(selected: Option<SceneObject>, id: string, p: Patch): (r: Option<SceneObject>)
    ensures selected.Some? && selected.value.id == id ==> r == Some(Apply(selected.value, p))
    ensures !(selected.Some? && selected.value.id == id) ==> r == selected
  {
    if selected.Some? && selected.value.id == id then Some(Apply(selected.value, p)) else selected
  }

  class EditorStore {
    var objects: seq<SceneObject>
    var selected: Option<SceneObject>
    var transformMode: TransformMode
    var isPlaying: bool
    var globalScript: string

    constructor ()
      ensures objects == [] && selected == None && transformMode == Translate
      ensures !isPlaying && globalScript == ""
    {
      objects := [];
      selected := None;
      transformMode := Translate;
      isPlaying := false;
      globalScript := "";
    }

    /** Appends one default object of type `t`, named by the naming rule, and selects it. In a
        non-empty scene it is placed at `(4·u - 2, 0, 4·v - 2)` for the two random draws `u`
        and `v`. */
    method AddObject(t: ObjectType, id: string, u: real, v: real) returns (added: SceneObject)
      requires 0.0 <= u < 1.0 && 0.0 <= v < 1.0
      modifies this
      ensures objects == old(objects) + [added] && selected == Some(added)
      ensures added.name == NewName(old(objects), t) && added.kind == t && added.id == id
      ensures old(objects) == [] ==> added == DefaultObject(t, NewName(old(objects), t), id)
      ensures old(objects) != [] ==>
        added == DefaultObject(t, NewName(old(objects), t), id).(position := Vec3(u * 4.0 - 2.0, 0.0, v * 4.0 - 2.0))
      ensures -2.0 <= added.position.x < 2.0 && added.position.y == 0.0 && -2.0 <= added.position.z < 2.0
      ensures transformMode == old(transformMode) && isPlaying == old(isPlaying)
      ensures globalScript == old(globalScript)
    {
      added := DefaultObject(t, NewName(objects, t), id);
      if |objects| > 0 {
        added := added.(position := Vec3(u * 4.0 - 2.0, 0.0, v * 4.0 - 2.0));
      }
      objects := objects + [added];
      selected := Some(added);
    }

    method SelectObject(o: SceneObject)
      modifies this
      ensures selected == Some(o) && objects == old(objects) && transformMode == old(transformMode)
      ensures isPlaying == old(isPlaying) && globalScript == old(globalScript)
    {
      selected := Some(o);
    }

    /** Removes every object with the id and clears the selection if it had that id. */
    method DeleteObject(id: string)
      modifies this
      ensures objects == Deleted(old(objects), id)
      ensures selected == if old(selected).Some? && old(selected).value.id == id then None else old(selected)
      ensures transformMode == old(transformMode) && isPlaying == old(isPlaying)
      ensures globalScript == old(globalScript)
    {
      objects := Deleted(objects, id);
      if selected.Some? && selected.value.id == id {
        selected := None;
      }
    }

    /** Merges the patch into the objects with the id, and into the selection if it has the id. */
    method UpdateObject(id: string, p: Patch)
      modifies this
      ensures objects == Updated(old(objects), id, p)
      ensures selected == Reselect(old(selected), id, p)
      ensures transformMode == old(transformMode) && isPlaying == old(isPlaying)
      ensures globalScript == old(globalScript)
    {
      objects := Updated(objects, id, p);
      selected := Reselect(selected, id, p);
    }

    method SetTransformMode(mode: TransformMode)
      modifies this
      ensures transformMode == mode && objects == old(objects) && selected == old(selected)
      ensures isPlaying == old(isPlaying) && globalScript == old(globalScript)
    {
      transformMode := mode;
    }

    /** Flips play mode; two flips restore it. */
    method TogglePlayMode()
      modifies this
      ensures isPlaying == !old(isPlaying) && objects == old(objects) && selected == old(selected)
      ensures transformMode == old(transformMode) && globalScript == old(globalScript)
    {
      isPlaying := !isPlaying;
    }

    method SetGlobalScript(script: string)
      modifies this
      ensures globalScript == script && objects == old(objects) && selected == old(selected)
      ensures transformMode == old(transformMode) && isPlaying == old(isPlaying)
    {
      globalScript := script;
    }

    /** Empties the scene, drops the selection and the global script, and leaves play mode; the
        gizmo mode stays. */
    method ClearScene()
      modifies this
      ensures objects == [] && selected == None && globalScript == "" && !isPlaying
      ensures transformMode == old(transformMode)
    {
      objects := [];
      selected := None;
      globalScript := "";
      isPlaying := false;
    }
  }

  /** Adding an object of type `t` raises the count of that type by one. */
  lemma AddCountsOne(objects: seq<SceneObject>, o: SceneObject)
    ensures |OfType(objects + [o], o.kind)| == |OfType(objects, o.kind)| + 1
  {
    OfTypeAppend(objects, [o], o.kind);
    assert OfType([o], o.kind) == [o] + OfType([o][1..], o.kind);
  }

  /** Two objects of the same type added one after the other get different names. */
  lemma SuccessiveNamesDiffer(objects: seq<SceneObject>, o: SceneObject)
    ensures NewName(objects + [o], o.kind) != NewName(objects, o.kind)
  {
    AddCountsOne(objects, o);
    NewNameInjective(objects + [o], objects, o.kind);
  }

  /** The first three cubes of a scene are named `Cube`, `Cube 2` and `Cube 3`. */
  lemma ThreeCubes(a: SceneObject, b: SceneObject)
    requires a.kind == Cube && b.kind == Cube
    ensures NewName([], Cube) == "Cube"
    ensures NewName([a], Cube) == "Cube 2"
    ensures NewName([a, b], Cube) == "Cube 3"
  {
    AddCountsOne([], a);
    assert [] + [a] == [a];
    AddCountsOne([a], b);
    assert [a] + [b] == [a, b];
  }

  /** The rule counts the objects of a type that remain, so after a deletion a new object can
      take a name that is still in use: with `Cube 2` left after deleting `Cube`, the next cube
      is named `Cube 2` as well. */
  lemma NameCanRepeat(survivor: SceneObject)
    requires survivor.kind == Cube && survivor.name == "Cube 2"
    ensures NewName([survivor], Cube) == survivor.name
  {
    AddCountsOne([], survivor);
    assert [] + [survivor] == [survivor];
  }
}
