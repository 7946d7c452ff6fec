/** Messages between scene objects: per-object handler lists keyed by message type, handlers that
    see every message of a type, and the tags each registered object carries. Handlers are
    opaque ids; sending a message returns the handler invocations it makes, in order. */
module Messages {
  import opened Options
  import opened Seqs
  import opened OrderedMaps

  type Handler = nat

  /** One handler invocation. A global handler also learns the object the message was sent to;
      `None` is the `undefined` source of the final round of a broadcast. The message payload is
      passed through unchanged and is not modelled. */
  datatype Call =
    | ToObject(handler: Handler, messageType: string)
    | ToGlobal(handler: Handler, messageType: string, sourceId: Option<string>)

  /** Per object, in registration order: its handler lists by message type. */
  type HandlerTable = OrderedMap<string, map<string, seq<Handler>>>

  /** The handlers of `objectId` for `messageType`, in the order they were added. */
  function Listed(handlers: HandlerTable, objectId: string, messageType: string): seq<Handler> {
    if objectId in handlers.values && messageType in handlers.values[objectId]
    then handlers.values[objectId][messageType]
    else []
  }

  /** The global handlers of `messageType`, in the order they were added. */
  function GlobalListed(global: map<string, seq<Handler>>, messageType: string): seq<Handler> {
    if messageType in global then global[messageType] else []
  }

  /** The invocations of the global handlers of a type, each told `sourceId`. */
  function GlobalCalls(global: map<string, seq<Handler>>, messageType: string, sourceId: Option<string>): (r: seq<Call>)
    ensures |r| == |GlobalListed(global, messageType)|
    ensures forall i :: 0 <= i < |r| ==> r[i] == ToGlobal(GlobalListed(global, messageType)[i], messageType, sourceId)
  {
    var hs := GlobalListed(global, messageType);
    seq(|hs|, i requires 0 <= i < |hs| => ToGlobal(hs[i], messageType, sourceId))
  }

  /** `sendMessage`: the target's handlers for the type in the order they were added, then every
      global handler for the type told that the source is the target. */
  function MessageCalls(handlers: HandlerTable, global: map<string, seq<Handler>>, targetId: string,
                        messageType: string): seq<Call>
  {
    var hs := Listed(handlers, targetId, messageType);
    seq(|hs|, i requires 0 <= i < |hs| => ToObject(hs[i], messageType))
      + GlobalCalls(global, messageType, Some(targetId))
  }

  /** The invocations of `sendMessage` to each of `targets` in turn. */
  function SendAll(handlers: HandlerTable, global: map<string, seq<Handler>>, targets: seq<string>,
                   messageType: string): seq<Call>
  {
    if targets == [] then []
    else
      SendAll(handlers, global, targets[..|targets| - 1], messageType)
        + MessageCalls(handlers, global, targets[|targets| - 1], messageType)
  }

  /** The objects among `keys` whose tag list contains `tag`, in the order of `keys`. */
  function TagTargets(keys: seq<string>, tags: map<string, seq<string>>, tag: string): seq<string> {
    if keys == [] then []
    else
      var k := keys[|keys| - 1];
      TagTargets(keys[..|keys| - 1], tags, tag) + (if k in tags && tag in tags[k] then [k] else [])
  }

  /** A message sent to one target makes exactly its object handlers' calls first, in order,
      then its global handlers' calls. */
  lemma MessageCallsOrder(handlers: HandlerTable, global: map<string, seq<Handler>>, targetId: string,
                          messageType: string)
    ensures var hs, gs := Listed(handlers, targetId, messageType), GlobalListed(global, messageType);
      var r := MessageCalls(handlers, global, targetId, messageType);
      && |r| == |hs| + |gs|
      && (forall i :: 0 <= i < |hs| ==> r[i] == ToObject(hs[i], messageType))
      && (forall j :: 0 <= j < |gs| ==> r[|hs| + j] == ToGlobal(gs[j], messageType, Some(targetId)))
  {
  }

  /** The tag targets are exactly the listed objects that carry the tag, each once. */
  lemma {:induction false} TagTargetsMembers(keys: seq<string>, tags: map<string, seq<string>>, tag: string)
    ensures forall x :: x in TagTargets(keys, tags, tag) <==> x in keys && x in tags && tag in tags[x]
    ensures Distinct(keys) ==> Distinct(TagTargets(keys, tags, tag))
  {
    if keys != [] {
      var init, k := keys[..|keys| - 1], keys[|keys| - 1];
      assert keys == init + [k];
      TagTargetsMembers(init, tags, tag);
      if Distinct(keys) {
        assert Distinct(init);
        assert k !in init;
      }
    }
  }

  /** Every call of a send to several targets is a call of the send to one of them. */
  lemma {:induction false} SendAllCalls(handlers: HandlerTable, global: map<string, seq<Handler>>,
                                        targets: seq<string>, messageType: string, c: Call)
    ensures c in SendAll(handlers, global, targets, messageType) <==>
      exists t :: t in targets && c in MessageCalls(handlers, global, t, messageType)
  {
    if targets != [] {
      var init, t := targets[..|targets| - 1], targets[|targets| - 1];
      assert targets == init + [t];
      SendAllCalls(handlers, global, init, messageType, c);
    }
  }

  /** Every handler invocation carries the type of the message that was sent. */
  lemma {:induction false} SendAllType(handlers: HandlerTable, global: map<string, seq<Handler>>,
                                       targets: seq<string>, messageType: string)
    ensures forall c :: c in SendAll(handlers, global, targets, messageType) ==> c.messageType == messageType
  {
    if targets != [] {
      SendAllType(handlers, global, targets[..|targets| - 1], messageType);
    }
  }

  /** Adding a handler and then removing it restores the list it was added to, when the handler
      was not in that list before. */
  lemma AddThenRemove(hs: seq<Handler>, h: Handler)
    requires h !in hs
    ensures RemoveFirst(hs + [h], h) == hs
  {
    var s := hs + [h];
    assert IndexOf(s, h) == |hs| by {
      assert s[|hs|] == h;
      assert forall j :: 0 <= j < |hs| ==> s[j] == hs[j];
    }
    assert s[..|hs|] == hs;
  }

  class MessageManager {
    var handlers: HandlerTable
    var globalHandlers: map<string, seq<Handler>>
    var objectTagMap: OrderedMap<string, seq<string>>

    ghost predicate Valid()
      reads this
    {
      handlers.Valid() && objectTagMap.Valid()
    }

    constructor ()
      ensures Valid()
      ensures handlers == Empty() && globalHandlers == map[] && objectTagMap == Empty()
    {
      handlers := Empty();
      globalHandlers := map[];
      objectTagMap := Empty();
    }

    /** The handlers of `objectId` for `messageType`, in the order they were added. */
    function HandlersOf(objectId: string, messageType: string): seq<Handler>
      reads this
    {
      Listed(handlers, objectId, messageType)
    }

    /** Sets the object's tags; gives it an empty handler table only when it has none, so the
        handlers of an object registered again are kept. */
    method RegisterObject(objectId: string, tags: seq<string>)
      requires Valid()
      modifies this
      ensures Valid() && globalHandlers == old(globalHandlers)
      ensures objectTagMap == old(objectTagMap).Put(objectId, tags)
      ensures objectId in old(handlers.values) ==> handlers == old(handlers)
      ensures objectId !in old(handlers.values) ==> handlers == old(handlers).Put(objectId, map[])
      ensures forall o, t :: HandlersOf(o, t) == old(HandlersOf(o, t))
    {
      objectTagMap := objectTagMap.Put(objectId, tags);
      if objectId !in handlers.values {
        handlers := handlers.Put(objectId, map[]);
      }
    }

    /** Drops the object's handler table and its tags, and nothing else. */
    method UnregisterObject(objectId: string)
      requires Valid()
      modifies this
      ensures Valid() && globalHandlers == old(globalHandlers)
      ensures handlers == old(handlers).Remove(objectId)
      ensures objectTagMap == old(objectTagMap).Remove(objectId)
      ensures forall t :: HandlersOf(objectId, t) == []
      ensures forall o, t :: o != objectId ==> HandlersOf(o, t) == old(HandlersOf(o, t))
    {
      handlers := handlers.Remove(objectId);
      objectTagMap := objectTagMap.Remove(objectId);
    }

    /** Appends `handler` to the object's list for the type, creating the table and the list
        when absent. */
    method AddMessageHandler(objectId: string, messageType: string, handler: Handler)
      requires Valid()
      modifies this
      ensures Valid() && globalHandlers == old(globalHandlers) && objectTagMap == old(objectTagMap)
      ensures HandlersOf(objectId, messageType) == old(HandlersOf(objectId, messageType)) + [handler]
      ensures forall o, t :: (o, t) != (objectId, messageType) ==> HandlersOf(o, t) == old(HandlersOf(o, t))
      ensures objectId in old(handlers.values) ==> handlers.keys == old(handlers.keys)
      ensures objectId !in old(handlers.values) ==> handlers.keys == old(handlers.keys) + [objectId]
    {
      var table := if objectId in handlers.values then handlers.values[objectId] else map[];
      var list := if messageType in table then table[messageType] else [];
      handlers := handlers.Put(objectId, table[messageType := list + [handler]]);
    }

    /** Appends `handler` to the global list for the type, creating it when absent. */
    method AddGlobalMessageHandler(messageType: string, handler: Handler)
      modifies this
      ensures handlers == old(handlers) && objectTagMap == old(objectTagMap)
      ensures GlobalListed(globalHandlers, messageType) == GlobalListed(old(globalHandlers), messageType) + [handler]
      ensures forall t :: t != messageType ==> GlobalListed(globalHandlers, t) == GlobalListed(old(globalHandlers), t)
    {
      var list := if messageType in globalHandlers then globalHandlers[messageType] else [];
      globalHandlers := globalHandlers[messageType := list + [handler]];
    }

    /** Invokes the target's handlers for the type in order, then the global ones with the
        target as source. An unknown target or type has no object handlers to invoke. */
    method SendMessage(targetId: string, messageType: string) returns (calls: seq<Call>)
      ensures calls == MessageCalls(handlers, globalHandlers, targetId, messageType)
    {
      var hs := Listed(handlers, targetId, messageType);
      calls := [];
      var i := 0;
      while i < |hs|
        invariant 0 <= i <= |hs|
        invariant calls == seq(i, j requires 0 <= j < i => ToObject(hs[j], messageType))
      {
        calls := calls + [ToObject(hs[i], messageType)];
        i := i + 1;
      }
      var global := SendGlobalMessage(messageType, Some(targetId));
      calls := calls + global;
    }

    /** Invokes every global handler of the type, in order, telling it `sourceId`. */
    method SendGlobalMessage(messageType: string, sourceId: Option<string>) returns (calls: seq<Call>)
      ensures calls == GlobalCalls(globalHandlers, messageType, sourceId)
    {
      var hs := GlobalListed(globalHandlers, messageType);
      calls := [];
      var i := 0;
      while i < |hs|
        invariant 0 <= i <= |hs|
        invariant calls == seq(i, j requires 0 <= j < i => ToGlobal(hs[j], messageType, sourceId))
      {
        calls := calls + [ToGlobal(hs[i], messageType, sourceId)];
        i := i + 1;
      }
    }

    /** Collects, in tag-map order, the objects whose tags include `tag` as they stand now, then
        sends the message to each of them. */
    method SendMessageToTag(tag: string, messageType: string) returns (calls: seq<Call>)
      ensures calls == SendAll(handlers, globalHandlers,
                               TagTargets(objectTagMap.keys, objectTagMap.values, tag), messageType)
    {
      var keys := objectTagMap.keys;
      var targets := [];
      var i := 0;
      while i < |keys|
        invariant 0 <= i <= |keys|
        invariant targets == TagTargets(keys[..i], objectTagMap.values, tag)
      {
        var k := keys[i];
        assert keys[..i + 1][..i] == keys[..i];
        if k in objectTagMap.values && tag in objectTagMap.values[k] {
          targets := targets + [k];
        }
        i := i + 1;
      }
      assert keys[..i] == keys;
      calls := SendEach(targets, messageType);
    }

    /** Sends the message to every object that has a handler table, in registration order, then
        invokes the global handlers once more with no source. */
    method Broadcast(messageType: string) returns (calls: seq<Call>)
      ensures calls == SendAll(handlers, globalHandlers, handlers.keys, messageType)
                       + GlobalCalls(globalHandlers, messageType, None)
    {
      calls := SendEach(handlers.keys, messageType);
      var global := SendGlobalMessage(messageType, None);
      calls := calls + global;
    }

    /** `sendMessage` to each of `targets` in turn. */
    method SendEach(targets: seq<string>, messageType: string) returns (calls: seq<Call>)
      ensures calls == SendAll(handlers, globalHandlers, targets, messageType)
    {
      calls := [];
      var j := 0;
      while j < |targets|
        invariant 0 <= j <= |targets|
        invariant calls == SendAll(handlers, globalHandlers, targets[..j], messageType)
      {
        assert targets[..j + 1][..j] == targets[..j];
        var c := SendMessage(targets[j], messageType);
        calls := calls + c;
        j := j + 1;
      }
      assert targets[..j] == targets;
    }

    /** Removes the first occurrence of `handler` from the object's list for the type; nothing
        else changes, and nothing changes when it is not there. */
    method RemoveMessageHandler(objectId: string, messageType: string, handler: Handler)
      requires Valid()
      modifies this
      ensures Valid() && globalHandlers == old(globalHandlers) && objectTagMap == old(objectTagMap)
      ensures handlers.keys == old(handlers.keys)
      ensures HandlersOf(objectId, messageType) == RemoveFirst(old(HandlersOf(objectId, messageType)), handler)
      ensures forall o, t :: (o, t) != (objectId, messageType) ==> HandlersOf(o, t) == old(HandlersOf(o, t))
    {
      if objectId in handlers.values {
        var table := handlers.values[objectId];
        if messageType in table {
          var list := table[messageType];
          var index := IndexOf(list, handler);
          if index > -1 {
            handlers := handlers.Put(objectId, table[messageType := list[..index] + list[index + 1..]]);
          }
        }
      }
    }

    /** Drops the object's handler table; its tags stay. */
    method RemoveAllHandlers(objectId: string)
      requires Valid()
      modifies this
      ensures Valid() && globalHandlers == old(globalHandlers) && objectTagMap == old(objectTagMap)
      ensures handlers == old(handlers).Remove(objectId)
      ensures forall t :: HandlersOf(objectId, t) == []
    {
      handlers := handlers.Remove(objectId);
    }

    /** Empties all three tables. */
    method Clear()
      modifies this
      ensures Valid()
      ensures handlers == Empty() && globalHandlers == map[] && objectTagMap == Empty()
    {
      handlers := Empty();
      globalHandlers := map[];
      objectTagMap := Empty();
    }
  }
}
