/**
 The canvas whose fields the callback functions of evas_callbacks.c update in place. Every
 method is proved to be the function of the same operation in CallbackList.
 */
module CanvasCallbacks {
  import opened Lists
  import opened CallbackList

  class Canvas {
    var callbacks: Option<Callbacks>
    var deleteMe: bool
    var nextId: NodeId
    var nextWalk: nat
    var log: seq<(nat, NodeId)>

    function Value(): State
      reads this
    {
      State(callbacks, deleteMe, log, nextId, nextWalk)
    }

    constructor ()
      ensures Inv(Value()) && Nodes(Value()) == [] && Walking(Value()) == 0 && log == []
    {
      callbacks, deleteMe, nextId, nextWalk, log := None, false, 0, 0, [];
    }

    /** evas_event_callback_list_post_free */
    static method ListPostFree(nodes: seq<Node>) returns (list: seq<Node>)
      ensures list == Purge(nodes)
    {
      hide Purge;
      list := nodes;
      var i, l := 0, 0;
      assert list[..0] + Purge(nodes[0..]) == Purge(nodes) && nodes[0..] == nodes;
      while l < |nodes|
        invariant l <= |nodes| && i <= |list| && list[i..] == nodes[l..]
        invariant list[..i] + Purge(nodes[l..]) == Purge(nodes)
      {
        PurgeAt(nodes, l);
        assert list[i] == nodes[l] && list[i + 1..] == nodes[l + 1..];
        if nodes[l].deleteMe {
          assert (list[..i] + list[i + 1..])[i..] == list[i + 1..] && (list[..i] + list[i + 1..])[..i] == list[..i];
          list := list[..i] + list[i + 1..];
        } else {
          assert list[..i] + ([nodes[l]] + Purge(nodes[l + 1..])) == list[..i] + [nodes[l]] + Purge(nodes[l + 1..]);
          assert list[..i + 1] == list[..i] + [nodes[l]];
          i := i + 1;
        }
        l := l + 1;
      }
      PurgeNone();
      assert nodes[l..] == [] && list[..i] == list && list + [] == list;
    }

    /** evas_event_callback_clear */
    method EventCallbackClear()
      modifies this`callbacks
      ensures Value() == Clear(old(Value()))
    {
      if callbacks.None? || !callbacks.value.deletionsWaiting {
        return;
      }
      callbacks := Some(callbacks.value.(deletionsWaiting := false));
      var list := ListPostFree(callbacks.value.nodes);
      callbacks := Some(callbacks.value.(nodes := list));
      if list == [] {
        callbacks := None;
      }
    }

    /** evas_event_callback_priority_add */
    method PriorityAdd(kind: int, func: int, data: int, priority: int, slot: nat)
      requires Inv(Value())
      modifies this
      ensures Value() == if func == NO_FUNC then old(Value())
                         else DoAdd(old(Value()), kind, func, data, priority, slot)
    {
      if func == NO_FUNC {
        return;
      }
      if callbacks.None? {
        callbacks := Some(Callbacks([], 0, false));
      }
      var fn := Node(nextId, kind, func, data, priority, false);
      nextId := nextId + 1;
      callbacks := Some(callbacks.value.(nodes := Insert(callbacks.value.nodes, fn, slot)));
    }

    /** evas_event_callback_del, and, with some data, evas_event_callback_del_full */
    method EventDel(kind: int, func: int, data: Option<int>) returns (found: Option<int>)
      modifies this`callbacks
      ensures Value() == DoDel(old(Value()), kind, func, data)
      ensures var nodes := Nodes(old(Value()));
              var i := Match(nodes, kind, func, data);
              found == if func == NO_FUNC || i == |nodes| then None else Some(nodes[i].data)
    {
      found := None;
      if func == NO_FUNC || callbacks.None? {
        return;
      }
      var c := callbacks.value;
      var i := 0;
      while i < |c.nodes|
        invariant i <= Match(c.nodes, kind, func, data)
      {
        if Matches(c.nodes[i], kind, func, data) {
          assert i == Match(c.nodes, kind, func, data);
          found := Some(c.nodes[i].data);
          callbacks := Some(c.(nodes := Mark(c.nodes, i), deletionsWaiting := true));
          if c.walking == 0 {
            EventCallbackClear();
          }
          return;
        }
        i := i + 1;
      }
    }

    /** evas_event_callback_call */
    method EventCallbackCall(kind: int, scripts: Scripts)
      requires Inv(Value())
      modifies this
      ensures Inv(Value()) && Value() == CallEvent(old(Value()), kind, scripts)
      decreases scripts, 2
    {
      hide Inv, Later, Run, Walk, CallEvent, Clear, Has, Pos, Extends, Unique, Sorted;
      ghost var s0 := Value();
      if callbacks.None? {
        CallNothing(s0, kind, scripts);
        return;
      }
      Begins(s0);
      CallIsWalk(s0, kind, scripts);
      Head(s0, 0);
      var w := nextWalk;
      callbacks := Some(callbacks.value.(walking := callbacks.value.walking + 1));
      nextWalk := nextWalk + 1;
      assert Value() == Begin(s0);
      EventWalk(kind, w, scripts);
      Ends(s0, Value());
      callbacks := Some(callbacks.value.(walking := callbacks.value.walking - 1));
      if callbacks.value.walking == 0 {
        EventCallbackClear();
      }
    }

    /** The loop of evas_event_callback_call, over the nodes from the first. */
    method EventWalk(kind: int, w: nat, scripts: Scripts)
      requires Inv(Value()) && 0 < Walking(Value()) && w < nextWalk
      requires Nodes(Value()) != [] && Has(Nodes(Value()), Nodes(Value())[0].id)
      modifies this
      ensures Inv(Value()) && Later(old(Value()), Value(), w) && Walking(Value()) == old(Walking(Value()))
      ensures Value() == Walk(old(Value()), kind, w, Nodes(old(Value()))[0].id, scripts)
      decreases scripts, 1
    {
      hide Inv, Later, Run, Visit;
      ghost var s0 := Value();
      var cur := callbacks.value.nodes[0].id;
      ghost var head := cur;
      var rest := scripts;
      var done := false;
      while !done
        invariant Inv(Value()) && 0 < Walking(Value()) == Walking(s0) && w < nextWalk
        invariant rest == scripts || rest < scripts
        invariant !done ==> Has(Nodes(Value()), cur)
                            && Walk(Value(), kind, w, cur, rest) == Walk(s0, kind, w, head, scripts)
        invariant done ==> Value() == Walk(s0, kind, w, head, scripts)
        decreases !done, rest, |Nodes(Value())| - Pos(Nodes(Value()), cur)
      {
        ghost var s := Value();
        ghost var left := rest;
        VisitStands(s, kind, w, cur, rest);
        rest := EventVisit(kind, w, cur, rest);
        if deleteMe || Last(Value(), cur) {
          done := true;
        } else {
          UniqueOf(Value());
          cur := Next(Value(), cur);
        }
      }
    }

    /** One node of the loop: what is left of the scripts is returned. */
    method EventVisit(kind: int, w: nat, cur: NodeId, scripts: Scripts) returns (rest: Scripts)
      requires Inv(Value()) && 0 < Walking(Value()) && Has(Nodes(Value()), cur) && w < nextWalk
      modifies this
      ensures Inv(Value()) && Value() == Visit(old(Value()), kind, w, cur, scripts)
      ensures rest == Rest(old(Value()), kind, cur, scripts)
      decreases scripts, 0
    {
      rest := scripts;
      var fn := At(callbacks.value.nodes, cur);
      if fn.kind == kind && !fn.deleteMe {
        LogLater(Value(), w, cur);
        log := log + [(w, cur)];
        if rest.Scripts? {
          RunScript(rest.first);
          rest := rest.rest;
        }
      }
    }

    /** A callback: the things it does, in order. */
    method RunScript(script: Script)
      requires Inv(Value())
      modifies this
      ensures Inv(Value()) && Value() == Run(old(Value()), script)
      decreases script
    {
      match script
      case Done =>
      case Then(a, tail) =>
        Perform(a);
        RunScript(tail);
    }

    method Perform(a: Action)
      requires Inv(Value())
      modifies this
      ensures Value() == Do(old(Value()), a) && Inv(Value())
      decreases a
    {
      hide Inv, Later, Run, Walk, CallEvent, DoDel, DoAdd;
      ghost var after := Do(Value(), a);
      match a
      case Add(kind, func, data, priority, slot) => PriorityAdd(kind, func, data, priority, slot);
      case Del(kind, func) => var _ := EventDel(kind, func, None);
      case DelFull(kind, func, data) => var _ := EventDel(kind, func, Some(data));
      case Call(kind, scripts) => EventCallbackCall(kind, scripts);
      case DeleteCanvas => deleteMe := true;
    }
  }
}
