/**
 The receiving side's emulation object. Each method is shown to move the value `Model()` the way the functions of
 `EmulationState` say; loops over hash sets return the order they happened to take. The platform backend is the
 record of what it was told and never fails.
 */
module EmulationDevice {
  import opened Bytes
  import opened Collections
  import opened Wrappers
  import opened EmulationState

  class InputEmulation {
    var handles: set<Handle>
    var pressedKeys: map<Handle, set<u32>>
    var postProcessing: map<Handle, Processing>
    var effects: seq<Effect>
    const macos: bool

    ghost function Model(): Emulator
      reads this
    {
      Emulator(handles, pressedKeys, postProcessing, effects)
    }

    constructor (macos: bool)
      ensures Model() == FRESH && this.macos == macos
    {
      this.macos := macos;
      handles, pressedKeys, postProcessing, effects := {}, map[], map[], [];
    }

    method Emit(event: Event, handle: Handle)
      modifies `effects
      ensures effects == old(effects) + [Consume(handle, event)]
    {
      effects := effects + [Consume(handle, event)];
    }

    /** Records a key event; answers whether it should reach the backend. */
    method UpdatePressedKeys(handle: Handle, code: u32, state: byte) returns (process: bool)
      modifies `pressedKeys
      ensures process == Accepts(old(Model()), handle, code, state)
      ensures pressedKeys == if process then old(pressedKeys)[handle := Toggle(old(pressedKeys[handle]), code, state)]
                             else old(pressedKeys)
    {
      if handle !in pressedKeys {
        return false;
      }
      var keys := pressedKeys[handle];
      if state == 0 {
        process := code in keys;
        keys := keys - {code};
      } else {
        process := code !in keys;
        keys := keys + {code};
      }
      if process {
        pressedKeys := pressedKeys[handle := keys];
      }
    }

    /** Applies the handle's preferences, drops what the platform must not replay, and filters doubled keys. */
    method Feed(event: Event, handle: Handle)
      modifies this
      ensures Model() == Consumed(old(Model()), event, handle, macos)
    {
      if event.Clipboard? {
        return;
      }
      var pp := if handle in postProcessing then postProcessing[handle] else PASSTHROUGH;
      if !macos && event.Axis? && event.momentum {
        return;
      }
      var e := event;
      if event.Motion? && pp.sensitivity != 1.0 {
        e := Motion(Scaled(event.dx, pp.sensitivity), Scaled(event.dy, pp.sensitivity));
      } else if event.Axis? && pp.naturalScroll {
        e := Axis(-event.value, event.momentum);
      } else if event.AxisDiscrete? && pp.naturalScroll {
        e := AxisDiscrete(-event.steps);
      }
      assert Processed(pp, event, macos) == Some(e);
      if e.Key? {
        var process := UpdatePressedKeys(handle, e.code, e.state);
        if process {
          Emit(e, handle);
        }
      } else {
        Emit(e, handle);
      }
    }

    method SetPostProcessing(handle: Handle, pp: Processing)
      modifies `postProcessing
      ensures Model() == After(old(Model()), Configure(handle, pp))
    {
      postProcessing := postProcessing[handle := pp];
    }

    method Open(handle: Handle) returns (added: bool)
      modifies this
      ensures added == (handle !in old(handles)) && Model() == Created(old(Model()), handle)
    {
      added := handle !in handles;
      if added {
        handles := handles + {handle};
        pressedKeys := pressedKeys[handle := {}];
        effects := effects + [Create(handle)];
      }
    }

    /** Drains the handle's keys, in no particular order, as key-ups. */
    method ReleaseKeys(handle: Handle) returns (ghost order: seq<u32>)
      modifies `pressedKeys, `effects
      ensures Enumerates(order, KeysOf(old(Model()), handle))
      ensures Model() == KeysReleased(old(Model()), handle, order)
    {
      order := [];
      ghost var s := Model();
      if handle in pressedKeys {
        var keys := pressedKeys[handle];
        pressedKeys := pressedKeys[handle := {}];
        while keys != {}
          invariant keys <= KeysOf(s, handle) && Enumerates(order, KeysOf(s, handle) - keys)
          invariant effects == s.effects + KeyUps(handle, order)
          invariant pressedKeys == s.pressedKeys[handle := {}]
        {
          var key :| key in keys;
          keys := keys - {key};
          ghost var longer := order + [key];
          assert forall k :: k in longer <==> k in order || k == key;
          Emit(Key(key, 0), handle);
          assert s.effects + KeyUps(handle, longer)
              == (s.effects + KeyUps(handle, order)) + [Consume(handle, Key(key, 0))];
          order := longer;
        }
        assert KeysOf(s, handle) - keys == KeysOf(s, handle);
      }
      Emit(NO_MODIFIERS, handle);
      assert s.effects + KeyUps(handle, []) == s.effects;
    }

    method Close(handle: Handle) returns (ghost order: seq<u32>)
      modifies this
      ensures Enumerates(order, KeysOf(old(Model()), handle))
      ensures Model() == Destroyed(old(Model()), handle, order)
    {
      order := ReleaseKeys(handle);
      if handle in handles {
        handles := handles - {handle};
        pressedKeys := pressedKeys - {handle};
        postProcessing := postProcessing - {handle};
        effects := effects + [Destroy(handle)];
      }
    }

    /** Closes every handle, in no particular order, then the backend. */
    method TerminateAll() returns (ghost ops: seq<Op>, ghost states: seq<Emulator>)
      modifies this
      ensures Path(old(Model()), ops, states) && ClosesEach(ops, old(handles))
      ensures Model() == states[|ops|].(effects := states[|ops|].effects + [Terminate])
    {
      var todo := handles;
      ops, states := [], [Model()];
      while todo != {}
        invariant todo <= old(handles) && Path(old(Model()), ops, states) && Model() == states[|ops|]
        invariant ClosesEach(ops, old(handles) - todo)
      {
        var handle :| handle in todo;
        ghost var closed := old(handles) - todo;
        todo := todo - {handle};
        ghost var order := Close(handle);
        ghost var ops' := ops + [Op.Close(handle, order)];
        ExtendsPath(old(Model()), ops, states, Op.Close(handle, order));
        assert ops'[|ops|].h == handle;
        assert forall n :: 0 <= n < |ops| ==> ops'[n] == ops[n];
        forall h | h in old(handles) - todo
          ensures exists n :: 0 <= n < |ops'| && ops'[n].h == h
        {
          if h != handle {
            assert h in closed;
            var n :| 0 <= n < |ops| && ops[n].h == h;
            assert ops'[n].h == h;
          }
        }
        ops, states := ops', states + [Model()];
      }
      assert old(handles) - todo == old(handles);
      effects := effects + [Terminate];
    }

    predicate HasPressedKeys(handle: Handle)
      reads this
    {
      handle in pressedKeys && pressedKeys[handle] != {}
    }
  }

  lemma ExtendsPath(s: Emulator, ops: seq<Op>, states: seq<Emulator>, op: Op)
    requires Path(s, ops, states) && Legal(states[|ops|], op)
    ensures Path(s, ops + [op], states + [After(states[|ops|], op)])
  {
    var ops', states' := ops + [op], states + [After(states[|ops|], op)];
    forall n | 0 <= n < |ops'|
      ensures Legal(states'[n], ops'[n]) && states'[n + 1] == After(states'[n], ops'[n])
    {
      if n < |ops| { assert ops'[n] == ops[n]; }
    }
  }
}
