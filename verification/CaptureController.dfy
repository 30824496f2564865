/**
 The capture task as the object it is, driving a capture wrapper: each method is shown to move the pair of task and
 wrapper the way the functions of `CaptureSession` say. The connection is the record of the messages offered to it;
 `up` says whether it takes the forwarded event. Draining the pressed keys returns the order it happened to take.
 */
module CaptureController {
  import opened Wrappers
  import opened Bytes
  import opened Collections
  import opened Positions
  import opened CaptureModel
  import opened CaptureState
  import opened CaptureSession
  import opened CaptureStream
  import opened KeyLog
  import E = EmulationState

  class CaptureTask {
    var captures: seq<Registration>
    var activeClient: Option<Handle>
    var releaseBind: seq<u32>
    var sent: seq<Sent>
    var notices: seq<Notice>

    ghost function Model(): Task
      reads this
    {
      Task(captures, activeClient, releaseBind, sent, notices)
    }

    constructor (releaseBind: seq<u32>)
      ensures Model() == Task([], None, releaseBind, [], [])
    {
      captures, activeClient, sent, notices := [], None, [], [];
      this.releaseBind := releaseBind;
    }

    method Send(m: Msg, client: Handle)
      modifies `sent
      ensures sent == old(sent) + [(client, m)]
    {
      sent := sent + [(client, m)];
    }

    method AddCapture(h: Handle, pos: Position, kind: CaptureType)
      modifies `captures
      ensures captures == old(captures) + [Registration(h, pos, kind)]
    {
      captures := captures + [Registration(h, pos, kind)];
    }

    /** Keeps the registrations of every other handle. */
    method RemoveCapture(h: Handle)
      modifies `captures
      ensures captures == Unregistered(old(captures), h)
    {
      var kept: seq<Registration> := [];
      for i := 0 to |captures|
        invariant captures == old(captures)
        invariant kept + Unregistered(captures[i..], h) == Unregistered(captures, h)
      {
        UnregisteredStep(kept, captures, i, h);
        kept := kept + if captures[i].handle == h then [] else [captures[i]];
      }
      assert captures[|captures|..] == [];
      assert kept + [] == kept;
      captures := kept;
    }

    /** Tells the client being controlled, if any, that it is left: key-ups, zero modifiers, Leave. */
    method NotifyPeerOfLeave(capture: InputCapture) returns (ghost order: seq<u32>)
      modifies this, capture`pressedKeys
      ensures old(activeClient).Some? ==> Enumerates(order, old(capture.pressedKeys))
      ensures Model() == Notified(old(Model()), order)
      ensures old(activeClient).None? ==> capture.pressedKeys == old(capture.pressedKeys)
    {
      order := [];
      if activeClient.Some? {
        var client := activeClient.value;
        activeClient := None;
        ghost var t := old(Model()).(active := None);
        var keys := capture.TakePressedKeys();
        while keys != {}
          invariant keys <= old(capture.pressedKeys) && Enumerates(order, old(capture.pressedKeys) - keys)
          invariant Model() == t.(sent := t.sent + KeyUps(client, order))
        {
          var key :| key in keys;
          keys := keys - {key};
          ghost var longer := order + [key];
          assert forall k :: k in longer <==> k in order || k == key;
          Send(Input(E.Key(key, 0)), client);
          assert t.sent + KeyUps(client, longer) == (t.sent + KeyUps(client, order)) + [(client, Input(E.Key(key, 0)))];
          order := longer;
        }
        assert old(capture.pressedKeys) - keys == old(capture.pressedKeys);
        Send(KEYS_LIFTED, client);
        Send(Leave, client);
        assert t.sent + Farewell(client, order)
            == ((t.sent + KeyUps(client, order)) + [(client, KEYS_LIFTED)]) + [(client, Leave)];
      }
    }

    method ReleaseCapture(host: Host, capture: InputCapture) returns (ghost order: seq<u32>)
      modifies this, capture
      ensures CanFlush(old(Model()), old(capture.Model()), order)
      ensures (Model(), capture.Model()) == TornDown(host, old(Model()), old(capture.Model()), order, true)
    {
      order := NotifyPeerOfLeave(capture);
      capture.Release(host);
    }

    /** Skips the host-side warp: the peer that takes over places the cursor. */
    method ReleaseCaptureHandover(host: Host, capture: InputCapture) returns (ghost order: seq<u32>)
      modifies this, capture
      ensures CanFlush(old(Model()), old(capture.Model()), order)
      ensures (Model(), capture.Model()) == TornDown(host, old(Model()), old(capture.Model()), order, false)
    {
      order := NotifyPeerOfLeave(capture);
      capture.ReleaseNoHostWarp();
    }

    /** Forwards an event to the client of a Default handle. */
    method Forward(host: Host, capture: InputCapture, reg: Registration, event: Event, up: bool)
      requires !event.AutoRelease?
      modifies this, capture
      ensures (Model(), capture.Model()) == Forwarded(host, old(Model()), old(capture.Model()), reg, event, up)
    {
      if event.Begin? && Some(reg.handle) != activeClient {
        activeClient := Some(reg.handle);
        notices := notices + [ClientEntered(reg.handle)];
      }
      var entry := reg.pos.Opposite();
      var cursor := CursorMessage(host, event, entry);
      Send(MessageFor(event, entry), reg.handle);
      if !up {
        capture.Release(host);
        return;
      }
      if |cursor| == 1 {
        Send(cursor[0], reg.handle);
        assert SentTogether(reg.handle, cursor) == [(reg.handle, cursor[0])];
      } else {
        assert sent + SentTogether(reg.handle, cursor) == sent;
      }
    }

    method HandleCaptureEvent(host: Host, capture: InputCapture, handle: Handle, event: Event, up: bool)
      returns (ghost order: seq<u32>)
      requires LooksUp(Model(), capture.Model(), event) ==> Find(captures, handle).Some?
      modifies this, capture
      ensures !LooksUp(old(Model()), old(capture.Model()), event) ==>
               CanFlush(old(Model()), old(capture.Model()), order)
      ensures (Model(), capture.Model()) == Handled(host, old(Model()), old(capture.Model()), handle, event, order, up)
    {
      order := [];
      if capture.AllPressed(releaseBind) {
        order := ReleaseCapture(host, capture);
        return;
      }
      if event.AutoRelease? {
        order := ReleaseCapture(host, capture);
        return;
      }
      if event.Begin? {
        notices := notices + [CaptureBegin(handle)];
      }
      var reg := Find(captures, handle).value;
      if reg.kind == EnterOnly {
        if !IsDefaultAt(captures, reg.pos) {
          capture.Release(host);
        }
        return;
      }
      Forward(host, capture, reg, event, up);
    }

    method HandlePeerMessage(host: Host, capture: InputCapture, handle: Handle, message: PeerMsg)
      returns (ghost order: seq<u32>)
      requires AsksPosition(Model(), handle, message) ==> Find(captures, handle).Some?
      modifies this, capture
      ensures Heeded(old(Model()), handle) && message.PeerLeave? ==> CanFlush(old(Model()), old(capture.Model()), order)
      ensures (Model(), capture.Model()) == PeerSaid(host, old(Model()), old(capture.Model()), handle, message, order)
    {
      order := [];
      if activeClient.Some? && handle != activeClient.value {
        return;
      }
      match message
      case PeerLeave => order := ReleaseCaptureHandover(host, capture);
      case PeerBounds(size) => capture.SetPeerBounds(host, Find(captures, handle).value.pos, size);
      case PeerSensitivity(factor) => capture.SetPeerSensitivity(Find(captures, handle).value.pos, factor);
      case PeerHello => notices := notices + [PeerCommitUpdated(handle)];
      case _ =>
    }

    /** `backend` is the backend's answer when a position is created or destroyed there. */
    method HandleRequest(host: Host, capture: InputCapture, request: Request, backend: Result<(), CaptureError>)
      returns (r: Result<(), CaptureError>, ghost order: seq<u32>)
      requires capture.Valid() && Admissible(Model(), capture.Model(), request)
      modifies this, capture
      ensures capture.Valid()
      ensures request.ReleaseForHandover? ==> CanFlush(old(Model()), old(capture.Model()), order)
      ensures r.Ok? || request.CreateCapture? ==>
                (Model(), capture.Model()) == Requested(host, old(Model()), old(capture.Model()), request, order)
      ensures r.Err? ==> r == backend && (request.CreateCapture? || request.DestroyCapture?)
      ensures r.Err? && request.DestroyCapture? ==>
                && Model() == old(Model()).(captures := Unregistered(old(captures), request.handle))
                && capture.Model() == Destroyed(old(capture.Model()), request.handle)
    {
      order := [];
      r := Ok(());
      match request
      case Reenable =>
      case ReleaseForHandover => order := ReleaseCaptureHandover(host, capture);
      case CreateCapture(h, pos, kind) =>
        AddCapture(h, pos, kind);
        r := capture.Create(h, pos, backend);
      case DestroyCapture(h) =>
        var pos := Find(captures, h).value.pos;
        RemoveCapture(h);
        r := capture.Destroy(h, backend);
        if r.Err? {
          return;
        }
        capture.ClearPeerBounds(pos);
        capture.ClearPeerSensitivity(pos);
      case SetReleaseBind(bind) => releaseBind := bind;
      case SetReleaseThreshold(px) => capture.SetReleaseThreshold(px);
    }
  }
}
