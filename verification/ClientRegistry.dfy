/**
 The registry of clients. Its methods update one client each, the way `AddressSelection.After` says, keep every
 other client as it is, and report whether anything a frontend shows has changed.
 */
module ClientRegistry {
  import opened Wrappers
  import opened Bytes
  import opened AddressSelection

  type Handle = nat

  class ClientManager {
    var clients: map<Handle, Client>

    ghost predicate Valid()
      reads this
    {
      forall h :: h in clients ==> Folded(clients[h])
    }

    constructor ()
      ensures Valid() && clients == map[]
    {
      clients := map[];
    }

    /** The registry after one client took a step; a step of an unknown client changes nothing. */
    ghost function Stepped(before: map<Handle, Client>, handle: Handle, op: Op): map<Handle, Client> {
      if handle in before then before[handle := After(before[handle], op)] else before
    }

    /** Adds a blank client under the slot the slab has vacant. */
    method AddClient(vacant: Handle) returns (handle: Handle)
      requires Valid() && vacant !in clients
      modifies this
      ensures Valid() && handle == vacant && clients == old(clients)[vacant := BLANK]
    {
      handle := vacant;
      clients := clients[vacant := BLANK];
    }

    method SetConfig(handle: Handle, config: Config)
      modifies this
      ensures clients == if handle !in old(clients) then old(clients)
                         else old(clients)[handle := old(clients[handle]).(config := config)]
    {
      if handle in clients {
        clients := clients[handle := clients[handle].(config := config)];
      }
    }

    method SetState(handle: Handle, state: State)
      modifies this
      ensures clients == if handle !in old(clients) then old(clients)
                         else old(clients)[handle := old(clients[handle]).(state := state)]
    {
      if handle in clients {
        clients := clients[handle := clients[handle].(state := state)];
      }
    }

    /** Adds a configured client whose candidates are its fixed addresses. */
    method AddWithConfig(vacant: Handle, config: Config, active: bool) returns (handle: Handle)
      requires Valid() && vacant !in clients
      modifies this
      ensures Valid() && handle == vacant
      ensures clients == old(clients)[vacant := Client(config, BLANK.state.(active := active,
               ips := Elements(config.fixIps)))]
    {
      handle := AddClient(vacant);
      SetConfig(handle, config);
      SetState(handle, BLANK.state.(active := active, ips := Elements(config.fixIps)));
    }

    method RemoveClient(handle: Handle) returns (removed: Option<Client>)
      requires Valid()
      modifies this
      ensures Valid() && clients == old(clients) - {handle}
      ensures removed == if handle in old(clients) then Some(old(clients[handle])) else None
    {
      removed := if handle in clients then Some(clients[handle]) else None;
      clients := clients - {handle};
    }

    /** Refolds the candidates of one client, whatever its sources have become. */
    method UpdateIps(handle: Handle)
      modifies this
      ensures clients == if handle !in old(clients) then old(clients)
                         else old(clients)[handle := Refolded(old(clients[handle]))]
    {
      if handle in clients {
        var c := clients[handle];
        var ips := Elements(c.config.fixIps) + Elements(c.state.dnsIps) + Elements(c.state.discoveredIps);
        var s := c.state.(ips := ips);
        s := s.(latencies := map ip | ip in s.latencies && ip in s.ips :: s.latencies[ip]);
        s := s.(interfaces := map ip | ip in s.interfaces && ip in s.ips :: s.interfaces[ip]);
        clients := clients[handle := c.(state := s)];
      }
    }

    method SetFixIps(handle: Handle, fixIps: seq<Ip>)
      requires Valid()
      modifies this
      ensures Valid() && clients == Stepped(old(clients), handle, Op.SetFixIps(fixIps))
    {
      ghost var before := clients;
      if handle in clients {
        StaysFolded(clients[handle], Op.SetFixIps(fixIps));
        clients := clients[handle := clients[handle].(config := clients[handle].config.(fixIps := fixIps))];
      }
      UpdateIps(handle);
      assert handle in before ==> clients == before[handle := After(before[handle], Op.SetFixIps(fixIps))];
    }

    method SetDnsIps(handle: Handle, dnsIps: seq<Ip>)
      requires Valid()
      modifies this
      ensures Valid() && clients == Stepped(old(clients), handle, Op.SetDnsIps(dnsIps))
    {
      ghost var before := clients;
      if handle in clients {
        StaysFolded(clients[handle], Op.SetDnsIps(dnsIps));
        clients := clients[handle := clients[handle].(state := clients[handle].state.(dnsIps := dnsIps))];
      }
      UpdateIps(handle);
      assert handle in before ==> clients == before[handle := After(before[handle], Op.SetDnsIps(dnsIps))];
    }

    method SetDiscoveredIps(handle: Handle, discovered: seq<Ip>) returns (changed: bool)
      requires Valid()
      modifies this
      ensures Valid() && clients == Stepped(old(clients), handle, Op.SetDiscoveredIps(discovered))
      ensures changed == (handle in old(clients) && old(clients[handle]).state.discoveredIps != discovered)
    {
      changed := handle in clients && clients[handle].state.discoveredIps != discovered;
      ghost var before := clients;
      if changed {
        StaysFolded(clients[handle], Op.SetDiscoveredIps(discovered));
        clients := clients[handle := clients[handle].(state := clients[handle].state.(discoveredIps := discovered))];
        UpdateIps(handle);
        assert clients == before[handle := After(before[handle], Op.SetDiscoveredIps(discovered))];
      } else {
        assert handle in before ==> before[handle := before[handle]] == before;
      }
    }

    /** A new hostname invalidates the active address and everything DNS said about the old one. */
    method SetHostname(handle: Handle, hostname: Option<string>) returns (changed: bool)
      requires Valid()
      modifies this
      ensures Valid() && clients == Stepped(old(clients), handle, Op.SetHostname(hostname))
      ensures changed == (handle in old(clients) && old(clients[handle]).config.hostname != hostname)
    {
      ghost var before := clients;
      if handle !in clients {
        return false;
      }
      var c := clients[handle];
      changed := c.config.hostname != hostname;
      if changed {
        StaysFolded(c, Op.SetHostname(hostname));
        clients := clients[handle := Client(c.config.(hostname := hostname),
                                           c.state.(activeAddr := None, dnsIps := []))];
        UpdateIps(handle);
        assert clients == before[handle := After(c, Op.SetHostname(hostname))];
      } else {
        assert before[handle := c] == before;
      }
    }

    method SetPort(handle: Handle, port: u16)
      requires Valid()
      modifies this
      ensures Valid() && clients == Stepped(old(clients), handle, Op.SetPort(port))
    {
      if handle in clients {
        var c := clients[handle];
        StaysFolded(c, Op.SetPort(port));
        if c.config.port != port {
          var addr := if c.state.activeAddr.Some? then Some(Addr(c.state.activeAddr.value.ip, port)) else None;
          clients := clients[handle := Client(c.config.(port := port), c.state.(activeAddr := addr))];
        } else {
          assert clients[handle := c] == clients;
        }
      }
    }

    method SetActiveAddr(handle: Handle, addr: Option<Addr>)
      requires Valid()
      modifies this
      ensures Valid() && clients == Stepped(old(clients), handle, Op.SetActiveAddr(addr))
    {
      if handle in clients {
        StaysFolded(clients[handle], Op.SetActiveAddr(addr));
        clients := clients[handle := clients[handle].(state := clients[handle].state.(activeAddr := addr))];
      }
    }

    /** Keeps the kinds of current candidates only. */
    method SetInterfaces(handle: Handle, kinds: map<Ip, IfaceKind>) returns (changed: bool)
      requires Valid()
      modifies this
      ensures Valid() && clients == Stepped(old(clients), handle, Op.SetInterfaces(kinds))
      ensures changed <==>
              handle in old(clients) && clients[handle].state.interfaces != old(clients[handle]).state.interfaces
    {
      if handle !in clients {
        return false;
      }
      var c := clients[handle];
      StaysFolded(c, Op.SetInterfaces(kinds));
      var filtered := map ip | ip in kinds && ip in c.state.ips :: kinds[ip];
      changed := c.state.interfaces != filtered;
      if changed {
        clients := clients[handle := c.(state := c.state.(interfaces := filtered))];
      } else {
        assert clients[handle := c] == clients;
      }
    }

    /** Records a probe of a current candidate; a result for any other address is dropped. */
    method SetLatency(handle: Handle, ip: Ip, rtt: Option<u32>) returns (changed: bool)
      requires Valid()
      modifies this
      ensures Valid() && clients == Stepped(old(clients), handle, Op.SetLatency(ip, rtt))
      ensures changed <==> clients != old(clients)
    {
      changed := false;
      if handle in clients && ip in clients[handle].state.ips {
        var c := clients[handle];
        StaysFolded(c, Op.SetLatency(ip, rtt));
        if ip in c.state.latencies && c.state.latencies[ip] == rtt {
          assert c.state.latencies[ip := rtt] == c.state.latencies;
          assert clients[handle := c] == clients;
        } else {
          changed := true;
          clients := clients[handle := c.(state := c.state.(latencies := c.state.latencies[ip := rtt]))];
          assert ip in clients[handle].state.latencies && clients[handle].state.latencies[ip] == rtt;
        }
      } else if handle in clients {
        assert clients[handle := clients[handle]] == clients;
      }
    }

    /** Where `Fastest` mode would move the client's connection; always one of its current candidates. */
    function UpgradeFor(handle: Handle): (r: Option<Ip>)
      requires Valid()
      reads this
      ensures r.Some? ==> handle in clients && r.value in clients[handle].state.ips
    {
      if handle in clients then
        UpgradeExactly(clients[handle]);
        FastestUpgradeCandidate(clients[handle].state)
      else None
    }
  }
}
