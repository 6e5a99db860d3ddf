/** internal/registry/registry.go: the live agents, one current record per device. Each method
    is atomic, as under the registry's mutex, so any sequence of calls is an interleaving. */
module Registry {
  import opened Prelude

  datatype SendOutcome = Queued | Full | Panics // sending on a closed channel

  /** The live record of a connected agent, with its bounded outbound channel. */
  class Agent<F> {
    const deviceID: string
    const bufSize: nat
    var outbound: seq<F>     // frames in the channel
    var open: bool           // the channel is not closed
    var cancelled: bool
    ghost var accepted: seq<F>
    ghost var written: seq<F>
    ghost var closes: nat
    ghost var cancels: nat

    /** State of a record that is (or is not) current for its device: its channel is closed
        and its context cancelled exactly once, precisely when it has stopped being current;
        what the write pump wrote is a prefix of what Send accepted. */
    ghost predicate Ok(current: bool)
      reads this
    {
      && open == current && cancelled == !current
      && closes == cancels == (if current then 0 else 1)
      && accepted == written + outbound && |outbound| <= bufSize
    }

    constructor (deviceID: string, bufSize: nat)
      ensures Ok(true) && this.deviceID == deviceID && accepted == [] && written == []
    {
      this.deviceID, this.bufSize := deviceID, bufSize;
      outbound, open, cancelled, accepted, written, closes, cancels := [], true, false, [], [], 0, 0;
    }

    method Send(f: F) returns (r: SendOutcome)
      requires exists c :: Ok(c)
      modifies this`outbound, this`accepted
      ensures old(Ok(true)) ==> Ok(true)
      ensures old(Ok(false)) ==> Ok(false)
      ensures r == if !open then Panics else if |old(outbound)| < bufSize then Queued else Full
      ensures accepted == old(accepted) + (if r.Queued? then [f] else [])
    {
      if !open {
        return Panics;
      }
      if |outbound| >= bufSize {
        return Full;
      }
      outbound, accepted := outbound + [f], accepted + [f];
      assert accepted == written + outbound;
      r := Queued;
    }

    /** One turn of the write pump: the oldest frame goes to the socket. A closed channel
        still delivers what it holds. */
    method PumpOne() returns (sent: Option<F>)
      requires exists c :: Ok(c)
      modifies this`outbound, this`written
      ensures old(Ok(true)) ==> Ok(true)
      ensures old(Ok(false)) ==> Ok(false)
      ensures sent == if old(outbound) == [] then None else Some(old(outbound)[0])
      ensures written == old(written) + (if sent.Some? then [sent.value] else [])
    {
      if outbound == [] {
        return None;
      }
      sent := Some(outbound[0]);
      assert written + outbound == (written + [outbound[0]]) + outbound[1..];
      outbound, written := outbound[1..], written + [outbound[0]];
    }

    /** cancel() and close(outbound). Closing an already closed channel would panic. */
    method Retire()
      requires Ok(true)
      modifies this`open, this`cancelled, this`closes, this`cancels
      ensures Ok(false)
    {
      cancelled, cancels := true, cancels + 1;
      open, closes := false, closes + 1;
    }
  }

  class Registry<F> {
    var byDev: map<string, Agent<F>>
    ghost var known: set<Agent<F>>   // every record ever registered

    ghost predicate Current(a: Agent<F>)
      reads this
    {
      a.deviceID in byDev && byDev[a.deviceID] == a
    }

    ghost predicate Valid()
      reads this, known
    {
      && (forall d :: d in byDev ==> byDev[d] in known && byDev[d].deviceID == d)
      && (forall a :: a in known ==> a.Ok(Current(a)))
    }

    constructor ()
      ensures Valid() && byDev == map[] && known == {}
    {
      byDev, known := map[], {};
    }

    /** Installs a fresh record, retiring the previous one of the device if any. */
    method Register(a: Agent<F>)
      requires Valid() && a !in known && a.Ok(true)
      modifies this, known
      ensures Valid() && known == old(known) + {a}
      ensures byDev == old(byDev)[a.deviceID := a]
      ensures forall b :: b in old(known) && b.deviceID != a.deviceID ==>
                b.open == old(b.open) && b.closes == old(b.closes)
      ensures forall b :: b in old(known) ==> b.accepted == old(b.accepted) && b.written == old(b.written)
    {
      if a.deviceID in byDev {
        byDev[a.deviceID].Retire();
      }
      byDev, known := byDev[a.deviceID := a], known + {a};
    }

    /** Removes the record only if it is still the current one; a late call by an evicted
        agent, or a second call, changes nothing. */
    method Unregister(a: Agent<F>)
      requires Valid() && a in known
      modifies this`byDev, a`open, a`cancelled, a`closes, a`cancels
      ensures Valid()
      ensures byDev == if old(Current(a)) then old(byDev) - {a.deviceID} else old(byDev)
      ensures !old(Current(a)) ==> a.closes == old(a.closes) && a.cancels == old(a.cancels)
    {
      if a.deviceID in byDev && byDev[a.deviceID] == a {
        byDev := byDev - {a.deviceID};
        a.Retire();
      }
    }

    method Get(deviceID: string) returns (a: Option<Agent<F>>)
      requires Valid()
      ensures a.Some? <==> deviceID in byDev
      ensures a.Some? ==> Current(a.value) && a.value.deviceID == deviceID && a.value.open
    {
      a := if deviceID in byDev then Some(byDev[deviceID]) else None;
    }

    /** A send that would panic only ever happens on a record that is no longer current. */
    method SendTo(a: Agent<F>, f: F) returns (r: SendOutcome)
      requires Valid() && a in known
      modifies a`outbound, a`accepted
      ensures Valid() && (r.Panics? <==> !Current(a))
      ensures a.accepted == old(a.accepted) + (if r.Queued? then [f] else [])
    {
      assert a.Ok(Current(a));
      r := a.Send(f);
    }

    method PumpOf(a: Agent<F>) returns (sent: Option<F>)
      requires Valid() && a in known
      modifies a`outbound, a`written
      ensures Valid()
    {
      assert a.Ok(Current(a));
      sent := a.PumpOne();
    }
  }

  /* ---- Every run of calls ---- */

  /** One call by some goroutine: a device connects with a fresh record, or something is done
      with the i-th record so far. */
  datatype Call<F> = Connect(deviceID: string) | Disconnect(i: nat) | Deliver(i: nat, f: F) | Pump(i: nat)

  function Connects<F>(calls: seq<Call<F>>): seq<string> {
    if calls == [] then []
    else Connects(calls[..|calls| - 1]) + (if calls[|calls| - 1].Connect? then [calls[|calls| - 1].deviceID] else [])
  }

  /** Each device has at most one current record; every other record ever registered has been
      closed and cancelled exactly once, every current one never; and what a write pump
      wrote is a prefix of what Send accepted. */
  ghost predicate ExactlyOnce<F>(reg: Registry<F>, agents: seq<Agent<F>>)
    reads reg, agents
  {
    && (forall i, j :: 0 <= i < j < |agents| && agents[i].deviceID == agents[j].deviceID ==>
          !(agents[i].open && agents[j].open))
    && (forall i :: 0 <= i < |agents| ==>
          && agents[i].open == reg.Current(agents[i])
          && agents[i].closes == agents[i].cancels == (if reg.Current(agents[i]) then 0 else 1)
          && agents[i].written <= agents[i].accepted)
  }

  /** Any run of calls, by any goroutines in any order. */
  method RunCalls<F>(reg: Registry<F>, bufSize: nat, calls: seq<Call<F>>) returns (agents: seq<Agent<F>>)
    requires reg.Valid() && reg.known == {}
    modifies reg
    ensures reg.Valid() && ExactlyOnce(reg, agents)
    ensures |agents| == |Connects(calls)| && forall i :: 0 <= i < |agents| ==> agents[i].deviceID == Connects(calls)[i]
  {
    agents := [];
    for n := 0 to |calls|
      invariant reg.Valid() && Holds(reg, agents, Connects(calls[..n]))
      invariant forall a :: a in reg.known ==> fresh(a)
    {
      assert calls[..n + 1][..n] == calls[..n];
      agents := Perform(reg, bufSize, agents, calls[n], Connects(calls[..n]));
    }
    assert calls[..|calls|] == calls;
    forall i | 0 <= i < |agents|
      ensures agents[i].Ok(reg.Current(agents[i]))
    {
      assert agents[i] in reg.known;
    }
  }

  /** The records made so far, for these devices in order, are distinct and known. */
  ghost predicate Holds<F>(reg: Registry<F>, agents: seq<Agent<F>>, devices: seq<string>)
    reads reg
  {
    && |agents| == |devices|
    && (forall i :: 0 <= i < |agents| ==> agents[i] in reg.known && agents[i].deviceID == devices[i])
    && (forall i, j :: 0 <= i < j < |agents| ==> agents[i] != agents[j])
  }

  method Perform<F>(reg: Registry<F>, bufSize: nat, agents: seq<Agent<F>>, c: Call<F>, ghost devices: seq<string>)
    returns (agents': seq<Agent<F>>)
    requires reg.Valid() && Holds(reg, agents, devices)
    modifies reg, reg.known
    ensures reg.Valid() && Holds(reg, agents', devices + (if c.Connect? then [c.deviceID] else []))
    ensures forall a :: a in reg.known ==> a in old(reg.known) || fresh(a)
  {
    agents' := agents;
    assert devices + [] == devices;
    if c.Connect? {
      var a := new Agent(c.deviceID, bufSize);
      reg.Register(a);
      agents' := agents + [a];
    } else if c.i < |agents| {
      var a := agents[c.i];
      match c
      case Disconnect(_) => reg.Unregister(a);
      case Deliver(_, f) => var r := reg.SendTo(a, f);
      case Pump(_) => var f := reg.PumpOf(a);
    }
  }
}
