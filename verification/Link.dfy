/**
 The hub object the arming verbs work on (src/FacadeHub.cpp) and the network's
 Link, which arms both ends of an edge or neither (src/FacadeNetwork.cpp).
 The kernel's answers are parameters; the interleaving with the pump is ConBook's.
 */
module Link {
  import opened Text
  import opened Address
  import opened Endpoint
  import EndpointMap
  import opened Snapshot
  import opened ConBook
  import Security

  datatype Code =
    | S_OK | S_FALSE | S_UNRELATED
    | E_POINTER | E_INVALIDARG | E_ENDPOINT | E_NO_HUB | E_NO_PEER | E_PUMP_THREAD | E_CLOSED
    | E_CON_DUPLICATE | E_CON_FACTORY | E_SECURITY | E_LINK_PARTIAL

  predicate Failed(hr: Code) { !hr.S_OK? && !hr.S_FALSE? && !hr.S_UNRELATED? }

  /** What the transport factory and the kernel's post do with a connection that is no duplicate. */
  datatype Post = Accepts | NoFactory | Rejects

  function PostCode(post: Post, duplicate: bool): Code {
    if post == NoFactory then E_CON_FACTORY else if post == Rejects || duplicate then E_CON_DUPLICATE else S_OK
  }

  /**
   What becomes of a connection CloseCon retracts: it leaves inside the budget, it
   stays, or the kernel throws, with the connection off the list or still on it.
   */
  datatype Fate = Leaves | Stays | Throws(left: bool)

  /** CloseCon answers gone when it saw the connection leave and when the kernel threw. */
  predicate Reported(fate: Fate) { fate != Stays }

  function Remaining(cons: map<Addr, bool>, p: Addr, fate: Fate): map<Addr, bool> {
    if fate == Leaves || fate == Throws(true) then cons - {p} else cons
  }

  /** What arming changes of a hub. */
  datatype Side = Side(cons: map<Addr, bool>, armed: map<Addr, ArmedCon>)

  /** One new connection, by role, and the record that spells its endpoint. */
  function ArmedWith(was: Side, peer: Addr, ep: Endpoint, listen: bool): Side {
    Side(was.cons[peer := listen], was.armed[peer := ArmedCon(Format(ep), listen)])
  }

  lemma ArmedHasCon(was: Side, peer: Addr, ep: Endpoint, listen: bool)
    ensures peer in ArmedWith(was, peer, ep, listen).cons
  {
  }

  /** And what CloseCon changes. */
  function Retracted(was: Side, peer: Addr, fate: Fate): Side {
    Side(Remaining(was.cons, peer, fate), was.armed - {peer})
  }

  /**
   The listener once Link arms: untouched, armed, or unwound, which takes its
   record of the peer away, an earlier one too, and its connection if that leaves.
   */
  function ListenerAfter(was: Side, peer: Addr, ep: Endpoint, postListen: Post, postDial: Post, fate: Fate): Side {
    if postListen != Accepts then was
    else if postDial == Accepts then ArmedWith(was, peer, ep, true)
    else Retracted(ArmedWith(was, peer, ep, true), peer, fate)
  }

  /** A listener whose arm was taken back. */
  function Unwound(was: Side, peer: Addr, fate: Fate): Side {
    Side(if fate == Leaves || fate == Throws(true) then was.cons else was.cons[peer := true], was.armed - {peer})
  }

  lemma UnwoundListener(was: Side, peer: Addr, ep: Endpoint, postDial: Post, fate: Fate)
    requires postDial != Accepts && peer !in was.cons
    ensures ListenerAfter(was, peer, ep, Accepts, postDial, fate) == Unwound(was, peer, fate)
  {
    hide Format;
    assert was.cons[peer := true] - {peer} == was.cons;
    assert was.armed[peer := ArmedCon(Format(ep), true)] - {peer} == was.armed - {peer};
  }

  lemma UntouchedListener(was: Side, peer: Addr, ep: Endpoint, postListen: Post, postDial: Post, fate: Fate)
    ensures postListen != Accepts ==> ListenerAfter(was, peer, ep, postListen, postDial, fate) == was
  {
  }

  function DialerAfter(was: Side, peer: Addr, ep: Endpoint, postListen: Post, postDial: Post): Side {
    if postListen == Accepts && postDial == Accepts then ArmedWith(was, peer, ep, false) else was
  }

  /** What Link answers once it arms. */
  function ArmsCode(l: Addr, d: Addr, postListen: Post, postDial: Post, fate: Fate): Code {
    if postListen != Accepts then PostCode(postListen, false)
    else if postDial != Accepts then (if fate == Stays then E_LINK_PARTIAL else PostCode(postDial, false))
    else if ClassifyPeer(l, d) == Unrelated || ClassifyPeer(d, l) == Unrelated then S_UNRELATED
    else S_OK
  }

  /**
   What the code says: which post was refused and why, that something may have
   stayed behind, or that neither address is above the other.
   */
  lemma ArmsCodeSays(l: Addr, d: Addr, postListen: Post, postDial: Post, fate: Fate)
    requires l != "" && d != "" && l != d
    ensures var hr := ArmsCode(l, d, postListen, postDial, fate);
      && (hr == E_LINK_PARTIAL <==> postListen == Accepts && postDial != Accepts && fate == Stays)
      && (hr == E_CON_FACTORY <==>
            || postListen == NoFactory
            || (postListen == Accepts && postDial == NoFactory && fate != Stays))
      && (hr == E_CON_DUPLICATE <==>
            || postListen == Rejects
            || (postListen == Accepts && postDial == Rejects && fate != Stays))
      && (hr == S_UNRELATED <==>
            && postListen == Accepts && postDial == Accepts && !(IsPattern(l) && IsPattern(d))
            && !ProperPrefix(Components(l), Components(d)) && !ProperPrefix(Components(d), Components(l)))
      && (Failed(hr) || hr == S_OK || hr == S_UNRELATED)
  {
    BelowIffPrefix(l, d);
    BelowIffPrefix(d, l);
    hide Components, ProperPrefix, IsPattern, IsBelow;
  }

  /** A failure that does not say otherwise leaves every connection, unless the kernel threw and kept the listener's. */
  lemma FailureKeepsCons(was: Side, l: Addr, d: Addr, ep: Endpoint, postListen: Post, postDial: Post, fate: Fate)
    requires d !in was.cons
    ensures var hr := ArmsCode(l, d, postListen, postDial, fate);
      && (!Failed(hr) <==> postListen == Accepts && postDial == Accepts)
      && (Failed(hr) ==>
            (ListenerAfter(was, d, ep, postListen, postDial, fate).cons == was.cons
             <==> !(hr == E_LINK_PARTIAL || (postListen == Accepts && fate == Throws(false)))))
  {
    assert was.cons[d := true] - {d} == was.cons;
    assert d in was.cons[d := true];
  }

  /** An end that is armed: one connection more, and one record, in the role it plays. */
  predicate NewEnd(was: Side, now: Side, peer: Addr, listen: bool) {
    && peer in now.armed && now.armed[peer].listen == listen
    && now == Side(was.cons[peer := listen], was.armed[peer := now.armed[peer]])
  }

  /**
   The edge a caller stated.  The dialer's record spells the dial, the listener's
   the listen that is this dial without its host; both spell the service of the
   two addresses where none was stated.
   */
  predicate SpelledAs(env: Platform, l: Addr, d: Addr, stated: Option<string>, listens: string, dials: string) {
    if stated == None || stated.value == "" then listens == dials == "dmx://P2PF|" + l + "|" + d
    else
      var dial := Parse(env, stated.value, false);
      && dial.Some? && dial.value.kind != Serial
      && Parse(env, dials, false) == dial
      && Parse(env, listens, true) == Some(dial.value.(host := ""))
  }

  /** No endpoint, or one that can be dialed and is no serial port. */
  predicate Dialable(env: Platform, stated: Option<string>) {
    || stated == None || stated.value == ""
    || (Parse(env, stated.value, false).Some? && Parse(env, stated.value, false).value.kind != Serial)
  }

  /** Both ends once an edge is armed. */
  lemma BothEndsAreNew(l: Side, d: Side, listener: Addr, dialer: Addr, listen: Endpoint, dial: Endpoint, fate: Fate)
    ensures var (lNow, dNow) := (ListenerAfter(l, dialer, listen, Accepts, Accepts, fate),
                                 DialerAfter(d, listener, dial, Accepts, Accepts));
      && NewEnd(l, lNow, dialer, true) && NewEnd(d, dNow, listener, false)
      && lNow.armed[dialer].endpoint == Format(listen) && dNow.armed[listener].endpoint == Format(dial)
  {
    hide Format;
  }

  class Hub {
    const address: Addr
    const secure: bool
    const callerPumped: bool
    /** Its trust and enforcement, which only a secure hub uses. */
    const sec: Security.SecureHub
    var armed: map<Addr, ArmedCon>
    var peers: map<Addr, bool>
    var unretired: set<Addr>
    /** The kernel's list: the connection posted for each peer address, and whether it listens. */
    var cons: map<Addr, bool>

    constructor (sec: Security.SecureHub, secure: bool, callerPumped: bool)
      ensures address == sec.address && this.sec == sec
      ensures this.secure == secure && this.callerPumped == callerPumped
      ensures armed == map[] && peers == map[] && unretired == {} && cons == map[]
    {
      this.address, this.sec, this.secure, this.callerPumped := sec.address, sec, secure, callerPumped;
      armed, peers, unretired, cons := map[], map[], {}, map[];
    }

    function State(): Side
      reads this
    {
      Side(cons, armed)
    }

    /** told: the event the client gets, OnPeerUp or OnPeerDown. */
    method MarkPeer(p: Addr, up: bool) returns (told: Option<bool>)
      modifies this`peers
      ensures peers == if p == "" then old(peers) else old(peers)[p := up]
      ensures told == if p != "" && IsUp(old(peers), p) != up then Some(up) else None
    {
      if p == "" { return None; }
      var changed := (if p in peers then peers[p] else false) != up;
      peers := peers[p := up];
      return if changed then Some(up) else None;
    }

    method ArmRecorded(p: Addr, record: ArmedCon, post: Post) returns (hr: Code)
      modifies this`armed, this`cons
      ensures hr == PostCode(post, p in old(cons))
      ensures hr == S_OK ==> armed == old(armed)[p := record] && cons == old(cons)[p := record.listen]
      ensures hr != S_OK ==> armed == old(armed) && cons == old(cons)
    {
      var prev := if p in armed then Some(armed[p]) else None;
      armed := armed[p := record];
      if post == NoFactory {
        hr := E_CON_FACTORY;
      } else if post == Rejects || p in cons {
        hr := E_CON_DUPLICATE;
      } else {
        hr := S_OK;
      }
      if Failed(hr) {
        if prev.Some? {
          armed := armed[p := prev.value];
        } else {
          armed := armed - {p};
        }
      } else {
        cons := cons[p := record.listen];
      }
    }

    /** The refusals in order, before anything is made; an edge to an unrelated address succeeds and says so. */
    method ArmResolved(peer: Option<Addr>, ep: Endpoint, listen: bool, post: Post) returns (hr: Code)
      modifies this`armed, this`cons
      ensures hr == if peer == None then E_POINTER
                    else if peer.value == "" || EndpointMap.IsSwappedPeer(peer.value) then E_INVALIDARG
                    else if ClassifyPeer(address, peer.value) == Self then E_INVALIDARG
                    else if post == NoFactory then E_CON_FACTORY
                    else if post == Rejects || peer.value in old(cons) then E_CON_DUPLICATE
                    else if ClassifyPeer(address, peer.value) == Unrelated then S_UNRELATED else S_OK
      ensures State() == if Failed(hr) then old(State()) else ArmedWith(old(State()), peer.value, ep, listen)
    {
      hide Format, ClassifyPeer, EndpointMap.IsSwappedPeer;
      if peer == None { return E_POINTER; }
      var p := peer.value;
      if p == "" || EndpointMap.IsSwappedPeer(p) { return E_INVALIDARG; }
      var relation := ClassifyPeer(address, p);
      if relation == Self { return E_INVALIDARG; }
      hr := ArmRecorded(p, ArmedCon(Format(ep), listen), post);
      if Failed(hr) { return; }
      return if relation == Unrelated then S_UNRELATED else S_OK;
    }

    method CloseCon(p: Addr, fate: Fate) returns (gone: bool)
      modifies this`armed, this`cons
      ensures gone <==> p != "" && (Reported(fate) || p !in old(cons))
      ensures State() == if p == "" then old(State()) else Retracted(old(State()), p, fate)
    {
      if p == "" { return false; }
      armed := armed - {p};
      if fate == Leaves || fate == Throws(true) { cons := cons - {p}; }
      if fate.Throws? { return true; }
      gone := p !in cons;
    }

    /**
     A connection seen to stay is remembered where the next drain finds it.
     open: the kernel answers at all.
     */
    method Disconnect(peer: Option<Addr>, ownsPump: bool, open: bool, fate: Fate) returns (hr: Code)
      modifies this
      ensures hr == if peer == None then E_POINTER else if peer.value == "" then E_INVALIDARG
                    else if !callerPumped && ownsPump then E_PUMP_THREAD
                    else if !open then E_CLOSED
                    else if peer.value !in old(cons) then E_NO_PEER
                    else if fate == Stays then S_FALSE else S_OK
      ensures Failed(hr) ==> unchanged(this)
      ensures hr == S_OK ==>
        && cons == Remaining(old(cons), peer.value, fate)
        && unretired == old(unretired) - {peer.value}
      ensures hr == S_FALSE ==>
        && cons == old(cons) && unretired == old(unretired) + {peer.value}
        && peer.value in DrainSet(armed, peers, unretired)
      ensures !Failed(hr) ==>
        && armed == old(armed) - {peer.value}
        && peers == if peer.value in old(peers) then old(peers)[peer.value := false] else old(peers)
    {
      if peer == None { return E_POINTER; }
      var p := peer.value;
      if p == "" { return E_INVALIDARG; }
      if !callerPumped && ownsPump { return E_PUMP_THREAD; }
      if !open { return E_CLOSED; }
      if p !in cons { return E_NO_PEER; }
      var wasUp := p in peers && peers[p];
      var gone := CloseCon(p, fate);
      if wasUp {
        var _ := MarkPeer(p, false);
      }
      if gone {
        unretired := unretired - {p};
      } else {
        unretired := unretired + {p};
      }
      return if gone then S_OK else S_FALSE;
    }

    /** The three classes a drain signals, collected as the source walks the maps. */
    method ToSignal() returns (all: set<Addr>)
      ensures all == DrainSet(armed, peers, unretired)
    {
      all := {};
      var rest := peers.Keys;
      while rest != {}
        invariant rest <= peers.Keys
        invariant forall p :: p in all <==> p in peers && p !in rest && peers[p]
        decreases |rest|
      {
        var p :| p in rest;
        if peers[p] { all := all + {p}; }
        rest := rest - {p};
      }
      rest := armed.Keys;
      while rest != {}
        invariant rest <= armed.Keys
        invariant forall p :: p in all <==> (p in peers && peers[p]) || (p in armed && p !in rest && p !in peers)
        decreases |rest|
      {
        var p :| p in rest;
        if p !in peers { all := all + {p}; }
        rest := rest - {p};
      }
      all := all + unretired;
    }

    /** stuck: the connections that do not leave inside the budget. */
    method DrainCons(stuck: set<Addr>) returns (drained: bool)
      modifies this`cons
      ensures cons == old(cons) - (DrainSet(armed, peers, unretired) - stuck)
      ensures drained <==> DrainSet(armed, peers, unretired) !! cons.Keys
    {
      var all := ToSignal();
      cons := cons - (all - stuck);
      var rest := all;
      drained := true;
      while rest != {} && drained
        invariant rest <= all && (drained <==> forall p :: p in all && p !in rest ==> p !in cons)
        decreases |rest|
      {
        var p :| p in rest;
        drained := p !in cons;
        rest := rest - {p};
      }
    }
  }

  lemma SelfIsEqual(address: Addr, peer: Addr)
    ensures ClassifyPeer(address, peer) == Self ==> address == peer
  {
  }

  class Network {
    var hubs: map<Addr, Hub>

    ghost predicate Valid()
      reads this, hubs.Values
    {
      forall a :: a in hubs ==> hubs[a].address == a && hubs[a].sec.address == a
    }

    constructor ()
      ensures Valid() && hubs == map[]
    {
      hubs := map[];
    }

    /** The dial the caller states, or the derived one, with the listen that matches it. */
    static function Endpoints(env: Platform, listener: Addr, dialer: Addr, endpoint: Option<string>)
      : Option<(Endpoint, Endpoint)>
    {
      if endpoint == None || endpoint.value == "" then
        Some((DerivedEndpoint(listener, dialer), DerivedEndpoint(listener, dialer)))
      else match Parse(env, endpoint.value, false)
        case None => None
        case Some(dial) => if dial.kind == Serial then None else Some((DropHost(dial), dial))
    }

    static lemma EndpointsSpell(env: Platform, l: Addr, d: Addr, stated: Option<string>)
      ensures Endpoints(env, l, d, stated).Some? <==> Dialable(env, stated)
      ensures Sane(env) && Dialable(env, stated) ==>
        var (listen, dial) := Endpoints(env, l, d, stated).value;
        SpelledAs(env, l, d, stated, Format(listen), Format(dial))
    {
      hide Parse, Format, Sane;
      if stated == None || stated.value == "" {
        DerivedSpells(l, d);
      } else if Sane(env) && Dialable(env, stated) {
        var dial := Parse(env, stated.value, false).value;
        DialDropsToListen(env, stated.value, dial);
        ParsePrintParse(env, stated.value, false);
      }
    }

    static lemma DerivedSpells(l: Addr, d: Addr)
      ensures Format(DerivedEndpoint(l, d)) == "dmx://P2PF|" + l + "|" + d
    {
      assert "dmx" + "://" + ("P2PF|" + l + "|" + d) == "dmx://P2PF|" + l + "|" + d;
    }

    /** Two addresses that can name the two ends of an edge. */
    static predicate EndsNamed(l: Addr, d: Addr) {
      l != "" && d != "" && l != d && !EndpointMap.IsSwappedPeer(l) && !EndpointMap.IsSwappedPeer(d)
    }

    /** Two hubs of this network, without an edge yet and of one kind. */
    ghost predicate Free(l: Addr, d: Addr)
      reads this, hubs.Values
    {
      && l in hubs && d in hubs && d !in hubs[l].cons && l !in hubs[d].cons
      && hubs[l].secure == hubs[d].secure
    }

    /** Everything Link asks before it touches an allow-list. */
    ghost predicate PreFlight(env: Platform, l: Addr, d: Addr, endpoint: Option<string>)
      reads this, hubs.Values
    {
      EndsNamed(l, d) && Dialable(env, endpoint) && Free(l, d)
    }

    /** Both hubs are plain, or each comes to trust the other. */
    static ghost predicate Secured(lHub: Hub, dHub: Hub, edge: Security.EdgeAnswers)
      reads lHub.sec, dHub.sec
    {
      lHub.secure ==> Security.EdgePasses(lHub.sec.State(), dHub.sec.State(), lHub.sec.Id(), dHub.sec.Id(), edge)
    }

    /** Everything Link asks before it arms. */
    ghost predicate Passes(env: Platform, listener: Option<Addr>, dialer: Option<Addr>, endpoint: Option<string>,
                           edge: Security.EdgeAnswers)
      reads this, hubs.Values, set a | a in hubs :: hubs[a].sec
    {
      && listener.Some? && dialer.Some? && PreFlight(env, listener.value, dialer.value, endpoint)
      && Secured(hubs[listener.value], hubs[dialer.value], edge)
    }

    /**
     Arms an edge or leaves the hubs' connections as they were, unless the dial is
     refused and the listener's connection does not leave: then it stays behind,
     named by the partial code, or unnamed where the kernel threw.  What the
     security step did to the two hubs' trust stands whatever the arms do afterwards.
     */
    method Link(env: Platform, listener: Option<Addr>, dialer: Option<Addr>, endpoint: Option<string>,
                edge: Security.EdgeAnswers, postListen: Post, postDial: Post, fate: Fate) returns (hr: Code)
      requires Valid()
      // Of the two hubs named, the connections, the records and the trust; of any other hub nothing.
      modifies (set a | a in hubs && Some(a) in {listener, dialer} :: hubs[a])`armed
      modifies (set a | a in hubs && Some(a) in {listener, dialer} :: hubs[a])`cons
      modifies set a | a in hubs && Some(a) in {listener, dialer} :: hubs[a].sec
      ensures Valid()
      ensures !Failed(hr) <==>
        old(Passes(env, listener, dialer, endpoint, edge)) && postListen == Accepts && postDial == Accepts
      // Every refusal in order.
      ensures hr ==
        if listener == None || dialer == None then E_POINTER
        else if !EndsNamed(listener.value, dialer.value) then E_INVALIDARG
        else if !Dialable(env, endpoint) then E_ENDPOINT
        else if listener.value !in hubs || dialer.value !in hubs then E_NO_HUB
        else if old(dialer.value in hubs[listener.value].cons || listener.value in hubs[dialer.value].cons)
        then E_CON_DUPLICATE
        else if hubs[listener.value].secure != hubs[dialer.value].secure
                || !old(Secured(hubs[listener.value], hubs[dialer.value], edge))
        then E_SECURITY
        else ArmsCode(listener.value, dialer.value, postListen, postDial, fate)
      // An edge that is armed listens at one end, dials at the other, and is the one that was stated.
      ensures !Failed(hr) ==>
        && NewEnd(old(hubs[listener.value].State()), hubs[listener.value].State(), dialer.value, true)
        && NewEnd(old(hubs[dialer.value].State()), hubs[dialer.value].State(), listener.value, false)
        && (Sane(env) ==>
              SpelledAs(env, listener.value, dialer.value, endpoint,
                        hubs[listener.value].armed[dialer.value].endpoint,
                        hubs[dialer.value].armed[listener.value].endpoint))
      // A failure leaves every hub as it was, but for a listener whose dialer was refused past the guards.
      ensures Failed(hr) && dialer.Some? && dialer.value in hubs && dialer != listener ==>
        hubs[dialer.value].State() == old(hubs[dialer.value].State())
      ensures Failed(hr) && listener.Some? && listener.value in hubs ==>
        var now, was := hubs[listener.value].State(), old(hubs[listener.value].State());
        if postListen == Accepts && old(Passes(env, listener, dialer, endpoint, edge))
        then now == Unwound(was, dialer.value, fate)
        else now == was
      ensures Failed(hr) && hr != E_LINK_PARTIAL && fate != Throws(false) ==>
        forall a :: a in hubs ==> hubs[a].cons == old(hubs[a].cons)
      // The security step runs exactly when the guards before it pass on two secure hubs, and is never undone.
      ensures
        if listener.Some? && dialer.Some? && old(PreFlight(env, listener.value, dialer.value, endpoint))
           && hubs[listener.value].secure
        then EdgeStepDone(hubs[listener.value].sec, hubs[dialer.value].sec, edge)
        else forall a :: a in hubs ==> unchanged(hubs[a].sec)
    {
      hide Endpoints, Secured, Unwound, ArmsCode, EdgeStepDone, Free, Sane, Parse, Format;
      hide EndpointMap.IsSwappedPeer, SpelledAs, Dialable, NewEnd;
      if listener == None || dialer == None { return E_POINTER; }
      var l, d := listener.value, dialer.value;
      if l == "" || d == "" { return E_INVALIDARG; }
      if l == d { return E_INVALIDARG; }
      if EndpointMap.IsSwappedPeer(l) || EndpointMap.IsSwappedPeer(d) { return E_INVALIDARG; }
      EndpointsSpell(env, l, d, endpoint);
      var both := Endpoints(env, l, d, endpoint);
      if both == None { return E_ENDPOINT; }
      var (listen, dial) := both.value;

      hr := LinkLocked(l, d, listen, dial, edge, postListen, postDial, fate);
    }

    /** What Link does under the network's lock. */
    method LinkLocked(l: Addr, d: Addr, listen: Endpoint, dial: Endpoint,
                      edge: Security.EdgeAnswers, postListen: Post, postDial: Post, fate: Fate) returns (hr: Code)
      requires Valid() && EndsNamed(l, d)
      modifies (set a | a in hubs && a in {l, d} :: hubs[a])`armed
      modifies (set a | a in hubs && a in {l, d} :: hubs[a])`cons
      modifies set a | a in hubs && a in {l, d} :: hubs[a].sec
      ensures Failed(hr) && d in hubs ==> hubs[d].State() == old(hubs[d].State())
      ensures Failed(hr) && l in hubs ==>
        var now, was := hubs[l].State(), old(hubs[l].State());
        if postListen == Accepts && old(Free(l, d)) && old(Secured(hubs[l], hubs[d], edge))
        then now == Unwound(was, d, fate)
        else now == was
      ensures hr ==
        if l !in hubs || d !in hubs then E_NO_HUB
        else if old(d in hubs[l].cons || l in hubs[d].cons) then E_CON_DUPLICATE
        else if hubs[l].secure != hubs[d].secure || !old(Secured(hubs[l], hubs[d], edge)) then E_SECURITY
        else ArmsCode(l, d, postListen, postDial, fate)
      ensures !Failed(hr) ==>
        && NewEnd(old(hubs[l].State()), hubs[l].State(), d, true)
        && NewEnd(old(hubs[d].State()), hubs[d].State(), l, false)
        && hubs[l].armed[d].endpoint == Format(listen) && hubs[d].armed[l].endpoint == Format(dial)
      ensures !Failed(hr) <==>
        old(Free(l, d)) && old(Secured(hubs[l], hubs[d], edge)) && postListen == Accepts && postDial == Accepts
      ensures Failed(hr) && hr != E_LINK_PARTIAL && fate != Throws(false) ==>
        forall a :: a in hubs && a in {l, d} ==> hubs[a].cons == old(hubs[a].cons)
      ensures
        if old(Free(l, d)) && hubs[l].secure then EdgeStepDone(hubs[l].sec, hubs[d].sec, edge)
        else forall a :: a in hubs && a in {l, d} ==> unchanged(hubs[a].sec)
    {
      hide Secured, ListenerAfter, DialerAfter, ArmsCode, EdgeStepDone, EndpointMap.IsSwappedPeer, NewEnd, Format;
      hide Unwound;
      if l !in hubs || d !in hubs { return E_NO_HUB; }
      var lHub, dHub := hubs[l], hubs[d];
      if d in lHub.cons || l in dHub.cons { return E_CON_DUPLICATE; }
      if lHub.secure != dHub.secure { return E_SECURITY; }
      BothEndsAreNew(lHub.State(), dHub.State(), l, d, listen, dial, fate);
      if postDial != Accepts { UnwoundListener(lHub.State(), d, listen, postDial, fate); }
      UntouchedListener(lHub.State(), d, listen, postListen, postDial, fate);
      hr := SecureAndArm(lHub, dHub, listen, dial, edge, postListen, postDial, fate);
    }

    static twostate predicate EdgeStepDone(a: Security.SecureHub, b: Security.SecureHub, edge: Security.EdgeAnswers)
      reads a, b
    {
      && a.State() == Security.AfterEdgeA(old(a.State()), old(b.State()), a.Id(), b.Id(), edge)
      && b.State() == Security.AfterEdgeB(old(a.State()), old(b.State()), a.Id(), b.Id(), edge)
    }

    /** The security step where both hubs are secure, and then the arms. */
    static method SecureAndArm(lHub: Hub, dHub: Hub, listen: Endpoint, dial: Endpoint, edge: Security.EdgeAnswers,
                               postListen: Post, postDial: Post, fate: Fate) returns (hr: Code)
      requires Linkable(lHub, dHub) && lHub.sec.address == lHub.address && dHub.sec.address == dHub.address
      modifies lHub`armed, lHub`cons, dHub`armed, dHub`cons, lHub.sec, dHub.sec
      ensures
        if old(Secured(lHub, dHub, edge))
        then
          && hr == ArmsCode(lHub.address, dHub.address, postListen, postDial, fate)
          && lHub.State() == ListenerAfter(old(lHub.State()), dHub.address, listen, postListen, postDial, fate)
          && dHub.State() == DialerAfter(old(dHub.State()), lHub.address, dial, postListen, postDial)
        else
          hr == E_SECURITY && lHub.State() == old(lHub.State()) && dHub.State() == old(dHub.State())
      ensures !Failed(hr) <==> old(Secured(lHub, dHub, edge)) && postListen == Accepts && postDial == Accepts
      ensures Failed(hr) ==> dHub.State() == old(dHub.State())
      ensures Failed(hr) && hr != E_LINK_PARTIAL && fate != Throws(false) ==> lHub.cons == old(lHub.cons)
      ensures !lHub.secure ==> unchanged(lHub.sec) && unchanged(dHub.sec)
      ensures lHub.secure ==> EdgeStepDone(lHub.sec, dHub.sec, edge)
    {
      hide ListenerAfter, ArmsCode, Security.AfterEdgeA, Security.AfterEdgeB, Security.EdgePasses, Security.FirstPasses;
      FailureKeepsCons(lHub.State(), lHub.address, dHub.address, listen, postListen, postDial, fate);
      if lHub.secure {
        var hrSec := Security.SecureEdgeLocked(lHub.sec, dHub.sec, edge);
        if hrSec != Security.S_OK { return E_SECURITY; }
      }
      hr := ArmBoth(lHub, dHub, listen, dial, postListen, postDial, fate);
    }

    /** Two hubs an edge may be armed between. */
    static ghost predicate Linkable(lHub: Hub, dHub: Hub)
      reads lHub, dHub
    {
      && lHub.address != dHub.address && lHub.address != "" && dHub.address != ""
      && !EndpointMap.IsSwappedPeer(lHub.address) && !EndpointMap.IsSwappedPeer(dHub.address)
      && dHub.address !in lHub.cons && lHub.address !in dHub.cons
    }

    /** Both arms, and the unwinding of the first when the second is refused. */
    static method ArmBoth(lHub: Hub, dHub: Hub, listen: Endpoint, dial: Endpoint,
                          postListen: Post, postDial: Post, fate: Fate) returns (hr: Code)
      requires Linkable(lHub, dHub)
      modifies lHub`armed, lHub`cons, dHub`armed, dHub`cons
      ensures hr == ArmsCode(lHub.address, dHub.address, postListen, postDial, fate)
      ensures lHub.State() == ListenerAfter(old(lHub.State()), dHub.address, listen, postListen, postDial, fate)
      ensures dHub.State() == DialerAfter(old(dHub.State()), lHub.address, dial, postListen, postDial)
    {
      SelfIsEqual(lHub.address, dHub.address);
      SelfIsEqual(dHub.address, lHub.address);
      hide ClassifyPeer, ArmedWith, Retracted, EndpointMap.IsSwappedPeer;
      assert dHub.address in ArmedWith(lHub.State(), dHub.address, listen, true).cons by {
        ArmedHasCon(lHub.State(), dHub.address, listen, true);
      }
      var l, d := lHub.address, dHub.address;
      var hrListen := lHub.ArmResolved(Some(d), listen, true, postListen);
      if Failed(hrListen) { return hrListen; }
      var hrDial := dHub.ArmResolved(Some(l), dial, false, postDial);
      if Failed(hrDial) {
        var gone := lHub.CloseCon(d, fate);
        if !gone { return E_LINK_PARTIAL; }
        return hrDial;
      }
      return if hrListen == S_UNRELATED || hrDial == S_UNRELATED then S_UNRELATED else S_OK;
    }
  }
}
