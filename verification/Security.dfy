/**
 A secure hub's trust and enforcement (src/FacadeHub.cpp) and the pairing of two
 such hubs (SecureEdgeLocked, src/FacadeNetwork.cpp).  Files and the revocation
 list answer as they please, at every step.
 */
module Security {
  import opened Text

  type Addr = string
  /** One peer's public points; only their identity matters here. */
  type Keys = nat
  type KeyMap = map<Addr, Keys>

  /** The file system's answers to one WriteAllowList. */
  datatype Files = Files(unwritable: set<Addr>, moves: bool, loads: bool)

  /** A list of nobody leaves no file to move. */
  predicate Writes(trusted: KeyMap, f: Files) {
    trusted != map[] && trusted.Keys !! f.unwritable && f.moves && f.loads
  }

  /** AuthArm: the kernel's gate. */
  predicate GateOk(required: bool, identity: bool, loaded: KeyMap, revocation: bool) {
    required && identity && loaded != map[] && revocation
  }

  function Put(trusted: KeyMap, p: Addr, prev: Option<Keys>): KeyMap {
    if prev.Some? then trusted[p := prev.value] else trusted - {p}
  }

  datatype Code = S_OK | E_INVALIDARG | E_SECURITY

  /** The fixed part of a hub. */
  datatype Party = Party(address: Addr, keys: Keys, identity: bool)

  /** A hub's trusted set, the list its kernel has loaded, and whether it enforces. */
  datatype Posture = Posture(trusted: KeyMap, loaded: KeyMap, required: bool)

  /** Everything the environment answers to one TrustAndEnforce. */
  datatype Half = Half(files: Files, revocation: bool, undo: Files)

  predicate Trustworthy(h: Posture, identity: bool, p: Addr, rKeys: Keys, half: Half) {
    Writes(h.trusted[p := rKeys], half.files) && identity && half.revocation
  }

  /** The posture one UntrustPeer leaves. */
  function AfterUntrust(h: Posture, p: Addr, f: Files): Posture {
    var kept := h.trusted - {p};
    h.(trusted := kept, loaded := if Writes(kept, f) then kept else h.loaded)
  }

  /** The posture one TrustAndEnforce leaves. */
  function AfterTrust(h: Posture, identity: bool, p: Addr, rKeys: Keys, half: Half): Posture {
    var granted := h.trusted[p := rKeys];
    if !Writes(granted, half.files) then h
    else if identity && half.revocation then Posture(granted, granted, true)
    else Posture(h.trusted, if Writes(h.trusted, half.undo) then h.trusted else granted, h.trusted != map[])
  }

  class SecureHub {
    const address: Addr
    const keys: Keys
    const identity: bool
    var trusted: KeyMap
    var loaded: KeyMap
    var required: bool

    constructor (address: Addr, keys: Keys, identity: bool)
      ensures this.address == address && this.keys == keys && this.identity == identity
      ensures trusted == map[] && loaded == map[] && !required
    {
      this.address, this.keys, this.identity := address, keys, identity;
      trusted, loaded, required := map[], map[], false;
    }

    /** Built aside entry by entry, moved over, then loaded; the kernel keeps its old list when any of it fails. */
    method WriteAllowList(f: Files) returns (ok: bool)
      modifies this`loaded
      ensures ok <==> Writes(trusted, f)
      ensures ok <==> trusted != map[] && (forall p :: p in trusted ==> p !in f.unwritable) && f.moves && f.loads
      ensures loaded == if ok then trusted else old(loaded)
    {
      var made, temp, rest := false, map[], trusted.Keys;
      while rest != {}
        invariant rest <= trusted.Keys && (made <==> rest != trusted.Keys)
        invariant temp.Keys == trusted.Keys - rest && temp.Keys !! f.unwritable
        invariant forall p :: p in temp ==> temp[p] == trusted[p]
        decreases |rest|
      {
        var p :| p in rest;
        if p in f.unwritable { return false; }
        made, temp := true, temp[p := trusted[p]];
        rest := rest - {p};
      }
      if !made || !f.moves { return false; }
      assert temp == trusted;
      if !f.loads { return false; }
      loaded := temp;
      return true;
    }

    function Id(): Party { Party(address, keys, identity) }

    function State(): Posture
      reads this
    {
      Posture(trusted, loaded, required)
    }

    /** Success means enforced; failure restores the trusted set, values and all. */
    method TrustAndEnforce(p: Addr, rKeys: Keys, half: Half) returns (hr: Code)
      modifies this
      ensures hr == if p == "" then E_INVALIDARG
                    else if Trustworthy(old(State()), identity, p, rKeys, half) then S_OK else E_SECURITY
      ensures State() == if p == "" then old(State()) else AfterTrust(old(State()), identity, p, rKeys, half)
      ensures hr != S_OK ==> trusted == old(trusted)
      ensures hr == S_OK ==>
        && trusted == old(trusted)[p := rKeys] && loaded == trusted && required
        && GateOk(required, identity, loaded, half.revocation)
    {
      if p == "" { return E_INVALIDARG; }
      var first := trusted == map[];
      var prev := if p in trusted then Some(trusted[p]) else None;
      trusted := trusted[p := rKeys];
      var ok := WriteAllowList(half.files);
      if !ok {
        RestoreTrust(p, prev);
        return E_SECURITY;
      }
      required := true;
      if GateOk(required, identity, loaded, half.revocation) { return S_OK; }
      RestoreTrust(p, prev);
      assert trusted == old(trusted);
      var _ := WriteAllowList(half.undo);
      if first {
        required := false;
      }
      return E_SECURITY;
    }

    method RestoreTrust(p: Addr, prev: Option<Keys>)
      modifies this`trusted
      ensures trusted == Put(old(trusted), p, prev)
    {
      if prev.Some? {
        trusted := trusted[p := prev.value];
      } else {
        trusted := trusted - {p};
      }
    }

    /** Withdrawing the last peer never reaches the kernel's list: a list of nobody cannot be written. */
    method UntrustPeer(p: Addr, f: Files)
      modifies this`trusted, this`loaded
      ensures State() == if p == "" then old(State()) else AfterUntrust(old(State()), p, f)
      ensures old(trusted).Keys <= {p} ==> loaded == old(loaded)
    {
      if p == "" { return; }
      trusted := trusted - {p};
      var _ := WriteAllowList(f);
    }
  }

  /** Everything the environment answers to one SecureEdgeLocked; dir: the security directory is there. */
  datatype EdgeAnswers = EdgeAnswers(dir: bool, forA: Half, forB: Half, untrust: Files)

  predicate Begins(a: Party, b: Party, e: EdgeAnswers) { e.dir && a.identity && b.identity }

  predicate FirstPasses(ha: Posture, a: Party, b: Party, e: EdgeAnswers) {
    Begins(a, b, e) && Trustworthy(ha, a.identity, b.address, b.keys, e.forA)
  }

  predicate EdgePasses(ha: Posture, hb: Posture, a: Party, b: Party, e: EdgeAnswers) {
    FirstPasses(ha, a, b, e) && Trustworthy(hb, b.identity, a.address, a.keys, e.forB)
  }

  /** What SecureEdgeLocked leaves of the first hub. */
  function AfterEdgeA(ha: Posture, hb: Posture, a: Party, b: Party, e: EdgeAnswers): Posture {
    if !Begins(a, b, e) then ha
    else
      var granted := AfterTrust(ha, a.identity, b.address, b.keys, e.forA);
      if !FirstPasses(ha, a, b, e) || EdgePasses(ha, hb, a, b, e) || b.address in ha.trusted then granted
      else AfterUntrust(granted, b.address, e.untrust)
  }

  /** And of the second. */
  function AfterEdgeB(ha: Posture, hb: Posture, a: Party, b: Party, e: EdgeAnswers): Posture {
    if FirstPasses(ha, a, b, e) then AfterTrust(hb, b.identity, a.address, a.keys, e.forB) else hb
  }

  /**
   Each hub trusts the other and enforces, or each trusts exactly the names it
   did before.  A failed call still leaves a mark where the first half passed:
   the first hub enforces from then on, and a name it already trusted has the
   new keys.
   */
  method SecureEdgeLocked(a: SecureHub, b: SecureHub, e: EdgeAnswers) returns (hr: Code)
    requires a != b && a.address != b.address && a.address != "" && b.address != ""
    modifies a, b
    ensures hr == if EdgePasses(old(a.State()), old(b.State()), a.Id(), b.Id(), e) then S_OK else E_SECURITY
    ensures a.State() == AfterEdgeA(old(a.State()), old(b.State()), a.Id(), b.Id(), e)
    ensures b.State() == AfterEdgeB(old(a.State()), old(b.State()), a.Id(), b.Id(), e)
    ensures hr == S_OK ==>
      && a.trusted == old(a.trusted)[b.address := b.keys] && a.loaded == a.trusted && a.required
      && b.trusted == old(b.trusted)[a.address := a.keys] && b.loaded == b.trusted && b.required
    ensures hr != S_OK ==> a.trusted.Keys == old(a.trusted).Keys && b.trusted == old(b.trusted)
    ensures hr != S_OK ==>
      a.trusted == if FirstPasses(old(a.State()), a.Id(), b.Id(), e) && b.address in old(a.trusted)
                   then old(a.trusted)[b.address := b.keys] else old(a.trusted)
    ensures FirstPasses(old(a.State()), a.Id(), b.Id(), e) ==> a.required
    ensures hr != S_OK && old(a.trusted) != map[] && old(a.required) ==> a.required
    ensures hr != S_OK && old(b.trusted) != map[] && old(b.required) ==> b.required
  {
    if !e.dir || !a.identity || !b.identity { return E_SECURITY; }
    var alreadyTrusted := b.address in a.trusted;
    var hubs, halves, i := [a, b], [e.forA, e.forB], 0;
    while i < 2
      invariant 0 <= i <= 2
      invariant i == 0 ==> unchanged(a)
      invariant i < 2 ==> unchanged(b)
      invariant i > 0 ==> FirstPasses(old(a.State()), a.Id(), b.Id(), e)
      invariant i > 0 ==> a.State() == AfterTrust(old(a.State()), a.identity, b.address, b.keys, e.forA)
      invariant i > 1 ==> EdgePasses(old(a.State()), old(b.State()), a.Id(), b.Id(), e)
      invariant i > 1 ==> b.State() == AfterTrust(old(b.State()), b.identity, a.address, a.keys, e.forB)
    {
      var self, peer, half := hubs[i], hubs[1 - i], halves[i];
      var hrTrust := self.TrustAndEnforce(peer.address, peer.keys, half);
      if hrTrust != S_OK {
        if i == 1 && !alreadyTrusted {
          a.UntrustPeer(b.address, e.untrust);
          assert a.trusted == old(a.trusted);
        }
        return E_SECURITY;
      }
      i := i + 1;
    }
    return S_OK;
  }

  /** A refused trust that leaves nothing behind: nothing was written, or what it rewrote is what it found. */
  predicate LeavesNothing(h: Posture, p: Addr, rKeys: Keys, half: Half) {
    || !Writes(h.trusted[p := rKeys], half.files)
    || (h.required == (h.trusted != map[])
        && h.loaded == if Writes(h.trusted, half.undo) then h.trusted else h.trusted[p := rKeys])
  }

  /** The first hub already enforces, and either had these very keys in force or gets its list back. */
  predicate FirstLeavesNothing(h: Posture, p: Addr, rKeys: Keys, untrust: Files) {
    && h.required
    && (if p in h.trusted then h.trusted[p] == rKeys && h.loaded == h.trusted
        else h.loaded == if Writes(h.trusted, untrust) then h.trusted else h.trusted[p := rKeys])
  }

  lemma RefusedTrustChangesNothingIff(h: Posture, identity: bool, p: Addr, rKeys: Keys, half: Half)
    requires identity && !Trustworthy(h, identity, p, rKeys, half)
    ensures AfterTrust(h, identity, p, rKeys, half) == h <==> LeavesNothing(h, p, rKeys, half)
  {
  }

  /** Exactly when a failed edge leaves both hubs as it found them. */
  lemma FailedEdgeChangesNothingIff(ha: Posture, hb: Posture, a: Party, b: Party, e: EdgeAnswers)
    requires !EdgePasses(ha, hb, a, b, e)
    ensures (AfterEdgeA(ha, hb, a, b, e) == ha && AfterEdgeB(ha, hb, a, b, e) == hb) <==>
            (!Begins(a, b, e)
             || (if FirstPasses(ha, a, b, e)
                 then
                   && FirstLeavesNothing(ha, b.address, b.keys, e.untrust)
                   && LeavesNothing(hb, a.address, a.keys, e.forB)
                 else LeavesNothing(ha, b.address, b.keys, e.forA)))
  {
    if Begins(a, b, e) {
      if FirstPasses(ha, a, b, e) {
        RefusedTrustChangesNothingIff(hb, b.identity, a.address, a.keys, e.forB);
        FirstPassedIff(ha, hb, a, b, e);
      } else {
        RefusedTrustChangesNothingIff(ha, a.identity, b.address, b.keys, e.forA);
      }
    }
  }

  lemma FirstPassedIff(ha: Posture, hb: Posture, a: Party, b: Party, e: EdgeAnswers)
    requires FirstPasses(ha, a, b, e) && !EdgePasses(ha, hb, a, b, e)
    ensures AfterEdgeA(ha, hb, a, b, e) == ha <==> FirstLeavesNothing(ha, b.address, b.keys, e.untrust)
  {
    var granted := ha.trusted[b.address := b.keys];
    if b.address in ha.trusted {
      assert granted == ha.trusted <==> ha.trusted[b.address] == b.keys;
    } else {
      assert granted - {b.address} == ha.trusted;
    }
  }

  /** Two fresh hubs, the second unable to write its list: the first is left enforcing for a peer it does not trust. */
  lemma FailedEdgeWitness()
    ensures var good := Half(Files({}, true, true), true, Files({}, true, true));
      var e := EdgeAnswers(true, good, good.(files := Files({}, false, true)), Files({}, true, true));
      var a, b, blank := Party("A", 1, true), Party("B", 2, true), Posture(map[], map[], false);
      && !EdgePasses(blank, blank, a, b, e)
      && AfterEdgeA(blank, blank, a, b, e) == Posture(map[], map["B" := 2], true)
      && AfterEdgeB(blank, blank, a, b, e) == blank
  {
    var granted: KeyMap := map["B" := 2];
    assert "B" in granted;
    assert granted - {"B"} == map[];
  }

  /** A first hub that trusted the second under other keys is left with the new ones. */
  lemma FailedEdgeKeepsNewKeys()
    ensures var good := Half(Files({}, true, true), true, Files({}, true, true));
      var e := EdgeAnswers(true, good, good.(files := Files({}, false, true)), Files({}, true, true));
      var a, b, blank := Party("A", 1, true), Party("B", 2, true), Posture(map[], map[], false);
      var had := Posture(map["B" := 7], map["B" := 7], true);
      && !EdgePasses(had, blank, a, b, e)
      && AfterEdgeA(had, blank, a, b, e) == Posture(map["B" := 2], map["B" := 2], true)
  {
    var granted: KeyMap := map["B" := 7]["B" := 2];
    assert "B" in granted;
    assert granted == map["B" := 2];
  }

  // ---------------------------------------------------------------------
  // One hub over every run of serialised arming calls

  /** Where the arming call in progress stands. */
  datatype Call =
    | Idle
    | Granted(p: Addr, prev: Option<Keys>, first: bool)    // in the trusted set, list not written
    | Listed(p: Addr, prev: Option<Keys>, first: bool)     // written and loaded
    | Enforcing(p: Addr, prev: Option<Keys>, first: bool)  // RequireAuth(true) done
    | Trusted(p: Addr, prev: Option<Keys>)                 // the gate said yes: the caller may arm
    | Refused(p: Addr, prev: Option<Keys>, first: bool)    // the gate said no
    | Undone(first: bool)                                  // trust restored
    | Closing(first: bool)                                 // list rewritten, or not
    | Withdrawn                                            // the other hub refused: peer withdrawn

  /** cons, patterns: the named peers, and the patterns, with a connection this hub armed. */
  datatype System = System(
    trusted: KeyMap, loaded: KeyMap, required: bool, identity: bool, cons: set<Addr>, patterns: set<Addr>, call: Call)

  datatype Step =
    | Begin(p: Addr, rKeys: Keys)
    | Write(f: Files)
    | Require
    | Gate(revocation: bool)
    | Restore
    | Rewrite(f: Files)
    | Settle
    | Arm(accepted: bool)
    | Withdraw
    | ArmPattern(p: Addr, revocation: bool, accepted: bool)
    | ConGone(p: Addr)

  predicate Initial(s: System) {
    s.trusted == map[] && s.loaded == map[] && !s.required && s.cons == {} && s.patterns == {} && s.call == Idle
  }

  predicate Enabled(s: System, step: Step) {
    match step
    case Begin(p, _) => s.call == Idle && p != ""
    case Write(_) => s.call.Granted?
    case Require => s.call.Listed?
    case Gate(_) => s.call.Enforcing?
    case Restore => s.call.Refused?
    case Rewrite(_) => s.call.Undone? || s.call.Withdrawn?
    case Settle => s.call.Closing?
    case Arm(_) => s.call.Trusted?
    // Only for a peer this very call granted.
    case Withdraw => s.call.Trusted? && s.call.prev == None
    // AdmitPatternPeer asks the gate as it stands and changes nothing.
    case ArmPattern(_, revocation, _) => s.call == Idle && GateOk(s.required, s.identity, s.loaded, revocation)
    case ConGone(_) => true
  }

  function Do(s: System, step: Step): System
    requires Enabled(s, step)
  {
    match step
    case Begin(p, rKeys) =>
      s.(trusted := s.trusted[p := rKeys],
         call := Granted(p, if p in s.trusted then Some(s.trusted[p]) else None, s.trusted == map[]))
    case Write(f) =>
      if Writes(s.trusted, f) then s.(loaded := s.trusted, call := Listed(s.call.p, s.call.prev, s.call.first))
      else s.(trusted := Put(s.trusted, s.call.p, s.call.prev), call := Idle)
    case Require => s.(required := true, call := Enforcing(s.call.p, s.call.prev, s.call.first))
    case Gate(revocation) =>
      if GateOk(s.required, s.identity, s.loaded, revocation) then s.(call := Trusted(s.call.p, s.call.prev))
      else s.(call := Refused(s.call.p, s.call.prev, s.call.first))
    case Restore => s.(trusted := Put(s.trusted, s.call.p, s.call.prev), call := Undone(s.call.first))
    case Rewrite(f) =>
      s.(loaded := if Writes(s.trusted, f) then s.trusted else s.loaded,
         call := if s.call.Undone? then Closing(s.call.first) else Idle)
    case Settle => s.(required := s.required && !s.call.first, call := Idle)
    case Arm(accepted) => s.(cons := if accepted then s.cons + {s.call.p} else s.cons, call := Idle)
    case Withdraw => s.(trusted := s.trusted - {s.call.p}, call := Withdrawn)
    case ArmPattern(p, _, accepted) => s.(patterns := if accepted then s.patterns + {p} else s.patterns)
    case ConGone(p) => s.(cons := s.cons - {p}, patterns := s.patterns - {p})
  }

  ghost predicate Run(s: System, steps: seq<Step>, t: System)
    decreases |steps|
  {
    if steps == [] then s == t
    else Enabled(s, steps[0]) && Run(Do(s, steps[0]), steps[1..], t)
  }

  /** Every connection the hub armed is to a peer it trusts, whose key the kernel has loaded, on a hub that enforces. */
  ghost predicate Guarded(s: System) {
    && s.cons <= s.trusted.Keys && s.cons <= s.loaded.Keys
    && (s.cons != {} ==> s.required && s.identity)
  }

  predicate Enforces(s: System) { s.required && s.loaded != map[] }

  /** What a call in progress knows about itself; between calls, a hub that trusts anyone enforces. */
  predicate CallOk(s: System) {
    match s.call
    case Idle => s.trusted != map[] ==> Enforces(s)
    case Granted(p, prev, first) => OwnPeer(s, p, prev, first)
    case Listed(p, prev, first) => OwnPeer(s, p, prev, first) && s.loaded == s.trusted
    case Enforcing(p, prev, first) => OwnPeer(s, p, prev, first) && s.loaded == s.trusted && s.required
    case Trusted(p, prev) => OwnPeer(s, p, prev, false) && s.loaded == s.trusted && s.identity
    case Refused(p, prev, first) => OwnPeer(s, p, prev, first)
    case Undone(first) => if first then s.cons == {} && s.trusted == map[] else Enforces(s)
    case Closing(first) => if first then s.cons == {} && s.trusted == map[] else Enforces(s)
    case Withdrawn => Enforces(s)
  }

  predicate OwnPeer(s: System, p: Addr, prev: Option<Keys>, first: bool) {
    && p in s.trusted && (prev == None ==> p !in s.cons)
    && (if first then s.cons == {} && prev == None && s.trusted.Keys == {p} else Enforces(s))
  }

  ghost predicate Inv(s: System) { Guarded(s) && CallOk(s) }

  lemma StepKeepsInv(s: System, step: Step)
    requires Inv(s) && Enabled(s, step)
    ensures Inv(Do(s, step))
  {
    match step
    case Begin(p, rKeys) => assert s.trusted == map[] ==> s.trusted[p := rKeys].Keys == {p};
    case Write(_) => assert s.trusted.Keys == {s.call.p} ==> s.trusted - {s.call.p} == map[];
    case Restore => assert s.trusted.Keys == {s.call.p} ==> s.trusted - {s.call.p} == map[];
    case _ =>
  }

  lemma {:induction false} RunKeepsInv(s: System, steps: seq<Step>, t: System)
    requires Inv(s) && Run(s, steps, t)
    ensures Inv(t)
    decreases |steps|
  {
    hide Inv, Enabled, Do;
    if steps != [] {
      StepKeepsInv(s, steps[0]);
      RunKeepsInv(Do(s, steps[0]), steps[1..], t);
    }
  }

  /** At every moment of every run, in the middle of a call too, whatever fails. */
  lemma ArmedConsAreEnforced(s: System, steps: seq<Step>, t: System, p: Addr)
    requires Initial(s) && Run(s, steps, t) && p in t.cons
    ensures p in t.trusted && p in t.loaded && t.required && t.identity
  {
    RunKeepsInv(s, steps, t);
  }

  /** Between calls a hub that trusts anyone enforces, whether its connections were armed by name or by pattern. */
  lemma TrustMeansEnforcement(s: System, steps: seq<Step>, t: System)
    requires Initial(s) && Run(s, steps, t) && t.call == Idle && t.trusted != map[]
    ensures t.required && t.loaded != map[]
  {
    RunKeepsInv(s, steps, t);
  }

  /** When a call may arm, its peer is listed, in force, and the gate has just said yes. */
  lemma ArmsOnlyWhenEnforced(s: System, steps: seq<Step>, t: System)
    requires Initial(s) && Run(s, steps, t) && t.call.Trusted?
    ensures t.call.p in t.trusted && t.loaded == t.trusted && t.required && t.identity
  {
    RunKeepsInv(s, steps, t);
  }

  /** Only the settling of a first trust the gate refused ends enforcement, and then no named peer is armed. */
  lemma EnforcementEndsOnlyUnarmed(s: System, steps: seq<Step>, t: System, step: Step)
    requires Initial(s) && Run(s, steps, t) && Enabled(t, step)
    ensures t.required && !Do(t, step).required <==> t.required && step == Settle && t.call.first
    ensures t.required && !Do(t, step).required ==> t.cons == {}
  {
    RunKeepsInv(s, steps, t);
  }

  // ---------------------------------------------------------------------
  // The two descriptions agree

  lemma TrustEndsEnforcementIff(h: Posture, identity: bool, p: Addr, rKeys: Keys, half: Half)
    ensures h.required && !AfterTrust(h, identity, p, rKeys, half).required <==>
            h.required && h.trusted == map[] && Writes(map[p := rKeys], half.files) && !(identity && half.revocation)
  {
  }

  function PostureOf(s: System): Posture { Posture(s.trusted, s.loaded, s.required) }

  /** Undisturbed, the steps of a call do what TrustAndEnforce does, and it ends where its caller may arm, or idle. */
  lemma QuietCall(s: System, p: Addr, rKeys: Keys, half: Half) returns (steps: seq<Step>, t: System)
    requires s.call == Idle && p != ""
    ensures Run(s, steps, t) && PostureOf(t) == AfterTrust(PostureOf(s), s.identity, p, rKeys, half)
    ensures t.cons == s.cons && t.patterns == s.patterns
    ensures t.identity == s.identity
    ensures t.call == if !Trustworthy(PostureOf(s), s.identity, p, rKeys, half) then Idle
                      else Call.Trusted(p, if p in s.trusted then Some(s.trusted[p]) else None)
  {
    var prev := if p in s.trusted then Some(s.trusted[p]) else None;
    assert Put(s.trusted[p := rKeys], p, prev) == s.trusted;
    if !Writes(s.trusted[p := rKeys], half.files) {
      var s1 := Do(s, Begin(p, rKeys));
      t := Do(s1, Write(half.files));
      steps := [Begin(p, rKeys)] + [Write(half.files)];
      RunOne(s1, Write(half.files), [], t);
      RunOne(s, Begin(p, rKeys), [Write(half.files)], t);
      return;
    }
    var u;
    steps, u := QuietGate(s, p, rKeys, half);
    t := u;
    if u.call.Refused? {
      var undo;
      undo, t := QuietUndo(u, half.undo);
      RunAppend(s, steps, u, undo, t);
      steps := steps + undo;
    }
  }

  lemma QuietGate(s: System, p: Addr, rKeys: Keys, half: Half) returns (steps: seq<Step>, t: System)
    requires s.call == Idle && p != "" && Writes(s.trusted[p := rKeys], half.files)
    ensures Run(s, steps, t)
    ensures var prev := if p in s.trusted then Some(s.trusted[p]) else None;
      t == s.(trusted := s.trusted[p := rKeys], loaded := s.trusted[p := rKeys], required := true,
              call := if s.identity && half.revocation then Call.Trusted(p, prev)
                      else Refused(p, prev, s.trusted == map[]))
  {
    var s1 := Do(s, Begin(p, rKeys));
    var s2 := Do(s1, Write(half.files));
    var s3 := Do(s2, Require);
    t := Do(s3, Gate(half.revocation));
    RunOne(s3, Gate(half.revocation), [], t);
    hide Do, Enabled;
    RunOne(s2, Require, [Gate(half.revocation)], t);
    var after := [Require] + [Gate(half.revocation)];
    RunOne(s1, Write(half.files), after, t);
    RunOne(s, Begin(p, rKeys), [Write(half.files)] + after, t);
    steps := [Begin(p, rKeys)] + ([Write(half.files)] + after);
  }

  lemma QuietUndo(s: System, undo: Files) returns (steps: seq<Step>, t: System)
    requires s.call.Refused?
    ensures Run(s, steps, t)
    ensures var back := Put(s.trusted, s.call.p, s.call.prev);
      t == s.(trusted := back, loaded := if Writes(back, undo) then back else s.loaded,
              required := s.required && !s.call.first, call := Idle)
  {
    var s1 := Do(s, Restore);
    var s2 := Do(s1, Rewrite(undo));
    t := Do(s2, Settle);
    RunOne(s2, Settle, [], t);
    RunOne(s1, Rewrite(undo), [Settle], t);
    RunOne(s, Restore, [Rewrite(undo)] + [Settle], t);
    steps := [Restore] + ([Rewrite(undo)] + [Settle]);
  }

  lemma RunOne(s: System, step: Step, rest: seq<Step>, t: System)
    requires Enabled(s, step) && Run(Do(s, step), rest, t)
    ensures Run(s, [step] + rest, t)
  {
    hide Do, Enabled;
    assert ([step] + rest)[1..] == rest;
  }

  // ---------------------------------------------------------------------
  // Patterns, which are admitted on the gate's answer of the moment

  /** Enforcement is anchored by a peer that is trusted whatever becomes of the call in progress. */
  predicate Anchored(s: System) {
    && s.required
    && match s.call
       case Granted(p, prev, first) => !first && Put(s.trusted, p, prev) != map[]
       case Listed(p, prev, first) => !first && Put(s.trusted, p, prev) != map[]
       case Enforcing(p, prev, first) => !first && Put(s.trusted, p, prev) != map[]
       case Refused(p, prev, first) => !first && Put(s.trusted, p, prev) != map[]
       case Trusted(p, prev) => p in s.trusted && Put(s.trusted, p, prev) != map[]
       case Undone(first) => !first && s.trusted != map[]
       case Closing(first) => !first && s.trusted != map[]
       case Withdrawn => s.trusted != map[]
       case Idle => s.trusted != map[]
  }

  lemma StepKeepsAnchor(s: System, step: Step)
    requires Anchored(s) && Inv(s) && Enabled(s, step)
    ensures Anchored(Do(s, step))
  {
    hide Writes, GateOk, Guarded;
    match step
    case Begin(p, rKeys) =>
      assert p in s.trusted ==> p in Put(s.trusted[p := rKeys], p, Some(s.trusted[p]));
      assert p !in s.trusted ==> s.trusted[p := rKeys] - {p} == s.trusted;
    case _ =>
  }

  lemma {:induction false} RunKeepsAnchor(s: System, steps: seq<Step>, t: System)
    requires Anchored(s) && Inv(s) && Run(s, steps, t)
    ensures Anchored(t)
    decreases |steps|
  {
    hide Anchored, Inv, Enabled, Do;
    if steps != [] {
      StepKeepsAnchor(s, steps[0]);
      StepKeepsInv(s, steps[0]);
      RunKeepsAnchor(Do(s, steps[0]), steps[1..], t);
    }
  }

  /** Is the pattern under enforcement as long as its connection lasts? */
  ghost predicate StaysEnforced(s: System, p: Addr) {
    forall more, u :: Run(s, more, u) && p in u.patterns ==> u.required
  }

  /**
   A pattern armed between calls stays under enforcement through every
   continuation exactly when the hub trusts someone at that moment.
   */
  lemma PatternStaysEnforcedIff(s: System, steps: seq<Step>, t: System, p: Addr, revocation: bool)
    requires Initial(s) && Run(s, steps, t) && Enabled(t, ArmPattern(p, revocation, true))
    ensures StaysEnforced(Do(t, ArmPattern(p, revocation, true)), p) <==> t.trusted != map[]
  {
    assert Inv(s);
    hide Run, Inv, Anchored;
    RunKeepsInv(s, steps, t);
    var z := Do(t, ArmPattern(p, revocation, true));
    StepKeepsInv(t, ArmPattern(p, revocation, true));
    if t.trusted != map[] {
      forall more, u | Run(z, more, u) && p in u.patterns ensures u.required {
        AnchoredWhenIdle(z);
        RunKeepsAnchor(z, more, u);
        AnchoredIsRequired(u);
      }
    } else {
      var more, u := FirstTrustRefused(z);
      assert Run(z, more, u) && p in u.patterns && !u.required;
    }
  }

  lemma AnchoredWhenIdle(s: System)
    requires s.call == Idle && s.required && s.trusted != map[]
    ensures Anchored(s)
  {
  }

  lemma AnchoredIsRequired(s: System)
    requires Anchored(s)
    ensures s.required
  {
  }

  /** A first trust that is written and then refused by the gate. */
  lemma FirstTrustRefused(s: System) returns (steps: seq<Step>, t: System)
    requires s.call == Idle && s.trusted == map[]
    ensures Run(s, steps, t) && t.call == Idle && !t.required && t.patterns == s.patterns
  {
    var half := Half(Files({}, true, true), false, Files({}, true, true));
    assert "C" in s.trusted["C" := 3];
    steps, t := QuietCall(s, "C", 3, half);
  }

  /** And such a moment is reached: a withdrawal may leave a hub that enforces, with a list, and trusts nobody. */
  lemma PatternUnenforcedWitness(s: System) returns (steps: seq<Step>, t: System)
    requires Initial(s) && s.identity
    ensures Run(s, steps, t) && t.call == Idle && "Demo.*" in t.patterns && !t.required
  {
    var good := Half(Files({}, true, true), true, Files({}, true, true));
    assert "B" in s.trusted["B" := 2];
    var first, s1 := QuietCall(s, "B", 2, good);
    var middle, s2 := WithdrawThenAdmit(s1);
    var last, s3 := FirstTrustRefused(s2);
    t := s3;
    steps := first + (middle + last);
    RunAppend(s1, middle, s2, last, t);
    RunAppend(s, first, s1, middle + last, t);
  }

  lemma WithdrawThenAdmit(s: System) returns (steps: seq<Step>, t: System)
    requires s.call == Call.Trusted("B", None) && s.trusted == map["B" := 2] == s.loaded && s.required && s.identity
    ensures Run(s, steps, t)
    ensures t == s.(trusted := map[], call := Idle, patterns := s.patterns + {"Demo.*"})
  {
    assert "B" in s.loaded;
    assert s.trusted - {"B"} == map[];
    var files := Files({}, true, true);
    var s1 := Do(s, Withdraw);
    var s2 := Do(s1, Rewrite(files));
    var admit := ArmPattern("Demo.*", true, true);
    t := Do(s2, admit);
    RunOne(s2, admit, [], t);
    hide Do, Enabled;
    RunOne(s1, Rewrite(files), [admit], t);
    RunOne(s, Withdraw, [Rewrite(files)] + [admit], t);
    steps := [Withdraw] + ([Rewrite(files)] + [admit]);
  }

  lemma {:induction false} RunAppend(s: System, a: seq<Step>, t: System, b: seq<Step>, u: System)
    requires Run(s, a, t) && Run(t, b, u)
    ensures Run(s, a + b, u)
    decreases |a|
  {
    hide Do, Enabled;
    if a == [] {
      assert a + b == b;
    } else {
      RunAppend(Do(s, a[0]), a[1..], t, b, u);
      assert (a + b)[1..] == a[1..] + b;
    }
  }
}
