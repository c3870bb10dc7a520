/**
 Dotted addresses (src/FacadeEndpoint.cpp): how a peer sits in the address tree,
 and the Dmx service name two hubs derive from their addresses.
 */
module Address {
  import opened Text
  import Endpoint

  datatype Relation = Self | Descendant | Ancestor | Unrelated | Pattern

  /** Prefix on a dot boundary. */
  predicate IsBelow(parent: string, child: string) {
    && parent != ""
    && |child| > |parent| && child[..|parent|] == parent && child[|parent|] == '.'
  }

  predicate IsPattern(peer: string) {
    exists i :: 0 <= i < |peer| && peer[i] in {'*', '?', '#', '|', '<', '>', ','}
  }

  function ClassifyPeer(address: string, peer: string): Relation {
    if address == "" || peer == "" || IsPattern(peer) then Pattern
    else if address == peer then Self
    else if IsBelow(address, peer) then Descendant
    else if IsBelow(peer, address) then Ancestor
    else Unrelated
  }

  /** The dot-separated components of an address. */
  function Components(s: string): (r: seq<string>)
    ensures |r| >= 1
  {
    var dot := Find(s, '.');
    if dot < 0 then [s]
    else [s[..dot]] + Components(s[dot + 1..])
  }

  lemma ComponentsCons(head: string, rest: string)
    requires '.' !in head
    ensures Components(head + "." + rest) == [head] + Components(rest)
  {
    var s := head + "." + rest;
    FindIs(s, '.', |head|);
    assert s[..|head|] == head && s[|head| + 1..] == rest;
  }

  /** An address without a dot is its one component; any other comes apart at its first dot. */
  lemma ComponentsOfOne(s: string)
    requires '.' !in s
    ensures Components(s) == [s]
  {
  }

  lemma FirstDot(s: string) returns (head: string, rest: string)
    requires '.' in s
    ensures '.' !in head && s == head + "." + rest
  {
    var dot := Find(s, '.');
    head, rest := s[..dot], s[dot + 1..];
  }

  lemma {:induction false} ComponentsJoin(a: string, b: string)
    ensures Components(a + "." + b) == Components(a) + Components(b)
    decreases |a|
  {
    hide Components;
    if '.' !in a {
      ComponentsCons(a, b);
      ComponentsOfOne(a);
    } else {
      var head, rest := FirstDot(a);
      ComponentsCons(head, rest);
      ComponentsCons(head, rest + "." + b);
      ComponentsJoin(rest, b);
      DotsAssociate(head, rest, b);
      assert [head] + (Components(rest) + Components(b)) == ([head] + Components(rest)) + Components(b);
    }
  }

  lemma DotsAssociate(a: string, b: string, c: string)
    ensures a + "." + (b + "." + c) == a + "." + b + "." + c
  {
  }

  function Join(parts: seq<string>): string
    requires |parts| >= 1
  {
    if |parts| == 1 then parts[0] else parts[0] + "." + Join(parts[1..])
  }

  lemma JoinCons(head: string, parts: seq<string>)
    requires |parts| >= 1
    ensures Join([head] + parts) == head + "." + Join(parts)
  {
    assert ([head] + parts)[1..] == parts;
  }

  lemma {:induction false} JoinOfComponents(s: string)
    ensures Join(Components(s)) == s
    decreases |s|
  {
    hide Components;
    if '.' !in s {
      ComponentsOfOne(s);
    } else {
      var head, rest := FirstDot(s);
      JoinOfComponents(rest);
      JoinCons(head, Components(rest));
      ComponentsCons(head, rest);
    }
  }

  lemma {:induction false} JoinAppend(a: seq<string>, b: seq<string>)
    requires |a| >= 1 && |b| >= 1
    ensures Join(a + b) == Join(a) + "." + Join(b)
  {
    assert (a + b)[1..] == a[1..] + b;
    if |a| > 1 {
      JoinAppend(a[1..], b);
      assert Join(a + b) == a[0] + "." + (Join(a[1..]) + "." + Join(b));
    } else {
      assert a[1..] + b == b;
    }
  }

  predicate ProperPrefix(a: seq<string>, b: seq<string>) { |a| < |b| && a == b[..|a|] }

  lemma BelowIsPrefix(parent: string, child: string)
    requires IsBelow(parent, child)
    ensures ProperPrefix(Components(parent), Components(child))
  {
    hide Components;
    var rest := child[|parent| + 1..];
    assert child == parent + "." + rest;
    ComponentsJoin(parent, rest);
  }

  lemma PrefixIsBelow(parent: string, child: string)
    requires parent != "" && ProperPrefix(Components(parent), Components(child))
    ensures IsBelow(parent, child)
  {
    hide Components, Join;
    var p, c := Components(parent), Components(child);
    assert c == p + c[|p|..];
    JoinAppend(p, c[|p|..]);
    JoinOfComponents(parent);
    JoinOfComponents(child);
    assert child == parent + "." + Join(c[|p|..]);
  }

  /** Below in the tree is proper prefix on components. */
  lemma BelowIffPrefix(parent: string, child: string)
    ensures IsBelow(parent, child) <==> parent != "" && ProperPrefix(Components(parent), Components(child))
  {
    hide Components, ProperPrefix;
    if IsBelow(parent, child) { BelowIsPrefix(parent, child); }
    if parent != "" && ProperPrefix(Components(parent), Components(child)) { PrefixIsBelow(parent, child); }
  }

  /** A strict order, so no two hubs are each below the other. */
  lemma BelowIsStrictOrder(a: string, b: string, c: string)
    ensures !IsBelow(a, a)
    ensures IsBelow(a, b) ==> !IsBelow(b, a)
    ensures IsBelow(a, b) && IsBelow(b, c) ==> IsBelow(a, c)
  {
    if IsBelow(a, b) && IsBelow(b, c) {
      assert c[..|a|] == c[..|b|][..|a|];
    }
  }

  /**
   Nothing is concluded of an empty address or of a peer that holds a pattern
   character; any other peer is itself, below, above or beside, as components say.
   */
  lemma RelationIff(address: string, peer: string)
    ensures ClassifyPeer(address, peer) == Pattern
       <==> address == "" || peer == "" || exists c :: c in "*?#|<>," && c in peer
    ensures ClassifyPeer(address, peer) != Pattern ==>
      && (ClassifyPeer(address, peer) == Self <==> address == peer)
      && (ClassifyPeer(address, peer) == Descendant <==> ProperPrefix(Components(address), Components(peer)))
      && (ClassifyPeer(address, peer) == Ancestor <==> ProperPrefix(Components(peer), Components(address)))
  {
    hide Components;
    assert IsPattern(peer) <==> exists c :: c in "*?#|<>," && c in peer by {
      forall i | 0 <= i < |peer| && peer[i] in {'*', '?', '#', '|', '<', '>', ','} ensures peer[i] in "*?#|<>," {
        assert var s := "*?#|<>,"; peer[i] in [s[0], s[1], s[2], s[3], s[4], s[5], s[6]];
      }
    }
    BelowIffPrefix(address, peer);
    BelowIffPrefix(peer, address);
    BelowIsStrictOrder(address, peer, address);
  }

  /** Two addresses that are not patterns see each other from opposite sides. */
  lemma RelationMirrors(a: string, b: string)
    requires a != "" && b != "" && !IsPattern(a) && !IsPattern(b)
    ensures ClassifyPeer(a, b) == Self <==> a == b
    ensures ClassifyPeer(a, b) == Descendant <==> ProperPrefix(Components(a), Components(b))
    ensures ClassifyPeer(a, b) == Ancestor <==> ProperPrefix(Components(b), Components(a))
    ensures ClassifyPeer(b, a) == match ClassifyPeer(a, b) {
        case Descendant => Ancestor case Ancestor => Descendant case other => other
      }
  {
    BelowIffPrefix(a, b);
    BelowIffPrefix(b, a);
    BelowIsStrictOrder(a, b, a);
    assert !ProperPrefix(Components(a), Components(a));
  }

  // ---------------------------------------------------------------------
  // The derived Dmx service

  function DeriveDmxService(listener: string, dialer: string): string {
    "P2PF|" + listener + "|" + dialer
  }

  /** The name says which edge it is for, as long as no listener's address holds a '|'. */
  lemma DerivedNameInjective(l1: string, d1: string, l2: string, d2: string)
    requires '|' !in l1 && '|' !in l2
    requires DeriveDmxService(l1, d1) == DeriveDmxService(l2, d2)
    ensures l1 == l2 && d1 == d2
  {
    var t1, t2 := l1 + "|" + d1, l2 + "|" + d2;
    assert "P2PF|" + t1 == DeriveDmxService(l1, d1) && "P2PF|" + t2 == DeriveDmxService(l2, d2);
    assert t1 == ("P2PF|" + t1)[5..] && t2 == ("P2PF|" + t2)[5..];
    FindIs(t1, '|', |l1|);
    FindIs(t2, '|', |l2|);
    assert t1[..|l1|] == l1 && t2[..|l2|] == l2;
    assert t1[|l1| + 1..] == d1 && t2[|l2| + 1..] == d2;
  }

  /**
   An edge shares its derived name with another exactly when a '|' in one of its
   two addresses can end a listener or begin a dialer that is not empty.
   */
  lemma DerivedNameSharedIff(l: string, d: string)
    requires l != "" && d != ""
    ensures (exists l2, d2 :: l2 != "" && d2 != "" && (l2 != l || d2 != d)
                              && DeriveDmxService(l2, d2) == DeriveDmxService(l, d))
       <==> '|' in l[1..] || '|' in d[..|d| - 1]
  {
    if '|' in l[1..] {
      var i :| 1 <= i < |l| && l[i] == '|';
      assert l == l[..i] + "|" + l[i + 1..];
      assert DeriveDmxService(l[..i], l[i + 1..] + "|" + d) == DeriveDmxService(l, d);
    } else if '|' in d[..|d| - 1] {
      var i :| 0 <= i < |d| - 1 && d[i] == '|';
      assert d == d[..i] + "|" + d[i + 1..];
      assert DeriveDmxService(l + "|" + d[..i], d[i + 1..]) == DeriveDmxService(l, d);
    } else {
      forall l2, d2 | l2 != "" && d2 != "" && DeriveDmxService(l2, d2) == DeriveDmxService(l, d)
        ensures l2 == l && d2 == d
      {
        InnerBarFreeNameIsOwn(l, d, l2, d2);
      }
    }
  }

  lemma InnerBarFreeNameIsOwn(l: string, d: string, l2: string, d2: string)
    requires l != "" && d != "" && l2 != "" && d2 != ""
    requires '|' !in l[1..] && '|' !in d[..|d| - 1] && DeriveDmxService(l2, d2) == DeriveDmxService(l, d)
    ensures l2 == l && d2 == d
  {
    var name := DeriveDmxService(l, d);
    forall i | 6 <= i < 5 + |l| ensures name[i] != '|' { assert name[i] == l[1..][i - 6]; }
    forall i | 6 + |l| <= i < |name| - 1 ensures name[i] != '|' { assert name[i] == d[..|d| - 1][i - 6 - |l|]; }
    assert name[5 + |l2|] == '|' && 6 <= 5 + |l2| < |name| - 1;
    assert |l2| == |l|;
    assert name[5..5 + |l|] == l && name[5..5 + |l2|] == l2;
    assert name[6 + |l|..] == d && name[6 + |l2|..] == d2;
  }

  /** With a '|' in a listener's name two different edges derive one service. */
  lemma DerivedNameCollides()
    ensures DeriveDmxService("A|B", "C") == DeriveDmxService("A", "B|C")
  {
  }

  function DerivedEndpoint(listener: string, dialer: string): Endpoint.Endpoint {
    Endpoint.Endpoint(Endpoint.Dmx, "", DeriveDmxService(listener, dialer), 0, Endpoint.IPv4)
  }

  /**
   The recorded endpoint is what ResolveDial reads back.  It is the derived one
   exactly when the dialer's address does not end in white space.
   */
  lemma DerivedSurvivesIff(env: Endpoint.Platform, listener: string, dialer: string, listen: bool)
    requires Endpoint.Sane(env)
    ensures var ep := DerivedEndpoint(listener, dialer);
      (Endpoint.Parse(env, Endpoint.Format(ep), listen) == Some(ep))
      <==> (dialer == "" || !env.space(dialer[|dialer| - 1]))
  {
    hide Endpoint.Parse, Endpoint.Format;
    var ep := DerivedEndpoint(listener, dialer);
    assert ep.name[|ep.name| - 1] == if dialer == "" then '|' else dialer[|dialer| - 1];
    assert !env.space('|');
    if dialer == "" || !env.space(dialer[|dialer| - 1]) {
      Endpoint.FormatRoundTrip(env, ep, listen);
    } else if Endpoint.Parse(env, Endpoint.Format(ep), listen) == Some(ep) {
      Endpoint.ParseGivesCanonical(env, Endpoint.Format(ep), listen);
      assert false;
    }
  }
}
