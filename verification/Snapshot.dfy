/**
 The read side's merge (SnapshotCons, src/FacadeHub.cpp): two ordered maps,
 what the hub armed and who turned up, walked in step into one ordered list.
 */
module Snapshot {
  import opened Address

  /** Ordinal order of addresses, the one std::map sorts by. */
  predicate Less(a: string, b: string) {
    if b == "" then false
    else if a == "" then true
    else a[0] < b[0] || (a[0] == b[0] && Less(a[1..], b[1..]))
  }

  lemma {:induction false} LessIrreflexive(a: string)
    ensures !Less(a, a)
  {
    if a != "" { LessIrreflexive(a[1..]); }
  }

  lemma {:induction false} LessTransitive(a: string, b: string, c: string)
    requires Less(a, b) && Less(b, c)
    ensures Less(a, c)
  {
    if a != "" && a[0] == b[0] && b[0] == c[0] { LessTransitive(a[1..], b[1..], c[1..]); }
  }

  lemma {:induction false} LessTotal(a: string, b: string)
    ensures Less(a, b) || a == b || Less(b, a)
  {
    if a != "" && b != "" && a[0] == b[0] {
      LessTotal(a[1..], b[1..]);
      assert a == [a[0]] + a[1..] && b == [b[0]] + b[1..];
    }
  }

  lemma Compare(a: string, b: string)
    ensures Less(a, b) || a == b || Less(b, a)
    ensures !Less(a, a) && !(Less(a, b) && Less(b, a))
  {
    LessTotal(a, b);
    LessIrreflexive(a);
    if Less(a, b) && Less(b, a) { LessTransitive(a, b, a); }
  }

  /** A name comes before another that goes on after it, or that has the greater character where they first differ. */
  lemma LessIff(a: string, b: string)
    ensures Less(a, b) <==> a < b || exists k :: FirstDiffer(a, b, k) && a[k] < b[k]
  {
    hide Less;
    if Less(a, b) { var k := LessShows(a, b); }
    if a < b || exists k :: FirstDiffer(a, b, k) && a[k] < b[k] {
      if a < b {
        PrefixIsLess(a, b);
      } else {
        var k :| FirstDiffer(a, b, k) && a[k] < b[k];
        DifferIsLess(a, b, k);
      }
    }
  }

  lemma {:induction false} LessShows(a: string, b: string) returns (k: int)
    requires Less(a, b)
    ensures a < b || (FirstDiffer(a, b, k) && a[k] < b[k])
  {
    k := 0;
    if a != "" && a[0] == b[0] {
      var j := LessShows(a[1..], b[1..]);
      k := j + 1;
    }
  }

  lemma {:induction false} PrefixIsLess(a: string, b: string)
    requires a < b
    ensures Less(a, b)
  {
    if a != "" { PrefixIsLess(a[1..], b[1..]); }
  }

  lemma {:induction false} DifferIsLess(a: string, b: string, k: int)
    requires FirstDiffer(a, b, k) && a[k] < b[k]
    ensures Less(a, b)
  {
    if k > 0 {
      assert a[..k][0] == a[0] && b[..k][0] == b[0] && a[1..][..k - 1] == a[..k][1..] && b[1..][..k - 1] == b[..k][1..];
      DifferIsLess(a[1..], b[1..], k - 1);
    }
  }

  predicate FirstDiffer(a: string, b: string, k: int) {
    0 <= k < |a| && k < |b| && a[..k] == b[..k] && a[k] != b[k]
  }

  datatype ArmedCon = ArmedCon(endpoint: string, listen: bool)

  /** A std::map as its iterator walks it: pairs in strictly ascending order of key. */
  type Ordered<V> = seq<(string, V)>

  ghost predicate Sorted<V>(m: Ordered<V>) {
    forall i, j :: 0 <= i < j < |m| ==> Less(m[i].0, m[j].0)
  }

  function Keys<V>(m: Ordered<V>): set<string> { set i | 0 <= i < |m| :: m[i].0 }

  /** P2PF_CON_* as fields, and the one P2PF_REL_* bit. */
  datatype Row = Row(peer: string, endpoint: string, listen: bool, dial: bool, up: bool, relation: Relation)

  /** What a row must say about its peer. */
  ghost predicate Describes(address: string, armed: Ordered<ArmedCon>, peers: Ordered<bool>, r: Row) {
    && (r.peer in Keys(armed) || r.peer in Keys(peers))
    && (forall i :: 0 <= i < |armed| && armed[i].0 == r.peer ==>
          r.endpoint == armed[i].1.endpoint && r.listen == armed[i].1.listen && r.dial == !armed[i].1.listen)
    && (r.peer !in Keys(armed) ==> r.endpoint == "" && !r.listen && !r.dial)
    && (r.up <==> (r.peer, true) in peers)
    && r.relation == ClassifyPeer(address, r.peer)
  }

  ghost predicate RowsSorted(rows: seq<Row>) {
    forall i, j :: 0 <= i < j < |rows| ==> Less(rows[i].peer, rows[j].peer)
  }

  ghost predicate HasRow(rows: seq<Row>, peer: string) {
    exists i :: 0 <= i < |rows| && rows[i].peer == peer
  }

  /** The first n keys are written to some row. */
  ghost predicate Written<V>(rows: seq<Row>, m: Ordered<V>, n: nat)
    requires n <= |m|
  {
    forall j :: 0 <= j < n ==> HasRow(rows, m[j].0)
  }

  /** Everything already written is below everything still to be read. */
  ghost predicate Below<V>(rows: seq<Row>, m: Ordered<V>, n: nat)
    requires n <= |m|
  {
    forall i, j :: 0 <= i < |rows| && n <= j < |m| ==> Less(rows[i].peer, m[j].0)
  }

  /** The next name is at or before the first unread key: taken if it is that key. */
  ghost predicate Taken<V>(m: Ordered<V>, n: nat, name: string, taken: bool)
    requires n <= |m|
  {
    if taken then n < |m| && m[n].0 == name else n == |m| || Less(name, m[n].0)
  }

  /** So it is a key of the map only where it was taken. */
  lemma OnlyThere<V>(rows: seq<Row>, m: Ordered<V>, n: nat, name: string, taken: bool)
    requires Sorted(m) && n <= |m| && Taken(m, n, name, taken) && Written(rows, m, n)
    requires forall i :: 0 <= i < |rows| ==> Less(rows[i].peer, name)
    ensures forall j :: 0 <= j < |m| && m[j].0 == name ==> taken && j == n
  {
    forall j | 0 <= j < |m| && m[j].0 == name ensures taken && j == n {
      LessIrreflexive(name);
      if n < j && !taken { LessTransitive(name, m[n].0, m[j].0); }
    }
  }

  /** One more row keeps the order on this side. */
  lemma RowKeepsOrder<V>(rows: seq<Row>, m: Ordered<V>, n: nat, row: Row, taken: bool)
    requires Sorted(m) && n <= |m| && Taken(m, n, row.peer, taken) && Written(rows, m, n) && Below(rows, m, n)
    ensures Below(rows + [row], m, if taken then n + 1 else n)
    ensures Written(rows + [row], m, if taken then n + 1 else n)
  {
    var next := if taken then n + 1 else n;
    forall j | next <= j < |m| ensures Less(row.peer, m[j].0) {
      if !taken && j > n { LessTransitive(row.peer, m[n].0, m[j].0); }
    }
    forall j | 0 <= j < next ensures HasRow(rows + [row], m[j].0) {
      if j < n {
        assert HasRow(rows, m[j].0);
        var i :| 0 <= i < |rows| && rows[i].peer == m[j].0;
        assert (rows + [row])[i] == rows[i];
      } else {
        assert (rows + [row])[|rows|] == row;
      }
    }
  }

  function MakeRow(address: string, armed: Ordered<ArmedCon>, peers: Ordered<bool>, a: nat, p: nat,
                   name: string, takeArmed: bool, takePeer: bool): Row
    requires (takeArmed ==> a < |armed|) && (takePeer ==> p < |peers|)
  {
    Row(name,
        if takeArmed then armed[a].1.endpoint else "",
        takeArmed && armed[a].1.listen,
        takeArmed && !armed[a].1.listen,
        takePeer && peers[p].1,
        ClassifyPeer(address, name))
  }

  lemma RowIsRight(address: string, armed: Ordered<ArmedCon>, peers: Ordered<bool>, rows: seq<Row>, a: nat, p: nat,
                   name: string, takeArmed: bool, takePeer: bool)
    requires Sorted(armed) && Sorted(peers) && a <= |armed| && p <= |peers|
    requires Taken(armed, a, name, takeArmed) && Taken(peers, p, name, takePeer) && (takeArmed || takePeer)
    requires Written(rows, armed, a) && Written(rows, peers, p)
    requires forall i :: 0 <= i < |rows| ==> Less(rows[i].peer, name)
    ensures Describes(address, armed, peers, MakeRow(address, armed, peers, a, p, name, takeArmed, takePeer))
  {
    OnlyThere(rows, armed, a, name, takeArmed);
    OnlyThere(rows, peers, p, name, takePeer);
    if takePeer { assert peers[p] == (name, peers[p].1); }
  }

  method SnapshotCons(address: string, armed: Ordered<ArmedCon>, peers: Ordered<bool>) returns (rows: seq<Row>)
    requires Sorted(armed) && Sorted(peers)
    ensures RowsSorted(rows)
    ensures forall i :: 0 <= i < |rows| ==> Describes(address, armed, peers, rows[i])
    ensures forall k :: k in Keys(armed) || k in Keys(peers) ==> HasRow(rows, k)
  {
    rows := [];
    var a, p := 0, 0;
    while a < |armed| || p < |peers|
      invariant 0 <= a <= |armed| && 0 <= p <= |peers|
      invariant RowsSorted(rows)
      invariant Below(rows, armed, a) && Below(rows, peers, p)
      invariant Written(rows, armed, a) && Written(rows, peers, p)
      invariant forall i :: 0 <= i < |rows| ==> Describes(address, armed, peers, rows[i])
      decreases |armed| - a + |peers| - p
    {
      hide Describes;
      var hasArmed, hasPeer := a < |armed|, p < |peers|;
      if hasArmed && hasPeer {
        Compare(armed[a].0, peers[p].0);
      }
      var takeArmed := hasArmed && (!hasPeer || !Less(peers[p].0, armed[a].0));
      var takePeer := hasPeer && (!hasArmed || !Less(armed[a].0, peers[p].0));
      var name := if takeArmed then armed[a].0 else peers[p].0;
      var row := MakeRow(address, armed, peers, a, p, name, takeArmed, takePeer);
      RowIsRight(address, armed, peers, rows, a, p, name, takeArmed, takePeer);
      RowKeepsOrder(rows, armed, a, row, takeArmed);
      RowKeepsOrder(rows, peers, p, row, takePeer);
      rows := rows + [row];
      a := if takeArmed then a + 1 else a;
      p := if takePeer then p + 1 else p;
    }
  }
}
