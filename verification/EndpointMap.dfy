/**
 The deployment map: ParseFacadeEndpointMap of src/FacadeEndpoint.cpp and the
 network table it fills (SetEndpoint, SetEndpointMap, LookupEndpoint of
 src/FacadeNetwork.cpp).
 */
module EndpointMap {
  import opened Text
  import opened Endpoint

  type AddressMap = map<string, string>

  /** TRUE when a peer slot holds something that cannot be an address. */
  predicate IsSwappedPeer(peer: string) {
    ':' in peer || exists i :: 0 <= i < |peer| - 1 && peer[i] == '/' && peer[i + 1] == '/'
  }

  datatype Line = Blank | Bad | Entry(address: string, endpoint: string)

  /** The two halves of an entry, judged together. */
  function MakeEntry(env: Platform, address: string, epText: string): Line {
    var ep := Parse(env, epText, false);
    if address == "" || IsSwappedPeer(address) || ep.None? || ep.value.kind == Serial then Bad
    else Entry(address, Format(ep.value))
  }

  /** What one line of the map says on its own; the first '=' splits it. */
  function ReadLine(env: Platform, raw: string): Line {
    var line := Trim(env.space, raw);
    if line == "" || line[0] == '#' || line[0] == ';' then Blank
    else
      var eq := Find(line, '=');
      if eq <= 0 then Bad
      else MakeEntry(env, Trim(env.space, line[..eq]), Trim(env.space, line[eq + 1..]))
  }

  /** Every line of a text, read on its own. */
  ghost function ReadAll(env: Platform, lines: seq<string>): (r: seq<Line>)
    ensures |r| == |lines|
    ensures forall i :: 0 <= i < |lines| ==> r[i] == ReadLine(env, lines[i])
  {
    seq(|lines|, i requires 0 <= i < |lines| => ReadLine(env, lines[i]))
  }

  /** Every line is readable and no two of them name one address. */
  ghost predicate Good(read: seq<Line>) {
    && (forall i :: 0 <= i < |read| ==> read[i] != Bad)
    && (forall i, j :: 0 <= i < j < |read| && read[i].Entry? && read[j].Entry?
          ==> read[i].address != read[j].address)
  }

  /** m holds exactly what the lines declare. */
  ghost predicate Holds(read: seq<Line>, m: AddressMap) {
    && (forall a :: a in m ==> Entry(a, m[a]) in read)
    && (forall i :: 0 <= i < |read| && read[i].Entry? ==> read[i].address in m)
  }

  /** Line number `bad`, counted from 1, is the first one that cannot stand. */
  ghost predicate FirstBad(read: seq<Line>, bad: nat) {
    1 <= bad <= |read| && Good(read[..bad - 1]) && !Good(read[..bad])
  }

  /** The whole specification of the map parser. */
  ghost predicate ParsedAs(env: Platform, text: string, before: AddressMap, ok: bool, after: AddressMap, bad: nat) {
    var read := ReadAll(env, Lines(text));
    if ok
    then bad == 0 && Good(read) && Holds(read, after)
    else after == before && FirstBad(read, bad)
  }

  method ParseMap(env: Platform, text: string, before: AddressMap)
    returns (ok: bool, after: AddressMap, bad: nat)
    ensures ParsedAs(env, text, before, ok, after, bad)
  {
    hide ReadLine, Good, Holds, LineEnd, Lines;
    bad := 0;
    if text == "" {
      BlankText(env);
      return true, map[], 0;
    }
    ghost var lines := Lines(text);
    ghost var read := ReadAll(env, lines);
    NothingRead();
    assert read[..0] == [] && lines[0..] == lines && text[0..] == text;
    var local: AddressMap := map[];
    var line, p := 0, 0;
    var more := true;
    while more
      invariant 0 <= p <= |text| && line <= |lines|
      invariant more ==> lines[line..] == Lines(text[p..])
      invariant !more ==> line == |lines|
      invariant Good(read[..line]) && Holds(read[..line], local)
      decreases |lines| - line
    {
      LinesStep(text, p, lines, line);
      var rest := text[p..];
      var e := LineEnd(rest);
      var entry := ReadLine(env, rest[..e]);
      line := line + 1;
      assert read[..line] == read[..line - 1] + [entry];
      if e < |rest| {
        p := p + NextLine(rest, e);
      } else {
        more := false;
      }
      match entry
      case Blank =>
        KeepEntries(read[..line - 1], local);
      case Bad =>
        BadLine(read[..line - 1]);
        return false, before, line;
      case Entry(address, endpoint) =>
        if address in local {
          Duplicate(read[..line - 1], local, entry);
          return false, before, line;
        }
        AddEntry(read[..line - 1], local, entry);
        local := local[address := endpoint];
    }
    assert read[..line] == read;
    return true, local, 0;
  }

  lemma BlankText(env: Platform)
    ensures ReadAll(env, Lines("")) == [Blank]
    ensures Good([Blank]) && Holds([Blank], map[])
  {
    assert Lines("") == [""];
  }

  lemma NothingRead()
    ensures Good([]) && Holds([], map[])
  {
  }

  lemma BadLine(read: seq<Line>)
    ensures !Good(read + [Bad])
  {
    assert (read + [Bad])[|read|] == Bad;
  }

  lemma KeepEntries(read: seq<Line>, m: AddressMap)
    requires Good(read) && Holds(read, m)
    ensures Good(read + [Blank]) && Holds(read + [Blank], m)
  {
  }

  lemma Duplicate(read: seq<Line>, m: AddressMap, e: Line)
    requires Holds(read, m) && e.Entry? && e.address in m
    ensures !Good(read + [e])
  {
    var i :| 0 <= i < |read| && read[i] == Entry(e.address, m[e.address]);
    assert (read + [e])[i] == read[i] && (read + [e])[|read|] == e;
  }

  lemma AddEntry(read: seq<Line>, m: AddressMap, e: Line)
    requires Good(read) && Holds(read, m) && e.Entry? && e.address !in m
    ensures Good(read + [e]) && Holds(read + [e], m[e.address := e.endpoint])
  {
    var r, n := read + [e], m[e.address := e.endpoint];
    forall a | a in n ensures Entry(a, n[a]) in r {
      if a == e.address {
        assert r[|read|] == Entry(a, n[a]);
      }
    }
  }

  lemma GoodPrefix(read: seq<Line>, n: nat, m: nat)
    requires m <= n <= |read| && Good(read[..n])
    ensures Good(read[..m])
  {
    assert forall i :: 0 <= i < m ==> read[..m][i] == read[..n][i];
  }

  /** The specification leaves the parser no choice. */
  lemma ParsedAsUnique(env: Platform, text: string, before: AddressMap,
                       ok1: bool, after1: AddressMap, bad1: nat, ok2: bool, after2: AddressMap, bad2: nat)
    requires ParsedAs(env, text, before, ok1, after1, bad1)
    requires ParsedAs(env, text, before, ok2, after2, bad2)
    ensures ok1 == ok2 && after1 == after2 && bad1 == bad2
  {
    hide ReadLine;
    var read := ReadAll(env, Lines(text));
    assert read[..|read|] == read;
    if ok1 && ok2 {
      SameMap(read, after1, after2);
    } else if ok1 {
      GoodPrefix(read, |read|, bad2);
    } else if ok2 {
      GoodPrefix(read, |read|, bad1);
    } else if bad1 < bad2 {
      GoodPrefix(read, bad2 - 1, bad1);
    } else if bad2 < bad1 {
      GoodPrefix(read, bad1 - 1, bad2);
    }
  }

  lemma SameMap(read: seq<Line>, a: AddressMap, b: AddressMap)
    requires Good(read) && Holds(read, a) && Holds(read, b)
    ensures a == b
  {
    forall k | k in a ensures k in b && a[k] == b[k] { OneValue(read, a, b, k); }
    forall k | k in b ensures k in a { OneValue(read, b, a, k); }
  }

  lemma OneValue(read: seq<Line>, a: AddressMap, b: AddressMap, k: string)
    requires Good(read) && Holds(read, a) && Holds(read, b) && k in a
    ensures k in b && a[k] == b[k]
  {
    var i :| 0 <= i < |read| && read[i] == Entry(k, a[k]);
    assert read[i].address in b;
    var j :| 0 <= j < |read| && read[j] == Entry(k, b[k]);
  }

  // ---------------------------------------------------------------------
  // The table

  /** Every stored value is the canonical spelling of a dial endpoint that is not serial. */
  ghost predicate Consumable(env: Platform, m: AddressMap) {
    forall a :: a in m ==> IsDialSpelling(env, m[a])
  }

  ghost predicate IsDialSpelling(env: Platform, v: string) {
    && Parse(env, v, false).Some?
    && Format(Parse(env, v, false).value) == v
    && Parse(env, v, false).value.kind != Serial
  }

  lemma FormatIsDialSpelling(env: Platform, text: string)
    requires Sane(env) && Parse(env, text, false).Some? && Parse(env, text, false).value.kind != Serial
    ensures IsDialSpelling(env, Format(Parse(env, text, false).value))
  {
    ParsePrintParse(env, text, false);
  }

  lemma MadeIsConsumable(env: Platform, address: string, epText: string)
    requires Sane(env) && MakeEntry(env, address, epText).Entry?
    ensures var e := MakeEntry(env, address, epText);
      e.address != "" && !IsSwappedPeer(e.address) && IsDialSpelling(env, e.endpoint)
  {
    hide Parse, Format, IsDialSpelling, IsSwappedPeer;
    FormatIsDialSpelling(env, epText);
  }

  /** What every accepted line of the map stores. */
  lemma EntryIsConsumable(env: Platform, raw: string)
    requires Sane(env) && ReadLine(env, raw).Entry?
    ensures var e := ReadLine(env, raw);
      e.address != "" && !IsSwappedPeer(e.address) && IsDialSpelling(env, e.endpoint)
  {
    hide MakeEntry, IsDialSpelling, IsSwappedPeer, Trim;
    var line := Trim(env.space, raw);
    var eq := Find(line, '=');
    MadeIsConsumable(env, Trim(env.space, line[..eq]), Trim(env.space, line[eq + 1..]));
  }

  lemma ParsedIsConsumable(env: Platform, text: string, before: AddressMap, after: AddressMap)
    requires Sane(env) && ParsedAs(env, text, before, true, after, 0)
    ensures Consumable(env, after)
    ensures forall a :: a in after ==> a != "" && !IsSwappedPeer(a)
  {
    hide ReadLine, IsDialSpelling, IsSwappedPeer;
    var lines := Lines(text);
    var read := ReadAll(env, lines);
    forall a | a in after ensures IsDialSpelling(env, after[a]) && a != "" && !IsSwappedPeer(a) {
      var i :| 0 <= i < |read| && read[i] == Entry(a, after[a]);
      EntryIsConsumable(env, lines[i]);
    }
  }

  datatype Hr = Ok | NullPointer | InvalidArg | BadEndpoint | Unresolved

  class EndpointTable {
    var entries: AddressMap

    constructor ()
      ensures entries == map[]
    {
      entries := map[];
    }

    /** Set or clear one entry; an empty endpoint, or a null one, removes it. */
    method SetEndpoint(env: Platform, address: Option<string>, endpoint: string) returns (hr: Hr)
      requires Sane(env) && Consumable(env, entries)
      modifies this
      ensures Consumable(env, entries)
      ensures hr == if address == None then NullPointer
                    else if address.value == "" || IsSwappedPeer(address.value) then InvalidArg
                    else if endpoint == "" then Ok
                    else if Parse(env, endpoint, false).None? || Parse(env, endpoint, false).value.kind == Serial
                    then BadEndpoint
                    else Ok
      ensures hr != Ok ==> entries == old(entries)
      ensures hr == Ok && endpoint == "" ==> entries == old(entries) - {address.value}
      ensures hr == Ok && endpoint != "" ==>
                entries == old(entries)[address.value := Format(Parse(env, endpoint, false).value)]
    {
      hide Parse, Format, IsDialSpelling, IsSwappedPeer;
      if address == None {
        return NullPointer;
      }
      if address.value == "" || IsSwappedPeer(address.value) {
        return InvalidArg;
      }
      if endpoint == "" {
        entries := entries - {address.value};
        return Ok;
      }
      var ep := Parse(env, endpoint, false);
      if ep.None? || ep.value.kind == Serial {
        return BadEndpoint;
      }
      FormatIsDialSpelling(env, endpoint);
      var value := Format(ep.value);
      entries := entries[address.value := value];
      return Ok;
    }

    /** Replace the whole table from one text, or leave it as it was. */
    method SetEndpointMap(env: Platform, text: string) returns (ok: bool, bad: nat)
      requires Sane(env) && Consumable(env, entries)
      modifies this
      ensures Consumable(env, entries)
      ensures ParsedAs(env, text, old(entries), ok, entries, bad)
    {
      var after;
      ok, after, bad := ParseMap(env, text, entries);
      if ok {
        ParsedIsConsumable(env, text, entries, after);
      }
      entries := after;
    }

    /** The configured dial endpoint; the re-parse of a stored value cannot fail. */
    method Lookup(env: Platform, address: string) returns (hr: Hr, ep: Option<Endpoint>)
      requires Consumable(env, entries)
      ensures ep.Some? <==> address != "" && address in entries
      ensures hr == if ep.Some? then Ok else Unresolved
      ensures ep.Some? ==> Format(ep.value) == entries[address] && ep.value.kind != Serial
    {
      if address == "" || address !in entries {
        return Unresolved, None;
      }
      ep := Parse(env, entries[address], false);
      assert IsDialSpelling(env, entries[address]);
      hr := Ok;
    }
  }

  /**
   What a consumable table promises its readers: the value is a dial, the dial
   without its host is a listen, and that listen filled with loopback is a dial
   of the same family and port again.
   */
  lemma TableServesBothRoles(env: Platform, m: AddressMap, a: string)
    requires Sane(env) && Consumable(env, m) && a in m
    ensures var ep := Parse(env, m[a], false).value;
      var l := DropHost(ep);
      && Parse(env, m[a], false).Some?
      && Parse(env, Format(l), true) == Some(l)
      && Parse(env, Format(FillLoopback(l)), false) == Some(FillLoopback(l))
      && FillLoopback(l).family == ep.family && FillLoopback(l).num == ep.num
  {
    assert IsDialSpelling(env, m[a]);
    var ep := Parse(env, m[a], false).value;
    DialDropsToListen(env, m[a], ep);
    ListenFillsToDial(env, Format(DropHost(ep)), DropHost(ep));
  }
}
