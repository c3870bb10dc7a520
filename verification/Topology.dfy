/**
 The topology helper of include/TargetFacadeTopology.hpp: one text that declares
 hubs, addresses and edges, the endpoint-map text generated from it, and the
 way a rejected map line is translated back to a line of the source text.
 */
module Topology {
  import opened Text
  import Endpoint
  import opened EndpointMap

  /** The helper trims blanks and tabs only, where the DLL trims any white space. */
  predicate Pad(c: char) { c == ' ' || c == '\t' }

  datatype Edge = Edge(listener: string, dialer: string, endpoint: string)

  datatype Topo = Topo(
    hubs: seq<string>,
    entries: seq<string>,
    edges: seq<Edge>,
    mapText: string,
    mapLines: seq<nat>)

  const EMPTY := Topo([], [], [], "", [])

  datatype Statement =
    | Nothing
    | Junk
    | Hub(address: string, endpoint: string)
    | At(address: string, endpoint: string)
    | Link(edge: Edge)

  /** Length of the first word. */
  function WordLength(s: string): (n: nat)
    ensures n <= |s|
    ensures forall k :: 0 <= k < n ==> !Pad(s[k])
    ensures n < |s| ==> Pad(s[n])
  {
    if s == "" || Pad(s[0]) then 0 else 1 + WordLength(s[1..])
  }

  /** Where "->" first stands, or -1. */
  function FindArrow(s: string): (i: int)
    ensures -1 <= i && (i >= 0 ==> i + 2 <= |s| && s[i] == '-' && s[i + 1] == '>')
  {
    if |s| < 2 then -1
    else if s[0] == '-' && s[1] == '>' then 0
    else
      var j := FindArrow(s[1..]);
      if j < 0 then -1 else j + 1
  }

  /** What stands left and right of the first '='. */
  function SplitAtEquals(s: string): (string, string) {
    var at := Find(s, '=');
    if at < 0 then (s, "") else (s[..at], s[at + 1..])
  }

  function ReadDeclaration(hub: bool, left: string, right: string): Statement {
    var address, endpoint := Trim(Pad, left), Trim(Pad, right);
    if address == "" || IsSwappedPeer(address) then Junk
    else if hub then Hub(address, endpoint)
    else if endpoint == "" then Junk
    else At(address, endpoint)
  }

  function ReadEdge(left: string, right: string): Statement {
    var arrow := FindArrow(left);
    if arrow < 0 then Junk
    else
      var e := Edge(Trim(Pad, left[..arrow]), Trim(Pad, left[arrow + 2..]), Trim(Pad, right));
      if e.listener == "" || e.dialer == "" || e.listener == e.dialer
         || IsSwappedPeer(e.listener) || IsSwappedPeer(e.dialer) then Junk
      else Link(e)
  }

  function ReadVerb(verb: string, rest: string): Statement {
    var (left, right) := SplitAtEquals(rest);
    if EqFold(verb, "hub") || EqFold(verb, "at") then ReadDeclaration(EqFold(verb, "hub"), left, right)
    else if EqFold(verb, "link") then ReadEdge(left, right)
    else Junk
  }

  /** One line on its own, before it is checked against the lines above it. */
  function ReadStatement(raw: string): Statement {
    var line := Trim(Pad, raw);
    if line == "" || line[0] == '#' || line[0] == ';' then Nothing
    else
      var n := WordLength(line);
      ReadVerb(line[..n], Trim(Pad, line[n..]))
  }

  /** Every line of a text, read on its own. */
  function Statements(text: string): (r: seq<Statement>)
    ensures |r| == |Lines(text)|
    ensures forall i :: 0 <= i < |r| ==> r[i] == ReadStatement(Lines(text)[i])
  {
    var lines := Lines(text);
    seq(|lines|, i requires 0 <= i < |lines| => ReadStatement(lines[i]))
  }

  /** One map entry, recorded with the line that declared it. */
  function Record(t: Topo, address: string, endpoint: string, lineNo: nat): Option<Topo> {
    if address in t.entries then None
    else Some(t.(entries := t.entries + [address],
                 mapText := t.mapText + address + " = " + endpoint + "\n",
                 mapLines := t.mapLines + [lineNo]))
  }

  /** The effect of one statement, None where parse refuses it. */
  function Apply(t: Topo, lineNo: nat, st: Statement): Option<Topo> {
    match st
    case Nothing => Some(t)
    case Junk => None
    case Hub(address, endpoint) =>
      if address in t.hubs then None
      else
        var u := t.(hubs := t.hubs + [address]);
        if endpoint == "" then Some(u) else Record(u, address, endpoint, lineNo)
    case At(address, endpoint) => Record(t, address, endpoint, lineNo)
    case Link(e) =>
      if e.listener !in t.hubs || e.dialer !in t.hubs then None
      else Some(t.(edges := t.edges + [e]))
  }

  /** What a sequence of lines builds, if none of them is refused. */
  function Build(stmts: seq<Statement>): Option<Topo> {
    if stmts == [] then Some(EMPTY)
    else
      var n := |stmts| - 1;
      match Build(stmts[..n])
      case None => None
      case Some(t) => Apply(t, n + 1, stmts[n])
  }

  lemma BuildStep(stmts: seq<Statement>, n: nat)
    requires n < |stmts| && Build(stmts[..n]).Some?
    ensures Build(stmts[..n + 1]) == Apply(Build(stmts[..n]).value, n + 1, stmts[n])
  {
    assert stmts[..n + 1][..n] == stmts[..n];
  }

  /** Topology::parse; a failure names the first refused line and yields nothing. */
  method Parse(text: string, before: Topo) returns (ok: bool, t: Topo, bad: nat)
    ensures ok ==> Build(Statements(text)) == Some(t) && bad == 0
    ensures !ok ==> t == before && 1 <= bad <= |Lines(text)|
                    && Build(Statements(text)[..bad - 1]).Some? && Build(Statements(text)[..bad]).None?
  {
    hide ReadStatement, Apply, Lines, LineEnd;
    ghost var lines, stmts := Lines(text), Statements(text);
    var built := EMPTY;
    var lineNo, pos := 0, 0;
    var more := true;
    assert text[0..] == text && lines[0..] == lines;
    while more
      invariant 0 <= pos <= |text| && lineNo <= |lines|
      invariant more ==> lines[lineNo..] == Lines(text[pos..])
      invariant !more ==> lineNo == |lines|
      invariant Build(stmts[..lineNo]) == Some(built)
      decreases |lines| - lineNo
    {
      LinesStep(text, pos, lines, lineNo);
      BuildStep(stmts, lineNo);
      var rest := text[pos..];
      var nl := LineEnd(rest);
      var raw := rest[..nl];
      if nl < |rest| {
        pos := pos + NextLine(rest, nl);
      } else {
        more := false;
      }
      lineNo := lineNo + 1;
      match Apply(built, lineNo, ReadStatement(raw))
      case None => return false, before, lineNo;
      case Some(next) => built := next;
    }
    assert stmts[..lineNo] == stmts;
    return true, built, 0;
  }

  // ---------------------------------------------------------------------
  // The generated map text

  predicate DeclaresEntry(st: Statement) {
    st.At? || (st.Hub? && st.endpoint != "")
  }

  /** The map line generated for one declaring line. */
  function EntryText(st: Statement): string
    requires DeclaresEntry(st)
  {
    st.address + " = " + st.endpoint
  }

  /** The numbers of the lines that declare an endpoint. */
  function DeclaringLines(stmts: seq<Statement>): (r: seq<nat>)
    ensures forall i :: 0 <= i < |r| ==> 1 <= r[i] <= |stmts| && DeclaresEntry(stmts[r[i] - 1])
    ensures forall i, j :: 0 <= i < j < |r| ==> r[i] < r[j]
  {
    if stmts == [] then []
    else
      var n := |stmts| - 1;
      var init := DeclaringLines(stmts[..n]);
      assert forall i :: 0 <= i < |init| ==> stmts[..n][init[i] - 1] == stmts[init[i] - 1];
      if DeclaresEntry(stmts[n]) then init + [n + 1] else init
  }

  function EntryTexts(stmts: seq<Statement>): (r: seq<string>)
    ensures |r| == |DeclaringLines(stmts)|
    ensures forall i :: 0 <= i < |r| ==> r[i] == EntryText(stmts[DeclaringLines(stmts)[i] - 1])
  {
    var d := DeclaringLines(stmts);
    seq(|d|, i requires 0 <= i < |d| => EntryText(stmts[d[i] - 1]))
  }

  function Join(texts: seq<string>): string {
    if texts == [] then "" else texts[0] + "\n" + Join(texts[1..])
  }

  lemma {:induction false} JoinSnoc(texts: seq<string>, last: string)
    ensures Join(texts + [last]) == Join(texts) + last + "\n"
  {
    if texts == [] {
      assert Join([last]) == last + "\n" + Join([last][1..]);
    } else {
      assert (texts + [last])[1..] == texts[1..] + [last];
      JoinSnoc(texts[1..], last);
    }
  }

  lemma {:induction false} LinesOfJoin(texts: seq<string>)
    requires forall i :: 0 <= i < |texts| ==> OneLine(texts[i])
    ensures Lines(Join(texts)) == texts + [""]
  {
    assert Lines("") == [""];
    hide Lines, OneLine;
    if texts != [] {
      var head, rest := texts[0], texts[1..];
      assert Join(texts) == head + "\n" + Join(rest);
      hide Join;
      LinesOfJoin(rest);
      LinesCons(head, Join(rest));
      HeadRestLast(texts, "");
    }
  }

  lemma HeadRestLast(texts: seq<string>, last: string)
    requires texts != []
    ensures [texts[0]] + (texts[1..] + [last]) == texts + [last]
  {
  }

  lemma EntryTextsStep(stmts: seq<Statement>, n: nat)
    requires n + 1 == |stmts|
    ensures DeclaresEntry(stmts[n]) ==> EntryTexts(stmts) == EntryTexts(stmts[..n]) + [EntryText(stmts[n])]
    ensures !DeclaresEntry(stmts[n]) ==> EntryTexts(stmts) == EntryTexts(stmts[..n])
  {
    var init := stmts[..n];
    var d, r := DeclaringLines(init), EntryTexts(init);
    if DeclaresEntry(stmts[n]) {
      assert DeclaringLines(stmts) == d + [n + 1];
      hide DeclaringLines, EntryText, EntryTexts, DeclaresEntry;
      TextsStandStill(init, stmts);
      TextsAre(stmts, d + [n + 1], r + [EntryText(stmts[n])]);
    } else {
      assert DeclaringLines(stmts) == d;
      hide DeclaringLines, EntryText, EntryTexts, DeclaresEntry;
      TextsStandStill(init, stmts);
      TextsAre(stmts, d, r);
    }
  }

  lemma TextsStandStill(init: seq<Statement>, stmts: seq<Statement>)
    requires |init| <= |stmts| && forall k :: 0 <= k < |init| ==> init[k] == stmts[k]
    ensures forall i :: 0 <= i < |EntryTexts(init)| ==>
      && DeclaresEntry(stmts[DeclaringLines(init)[i] - 1])
      && EntryTexts(init)[i] == EntryText(stmts[DeclaringLines(init)[i] - 1])
  {
    hide DeclaringLines, EntryText, EntryTexts, DeclaresEntry;
  }

  lemma TextsAre(stmts: seq<Statement>, d: seq<nat>, r: seq<string>)
    requires d == DeclaringLines(stmts) && |r| == |d|
    requires forall i :: 0 <= i < |r| ==> r[i] == EntryText(stmts[d[i] - 1])
    ensures EntryTexts(stmts) == r
  {
    hide DeclaringLines, EntryText, EntryTexts, DeclaresEntry;
  }

  lemma ApplyRecords(u: Topo, lineNo: nat, st: Statement, t: Topo)
    requires Apply(u, lineNo, st) == Some(t)
    ensures DeclaresEntry(st) ==>
              && t.mapLines == u.mapLines + [lineNo] && t.entries == u.entries + [st.address]
              && t.mapText == u.mapText + EntryText(st) + "\n"
    ensures !DeclaresEntry(st) ==> t.mapLines == u.mapLines && t.entries == u.entries && t.mapText == u.mapText
  {
    if DeclaresEntry(st) {
      assert u.mapText + st.address + " = " + st.endpoint + "\n" == u.mapText + EntryText(st) + "\n";
    }
  }

  /** The record built alongside the text is the text's own declaring lines. */
  lemma {:induction false} BuildRecords(stmts: seq<Statement>, t: Topo)
    requires Build(stmts) == Some(t)
    ensures t.mapLines == DeclaringLines(stmts)
    ensures t.mapText == Join(EntryTexts(stmts))
  {
    hide Apply, EntryText, Join, EntryTexts;
    if stmts == [] {
      NothingRecorded();
    } else {
      var n := |stmts| - 1;
      var init, st := stmts[..n], stmts[n];
      var u := Build(init).value;
      BuildRecords(init, u);
      ApplyRecords(u, n + 1, st, t);
      EntryTextsStep(stmts, n);
      hide Build;
      if DeclaresEntry(st) {
        JoinSnoc(EntryTexts(init), EntryText(st));
      }
    }
  }

  /** And the recorded addresses are those the declaring lines name. */
  lemma {:induction false} BuildEntries(stmts: seq<Statement>, t: Topo)
    requires Build(stmts) == Some(t)
    ensures EntriesAre(stmts, t.mapLines, t.entries)
  {
    hide Apply, EntryText, EntriesAre;
    if stmts == [] {
      NoEntries();
    } else {
      var n := |stmts| - 1;
      var u := Build(stmts[..n]).value;
      BuildEntries(stmts[..n], u);
      ApplyRecords(u, n + 1, stmts[n], t);
      hide Build;
      EntriesStep(stmts, u.mapLines, u.entries);
    }
  }

  ghost predicate EntriesAre(stmts: seq<Statement>, lines: seq<nat>, entries: seq<string>) {
    && |entries| == |lines|
    && forall i :: 0 <= i < |lines| ==>
         1 <= lines[i] <= |stmts| && DeclaresEntry(stmts[lines[i] - 1]) && entries[i] == stmts[lines[i] - 1].address
  }

  lemma NoEntries()
    ensures EntriesAre([], [], [])
  {
  }

  lemma EntriesStep(stmts: seq<Statement>, lines: seq<nat>, entries: seq<string>)
    requires stmts != [] && EntriesAre(stmts[..|stmts| - 1], lines, entries)
    ensures EntriesAre(stmts, lines, entries)
    ensures var last := stmts[|stmts| - 1];
      DeclaresEntry(last) ==> EntriesAre(stmts, lines + [|stmts|], entries + [last.address])
  {
    hide DeclaresEntry;
    var init := stmts[..|stmts| - 1];
    assert forall i :: 0 <= i < |lines| ==> init[lines[i] - 1] == stmts[lines[i] - 1];
  }

  lemma NothingRecorded()
    ensures EntryTexts([]) == [] && Join([]) == ""
  {
  }

  lemma SplitOnOneLine(s: string)
    requires OneLine(s)
    ensures OneLine(SplitAtEquals(s).0) && OneLine(SplitAtEquals(s).1)
  {
  }

  lemma VerbOnOneLine(verb: string, rest: string)
    requires OneLine(rest) && DeclaresEntry(ReadVerb(verb, rest))
    ensures OneLine(EntryText(ReadVerb(verb, rest)))
  {
    hide Trim, SplitAtEquals, OneLine, IsSwappedPeer, EqFold;
    var (left, right) := SplitAtEquals(rest);
    SplitOnOneLine(rest);
    OneLineTrim(Pad, left);
    OneLineTrim(Pad, right);
    OneLineEntry(Trim(Pad, left), Trim(Pad, right));
  }

  lemma OneLineEntry(address: string, endpoint: string)
    requires OneLine(address) && OneLine(endpoint)
    ensures OneLine(address + " = " + endpoint)
  {
  }

  /** A declaration read from one line is itself on one line. */
  lemma StatementOnOneLine(raw: string)
    requires OneLine(raw) && DeclaresEntry(ReadStatement(raw))
    ensures OneLine(EntryText(ReadStatement(raw)))
  {
    hide Trim, OneLine, ReadVerb;
    var line := Trim(Pad, raw);
    var n := WordLength(line);
    OneLineTrim(Pad, raw);
    OneLineParts(line, n, |line|);
    OneLineTrim(Pad, line[n..]);
    VerbOnOneLine(line[..n], Trim(Pad, line[n..]));
  }

  /**
   The generated text has one line per recorded entry under the map parser's own
   line splitting, in order, and nothing after them.
   */
  lemma MapTextLines(text: string, t: Topo)
    requires Build(Statements(text)) == Some(t)
    ensures Lines(t.mapText) == EntryTexts(Statements(text)) + [""]
    ensures |Lines(t.mapText)| == |t.mapLines| + 1
  {
    hide ReadStatement, Build, OneLine, EntryText, EntryTexts, DeclaringLines, DeclaresEntry, Lines, Join;
    var lines, stmts := Lines(text), Statements(text);
    BuildRecords(stmts, t);
    var texts := EntryTexts(stmts);
    forall i | 0 <= i < |texts| ensures OneLine(texts[i]) {
      StatementOnOneLine(lines[t.mapLines[i] - 1]);
    }
    LinesOfJoin(texts);
  }

  /** Source line `at` declares the entry that line `mapLine` of the map text spells. */
  ghost predicate Blames(text: string, t: Topo, mapLine: nat, at: nat) {
    && 1 <= mapLine <= |t.mapLines| && at == t.mapLines[mapLine - 1]
    && 1 <= at <= |Lines(text)|
    && DeclaresEntry(ReadStatement(Lines(text)[at - 1]))
    && mapLine <= |Lines(t.mapText)|
    && Lines(t.mapText)[mapLine - 1] == EntryText(ReadStatement(Lines(text)[at - 1]))
  }

  /** Translating the number of an entry's line gives the line that declared it. */
  lemma TranslationBlames(text: string, t: Topo, mapLine: nat)
    requires Build(Statements(text)) == Some(t) && 1 <= mapLine <= |t.mapLines|
    ensures Blames(text, t, mapLine, t.mapLines[mapLine - 1])
  {
    hide ReadStatement, Build, EntryTexts, EntryText, DeclaringLines, Lines, Join;
    MapTextLines(text, t);
    BuildRecords(Statements(text), t);
    var stmts := Statements(text);
    assert Lines(t.mapText)[mapLine - 1] == EntryTexts(stmts)[mapLine - 1];
  }

  /** An empty last line never is the line the map parser stops at. */
  lemma LastBlankIsNotBad(read: seq<Line>, bad: nat)
    requires read != [] && read[|read| - 1] == Blank && FirstBad(read, bad)
    ensures bad < |read|
  {
    if bad == |read| {
      assert read[..bad] == read[..bad - 1] + [Blank];
      assert Good(read[..bad]);
    }
  }

  lemma BlankLine(env: Endpoint.Platform)
    ensures ReadLine(env, "") == Blank
  {
  }

  /** A line the map parser rejects is always one of the entries. */
  lemma BadLineIsDeclared(env: Endpoint.Platform, text: string, t: Topo, mapLine: nat)
    requires Build(Statements(text)) == Some(t)
    requires FirstBad(ReadAll(env, Lines(t.mapText)), mapLine)
    ensures 1 <= mapLine <= |t.mapLines| && Blames(text, t, mapLine, t.mapLines[mapLine - 1])
  {
    hide ReadLine, ReadStatement, Build, Good, Blames, EntryTexts;
    MapTextLines(text, t);
    BlankLine(env);
    LastBlankIsNotBad(ReadAll(env, Lines(t.mapText)), mapLine);
    TranslationBlames(text, t, mapLine);
  }

  /**
   Topology::arm as far as the map: the text is pushed, and a rejected line is
   translated.  The translation always finds a line, and it is the line that
   declared the entry the map parser stopped at.
   */
  method PushMap(env: Endpoint.Platform, ghost text: string, t: Topo, table: EndpointTable)
    returns (ok: bool, bad: nat)
    requires Endpoint.Sane(env) && Consumable(env, table.entries)
    requires Build(Statements(text)) == Some(t)
    modifies table
    ensures Consumable(env, table.entries)
    ensures !ok ==> table.entries == old(table.entries)
    ensures !ok ==> exists mapLine :: FirstBad(ReadAll(env, Lines(t.mapText)), mapLine) && Blames(text, t, mapLine, bad)
    ensures ok && t.mapText != "" ==> ParsedAs(env, t.mapText, old(table.entries), true, table.entries, 0)
    ensures ok && t.mapText == "" ==> table.entries == old(table.entries)
    ensures ok && t.mapText != "" ==>
      forall i :: 0 <= i < |t.entries| ==> (t.entries[i] in table.entries <==> Served(env, t.entries[i]))
    ensures t.mapText == "" <==> t.entries == []
  {
    hide ReadLine, Build, Endpoint.Sane, IsDialSpelling, Blames, Good, Holds, Served, ParsedAs;
    EmptyMapText(text, t);
    if t.mapText == "" {
      return true, 0;
    }
    var mapLine;
    ghost var before := table.entries;
    ok, mapLine := table.SetEndpointMap(env, t.mapText);
    bad := 0;
    if !ok {
      assert FirstBad(ReadAll(env, Lines(t.mapText)), mapLine) && table.entries == before by {
        FailedAs(env, t.mapText, before, table.entries, mapLine);
      }
      BadLineIsDeclared(env, text, t, mapLine);
      if 1 <= mapLine <= |t.mapLines| {
        bad := t.mapLines[mapLine - 1];
      }
    } else {
      forall i | 0 <= i < |t.entries| ensures t.entries[i] in table.entries <==> Served(env, t.entries[i]) {
        ServedIff(env, text, t, before, table.entries, i);
      }
    }
  }

  lemma FailedAs(env: Endpoint.Platform, mapText: string, before: AddressMap, after: AddressMap, bad: nat)
    requires ParsedAs(env, mapText, before, false, after, bad)
    ensures after == before && FirstBad(ReadAll(env, Lines(mapText)), bad)
  {
  }

  lemma EmptyMapText(text: string, t: Topo)
    requires Build(Statements(text)) == Some(t)
    ensures t.mapText == "" <==> t.entries == []
  {
    hide ReadStatement, Build, EntryTexts, DeclaringLines, Lines, DeclaresEntry;
    BuildRecords(Statements(text), t);
    BuildEntries(Statements(text), t);
  }

  // ---------------------------------------------------------------------
  // Which recorded entries the map parser does not see

  lemma EntryHead(env: Endpoint.Platform, address: string, endpoint: string)
    requires Endpoint.Sane(env)
    ensures var head, line := Trim(env.space, address), Trim(env.space, address + (" = " + endpoint));
      && line != ""
      && (if head != "" then line[0] == head[0] else line[0] in {' ', '='})
  {
    hide Trim, TrimLeft, TrimRight;
    var rest := " = " + endpoint;
    if Trim(env.space, address) != "" {
      TrimHead(env.space, address, rest);
    } else {
      EqualsIsHead(env, rest);
      TrimPastPadding(env.space, address, rest);
    }
  }

  /** What follows an equals sign never becomes the head of the line. */
  lemma EqualsIsHead(env: Endpoint.Platform, rest: string)
    requires Endpoint.Sane(env) && |rest| >= 2 && rest[0] == ' ' && rest[1] == '='
    ensures Trim(env.space, rest) != "" && Trim(env.space, rest)[0] in {' ', '='}
  {
    assert !env.space('=');
    hide Endpoint.Sane;
    HeadIsFirst(env.space, rest, if env.space(' ') then 1 else 0);
  }

  /**
   How the map parser reads the line generated for a recorded address: it trims
   every white space where the topology parser trimmed blanks and tabs only, and
   takes an address that opens a comment for one.
   */
  lemma RecordedLineReads(env: Endpoint.Platform, address: string, endpoint: string)
    requires Endpoint.Sane(env) && '=' !in address
    ensures var key := Trim(env.space, address);
      ReadLine(env, address + " = " + endpoint)
      == if key == "" then Bad
         else if key[0] in {'#', ';'} then Blank
         else MakeEntry(env, key, Trim(env.space, endpoint))
  {
    var s := address + " = " + endpoint;
    EntryHead(env, address, endpoint);
    assert s == address + (" = " + endpoint);
    hide MakeEntry, Trim, Find;
    var key := Trim(env.space, address);
    if key == "" {
      assert env.space(' ') && !env.space('=');
      HeadIsEquals(env, s);
    } else if key[0] !in {'#', ';'} {
      EntryLineSplits(env, address, endpoint);
    }
  }

  lemma HeadIsEquals(env: Endpoint.Platform, s: string)
    requires env.space(' ') && Trim(env.space, s) != "" && Trim(env.space, s)[0] in {' ', '='}
    ensures ReadLine(env, s) == Bad
  {
    hide Trim;
    FindIs(Trim(env.space, s), '=', 0);
  }

  lemma EntryLineSplits(env: Endpoint.Platform, address: string, endpoint: string)
    requires Endpoint.Sane(env) && '=' !in address && Trim(env.space, address) != ""
    ensures var line := Trim(env.space, address + " = " + endpoint);
      var eq := Find(line, '=');
      && 0 < eq < |line|
      && Trim(env.space, line[..eq]) == Trim(env.space, address)
      && Trim(env.space, line[eq + 1..]) == Trim(env.space, endpoint)
  {
    hide Trim, Find;
    var s, at := address + " = " + endpoint, |address| + 1;
    assert env.space(' ') && !env.space('=');
    hide Endpoint.Sane;
    var i, j := TrimSlice(env.space, s);
    var line := s[i..j];
    assert s[at] == '=' && i <= at < j;
    assert forall k :: i <= k < at ==> s[k] != '=';
    FindIs(line, '=', at - i);
    TrimEmpty(env.space, address);
    assert forall k :: 0 <= k < |address| ==> s[k] == address[k];
    LeftOfEquals(env, address, s, i);
    assert line[..at - i] == s[i..at];
    RightOfEquals(env, endpoint, s, at, j);
    assert line[at - i + 1..] == s[at + 1..j];
  }

  lemma LeftOfEquals(env: Endpoint.Platform, address: string, s: string, i: nat)
    requires env.space(' ') && |s| > |address| + 1 && s[..|address| + 1] == address + [' '] && i <= |address| + 1
    requires forall k :: 0 <= k < i ==> env.space(s[k])
    ensures Trim(env.space, s[i..|address| + 1]) == Trim(env.space, address)
  {
    hide Trim;
    var left := address + [' '];
    assert forall k :: 0 <= k < i ==> left[k] == s[k];
    TrimInner(env.space, left, i, |left|);
    assert left[i..|left|] == s[i..|address| + 1];
    TrimInner(env.space, left, 0, |address|);
    assert left[0..|address|] == address;
  }

  lemma RightOfEquals(env: Endpoint.Platform, endpoint: string, s: string, at: nat, j: nat)
    requires env.space(' ') && at < j <= |s| && s[at + 1..] == [' '] + endpoint
    requires forall k :: j <= k < |s| ==> env.space(s[k])
    ensures Trim(env.space, s[at + 1..j]) == Trim(env.space, endpoint)
  {
    hide Trim;
    var right := [' '] + endpoint;
    assert forall k :: at < k < |s| ==> right[k - at - 1] == s[k];
    TrimInner(env.space, right, 0, j - at - 1);
    assert right[0..j - at - 1] == s[at + 1..j];
    TrimInner(env.space, right, 1, |right|);
    assert right[1..|right|] == endpoint;
  }

  /** So a recorded line is skipped exactly when its address, without white space, opens a comment. */
  lemma EntrySkippedIff(env: Endpoint.Platform, address: string, endpoint: string)
    requires Endpoint.Sane(env)
    ensures ReadLine(env, address + " = " + endpoint) == Blank
       <==> Trim(env.space, address) != "" && Trim(env.space, address)[0] in {'#', ';'}
  {
    hide Trim, Endpoint.Sane, Find;
    EntryHead(env, address, endpoint);
    assert address + " = " + endpoint == address + (" = " + endpoint);
  }

  /** The addresses under which the table will be asked are the ones it files: no white space around, no comment. */
  predicate Served(env: Endpoint.Platform, address: string) {
    address != "" && Trim(env.space, address) == address && address[0] !in {'#', ';'}
  }

  lemma LineServes(env: Endpoint.Platform, address: string, endpoint: string)
    requires Endpoint.Sane(env) && '=' !in address
    ensures var line := ReadLine(env, address + " = " + endpoint);
      && (line.Entry? ==> Served(env, line.address))
      && (Served(env, address) ==> line != Blank && (line.Entry? ==> line.address == address))
  {
    hide Trim, ReadLine, MakeEntry, Endpoint.Sane;
    var key := Trim(env.space, address);
    RecordedLineReads(env, address, endpoint);
    MadeKey(env, key, Trim(env.space, endpoint));
    TrimFixed(env.space, key);
  }

  lemma MadeKey(env: Endpoint.Platform, address: string, endpoint: string)
    ensures var made := MakeEntry(env, address, endpoint);
      made != Blank && (made.Entry? ==> made.address == address && address != "")
  {
  }

  /** Each recorded address comes from a declaration and has its line in the map text. */
  lemma EntryLine(text: string, t: Topo, i: nat) returns (endpoint: string)
    requires Build(Statements(text)) == Some(t) && i < |t.entries|
    ensures |Lines(t.mapText)| == |t.entries| + 1 && Lines(t.mapText)[|t.entries|] == ""
    ensures '=' !in t.entries[i] && Lines(t.mapText)[i] == t.entries[i] + " = " + endpoint
  {
    hide ReadStatement, Build, EntryTexts, DeclaringLines, Lines, Join, DeclaresEntry;
    var stmts := Statements(text);
    MapTextLines(text, t);
    BuildRecords(stmts, t);
    BuildEntries(stmts, t);
    var st := stmts[t.mapLines[i] - 1];
    NoEqualsInAddress(Lines(text)[t.mapLines[i] - 1]);
    assert EntryTexts(stmts)[i] == EntryText(st);
    endpoint := EndpointOf(st);
  }

  function EndpointOf(st: Statement): string
    requires DeclaresEntry(st)
  {
    st.endpoint
  }

  lemma NoEqualsInAddress(raw: string)
    requires DeclaresEntry(ReadStatement(raw))
    ensures '=' !in ReadStatement(raw).address
  {
    hide Trim, EqFold, IsSwappedPeer;
    var line := Trim(Pad, raw);
    var rest := Trim(Pad, line[WordLength(line)..]);
    var (left, right) := SplitAtEquals(rest);
    assert ReadStatement(raw).address == Trim(Pad, left);
    if '=' in Trim(Pad, left) { TrimWithin(Pad, left, '='); }
  }

  /**
   After a push that succeeds the table serves exactly those recorded addresses
   that have no white space around them and open no comment; the others are lost,
   and no line is reported for them.
   */
  lemma ServedIff(env: Endpoint.Platform, text: string, t: Topo, before: AddressMap, table: AddressMap, i: nat)
    requires Endpoint.Sane(env) && Build(Statements(text)) == Some(t)
    requires ParsedAs(env, t.mapText, before, true, table, 0) && i < |t.entries|
    ensures t.entries[i] in table <==> Served(env, t.entries[i])
  {
    hide Endpoint.Sane, ReadLine, Build, Served, Lines;
    var read := ReadAll(env, Lines(t.mapText));
    var a := t.entries[i];
    var endpoint := EntryLine(text, t, i);
    LineServes(env, a, endpoint);
    if a in table {
      var r :| 0 <= r < |read| && read[r] == Entry(a, table[a]);
      BlankLine(env);
      var other := EntryLine(text, t, r);
      LineServes(env, t.entries[r], other);
    }
    if Served(env, a) {
      assert read[i] != Blank && read[i] != Bad;
      assert read[i].address in table;
    }
  }

  predicate Trimmed(s: string) { s != "" && !Pad(s[0]) && !Pad(s[|s| - 1]) }

  /** How "verb rest" comes apart. */
  lemma VerbLineReads(verb: string, rest: string)
    requires verb != "" && (forall k :: 0 <= k < |verb| ==> !Pad(verb[k])) && verb[0] !in {'#', ';'}
    requires Trimmed(rest)
    ensures ReadStatement(verb + ([' '] + rest)) == ReadVerb(verb, rest)
  {
    hide TrimLeft, TrimRight, ReadVerb, WordLength;
    var line := verb + ([' '] + rest);
    assert line[|verb|] == ' ' && line[|line| - 1] == rest[|rest| - 1];
    TrimFixed(Pad, line);
    assert WordLength(line) == |verb|;
    assert line[..|verb|] == verb && line[|verb|..] == [' '] + rest;
    TrimPadded(Pad, rest, ' ');
  }

  /** A declaration in its plain spelling is read back. */
  lemma AtLineReads(address: string, endpoint: string)
    requires Trimmed(address) && Trimmed(endpoint) && '=' !in address && !IsSwappedPeer(address)
    ensures ReadStatement("at" + ([' '] + (address + " = " + endpoint))) == At(address, endpoint)
  {
    hide IsSwappedPeer, ReadVerb, ReadStatement;
    var rest := address + " = " + endpoint;
    assert rest[0] == address[0] && rest[|rest| - 1] == endpoint[|endpoint| - 1];
    VerbLineReads("at", rest);
    AtRestReads(address, endpoint);
  }

  lemma AtRestReads(address: string, endpoint: string)
    requires Trimmed(address) && Trimmed(endpoint) && '=' !in address && !IsSwappedPeer(address)
    ensures ReadVerb("at", address + " = " + endpoint) == At(address, endpoint)
  {
    hide IsSwappedPeer, TrimLeft, TrimRight;
    var rest := address + " = " + endpoint;
    FindIs(rest, '=', |address| + 1);
    assert rest[..|address| + 1] == address + [' '];
    assert rest[|address| + 2..] == [' '] + endpoint;
    TrimPadded(Pad, address, ' ');
    TrimPadded(Pad, endpoint, ' ');
  }

  /** A source text whose one entry the map parser skips. */
  lemma SkippedEntryWitness(env: Endpoint.Platform)
    requires Endpoint.Sane(env)
    ensures var st := ReadStatement("at" + ([' '] + ("#A" + " = " + "dmx://x")));
      st == At("#A", "dmx://x") && ReadLine(env, EntryText(st)) == Blank
  {
    hide ReadStatement, ReadLine;
    AtLineReads("#A", "dmx://x");
    assert !env.space('#') && !env.space('A');
    TrimFixed(env.space, "#A");
    EntrySkippedIff(env, "#A", "dmx://x");
  }

  /**
   And one that it files under another name: any white space but a blank or a tab
   after the address is recorded with it and trimmed away from the key.
   */
  lemma PaddedEntryWitness(env: Endpoint.Platform, c: char)
    requires Endpoint.Sane(env) && env.space(c) && !Pad(c)
    ensures var st := ReadStatement("at" + ([' '] + ("A" + [c] + " = " + "dmx://x")));
      && st == At("A" + [c], "dmx://x")
      && ReadLine(env, EntryText(st)) == Entry("A", "dmx://x")
      && !Served(env, st.address)
  {
    hide ReadStatement, ReadLine, Trim, Endpoint.Parse, Endpoint.Format, Find;
    assert "dmx://x"[0..7] == "dmx://x";
    var a, ep := "A" + [c], Endpoint.Endpoint(Endpoint.Dmx, "", "x", 0, Endpoint.IPv4);
    assert forall v :: v in "A=:/dx" ==> !env.space(v);
    assert a[0] == 'A' && a[1] == c && '=' !in a && !IsSwappedPeer(a);
    AtLineReads(a, "dmx://x");
    TrimIs(env.space, a, 0, 1);
    assert a[0..1] == "A" && a != "A";
    TrimIs(env.space, "dmx://x", 0, 7);
    RecordedLineReads(env, a, "dmx://x");
    DmxSpelling(ep);
    Endpoint.FormatRoundTrip(env, ep, false);
  }

  lemma DmxSpelling(ep: Endpoint.Endpoint)
    requires ep == Endpoint.Endpoint(Endpoint.Dmx, "", "x", 0, Endpoint.IPv4)
    ensures Endpoint.Format(ep) == "dmx://x"
  {
  }
}
