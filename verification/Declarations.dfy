/**
 What the lines of the two configuration texts say: relations between a line and
 its meaning, written without the readers of EndpointMap and Topology, which are
 shown to accept exactly the lines that mean something.
 */
module Declarations {
  import opened Text
  import Endpoint
  import Grammar
  import EndpointMap
  import opened Topology

  /** A colon or two slashes in a row: an endpoint, written where an address belongs. */
  ghost predicate LooksLikeEndpoint(s: string) {
    ':' in s || exists left, right :: s == left + "//" + right
  }

  lemma SwappedIff(s: string)
    ensures EndpointMap.IsSwappedPeer(s) <==> LooksLikeEndpoint(s)
  {
    if i :| 0 <= i < |s| - 1 && s[i] == '/' && s[i + 1] == '/' {
      assert s == s[..i] + "//" + s[i + 2..];
    }
    if left, right :| s == left + "//" + right {
      assert s[|left|] == '/' && s[|left| + 1] == '/';
    }
  }

  /** No endpoint passes for an address. */
  lemma EndpointIsNoPeer(env: Endpoint.Platform, text: string, listen: bool)
    requires Endpoint.Parse(env, text, listen).Some?
    ensures EndpointMap.IsSwappedPeer(text)
  {
    var all := Trim(env.space, text);
    hide Trim, Endpoint.ParseTarget, Endpoint.SchemeOf, EndpointMap.IsSwappedPeer;
    assert all[Find(all, ':')] == ':';
    TrimWithin(env.space, text, ':');
    SwappedIff(text);
  }

  predicate Comment(line: string) { line == "" || line[0] in {'#', ';'} }

  ghost predicate IsAddress(s: string) { s != "" && !LooksLikeEndpoint(s) }

  /** What stands on the two sides of the first equals sign; on the right of none stands nothing. */
  predicate Sides(text: string, left: string, right: string) {
    && '=' !in left
    && (text == left + "=" + right || (text == left && right == ""))
  }

  // ---------------------------------------------------------------------
  // The endpoint map

  /** A line of the map that is no comment is an address, an equals sign and an endpoint that can be dialed. */
  ghost predicate MapLineSays(env: Endpoint.Platform, raw: string, address: string, ep: Endpoint.Endpoint) {
    exists left, right ::
      && Trim(env.space, raw) == left + "=" + right && '=' !in left && !Comment(Trim(env.space, raw))
      && address == Trim(env.space, left) && IsAddress(address)
      && Grammar.Denotes(env, Trim(env.space, right), false, ep) && ep.kind != Endpoint.Serial
  }

  lemma EqualsIff(line: string, left: string, right: string)
    ensures line == left + "=" + right && '=' !in left
       <==> Find(line, '=') == |left| && line[..|left|] == left && line[|left| + 1..] == right
  {
    if line == left + "=" + right && '=' !in left {
      FindIs(line, '=', |left|);
      assert line[..|left|] == left && line[|left| + 1..] == right;
    }
    if Find(line, '=') == |left| && line[..|left|] == left && line[|left| + 1..] == right {
      assert line == line[..|left|] + [line[|left|]] + line[|left| + 1..];
    }
  }

  lemma EntrySays(env: Endpoint.Platform, raw: string) returns (ep: Endpoint.Endpoint)
    requires EndpointMap.ReadLine(env, raw).Entry?
    ensures var e := EndpointMap.ReadLine(env, raw);
      MapLineSays(env, raw, e.address, ep) && e.endpoint == Endpoint.Format(ep)
  {
    hide Trim, Endpoint.Parse, Endpoint.Format, Grammar.Denotes, EndpointMap.IsSwappedPeer, LooksLikeEndpoint, Find;
    var line := Trim(env.space, raw);
    var at := Find(line, '=');
    var left, right := line[..at], line[at + 1..];
    ep := Endpoint.Parse(env, Trim(env.space, right), false).value;
    SwappedIff(Trim(env.space, left));
    EqualsIff(line, left, right);
    Grammar.ParsesIff(env, Trim(env.space, right), false, ep);
  }

  lemma SaidIsRead(env: Endpoint.Platform, raw: string, address: string, ep: Endpoint.Endpoint)
    requires MapLineSays(env, raw, address, ep)
    ensures EndpointMap.ReadLine(env, raw) == EndpointMap.Entry(address, Endpoint.Format(ep))
  {
    hide Trim, Endpoint.Parse, Endpoint.Format, Grammar.Denotes, EndpointMap.IsSwappedPeer, LooksLikeEndpoint, Find;
    var line := Trim(env.space, raw);
    var left, right :| line == left + "=" + right && '=' !in left && !Comment(line)
      && address == Trim(env.space, left) && IsAddress(address)
      && Grammar.Denotes(env, Trim(env.space, right), false, ep) && ep.kind != Endpoint.Serial;
    SwappedIff(address);
    EqualsIff(line, left, right);
    Grammar.ParsesIff(env, Trim(env.space, right), false, ep);
    NothingTrims(env);
  }

  /** Comments are skipped, lines that say something are entries under the canonical spelling, all else is bad. */
  lemma MapLineReads(env: Endpoint.Platform, raw: string, address: string, spelling: string)
    ensures EndpointMap.ReadLine(env, raw) == EndpointMap.Blank <==> Comment(Trim(env.space, raw))
    ensures EndpointMap.ReadLine(env, raw) == EndpointMap.Entry(address, spelling)
       <==> exists ep :: MapLineSays(env, raw, address, ep) && spelling == Endpoint.Format(ep)
  {
    BlankIff(env, raw);
    hide Trim, EndpointMap.ReadLine, MapLineSays, Endpoint.Format;
    if EndpointMap.ReadLine(env, raw) == EndpointMap.Entry(address, spelling) {
      var ep := EntrySays(env, raw);
    }
    if ep :| MapLineSays(env, raw, address, ep) && spelling == Endpoint.Format(ep) {
      SaidIsRead(env, raw, address, ep);
    }
  }

  lemma BlankIff(env: Endpoint.Platform, raw: string)
    ensures EndpointMap.ReadLine(env, raw) == EndpointMap.Blank <==> Comment(Trim(env.space, raw))
  {
    hide Trim, Endpoint.Parse, Endpoint.Format, EndpointMap.IsSwappedPeer, Find;
  }

  lemma NothingTrims(env: Endpoint.Platform)
    ensures Trim(env.space, "") == ""
  {
  }

  // ---------------------------------------------------------------------
  // The topology

  /** The words of a line that is no comment: a verb, blanks or tabs, and what it is about. */
  ghost predicate Says(raw: string, verb: string, left: string, right: string) {
    exists gap, rest ::
      && Trim(Pad, raw) == verb + gap + rest && !Comment(Trim(Pad, raw))
      && NoPad(verb) && AllPad(gap) && (gap == "" ==> rest == "") && (rest == "" || Trimmed(rest))
      && Sides(rest, left, right)
  }

  predicate NoPad(s: string) { forall i :: 0 <= i < |s| ==> !Pad(s[i]) }

  predicate AllPad(s: string) { forall i :: 0 <= i < |s| ==> Pad(s[i]) }

  predicate NoArrow(s: string) { forall i :: 0 <= i < |s| - 1 ==> !(s[i] == '-' && s[i + 1] == '>') }

  /** A declaration of an address, with or without an endpoint. */
  ghost predicate Declares(raw: string, verb: string, address: string, endpoint: string) {
    exists word, left, right ::
      && Says(raw, word, left, right) && EqFold(word, verb)
      && address == Trim(Pad, left) && endpoint == Trim(Pad, right) && IsAddress(address)
  }

  /** An edge: the listener is left of the first arrow and the dialer right of it. */
  ghost predicate Links(raw: string, e: Edge) {
    exists word, listener, dialer, right ::
      && Says(raw, word, listener + "->" + dialer, right) && EqFold(word, "link")
      && Joins(listener, dialer, right, e)
  }

  ghost predicate Joins(listener: string, dialer: string, endpoint: string, e: Edge) {
    && NoArrow(listener) && e == Edge(Trim(Pad, listener), Trim(Pad, dialer), Trim(Pad, endpoint))
    && IsAddress(e.listener) && IsAddress(e.dialer) && e.listener != e.dialer
  }

  /** What a line means. */
  ghost predicate Means(raw: string, st: Statement) {
    match st
    case Nothing => Comment(Trim(Pad, raw))
    case Hub(address, endpoint) => Declares(raw, "hub", address, endpoint)
    case At(address, endpoint) => Declares(raw, "at", address, endpoint) && endpoint != ""
    case Link(e) => Links(raw, e)
    case Junk => false
  }

  /** A trimmed line comes apart into its first word and the rest. */
  lemma WordsApart(line: string) returns (gap: string)
    requires Trimmed(line)
    ensures var n := WordLength(line);
      var rest := Trim(Pad, line[n..]);
      && line == line[..n] + gap + rest && NoPad(line[..n]) && AllPad(gap)
      && (gap == "" ==> rest == "") && (rest == "" || Trimmed(rest))
  {
    hide Trim;
    var n := WordLength(line);
    var tail := line[n..];
    var i, j := TrimSlice(Pad, tail);
    assert tail != "" ==> tail[|tail| - 1] == line[|line| - 1] && tail[0] == line[n];
    assert j == |tail| && (tail != "" ==> i < j);
    gap := tail[..i];
    assert tail == gap + tail[i..j];
    assert line == line[..n] + tail;
  }

  lemma WordsTogether(line: string, verb: string, gap: string, rest: string)
    requires line == verb + gap + rest && NoPad(verb) && AllPad(gap)
    requires (gap == "" ==> rest == "") && (rest == "" || Trimmed(rest))
    ensures WordLength(line) == |verb| && line[..|verb|] == verb && Trim(Pad, line[|verb|..]) == rest
  {
    hide Trim;
    assert line[..|verb|] == verb && line[|verb|..] == gap + rest;
    assert forall i :: 0 <= i < |verb| ==> line[i] == verb[i];
    assert gap != "" ==> line[|verb|] == gap[0];
    TrimIs(Pad, gap + rest, |gap|, |gap + rest|);
    assert (gap + rest)[|gap|..|gap + rest|] == rest;
  }

  lemma SidesIff(text: string, left: string, right: string)
    ensures SplitAtEquals(text) == (left, right) <==> Sides(text, left, right)
  {
    EqualsIff(text, left, right);
    assert '=' in text <==> Find(text, '=') >= 0;
    if SplitAtEquals(text) == (left, right) && '=' in text { EqualsIff(text, left, right); }
  }

  lemma {:induction false} ArrowIsFirst(s: string)
    ensures var i := FindArrow(s); NoArrow(if i < 0 then s else s[..i])
  {
    if |s| >= 2 && !(s[0] == '-' && s[1] == '>') {
      ArrowIsFirst(s[1..]);
      var j := FindArrow(s[1..]);
      var inner := if j < 0 then s[1..] else s[1..][..j];
      var outer := if j < 0 then s else s[..j + 1];
      assert forall k :: 1 <= k < |outer| ==> outer[k] == inner[k - 1];
      assert forall k :: 1 <= k < |outer| - 1 ==> !(outer[k] == '-' && outer[k + 1] == '>') by {
        forall k | 1 <= k < |outer| - 1 ensures !(outer[k] == '-' && outer[k + 1] == '>') {
          assert !(inner[k - 1] == '-' && inner[k] == '>');
        }
      }
    }
  }

  lemma ArrowIff(text: string, left: string, right: string)
    ensures text == left + "->" + right && NoArrow(left)
       <==> FindArrow(text) == |left| && text[..|left|] == left && text[|left| + 2..] == right
  {
    ArrowIsFirst(text);
    var i := FindArrow(text);
    if text == left + "->" + right && NoArrow(left) {
      assert text[|left|] == '-' && text[|left| + 1] == '>';
      assert text[..|left|] == left && text[|left| + 2..] == right;
      assert 0 <= i ==> forall k :: 0 <= k < i ==> text[..i][k] == text[k];
      assert forall k :: 0 <= k < |left| ==> text[k] == left[k];
      assert i == |left|;
    }
    if i == |left| && text[..|left|] == left && text[|left| + 2..] == right {
      assert text == text[..i] + [text[i], text[i + 1]] + text[i + 2..];
    }
  }

  // ---------------------------------------------------------------------
  // The reader and the meaning agree

  /** The three verbs are told apart by their length alone. */
  lemma VerbReads(word: string, left: string, right: string, rest: string)
    requires SplitAtEquals(rest) == (left, right)
    ensures ReadVerb(word, rest) ==
      if EqFold(word, "hub") then ReadDeclaration(true, left, right)
      else if EqFold(word, "at") then ReadDeclaration(false, left, right)
      else if EqFold(word, "link") then ReadEdge(left, right)
      else Junk
  {
  }

  /** What a line that is no comment is read as. */
  lemma SaidReads(raw: string, word: string, left: string, right: string)
    requires Says(raw, word, left, right)
    ensures ReadStatement(raw) ==
      if EqFold(word, "hub") then ReadDeclaration(true, left, right)
      else if EqFold(word, "at") then ReadDeclaration(false, left, right)
      else if EqFold(word, "link") then ReadEdge(left, right)
      else Junk
  {
    hide Trim, EqFold, ReadDeclaration, ReadEdge, ReadVerb, SplitAtEquals, WordLength, Sides, NoPad, AllPad;
    var line := Trim(Pad, raw);
    var gap, rest :| line == word + gap + rest && !Comment(line)
      && NoPad(word) && AllPad(gap) && (gap == "" ==> rest == "") && (rest == "" || Trimmed(rest))
      && Sides(rest, left, right);
    WordsTogether(line, word, gap, rest);
    SidesIff(rest, left, right);
    VerbReads(word, left, right, rest);
  }

  lemma SomethingIsSaid(raw: string) returns (word: string, left: string, right: string)
    requires !Comment(Trim(Pad, raw))
    ensures Says(raw, word, left, right)
  {
    hide Trim, SplitAtEquals, WordLength, Sides, NoPad, AllPad;
    var line := Trim(Pad, raw);
    word := line[..WordLength(line)];
    var rest := Trim(Pad, line[|word|..]);
    var gap := WordsApart(line);
    left, right := SplitAtEquals(rest).0, SplitAtEquals(rest).1;
    SidesIff(rest, left, right);
  }

  lemma EdgeJoins(left: string, right: string) returns (listener: string, dialer: string)
    requires ReadEdge(left, right).Link?
    ensures left == listener + "->" + dialer && Joins(listener, dialer, right, ReadEdge(left, right).edge)
  {
    hide Trim, EndpointMap.IsSwappedPeer, LooksLikeEndpoint, NoArrow, FindArrow;
    var i := FindArrow(left);
    listener, dialer := left[..i], left[i + 2..];
    ArrowIff(left, listener, dialer);
    SwappedIff(Trim(Pad, listener));
    SwappedIff(Trim(Pad, dialer));
  }

  lemma JoinedIsRead(listener: string, dialer: string, right: string, e: Edge)
    requires Joins(listener, dialer, right, e)
    ensures ReadEdge(listener + "->" + dialer, right) == Link(e)
  {
    hide Trim, EndpointMap.IsSwappedPeer, LooksLikeEndpoint, NoArrow, FindArrow;
    ArrowIff(listener + "->" + dialer, listener, dialer);
    SwappedIff(e.listener);
    SwappedIff(e.dialer);
  }

  lemma DeclarationIff(hub: bool, left: string, right: string, address: string, endpoint: string)
    ensures ReadDeclaration(hub, left, right) == (if hub then Hub(address, endpoint) else At(address, endpoint))
       <==> address == Trim(Pad, left) && endpoint == Trim(Pad, right) && IsAddress(address) && (hub || endpoint != "")
  {
    hide Trim, EndpointMap.IsSwappedPeer, LooksLikeEndpoint;
    SwappedIff(Trim(Pad, left));
  }

  lemma ReadIsMeant(raw: string)
    requires ReadStatement(raw) != Junk
    ensures Means(raw, ReadStatement(raw))
  {
    hide Trim, ReadDeclaration, ReadEdge, ReadVerb, WordLength, Says, IsAddress;
    var st := ReadStatement(raw);
    if !Comment(Trim(Pad, raw)) {
      var word, left, right := SomethingIsSaid(raw);
      SaidReads(raw, word, left, right);
      hide EqFold;
      EdgeShape(true, left, right);
      EdgeShape(false, left, right);
      if st.Link? {
        var listener, dialer := EdgeJoins(left, right);
        assert Links(raw, st.edge);
      } else if st.Hub? {
        DeclarationIff(true, left, right, st.address, st.endpoint);
      } else if st.At? {
        DeclarationIff(false, left, right, st.address, st.endpoint);
      }
    }
  }

  /** Declarations declare and edges link. */
  lemma EdgeShape(hub: bool, left: string, right: string)
    ensures ReadEdge(left, right).Link? || ReadEdge(left, right) == Junk
    ensures ReadDeclaration(hub, left, right) == Junk
            || if hub then ReadDeclaration(hub, left, right).Hub? else ReadDeclaration(hub, left, right).At?
  {
    hide Trim, EndpointMap.IsSwappedPeer, FindArrow;
  }

  lemma MeantIsRead(raw: string, st: Statement)
    requires Means(raw, st)
    ensures ReadStatement(raw) == st
  {
    hide Trim, ReadDeclaration, ReadEdge, ReadVerb, WordLength, Says, IsAddress, Joins;
    match st
    case Nothing =>
    case Hub(address, endpoint) =>
      var word, left, right :| Says(raw, word, left, right) && EqFold(word, "hub")
        && address == Trim(Pad, left) && endpoint == Trim(Pad, right) && IsAddress(address);
      SaidReads(raw, word, left, right);
      DeclarationIff(true, left, right, address, endpoint);
    case At(address, endpoint) =>
      var word, left, right :| Says(raw, word, left, right) && EqFold(word, "at")
        && address == Trim(Pad, left) && endpoint == Trim(Pad, right) && IsAddress(address);
      SaidReads(raw, word, left, right);
      DeclarationIff(false, left, right, address, endpoint);
    case Link(e) =>
      var word, listener, dialer, right :| Says(raw, word, listener + "->" + dialer, right) && EqFold(word, "link")
        && Joins(listener, dialer, right, e);
      SaidReads(raw, word, listener + "->" + dialer, right);
      JoinedIsRead(listener, dialer, right, e);
  }

  /** A line is read as exactly what it means, and is junk exactly when it means nothing. */
  lemma StatementReads(raw: string, st: Statement)
    ensures st != Junk ==> (ReadStatement(raw) == st <==> Means(raw, st))
    ensures ReadStatement(raw) == Junk <==> forall other: Statement :: !Means(raw, other)
  {
    hide ReadStatement, Means;
    if ReadStatement(raw) != Junk { ReadIsMeant(raw); }
    JunkMeansNothing(raw);
    forall other: Statement | Means(raw, other) ensures ReadStatement(raw) == other && other != Junk {
      MeantIsRead(raw, other);
      JunkMeansNothing(raw);
    }
  }

  lemma JunkMeansNothing(raw: string)
    ensures !Means(raw, Junk)
  {
  }

  // ---------------------------------------------------------------------
  // The plain spellings

  /** What a plain line ends with: nothing, or an endpoint. */
  function Stated(endpoint: string): string { if endpoint == "" then "" else " = " + endpoint }

  /** The plain text after the verb comes apart as it was put together. */
  ghost predicate PlainlySplit(text: string, left: string, endpoint: string) {
    var (l, r) := SplitAtEquals(text);
    && Trimmed(text) && l == left + (if endpoint == "" then "" else " ")
    && Trim(Pad, l) == left && Trim(Pad, r) == endpoint
  }

  lemma PlainSides(left: string, endpoint: string)
    requires '=' !in left && Trimmed(left) && (endpoint == "" || Trimmed(endpoint))
    ensures PlainlySplit(left + Stated(endpoint), left, endpoint)
  {
    if endpoint == "" {
      assert left + Stated(endpoint) == left;
      hide Stated;
      BareSides(left);
    } else {
      assert left + Stated(endpoint) == left + " = " + endpoint;
      hide Stated, PlainlySplit;
      StatedSides(left, endpoint);
    }
  }

  lemma BareSides(left: string)
    requires '=' !in left && Trimmed(left)
    ensures PlainlySplit(left, left, "")
  {
    TrimFixed(Pad, left);
    TrimFixed(Pad, "");
    SidesIff(left, left, "");
    hide Trim, SplitAtEquals;
    assert left + "" == left;
  }

  lemma StatedSides(left: string, endpoint: string)
    requires '=' !in left && Trimmed(left) && Trimmed(endpoint)
    ensures PlainlySplit(left + " = " + endpoint, left, endpoint)
  {
    hide Trim, SplitAtEquals;
    var text := left + " = " + endpoint;
    assert text[0] == left[0] && text[|text| - 1] == endpoint[|endpoint| - 1];
    assert text == (left + " ") + "=" + ([' '] + endpoint);
    SidesIff(text, left + " ", [' '] + endpoint);
    TrimPadded(Pad, left, ' ');
    TrimPadded(Pad, endpoint, ' ');
  }

  /** Every plain hub line declares exactly that hub, with exactly that endpoint. */
  lemma HubLineReads(address: string, endpoint: string)
    requires Trimmed(address) && '=' !in address && IsAddress(address) && (endpoint == "" || Trimmed(endpoint))
    ensures ReadStatement("hub" + ([' '] + (address + Stated(endpoint)))) == Hub(address, endpoint)
  {
    hide Trimmed, Trim, SplitAtEquals, Stated, IsAddress, ReadStatement;
    PlainSides(address, endpoint);
    var rest := address + Stated(endpoint);
    VerbLineReads("hub", rest);
    var (left, right) := SplitAtEquals(rest);
    VerbReads("hub", left, right, rest);
    DeclarationIff(true, left, right, address, endpoint);
  }

  lemma ArrowInPlain(listener: string, dialer: string, pad: string)
    requires Trimmed(listener) && Trimmed(dialer) && NoArrow(listener) && pad in {"", " "}
    ensures listener + " -> " + dialer + pad == (listener + " ") + "->" + ([' '] + (dialer + pad))
    ensures NoArrow(listener + " ")
    ensures Trim(Pad, listener + " ") == listener && Trim(Pad, [' '] + (dialer + pad)) == dialer
  {
    hide Trim;
    var inner := [' '] + (dialer + pad);
    TrimPadded(Pad, listener, ' ');
    TrimIs(Pad, inner, 1, |dialer| + 1);
    assert inner[1..|dialer| + 1] == dialer;
  }

  /** Every plain link line is exactly that edge: the listener left of the arrow, the dialer right of it. */
  lemma LinkLineReads(listener: string, dialer: string, endpoint: string)
    requires Trimmed(listener) && '=' !in listener && IsAddress(listener) && NoArrow(listener)
    requires Trimmed(dialer) && '=' !in dialer && IsAddress(dialer) && listener != dialer
    requires endpoint == "" || Trimmed(endpoint)
    ensures ReadStatement("link" + ([' '] + (listener + " -> " + dialer + Stated(endpoint))))
         == Link(Edge(listener, dialer, endpoint))
  {
    hide Trimmed, Trim, Stated, IsAddress, NoArrow, ReadStatement, ReadVerb;
    var pair := listener + " -> " + dialer;
    PairIsTrimmed(listener, dialer);
    PlainSides(pair, endpoint);
    VerbLineReads("link", pair + Stated(endpoint));
    PairReads(listener, dialer, endpoint);
  }

  lemma PairIsTrimmed(listener: string, dialer: string)
    requires Trimmed(listener) && Trimmed(dialer) && '=' !in listener && '=' !in dialer
    ensures Trimmed(listener + " -> " + dialer) && '=' !in listener + " -> " + dialer
  {
    var pair := listener + " -> " + dialer;
    assert pair[0] == listener[0] && pair[|pair| - 1] == dialer[|dialer| - 1];
  }

  lemma PairReads(listener: string, dialer: string, endpoint: string)
    requires Trimmed(listener) && '=' !in listener && IsAddress(listener) && NoArrow(listener)
    requires Trimmed(dialer) && '=' !in dialer && IsAddress(dialer) && listener != dialer
    requires endpoint == "" || Trimmed(endpoint)
    ensures ReadVerb("link", listener + " -> " + dialer + Stated(endpoint)) == Link(Edge(listener, dialer, endpoint))
  {
    hide Trimmed, Trim, SplitAtEquals, Stated, IsAddress, NoArrow, ReadVerb, ReadEdge, ReadDeclaration;
    PairIsTrimmed(listener, dialer);
    var pair := listener + " -> " + dialer;
    PlainSides(pair, endpoint);
    var (left, right) := SplitAtEquals(pair + Stated(endpoint));
    VerbReads("link", left, right, pair + Stated(endpoint));
    var pad := if endpoint == "" then "" else " ";
    ArrowInPlain(listener, dialer, pad);
    assert left == pair + pad;
    JoinedIsRead(listener + " ", [' '] + (dialer + pad), right, Edge(listener, dialer, endpoint));
  }

  // ---------------------------------------------------------------------
  // What a text that parses holds

  predicate IsHub(st: Statement) { st.Hub? }

  predicate IsLink(st: Statement) { st.Link? }

  /** The lines of one kind, each of them once and in order. */
  ghost predicate Lists(stmts: seq<Statement>, lines: seq<nat>, kind: Statement -> bool) {
    && AllOf(stmts, lines, kind)
    && (forall i, j :: 0 <= i < j < |lines| ==> lines[i] < lines[j])
    && (forall k :: 0 <= k < |stmts| && kind(stmts[k]) ==> k + 1 in lines)
  }

  ghost predicate AllOf(stmts: seq<Statement>, lines: seq<nat>, kind: Statement -> bool) {
    forall i :: 0 <= i < |lines| ==> 1 <= lines[i] <= |stmts| && kind(stmts[lines[i] - 1])
  }

  ghost predicate HubAbove(stmts: seq<Statement>, k: nat, address: string)
    requires k <= |stmts|
  {
    exists j :: 0 <= j < k && stmts[j].Hub? && stmts[j].address == address
  }

  ghost predicate EntryAbove(stmts: seq<Statement>, k: nat, address: string)
    requires k <= |stmts|
  {
    exists j :: 0 <= j < k && DeclaresEntry(stmts[j]) && stmts[j].address == address
  }

  /** No hub and no endpoint of an address is declared twice, and an edge joins two hubs declared above it. */
  ghost predicate Stands(stmts: seq<Statement>, k: nat)
    requires k < |stmts|
  {
    var st := stmts[k];
    && st != Junk
    && (st.Hub? ==> !HubAbove(stmts, k, st.address))
    && (DeclaresEntry(st) ==> !EntryAbove(stmts, k, st.address))
    && (st.Link? ==> HubAbove(stmts, k, st.edge.listener) && HubAbove(stmts, k, st.edge.dialer))
  }

  lemma AboveInPrefix(stmts: seq<Statement>, n: nat, k: nat, address: string)
    requires k <= n <= |stmts|
    ensures HubAbove(stmts[..n], k, address) == HubAbove(stmts, k, address)
    ensures EntryAbove(stmts[..n], k, address) == EntryAbove(stmts, k, address)
  {
    hide DeclaresEntry;
    assert forall j :: 0 <= j < k ==> stmts[..n][j] == stmts[j];
  }

  lemma AboveStep(stmts: seq<Statement>, n: nat, address: string)
    requires n < |stmts|
    ensures HubAbove(stmts, n + 1, address)
       <==> HubAbove(stmts, n, address) || (stmts[n].Hub? && stmts[n].address == address)
    ensures EntryAbove(stmts, n + 1, address)
       <==> EntryAbove(stmts, n, address) || (DeclaresEntry(stmts[n]) && stmts[n].address == address)
  {
    hide DeclaresEntry;
  }

  /** What is recorded is what the lines above declared. */
  lemma {:induction false} BuildKnows(stmts: seq<Statement>, t: Topo, address: string)
    requires Build(stmts) == Some(t)
    ensures address in t.hubs <==> HubAbove(stmts, |stmts|, address)
    ensures address in t.entries <==> EntryAbove(stmts, |stmts|, address)
  {
    hide HubAbove, EntryAbove, Apply;
    if stmts == [] {
      NothingAbove(address);
    } else {
      var n := |stmts| - 1;
      var u := Build(stmts[..n]).value;
      BuildKnows(stmts[..n], u, address);
      AboveInPrefix(stmts, n, n, address);
      AboveStep(stmts, n, address);
      ApplyKnows(u, n + 1, stmts[n], t);
    }
  }

  lemma NothingAbove(address: string)
    ensures !HubAbove([], 0, address) && !EntryAbove([], 0, address)
  {
  }

  lemma ApplyKnows(u: Topo, lineNo: nat, st: Statement, t: Topo)
    requires Apply(u, lineNo, st) == Some(t)
    ensures t.hubs == if st.Hub? then u.hubs + [st.address] else u.hubs
    ensures t.entries == if DeclaresEntry(st) then u.entries + [st.address] else u.entries
    ensures t.edges == if st.Link? then u.edges + [st.edge] else u.edges
  {
  }

  lemma ApplyAccepts(u: Topo, lineNo: nat, st: Statement)
    ensures Apply(u, lineNo, st).Some? <==>
      && st != Junk
      && (st.Hub? ==> st.address !in u.hubs)
      && (DeclaresEntry(st) ==> st.address !in u.entries)
      && (st.Link? ==> st.edge.listener in u.hubs && st.edge.dialer in u.hubs)
  {
  }

  lemma StandsIff(stmts: seq<Statement>, n: nat, u: Topo)
    requires n < |stmts| && Build(stmts[..n]) == Some(u)
    ensures Apply(u, n + 1, stmts[n]).Some? <==> Stands(stmts, n)
  {
    hide HubAbove, EntryAbove, Apply, Build;
    var st := stmts[n];
    ApplyAccepts(u, n + 1, st);
    match st
    case Hub(address, _) =>
      BuildKnows(stmts[..n], u, address);
      AboveInPrefix(stmts, n, n, address);
    case At(address, _) =>
      BuildKnows(stmts[..n], u, address);
      AboveInPrefix(stmts, n, n, address);
    case Link(e) =>
      BuildKnows(stmts[..n], u, e.listener);
      BuildKnows(stmts[..n], u, e.dialer);
      AboveInPrefix(stmts, n, n, e.listener);
      AboveInPrefix(stmts, n, n, e.dialer);
    case Nothing =>
    case Junk =>
  }

  lemma StandsInPrefix(stmts: seq<Statement>, n: nat, k: nat)
    requires k < n <= |stmts|
    ensures Stands(stmts[..n], k) == Stands(stmts, k)
  {
    hide HubAbove, EntryAbove;
    var st := stmts[k];
    if st.Hub? || st.At? { AboveInPrefix(stmts, n, k, st.address); }
    if st.Link? {
      AboveInPrefix(stmts, n, k, st.edge.listener);
      AboveInPrefix(stmts, n, k, st.edge.dialer);
    }
  }

  /** A text is accepted exactly when every line of it stands. */
  lemma {:induction false} BuildsIff(stmts: seq<Statement>)
    ensures Build(stmts).Some? <==> forall k :: 0 <= k < |stmts| ==> Stands(stmts, k)
  {
    hide Stands, Apply;
    if stmts != [] {
      var n := |stmts| - 1;
      BuildsIff(stmts[..n]);
      forall k | 0 <= k < n ensures Stands(stmts[..n], k) == Stands(stmts, k) { StandsInPrefix(stmts, n, k); }
      if Build(stmts[..n]).Some? { StandsIff(stmts, n, Build(stmts[..n]).value); }
    }
  }

  /** And a refusal names the first line that does not. */
  lemma FirstRefused(stmts: seq<Statement>, bad: nat)
    requires 1 <= bad <= |stmts| && Build(stmts[..bad - 1]).Some? && Build(stmts[..bad]).None?
    ensures !Stands(stmts, bad - 1) && forall k :: 0 <= k < bad - 1 ==> Stands(stmts, k)
  {
    hide Stands, Apply, Build;
    BuildsIff(stmts[..bad - 1]);
    BuildsIff(stmts[..bad]);
    forall k | 0 <= k < bad ensures Stands(stmts[..bad], k) == Stands(stmts, k) { StandsInPrefix(stmts, bad, k); }
    forall k | 0 <= k < bad - 1 ensures Stands(stmts[..bad - 1], k) == Stands(stmts, k) {
      StandsInPrefix(stmts, bad - 1, k);
    }
  }

  lemma ListsStep(stmts: seq<Statement>, lines: seq<nat>, kind: Statement -> bool)
    requires stmts != [] && Lists(stmts[..|stmts| - 1], lines, kind)
    ensures Lists(stmts, if kind(stmts[|stmts| - 1]) then lines + [|stmts|] else lines, kind)
  {
    var n := |stmts| - 1;
    var more := if kind(stmts[n]) then lines + [|stmts|] else lines;
    AllOfLonger(stmts, lines, kind);
    forall i, j | 0 <= i < j < |more| ensures more[i] < more[j] {
      assert i < |lines| && more[i] == lines[i];
    }
    forall k | 0 <= k < |stmts| && kind(stmts[k]) ensures k + 1 in more {
      if k < n {
        assert kind(stmts[..n][k]);
      } else {
        assert more[|lines|] == k + 1;
      }
    }
  }

  lemma AllOfLonger(stmts: seq<Statement>, lines: seq<nat>, kind: Statement -> bool)
    requires stmts != [] && AllOf(stmts[..|stmts| - 1], lines, kind)
    ensures AllOf(stmts, lines, kind)
    ensures kind(stmts[|stmts| - 1]) ==> AllOf(stmts, lines + [|stmts|], kind)
  {
  }

  /** The edges that a list of link lines names, in its order. */
  ghost predicate EdgesAt(stmts: seq<Statement>, lines: seq<nat>, edges: seq<Edge>) {
    && AllOf(stmts, lines, IsLink) && |edges| == |lines|
    && forall i :: 0 <= i < |lines| ==> edges[i] == stmts[lines[i] - 1].edge
  }

  /** The hubs that a list of hub lines names, in its order. */
  ghost predicate HubsAt(stmts: seq<Statement>, lines: seq<nat>, hubs: seq<string>) {
    && AllOf(stmts, lines, IsHub) && |hubs| == |lines|
    && forall i :: 0 <= i < |lines| ==> hubs[i] == stmts[lines[i] - 1].address
  }

  lemma EdgesStep(stmts: seq<Statement>, lines: seq<nat>, edges: seq<Edge>)
    requires stmts != [] && EdgesAt(stmts[..|stmts| - 1], lines, edges)
    ensures var last := stmts[|stmts| - 1];
      if last.Link? then EdgesAt(stmts, lines + [|stmts|], edges + [last.edge]) else EdgesAt(stmts, lines, edges)
  {
    AllOfLonger(stmts, lines, IsLink);
  }

  lemma HubsStep(stmts: seq<Statement>, lines: seq<nat>, hubs: seq<string>)
    requires stmts != [] && HubsAt(stmts[..|stmts| - 1], lines, hubs)
    ensures var last := stmts[|stmts| - 1];
      if last.Hub? then HubsAt(stmts, lines + [|stmts|], hubs + [last.address]) else HubsAt(stmts, lines, hubs)
  {
    AllOfLonger(stmts, lines, IsHub);
  }

  /** The edges of a text that parses are those of its link lines, in order. */
  lemma {:induction false} BuildEdges(stmts: seq<Statement>, t: Topo) returns (lines: seq<nat>)
    requires Build(stmts) == Some(t)
    ensures Lists(stmts, lines, IsLink) && EdgesAt(stmts, lines, t.edges)
  {
    hide Apply, Lists, EdgesAt;
    if stmts == [] {
      lines := [];
      NothingListed();
    } else {
      var n := |stmts| - 1;
      var u := Build(stmts[..n]).value;
      lines := BuildEdges(stmts[..n], u);
      ListsStep(stmts, lines, IsLink);
      EdgesStep(stmts, lines, u.edges);
      ApplyKnows(u, n + 1, stmts[n], t);
      hide Build;
      if stmts[n].Link? { lines := lines + [n + 1]; }
    }
  }

  /** And so are its hubs those of its hub lines. */
  lemma {:induction false} BuildHubs(stmts: seq<Statement>, t: Topo) returns (lines: seq<nat>)
    requires Build(stmts) == Some(t)
    ensures Lists(stmts, lines, IsHub) && HubsAt(stmts, lines, t.hubs)
  {
    hide Apply, Lists, HubsAt;
    if stmts == [] {
      lines := [];
      NothingListed();
    } else {
      var n := |stmts| - 1;
      var u := Build(stmts[..n]).value;
      lines := BuildHubs(stmts[..n], u);
      ListsStep(stmts, lines, IsHub);
      HubsStep(stmts, lines, u.hubs);
      ApplyKnows(u, n + 1, stmts[n], t);
      hide Build;
      if stmts[n].Hub? { lines := lines + [n + 1]; }
    }
  }

  lemma NothingListed()
    ensures Lists([], [], IsLink) && Lists([], [], IsHub) && EdgesAt([], [], []) && HubsAt([], [], [])
  {
  }

  /**
   A topology that parses has the edges of its link lines in order, each between
   two different hubs that lines above it declare, and the hubs of its hub lines in
   order, none of them twice.
   */
  lemma ParsedTopology(text: string, t: Topo) returns (hubLines: seq<nat>, edgeLines: seq<nat>)
    requires Build(Statements(text)) == Some(t)
    ensures var stmts := Statements(text);
      && Lists(stmts, hubLines, IsHub) && HubsAt(stmts, hubLines, t.hubs)
      && Lists(stmts, edgeLines, IsLink) && EdgesAt(stmts, edgeLines, t.edges)
      && forall i :: 0 <= i < |edgeLines| ==>
           && t.edges[i].listener != t.edges[i].dialer
           && HubAbove(stmts, edgeLines[i] - 1, t.edges[i].listener)
           && HubAbove(stmts, edgeLines[i] - 1, t.edges[i].dialer)
    ensures forall i, j :: 0 <= i < j < |t.hubs| ==> t.hubs[i] != t.hubs[j]
  {
    hide Build, Lists, ReadStatement, HubAbove, Stands;
    var stmts := Statements(text);
    hubLines := BuildHubs(stmts, t);
    edgeLines := BuildEdges(stmts, t);
    BuildsIff(stmts);
    forall i | 0 <= i < |edgeLines|
      ensures t.edges[i].listener != t.edges[i].dialer
      ensures HubAbove(stmts, edgeLines[i] - 1, t.edges[i].listener)
      ensures HubAbove(stmts, edgeLines[i] - 1, t.edges[i].dialer)
    {
      EdgeStands(stmts, edgeLines[i] - 1);
      EndsDiffer(Lines(text)[edgeLines[i] - 1]);
    }
    forall i, j | 0 <= i < j < |t.hubs| ensures t.hubs[i] != t.hubs[j] {
      ListsInOrder(stmts, hubLines, IsHub, i, j);
      HubStands(stmts, hubLines[j] - 1, hubLines[i] - 1);
    }
  }

  lemma ListsInOrder(stmts: seq<Statement>, lines: seq<nat>, kind: Statement -> bool, i: nat, j: nat)
    requires Lists(stmts, lines, kind) && i < j < |lines|
    ensures lines[i] < lines[j]
  {
  }

  lemma EdgeStands(stmts: seq<Statement>, k: nat)
    requires k < |stmts| && Stands(stmts, k) && stmts[k].Link?
    ensures HubAbove(stmts, k, stmts[k].edge.listener) && HubAbove(stmts, k, stmts[k].edge.dialer)
  {
  }

  lemma HubStands(stmts: seq<Statement>, k: nat, j: nat)
    requires j < k < |stmts| && Stands(stmts, k) && stmts[k].Hub? && stmts[j].Hub?
    ensures stmts[j].address != stmts[k].address
  {
  }

  lemma EndsDiffer(raw: string)
    requires ReadStatement(raw).Link?
    ensures ReadStatement(raw).edge.listener != ReadStatement(raw).edge.dialer
  {
    hide ReadStatement, Says, IsAddress, Trim;
    StatementReads(raw, ReadStatement(raw));
  }
}
