/**
 The message object a client fills with named fields (src/FacadeMessage.cpp),
 the size check it meets when sent and the index of names that travels beside
 the fields (src/FacadeHub.cpp).
 */
module Message {
  import opened Text

  const MAX_FIELDS: nat := 64
  const MAX_FIELD_NAME: nat := 63
  const MAX_FIELD_SIZE: nat := 8192
  const MAX_PAYLOAD: nat := 24 * 1024
  const PER_FIELD_OVERHEAD: nat := 32

  type Byte = bv8

  /** What a wchar_t pointer can carry: no NUL before its end. */
  predicate NulFree(s: string) { forall i :: 0 <= i < |s| ==> s[i] != '\0' }

  datatype Code = S_OK | S_FALSE | E_POINTER | E_INVALIDARG | E_RESERVED | E_LIMIT | E_NO_FIELD | E_MORE_DATA

  datatype Field = Field(name: string, value: seq<Byte>)

  predicate Distinct(fields: seq<Field>) {
    forall i, j :: 0 <= i < j < |fields| ==> fields[i].name != fields[j].name
  }

  predicate IsReservedField(name: string) { "P2PF" <= name }

  /** What a client may name a field. */
  predicate NameAllowed(name: string) {
    NulFree(name) && name != "" && !IsReservedField(name) && |name| <= MAX_FIELD_NAME
  }

  /** What no sequence of calls can break. */
  predicate Good(fields: seq<Field>) {
    && Distinct(fields)
    && |fields| <= MAX_FIELDS
    && (forall i :: 0 <= i < |fields| ==> NameAllowed(fields[i].name) && |fields[i].value| <= MAX_FIELD_SIZE)
  }

  /** The fields as a client means them: a value for each name. */
  function View(fields: seq<Field>): map<string, seq<Byte>>
    requires Distinct(fields)
  {
    map i | 0 <= i < |fields| :: fields[i].name := fields[i].value
  }

  /** And the order GetFieldName promises. */
  function Names(fields: seq<Field>): (names: seq<string>)
    ensures |names| == |fields|
    ensures forall i :: 0 <= i < |fields| ==> names[i] == fields[i].name
  {
    seq(|fields|, i requires 0 <= i < |fields| => fields[i].name)
  }

  function Charge(f: Field): nat { |f.value| + 2 * |f.name| + PER_FIELD_OVERHEAD }

  function Charges(fields: seq<Field>): nat {
    if fields == [] then 0 else Charges(fields[..|fields| - 1]) + Charge(fields[|fields| - 1])
  }

  lemma {:induction false} ChargesBounded(fields: seq<Field>)
    requires forall i :: 0 <= i < |fields| ==> |fields[i].name| <= MAX_FIELD_NAME && |fields[i].value| <= MAX_FIELD_SIZE
    ensures Charges(fields) <= |fields| * (MAX_FIELD_SIZE + 2 * MAX_FIELD_NAME + PER_FIELD_OVERHEAD)
  {
    if fields != [] { ChargesBounded(fields[..|fields| - 1]); }
  }

  lemma ChargesOfNone(fields: seq<Field>)
    ensures Charges(fields[..0]) == 0
  {
  }

  lemma ChargesStep(fields: seq<Field>, i: nat)
    requires Good(fields) && i < |fields|
    ensures Charges(fields[..i + 1]) == Charges(fields[..i]) + Charge(fields[i])
    ensures Charges(fields[..i + 1]) <= MAX_FIELDS * (MAX_FIELD_SIZE + 2 * MAX_FIELD_NAME + PER_FIELD_OVERHEAD)
  {
    assert fields[..i + 1][..i] == fields[..i];
    ChargesBounded(fields[..i + 1]);
  }

  /** The bytes of all values, and the characters of all names. */
  function AllBytes(fields: seq<Field>): seq<Byte> {
    if fields == [] then [] else fields[0].value + AllBytes(fields[1..])
  }

  function AllNames(fields: seq<Field>): string {
    if fields == [] then "" else fields[0].name + AllNames(fields[1..])
  }

  /** The charge is for every byte of a value, two bytes for every character of a name and 32 for every field. */
  lemma {:induction false} ChargesAreBytes(fields: seq<Field>)
    ensures Charges(fields) == |AllBytes(fields)| + 2 * |AllNames(fields)| + 32 * |fields|
  {
    if fields != [] {
      ChargesAreBytes(fields[1..]);
      ChargesOfFirst(fields);
    }
  }

  lemma {:induction false} ChargesOfFirst(fields: seq<Field>)
    requires fields != []
    ensures Charges(fields) == Charge(fields[0]) + Charges(fields[1..])
  {
    if |fields| > 1 {
      var init := fields[..|fields| - 1];
      ChargesOfFirst(init);
      assert fields[1..][..|fields| - 2] == init[1..];
    } else {
      assert fields[..0] == [] && fields[1..] == [];
    }
  }

  newtype uint32 = x: int | 0 <= x < 0x1_0000_0000

  /** Hand one blob back through the caller's buffer; have is the capacity it claims, None a missing size. */
  method CopyOutBytes(value: seq<Byte>, buf: array?<Byte>, have: Option<nat>) returns (code: Code, needed: nat)
    requires buf != null && have.Some? ==> have.value <= buf.Length
    modifies if buf == null then {} else {buf}
    ensures have.Some? ==> needed == |value|
    ensures code == if have == None then E_POINTER
                    else if buf == null || |value| <= have.value then S_OK
                    else E_MORE_DATA
    ensures buf != null && code == S_OK ==> |value| <= buf.Length && buf[..|value|] == value
    ensures buf != null ==>
      forall j :: (if code == S_OK then |value| else 0) <= j < buf.Length ==> buf[j] == old(buf[j])
  {
    if have == None { return E_POINTER, 0; }
    needed := |value|;
    if buf == null { return S_OK, needed; }
    if have.value < |value| { return E_MORE_DATA, needed; }
    var i := 0;
    while i < |value|
      invariant 0 <= i <= |value|
      invariant forall j :: 0 <= j < i ==> buf[j] == value[j]
      invariant forall j :: i <= j < buf.Length ==> buf[j] == old(buf[j])
    {
      buf[i] := value[i];
      i := i + 1;
    }
    return S_OK, needed;
  }

  class FacadeMessage {
    var payload: seq<Byte>
    var fields: seq<Field>

    ghost predicate Valid()
      reads this
    {
      Good(fields) && |payload| <= MAX_PAYLOAD
    }

    constructor ()
      ensures Valid() && fields == [] && payload == []
    {
      payload, fields := [], [];
    }

    /** The position of the field of that name, or -1. */
    method Find(name: string) returns (k: int)
      ensures -1 <= k < |fields|
      ensures k >= 0 ==> fields[k].name == name && name in Names(fields)
      ensures k < 0 ==> name !in Names(fields)
    {
      k := 0;
      while k < |fields|
        invariant 0 <= k <= |fields|
        invariant forall i :: 0 <= i < k ==> fields[i].name != name
      {
        if fields[k].name == name {
          assert Names(fields)[k] == name;
          return;
        }
        k := k + 1;
      }
      k := -1;
    }

    method SetPayload(bytes: Option<seq<Byte>>, size: nat) returns (code: Code)
      requires Valid() && (bytes.Some? ==> size <= |bytes.value|)
      modifies this`payload
      ensures Valid()
      ensures code == if size > MAX_PAYLOAD then E_INVALIDARG else if bytes == None && size > 0 then E_POINTER else S_OK
      ensures payload == if code != S_OK then old(payload) else if size == 0 then [] else bytes.value[..size]
    {
      if size > MAX_PAYLOAD { return E_INVALIDARG; }
      if bytes == None && size > 0 { return E_POINTER; }
      payload := [];
      if size > 0 { payload := bytes.value[..size]; }
      return S_OK;
    }

    /** Replacing a value keeps the field's place; only a new name goes to the end. */
    method SetField(name: Option<string>, bytes: Option<seq<Byte>>, size: nat) returns (code: Code)
      requires Valid() && (name.Some? ==> NulFree(name.value)) && (bytes.Some? ==> size <= |bytes.value|)
      modifies this`fields
      ensures Valid()
      ensures code == (
        if name == None then E_POINTER
        else if name.value == "" then E_INVALIDARG
        else if "P2PF" <= name.value then E_RESERVED
        else if bytes == None && size > 0 then E_POINTER
        else if |name.value| > MAX_FIELD_NAME || size > MAX_FIELD_SIZE then E_LIMIT
        else if name.value !in old(Names(fields)) && |old(fields)| >= MAX_FIELDS then E_LIMIT
        else S_OK)
      ensures code != S_OK ==> fields == old(fields)
      ensures code == S_OK ==>
        && View(fields) == old(View(fields))[name.value := if size == 0 then [] else bytes.value[..size]]
        && Names(fields) == old(Names(fields)) + (if name.value in old(Names(fields)) then [] else [name.value])
    {
      if name == None { return E_POINTER; }
      if name.value == "" { return E_INVALIDARG; }
      if IsReservedField(name.value) { return E_RESERVED; }
      if bytes == None && size > 0 { return E_POINTER; }
      if |name.value| > MAX_FIELD_NAME || size > MAX_FIELD_SIZE { return E_LIMIT; }
      hide View, Names, Good;
      ghost var was := fields;
      var k := Find(name.value);
      ghost var found := k;
      if k < 0 {
        if |fields| >= MAX_FIELDS { return E_LIMIT; }
        k := |fields|;
        fields := fields + [Field(name.value, [])];
      }
      var value := if size == 0 then [] else bytes.value[..size];
      fields := fields[k := Field(name.value, value)];
      SetShows(was, found, name.value, value);
      assert fields == SetAt(was, found, name.value, value);
      return S_OK;
    }

    method RemoveField(name: Option<string>) returns (code: Code)
      requires Valid()
      modifies this`fields
      ensures Valid()
      ensures code == if name == None then E_POINTER else if name.value in old(Names(fields)) then S_OK else S_FALSE
      ensures code != S_OK ==> fields == old(fields)
      ensures code == S_OK ==> View(fields) == old(View(fields)) - {name.value} && name.value !in Names(fields)
      ensures code == S_OK ==> Names(fields) == RemoveFirst(old(Names(fields)), name.value)
    {
      if name == None { return E_POINTER; }
      hide View, Names, Good, RemoveFirst;
      var k := Find(name.value);
      if k < 0 { return S_FALSE; }
      CutShows(fields, k);
      fields := fields[..k] + fields[k + 1..];
      return S_OK;
    }

    /** Present and empty is not absent: the code tells them apart. */
    method GetField(name: Option<string>, buf: array?<Byte>, have: Option<nat>) returns (code: Code, needed: nat)
      requires Valid() && (buf != null && have.Some? ==> have.value <= buf.Length)
      modifies if buf == null then {} else {buf}
      ensures name == None || have == None ==> code == E_POINTER
      ensures name.Some? && have.Some? ==> (code == E_NO_FIELD <==> name.value !in View(fields))
      ensures name.Some? && have.Some? && name.value in View(fields) ==>
        var v := View(fields)[name.value];
        && needed == |v|
        && code == (if buf == null || |v| <= have.value then S_OK else E_MORE_DATA)
        && (buf != null && code == S_OK ==> needed <= buf.Length && buf[..needed] == v)
      ensures buf != null ==>
        forall j :: (if code == S_OK then needed else 0) <= j < buf.Length ==> buf[j] == old(buf[j])
    {
      hide View, NameAllowed;
      needed := 0;
      if name == None || have == None { return E_POINTER, 0; }
      var k := Find(name.value);
      if k < 0 {
        ViewIs(fields);
        return E_NO_FIELD, 0;
      }
      ViewIs(fields);
      assert View(fields)[name.value] == fields[k].value;
      code, needed := CopyOutBytes(fields[k].value, buf, have);
    }

    method Clear()
      requires Valid()
      modifies this
      ensures Valid() && fields == [] && payload == []
    {
      payload, fields := [], [];
    }

    /** Everything on the wire fits; the 32-bit sum cannot wrap. */
    method CheckTotalSize() returns (code: Code)
      requires Valid()
      ensures code == if |payload| + |AllBytes(fields)| + 2 * |AllNames(fields)| + 32 * |fields| <= MAX_PAYLOAD
                      then S_OK else E_INVALIDARG
    {
      ChargesAreBytes(fields);
      hide Charges, NameAllowed, Distinct, AllBytes, AllNames;
      assert Charges(fields[..0]) == 0 by { ChargesOfNone(fields); }
      var total: uint32 := |payload| as uint32;
      var i := 0;
      while i < |fields|
        invariant 0 <= i <= |fields|
        invariant total as nat == |payload| + Charges(fields[..i])
      {
        ChargesStep(fields, i);
        total := total + |fields[i].value| as uint32 + |fields[i].name| as uint32 * 2 + PER_FIELD_OVERHEAD as uint32;
        i := i + 1;
      }
      assert fields[..i] == fields;
      return if total > MAX_PAYLOAD as uint32 then E_INVALIDARG else S_OK;
    }
  }

  function RemoveFirst(names: seq<string>, name: string): seq<string> {
    if names == [] then []
    else if names[0] == name then names[1..]
    else [names[0]] + RemoveFirst(names[1..], name)
  }

  /** The field at k with a new value, or with k < 0 a new field at the end. */
  function SetAt(fields: seq<Field>, k: int, name: string, value: seq<Byte>): seq<Field>
    requires k < |fields|
  {
    if k < 0 then fields + [Field(name, value)] else fields[k := Field(name, value)]
  }

  lemma SetShows(fields: seq<Field>, k: int, name: string, value: seq<Byte>)
    requires Good(fields) && k < |fields| && NameAllowed(name) && |value| <= MAX_FIELD_SIZE
    requires if k < 0 then name !in Names(fields) && |fields| < MAX_FIELDS else fields[k].name == name
    ensures var after := SetAt(fields, k, name, value);
      && Good(after) && View(after) == View(fields)[name := value]
      && Names(after) == Names(fields) + (if name in Names(fields) then [] else [name])
  {
    hide NameAllowed;
    if k < 0 { AppendShows(fields, Field(name, value)); } else { UpdateShows(fields, k, value); }
    assert k >= 0 ==> Names(fields)[k] == name;
  }

  lemma AppendShows(fields: seq<Field>, f: Field)
    requires Distinct(fields) && f.name !in Names(fields)
    ensures Distinct(fields + [f])
    ensures View(fields + [f]) == View(fields)[f.name := f.value]
    ensures Names(fields + [f]) == Names(fields) + [f.name]
  {
    var after := fields + [f];
    forall i | 0 <= i < |fields| ensures fields[i].name != f.name {
      assert Names(fields)[i] == fields[i].name;
    }
    assert Distinct(after);
    assert Names(after) == Names(fields) + [f.name];
    ViewIs(fields);
    hide View, Distinct, Names;
    var m := View(fields)[f.name := f.value];
    forall n | n in m ensures Named(after, n) {
      if n in View(fields) {
        StillNamed(fields, after, n);
      } else {
        assert after[|fields|].name == n;
      }
    }
    SameViews(after, m);
  }

  predicate Named(fields: seq<Field>, name: string) {
    exists i :: 0 <= i < |fields| && fields[i].name == name
  }

  lemma StillNamed(fields: seq<Field>, after: seq<Field>, name: string)
    requires Named(fields, name) && |fields| <= |after|
    requires forall i :: 0 <= i < |fields| ==> after[i].name == fields[i].name
    ensures Named(after, name)
  {
    var i :| 0 <= i < |fields| && fields[i].name == name;
    assert after[i].name == name;
  }

  lemma ViewIs(fields: seq<Field>)
    requires Distinct(fields)
    ensures forall i :: 0 <= i < |fields| ==>
      fields[i].name in View(fields) && View(fields)[fields[i].name] == fields[i].value
    ensures forall n :: n in View(fields) ==> Named(fields, n)
  {
  }

  /** A map is the view if it has each field's value and nothing else. */
  lemma SameViews(fields: seq<Field>, m: map<string, seq<Byte>>)
    requires Distinct(fields)
    requires forall i :: 0 <= i < |fields| ==> fields[i].name in m && m[fields[i].name] == fields[i].value
    requires forall n :: n in m ==> Named(fields, n)
    ensures View(fields) == m
  {
  }

  lemma UpdateShows(fields: seq<Field>, k: nat, value: seq<Byte>)
    requires k < |fields| && Distinct(fields)
    ensures var after := fields[k := Field(fields[k].name, value)];
      Distinct(after) && View(after) == View(fields)[fields[k].name := value] && Names(after) == Names(fields)
  {
    var after := fields[k := Field(fields[k].name, value)];
    assert forall i :: 0 <= i < |fields| ==> after[i].name == fields[i].name;
    assert Distinct(after);
    UpdateView(fields, k, after);
  }

  lemma UpdateView(fields: seq<Field>, k: nat, after: seq<Field>)
    requires k < |fields| == |after| && Distinct(fields) && Distinct(after)
    requires forall i :: 0 <= i < |fields| ==> after[i].name == fields[i].name && (i != k ==> after[i] == fields[i])
    ensures View(after) == View(fields)[fields[k].name := after[k].value]
  {
    ViewIs(fields);
    var m := View(fields)[fields[k].name := after[k].value];
    assert forall i :: 0 <= i < |fields| && i != k ==> fields[i].name != fields[k].name;
    hide View, Distinct;
    assert fields[k].name in View(fields);
    forall n | n in m ensures Named(after, n) {
      StillNamed(fields, after, n);
    }
    SameViews(after, m);
  }

  lemma CutShows(fields: seq<Field>, k: nat)
    requires k < |fields| && Good(fields)
    ensures var after := fields[..k] + fields[k + 1..];
      && Good(after) && View(after) == View(fields) - {fields[k].name}
      && fields[k].name !in Names(after) && Names(after) == RemoveFirst(Names(fields), fields[k].name)
  {
    var after := fields[..k] + fields[k + 1..];
    hide RemoveFirst, View, NameAllowed;
    CutNames(fields, k);
    CutIndex(fields, k, after);
    CutView(fields, k, after);
    hide Distinct;
    CutIsUnnamed(after, fields[k].name);
  }

  lemma CutIsUnnamed(after: seq<Field>, name: string)
    requires !Named(after, name)
    ensures name !in Names(after)
  {
  }

  lemma CutView(fields: seq<Field>, k: nat, after: seq<Field>)
    requires k < |fields| && Distinct(fields) && Distinct(after) && |after| == |fields| - 1
    requires forall i :: 0 <= i < |after| ==> after[i] == fields[if i < k then i else i + 1]
    ensures View(after) == View(fields) - {fields[k].name}
  {
    ViewIs(fields);
    var m := View(fields) - {fields[k].name};
    forall i | 0 <= i < |after| ensures after[i].name in m && m[after[i].name] == after[i].value {
      assert after[i] == fields[if i < k then i else i + 1];
    }
    hide Distinct, View;
    forall n | n in m ensures Named(after, n) {
      CutNamed(fields, k, after, n);
    }
    SameViews(after, m);
  }

  lemma CutNamed(fields: seq<Field>, k: nat, after: seq<Field>, name: string)
    requires k < |fields| && |after| == |fields| - 1 && Named(fields, name) && name != fields[k].name
    requires forall i :: 0 <= i < |after| ==> after[i] == fields[if i < k then i else i + 1]
    ensures Named(after, name)
  {
    var i :| 0 <= i < |fields| && fields[i].name == name;
    var j := if i < k then i else i - 1;
    assert after[j] == fields[i];
  }

  lemma CutIndex(fields: seq<Field>, k: nat, after: seq<Field>)
    requires k < |fields| && Distinct(fields) && after == fields[..k] + fields[k + 1..]
    ensures |after| == |fields| - 1 && Distinct(after)
    ensures forall i :: 0 <= i < |after| ==> after[i] == fields[if i < k then i else i + 1]
    ensures !Named(after, fields[k].name)
  {
    assert forall i :: 0 <= i < k ==> after[i] == fields[i];
    assert forall i :: k <= i < |after| ==> after[i] == fields[i + 1];
    forall i, j | 0 <= i < j < |after| ensures after[i].name != after[j].name {
    }
  }

  lemma CutNames(fields: seq<Field>, k: nat)
    requires k < |fields| && Distinct(fields)
    ensures Names(fields[..k] + fields[k + 1..]) == RemoveFirst(Names(fields), fields[k].name)
  {
    CutFirst(Names(fields), k);
    assert Names(fields[..k] + fields[k + 1..]) == Names(fields)[..k] + Names(fields)[k + 1..];
  }

  lemma {:induction false} CutFirst(names: seq<string>, k: nat)
    requires k < |names| && forall i :: 0 <= i < k ==> names[i] != names[k]
    ensures RemoveFirst(names, names[k]) == names[..k] + names[k + 1..]
  {
    if k > 0 {
      var rest := names[1..];
      CutFirst(rest, k - 1);
      assert RemoveFirst(names, names[k]) == [names[0]] + RemoveFirst(rest, names[k]);
      hide RemoveFirst;
      assert names[..k] == [names[0]] + rest[..k - 1];
      assert names[k + 1..] == rest[k..];
    }
  }

  // ---------------------------------------------------------------------
  // The index of names beside the fields

  function JoinTabs(names: seq<string>): string {
    if names == [] then ""
    else if |names| == 1 then names[0]
    else names[0] + "\t" + JoinTabs(names[1..])
  }

  predicate TabFree(s: string) { forall i :: 0 <= i < |s| ==> s[i] != '\t' }

  /** What is between the tabs, without what is empty. */
  function Tokens(s: string): seq<string> {
    var tab := Find(s, '\t');
    if tab < 0 then Solid(s) else Solid(s[..tab]) + Tokens(s[tab + 1..])
  }

  ghost predicate AllTabFree(r: seq<string>) { forall i :: 0 <= i < |r| ==> TabFree(r[i]) }

  lemma {:induction false} TokensAreTabFree(s: string)
    ensures AllTabFree(Tokens(s))
    decreases |s|
  {
    var tab := Find(s, '\t');
    if tab < 0 {
      SolidIsTabFree(s);
    } else {
      SolidIsTabFree(s[..tab]);
      TokensAreTabFree(s[tab + 1..]);
      AppendTabFree(Solid(s[..tab]), Tokens(s[tab + 1..]));
    }
  }

  lemma SolidIsTabFree(s: string)
    requires forall i :: 0 <= i < |s| ==> s[i] != '\t'
    ensures AllTabFree(Solid(s))
  {
  }

  lemma AppendTabFree(a: seq<string>, b: seq<string>)
    requires AllTabFree(a) && AllTabFree(b)
    ensures AllTabFree(a + b)
  {
    hide TabFree;
  }

  function Solid(s: string): seq<string> { if s == "" then [] else [s] }

  /** The stored index: the names joined by tabs and a terminator. */
  function StoredIndex(names: seq<string>): string { JoinTabs(names) + "\0" }

  lemma TokensCons(head: string, rest: string)
    requires TabFree(head)
    ensures Tokens(head + "\t" + rest) == Solid(head) + Tokens(rest)
  {
    var s := head + "\t" + rest;
    FindIs(s, '\t', |head|);
    assert s[..|head|] == head && s[|head| + 1..] == rest;
  }

  /** Tokens are what is between the tabs and is not empty: this and TokensOfOne say all there is to say of them. */
  lemma {:induction false} TokensAreBetweenTabs(a: string, b: string)
    ensures Tokens(a + "\t" + b) == Tokens(a) + Tokens(b)
    decreases |a|
  {
    hide Tokens, Solid;
    if TabFree(a) {
      TokensOfOne(a);
      TokensCons(a, b);
      SolidOfOne(a);
    } else {
      var head, rest := FirstTab(a);
      TokensAreBetweenTabs(rest, b);
      TokensCons(head, rest);
      TokensCons(head, rest + "\t" + b);
      TabsAssociate(head, rest, b);
      assert Solid(head) + (Tokens(rest) + Tokens(b)) == (Solid(head) + Tokens(rest)) + Tokens(b);
    }
  }

  lemma TabsAssociate(a: string, b: string, c: string)
    ensures a + "\t" + b + "\t" + c == a + "\t" + (b + "\t" + c)
  {
  }

  lemma FirstTab(s: string) returns (head: string, rest: string)
    requires !TabFree(s)
    ensures TabFree(head) && s == head + "\t" + rest
  {
    var tab := Find(s, '\t');
    head, rest := s[..tab], s[tab + 1..];
  }

  lemma TokensOfOne(s: string)
    requires TabFree(s)
    ensures Tokens(s) == if s == "" then [] else [s]
  {
    assert Find(s, '\t') < 0;
  }

  lemma SolidOfOne(s: string)
    ensures Solid(s) == if s == "" then [] else [s]
  {
  }

  /** What is left to read from a position. */
  function Rest(s: string, pos: int): seq<string> {
    if 0 <= pos <= |s| then Tokens(s[pos..]) else []
  }

  lemma RestAtStart(s: string)
    ensures Rest(s, 0) == Tokens(s)
  {
    assert s[0..] == s;
  }

  lemma RestPastEnd(s: string, pos: nat)
    requires pos >= |s|
    ensures Rest(s, pos) == []
  {
    assert s[|s|..] == "";
  }

  lemma SkipTab(s: string, from: nat)
    requires from < |s| && s[from] == '\t'
    ensures Rest(s, from) == Rest(s, from + 1)
  {
    FindIs(s[from..], '\t', 0);
    assert s[from..][..0] == "";
    assert s[from..][1..] == s[from + 1..];
  }

  lemma {:induction false} SkipTabs(s: string, start: nat, from: nat)
    requires start <= from <= |s| && forall i :: start <= i < from ==> s[i] == '\t'
    ensures Rest(s, start) == Rest(s, from)
    decreases from - start
  {
    if start < from {
      SkipTab(s, start);
      SkipTabs(s, start + 1, from);
    }
  }

  lemma TakeToken(s: string, from: nat, until: nat)
    requires from < until <= |s| && (until < |s| ==> s[until] == '\t')
    requires forall i :: from <= i < until ==> s[i] != '\t'
    ensures Rest(s, from) == [s[from..until]] + Rest(s, until + 1)
  {
    hide Tokens;
    var token := s[from..until];
    if until < |s| {
      assert s[from..] == token + "\t" + s[until + 1..];
      TokensCons(token, s[until + 1..]);
    } else {
      assert s[from..] == token;
      TokensOfOne(token);
    }
  }

  /** The end of the run of tabs, or of other characters, that starts at a position. */
  method Span(s: string, start: nat, tabs: bool) returns (end: nat)
    requires start <= |s|
    ensures start <= end <= |s| && (end < |s| ==> (s[end] == '\t') != tabs)
    ensures forall i :: start <= i < end ==> (s[i] == '\t') == tabs
  {
    end := start;
    while end < |s| && (s[end] == '\t') == tabs
      invariant start <= end <= |s|
      invariant forall i :: start <= i < end ==> (s[i] == '\t') == tabs
    {
      end := end + 1;
    }
  }

  /** CString::Tokenize with one delimiter; -1 says that nothing is left. */
  method Tokenize(s: string, start: nat) returns (token: string, next: int)
    ensures next == -1 ==> token == "" && Rest(s, start) == []
    ensures next != -1 ==> start < next && token != "" && Rest(s, start) == [token] + Rest(s, next)
    ensures next <= |s| + 1
  {
    hide Rest, Tokens;
    if start >= |s| {
      RestPastEnd(s, start);
      return "", -1;
    }
    var from := Span(s, start, true);
    SkipTabs(s, start, from);
    if from == |s| {
      RestPastEnd(s, from);
      return "", -1;
    }
    var until := Span(s, from, false);
    TakeToken(s, from, until);
    token, next := s[from..until], until + 1;
  }

  /** Scan to the terminator, however long the blob claims to be. */
  method TextOf(stored: string) returns (all: string)
    ensures all == UpToNul(stored)
  {
    var len := 0;
    while len < |stored| && stored[len] != '\0'
      invariant 0 <= len <= |stored|
      invariant forall i :: 0 <= i < len ==> stored[i] != '\0'
    {
      len := len + 1;
    }
    UpToNulIs(stored, len);
    all := stored[..len];
  }

  method TokenizeAll(all: string) returns (names: seq<string>)
    ensures names == Tokens(all)
  {
    hide Rest, Tokens;
    RestAtStart(all);
    names := [];
    var pos := 0;
    while true
      invariant 0 <= pos <= |all| + 1
      invariant Tokens(all) == names + Rest(all, pos)
      decreases |all| + 1 - pos
    {
      var one;
      one, pos := Tokenize(all, pos);
      if one == "" && pos < 0 { break; }
      if one != "" { names := names + [one]; }
      if pos < 0 { break; }
    }
  }

  /** The receiver's reading of the stored index; None or a blob too short for a character is no index. */
  method FieldNames(index: Option<string>) returns (ok: bool, names: seq<string>)
    ensures ok <==> index.Some? && index.value != ""
    ensures names == if ok then Tokens(UpToNul(index.value)) else []
  {
    if index == None || |index.value| < 1 { return false, []; }
    var all := TextOf(index.value);
    names := TokenizeAll(all);
    ok := true;
  }

  function UpToNul(s: string): string {
    if s == "" || s[0] == '\0' then "" else [s[0]] + UpToNul(s[1..])
  }

  lemma {:induction false} UpToNulIs(s: string, n: nat)
    requires n <= |s| && (n < |s| ==> s[n] == '\0')
    requires forall i :: 0 <= i < n ==> s[i] != '\0'
    ensures UpToNul(s) == s[..n]
  {
    if n > 0 {
      UpToNulIs(s[1..], n - 1);
      assert s[..n] == [s[0]] + s[1..][..n - 1];
    }
  }

  lemma {:induction false} TabFreeNamesSurvive(names: seq<string>)
    requires forall i :: 0 <= i < |names| ==> names[i] != "" && TabFree(names[i])
    ensures Tokens(JoinTabs(names)) == names
  {
    if |names| >= 1 {
      assert Find(names[0], '\t') < 0;
      if |names| > 1 {
        TabFreeNamesSurvive(names[1..]);
        TokensCons(names[0], JoinTabs(names[1..]));
      }
    }
  }

  lemma {:induction false} JoinHasNoNul(names: seq<string>)
    requires forall i :: 0 <= i < |names| ==> NulFree(names[i])
    ensures NulFree(JoinTabs(names))
  {
    if |names| > 1 { JoinHasNoNul(names[1..]); }
  }

  /**
   The receiver reads the names back in order exactly when none of them holds a
   tab: SetField refuses no name for holding one.
   */
  lemma IndexSurvivesIff(fields: seq<Field>)
    requires Good(fields)
    ensures Tokens(UpToNul(StoredIndex(Names(fields)))) == Names(fields)
            <==> (forall i :: 0 <= i < |fields| ==> TabFree(fields[i].name))
  {
    var names := Names(fields);
    JoinHasNoNul(names);
    UpToNulIs(StoredIndex(names), |JoinTabs(names)|);
    assert StoredIndex(names)[..|JoinTabs(names)|] == JoinTabs(names);
    if forall i :: 0 <= i < |fields| ==> TabFree(fields[i].name) {
      TabFreeNamesSurvive(names);
    } else {
      var i :| 0 <= i < |fields| && !TabFree(fields[i].name);
      TokensAreTabFree(JoinTabs(names));
      hide Tokens, JoinTabs;
      assert names[i] == fields[i].name;
    }
  }

  /** A name "A<tab>B" is accepted and reaches the receiver as two names. */
  lemma TabSplitsAName()
    ensures NameAllowed("A\tB")
    ensures Tokens(JoinTabs(["A\tB"])) == ["A", "B"]
  {
    assert "A\tB" == "A" + "\t" + "B";
    TokensCons("A", "B");
    assert Find("B", '\t') < 0;
  }
}
