/**
 Broadcast bodies (src/FacadeHub.cpp): a broadcast travels under one kernel
 name, so the client's topic rides inside the body, in front of the payload.
 */
module Broadcast {
  import opened Text

  /** One byte, and one UTF-16 code unit (wchar_t). */
  newtype Byte = x: int | 0 <= x < 0x100
  newtype Unit = x: int | 0 <= x < 0x1_0000

  const MAGIC: Unit := 0xF2CA
  const MAX_PAYLOAD: nat := 24 * 1024
  const HEADER: nat := 4

  /** Little-endian, as memcpy lays a UINT16 out on every target of the library. */
  function Low(u: Unit): Byte { (u % 0x100) as Byte }
  function High(u: Unit): Byte { (u / 0x100) as Byte }
  function Word(lo: Byte, hi: Byte): Unit { lo as Unit + hi as Unit * 0x100 }

  lemma WordRoundTrip(u: Unit)
    ensures Word(Low(u), High(u)) == u
  {
  }

  lemma WordUnique(lo: Byte, hi: Byte)
    ensures Low(Word(lo, hi)) == lo && High(Word(lo, hi)) == hi
  {
  }

  /** wchar_t text as the bytes memcpy moves. */
  function TextBytes(t: seq<Unit>): (b: seq<Byte>)
    ensures |b| == 2 * |t|
  {
    if t == [] then [] else TextBytes(t[..|t| - 1]) + [Low(t[|t| - 1]), High(t[|t| - 1])]
  }

  lemma {:induction false} TextBytesAt(t: seq<Unit>, i: nat)
    requires i < |t|
    ensures TextBytes(t)[2 * i] == Low(t[i]) && TextBytes(t)[2 * i + 1] == High(t[i])
  {
    hide Low, High;
    if i < |t| - 1 { TextBytesAt(t[..|t| - 1], i); }
  }

  function BytesText(b: seq<Byte>): (t: seq<Unit>)
    requires |b| % 2 == 0
    ensures |t| == |b| / 2
  {
    seq(|b| / 2, i requires 0 <= i < |b| / 2 => Word(b[2 * i], b[2 * i + 1]))
  }

  lemma TextRoundTrip(t: seq<Unit>)
    ensures BytesText(TextBytes(t)) == t
  {
    forall i | 0 <= i < |t| ensures BytesText(TextBytes(t))[i] == t[i] {
      TextBytesAt(t, i);
      WordRoundTrip(t[i]);
    }
  }

  lemma BytesRoundTrip(b: seq<Byte>)
    requires |b| % 2 == 0
    ensures TextBytes(BytesText(b)) == b
  {
    var t := BytesText(b);
    forall k | 0 <= k < |b| ensures TextBytes(t)[k] == b[k] {
      var i := k / 2;
      TextBytesAt(t, i);
      WordUnique(b[2 * i], b[2 * i + 1]);
    }
  }

  predicate StartsWith(t: seq<Unit>, prefix: string)
    requires forall i :: 0 <= i < |prefix| ==> prefix[i] as int < 0x1_0000
  {
    |t| >= |prefix| && forall i :: 0 <= i < |prefix| ==> t[i] == prefix[i] as int as Unit
  }

  predicate IsReservedName(t: seq<Unit>) { StartsWith(t, "P2Pmsg") }
  predicate IsPrivateName(t: seq<Unit>) { StartsWith(t, "P2PF$") }

  datatype Hr = Ok | InvalidArg | ReservedTopic

  /** BroadcastInternal's own guards; pointers are never null here. */
  function Guard(topic: seq<Unit>, payload: seq<Byte>): Hr {
    if topic == [] then InvalidArg
    else if IsReservedName(topic) || IsPrivateName(topic) then ReservedTopic
    else if |topic| > 0xFFFF || HEADER + 2 * |topic| + |payload| > MAX_PAYLOAD then InvalidArg
    else Ok
  }

  function Frame(topic: seq<Unit>, payload: seq<Byte>): (body: seq<Byte>)
    requires |topic| <= 0xFFFF
    ensures |body| == HEADER + 2 * |topic| + |payload|
  {
    [Low(MAGIC), High(MAGIC), Low(|topic| as Unit), High(|topic| as Unit)] + TextBytes(topic) + payload
  }

  /** How a received body is handed on: split, or whole under the kernel's name. */
  datatype Body = Framed(topic: seq<Unit>, payload: seq<Byte>) | Whole(body: seq<Byte>)

  /** On_P2PeerBCast's reading of a body; a header that is not there reads as zeroes. */
  function Unframe(body: seq<Byte>): Body {
    var magic := if |body| >= HEADER then Word(body[0], body[1]) else 0;
    var chars := if |body| >= HEADER then Word(body[2], body[3]) as nat else 0;
    if magic == MAGIC && |body| >= HEADER + 2 * chars
    then Framed(BytesText(body[HEADER..HEADER + 2 * chars]), body[HEADER + 2 * chars..])
    else Whole(body)
  }

  /** Every topic and payload the sender accepts arrives byte for byte. */
  lemma FrameRoundTrip(topic: seq<Unit>, payload: seq<Byte>)
    requires |topic| <= 0xFFFF
    ensures Unframe(Frame(topic, payload)) == Framed(topic, payload)
  {
    WordRoundTrip(MAGIC);
    WordRoundTrip(|topic| as Unit);
    TextRoundTrip(topic);
    hide Low, High, Word, TextBytes, BytesText, Unframe;
    var chars := |topic| as Unit;
    UnframeParts(Low(MAGIC), High(MAGIC), Low(chars), High(chars), TextBytes(topic), payload);
  }

  lemma UnframeParts(h0: Byte, h1: Byte, h2: Byte, h3: Byte, text: seq<Byte>, payload: seq<Byte>)
    requires Word(h0, h1) == MAGIC && 2 * Word(h2, h3) as nat == |text|
    ensures Unframe([h0, h1, h2, h3] + text + payload) == Framed(BytesText(text), payload)
  {
    hide Word, BytesText;
    HeaderAndParts(h0, h1, h2, h3, text, payload);
  }

  lemma HeaderAndParts(h0: Byte, h1: Byte, h2: Byte, h3: Byte, text: seq<Byte>, payload: seq<Byte>)
    ensures var body := [h0, h1, h2, h3] + text + payload;
      && body[0] == h0 && body[1] == h1 && body[2] == h2 && body[3] == h3
      && body[HEADER..HEADER + |text|] == text && body[HEADER + |text|..] == payload
  {
  }

  /** What is split is a frame: the decoder never takes a foreign body apart any other way. */
  lemma UnframeRoundTrip(body: seq<Byte>)
    requires Unframe(body).Framed?
    ensures |Unframe(body).topic| <= 0xFFFF
    ensures Frame(Unframe(body).topic, Unframe(body).payload) == body
  {
    var chars := Word(body[2], body[3]) as nat;
    var text := body[HEADER..HEADER + 2 * chars];
    WordUnique(body[0], body[1]);
    WordUnique(body[2], body[3]);
    BytesRoundTrip(text);
    hide Low, High, Word, TextBytes, BytesText;
    assert Unframe(body) == Framed(BytesText(text), body[HEADER + 2 * chars..]);
    hide Unframe;
    Reassemble(body, 2 * chars);
  }

  lemma Reassemble(body: seq<Byte>, n: nat)
    requires |body| >= HEADER + n
    ensures [body[0], body[1], body[2], body[3]] + body[HEADER..HEADER + n] + body[HEADER + n..] == body
  {
  }

  /** A body is split exactly when it is some topic's frame; otherwise it arrives whole. */
  lemma UnframeIffFrame(body: seq<Byte>)
    ensures Unframe(body).Framed?
       <==> exists topic: seq<Unit>, payload :: |topic| <= 0xFFFF && Frame(topic, payload) == body
    ensures !Unframe(body).Framed? ==> Unframe(body) == Whole(body)
  {
    if Unframe(body).Framed? {
      UnframeRoundTrip(body);
    }
    if topic: seq<Unit>, payload :| |topic| <= 0xFFFF && Frame(topic, payload) == body {
      FrameRoundTrip(topic, payload);
    }
  }

  /** An accepted broadcast fits one message and is what the receiver is handed. */
  lemma AcceptedArrives(topic: seq<Unit>, payload: seq<Byte>)
    requires Guard(topic, payload) == Ok
    ensures |Frame(topic, payload)| <= MAX_PAYLOAD
    ensures Unframe(Frame(topic, payload)) == Framed(topic, payload)
  {
    FrameRoundTrip(topic, payload);
  }

  function Wide(s: string): seq<Unit>
    requires forall i :: 0 <= i < |s| ==> s[i] as int < 0x1_0000
  {
    seq(|s|, i requires 0 <= i < |s| => s[i] as int as Unit)
  }

  lemma PrefixIff(t: seq<Unit>, prefix: string)
    requires forall i :: 0 <= i < |prefix| ==> prefix[i] as int < 0x1_0000
    ensures StartsWith(t, prefix) <==> Wide(prefix) <= t
  {
  }

  /**
   The kernel's own names and the facade's are refused before any size is looked
   at; every other topic is accepted exactly when it and its payload fit a message,
   so the bound on the length of a topic never decides.
   */
  lemma GuardIff(topic: seq<Unit>, payload: seq<Byte>)
    ensures Guard(topic, payload) == ReservedTopic <==> Wide("P2Pmsg") <= topic || Wide("P2PF$") <= topic
    ensures Guard(topic, payload) == Ok <==>
      && topic != [] && !(Wide("P2Pmsg") <= topic) && !(Wide("P2PF$") <= topic)
      && 4 + 2 * |topic| + |payload| <= 24576
  {
    PrefixIff(topic, "P2Pmsg");
    PrefixIff(topic, "P2PF$");
    hide StartsWith, Wide;
    WideIsSolid("P2Pmsg");
    WideIsSolid("P2PF$");
  }

  lemma WideIsSolid(s: string)
    requires forall i :: 0 <= i < |s| ==> s[i] as int < 0x1_0000
    ensures |Wide(s)| == |s|
  {
  }

  lemma SliceAt(body: seq<Byte>, from: nat, until: nat, k: nat)
    requires from + k + 1 < until <= |body|
    ensures body[from..until][k] == body[from + k] && body[from..until][k + 1] == body[from + k + 1]
  {
  }

  /** What lies where in a frame: the magic number, the length, the topic, the payload, low bytes first. */
  lemma FrameLayout(topic: seq<Unit>, payload: seq<Byte>, i: nat)
    requires |topic| <= 0xFFFF
    ensures var body := Frame(topic, payload);
      && body[0] == 0xCA && body[1] == 0xF2
      && body[2] as int + 0x100 * body[3] as int == |topic|
      && (i < |topic| ==> body[4 + 2 * i] as int + 0x100 * body[5 + 2 * i] as int == topic[i] as int)
      && body[4 + 2 * |topic|..] == payload
  {
    if i < |topic| { TextBytesAt(topic, i); }
    hide TextBytes;
    HeaderAndParts(Low(MAGIC), High(MAGIC), Low(|topic| as Unit), High(|topic| as Unit), TextBytes(topic), payload);
    if i < |topic| { SliceAt(Frame(topic, payload), HEADER, HEADER + 2 * |topic|, 2 * i); }
  }
}
