/**
 Wide strings as the facade handles them: searching, trimming, case folding of
 ASCII tokens and the line splitting shared by the endpoint-map parser and the
 topology helper.  A C string is modelled as its characters before the NUL.
 */
module Text {

  datatype Option<+T> = None | Some(value: T)

  /** Position of the first c in s, or -1 (CString::Find). */
  function Find(s: string, c: char): (i: int)
    ensures -1 <= i < |s|
    ensures i >= 0 ==> s[i] == c
    ensures forall k :: 0 <= k < (if i < 0 then |s| else i) ==> s[k] != c
  {
    if s == "" then -1
    else if s[0] == c then 0
    else
      var j := Find(s[1..], c);
      assert forall k :: 1 <= k < |s| ==> s[k] == s[1..][k - 1];
      if j < 0 then -1 else j + 1
  }

  /** Position of the last c in s, or -1 (CString::ReverseFind). */
  function ReverseFind(s: string, c: char): (i: int)
    ensures -1 <= i < |s|
    ensures i >= 0 ==> s[i] == c
    ensures forall k :: i < k < |s| ==> s[k] != c
  {
    if s == "" then -1
    else if s[|s| - 1] == c then |s| - 1
    else ReverseFind(s[..|s| - 1], c)
  }

  lemma FindIs(s: string, c: char, i: nat)
    requires i < |s| && s[i] == c && forall k :: 0 <= k < i ==> s[k] != c
    ensures Find(s, c) == i
  {
  }

  /** s without its leading characters in sp. */
  function TrimLeft(sp: char -> bool, s: string): (r: string)
    ensures r == "" || !sp(r[0])
    ensures |r| <= |s| && r == s[|s| - |r|..]
    ensures forall i :: 0 <= i < |s| - |r| ==> sp(s[i])
  {
    if s != "" && sp(s[0]) then TrimLeft(sp, s[1..]) else s
  }

  /** s without its trailing characters in sp. */
  function TrimRight(sp: char -> bool, s: string): (r: string)
    ensures r == "" || !sp(r[|r| - 1])
    ensures |r| <= |s| && r == s[..|r|]
    ensures forall i :: |r| <= i < |s| ==> sp(s[i])
  {
    if s != "" && sp(s[|s| - 1]) then TrimRight(sp, s[..|s| - 1]) else s
  }

  function Trim(sp: char -> bool, s: string): (r: string)
    ensures r == "" || (!sp(r[0]) && !sp(r[|r| - 1]))
  {
    TrimRight(sp, TrimLeft(sp, s))
  }

  /** A string that starts and ends outside sp is already trimmed. */
  lemma TrimFixed(sp: char -> bool, s: string)
    requires s == "" || (!sp(s[0]) && !sp(s[|s| - 1]))
    ensures Trim(sp, s) == s
  {
  }

  /** Trimming leaves nothing exactly when there was nothing but padding. */
  lemma TrimEmpty(sp: char -> bool, s: string)
    ensures Trim(sp, s) == "" <==> forall i :: 0 <= i < |s| ==> sp(s[i])
  {
    var l := TrimLeft(sp, s);
    if l != "" {
      assert s[|s| - |l|] == l[0];
    }
  }

  /** Trimming leaves first the first character that is no padding. */
  lemma HeadIsFirst(sp: char -> bool, s: string, i: nat)
    requires i < |s| && !sp(s[i]) && forall j :: 0 <= j < i ==> sp(s[j])
    ensures Trim(sp, s) != "" && Trim(sp, s)[0] == s[i]
  {
    var l := TrimLeft(sp, s);
    assert |s| - |l| <= i;
    assert l != "" ==> l[0] == s[|s| - |l|];
    assert l == s[i..];
    var r := TrimRight(sp, l);
    assert r != "" && r[0] == l[0];
  }

  /** And nothing that comes before it, nor what follows, matters. */
  lemma TrimHead(sp: char -> bool, s: string, rest: string)
    requires Trim(sp, s) != ""
    ensures Trim(sp, s + rest) != "" && Trim(sp, s + rest)[0] == Trim(sp, s)[0]
  {
    TrimEmpty(sp, s);
    hide Trim, TrimLeft, TrimRight;
    var i := FirstSolid(sp, s);
    HeadIsFirst(sp, s, i);
    assert forall j :: 0 <= j <= i ==> (s + rest)[j] == s[j];
    HeadIsFirst(sp, s + rest, i);
  }

  lemma TrimPastPadding(sp: char -> bool, s: string, rest: string)
    requires Trim(sp, s) == "" && Trim(sp, rest) != ""
    ensures Trim(sp, s + rest) != "" && Trim(sp, s + rest)[0] == Trim(sp, rest)[0]
  {
    TrimEmpty(sp, s);
    TrimEmpty(sp, rest);
    hide Trim, TrimLeft, TrimRight;
    var i := FirstSolid(sp, rest);
    HeadIsFirst(sp, rest, i);
    assert forall j :: 0 <= j < |s| + i ==> (s + rest)[j] == if j < |s| then s[j] else rest[j - |s|];
    assert (s + rest)[|s| + i] == rest[i];
    HeadIsFirst(sp, s + rest, |s| + i);
  }

  lemma FirstSolid(sp: char -> bool, s: string) returns (i: nat)
    requires exists k :: 0 <= k < |s| && !sp(s[k])
    ensures i < |s| && !sp(s[i]) && forall j :: 0 <= j < i ==> sp(s[j])
  {
    i := 0;
    while sp(s[i])
      invariant 0 <= i < |s| && (forall j :: 0 <= j < i ==> sp(s[j]))
      invariant exists k :: i <= k < |s| && !sp(s[k])
      decreases |s| - i
    {
      i := i + 1;
    }
  }

  /** Trimming is a slice with nothing but padding around it. */
  lemma TrimSlice(sp: char -> bool, s: string) returns (i: nat, j: nat)
    ensures i <= j <= |s| && Trim(sp, s) == s[i..j]
    ensures (forall k :: 0 <= k < i ==> sp(s[k])) && (forall k :: j <= k < |s| ==> sp(s[k]))
    ensures i < j ==> !sp(s[i]) && !sp(s[j - 1])
  {
    hide TrimLeft, TrimRight;
    var l := TrimLeft(sp, s);
    var r := TrimRight(sp, l);
    i := |s| - |l|;
    j := i + |r|;
    SliceOfSlice(s, i, l, |r|);
    forall k | j <= k < |s| ensures sp(s[k]) {
      assert s[k] == l[k - i];
    }
  }

  lemma TrimWithin(sp: char -> bool, s: string, c: char)
    requires c in Trim(sp, s)
    ensures c in s
  {
    var i, j := TrimSlice(sp, s);
  }

  lemma SliceOfSlice(s: string, i: nat, l: string, n: nat)
    requires i <= |s| && l == s[i..] && n <= |l|
    ensures l[..n] == s[i..i + n] && (n > 0 ==> l[0] == s[i] && l[n - 1] == s[i + n - 1])
  {
  }

  /** The slice that is. */
  lemma TrimIs(sp: char -> bool, s: string, i: nat, j: nat)
    requires i <= j <= |s| && (i < j ==> !sp(s[i]) && !sp(s[j - 1]))
    requires (forall k :: 0 <= k < i ==> sp(s[k])) && (forall k :: j <= k < |s| ==> sp(s[k]))
    ensures Trim(sp, s) == s[i..j]
  {
    hide Trim;
    var a, b := TrimSlice(sp, s);
    if i < j {
      assert a <= i && j <= b;
      assert i <= a && b <= j;
    } else {
      assert forall k :: 0 <= k < |s| ==> sp(s[k]);
    }
  }

  /** Padding taken off beforehand makes no difference. */
  lemma TrimInner(sp: char -> bool, s: string, i: nat, j: nat)
    requires i <= j <= |s|
    requires (forall k :: 0 <= k < i ==> sp(s[k])) && (forall k :: j <= k < |s| ==> sp(s[k]))
    ensures Trim(sp, s[i..j]) == Trim(sp, s)
  {
    hide Trim;
    var t := s[i..j];
    var a, b := TrimSlice(sp, t);
    assert forall k :: i <= k < j ==> s[k] == t[k - i];
    TrimIs(sp, s, i + a, i + b);
    assert s[i + a..i + b] == t[a..b];
  }

  /** One padding character at either end makes no difference. */
  lemma TrimPadded(sp: char -> bool, s: string, c: char)
    requires sp(c) && s != "" && !sp(s[0]) && !sp(s[|s| - 1])
    ensures Trim(sp, [c] + s) == s && Trim(sp, s + [c]) == s
  {
    assert ([c] + s)[1..] == s;
    assert TrimLeft(sp, [c] + s) == s;
    assert (s + [c])[..|s|] == s;
    assert TrimRight(sp, s + [c]) == s;
  }

  function Lower(c: char): char {
    if 'A' <= c <= 'Z' then c - 'A' + 'a' else c
  }

  /** Equality of ASCII tokens without regard to case. */
  predicate EqFold(a: string, b: string) {
    |a| == |b| && forall i :: 0 <= i < |a| ==> Lower(a[i]) == Lower(b[i])
  }

  // ---------------------------------------------------------------------
  // Lines

  predicate IsBreak(c: char) { c == '\n' || c == '\r' }

  predicate OneLine(s: string) { forall i :: 0 <= i < |s| ==> !IsBreak(s[i]) }

  /** How many characters precede the first line break. */
  function LineEnd(s: string): (e: nat)
    ensures e <= |s|
    ensures forall k :: 0 <= k < e ==> !IsBreak(s[k])
    ensures e < |s| ==> IsBreak(s[e])
  {
    if s == "" || IsBreak(s[0]) then 0
    else
      assert forall k :: 1 <= k < |s| ==> s[k] == s[1..][k - 1];
      LineEnd(s[1..]) + 1
  }

  /** Where the next line starts, \r\n counting as one break. */
  function NextLine(s: string, e: nat): (n: nat)
    requires e < |s|
    ensures e < n <= |s|
  {
    if s[e] == '\r' && e + 1 < |s| && s[e + 1] == '\n' then e + 2 else e + 1
  }

  /**
   The lines an editor numbers: every break ends one line, and whatever follows
   the last break, even nothing, is a line too.
   */
  function Lines(s: string): (r: seq<string>)
    ensures |r| >= 1
    ensures forall i :: 0 <= i < |r| ==> OneLine(r[i])
  {
    var e := LineEnd(s);
    if e == |s| then [s[..e]]
    else [s[..e]] + Lines(s[NextLine(s, e)..])
  }

  /** A line written in front of more text is read back as the first line. */
  lemma LinesCons(line: string, rest: string)
    requires OneLine(line)
    ensures Lines(line + "\n" + rest) == [line] + Lines(rest)
  {
    var s := line + "\n" + rest;
    assert s[..|line|] == line && s[|line|] == '\n';
    assert LineEnd(s) == |line|;
    assert s[|line| + 1..] == rest;
  }

  /** A carriage return ends a line as well, and takes a line feed that follows it along. */
  lemma LinesBreak(line: string, rest: string)
    requires OneLine(line)
    ensures Lines(line) == [line]
    ensures Lines(line + "\r\n" + rest) == [line] + Lines(rest)
    ensures (rest == "" || rest[0] != '\n') ==> Lines(line + "\r" + rest) == [line] + Lines(rest)
  {
    LineAlone(line);
    hide Lines;
    assert line + "\r\n" + rest == line + ['\r'] + (['\n'] + rest);
    BreakAt(line, '\r', ['\n'] + rest);
    assert (['\n'] + rest)[1..] == rest;
    BreakAt(line, '\r', rest);
  }

  lemma LineAlone(line: string)
    requires OneLine(line)
    ensures Lines(line) == [line]
  {
    assert LineEnd(line) == |line| && line[..|line|] == line;
  }

  lemma BreakAt(line: string, c: char, rest: string)
    requires OneLine(line) && IsBreak(c)
    ensures var paired := c == '\r' && rest != "" && rest[0] == '\n';
      Lines(line + [c] + rest) == [line] + Lines(if paired then rest[1..] else rest)
  {
    var s := line + [c] + rest;
    assert s[..|line|] == line && s[|line|] == c && s[|line| + 1..] == rest;
    assert LineEnd(s) == |line|;
    assert rest != "" ==> s[|line| + 1] == rest[0] && s[|line| + 2..] == rest[1..];
  }

  /** One turn of a loop that walks the lines of a text from position p. */
  lemma LinesStep(text: string, p: nat, lines: seq<string>, n: nat)
    requires p <= |text| && n <= |lines| && lines[n..] == Lines(text[p..])
    ensures var rest := text[p..];
      var e := LineEnd(rest);
      && n < |lines| && lines[n] == rest[..e]
      && (e == |rest| ==> n + 1 == |lines|)
      && (e < |rest| ==> p + NextLine(rest, e) <= |text|
                         && lines[n + 1..] == Lines(text[p + NextLine(rest, e)..]))
  {
    var rest := text[p..];
    var e := LineEnd(rest);
    var tail := lines[n..];
    assert lines[n] == tail[0];
    if e < |rest| {
      assert tail[1..] == lines[n + 1..];
      assert rest[NextLine(rest, e)..] == text[p + NextLine(rest, e)..];
    } else {
      assert tail == [rest[..e]];
    }
  }

  lemma OneLineParts(s: string, i: nat, j: nat)
    requires OneLine(s) && i <= j <= |s|
    ensures OneLine(s[i..j])
  {
  }

  lemma OneLineTrim(sp: char -> bool, s: string)
    requires OneLine(s)
    ensures OneLine(Trim(sp, s))
  {
    forall i | 0 <= i < |Trim(sp, s)| ensures !IsBreak(Trim(sp, s)[i]) {
      assert Trim(sp, s)[i] in s;
    }
  }
}
