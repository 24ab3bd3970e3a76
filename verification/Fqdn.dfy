/**
 Domain names as length-prefixed labels (section 3.1 of RFC 1035): the two encoders
 (`pfcp_ie::string_to_dotted` and `Utility::apn_label`) and the decoder (`pfcp_ie::dotted_to_string`).
 */
module Fqdn {
  import opened Wire

  const DOT: byte := 46

  /** End of the dot-separated label of s that contains or follows position i. */
  function LabelEnd(s: bytes, i: nat): (e: nat)
    requires i <= |s|
    ensures i <= e <= |s| && (e < |s| ==> s[e] == DOT)
    ensures forall j :: i <= j < e ==> s[j] != DOT
    decreases |s| - i
  {
    if i == |s| || s[i] == DOT then i else LabelEnd(s, i + 1)
  }

  /** An 8-bit counter that has been incremented n times from zero. */
  function Octet(n: nat): (b: byte)
    ensures n < 256 ==> b == n
  {
    if n < 256 then n else Octet(n - 256)
  }

  /** A label on the wire: its length as one octet, then its characters. */
  function Labelled(word: bytes): (d: bytes)
    ensures |d| == |word| + 1
  {
    [Octet(|word|)] + word
  }

  lemma {:induction false} OctetSucc(n: nat)
    ensures Octet(n + 1) == if Octet(n) == 255 then 0 else Octet(n) + 1
  {
    if n >= 256 {
      OctetSucc(n - 256);
    }
  }

  /** The labels of s from the one starting at i, on the wire. */
  function DottedFrom(s: bytes, i: nat): (d: bytes)
    requires i <= |s|
    ensures |d| == |s| - i + 1
    decreases |s| - i
  {
    var e := LabelEnd(s, i);
    if e == |s| then Labelled(s[i..]) else Labelled(s[i..e]) + DottedFrom(s, e + 1)
  }

  /** The wire form of a name: its labels, one after the other, each preceded by its length. */
  function Dotted(s: bytes): (d: bytes)
    ensures |d| == |s| + 1
  {
    DottedFrom(s, 0)
  }

  /** From the label starting at i on, every label is at most 63 octets long (section 3.1 of RFC 1035). */
  predicate ShortLabelsFrom(s: bytes, i: nat)
    requires i <= |s|
    decreases |s| - i
  {
    var e := LabelEnd(s, i);
    e - i <= 63 && (e < |s| ==> ShortLabelsFrom(s, e + 1))
  }

  predicate ShortLabels(s: bytes) {
    ShortLabelsFrom(s, 0)
  }

  /** `str[i]` of a `std::string`: behind the last character there is a NUL. */
  function CharAt(str: bytes, i: nat): byte
    requires i <= |str|
  {
    if i == |str| then 0 else str[i]
  }

  /** Where the first NUL is, from position i on. */
  function NulAt(str: bytes, i: nat): (k: nat)
    requires i <= |str|
    ensures i <= k <= |str| && CharAt(str, k) == 0
    ensures forall j :: i <= j < k ==> str[j] != 0
    decreases |str| - i
  {
    if CharAt(str, i) == 0 then i else NulAt(str, i + 1)
  }

  /** The part of a name the encoder looks at. */
  function Front(str: bytes): bytes {
    str[..NulAt(str, 0)]
  }

  /** `++` on a `uint8_t`. */
  function Inc(b: byte): byte {
    if b == 255 then 0 else b + 1
  }

  /** The loop of `string_to_dotted` with its 8-bit offset ends within n iterations. */
  predicate EncoderExits(str: bytes, offset: byte, n: nat)
    requires offset <= |str|
    decreases n
  {
    CharAt(str, offset) == 0 || (n > 0 && EncoderExits(str, Inc(offset), n - 1))
  }

  /** The encoder is done after n iterations. */
  predicate EncoderDone(str: bytes, n: nat) {
    EncoderExits(str, 0, n)
  }

  /** The name has at most 255 octets, or a NUL among its first 256. */
  predicate EncoderReturns(str: bytes) {
    |str| <= 255 || exists k: nat :: k < 256 && str[k] == 0
  }

  lemma {:induction false} ExitsAtNul(str: bytes, offset: byte, n: nat)
    requires offset <= |str| && offset + n == NulAt(str, 0) <= 255
    ensures EncoderExits(str, offset, n)
    decreases n
  {
    if n > 0 {
      ExitsAtNul(str, offset + 1, n - 1);
    }
  }

  lemma {:induction false} WrapsForEver(str: bytes, offset: byte, n: nat)
    requires |str| >= 256 && forall k :: 0 <= k < 256 ==> str[k] != 0
    ensures !EncoderExits(str, offset, n)
    decreases n
  {
    if n > 0 {
      WrapsForEver(str, Inc(offset), n - 1);
    }
  }

  lemma {:induction false} NulIsEarly(str: bytes)
    ensures EncoderReturns(str) <==> NulAt(str, 0) <= 255
  {
  }

  /** Exactly when the encoder returns: otherwise its offset wraps inside the name, again and again. */
  lemma {:induction false} EncoderReturnsIff(str: bytes)
    ensures EncoderReturns(str) <==> exists n: nat :: EncoderDone(str, n)
  {
    hide EncoderExits, NulAt;
    NulIsEarly(str);
    if EncoderReturns(str) {
      ExitsAtNul(str, 0, NulAt(str, 0));
      assert EncoderDone(str, NulAt(str, 0));
    } else {
      forall n: nat ensures !EncoderDone(str, n) {
        WrapsForEver(str, 0, n);
      }
    }
  }

  /** What the encoder leaves in its buffer, which held `memory`: the labels up to the first NUL. */
  function Encoded(str: bytes, memory: bytes): (d: bytes)
    requires |memory| == |str| + 1
    ensures |d| == |str| + 1
  {
    Dotted(Front(str)) + memory[NulAt(str, 0) + 1..]
  }

  lemma {:induction false} EncodedWhole(str: bytes, memory: bytes)
    requires |memory| == |str| + 1 && 0 !in str
    ensures Encoded(str, memory) == Dotted(str) && Front(str) == str
  {
    assert CharAt(str, NulAt(str, 0)) == 0;
    assert NulAt(str, 0) == |str|;
    assert str[..|str|] == str && memory[|str| + 1..] == [];
  }

  /** `string_to_dotted`: the length octet of a label is patched when its end is reached. */
  method StringToDotted(str: bytes, memory: bytes) returns (dotted: bytes)
    requires EncoderReturns(str) && |memory| == |str| + 1
    ensures dotted == Encoded(str, memory)
  {
    hide LabelEnd, DottedFrom, Written, NulAt, EncoderReturns;
    NulIsEarly(str);
    ghost var n, front := NulAt(str, 0), Front(str);
    var value := new byte[|str| + 1](i requires 0 <= i < |memory| => memory[i]);
    var offset: byte, lastSize: nat, wordLength: byte := 0, 0, 0;
    StartStep(front, value[..n + 1]);
    while CharAt(str, offset) != 0
      invariant lastSize <= offset <= n && wordLength == offset - lastSize
      invariant Written(front, value[..n + 1], lastSize, offset) && value[n + 1..] == memory[n + 1..]
      decreases n - offset
    {
      ghost var v := value[..n + 1];
      assert offset < n && front[offset] == str[offset];
      if str[offset] == DOT {
        DotStep(front, v, lastSize, offset);
        value[lastSize] := wordLength;
        assert value[..n + 1] == v[lastSize := wordLength];
        wordLength := 0;
        lastSize := offset + 1;
      } else {
        CharStep(front, v, lastSize, offset);
        wordLength := Inc(wordLength);
        value[offset + 1] := str[offset];
        assert value[..n + 1] == v[offset + 1 := str[offset]];
      }
      offset := Inc(offset);
    }
    assert offset == n;
    ghost var v := value[..n + 1];
    EndStep(front, v, lastSize);
    value[lastSize] := wordLength;
    assert value[..n + 1] == v[lastSize := wordLength];
    dotted := value[..];
    assert dotted == value[..n + 1] + value[n + 1..];
  }

  /** The buffer holds the finished labels, one octet at `last` still to be patched, and the current word. */
  ghost predicate Written(str: bytes, v: bytes, last: nat, offset: nat) {
    && |v| == |str| + 1 && last <= offset <= |str|
    && LabelEnd(str, last) == LabelEnd(str, offset)
    && (forall j :: last <= j < offset ==> v[j + 1] == str[j])
    && Dotted(str) == v[..last] + DottedFrom(str, last)
  }

  lemma {:induction false} StartStep(str: bytes, v: bytes)
    requires |v| == |str| + 1
    ensures Written(str, v, 0, 0)
  {
    assert v[..0] + Dotted(str) == Dotted(str);
  }

  lemma {:induction false} CharStep(str: bytes, v: bytes, last: nat, offset: nat)
    requires Written(str, v, last, offset) && offset < |str| && str[offset] != DOT
    ensures Written(str, v[offset + 1 := str[offset]], last, offset + 1)
  {
    assert v[offset + 1 := str[offset]][..last] == v[..last];
  }

  lemma {:induction false} DotStep(str: bytes, v: bytes, last: nat, offset: nat)
    requires Written(str, v, last, offset) && offset < |str| <= 255 && str[offset] == DOT
    ensures Written(str, v[last := offset - last], offset + 1, offset + 1)
  {
    PatchedPrefix(v, last, str[last..offset]);
    LabelDone(str, v[..last], last, offset);
  }

  lemma {:induction false} EndStep(str: bytes, v: bytes, last: nat)
    requires Written(str, v, last, |str|) && |str| <= 255
    ensures v[last := |str| - last] == Dotted(str)
  {
    PatchedWhole(v, last, str[last..]);
  }

  /** Patching the length octet in front of a word completes its label. */
  lemma {:induction false} PatchedPrefix(v: bytes, last: nat, word: bytes)
    requires last + 1 + |word| <= |v| && forall j :: 0 <= j < |word| ==> v[last + 1 + j] == word[j]
    ensures v[last := Octet(|word|)][..last + 1 + |word|] == v[..last] + Labelled(word)
  {
    assert forall j :: last < j < last + 1 + |word| ==> v[j] == word[j - last - 1];
  }

  lemma {:induction false} PatchedWhole(v: bytes, last: nat, word: bytes)
    requires last + 1 + |word| == |v| && forall j :: 0 <= j < |word| ==> v[last + 1 + j] == word[j]
    ensures v[last := Octet(|word|)] == v[..last] + Labelled(word)
  {
    assert forall j :: last < j < |v| ==> v[j] == word[j - last - 1];
  }

  /** The label from i to the dot at e is complete. */
  lemma {:induction false} LabelDone(s: bytes, done: bytes, i: nat, e: nat)
    requires i <= e < |s| && LabelEnd(s, i) == e
    ensures done + DottedFrom(s, i) == (done + Labelled(s[i..e])) + DottedFrom(s, e + 1)
  {
    Assoc(done, Labelled(s[i..e]), DottedFrom(s, e + 1));
  }

  // ---------------------------------------------------------------- the second encoder

  /** `isalnum` in the C locale. */
  predicate IsAlnum(c: byte) {
    48 <= c <= 57 || 65 <= c <= 90 || 97 <= c <= 122
  }

  predicate IsKept(c: byte) {
    IsAlnum(c) || c == 45 || c == DOT
  }

  /** The characters among the first n of s that `apn_label` does not drop. */
  function KeptUpTo(s: bytes, n: nat): (r: bytes)
    requires n <= |s|
  {
    if n == 0 then []
    else if IsKept(s[n - 1]) then KeptUpTo(s, n - 1) + [s[n - 1]]
    else KeptUpTo(s, n - 1)
  }

  function Kept(s: bytes): bytes {
    KeptUpTo(s, |s|)
  }

  lemma {:induction false} AllKept(s: bytes, n: nat)
    requires n <= |s| && forall i :: 0 <= i < n ==> IsKept(s[i])
    ensures KeptUpTo(s, n) == s[..n]
  {
    if n > 0 {
      AllKept(s, n - 1);
      assert s[..n] == s[..n - 1] + [s[n - 1]];
    }
  }

  lemma {:induction false} KeptPrefix(s: bytes, i: nat, n: nat)
    requires i <= n <= |s|
    ensures KeptUpTo(s, i) <= KeptUpTo(s, n)
    decreases n
  {
    if i < n {
      KeptPrefix(s, i, n - 1);
    }
  }

  /** `apn_label`: appends, and patches the octet at `index` when a label ends. */
  method ApnLabel(apn: bytes) returns (encoded: bytes)
    ensures encoded == Dotted(Kept(apn))
    ensures (forall c | c in apn :: IsKept(c)) ==> encoded == Dotted(apn)
  {
    encoded := [63];
    var counted: byte, index: nat := 0, 0;
    var i := 0;
    ghost var k := 0;
    AppendStart(apn);
    while i < |apn|
      invariant 0 <= i <= |apn|
      invariant Appended(apn, i, encoded, index, counted, k)
    {
      if IsAlnum(apn[i]) || apn[i] == 45 {
        AppendChar(apn, i, encoded, index, counted, k);
        encoded := encoded + [apn[i]];
        counted := if counted == 255 then 0 else counted + 1;
        k := k + 1;
      } else if apn[i] == DOT {
        AppendDot(apn, i, encoded, index, counted, k);
        encoded := encoded + [63];
        encoded := encoded[index := counted];
        counted := 0;
        index := |encoded| - 1;
        k := k + 1;
      } else {
        SkipChar(apn, i, encoded, index, counted, k);
      }
      i := i + 1;
    }
    AppendEnd(apn, encoded, index, counted, k);
    encoded := encoded[index := counted];
  }

  /**
   The output holds the finished labels of what is kept of apn, an octet at `index` to be patched, and
   the current word, which reaches up to position k of what is kept.
   */
  ghost predicate Appended(apn: bytes, i: nat, encoded: bytes, index: nat, counted: byte, k: nat) {
    var kept := Kept(apn);
    && i <= |apn| && k == |KeptUpTo(apn, i)|
    && index <= k <= |kept| && |encoded| == k + 1 && counted == Octet(k - index)
    && LabelEnd(kept, index) == LabelEnd(kept, k)
    && (forall j :: index <= j < k ==> encoded[j + 1] == kept[j])
    && Dotted(kept) == encoded[..index] + DottedFrom(kept, index)
  }

  lemma {:induction false} NextKept(apn: bytes, i: nat)
    requires i < |apn|
    ensures var k, kept := |KeptUpTo(apn, i)|, Kept(apn);
            if IsKept(apn[i]) then |KeptUpTo(apn, i + 1)| == k + 1 <= |kept| && kept[k] == apn[i]
            else |KeptUpTo(apn, i + 1)| == k
  {
    KeptPrefix(apn, i + 1, |apn|);
  }

  lemma {:induction false} AppendStart(apn: bytes)
    ensures Appended(apn, 0, [63], 0, 0, 0)
  {
    assert [63][..0] + Dotted(Kept(apn)) == Dotted(Kept(apn));
  }

  lemma {:induction false} AppendChar(apn: bytes, i: nat, encoded: bytes, index: nat, counted: byte, k: nat)
    requires Appended(apn, i, encoded, index, counted, k) && i < |apn| && IsKept(apn[i]) && apn[i] != DOT
    ensures Appended(apn, i + 1, encoded + [apn[i]], index, if counted == 255 then 0 else counted + 1, k + 1)
  {
    NextKept(apn, i);
    assert (encoded + [apn[i]])[..index] == encoded[..index];
    OctetSucc(k - index);
  }

  lemma {:induction false} SkipChar(apn: bytes, i: nat, encoded: bytes, index: nat, counted: byte, k: nat)
    requires Appended(apn, i, encoded, index, counted, k) && i < |apn| && !IsKept(apn[i])
    ensures Appended(apn, i + 1, encoded, index, counted, k)
  {
    NextKept(apn, i);
  }

  lemma {:induction false} AppendDot(apn: bytes, i: nat, encoded: bytes, index: nat, counted: byte, k: nat)
    requires Appended(apn, i, encoded, index, counted, k) && i < |apn| && apn[i] == DOT
    ensures Appended(apn, i + 1, (encoded + [63])[index := counted], k + 1, 0, k + 1)
  {
    var kept, v := Kept(apn), encoded + [63];
    NextKept(apn, i);
    assert v[..index] == encoded[..index];
    PatchedPrefix(v, index, kept[index..k]);
    LabelDone(kept, encoded[..index], index, k);
  }

  lemma {:induction false} AppendEnd(apn: bytes, encoded: bytes, index: nat, counted: byte, k: nat)
    requires Appended(apn, |apn|, encoded, index, counted, k)
    ensures encoded[index := counted] == Dotted(Kept(apn))
    ensures (forall c | c in apn :: IsKept(c)) ==> Kept(apn) == apn
  {
    PatchedWhole(encoded, index, Kept(apn)[index..]);
    if forall c | c in apn :: IsKept(c) {
      AllKept(apn, |apn|);
    }
  }

  // ---------------------------------------------------------------- the decoder

  /** How `dotted_to_string` ends: normally, with `std::length_error`, or not at all. */
  datatype Decoded = Done(ok: bool, text: bytes) | LengthError | Hang

  /** An octet read through the signed `char` of the target. */
  function Signed(b: byte): int {
    if b < 128 then b else b - 256
  }

  /** A sum stored in a 16-bit variable. */
  function Wrap16(x: int): u16
    requires -0x1_0000 <= x < 0x2_0000
  {
    if x < 0 then x + 0x1_0000 else if x >= 0x1_0000 then x - 0x1_0000 else x
  }

  /** Where the 16-bit offset is after one iteration. */
  function Next(dot: bytes, offset: u16): u16
    requires offset < |dot|
  {
    var c := dot[offset];
    Wrap16(offset + 1 + if 64 <= c < 128 then 0 else Signed(c))
  }

  /** The label at `offset` is appended with a negative count converted to an unsigned one. */
  predicate AppendThrows(dot: bytes, offset: u16)
    requires offset < |dot|
  {
    dot[offset] >= 128 && offset + Signed(dot[offset]) >= 0
  }

  /** What one iteration of the loop of `dotted_to_string` leads to. */
  datatype Progress = More(offset: u16, ok: bool, text: bytes) | Threw

  function Iterate(dot: bytes, offset: u16, ok: bool, text: bytes): Progress
    requires offset < |dot| < 0x1_0000
  {
    var c, next := dot[offset], Next(dot, offset);
    if 64 <= c < 128 then More(next, false, text + [c])
    else if AppendThrows(dot, offset) then Threw
    else if 0 <= offset + Signed(c) <= |dot| then
      var text' := if offset != 0 then text + [DOT] else text;
      More(next, ok, text' + (dot + [0])[offset + 1..offset + 1 + c])
    else More(next, ok, text)
  }

  /**
   At most `fuel` iterations of that loop. `FuelSuffices` shows that 65536 of them decide whether it
   ever ends.
   */
  function Decode(dot: bytes, offset: u16, ok: bool, text: bytes, fuel: nat): Decoded
    requires |dot| < 0x1_0000
    decreases fuel
  {
    if offset >= |dot| then Done(ok, text)
    else if fuel == 0 then Hang
    else
      match Iterate(dot, offset, ok, text)
      case Threw => LengthError
      case More(offset', ok', text') => Decode(dot, offset', ok', text', fuel - 1)
  }

  function DottedToStringSpec(dot: bytes): Decoded
    requires |dot| < 0x1_0000
  {
    Decode(dot, 0, true, [], 0x1_0000)
  }

  /** `dotted_to_string`, on every input on which its loop ends. */
  method DottedToString(dot: bytes) returns (r: Decoded)
    requires |dot| < 0x1_0000 && DottedToStringSpec(dot) != Hang
    ensures r == DottedToStringSpec(dot)
  {
    var offset: u16, result, noDot := 0, true, [];
    ghost var fuel: nat := 0x1_0000;
    while offset < |dot|
      invariant Decode(dot, offset, result, noDot, fuel) == DottedToStringSpec(dot)
      decreases fuel
    {
      ghost var next := Iterate(dot, offset, result, noDot);
      var c := dot[offset];
      if c < 64 || c >= 128 {
        if 0 <= offset + Signed(c) <= |dot| {
          if offset != 0 {
            noDot := noDot + [DOT];
          }
          if Signed(c) < 0 {
            return LengthError;
          }
          noDot := noDot + (dot + [0])[offset + 1..offset + 1 + c];
        }
        offset := Wrap16(offset + 1 + Signed(c));
      } else {
        noDot := noDot + [c];
        offset := Wrap16(offset + 1);
        result := false;
      }
      assert next == More(offset, result, noDot);
      fuel := fuel - 1;
    }
    r := Done(result, noDot);
  }

  // ---------------------------------------------------------------- when the decoder stops

  /** The loop, started at `offset`, ends within n iterations. */
  predicate Exits(dot: bytes, offset: u16, n: nat)
    decreases n
  {
    offset >= |dot| || (n > 0 && (AppendThrows(dot, offset) || Exits(dot, Next(dot, offset), n - 1)))
  }

  lemma {:induction false} HangMeansNoExit(dot: bytes, offset: u16, ok: bool, text: bytes, fuel: nat)
    requires |dot| < 0x1_0000
    ensures Decode(dot, offset, ok, text, fuel) == Hang <==> !Exits(dot, offset, fuel)
    decreases fuel
  {
    if offset < |dot| && fuel > 0 && !AppendThrows(dot, offset) {
      var next := Iterate(dot, offset, ok, text);
      HangMeansNoExit(dot, next.offset, next.ok, next.text, fuel - 1);
    }
  }

  /** The offset after i iterations, none of the first i of which ends the loop. */
  function Visit(dot: bytes, offset: u16, i: nat): u16
    requires i > 0 ==> !Exits(dot, offset, i)
    decreases i
  {
    if i == 0 then offset else Visit(dot, Next(dot, offset), i - 1)
  }

  lemma {:induction false} ExitsLater(dot: bytes, offset: u16, m: nat, n: nat)
    requires m <= n && Exits(dot, offset, m)
    ensures Exits(dot, offset, n)
    decreases n
  {
    if offset < |dot| && !AppendThrows(dot, offset) {
      ExitsLater(dot, Next(dot, offset), m - 1, n - 1);
    }
  }

  /** If no exit within i iterations, what happens after them is what happens from where they lead. */
  lemma {:induction false} ExitsAfter(dot: bytes, offset: u16, i: nat, n: nat)
    requires !Exits(dot, offset, i)
    ensures Exits(dot, offset, i + n) <==> Exits(dot, Visit(dot, offset, i), n)
    ensures Visit(dot, offset, i) < |dot|
    decreases i
  {
    if i > 0 {
      ExitsAfter(dot, Next(dot, offset), i - 1, n);
    }
  }

  /** Distinct numbers below m are at most m many. */
  lemma {:induction false} Pigeonhole(s: set<int>, m: nat)
    requires forall x | x in s :: 0 <= x < m
    ensures |s| <= m
  {
    if m == 0 {
      assert forall x :: x !in s;
    } else {
      Pigeonhole(s - {m - 1}, m - 1);
    }
  }

  ghost function Visited(dot: bytes, n: nat): (s: set<int>)
    requires n > 0 ==> !Exits(dot, 0, n - 1)
    decreases n
  {
    if n == 0 then {}
    else
      (if n > 1 && Exits(dot, 0, n - 2) then {}
       else Visited(dot, n - 1)) + {Visit(dot, 0, n - 1)}
  }

  ghost predicate VisitedBefore(dot: bytes, x: int, n: nat) {
    0 <= x < |dot| && exists i: nat | i < n :: !Exits(dot, 0, i) && x == Visit(dot, 0, i)
  }

  /** While an exit is still needed, no offset repeats: a repeated one would never lead out. */
  lemma {:induction false} VisitedSize(dot: bytes, n: nat, total: nat)
    requires 0 < n <= total && Exits(dot, 0, total) && !Exits(dot, 0, total - 1)
    ensures !Exits(dot, 0, n - 1)
    ensures |Visited(dot, n)| == n
    ensures forall x | x in Visited(dot, n) :: VisitedBefore(dot, x, n)
  {
    if Exits(dot, 0, n - 1) {
      ExitsLater(dot, 0, n - 1, total - 1);
    }
    ExitsAfter(dot, 0, n - 1, 0);
    var last := Visit(dot, 0, n - 1);
    if n > 1 {
      VisitedSize(dot, n - 1, total);
      if last in Visited(dot, n - 1) {
        var i: nat :| i < n - 1 && !Exits(dot, 0, i) && last == Visit(dot, 0, i);
        ExitsAfter(dot, 0, n - 1, total - (n - 1));
        ExitsAfter(dot, 0, i, total - (n - 1));
        ExitsLater(dot, 0, i + (total - (n - 1)), total - 1);
      }
      forall x | x in Visited(dot, n - 1)
        ensures VisitedBefore(dot, x, n)
      {
        var i: nat :| i < n - 1 && !Exits(dot, 0, i) && x == Visit(dot, 0, i);
      }
    }
    assert VisitedBefore(dot, last, n);
  }

  /** The loop of `dotted_to_string` ends, if at all, within 65536 iterations: the fuel of `Decode` loses nothing. */
  lemma {:induction false} FuelSuffices(dot: bytes, n: nat)
    requires |dot| < 0x1_0000 && Exits(dot, 0, n)
    ensures DottedToStringSpec(dot) != Hang
  {
    var m := n;
    while m > 0 && Exits(dot, 0, m - 1)
      invariant Exits(dot, 0, m)
    {
      m := m - 1;
    }
    if m > 0 {
      VisitedSize(dot, m, m);
      Pigeonhole(Visited(dot, m), |dot|);
      ExitsLater(dot, 0, m, 0x1_0000);
    }
    HangMeansNoExit(dot, 0, true, [], 0x1_0000);
  }

  /** The loop comes back to an offset it has been at. */
  ghost predicate Cycles(dot: bytes) {
    exists i: nat, j: nat :: i < j <= |dot| && SameVisit(dot, i, j)
  }

  predicate SameVisit(dot: bytes, i: nat, j: nat) {
    !Exits(dot, 0, i) && !Exits(dot, 0, j) && Visit(dot, 0, i) == Visit(dot, 0, j)
  }

  lemma {:induction false} CycleNeverExits(dot: bytes, i: nat, j: nat, n: nat)
    requires i < j && SameVisit(dot, i, j)
    ensures !Exits(dot, 0, n)
    decreases n
  {
    if Exits(dot, 0, n) {
      if n <= j {
        ExitsLater(dot, 0, n, j);
      } else {
        ExitsAfter(dot, 0, j, n - j);
        ExitsAfter(dot, 0, i, n - j);
        CycleNeverExits(dot, i, j, i + (n - j));
      }
    }
  }

  /** Without a repetition the first n offsets are n of them. */
  lemma {:induction false} VisitedDistinct(dot: bytes, n: nat)
    requires n > 0 && !Exits(dot, 0, n - 1)
    requires forall i: nat, j: nat :: i < j < n ==> !SameVisit(dot, i, j)
    ensures |Visited(dot, n)| == n && forall x | x in Visited(dot, n) :: VisitedBefore(dot, x, n)
  {
    ExitsAfter(dot, 0, n - 1, 0);
    var last := Visit(dot, 0, n - 1);
    assert VisitedBefore(dot, last, n);
    if n > 1 {
      if Exits(dot, 0, n - 2) {
        ExitsLater(dot, 0, n - 2, n - 1);
      }
      VisitedDistinct(dot, n - 1);
      if last in Visited(dot, n - 1) {
        var i: nat :| i < n - 1 && !Exits(dot, 0, i) && last == Visit(dot, 0, i);
        assert SameVisit(dot, i, n - 1);
      }
      forall x | x in Visited(dot, n - 1) ensures VisitedBefore(dot, x, n) {
        var i: nat :| i < n - 1 && !Exits(dot, 0, i) && x == Visit(dot, 0, i);
      }
    }
  }

  /** For names of every length a Node ID can carry: the decoder never returns exactly when it comes back to an offset. */
  lemma {:induction false} DecoderHangsIffCycles(dot: bytes)
    requires |dot| < 0x1_0000
    ensures DottedToStringSpec(dot) == Hang <==> Cycles(dot)
  {
    HangMeansNoExit(dot, 0, true, [], 0x1_0000);
    if Exits(dot, 0, 0x1_0000) {
      if i: nat, j: nat :| i < j <= |dot| && SameVisit(dot, i, j) {
        CycleNeverExits(dot, i, j, 0x1_0000);
      }
    } else {
      var n := |dot| + 1;
      if Exits(dot, 0, n - 1) {
        ExitsLater(dot, 0, n - 1, 0x1_0000);
      }
      if !Cycles(dot) {
        assert forall i: nat, j: nat :: i < j < n ==> !SameVisit(dot, i, j);
        VisitedDistinct(dot, n);
        Pigeonhole(Visited(dot, n), |dot|);
      }
    }
  }

  /**
   Following the labels from `offset` leads to a length octet of 255 - offset, which the signed `char`
   turns into a jump back to the start of the name.
   */
  predicate LoopsBack(dot: bytes, offset: nat)
    decreases |dot| - offset
  {
    offset < |dot| &&
    var c := dot[offset];
    if c >= 128 then offset + c == 255
    else LoopsBack(dot, offset + 1 + if c < 64 then c else 0)
  }

  lemma {:induction false} LoopHangs(dot: bytes, offset: u16, fuel: nat)
    requires |dot| <= 0xff81 && LoopsBack(dot, 0) && LoopsBack(dot, offset)
    ensures !Exits(dot, offset, fuel)
    decreases fuel
  {
    if fuel > 0 {
      LoopHangs(dot, Next(dot, offset), fuel - 1);
    }
  }

  lemma {:induction false} NoLoopEnds(dot: bytes, offset: u16, fuel: nat)
    requires |dot| <= 0xff81 && !LoopsBack(dot, offset) && offset + fuel >= |dot|
    ensures Exits(dot, offset, fuel)
    decreases fuel
  {
    if offset < |dot| && !AppendThrows(dot, offset) {
      if dot[offset] < 128 {
        NoLoopEnds(dot, Next(dot, offset), fuel - 1);
      } else {
        assert Next(dot, offset) >= |dot|;
      }
    }
  }

  /** For names of at most 65409 octets: exactly when the decoder never returns. */
  lemma {:induction false} DecoderHangsIff(dot: bytes)
    requires |dot| <= 0xff81
    ensures DottedToStringSpec(dot) == Hang <==> LoopsBack(dot, 0)
  {
    HangMeansNoExit(dot, 0, true, [], 0x1_0000);
    if LoopsBack(dot, 0) {
      LoopHangs(dot, 0, 0x1_0000);
    } else {
      NoLoopEnds(dot, 0, 0x1_0000);
    }
  }

  /** Following the labels from `offset` leads to a length octet that jumps back, but not to the start. */
  predicate JumpsBack(dot: bytes, offset: nat)
    decreases |dot| - offset
  {
    offset < |dot| &&
    var c := dot[offset];
    if c >= 128 then offset + c >= 256
    else JumpsBack(dot, offset + 1 + if c < 64 then c else 0)
  }

  lemma {:induction false} ThrowsIff(dot: bytes, offset: u16, ok: bool, text: bytes, fuel: nat)
    requires |dot| <= 0xff81 && offset + fuel >= |dot| && (LoopsBack(dot, offset) ==> LoopsBack(dot, 0))
    ensures Decode(dot, offset, ok, text, fuel) == LengthError <==> JumpsBack(dot, offset)
    decreases fuel
  {
    if offset < |dot| && !AppendThrows(dot, offset) {
      var next := Iterate(dot, offset, ok, text);
      if dot[offset] < 128 {
        ThrowsIff(dot, next.offset, next.ok, next.text, fuel - 1);
      } else if LoopsBack(dot, offset) {
        LoopHangs(dot, offset, fuel);
        HangMeansNoExit(dot, offset, ok, text, fuel);
      } else {
        assert Next(dot, offset) >= |dot|;
      }
    }
  }

  /** For names of at most 65409 octets: exactly when the decoder throws. */
  lemma {:induction false} DecoderThrowsIff(dot: bytes)
    requires |dot| <= 0xff81
    ensures DottedToStringSpec(dot) == LengthError <==> JumpsBack(dot, 0)
  {
    ThrowsIff(dot, 0, true, [], 0x1_0000);
  }

  /** One octet is enough to keep the decoder from returning. */
  lemma {:induction false} DecoderHangsOnFF()
    ensures DottedToStringSpec([0xff]) == Hang
    ensures forall n: nat :: !Exits([0xff], 0, n)
  {
    DecoderHangsIff([0xff]);
    forall n: nat ensures !Exits([0xff], 0, n) {
      LoopHangs([0xff], 0, n);
    }
  }

  // ---------------------------------------------------------------- round trip

  /** d holds, from octet i on, the labels of s from the one starting at i. */
  ghost predicate Spells(s: bytes, d: bytes, i: nat)
    requires i <= |s| <= 255 && |d| == |s| + 1
    decreases |s| - i
  {
    var e := LabelEnd(s, i);
    && d[i] == e - i
    && (forall j :: i <= j < e ==> d[j + 1] == s[j])
    && (e < |s| ==> Spells(s, d, e + 1))
  }

  lemma {:induction false} DottedSpells(s: bytes, d: bytes, i: nat)
    requires i <= |s| <= 255 && |d| == |s| + 1 && d[i..] == DottedFrom(s, i)
    ensures Spells(s, d, i)
    decreases |s| - i
  {
    hide Octet, Labelled;
    var e := LabelEnd(s, i);
    if e < |s| {
      SplitLabel(d, i, s[i..e], DottedFrom(s, e + 1));
      DottedSpells(s, d, e + 1);
    } else {
      SplitLabel(d, i, s[i..], []);
    }
  }

  lemma {:induction false} SplitLabel(d: bytes, i: nat, word: bytes, rest: bytes)
    requires i < |d| && d[i..] == Labelled(word) + rest
    ensures d[i] == Octet(|word|) && d[i + 1 + |word|..] == rest
    ensures forall j :: 0 <= j < |word| ==> d[i + j + 1] == word[j]
  {
    assert forall j :: i <= j < |d| ==> d[j] == d[i..][j - i];
  }

  /** What the decoder has produced when it reaches the label that starts at i. */
  function Before(s: bytes, i: nat): bytes
    requires i <= |s|
  {
    if i == 0 then [] else s[..i - 1]
  }

  lemma {:induction false} SameWord(s: bytes, d: bytes, i: nat, e: nat)
    requires i <= e <= |s| && |d| == |s| + 1 && forall j :: i <= j < e ==> d[j + 1] == s[j]
    ensures (d + [0])[i + 1..e + 1] == s[i..e]
  {
  }

  /** One iteration of the decoder on a short label. */
  lemma {:induction false} ShortStep(s: bytes, d: bytes, i: nat)
    requires i <= |s| <= 255 && |d| == |s| + 1 && Spells(s, d, i) && LabelEnd(s, i) - i <= 63
    requires i > 0 ==> s[i - 1] == DOT
    ensures var e := LabelEnd(s, i);
            Next(d, i) == e + 1 && Iterate(d, i, true, Before(s, i)) == More(e + 1, true, s[..e])
  {
    var e, text := LabelEnd(s, i), Before(s, i);
    var text' := if i != 0 then text + [DOT] else text;
    assert text' == s[..i];
    SameWord(s, d, i, e);
    assert s[..i] + s[i..e] == s[..e];
  }

  /** Decoding a name with short labels, from the label that starts at i on. */
  lemma {:induction false} DecodeShort(s: bytes, d: bytes, i: nat, fuel: nat)
    requires i <= |s| <= 255 && |d| == |s| + 1 && Spells(s, d, i) && ShortLabelsFrom(s, i)
    requires (i > 0 ==> s[i - 1] == DOT) && |s| - i < fuel
    ensures Decode(d, i, true, Before(s, i), fuel) == Done(true, s)
    decreases |s| - i
  {
    hide Iterate;
    var e := LabelEnd(s, i);
    ShortStep(s, d, i);
    if e < |s| {
      DecodeShort(s, d, e + 1, fuel - 1);
    } else {
      assert s[..e] == s;
    }
  }

  /** Decoding a name with a long label, from the label that starts at i on. */
  lemma {:induction false} DecodeLong(s: bytes, d: bytes, i: nat, fuel: nat)
    requires i <= |s| <= 255 && |d| == |s| + 1 && Spells(s, d, i) && !ShortLabelsFrom(s, i)
    requires (i > 0 ==> s[i - 1] == DOT) && |s| - i < fuel
    requires LoopsBack(d, i) ==> LoopsBack(d, 0)
    ensures Decode(d, i, true, Before(s, i), fuel) != Done(true, s)
    decreases |s| - i
  {
    var e := LabelEnd(s, i);
    if e - i > 63 {
      LongStep(s, d, i, fuel);
    } else {
      ShortStep(s, d, i);
      DecodeLong(s, d, e + 1, fuel - 1);
    }
  }

  /** A label of more than 63 octets is never decoded. */
  lemma {:induction false} LongStep(s: bytes, d: bytes, i: nat, fuel: nat)
    requires i <= |s| <= 255 && |d| == |s| + 1 && fuel > 0
    requires 63 < d[i] <= |s| - i
    requires LoopsBack(d, i) ==> LoopsBack(d, 0)
    ensures Decode(d, i, true, Before(s, i), fuel) != Done(true, s)
  {
    var text := Before(s, i);
    if d[i] < 128 {
      OkStaysFalse(d, i + 1, text + [d[i]], fuel - 1);
    } else if i + d[i] == 255 {
      LoopHangs(d, i, fuel);
      HangMeansNoExit(d, i, true, text, fuel);
    } else {
      assert Next(d, i) >= |d| && Iterate(d, i, true, text) == More(Next(d, i), true, text);
    }
  }

  lemma {:induction false} OkStaysFalse(dot: bytes, offset: u16, text: bytes, fuel: nat)
    requires |dot| < 0x1_0000
    ensures var r := Decode(dot, offset, false, text, fuel); r.Done? ==> !r.ok
    decreases fuel
  {
    if offset < |dot| && fuel > 0 && !AppendThrows(dot, offset) {
      var next := Iterate(dot, offset, false, text);
      OkStaysFalse(dot, next.offset, next.text, fuel - 1);
    }
  }

  /**
   For every NUL-free name of at most 255 octets, decoding what the encoder writes gives it back exactly when its
   labels are short, and what it writes is one octet longer.
   */
  lemma {:induction false} NameRoundTrip(s: bytes, memory: bytes)
    requires |s| <= 255 && 0 !in s && |memory| == |s| + 1
    ensures EncoderReturns(s) && |Encoded(s, memory)| == |s| + 1
    ensures DottedToStringSpec(Encoded(s, memory)) == Done(true, s) <==> ShortLabels(s)
  {
    EncodedWhole(s, memory);
    DottedRoundTrip(s);
  }

  lemma {:induction false} DottedRoundTrip(s: bytes)
    requires |s| <= 255
    ensures DottedToStringSpec(Dotted(s)) == Done(true, s) <==> ShortLabels(s)
  {
    var d := Dotted(s);
    DottedSpells(s, d, 0);
    if ShortLabels(s) {
      DecodeShort(s, d, 0, 0x1_0000);
    } else {
      DecodeLong(s, d, 0, 0x1_0000);
    }
  }
}
