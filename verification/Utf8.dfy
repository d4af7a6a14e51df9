/**
 UTF-8 text and its reassembly across decrypted chunks.

 The reference notion of text is the encoding of Unicode scalar values (section 3 of RFC 3629).
 `FromUtf8` is the validating scan of the standard library: how many leading bytes are
 valid, and whether the first problem is a malformed sequence or merely a cut-off one.
 */
module Utf8 {
  import opened Prelude

  // ---- Reference: encoded scalar values -------------------------------------------------

  predicate IsScalar(c: int) {
    0 <= c <= 0x10FFFF && !(0xD800 <= c <= 0xDFFF)
  }

  function EncodeScalar(c: int): (s: seq<byte>)
    requires IsScalar(c)
    ensures 1 <= |s| <= 4
  {
    if c < 0x80 then [c]
    else if c < 0x800 then [0xC0 + c / 64, 0x80 + c % 64]
    else if c < 0x10000 then [0xE0 + c / 4096, 0x80 + c / 64 % 64, 0x80 + c % 64]
    else [0xF0 + c / 262144, 0x80 + c / 4096 % 64, 0x80 + c / 64 % 64, 0x80 + c % 64]
  }

  predicate AllScalars(cs: seq<int>) {
    forall i :: 0 <= i < |cs| ==> IsScalar(cs[i])
  }

  function EncodeText(cs: seq<int>): seq<byte>
    requires AllScalars(cs)
  {
    if cs == [] then [] else EncodeScalar(cs[0]) + EncodeText(cs[1..])
  }

  ghost predicate Encodes(s: seq<byte>, cs: seq<int>) {
    AllScalars(cs) && EncodeText(cs) == s
  }

  ghost predicate WellFormed(s: seq<byte>) {
    exists cs :: Encodes(s, cs)
  }

  /** A cut-off character: a non-empty proper prefix of some scalar's encoding. */
  ghost predicate CutOff(p: seq<byte>) {
    p != [] && exists c :: IsScalar(c) && p < EncodeScalar(c)
  }

  // ---- The validating scan --------------------------------------------------------------

  datatype Head = Char(len: nat) | Incomplete | Bad(errorLen: nat)

  predicate Continuation(b: byte) {
    0x80 <= b <= 0xBF
  }

  predicate SecondByteOk(first: byte, second: byte) {
    if first == 0xE0 then 0xA0 <= second <= 0xBF
    else if first == 0xED then 0x80 <= second <= 0x9F
    else if first == 0xF0 then 0x90 <= second <= 0xBF
    else if first == 0xF4 then 0x80 <= second <= 0x8F
    else Continuation(second)
  }

  function SequenceWidth(first: byte): (n: nat) {
    if first < 0x80 then 1
    else if 0xC2 <= first <= 0xDF then 2
    else if 0xE0 <= first <= 0xEF then 3
    else if 0xF0 <= first <= 0xF4 then 4
    else 0
  }

  /** What the scan finds at the start of a non-empty byte string. */
  function HeadOf(s: seq<byte>): (h: Head)
    requires s != []
    ensures h.Char? ==> 1 <= h.len <= |s| && h.len <= 4
    ensures h.Incomplete? ==> |s| <= 3
  {
    var w := SequenceWidth(s[0]);
    if w == 0 then Bad(1)
    else if w == 1 then Char(1)
    else if |s| < 2 then Incomplete
    else if !SecondByteOk(s[0], s[1]) then Bad(1)
    else if w == 2 then Char(2)
    else if |s| < 3 then Incomplete
    else if !Continuation(s[2]) then Bad(2)
    else if w == 3 then Char(3)
    else if |s| < 4 then Incomplete
    else if !Continuation(s[3]) then Bad(3)
    else Char(4)
  }

  /** `errorLen` is None when the input ends inside a character. */
  datatype Validation = Valid | Invalid(validUpTo: nat, errorLen: Option<nat>)

  function FromUtf8(s: seq<byte>): (v: Validation)
    ensures v.Invalid? ==> v.validUpTo < |s|
  {
    if s == [] then Valid
    else match HeadOf(s)
      case Incomplete => Invalid(0, None)
      case Bad(k) => Invalid(0, Some(k))
      case Char(n) => Shift(n, FromUtf8(s[n..]))
  }

  function Shift(n: nat, v: Validation): Validation {
    if v.Valid? then Valid else Invalid(n + v.validUpTo, v.errorLen)
  }

  // ---- The scan against the reference ---------------------------------------------------

  lemma EncodedScalarHead(c: int, rest: seq<byte>)
    requires IsScalar(c)
    ensures HeadOf(EncodeScalar(c) + rest) == Char(|EncodeScalar(c)|)
  {
    var enc := EncodeScalar(c);
    var s := enc + rest;
    assert forall i :: 0 <= i < |enc| ==> s[i] == enc[i];
    EncodedBytes(c);
    hide EncodeScalar, IsScalar, SequenceWidth, SecondByteOk, Continuation;
  }

  lemma {:induction false} EncodedBytes(c: int)
    requires IsScalar(c)
    ensures var s := EncodeScalar(c);
            && SequenceWidth(s[0]) == |s|
            && (|s| > 1 ==> SecondByteOk(s[0], s[1]))
            && (|s| > 2 ==> Continuation(s[2]))
            && (|s| > 3 ==> Continuation(s[3]))
  {
    if c >= 0x10000 {
      FourBytes(c);
      hide SecondByteOk, SequenceWidth, Continuation;
    }
  }

  lemma {:induction false} FourBytes(c: int)
    requires 0x10000 <= c <= 0x10FFFF
    ensures var a, b := 0xF0 + c / 262144, 0x80 + c / 4096 % 64;
            && SequenceWidth(a) == 4 && SecondByteOk(a, b)
            && Continuation(0x80 + c / 64 % 64) && Continuation(0x80 + c % 64)
  {
    var h, m := c / 262144, c / 4096 % 64;
    assert c / 4096 == h * 64 + m;
  }

  lemma SixBits(high: int, low: int)
    requires 0 <= low < 64
    ensures (high * 64 + low) / 64 == high && (high * 64 + low) % 64 == low
  {
  }

  /** The scalar a complete head encodes. */
  function DecodeHead(s: seq<byte>): int
    requires s != [] && HeadOf(s).Char?
  {
    var n := HeadOf(s).len;
    var b0: int := s[0];
    if n == 1 then b0
    else
      var b1: int := s[1] - 0x80;
      if n == 2 then (b0 - 0xC0) * 64 + b1
      else
        var b2: int := s[2] - 0x80;
        if n == 3 then ((b0 - 0xE0) * 64 + b1) * 64 + b2
        else
          var b3: int := s[3] - 0x80;
          (((b0 - 0xF0) * 64 + b1) * 64 + b2) * 64 + b3
  }

  lemma DecodeHeadEncodes(s: seq<byte>)
    requires s != [] && HeadOf(s).Char?
    ensures IsScalar(DecodeHead(s)) && EncodeScalar(DecodeHead(s)) == s[..HeadOf(s).len]
  {
    hide EncodeScalar, IsScalar;
    var n := HeadOf(s).len;
    if n == 1 {
      Encodes1(s[0]);
    } else if n == 2 {
      Encodes2(s[0], s[1]);
    } else if n == 3 {
      Encodes3(s[0], s[1], s[2]);
    } else if n == 4 {
      Encodes4(s[0], s[1], s[2], s[3]);
    }
  }

  lemma Encodes1(b0: byte)
    requires b0 < 0x80
    ensures IsScalar(b0) && EncodeScalar(b0) == [b0]
  {
  }

  lemma Encodes2(b0: byte, b1: byte)
    requires 0xC2 <= b0 <= 0xDF && Continuation(b1)
    ensures var c: int := (b0 - 0xC0) * 64 + (b1 - 0x80);
            IsScalar(c) && EncodeScalar(c) == [b0, b1]
  {
    SixBits(b0 - 0xC0, b1 - 0x80);
  }

  lemma Encodes3(b0: byte, b1: byte, b2: byte)
    requires 0xE0 <= b0 <= 0xEF && SecondByteOk(b0, b1) && Continuation(b2)
    ensures var c: int := ((b0 - 0xE0) * 64 + (b1 - 0x80)) * 64 + (b2 - 0x80);
            IsScalar(c) && EncodeScalar(c) == [b0, b1, b2]
  {
    var h: int := (b0 - 0xE0) * 64 + (b1 - 0x80);
    SixBits(b0 - 0xE0, b1 - 0x80);
    SixBits(h, b2 - 0x80);
    assert (h * 64 + (b2 - 0x80)) / 4096 == h / 64;
  }

  lemma Encodes4(b0: byte, b1: byte, b2: byte, b3: byte)
    requires 0xF0 <= b0 <= 0xF4 && SecondByteOk(b0, b1) && Continuation(b2) && Continuation(b3)
    ensures var c: int := (((b0 - 0xF0) * 64 + (b1 - 0x80)) * 64 + (b2 - 0x80)) * 64 + (b3 - 0x80);
            IsScalar(c) && EncodeScalar(c) == [b0, b1, b2, b3]
  {
    var h: int := (b0 - 0xF0) * 64 + (b1 - 0x80);
    var m: int := h * 64 + (b2 - 0x80);
    SixBits(b0 - 0xF0, b1 - 0x80);
    SixBits(h, b2 - 0x80);
    SixBits(m, b3 - 0x80);
    assert (m * 64 + (b3 - 0x80)) / 4096 == m / 64;
    assert (m * 64 + (b3 - 0x80)) / 262144 == h / 64;
  }

  /** The scan accepts exactly the encodings of scalar sequences. */
  lemma {:induction false} ScanAcceptsExactlyText(s: seq<byte>)
    ensures FromUtf8(s) == Valid <==> WellFormed(s)
    decreases |s|
  {
    if FromUtf8(s) == Valid { AcceptedIsText(s); }
    if WellFormed(s) {
      var cs :| Encodes(s, cs);
      TextIsAccepted(cs);
    }
  }

  lemma {:induction false} AcceptedIsText(s: seq<byte>)
    requires FromUtf8(s) == Valid
    ensures WellFormed(s)
    decreases |s|
  {
    hide HeadOf, DecodeHead, EncodeScalar, IsScalar;
    if s == [] {
      assert Encodes(s, []);
    } else {
      var n := HeadOf(s).len;
      AcceptedIsText(s[n..]);
      var cs :| Encodes(s[n..], cs);
      DecodeHeadEncodes(s);
      assert ([DecodeHead(s)] + cs)[1..] == cs;
      assert Encodes(s, [DecodeHead(s)] + cs);
    }
  }

  lemma {:induction false} TextIsAccepted(cs: seq<int>)
    requires AllScalars(cs)
    ensures FromUtf8(EncodeText(cs)) == Valid
  {
    if cs != [] {
      var rest := EncodeText(cs[1..]);
      EncodedScalarHead(cs[0], rest);
      TextIsAccepted(cs[1..]);
      assert (EncodeScalar(cs[0]) + rest)[|EncodeScalar(cs[0])|..] == rest;
    }
  }

  /** An incomplete head is at most three bytes and can still become a character. */
  lemma IncompleteIsCutOff(p: seq<byte>)
    requires p != [] && HeadOf(p) == Incomplete
    ensures |p| <= 3 && CutOff(p)
  {
    var second := if p[0] == 0xE0 then 0xA0 else if p[0] == 0xF0 then 0x90 else 0x80;
    var full :=
      if |p| == 1 then p + [second, 0x80, 0x80]
      else if |p| == 2 then p + [0x80, 0x80]
      else p + [0x80];
    var n := HeadOf(full).len;
    assert n > |p| && full[..n][..|p|] == p;
    DecodeHeadEncodes(full);
    assert p < EncodeScalar(DecodeHead(full));
  }

  /**
   The length of a malformed sequence: the longest part that could still have become a character, or else the one byte
   that begins none. What follows that part fits no character.
   */
  lemma {:induction false} MalformedLength(s: seq<byte>)
    requires s != [] && HeadOf(s).Bad?
    ensures var n := HeadOf(s).errorLen;
            if CutOff(s[..1]) then 1 <= n < |s| && CutOff(s[..n]) && !BeginsCharacter(s[..n + 1])
            else n == 1 && !BeginsCharacter(s[..1])
  {
    var n := HeadOf(s).errorLen;
    if SequenceWidth(s[0]) == 0 {
      assert HeadOf(s[..1]) == Bad(1);
      BeginsNone(s[..1]);
    } else {
      assert HeadOf(s[..1]) == Incomplete && HeadOf(s[..n]) == Incomplete && HeadOf(s[..n + 1]) == Bad(n);
      IncompleteIsCutOff(s[..1]);
      IncompleteIsCutOff(s[..n]);
      BeginsNone(s[..n + 1]);
    }
  }

  /** Some scalar's encoding starts with these bytes. */
  ghost predicate BeginsCharacter(p: seq<byte>) {
    exists c :: IsScalar(c) && p <= EncodeScalar(c)
  }

  lemma {:induction false} BeginsNone(p: seq<byte>)
    requires p != [] && HeadOf(p).Bad?
    ensures !BeginsCharacter(p) && !CutOff(p)
  {
    hide HeadOf, EncodeScalar;
    forall c | IsScalar(c) && p <= EncodeScalar(c)
      ensures false
    {
      EncodedScalarHead(c, []);
      assert EncodeScalar(c) + [] == EncodeScalar(c) == p + EncodeScalar(c)[|p|..];
      HeadIsStable(p, EncodeScalar(c)[|p|..]);
    }
  }

  // ---- Scanning in pieces ---------------------------------------------------------------

  lemma HeadIsStable(a: seq<byte>, b: seq<byte>)
    requires a != [] && !HeadOf(a).Incomplete?
    ensures HeadOf(a + b) == HeadOf(a)
  {
    assert forall i :: 0 <= i < |a| ==> (a + b)[i] == a[i];
  }

  /** A malformed sequence stays malformed whatever follows it. */
  lemma {:induction false} MalformedForever(a: seq<byte>, b: seq<byte>)
    requires FromUtf8(a).Invalid? && FromUtf8(a).errorLen.Some?
    ensures FromUtf8(a + b) == FromUtf8(a)
    decreases |a|
  {
    hide HeadOf;
    HeadIsStable(a, b);
    if HeadOf(a).Char? {
      var n := HeadOf(a).len;
      MalformedForever(a[n..], b);
      assert (a + b)[n..] == a[n..] + b;
    }
  }

  /** The part of `a` that is already text can be scanned on its own. */
  function TextPrefix(a: seq<byte>): (n: nat)
    ensures n <= |a|
  {
    var v := FromUtf8(a);
    if v.Valid? then |a| else v.validUpTo
  }

  lemma {:induction false} ScanStep(a: seq<byte>, n: nat)
    requires a != [] && HeadOf(a) == Char(n)
    ensures n <= |a| && TextPrefix(a) == n + TextPrefix(a[n..])
    ensures FromUtf8(a) == Shift(n, FromUtf8(a[n..]))
    ensures a[n..][TextPrefix(a[n..])..] == a[TextPrefix(a)..]
    ensures a[..TextPrefix(a)] == a[..n] + a[n..][..TextPrefix(a[n..])]
  {
    var rest := a[n..];
    assert FromUtf8(a) == Shift(n, FromUtf8(rest));
    SliceTwice(a, n, TextPrefix(rest));
  }

  lemma SliceTwice(a: seq<byte>, n: nat, m: nat)
    requires n + m <= |a|
    ensures a[n..][m..] == a[n + m..] && a[..n + m] == a[..n] + a[n..][..m]
  {
  }

  lemma {:induction false} ScanStepBefore(a: seq<byte>, n: nat, b: seq<byte>)
    requires a != [] && HeadOf(a) == Char(n)
    ensures n <= |a| && FromUtf8(a + b) == Shift(n, FromUtf8(a[n..] + b))
  {
    HeadIsStable(a, b);
    assert (a + b)[n..] == a[n..] + b;
  }

  lemma {:induction false} ScanFromCut(a: seq<byte>, b: seq<byte>)
    requires FromUtf8(a).Valid? || FromUtf8(a).errorLen.None?
    ensures FromUtf8(a + b) == Shift(TextPrefix(a), FromUtf8(a[TextPrefix(a)..] + b))
    decreases |a|
  {
    hide HeadOf;
    if a == [] || !HeadOf(a).Char? {
      assert TextPrefix(a) == 0;
      assert a[0..] == a;
    } else {
      var n := HeadOf(a).len;
      ScanStep(a, n);
      ScanStepBefore(a, n, b);
      ScanFromCut(a[n..], b);
    }
  }

  lemma FirstCharacterAlone(a: seq<byte>, n: nat)
    requires a != [] && HeadOf(a) == Char(n)
    ensures n <= |a| && a[..n] != [] && HeadOf(a[..n]) == Char(n)
  {
    assert forall i :: 0 <= i < n ==> a[..n][i] == a[i];
  }

  /** The text prefix is text, and what is left after it starts with the problem. */
  lemma {:induction false} TextPrefixSplits(a: seq<byte>)
    ensures FromUtf8(a[..TextPrefix(a)]) == Valid
    ensures FromUtf8(a).Invalid? && FromUtf8(a).errorLen.None? ==> HeadOf(a[TextPrefix(a)..]) == Incomplete
    decreases |a|
  {
    hide HeadOf;
    if a != [] && HeadOf(a).Char? {
      var n := HeadOf(a).len;
      ScanStep(a, n);
      TextPrefixSplits(a[n..]);
      FirstCharacterAlone(a, n);
      ScanStepBefore(a[..n], n, a[n..][..TextPrefix(a[n..])]);
      assert a[..n][n..] + a[n..][..TextPrefix(a[n..])] == a[n..][..TextPrefix(a[n..])];
    } else {
      assert TextPrefix(a) == 0 || a == [];
      assert a[0..] == a;
    }
  }

  // ---- Reassembly across chunks ---------------------------------------------------------

  datatype PlainError = InvalidUtf8 | InvalidUtf8Tail

  /** Cutting at the text prefix: text before it, and (unless malformed) a cut-off character after it. */
  lemma {:induction false} PushSplits(all: seq<byte>)
    ensures WellFormed(all[..TextPrefix(all)])
    ensures all[..TextPrefix(all)] + all[TextPrefix(all)..] == all
    ensures Concat([all[..TextPrefix(all)]]) == all[..TextPrefix(all)]
    ensures FromUtf8(all).Valid? ==> all[..TextPrefix(all)] == all
    ensures FromUtf8(all).Invalid? && FromUtf8(all).errorLen.None? ==>
              var held := all[TextPrefix(all)..];
              held != [] && HeadOf(held) == Incomplete && |held| <= 3 && CutOff(held)
  {
    TextPrefixSplits(all);
    ScanAcceptsExactlyText(all[..TextPrefix(all)]);
    if FromUtf8(all).Invalid? && FromUtf8(all).errorLen.None? {
      IncompleteIsCutOff(all[TextPrefix(all)..]);
    }
  }

  /** Holds back a cut-off character until the next chunk completes it. */
  class Utf8PlainAccumulator {
    var pending: seq<byte>

    ghost predicate Valid()
      reads this
    {
      pending == [] || HeadOf(pending) == Incomplete
    }

    constructor ()
      ensures Valid() && pending == []
    {
      pending := [];
    }

    /**
     A push fails exactly when the bytes held back plus the new ones contain a malformed
     sequence; otherwise the text handed out and the bytes held back are those bytes again.
     */
    method Push(bytes: seq<byte>) returns (r: Result<seq<seq<byte>>, PlainError>)
      requires Valid()
      modifies this
      ensures r.Err? <==> FromUtf8(old(pending) + bytes).Invalid? && FromUtf8(old(pending) + bytes).errorLen.Some?
      ensures r.Err? ==> r.error == InvalidUtf8 && pending == (old(pending) + bytes)[TextPrefix(old(pending) + bytes)..]
      ensures r.Ok? ==> Valid() && |pending| <= 3 && (pending == [] || CutOff(pending))
      ensures r.Ok? ==> Concat(r.value) + pending == old(pending) + bytes
      ensures r.Ok? ==> forall i :: 0 <= i < |r.value| ==> r.value[i] != [] && WellFormed(r.value[i])
      ensures r.Ok? ==> |Concat(r.value)| == TextPrefix(old(pending) + bytes) && |r.value| <= 1
    {
      pending := pending + bytes;
      var out: seq<seq<byte>> := [];
      PushSplits(pending);
      match FromUtf8(pending) {
        case Valid =>
          if pending != [] {
            out := out + [pending];
          }
          pending := [];
        case Invalid(valid, errorLen) =>
          if valid > 0 {
            out := out + [pending[..valid]];
            pending := pending[valid..];
          }
          if errorLen.Some? {
            return Err(InvalidUtf8);
          }
      }
      return Ok(out);
    }

    /** The stream may only end between characters. */
    method Finish() returns (r: Result<Option<seq<byte>>, PlainError>)
      requires Valid()
      ensures r == if pending == [] then Ok(None) else Err(InvalidUtf8Tail)
    {
      if pending == [] {
        return Ok(None);
      }
      if FromUtf8(pending).Valid? {
        return Ok(Some(pending));
      }
      return Err(InvalidUtf8Tail);
    }
  }

  /**
   A whole run: push every chunk, then finish. It succeeds exactly on well-formed text,
   however the text was cut into chunks, and hands the text out unchanged.
   */
  method Reassemble(chunks: seq<seq<byte>>) returns (r: Result<seq<seq<byte>>, PlainError>)
    ensures r.Ok? <==> WellFormed(Concat(chunks))
    ensures r.Ok? ==> Concat(r.value) == Concat(chunks)
    ensures r.Ok? ==> forall i :: 0 <= i < |r.value| ==> r.value[i] != [] && WellFormed(r.value[i])
  {
    hide HeadOf, TextPrefix, WellFormed;
    var acc := new Utf8PlainAccumulator();
    var pieces: seq<seq<byte>> := [];
    for k := 0 to |chunks|
      invariant acc.Valid()
      invariant fresh(acc)
      invariant Concat(pieces) + acc.pending == Concat(chunks[..k])
      invariant FromUtf8(Concat(pieces)) == Valid
      invariant forall i :: 0 <= i < |pieces| ==> pieces[i] != [] && WellFormed(pieces[i])
    {
      ghost var held := acc.pending;
      var out := acc.Push(chunks[k]);
      SeenSoFar(chunks, k, Concat(pieces), held);
      if out.Err? {
        RestStaysMalformed(chunks, k + 1);
        return Err(out.error);
      }
      HandedOut(pieces, out.value, held + chunks[k], acc.pending);
      pieces := pieces + out.value;
    }
    assert chunks[..|chunks|] == chunks;
    ScanFromText(Concat(pieces), acc.pending);
    ScanAcceptsExactlyText(Concat(chunks));
    var tail := acc.Finish();
    match tail {
      case Err(e) => return Err(e);
      case Ok(None) => return Ok(pieces);
      case Ok(Some(t)) => return Ok(pieces + [t]);
    }
  }

  lemma SeenSoFar(chunks: seq<seq<byte>>, k: nat, done: seq<byte>, held: seq<byte>)
    requires k < |chunks| && done + held == Concat(chunks[..k]) && FromUtf8(done) == Valid
    ensures done + (held + chunks[k]) == Concat(chunks[..k + 1])
    ensures FromUtf8(Concat(chunks[..k + 1])) == Shift(|done|, FromUtf8(held + chunks[k]))
  {
    hide FromUtf8, Shift;
    assert chunks[..k + 1] == chunks[..k] + [chunks[k]];
    ConcatSnoc(chunks[..k], chunks[k]);
    assert done + (held + chunks[k]) == (done + held) + chunks[k];
    ScanFromText(done, held + chunks[k]);
  }

  lemma HandedOut(pieces: seq<seq<byte>>, out: seq<seq<byte>>, input: seq<byte>, held: seq<byte>)
    requires FromUtf8(Concat(pieces)) == Valid
    requires Concat(out) + held == input && |Concat(out)| == TextPrefix(input)
    ensures FromUtf8(Concat(pieces + out)) == Valid
    ensures Concat(pieces + out) + held == Concat(pieces) + input
  {
    hide FromUtf8, TextPrefix;
    ConcatAppend(pieces, out);
    TextPrefixSplits(input);
    assert Concat(out) == input[..TextPrefix(input)];
    ScanFromText(Concat(pieces), Concat(out));
    assert Concat(pieces) + Concat(out) + held == Concat(pieces) + (Concat(out) + held);
  }

  lemma ScanFromText(a: seq<byte>, b: seq<byte>)
    requires FromUtf8(a) == Valid
    ensures FromUtf8(a + b) == Shift(|a|, FromUtf8(b))
  {
    ScanFromCut(a, b);
    assert a[|a|..] + b == b;
  }

  lemma RestStaysMalformed(chunks: seq<seq<byte>>, k: nat)
    requires k <= |chunks|
    requires FromUtf8(Concat(chunks[..k])).Invalid? && FromUtf8(Concat(chunks[..k])).errorLen.Some?
    ensures !WellFormed(Concat(chunks))
  {
    assert chunks == chunks[..k] + chunks[k..];
    ConcatAppend(chunks[..k], chunks[k..]);
    MalformedForever(Concat(chunks[..k]), Concat(chunks[k..]));
    ScanAcceptsExactlyText(Concat(chunks));
  }
}
