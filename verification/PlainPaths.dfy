/**
 The two ways decrypted plaintext reaches a client. Streaming reassembles characters that were cut between chunks and
 relays what it gets; buffering takes every chunk by itself and folds it into one completion. On both ways a chunk that
 reads as an `openai_delta` frame is handled as a frame.

 Reading a frame out of a text is a function parameter.
 */
module PlainPaths {
  import opened Prelude
  import opened Json
  import opened Utf8
  import opened Deltas

  type FrameReader = seq<byte> -> Option<Json>

  // ---- Bytes as text ---------------------------------------------------------------------

  /** The characters of a text. */
  function TextOf(s: seq<byte>): string
    decreases |s|
  {
    if s == [] || !HeadOf(s).Char? then ""
    else
      DecodeHeadEncodes(s);
      [DecodeHead(s) as char] + TextOf(s[HeadOf(s).len..])
  }

  lemma {:induction false} DecodeIsStable(a: seq<byte>, b: seq<byte>)
    requires a != [] && HeadOf(a).Char?
    ensures HeadOf(a + b) == HeadOf(a) && DecodeHead(a + b) == DecodeHead(a)
  {
    HeadIsStable(a, b);
    assert forall i :: 0 <= i < |a| ==> (a + b)[i] == a[i];
  }

  lemma {:induction false} TextOfAppend(a: seq<byte>, b: seq<byte>)
    requires FromUtf8(a) == Valid
    ensures TextOf(a + b) == TextOf(a) + TextOf(b)
    decreases |a|
  {
    hide HeadOf, DecodeHead;
    if a == [] {
      assert a + b == b;
    } else {
      var n := HeadOf(a).len;
      DecodeIsStable(a, b);
      assert (a + b)[n..] == a[n..] + b;
      TextOfAppend(a[n..], b);
    }
  }

  function Scalars(text: string): (cs: seq<int>)
    ensures |cs| == |text| && forall i :: 0 <= i < |text| ==> cs[i] == text[i] as int
  {
    seq(|text|, i requires 0 <= i < |text| => text[i] as int)
  }

  /** The characters of a text are those it encodes: written as UTF-8 again they are the same bytes. */
  lemma {:induction false} TextEncodesBack(s: seq<byte>)
    requires FromUtf8(s) == Valid
    ensures AllScalars(Scalars(TextOf(s))) && EncodeText(Scalars(TextOf(s))) == s
    decreases |s|
  {
    hide HeadOf, DecodeHead, EncodeScalar, AllScalars, EncodeText, Scalars;
    if s == [] {
      NoScalars();
    } else {
      var n := HeadOf(s).len;
      TextEncodesBack(s[n..]);
      DecodeHeadEncodes(s);
      OneMoreScalar(DecodeHead(s) as char, TextOf(s[n..]));
      assert s == s[..n] + s[n..];
    }
  }

  lemma {:induction false} NoScalars()
    ensures AllScalars(Scalars("")) && EncodeText(Scalars("")) == []
  {
  }

  lemma {:induction false} OneMoreScalar(c: char, text: string)
    requires IsScalar(c as int) && AllScalars(Scalars(text))
    ensures var cs := Scalars([c] + text);
            AllScalars(cs) && EncodeText(cs) == EncodeScalar(c as int) + EncodeText(Scalars(text))
  {
    hide IsScalar, EncodeScalar;
    assert Scalars([c] + text)[1..] == Scalars(text);
  }

  lemma {:induction false} SomeText(a: seq<byte>)
    requires FromUtf8(a) == Valid && a != []
    ensures TextOf(a) != ""
  {
    hide HeadOf, DecodeHead;
  }

  // ---- What the chunks say ---------------------------------------------------------------

  /** A non-empty text as a frame: the frame it reads as, or one that carries it as content. */
  function ItemOf(frameOf: FrameReader, text: seq<byte>): Json {
    if frameOf(text).Some? then frameOf(text).value else FrameOf(map["content" := Str(TextOf(text))])
  }

  /** The frames a list of texts stands for; empty texts say nothing. */
  function Items(frameOf: FrameReader, texts: seq<seq<byte>>): seq<Json> {
    if texts == [] then []
    else
      var k := |texts| - 1;
      Items(frameOf, texts[..k]) + if texts[k] == [] then [] else [ItemOf(frameOf, texts[k])]
  }

  predicate IsFrameChunk(frameOf: FrameReader, chunk: seq<byte>) {
    FromUtf8(chunk) == Valid && frameOf(chunk).Some?
  }

  /** The chunks that are not frames by themselves. */
  function Legacy(frameOf: FrameReader, chunks: seq<seq<byte>>): seq<seq<byte>> {
    if chunks == [] then []
    else
      var k := |chunks| - 1;
      Legacy(frameOf, chunks[..k]) + if IsFrameChunk(frameOf, chunks[k]) then [] else [chunks[k]]
  }

  function NonEmpty(chunks: seq<seq<byte>>): seq<seq<byte>> {
    if chunks == [] then []
    else
      var k := |chunks| - 1;
      NonEmpty(chunks[..k]) + if chunks[k] == [] then [] else [chunks[k]]
  }

  ghost predicate AllText(chunks: seq<seq<byte>>) {
    forall i :: 0 <= i < |chunks| ==> FromUtf8(chunks[i]) == Valid
  }

  lemma {:induction false} OneMoreChunk(frameOf: FrameReader, chunks: seq<seq<byte>>, k: nat)
    requires k < |chunks|
    ensures var before, after, chunk := chunks[..k], chunks[..k + 1], chunks[k];
            && Items(frameOf, after) == Items(frameOf, before) + (if chunk == [] then [] else [ItemOf(frameOf, chunk)])
            && (AllText(after) <==> AllText(before) && FromUtf8(chunk) == Valid)
  {
    hide ItemOf, FromUtf8;
    var after := chunks[..k + 1];
    assert after[..k] == chunks[..k] && after[k] == chunks[k];
    assert forall i :: 0 <= i < k ==> after[i] == chunks[..k][i];
  }

  lemma {:induction false} OneMoreText(frameOf: FrameReader, texts: seq<seq<byte>>, text: seq<byte>)
    requires text != []
    ensures Items(frameOf, texts + [text]) == Items(frameOf, texts) + [ItemOf(frameOf, text)]
  {
    assert (texts + [text])[..|texts|] == texts;
  }

  lemma {:induction false} NonEmptySays(frameOf: FrameReader, chunks: seq<seq<byte>>)
    ensures Items(frameOf, NonEmpty(chunks)) == Items(frameOf, chunks)
  {
    hide ItemOf;
    if chunks != [] {
      var k := |chunks| - 1;
      NonEmptySays(frameOf, chunks[..k]);
      if chunks[k] != [] {
        OneMoreText(frameOf, NonEmpty(chunks[..k]), chunks[k]);
      } else {
        assert NonEmpty(chunks) == NonEmpty(chunks[..k]);
      }
    }
  }

  // ---- Content as a frame ----------------------------------------------------------------

  lemma {:induction false} ContentFrameMeans(agg: Aggregate, tag: Tag, text: string)
    requires IsAggregate(agg)
    ensures var frame := FrameOf(map["content" := Str(text)]);
            && ApplyFrame(agg, frame) == agg.(content := agg.content + text)
            && !CarriesFinish(frame) && !CallsTools(frame) && !DropsReasoning(frame)
            && (text != "" ==> RelayFrame(tag, frame) == [Chunk(tag, map["content" := Str(text)], None)])
  {
    hide Chunk, MergeAll;
    var delta := map["content" := Str(text)];
    var frame, choice := FrameOf(delta), Obj(map["delta" := Obj(delta)]);
    FrameOfMeans(agg, delta);
    OneFrame(agg, frame);
    hide FrameOf, ApplyFrames, ApplyFrame;
    ContentDeltaMeans(agg, text);
    assert DeltaOf(choice) == Obj(delta) && FinishOf(choice) == None;
    assert Text(Obj(delta), "reasoning") == "" && ToolCalls(Obj(delta)) == [];
    if text != "" {
      assert RelayedDelta(Obj(delta)) == delta;
    }
  }

  lemma {:induction false} ContentDeltaMeans(agg: Aggregate, text: string)
    requires IsAggregate(agg)
    ensures ApplyDelta(agg, Obj(map["content" := Str(text)]), None) == agg.(content := agg.content + text)
  {
    hide MergeAll;
    var delta := Obj(map["content" := Str(text)]);
    assert Text(delta, "content") == text && Text(delta, "reasoning") == "" && Text(delta, "reasoning_content") == "";
    assert ToolCalls(delta) == [];
    MergeNothing(agg.toolCalls);
  }

  // ---- Buffering -------------------------------------------------------------------------

  /** One chunk into the aggregate: it must be text by itself. */
  method AppendPlain(agg: Aggregate, frameOf: FrameReader, plain: seq<byte>) returns (r: Result<Aggregate, PlainError>)
    requires IsAggregate(agg) && frameOf([]).None?
    ensures r.Ok? <==> FromUtf8(plain) == Valid
    ensures r.Ok? ==> r.value == if plain == [] then agg else ApplyFrame(agg, ItemOf(frameOf, plain))
  {
    hide ApplyFrame, FrameOf, CarriesFinish, CallsTools, DropsReasoning, RelayFrame;
    if FromUtf8(plain).Valid? {
      var frame := frameOf(plain);
      if frame.Some? {
        var applied := ApplyOpenaiDeltaFrame(agg, frame.value);
        return Ok(applied);
      }
      ContentFrameMeans(agg, Tag("", ""), TextOf(plain));
      return Ok(agg.(content := agg.content + TextOf(plain)));
    }
    return Err(InvalidUtf8);
  }

  /** Succeeds exactly when every chunk is text by itself, and then folds what the chunks say. */
  method BufferPlain(frameOf: FrameReader, chunks: seq<seq<byte>>) returns (r: Result<Aggregate, PlainError>)
    requires frameOf([]).None?
    ensures r.Ok? <==> AllText(chunks)
    ensures r.Ok? ==> r.value == ApplyFrames(NOTHING, Items(frameOf, chunks))
  {
    hide FromUtf8, ItemOf, ApplyFrame, Items, Legacy, NonEmpty, ApplyFrames, AllText;
    var agg := NOTHING;
    StartOfRun(frameOf, chunks);
    for k := 0 to |chunks|
      invariant agg == ApplyFrames(NOTHING, Items(frameOf, chunks[..k])) && AllText(chunks[..k])
    {
      OneMoreChunk(frameOf, chunks, k);
      var next := AppendPlain(agg, frameOf, chunks[k]);
      if next.Err? {
        NotAllText(chunks, k);
        return Err(next.error);
      }
      if chunks[k] != [] {
        ApplyFramesAppend(NOTHING, Items(frameOf, chunks[..k]), [ItemOf(frameOf, chunks[k])]);
        OneFrame(agg, ItemOf(frameOf, chunks[k]));
      } else {
        assert Items(frameOf, chunks[..k]) + [] == Items(frameOf, chunks[..k]);
      }
      agg := next.value;
    }
    assert chunks[..|chunks|] == chunks;
    return Ok(agg);
  }

  lemma {:induction false} StartOfRun(frameOf: FrameReader, chunks: seq<seq<byte>>)
    ensures Items(frameOf, chunks[..0]) == [] && ApplyFrames(NOTHING, []) == NOTHING && AllText(chunks[..0])
  {
  }

  lemma {:induction false} NotAllText(chunks: seq<seq<byte>>, k: nat)
    requires k < |chunks| && FromUtf8(chunks[k]) != Valid
    ensures !AllText(chunks)
  {
  }

  // ---- Streaming -------------------------------------------------------------------------

  /** The client has been sent what the texts say, and a finish is noted exactly when one of them carries it. */
  ghost predicate Shows(chunks: seq<Json>, sawFinish: bool, tag: Tag, frameOf: FrameReader, texts: seq<seq<byte>>) {
    var items := Items(frameOf, texts);
    chunks == RelayFrames(tag, items) && (sawFinish <==> exists i :: 0 <= i < |items| && CarriesFinish(items[i]))
  }

  lemma {:induction false} ShowsNothing(tag: Tag, frameOf: FrameReader)
    ensures Shows([], false, tag, frameOf, [])
  {
  }

  lemma {:induction false} ShowsOneMore(
    chunks: seq<Json>, sawFinish: bool, tag: Tag, frameOf: FrameReader, texts: seq<seq<byte>>, text: seq<byte>)
    requires Shows(chunks, sawFinish, tag, frameOf, texts) && text != []
    ensures var item := ItemOf(frameOf, text);
            Shows(chunks + RelayFrame(tag, item), sawFinish || CarriesFinish(item), tag, frameOf, texts + [text])
  {
    hide ItemOf, RelayFrame, RelayFrames, CarriesFinish, Items;
    var items, item := Items(frameOf, texts), ItemOf(frameOf, text);
    OneMoreText(frameOf, texts, text);
    RelayOneMore(tag, items, item);
    var more := items + [item];
    assert forall i :: 0 <= i < |items| ==> more[i] == items[i];
    assert more[|items|] == item;
  }

  /** Sends one text: as the frame it reads as, or as content. */
  method EmitText(out: SseOut, tag: Tag, frameOf: FrameReader, text: seq<byte>, ghost texts: seq<seq<byte>>)
    requires text != [] && FromUtf8(text) == Valid && Shows(out.chunks, out.sawFinish, tag, frameOf, texts)
    modifies out
    ensures Shows(out.chunks, out.sawFinish, tag, frameOf, texts + [text])
  {
    hide Shows, FromUtf8, TextOf, RelayFrame, CarriesFinish, Chunk;
    ShowsOneMore(out.chunks, out.sawFinish, tag, frameOf, texts, text);
    var frame := frameOf(text);
    if frame.Some? {
      out.EmitOpenaiDeltaFrame(tag, frame.value);
    } else {
      SomeText(text);
      ContentFrameMeans(NOTHING, tag, TextOf(text));
      out.EmitContent(tag, TextOf(text));
    }
  }

  /** What has been handed out of the legacy chunks, and what is still held back. */
  ghost predicate Reassembled(legacy: seq<seq<byte>>, pieces: seq<seq<byte>>, pending: seq<byte>) {
    Concat(pieces) + pending == Concat(legacy) && FromUtf8(Concat(pieces)) == Valid
  }

  lemma {:induction false} PushOneMore(
    legacy: seq<seq<byte>>, pieces: seq<seq<byte>>, held: seq<byte>, chunk: seq<byte>)
    requires Reassembled(legacy, pieces, held)
    ensures Concat(pieces) + (held + chunk) == Concat(legacy + [chunk])
    ensures FromUtf8(Concat(legacy + [chunk])) == Shift(|Concat(pieces)|, FromUtf8(held + chunk))
  {
    hide FromUtf8, Shift;
    var all := legacy + [chunk];
    assert all[..|legacy|] == legacy && all[..|legacy| + 1] == all;
    SeenSoFar(all, |legacy|, Concat(pieces), held);
  }

  lemma {:induction false} HandedOutOneMore(
    legacy: seq<seq<byte>>, pieces: seq<seq<byte>>, held: seq<byte>, chunk: seq<byte>, more: seq<seq<byte>>,
    rest: seq<byte>)
    requires Reassembled(legacy, pieces, held)
    requires Concat(more) + rest == held + chunk && |Concat(more)| == TextPrefix(held + chunk)
    ensures Reassembled(legacy + [chunk], pieces + more, rest)
  {
    hide FromUtf8, TextPrefix;
    PushOneMore(legacy, pieces, held, chunk);
    HandedOut(pieces, more, held + chunk, rest);
  }

  lemma {:induction false} NothingReassembled()
    ensures Reassembled([], [], [])
  {
  }

  lemma {:induction false} EmptyChunk(legacy: seq<seq<byte>>, pieces: seq<seq<byte>>, held: seq<byte>)
    requires Reassembled(legacy, pieces, held)
    ensures Reassembled(legacy + [[]], pieces, held)
  {
    ConcatSnoc(legacy, []);
    assert Concat(legacy) + [] == Concat(legacy);
  }

  lemma {:induction false} EndOfRun(legacy: seq<seq<byte>>, pieces: seq<seq<byte>>, held: seq<byte>)
    requires Reassembled(legacy, pieces, held) && (held == [] || HeadOf(held) == Incomplete)
    ensures WellFormed(Concat(legacy)) <==> held == []
    ensures held == [] ==> Concat(pieces) == Concat(legacy)
  {
    hide HeadOf, WellFormed;
    ScanFromText(Concat(pieces), held);
    ScanAcceptsExactlyText(Concat(legacy));
    assert Concat(pieces) + [] == Concat(pieces);
  }

  ghost predicate AllNonEmpty(texts: seq<seq<byte>>) {
    forall i :: 0 <= i < |texts| ==> texts[i] != []
  }

  // ---- What streaming shows --------------------------------------------------------------

  /**
   The texts shown so far, those of them that were put together from chunks that are not frames, the bytes held back,
   and whether a malformed sequence has ended the stream.
   */
  datatype Shown = Shown(texts: seq<seq<byte>>, pieces: seq<seq<byte>>, held: seq<byte>, stopped: bool)

  /**
   A frame chunk is shown as it is, past anything held back. Of any other chunk and the bytes held back, the part that
   is already text is shown and the rest held back, unless a malformed sequence follows it.
   */
  function ShowChunk(frameOf: FrameReader, s: Shown, chunk: seq<byte>): Shown {
    if s.stopped || chunk == [] then s
    else if IsFrameChunk(frameOf, chunk) then s.(texts := s.texts + [chunk])
    else
      var all := s.held + chunk;
      if FromUtf8(all).Invalid? && FromUtf8(all).errorLen.Some? then s.(stopped := true)
      else
        var n := TextPrefix(all);
        var piece := if n == 0 then [] else [all[..n]];
        Shown(s.texts + piece, s.pieces + piece, all[n..], false)
  }

  function Show(frameOf: FrameReader, chunks: seq<seq<byte>>): Shown {
    if chunks == [] then Shown([], [], [], false)
    else ShowChunk(frameOf, Show(frameOf, chunks[..|chunks| - 1]), chunks[|chunks| - 1])
  }

  lemma {:induction false} ShowOneMore(frameOf: FrameReader, chunks: seq<seq<byte>>, k: nat)
    requires k < |chunks|
    ensures Show(frameOf, chunks[..0]) == Shown([], [], [], false)
    ensures Show(frameOf, chunks[..k + 1]) == ShowChunk(frameOf, Show(frameOf, chunks[..k]), chunks[k])
  {
    hide ShowChunk;
    assert chunks[..k + 1][..k] == chunks[..k];
  }

  lemma {:induction false} StaysStopped(frameOf: FrameReader, chunks: seq<seq<byte>>, k: nat)
    requires k <= |chunks| && Show(frameOf, chunks[..k]).stopped
    ensures Show(frameOf, chunks) == Show(frameOf, chunks[..k])
    decreases |chunks|
  {
    if k < |chunks| {
      var n := |chunks| - 1;
      assert chunks[..n][..k] == chunks[..k];
      StaysStopped(frameOf, chunks[..n], k);
    } else {
      assert chunks[..k] == chunks;
    }
  }

  /** What has been put together, or that the legacy chunks contain a malformed sequence. */
  ghost predicate Accounts(legacy: seq<seq<byte>>, s: Shown) {
    if s.stopped then FromUtf8(Concat(legacy)).Invalid? && FromUtf8(Concat(legacy)).errorLen.Some?
    else Reassembled(legacy, s.pieces, s.held) && (s.held == [] || HeadOf(s.held) == Incomplete)
  }

  lemma {:induction false} AccountsPushed(frameOf: FrameReader, legacy: seq<seq<byte>>, s: Shown, chunk: seq<byte>)
    requires Accounts(legacy, s) && !s.stopped && chunk != [] && !IsFrameChunk(frameOf, chunk)
    ensures Accounts(legacy + [chunk], ShowChunk(frameOf, s, chunk))
  {
    hide FromUtf8, HeadOf, Reassembled, IsFrameChunk, WellFormed, CutOff, TextPrefix, Concat, Shift;
    var all := s.held + chunk;
    PushOneMore(legacy, s.pieces, s.held, chunk);
    if FromUtf8(all).Invalid? && FromUtf8(all).errorLen.Some? {
      ShiftKeepsError(|Concat(s.pieces)|, FromUtf8(all));
    } else {
      var n := TextPrefix(all);
      var piece := if n == 0 then [] else [all[..n]];
      PushSplits(all);
      OnePiece(all, n);
      HandedOutOneMore(legacy, s.pieces, s.held, chunk, piece, all[n..]);
      HeldIsIncomplete(all);
    }
  }

  lemma {:induction false} HeldIsIncomplete(all: seq<byte>)
    requires !(FromUtf8(all).Invalid? && FromUtf8(all).errorLen.Some?)
    ensures all[TextPrefix(all)..] == [] || HeadOf(all[TextPrefix(all)..]) == Incomplete
  {
    hide FromUtf8, HeadOf;
    TextPrefixSplits(all);
  }

  lemma {:induction false} OnePiece(all: seq<byte>, n: nat)
    requires n <= |all|
    ensures Concat(if n == 0 then [] else [all[..n]]) == all[..n]
    ensures Concat(if n == 0 then [] else [all[..n]]) + all[n..] == all
  {
    assert Concat([all[..n]]) == all[..n] + Concat([]);
  }

  lemma {:induction false} MalformedStays(legacy: seq<seq<byte>>, s: Shown, chunk: seq<byte>)
    requires Accounts(legacy, s) && s.stopped
    ensures Accounts(legacy + [chunk], s)
  {
    hide FromUtf8, Concat;
    ConcatSnoc(legacy, chunk);
    MalformedForever(Concat(legacy), chunk);
  }

  lemma {:induction false} ShowAccounts(frameOf: FrameReader, chunks: seq<seq<byte>>)
    requires frameOf([]).None?
    ensures Accounts(Legacy(frameOf, chunks), Show(frameOf, chunks))
  {
    if chunks == [] {
      NothingReassembled();
    } else {
      var k := |chunks| - 1;
      ShowAccounts(frameOf, chunks[..k]);
      var legacy, s, chunk := Legacy(frameOf, chunks[..k]), Show(frameOf, chunks[..k]), chunks[k];
      assert legacy + [] == legacy;
      if !IsFrameChunk(frameOf, chunk) {
        if s.stopped {
          hide FromUtf8, Reassembled, HeadOf, Accounts;
          MalformedStays(legacy, s, chunk);
        } else if chunk == [] {
          hide FromUtf8, HeadOf, Reassembled;
          EmptyChunk(legacy, s.pieces, s.held);
        } else {
          hide FromUtf8, Reassembled, HeadOf, Accounts;
          AccountsPushed(frameOf, legacy, s, chunk);
        }
      }
    }
  }

  /** The stream gets through exactly when the chunks that are not frames make up well-formed text. */
  lemma {:induction false} ShowGetsThrough(frameOf: FrameReader, chunks: seq<seq<byte>>)
    requires frameOf([]).None?
    ensures var s := Show(frameOf, chunks);
            && (!s.stopped && s.held == [] <==> WellFormed(Concat(Legacy(frameOf, chunks))))
            && (!s.stopped ==> Concat(s.pieces) + s.held == Concat(Legacy(frameOf, chunks)))
  {
    hide FromUtf8, HeadOf, WellFormed, Legacy, Show;
    ShowAccounts(frameOf, chunks);
    var s, legacy := Show(frameOf, chunks), Legacy(frameOf, chunks);
    if s.stopped {
      ScanAcceptsExactlyText(Concat(legacy));
    } else {
      EndOfRun(legacy, s.pieces, s.held);
    }
  }

  /** Everything shown is text. */
  lemma {:induction false} ShowsTexts(frameOf: FrameReader, chunks: seq<seq<byte>>)
    ensures AllText(Show(frameOf, chunks).texts) && AllNonEmpty(Show(frameOf, chunks).texts)
  {
    if chunks == [] {
      NoTexts();
    } else {
      var k := |chunks| - 1;
      ShowsTexts(frameOf, chunks[..k]);
      var s, chunk := Show(frameOf, chunks[..k]), chunks[k];
      hide FromUtf8, AllText, AllNonEmpty, Show, TextPrefix;
      if IsFrameChunk(frameOf, chunk) && chunk != [] {
        OneTextMore(s.texts, chunk);
      }
      var all := s.held + chunk;
      TextPrefixSplits(all);
      if TextPrefix(all) > 0 {
        OneTextMore(s.texts, all[..TextPrefix(all)]);
      }
      assert s.texts + [] == s.texts;
      ShowUnfolds(frameOf, chunks);
    }
  }

  lemma {:induction false} ShowUnfolds(frameOf: FrameReader, chunks: seq<seq<byte>>)
    requires chunks != []
    ensures Show(frameOf, chunks) == ShowChunk(frameOf, Show(frameOf, chunks[..|chunks| - 1]), chunks[|chunks| - 1])
  {
    hide ShowChunk;
  }

  /** Chunks that are text by themselves are shown as they are. */
  lemma {:induction false} ShowsWholeChunks(frameOf: FrameReader, chunks: seq<seq<byte>>)
    requires AllText(chunks)
    ensures var s := Show(frameOf, chunks); !s.stopped && s.held == [] && s.texts == NonEmpty(chunks)
  {
    hide FromUtf8, IsFrameChunk;
    if chunks != [] {
      var k := |chunks| - 1;
      ShowsWholeChunks(frameOf, chunks[..k]);
      assert [] + chunks[k] == chunks[k];
      assert chunks[k][..|chunks[k]|] == chunks[k] && chunks[k][|chunks[k]|..] == [];
      assert NonEmpty(chunks[..k]) + [] == NonEmpty(chunks[..k]);
    }
  }

  /** None of the texts that streaming shows reads as a frame. */
  ghost predicate ShowsNoFrame(frameOf: FrameReader, chunks: seq<seq<byte>>) {
    var texts := Show(frameOf, chunks).texts;
    forall i :: 0 <= i < |texts| ==> frameOf(texts[i]).None?
  }

  /** If none does, what is shown and what is held back are all of the plaintext. */
  lemma {:induction false} ShowsThePlaintext(frameOf: FrameReader, chunks: seq<seq<byte>>)
    requires frameOf([]).None? && ShowsNoFrame(frameOf, chunks) && !Show(frameOf, chunks).stopped
    ensures var s := Show(frameOf, chunks); Concat(s.texts) + s.held == Concat(chunks)
  {
    NoFrameNoFrameChunk(frameOf, chunks);
    hide Show, ShowsNoFrame, Legacy;
    ShowGetsThrough(frameOf, chunks);
  }

  lemma {:induction false} NoFrameNoFrameChunk(frameOf: FrameReader, chunks: seq<seq<byte>>)
    requires frameOf([]).None? && ShowsNoFrame(frameOf, chunks) && !Show(frameOf, chunks).stopped
    ensures Show(frameOf, chunks).texts == Show(frameOf, chunks).pieces && Legacy(frameOf, chunks) == chunks
  {
    hide FromUtf8, TextPrefix;
    if chunks != [] {
      var k := |chunks| - 1;
      var before, after := Show(frameOf, chunks[..k]).texts, Show(frameOf, chunks).texts;
      assert |before| <= |after| && forall i :: 0 <= i < |before| ==> before[i] == after[i];
      NoFrameNoFrameChunk(frameOf, chunks[..k]);
      assert (before + [chunks[k]])[|before|] == chunks[k];
      assert chunks == chunks[..k] + [chunks[k]];
    }
  }

  // ---- The streaming run -----------------------------------------------------------------

  /** A push hands out the text prefix as one piece, if it is not empty. */
  lemma {:induction false} PushedPiece(all: seq<byte>, pieces: seq<seq<byte>>, rest: seq<byte>)
    requires Concat(pieces) + rest == all && |Concat(pieces)| == TextPrefix(all)
    requires |pieces| <= 1 && forall i :: 0 <= i < |pieces| ==> pieces[i] != []
    ensures rest == all[TextPrefix(all)..]
    ensures pieces == if TextPrefix(all) == 0 then [] else [all[..TextPrefix(all)]]
  {
    hide TextPrefix;
    assert Concat(pieces) == all[..TextPrefix(all)];
    if pieces != [] {
      assert pieces[1..] == [] && Concat(pieces) == pieces[0] + Concat(pieces[1..]);
      assert Concat(pieces) == pieces[0] && pieces == [pieces[0]];
    }
  }

  /**
   Succeeds exactly when the chunks that are not frames make up well-formed text, wherever it was cut. The client is
   sent exactly what `Show` says, as relayed frames, and the end of the stream only on success.
   */
  method StreamPlain(tag: Tag, frameOf: FrameReader, chunks: seq<seq<byte>>)
    returns (r: Result<(), PlainError>, sent: seq<Json>)
    requires frameOf([]).None?
    ensures r.Ok? <==> WellFormed(Concat(Legacy(frameOf, chunks)))
    ensures r.Err? ==> r.error == if Show(frameOf, chunks).stopped then InvalidUtf8 else InvalidUtf8Tail
    ensures var items := Items(frameOf, Show(frameOf, chunks).texts);
            sent == if r.Ok? then RelayedStream(tag, items) else RelayFrames(tag, items)
  {
    hide FromUtf8, Shows, Legacy, Items, AllText, AllNonEmpty, HeadOf, TextPrefix, WellFormed, ItemOf, CutOff, Concat,
         Show, RelayFrames, RelayedStream;
    var acc := new Utf8PlainAccumulator();
    var out := new SseOut();
    ghost var texts: seq<seq<byte>> := [];
    ShowGetsThrough(frameOf, chunks);
    ShowsNothing(tag, frameOf);
    NoTexts();
    assert chunks[..0] == [] && Show(frameOf, []) == Shown([], [], [], false) by {
      ShowsNothingYet(frameOf);
    }
    for k := 0 to |chunks|
      invariant fresh(acc) && fresh(out) && acc.Valid()
      invariant Shows(out.chunks, out.sawFinish, tag, frameOf, texts) && AllText(texts) && AllNonEmpty(texts)
      invariant var s := Show(frameOf, chunks[..k]); !s.stopped && s.texts == texts && s.held == acc.pending
    {
      ShowOneMore(frameOf, chunks, k);
      ghost var held, shown := acc.pending, texts;
      if chunks[k] != [] {
        if FromUtf8(chunks[k]).Valid? && frameOf(chunks[k]).Some? {
          EmitText(out, tag, frameOf, chunks[k], texts);
          OneTextMore(texts, chunks[k]);
          texts := texts + [chunks[k]];
        } else {
          var got := acc.Push(chunks[k]);
          if got.Err? {
            StaysStopped(frameOf, chunks, k + 1);
            ShownFrames(out.chunks, out.sawFinish, tag, frameOf, texts);
            return Err(got.error), out.chunks;
          }
          PushedPiece(held + chunks[k], got.value, acc.pending);
          texts := EmitPieces(out, tag, frameOf, got.value, shown);
        }
      }
    }
    assert chunks[..|chunks|] == chunks;
    ShownFrames(out.chunks, out.sawFinish, tag, frameOf, texts);
    var tail := acc.Finish();
    if tail.Err? {
      return Err(tail.error), out.chunks;
    }
    ghost var shown := out.chunks;
    out.EndStream(tag);
    ShownStream(shown, out.sawFinish, tag, frameOf, texts);
    return Ok(()), out.chunks;
  }

  lemma {:induction false} ShowsNothingYet(frameOf: FrameReader)
    ensures Show(frameOf, []) == Shown([], [], [], false)
  {
  }

  /** Sends the reassembled pieces one by one. */
  method EmitPieces(out: SseOut, tag: Tag, frameOf: FrameReader, pieces: seq<seq<byte>>, ghost shown: seq<seq<byte>>)
    returns (ghost texts: seq<seq<byte>>)
    requires Shows(out.chunks, out.sawFinish, tag, frameOf, shown) && AllText(shown) && AllNonEmpty(shown)
    requires forall i :: 0 <= i < |pieces| ==> pieces[i] != [] && WellFormed(pieces[i])
    modifies out
    ensures texts == shown + pieces && AllText(texts) && AllNonEmpty(texts)
    ensures Shows(out.chunks, out.sawFinish, tag, frameOf, texts)
  {
    hide FromUtf8, Shows, AllText, AllNonEmpty, WellFormed;
    texts := shown;
    for j := 0 to |pieces|
      invariant texts == shown + pieces[..j] && AllText(texts) && AllNonEmpty(texts)
      invariant Shows(out.chunks, out.sawFinish, tag, frameOf, texts)
    {
      ScanAcceptsExactlyText(pieces[j]);
      EmitText(out, tag, frameOf, pieces[j], texts);
      OneTextMore(texts, pieces[j]);
      texts := texts + [pieces[j]];
      assert pieces[..j + 1] == pieces[..j] + [pieces[j]];
    }
  }

  lemma {:induction false} NoTexts()
    ensures AllText([]) && AllNonEmpty([])
  {
  }

  lemma {:induction false} OneTextMore(texts: seq<seq<byte>>, text: seq<byte>)
    requires AllText(texts) && AllNonEmpty(texts) && FromUtf8(text) == Valid && text != []
    ensures AllText(texts + [text]) && AllNonEmpty(texts + [text])
  {
    hide FromUtf8;
  }

  lemma {:induction false} ShiftKeepsError(n: nat, v: Validation)
    ensures v.Invalid? ==> Shift(n, v).Invalid? && Shift(n, v).errorLen == v.errorLen
  {
  }

  lemma {:induction false} ShownFrames(
    shown: seq<Json>, sawFinish: bool, tag: Tag, frameOf: FrameReader, texts: seq<seq<byte>>)
    requires Shows(shown, sawFinish, tag, frameOf, texts)
    ensures shown == RelayFrames(tag, Items(frameOf, texts))
  {
    hide Items, RelayFrames, CarriesFinish;
  }

  lemma {:induction false} ShownStream(
    shown: seq<Json>, sawFinish: bool, tag: Tag, frameOf: FrameReader, texts: seq<seq<byte>>)
    requires Shows(shown, sawFinish, tag, frameOf, texts)
    ensures shown + (if sawFinish then [] else [StopChunk(tag)]) == RelayedStream(tag, Items(frameOf, texts))
  {
    hide Items, RelayFrames, CarriesFinish, StopChunk;
    StreamIs(tag, Items(frameOf, texts), shown + (if sawFinish then [] else [StopChunk(tag)]));
  }

  // ---- The two ways compared -------------------------------------------------------------

  /** The chunk is a frame that carries two reasoning texts. */
  predicate DropsReasoningChunk(frameOf: FrameReader, chunk: seq<byte>) {
    chunk != [] && frameOf(chunk).Some? && DropsReasoning(frameOf(chunk).value)
  }

  lemma {:induction false} DropsInItems(frameOf: FrameReader, chunks: seq<seq<byte>>)
    ensures (exists i :: 0 <= i < |Items(frameOf, chunks)| && DropsReasoning(Items(frameOf, chunks)[i])) <==>
            (exists i :: 0 <= i < |chunks| && DropsReasoningChunk(frameOf, chunks[i]))
  {
    hide DropsReasoning, ItemOf, DropsReasoningChunk;
    if chunks != [] {
      var k := |chunks| - 1;
      var before, items := Items(frameOf, chunks[..k]), Items(frameOf, chunks);
      DropsInItems(frameOf, chunks[..k]);
      ItemDrops(frameOf, chunks[k]);
      assert forall i :: 0 <= i < |before| ==> items[i] == before[i];
      assert forall i :: 0 <= i < k ==> chunks[..k][i] == chunks[i];
      assert chunks[k] != [] ==> items[|before|] == ItemOf(frameOf, chunks[k]);
    }
  }

  lemma {:induction false} ItemDrops(frameOf: FrameReader, chunk: seq<byte>)
    ensures chunk != [] ==> (DropsReasoning(ItemOf(frameOf, chunk)) <==> DropsReasoningChunk(frameOf, chunk))
    ensures chunk == [] ==> !DropsReasoningChunk(frameOf, chunk)
  {
    hide DropsReasoning, TextOf, ApplyFrame, RelayFrame;
    ContentFrameMeans(NOTHING, Tag("", ""), TextOf(chunk));
  }

  /**
   Both ways for the same plaintext. Buffering succeeds exactly when every chunk is text by itself, and then streaming
   does too; the client sees the same tool calls always, the same content exactly when no frame chunk carries two
   reasoning texts, and the same finish reason exactly under the condition for relayed frames. Streaming alone
   succeeds when characters are cut between chunks, and unless something shown reads as a frame, the client then has
   the characters of the whole plaintext.
   */
  method BothWays(tag: Tag, frameOf: FrameReader, chunks: seq<seq<byte>>)
    returns (streamed: Result<(), PlainError>, sent: seq<Json>, buffered: Result<Aggregate, PlainError>)
    requires frameOf([]).None?
    ensures buffered.Ok? <==> AllText(chunks)
    ensures streamed.Ok? <==> WellFormed(Concat(Legacy(frameOf, chunks)))
    ensures buffered.Ok? ==> streamed.Ok?
    ensures buffered.Ok? ==>
              var client := ApplyFrames(NOTHING, sent);
              && client.toolCalls == buffered.value.toolCalls
              && (client.content == buffered.value.content <==>
                  !exists i :: 0 <= i < |chunks| && DropsReasoningChunk(frameOf, chunks[i]))
              && (FinishReason(client) == FinishReason(buffered.value) <==> FinishesAlike(Items(frameOf, chunks)))
    ensures streamed.Ok? && ShowsNoFrame(frameOf, chunks) ==>
              var content := ApplyFrames(NOTHING, sent).content;
              && content == TextOf(Concat(chunks))
              && AllScalars(Scalars(content)) && EncodeText(Scalars(content)) == Concat(chunks)
  {
    hide FromUtf8, Legacy, NonEmpty, Items, AllText, WellFormed, DropsReasoning, DropsReasoningChunk, ApplyFrames,
         FinishesAlike, RelayedStream, FinishReason, Concat, AllNonEmpty, Show, TextOf, CarriesFinish, CallsTools;
    streamed, sent := StreamPlain(tag, frameOf, chunks);
    buffered := BufferPlain(frameOf, chunks);
    ShowGetsThrough(frameOf, chunks);
    if buffered.Ok? {
      ShowsWholeChunks(frameOf, chunks);
      NonEmptySays(frameOf, chunks);
      StreamTells(tag, Items(frameOf, chunks));
      DropsInItems(frameOf, chunks);
    }
    if streamed.Ok? && ShowsNoFrame(frameOf, chunks) {
      ghost var texts := Show(frameOf, chunks).texts;
      hide AllScalars, EncodeText, Scalars;
      ShowsThePlaintext(frameOf, chunks);
      assert Concat(texts) + [] == Concat(texts);
      ShowsTexts(frameOf, chunks);
      ContentOfTexts(frameOf, texts);
      StreamTells(tag, Items(frameOf, texts));
      TextEncodesBack(Concat(chunks));
    }
  }

  // ---- Plain text without frames ---------------------------------------------------------

  lemma {:induction false} ContentOfTexts(frameOf: FrameReader, texts: seq<seq<byte>>)
    requires AllText(texts) && AllNonEmpty(texts) && forall i :: 0 <= i < |texts| ==> frameOf(texts[i]).None?
    ensures ApplyFrames(NOTHING, Items(frameOf, texts)) == Aggregate(TextOf(Concat(texts)), [], None)
    ensures FromUtf8(Concat(texts)) == Valid
    ensures forall i :: 0 <= i < |Items(frameOf, texts)| ==>
              var item := Items(frameOf, texts)[i];
              !CarriesFinish(item) && !CallsTools(item) && !DropsReasoning(item)
  {
    hide FromUtf8, TextOf, CarriesFinish, CallsTools, DropsReasoning, ApplyFrame, FrameOf, ApplyFrames;
    if texts == [] {
      NothingReassembled();
      NoText();
    } else {
      var k := |texts| - 1;
      ContentOfTexts(frameOf, texts[..k]);
      var before := ApplyFrames(NOTHING, Items(frameOf, texts[..k]));
      assert texts == texts[..k] + [texts[k]];
      ConcatSnoc(texts[..k], texts[k]);
      TextOfAppend(Concat(texts[..k]), texts[k]);
      ScanFromText(Concat(texts[..k]), texts[k]);
      ApplyFramesAppend(NOTHING, Items(frameOf, texts[..k]), [ItemOf(frameOf, texts[k])]);
      OneFrame(before, ItemOf(frameOf, texts[k]));
      ContentFrameMeans(before, Tag("", ""), TextOf(texts[k]));
    }
  }

  lemma {:induction false} NoText()
    ensures TextOf(Concat([])) == "" && ApplyFrames(NOTHING, []) == NOTHING
  {
  }

  /** A text cut inside its first character, into halves that are not text: streaming shows it whole. */
  lemma {:induction false} CutTextIsShownWhole(frameOf: FrameReader, a: seq<byte>, b: seq<byte>)
    requires a != [] && b != [] && FromUtf8(a) == Invalid(0, None) && FromUtf8(b) != Valid && FromUtf8(a + b) == Valid
    ensures Legacy(frameOf, [a, b]) == [a, b] && Concat([a, b]) == a + b && !AllText([a, b])
    ensures Show(frameOf, [a, b]) == Shown([a + b], [a + b], [], false)
  {
    hide FromUtf8;
    var chunks := [a, b];
    assert chunks[..1] == [a] && [a][..0] == [] && chunks[1..] == [b] && [b][1..] == [];
    assert Legacy(frameOf, [a]) == [a];
    assert Concat([b]) == b;
    assert [] + a == a && a[0..] == a;
    assert Show(frameOf, []) == Shown([], [], [], false);
    assert Show(frameOf, [a]) == Shown([], [], a, false);
    assert (a + b)[..|a + b|] == a + b && (a + b)[|a + b|..] == [];
    assert FromUtf8(chunks[0]) != Valid;
  }

  /**
   A character cut between two chunks, whatever reads as a frame: streaming shows it whole, buffering fails. Neither
   half is text, so neither can be a frame.
   */
  lemma {:induction false} CutCharacterOnlyStreams(frameOf: FrameReader)
    ensures var chunks := [[0xC3], [0xA9]];
            && WellFormed(Concat(Legacy(frameOf, chunks))) && !AllText(chunks)
            && Show(frameOf, chunks) == Shown([[0xC3, 0xA9]], [[0xC3, 0xA9]], [], false)
            && TextOf([0xC3, 0xA9]) == [0xE9 as char]
  {
    HalvesOfACharacter();
    hide FromUtf8, TextOf, WellFormed, Legacy, Show, AllText, Concat;
    assert [0xC3] + [0xA9] == [0xC3, 0xA9];
    CutTextIsShownWhole(frameOf, [0xC3], [0xA9]);
    ScanAcceptsExactlyText([0xC3, 0xA9]);
  }

  lemma {:induction false} HalvesOfACharacter()
    ensures FromUtf8([0xC3]) == Invalid(0, None) && FromUtf8([0xA9]).Invalid? && FromUtf8([0xC3, 0xA9]) == Valid
    ensures TextOf([0xC3, 0xA9]) == [0xE9 as char]
  {
    assert HeadOf([0xC3, 0xA9]) == Char(2) && [0xC3, 0xA9][2..] == [];
    assert DecodeHead([0xC3, 0xA9]) == 0xE9;
  }
}
