/** JSON values as the program's JSON library presents them; numbers that are not integers are opaque. */
module Json {
  import opened Prelude

  datatype Json =
    | Null
    | Bool(b: bool)
    | Int(n: int)
    | Float(text: string)
    | Str(s: string)
    | Arr(items: seq<Json>)
    | Obj(fields: map<string, Json>)

  const U64_LIMIT := 0x1_0000_0000_0000_0000

  function Get(v: Json, key: string): Option<Json> {
    if v.Obj? && key in v.fields then Some(v.fields[key]) else None
  }

  function AsStr(v: Option<Json>): Option<string> {
    if v.Some? && v.value.Str? then Some(v.value.s) else None
  }

  function AsArray(v: Option<Json>): Option<seq<Json>> {
    if v.Some? && v.value.Arr? then Some(v.value.items) else None
  }

  function AsU64(v: Option<Json>): Option<nat> {
    if v.Some? && v.value.Int? && 0 <= v.value.n < U64_LIMIT then Some(v.value.n) else None
  }

  /** A present value that is not null. */
  function NotNull(v: Option<Json>): Option<Json> {
    if v.Some? && !v.value.Null? then v else None
  }

  const EMPTY := Obj(map[])

  // ---- Looking things up by path ---------------------------------------------------------

  datatype Step = Key(name: string) | Index(n: nat)

  /** The value at the end of a path, if every step of it is there. */
  function Look(v: Json, path: seq<Step>): Option<Json>
    decreases |path|
  {
    if path == [] then Some(v)
    else
      match path[0]
      case Key(k) => if v.Obj? && k in v.fields then Look(v.fields[k], path[1..]) else None
      case Index(n) => if v.Arr? && n < |v.items| then Look(v.items[n], path[1..]) else None
  }

  /** The text at the end of a path; nothing there, or something else, counts as no text. */
  function TextAt(v: Json, path: seq<Step>): string {
    match Look(v, path)
    case Some(Str(t)) => t
    case _ => ""
  }

  lemma {:induction false} LookOn(v: Json, step: Step, rest: seq<Step>)
    ensures Look(v, []) == Some(v)
    ensures Look(v, [step] + rest) ==
            match step
            case Key(k) => if v.Obj? && k in v.fields then Look(v.fields[k], rest) else None
            case Index(n) => if v.Arr? && n < |v.items| then Look(v.items[n], rest) else None
  {
    assert ([step] + rest)[1..] == rest;
  }

  /** Looking along a path in two parts. */
  lemma {:induction false} LookFurther(v: Json, path: seq<Step>, more: seq<Step>)
    ensures Look(v, path + more) == if Look(v, path).Some? then Look(Look(v, path).value, more) else None
    decreases |path|
  {
    if path == [] {
      assert path + more == more;
    } else {
      assert (path + more)[1..] == path[1..] + more;
      match path[0] {
        case Key(k) =>
          if v.Obj? && k in v.fields {
            LookFurther(v.fields[k], path[1..], more);
          }
        case Index(n) =>
          if v.Arr? && n < |v.items| {
            LookFurther(v.items[n], path[1..], more);
          }
      }
    }
  }

  lemma {:induction false} LookOne(v: Json, k: string)
    ensures Look(v, [Key(k)]) == Get(v, k)
  {
    LookOn(v, Key(k), []);
    assert [Key(k)] + [] == [Key(k)];
    if Get(v, k).Some? {
      LookOn(v.fields[k], Key(k), []);
    }
  }

  lemma {:induction false} LookTwo(v: Json, k: string, l: string)
    ensures Look(v, [Key(k), Key(l)]) == if Get(v, k).Some? then Get(Get(v, k).value, l) else None
  {
    LookOn(v, Key(k), [Key(l)]);
    assert [Key(k)] + [Key(l)] == [Key(k), Key(l)];
    if Get(v, k).Some? {
      LookOne(v.fields[k], l);
    }
  }
}

/**
 OpenAI chat deltas: folding frames into one completion, relaying frames as stream chunks, and
 replaying a folded completion as stream chunks. Chunks are JSON values; writing them as text and
 reading them back is the JSON library's business.
 */
module Deltas {
  import opened Prelude
  import opened Json

  // ---- Tool calls ------------------------------------------------------------------------

  /** The slot a tool-call delta goes to: its index, or one past the end. */
  function SlotIndex(d: Json, len: nat): nat {
    var i := AsU64(Get(d, "index"));
    if i.Some? then i.value else len
  }

  function PadTo(slots: seq<Json>, n: nat): (r: seq<Json>)
    ensures |r| == if |slots| < n then n else |slots|
    ensures forall i :: 0 <= i < |slots| ==> r[i] == slots[i]
    ensures forall i :: |slots| <= i < |r| ==> r[i] == EMPTY
    decreases n - |slots|
  {
    if |slots| < n then PadTo(slots + [EMPTY], n) else slots
  }

  function ArgsOf(func: Json): string {
    var a := AsStr(Get(func, "arguments"));
    if a.Some? then a.value else ""
  }

  /** The text a delta adds to its slot's arguments, if it has any. */
  function Fragment(d: Json): Option<string> {
    match Get(d, "function")
    case Some(Obj(f)) => AsStr(Get(Obj(f), "arguments"))
    case _ => None
  }

  function NewName(d: Json): Option<string> {
    match Get(d, "function")
    case Some(Obj(f)) =>
      var n := AsStr(Get(Obj(f), "name"));
      if n.Some? && n.value != "" then n else None
    case _ => None
  }

  function MergeFunction(func: map<string, Json>, d: Json): map<string, Json> {
    var named := if NewName(d).Some? then func["name" := Str(NewName(d).value)] else func;
    var argued :=
      if Fragment(d).Some? then named["arguments" := Str(ArgsOf(Obj(named)) + Fragment(d).value)] else named;
    var withName := if "name" in argued then argued else argued["name" := Str("")];
    if "arguments" in withName then withName else withName["arguments" := Str("")]
  }

  function FunctionOf(slot: Json): map<string, Json> {
    match Get(slot, "function")
    case Some(Obj(f)) => f
    case _ => map[]
  }

  function MergeSlot(slot: map<string, Json>, d: Json): map<string, Json> {
    var id := NotNull(Get(d, "id"));
    var withId := if id.Some? then slot["id" := id.value] else slot;
    var ty := NotNull(Get(d, "type"));
    var typed := if ty.Some? then withId["type" := ty.value] else withId;
    var withType := if "type" in typed then typed else typed["type" := Str("function")];
    withType["function" := Obj(MergeFunction(FunctionOf(Obj(withType)), d))]
  }

  /** Slots are objects throughout: either untouched fillers or what merging made of them. */
  predicate IsSlot(v: Json) {
    v.Obj? && (v == EMPTY || IsTouched(v.fields))
  }

  predicate IsTouched(slot: map<string, Json>) {
    && slot.Keys <= {"id", "type", "function"}
    && "type" in slot && "function" in slot
    && slot["type"] != Null
    && ("id" in slot ==> slot["id"] != Null)
    && slot["function"].Obj?
    && IsFunction(slot["function"].fields)
  }

  predicate IsFunction(f: map<string, Json>) {
    f.Keys == {"name", "arguments"} && f["name"].Str? && f["arguments"].Str?
  }

  predicate AreSlots(slots: seq<Json>) {
    forall i :: 0 <= i < |slots| ==> IsSlot(slots[i])
  }

  function MergeOne(slots: seq<Json>, d: Json): (r: seq<Json>)
    requires AreSlots(slots)
    ensures AreSlots(r) && |r| >= |slots|
  {
    var i := SlotIndex(d, |slots|);
    var padded := PadTo(slots, i + 1);
    MergeSlotKeepsShape(padded[i].fields, d);
    padded[i := Obj(MergeSlot(padded[i].fields, d))]
  }

  lemma {:induction false} MergeSlotKeepsShape(slot: map<string, Json>, d: Json)
    requires slot == map[] || IsTouched(slot)
    ensures IsTouched(MergeSlot(slot, d))
  {
    MergeFunctionKeepsShape(FunctionOf(Obj(slot)), d);
    hide MergeFunction, IsFunction;
  }

  lemma {:induction false} MergeFunctionKeepsShape(f: map<string, Json>, d: Json)
    requires f == map[] || IsFunction(f)
    ensures IsFunction(MergeFunction(f, d))
  {
    hide Fragment, NewName;
  }

  function MergeAll(slots: seq<Json>, ds: seq<Json>): (r: seq<Json>)
    requires AreSlots(slots)
    ensures AreSlots(r) && |r| >= |slots|
  {
    if ds == [] then slots else MergeOne(MergeAll(slots, ds[..|ds| - 1]), ds[|ds| - 1])
  }

  method MergeToolCallDeltas(slots: seq<Json>, deltas: seq<Json>) returns (into: seq<Json>)
    requires AreSlots(slots)
    ensures into == MergeAll(slots, deltas)
    ensures |into| == CountAfter(|slots|, deltas)
    ensures forall i: nat :: HoldsAfter(SlotAt(into, i), SlotAt(slots, i), Addressed(|slots|, deltas, i))
  {
    hide HoldsAfter, SlotAt, Addressed, CountAfter;
    into := slots;
    for k := 0 to |deltas|
      invariant into == MergeAll(slots, deltas[..k])
    {
      var d := deltas[k];
      assert deltas[..k + 1][..k] == deltas[..k];
      ghost var before := into;
      var idx := SlotIndex(d, |into|);
      while |into| <= idx
        invariant PadTo(into, idx + 1) == PadTo(before, idx + 1)
        invariant AreSlots(into)
      {
        into := into + [EMPTY];
      }
      var slot := into[idx].fields;
      var id := NotNull(Get(d, "id"));
      if id.Some? {
        slot := slot["id" := id.value];
      }
      var ty := NotNull(Get(d, "type"));
      if ty.Some? {
        slot := slot["type" := ty.value];
      }
      if "type" !in slot {
        slot := slot["type" := Str("function")];
      }
      var func := MergeFunction(FunctionOf(Obj(slot)), d);
      slot := slot["function" := Obj(func)];
      into := into[idx := Obj(slot)];
    }
    assert deltas[..|deltas|] == deltas;
    forall i: nat
      ensures HoldsAfter(SlotAt(into, i), SlotAt(slots, i), Addressed(|slots|, deltas, i))
    {
      SlotsHoldWhatWasSaid(slots, deltas, i);
    }
    SlotsHoldWhatWasSaid(slots, deltas, 0);
  }

  // ---- A slot's arguments are its fragments in order -----------------------------------------

  /** How many slots there are after the deltas, starting from `len`. */
  function LenAfter(len: nat, ds: seq<Json>): nat {
    if ds == [] then len
    else
      var l := LenAfter(len, ds[..|ds| - 1]);
      var i := SlotIndex(ds[|ds| - 1], l);
      if i < l then l else i + 1
  }

  /** The fragments addressed to slot `i`, glued in the order they came. */
  function FragmentsFor(len: nat, ds: seq<Json>, i: nat): string {
    if ds == [] then ""
    else
      var init, last := ds[..|ds| - 1], ds[|ds| - 1];
      FragmentsFor(len, init, i)
      + if SlotIndex(last, LenAfter(len, init)) == i && Fragment(last).Some? then Fragment(last).value else ""
  }

  function SlotArguments(slots: seq<Json>, i: nat): string {
    if i < |slots| then ArgsOf(Obj(FunctionOf(slots[i]))) else ""
  }

  lemma {:induction false} SlotCount(slots: seq<Json>, ds: seq<Json>)
    requires AreSlots(slots)
    ensures |MergeAll(slots, ds)| == LenAfter(|slots|, ds)
  {
    if ds != [] {
      SlotCount(slots, ds[..|ds| - 1]);
    }
  }

  lemma {:induction false} MergeSlotArguments(slot: map<string, Json>, d: Json)
    requires slot == map[] || IsTouched(slot)
    ensures ArgsOf(Obj(FunctionOf(Obj(MergeSlot(slot, d))))) ==
            ArgsOf(Obj(FunctionOf(Obj(slot)))) + if Fragment(d).Some? then Fragment(d).value else ""
  {
    hide Fragment, MergeFunction, IsFunction;
    MergeFunctionArguments(FunctionOf(Obj(slot)), d);
  }

  lemma {:induction false} MergeFunctionArguments(f: map<string, Json>, d: Json)
    ensures ArgsOf(Obj(MergeFunction(f, d))) == ArgsOf(Obj(f)) + if Fragment(d).Some? then Fragment(d).value else ""
  {
    hide Fragment, NewName;
  }

  /** Slot by slot, gaps included: old arguments, then the fragments addressed to the slot in order. */
  lemma {:induction false} ArgumentsAreFragmentsInOrder(slots: seq<Json>, ds: seq<Json>, i: nat)
    requires AreSlots(slots)
    ensures SlotArguments(MergeAll(slots, ds), i) == SlotArguments(slots, i) + FragmentsFor(|slots|, ds, i)
  {
    hide MergeOne, SlotArguments, LenAfter, Fragment, SlotIndex;
    if ds != [] {
      var init, last := ds[..|ds| - 1], ds[|ds| - 1];
      ArgumentsAreFragmentsInOrder(slots, init, i);
      SlotCount(slots, init);
      MergeOneArguments(MergeAll(slots, init), last, i);
    }
  }

  lemma {:induction false} MergeOneArguments(slots: seq<Json>, d: Json, i: nat)
    requires AreSlots(slots)
    ensures SlotArguments(MergeOne(slots, d), i) == SlotArguments(slots, i) +
            if SlotIndex(d, |slots|) == i && Fragment(d).Some? then Fragment(d).value else ""
  {
    var k := SlotIndex(d, |slots|);
    var padded := PadTo(slots, k + 1);
    hide SlotIndex, MergeSlot, Fragment;
    assert SlotArguments(padded, i) == SlotArguments(slots, i);
    if i == k {
      MergeSlotArguments(padded[k].fields, d);
    }
  }

  // ---- What a slot holds after any deltas ------------------------------------------------

  /** The slot a delta names, or the next free one. */
  function Target(d: Json, len: nat): nat {
    match Look(d, [Key("index")])
    case Some(Int(n)) => if 0 <= n < 0x1_0000_0000_0000_0000 then n else len
    case _ => len
  }

  /** How many slots there are after the deltas. */
  function CountAfter(len: nat, ds: seq<Json>): nat {
    if ds == [] then len
    else
      var before := CountAfter(len, ds[..|ds| - 1]);
      var i := Target(ds[|ds| - 1], before);
      if i < before then before else i + 1
  }

  /** The deltas for one slot, in order. */
  function Addressed(len: nat, ds: seq<Json>, i: nat): seq<Json> {
    if ds == [] then []
    else
      var init, last := ds[..|ds| - 1], ds[|ds| - 1];
      Addressed(len, init, i) + if Target(last, CountAfter(len, init)) == i then [last] else []
  }

  function IdIn(d: Json): Option<Json> {
    var v := Look(d, [Key("id")]);
    if v == Some(Null) then None else v
  }

  function TypeIn(d: Json): Option<Json> {
    var v := Look(d, [Key("type")]);
    if v == Some(Null) then None else v
  }

  function NameIn(d: Json): Option<Json> {
    var t := TextAt(d, [Key("function"), Key("name")]);
    if t == "" then None else Some(Str(t))
  }

  function ArgumentsIn(d: Json): string {
    TextAt(d, [Key("function"), Key("arguments")])
  }

  /** The last of the deltas that says something, and what it says. */
  function LastIn(ds: seq<Json>, what: Json -> Option<Json>): Option<Json> {
    if ds == [] then None
    else if what(ds[|ds| - 1]).Some? then what(ds[|ds| - 1])
    else LastIn(ds[..|ds| - 1], what)
  }

  function Glued(ds: seq<Json>): string {
    if ds == [] then "" else Glued(ds[..|ds| - 1]) + ArgumentsIn(ds[|ds| - 1])
  }

  /** The first of two that is there. */
  function Else(a: Option<Json>, b: Option<Json>): Option<Json> {
    if a.Some? then a else b
  }

  /**
   What deltas make of a slot: the last identifier, type and non-empty name addressed to it, or else what was there, or
   else nothing, "function" and ""; and the old arguments followed by all fragments.
   */
  ghost predicate HoldsAfter(slot: Json, was: Json, mine: seq<Json>) {
    if mine == [] then slot == was
    else
      && Look(slot, [Key("id")]) == Else(LastIn(mine, IdIn), Look(was, [Key("id")]))
      && Look(slot, [Key("type")]) == Else(LastIn(mine, TypeIn), Else(Look(was, [Key("type")]), Some(Str("function"))))
      && Look(slot, [Key("function"), Key("name")]) ==
         Else(LastIn(mine, NameIn), Some(Str(TextAt(was, [Key("function"), Key("name")]))))
      && Look(slot, [Key("function"), Key("arguments")]) ==
         Some(Str(TextAt(was, [Key("function"), Key("arguments")]) + Glued(mine)))
  }

  lemma {:induction false} TargetIsSlotIndex(d: Json, len: nat)
    ensures Target(d, len) == SlotIndex(d, len)
  {
    LookOne(d, "index");
  }

  lemma {:induction false} DeltaSays(d: Json)
    ensures IdIn(d) == NotNull(Get(d, "id")) && TypeIn(d) == NotNull(Get(d, "type"))
    ensures NameIn(d) == if NewName(d).Some? then Some(Str(NewName(d).value)) else None
    ensures ArgumentsIn(d) == if Fragment(d).Some? then Fragment(d).value else ""
  {
    LookOne(d, "id");
    LookOne(d, "type");
    LookTwo(d, "function", "name");
    LookTwo(d, "function", "arguments");
    hide Look;
  }

  lemma {:induction false} MergedFunctionHolds(f: map<string, Json>, d: Json)
    requires f == map[] || IsFunction(f)
    ensures Get(Obj(MergeFunction(f, d)), "name") ==
            Some(Str(if NewName(d).Some? then NewName(d).value else if "name" in f then f["name"].s else ""))
    ensures Get(Obj(MergeFunction(f, d)), "arguments") ==
            Some(Str(ArgsOf(Obj(f)) + if Fragment(d).Some? then Fragment(d).value else ""))
  {
    MergeFunctionKeepsShape(f, d);
    MergeFunctionArguments(f, d);
    hide NewName, Fragment;
  }

  lemma {:induction false} MergedSlotHolds(slot: map<string, Json>, d: Json)
    requires slot == map[] || IsTouched(slot)
    ensures var after := Obj(MergeSlot(slot, d));
            && Get(after, "id") == Else(NotNull(Get(d, "id")), Get(Obj(slot), "id"))
            && Get(after, "type") == Else(NotNull(Get(d, "type")), Else(Get(Obj(slot), "type"), Some(Str("function"))))
            && Get(after, "function") == Some(Obj(MergeFunction(FunctionOf(Obj(slot)), d)))
  {
    hide MergeFunction, IsFunction;
  }

  /** Merging one delta into a slot, read by path. */
  lemma {:induction false} OneDeltaHolds(slot: map<string, Json>, d: Json)
    requires slot == map[] || IsTouched(slot)
    ensures HoldsAfter(Obj(MergeSlot(slot, d)), Obj(slot), [d])
  {
    var was, after := Obj(slot), Obj(MergeSlot(slot, d));
    MergedSlotHolds(slot, d);
    MergedFunctionHolds(FunctionOf(was), d);
    OldFunction(slot);
    DeltaSays(d);
    LookOne(after, "id");
    LookOne(after, "type");
    LookOne(was, "id");
    LookOne(was, "type");
    LookTwo(after, "function", "name");
    LookTwo(after, "function", "arguments");
    OnlyOne(d);
    hide Look, MergeSlot, MergeFunction, IdIn, TypeIn, NameIn, ArgumentsIn, LastIn, Glued, NewName, Fragment, IsTouched,
         FunctionOf;
  }

  lemma {:induction false} OnlyOne(d: Json)
    ensures LastIn([d], IdIn) == IdIn(d) && LastIn([d], TypeIn) == TypeIn(d) && LastIn([d], NameIn) == NameIn(d)
    ensures Glued([d]) == ArgumentsIn(d)
  {
    hide IdIn, TypeIn, NameIn, ArgumentsIn;
    assert [d][..0] == [];
  }

  lemma {:induction false} OldFunction(slot: map<string, Json>)
    requires slot == map[] || IsTouched(slot)
    ensures var f := FunctionOf(Obj(slot));
            && (f == map[] || IsFunction(f))
            && TextAt(Obj(slot), [Key("function"), Key("name")]) == (if "name" in f then f["name"].s else "")
            && TextAt(Obj(slot), [Key("function"), Key("arguments")]) == ArgsOf(Obj(f))
  {
    LookTwo(Obj(slot), "function", "name");
    LookTwo(Obj(slot), "function", "arguments");
    hide Look;
  }

  lemma {:induction false} LastNameIsText(ds: seq<Json>)
    ensures LastIn(ds, NameIn).Some? ==> LastIn(ds, NameIn).value.Str?
  {
    if ds != [] {
      LastNameIsText(ds[..|ds| - 1]);
    }
  }

  lemma {:induction false} NameOn(was: string, mine: seq<Json>, d: Json)
    ensures var before := Else(LastIn(mine, NameIn), Some(Str(was)));
            && before.value.Str?
            && Else(LastIn(mine + [d], NameIn), Some(Str(was))) == Else(NameIn(d), before)
  {
    LastNameIsText(mine);
    LastInSnoc(mine, d, NameIn);
  }

  lemma {:induction false} HoldsOn(a: Json, b: Json, c: Json, mine: seq<Json>, d: Json)
    requires HoldsAfter(b, a, mine) && HoldsAfter(c, b, [d])
    ensures HoldsAfter(c, a, mine + [d])
  {
    OnlyOne(d);
    LastInSnoc(mine, d, IdIn);
    LastInSnoc(mine, d, TypeIn);
    NameOn(TextAt(a, [Key("function"), Key("name")]), mine, d);
    GluedSnoc(mine, d);
    hide Look, IdIn, TypeIn, NameIn, ArgumentsIn, LastIn, Glued;
    if mine == [] {
      assert mine + [d] == [d];
    } else {
      var was := TextAt(a, [Key("function"), Key("arguments")]);
      assert was + Glued(mine) + ArgumentsIn(d) == was + (Glued(mine) + ArgumentsIn(d));
    }
  }

  lemma {:induction false} LastInSnoc(ds: seq<Json>, d: Json, what: Json -> Option<Json>)
    ensures LastIn(ds + [d], what) == Else(what(d), LastIn(ds, what))
  {
    assert (ds + [d])[..|ds|] == ds;
  }

  lemma {:induction false} GluedSnoc(ds: seq<Json>, d: Json)
    ensures Glued(ds + [d]) == Glued(ds) + ArgumentsIn(d)
  {
    assert (ds + [d])[..|ds|] == ds;
  }

  function SlotAt(slots: seq<Json>, i: nat): Json {
    if i < |slots| then slots[i] else EMPTY
  }

  lemma {:induction false} OneDeltaEverywhere(slots: seq<Json>, d: Json, i: nat)
    requires AreSlots(slots)
    ensures var target := Target(d, |slots|);
            && |MergeOne(slots, d)| == (if target < |slots| then |slots| else target + 1)
            && HoldsAfter(SlotAt(MergeOne(slots, d), i), SlotAt(slots, i), if target == i then [d] else [])
  {
    TargetIsSlotIndex(d, |slots|);
    hide Target, HoldsAfter, MergeSlot, SlotIndex;
    var k := SlotIndex(d, |slots|);
    var padded := PadTo(slots, k + 1);
    assert SlotAt(padded, i) == SlotAt(slots, i);
    if i == k {
      OneDeltaHolds(padded[k].fields, d);
    } else {
      UntouchedHolds(SlotAt(slots, i));
    }
  }

  lemma {:induction false} UntouchedHolds(slot: Json)
    ensures HoldsAfter(slot, slot, [])
  {
  }

  /** Every slot after any deltas, read by path and without reference to how merging is done. */
  lemma {:induction false} SlotsHoldWhatWasSaid(slots: seq<Json>, ds: seq<Json>, i: nat)
    requires AreSlots(slots)
    ensures |MergeAll(slots, ds)| == CountAfter(|slots|, ds)
    ensures HoldsAfter(SlotAt(MergeAll(slots, ds), i), SlotAt(slots, i), Addressed(|slots|, ds, i))
  {
    hide HoldsAfter, MergeOne, SlotAt, Target;
    if ds == [] {
      UntouchedHolds(SlotAt(slots, i));
    } else {
      var init, last := ds[..|ds| - 1], ds[|ds| - 1];
      SlotsHoldWhatWasSaid(slots, init, i);
      var before := MergeAll(slots, init);
      OneDeltaEverywhere(before, last, i);
      var mine := Addressed(|slots|, init, i);
      if Target(last, |before|) == i {
        HoldsOn(SlotAt(slots, i), SlotAt(before, i), SlotAt(MergeAll(slots, ds), i), mine, last);
      } else {
        SameHolds(SlotAt(before, i), SlotAt(MergeAll(slots, ds), i));
        assert mine + [] == mine;
      }
    }
  }

  lemma {:induction false} SameHolds(a: Json, b: Json)
    requires HoldsAfter(b, a, [])
    ensures a == b
  {
  }

  // ---- Folding frames --------------------------------------------------------------------

  datatype Aggregate = Aggregate(content: string, toolCalls: seq<Json>, finish: Option<string>)

  const NOTHING := Aggregate("", [], None)

  function LowerAscii(c: char): char {
    if 'A' <= c <= 'Z' then (c as int + 32) as char else c
  }

  predicate SaysNull(s: string) {
    |s| == 4 && LowerAscii(s[0]) == 'n' && LowerAscii(s[1]) == 'u' && LowerAscii(s[2]) == 'l' && LowerAscii(s[3]) == 'l'
  }

  predicate IsFinish(s: string) {
    s != "" && !SaysNull(s)
  }

  function FirstChoice(frame: Json): Option<Json> {
    var choices := AsArray(Get(frame, "choices"));
    if choices.Some? && choices.value != [] then Some(choices.value[0]) else None
  }

  function DeltaOf(choice: Json): Json {
    var d := Get(choice, "delta");
    if d.Some? then d.value else EMPTY
  }

  function FinishOf(choice: Json): Option<string> {
    var f := AsStr(Get(choice, "finish_reason"));
    if f.Some? && IsFinish(f.value) then f else None
  }

  function Text(delta: Json, key: string): string {
    var t := AsStr(Get(delta, key));
    if t.Some? then t.value else ""
  }

  function ToolCalls(delta: Json): seq<Json> {
    var tcs := AsArray(Get(delta, "tool_calls"));
    if tcs.Some? then tcs.value else []
  }

  /** What every aggregate built from nothing looks like. */
  predicate IsAggregate(agg: Aggregate) {
    AreSlots(agg.toolCalls) && (agg.finish.Some? ==> IsFinish(agg.finish.value))
  }

  function ApplyDelta(agg: Aggregate, delta: Json, finish: Option<string>): (r: Aggregate)
    requires IsAggregate(agg) && (finish.Some? ==> IsFinish(finish.value))
    ensures IsAggregate(r)
  {
    Aggregate(
      agg.content + Text(delta, "content") + Text(delta, "reasoning") + Text(delta, "reasoning_content"),
      MergeAll(agg.toolCalls, ToolCalls(delta)),
      if finish.Some? then finish else agg.finish)
  }

  function ApplyFrame(agg: Aggregate, frame: Json): (r: Aggregate)
    requires IsAggregate(agg)
    ensures IsAggregate(r)
  {
    match FirstChoice(frame)
    case None => agg
    case Some(choice) => ApplyDelta(agg, DeltaOf(choice), FinishOf(choice))
  }

  function ApplyFrames(agg: Aggregate, frames: seq<Json>): (r: Aggregate)
    requires IsAggregate(agg)
    ensures IsAggregate(r)
    decreases |frames|
  {
    if frames == [] then agg else ApplyFrames(ApplyFrame(agg, frames[0]), frames[1..])
  }

  const TEXT_KEYS := ["content", "reasoning", "reasoning_content"]

  method ApplyOpenaiDeltaFrame(agg: Aggregate, frame: Json) returns (r: Aggregate)
    requires IsAggregate(agg)
    ensures r == ApplyFrame(agg, frame)
    ensures r ==
            if Look(frame, CHOICE).None? then agg
            else Aggregate(
              agg.content + DeltaText(frame, "content") + DeltaText(frame, "reasoning")
                + DeltaText(frame, "reasoning_content"),
              MergeAll(agg.toolCalls, DeltasIn(frame)),
              if FinishIn(frame).Some? then FinishIn(frame) else agg.finish)
  {
    hide MergeAll, Look, DeltaText, DeltasIn, FinishIn;
    FrameFolds(agg, frame);
    r := agg;
    var choice := FirstChoice(frame);
    if choice.None? {
      return;
    }
    var delta := DeltaOf(choice.value);
    for k := 0 to 3
      invariant r.toolCalls == agg.toolCalls && r.finish == agg.finish
      invariant r.content == agg.content
                             + (if k > 0 then Text(delta, "content") else "")
                             + (if k > 1 then Text(delta, "reasoning") else "")
                             + (if k > 2 then Text(delta, "reasoning_content") else "")
    {
      var text := AsStr(Get(delta, TEXT_KEYS[k]));
      if text.Some? {
        r := r.(content := r.content + text.value);
      }
    }
    var tcs := AsArray(Get(delta, "tool_calls"));
    if tcs.Some? {
      var merged := MergeToolCallDeltas(r.toolCalls, tcs.value);
      r := r.(toolCalls := merged);
    } else {
      MergeNothing(r.toolCalls);
    }
    var fr := FinishOf(choice.value);
    if fr.Some? {
      r := r.(finish := fr);
    }
  }

  lemma {:induction false} MergeNothing(slots: seq<Json>)
    requires AreSlots(slots)
    ensures MergeAll(slots, []) == slots
  {
  }

  // ---- What a frame says, read by path ---------------------------------------------------

  const CHOICE: seq<Step> := [Key("choices"), Index(0)]

  /** The word null in any case. */
  predicate NullWord(s: string) {
    && |s| == 4
    && (s[0] == 'n' || s[0] == 'N') && (s[1] == 'u' || s[1] == 'U')
    && (s[2] == 'l' || s[2] == 'L') && (s[3] == 'l' || s[3] == 'L')
  }

  /** The finish reason a frame carries: a text that is neither empty nor the word null. */
  function FinishIn(frame: Json): Option<string> {
    var f := TextAt(frame, CHOICE + [Key("finish_reason")]);
    if f == "" || NullWord(f) then None else Some(f)
  }

  function DeltaText(frame: Json, key: string): string {
    TextAt(frame, CHOICE + [Key("delta"), Key(key)])
  }

  function DeltasIn(frame: Json): seq<Json> {
    match Look(frame, CHOICE + [Key("delta"), Key("tool_calls")])
    case Some(Arr(items)) => items
    case _ => []
  }

  lemma {:induction false} ChoiceByPath(frame: Json)
    ensures Look(frame, CHOICE) == FirstChoice(frame)
  {
    LookOn(frame, Key("choices"), [Index(0)]);
    assert [Key("choices")] + [Index(0)] == CHOICE;
    if frame.Obj? && "choices" in frame.fields {
      LookOn(frame.fields["choices"], Index(0), []);
      assert [Index(0)] + [] == [Index(0)];
      if frame.fields["choices"].Arr? && frame.fields["choices"].items != [] {
        LookOn(frame.fields["choices"].items[0], Index(0), []);
      }
    }
  }

  lemma {:induction false} NullWordExactly(s: string)
    ensures SaysNull(s) <==> NullWord(s)
  {
    if |s| == 4 {
      LowerIs(s[0], 'n', 'N');
      LowerIs(s[1], 'u', 'U');
      LowerIs(s[2], 'l', 'L');
      LowerIs(s[3], 'l', 'L');
    }
  }

  lemma {:induction false} LowerIs(c: char, low: char, high: char)
    requires 'a' <= low <= 'z' && high as int + 32 == low as int
    ensures LowerAscii(c) == low <==> c == low || c == high
  {
  }

  lemma {:induction false} FinishByPath(frame: Json)
    requires FirstChoice(frame).Some?
    ensures FinishOf(FirstChoice(frame).value) == FinishIn(frame)
  {
    ChoiceByPath(frame);
    LookFurther(frame, CHOICE, [Key("finish_reason")]);
    LookOne(FirstChoice(frame).value, "finish_reason");
    NullWordExactly(TextAt(frame, CHOICE + [Key("finish_reason")]));
    hide Look, FirstChoice, SaysNull, NullWord;
  }

  lemma {:induction false} DeltaByPath(frame: Json, key: string)
    requires FirstChoice(frame).Some?
    ensures Look(frame, CHOICE + [Key("delta"), Key(key)]) == Get(DeltaOf(FirstChoice(frame).value), key)
  {
    ChoiceByPath(frame);
    LookFurther(frame, CHOICE, [Key("delta"), Key(key)]);
    LookTwo(FirstChoice(frame).value, "delta", key);
    hide Look, FirstChoice;
  }

  /** Folding a frame, read by path: nothing without a first choice, else three texts, tool calls and finish reason. */
  lemma {:induction false} FrameFolds(agg: Aggregate, frame: Json)
    requires IsAggregate(agg)
    ensures ApplyFrame(agg, frame) ==
            if Look(frame, CHOICE).None? then agg
            else Aggregate(
              agg.content + DeltaText(frame, "content") + DeltaText(frame, "reasoning")
                + DeltaText(frame, "reasoning_content"),
              MergeAll(agg.toolCalls, DeltasIn(frame)),
              if FinishIn(frame).Some? then FinishIn(frame) else agg.finish)
  {
    ChoiceByPath(frame);
    if FirstChoice(frame).Some? {
      FinishByPath(frame);
      DeltaByPath(frame, "content");
      DeltaByPath(frame, "reasoning");
      DeltaByPath(frame, "reasoning_content");
      DeltaByPath(frame, "tool_calls");
      hide Look, FirstChoice, FinishIn, FinishOf, DeltaOf, MergeAll;
    }
  }

  // ---- Relaying frames as chunks ---------------------------------------------------------

  datatype Tag = Tag(id: string, model: string)

  function Chunk(tag: Tag, delta: map<string, Json>, finish: Option<string>): Json {
    Obj(map[
      "id" := Str(tag.id), "object" := Str("chat.completion.chunk"),
      "created" := Int(1_700_000_000), "model" := Str(tag.model),
      "choices" := Arr([Obj(map[
        "index" := Int(0), "delta" := Obj(delta),
        "finish_reason" := if finish.Some? then Str(finish.value) else Null])])])
  }

  /** Reasoning is passed on under one name; `reasoning_content` is preferred to `reasoning`. */
  function RelayedReasoning(delta: Json): string {
    if Text(delta, "reasoning_content") != "" then Text(delta, "reasoning_content") else Text(delta, "reasoning")
  }

  function RelayedDelta(delta: Json): map<string, Json> {
    var content := Text(delta, "content");
    var a := if content != "" then map["content" := Str(content)] else map[];
    var b := if RelayedReasoning(delta) != "" then a["reasoning_content" := Str(RelayedReasoning(delta))] else a;
    var tcs := Get(delta, "tool_calls");
    if tcs.Some? then b["tool_calls" := tcs.value] else b
  }

  function StructuredChunk(tag: Tag, delta: Json, finish: Option<string>): Option<Json> {
    if (!delta.Obj? || delta.fields == map[]) && finish.None? then None
    else Some(Chunk(tag, RelayedDelta(delta), finish))
  }

  function RelayFrame(tag: Tag, frame: Json): seq<Json> {
    match FirstChoice(frame)
    case None => []
    case Some(choice) =>
      var c := StructuredChunk(tag, DeltaOf(choice), FinishOf(choice));
      if c.Some? then [c.value] else []
  }

  function RelayFrames(tag: Tag, frames: seq<Json>): seq<Json> {
    if frames == [] then [] else RelayFrame(tag, frames[0]) + RelayFrames(tag, frames[1..])
  }

  predicate CarriesFinish(frame: Json) {
    FirstChoice(frame).Some? && FinishOf(FirstChoice(frame).value).Some?
  }

  function StopChunk(tag: Tag): Json {
    Chunk(tag, map[], Some("stop"))
  }

  method IndexToolCalls(toolCalls: seq<Json>) returns (indexed: seq<Json>)
    requires AreSlots(toolCalls)
    ensures indexed == Indexed(toolCalls)
  {
    indexed := [];
    for i := 0 to |toolCalls|
      invariant indexed == Indexed(toolCalls[..i])
    {
      var d := toolCalls[i].fields["index" := Int(i)];
      assert toolCalls[..i + 1][..i] == toolCalls[..i];
      indexed := indexed + [Obj(d)];
    }
    assert toolCalls[..|toolCalls|] == toolCalls;
  }

  lemma {:induction false} ToolsChunk(tag: Tag, indexed: seq<Json>)
    ensures StructuredChunk(tag, Obj(map["tool_calls" := Arr(indexed)]), None)
         == Some(Chunk(tag, map["tool_calls" := Arr(indexed)], None))
  {
    var delta := Obj(map["tool_calls" := Arr(indexed)]);
    assert RelayedDelta(delta) == map["tool_calls" := Arr(indexed)];
  }

  /** Every field of a chunk. */
  lemma {:induction false} ChunkReads(tag: Tag, delta: map<string, Json>, finish: Option<string>)
    ensures var chunk := Chunk(tag, delta, finish);
            && Look(chunk, [Key("id")]) == Some(Str(tag.id)) && Look(chunk, [Key("model")]) == Some(Str(tag.model))
            && Look(chunk, [Key("object")]) == Some(Str("chat.completion.chunk"))
            && Look(chunk, [Key("created")]) == Some(Int(1_700_000_000))
            && Look(chunk, CHOICE + [Key("index")]) == Some(Int(0))
            && Look(chunk, CHOICE + [Key("delta")]) == Some(Obj(delta))
            && Look(chunk, CHOICE + [Key("finish_reason")]) == Some(if finish.Some? then Str(finish.value) else Null)
  {
    var chunk := Chunk(tag, delta, finish);
    var choice := chunk.fields["choices"].items[0];
    LookOne(chunk, "id");
    LookOne(chunk, "model");
    LookOne(chunk, "object");
    LookOne(chunk, "created");
    ChoiceByPath(chunk);
    LookFurther(chunk, CHOICE, [Key("index")]);
    LookFurther(chunk, CHOICE, [Key("delta")]);
    LookFurther(chunk, CHOICE, [Key("finish_reason")]);
    LookOne(choice, "index");
    LookOne(choice, "delta");
    LookOne(choice, "finish_reason");
    hide Look;
  }

  /** The frame has something to relay: a delta with fields, or a finish reason. */
  predicate HasNews(frame: Json) {
    FinishIn(frame).Some?
    || match Look(frame, CHOICE + [Key("delta")])
       case Some(Obj(fields)) => fields != map[]
       case _ => false
  }

  /**
   What a frame is relayed as, read by path: nothing without news; else one chunk with the content, one reasoning text
   (`reasoning_content` before `reasoning`), the tool-call deltas as they are, and the finish reason.
   */
  lemma {:induction false} RelayReads(tag: Tag, frame: Json)
    ensures |RelayFrame(tag, frame)| == if HasNews(frame) then 1 else 0
    ensures HasNews(frame) ==>
              var chunk := RelayFrame(tag, frame)[0];
              && DeltaText(chunk, "content") == DeltaText(frame, "content")
              && DeltaText(chunk, "reasoning") == ""
              && DeltaText(chunk, "reasoning_content") ==
                 (if DeltaText(frame, "reasoning_content") != "" then DeltaText(frame, "reasoning_content")
                  else DeltaText(frame, "reasoning"))
              && Look(chunk, CHOICE + [Key("delta"), Key("tool_calls")]) ==
                 Look(frame, CHOICE + [Key("delta"), Key("tool_calls")])
              && FinishIn(chunk) == FinishIn(frame)
              && Look(chunk, [Key("id")]) == Some(Str(tag.id)) && Look(chunk, [Key("model")]) == Some(Str(tag.model))
  {
    ChoiceByPath(frame);
    LookFurther(frame, CHOICE, [Key("delta")]);
    if FirstChoice(frame).Some? {
      var choice := FirstChoice(frame).value;
      LookOne(choice, "delta");
      FinishByPath(frame);
      hide Look, FirstChoice, FinishIn, FinishOf, Chunk, RelayedDelta, DeltaText;
      if HasNews(frame) {
        var chunk := Chunk(tag, RelayedDelta(DeltaOf(choice)), FinishOf(choice));
        assert RelayFrame(tag, frame) == [chunk];
        ChunkReads(tag, RelayedDelta(DeltaOf(choice)), FinishOf(choice));
        RelayedByPath(tag, frame, FinishOf(choice));
      }
    } else {
      LookFurther(frame, CHOICE, [Key("finish_reason")]);
      hide FirstChoice;
    }
  }

  lemma {:induction false} RelayedByPath(tag: Tag, frame: Json, finish: Option<string>)
    requires FirstChoice(frame).Some? && finish == FinishIn(frame)
    ensures var chunk := Chunk(tag, RelayedDelta(DeltaOf(FirstChoice(frame).value)), finish);
            && DeltaText(chunk, "content") == DeltaText(frame, "content")
            && DeltaText(chunk, "reasoning") == ""
            && DeltaText(chunk, "reasoning_content") ==
               (if DeltaText(frame, "reasoning_content") != "" then DeltaText(frame, "reasoning_content")
                else DeltaText(frame, "reasoning"))
            && Look(chunk, CHOICE + [Key("delta"), Key("tool_calls")]) ==
               Look(frame, CHOICE + [Key("delta"), Key("tool_calls")])
            && FinishIn(chunk) == finish
  {
    var delta := DeltaOf(FirstChoice(frame).value);
    DeltaByPath(frame, "content");
    DeltaByPath(frame, "reasoning");
    DeltaByPath(frame, "reasoning_content");
    DeltaByPath(frame, "tool_calls");
    ChunkFinish(tag, RelayedDelta(delta), frame);
    ChunkDelta(tag, RelayedDelta(delta), finish, "content");
    ChunkDelta(tag, RelayedDelta(delta), finish, "reasoning");
    ChunkDelta(tag, RelayedDelta(delta), finish, "reasoning_content");
    ChunkDelta(tag, RelayedDelta(delta), finish, "tool_calls");
    RelayedFields(delta);
    hide Look, Chunk, FirstChoice, DeltaOf, FinishIn, RelayedDelta;
  }

  lemma {:induction false} RelayedFields(delta: Json)
    ensures var out := Obj(RelayedDelta(delta));
            && Text(out, "content") == Text(delta, "content")
            && Text(out, "reasoning") == ""
            && Text(out, "reasoning_content") ==
               (if Text(delta, "reasoning_content") != "" then Text(delta, "reasoning_content")
                else Text(delta, "reasoning"))
            && Get(out, "tool_calls") == Get(delta, "tool_calls")
  {
  }

  lemma {:induction false} ChunkFinish(tag: Tag, delta: map<string, Json>, frame: Json)
    ensures FinishIn(Chunk(tag, delta, FinishIn(frame))) == FinishIn(frame)
  {
    ChunkReads(tag, delta, FinishIn(frame));
    hide Chunk, Look, NullWord;
  }

  lemma {:induction false} ChunkDelta(tag: Tag, delta: map<string, Json>, finish: Option<string>, key: string)
    ensures Look(Chunk(tag, delta, finish), CHOICE + [Key("delta"), Key(key)]) == Get(Obj(delta), key)
  {
    var chunk := Chunk(tag, delta, finish);
    ChunkReads(tag, delta, finish);
    hide Chunk;
    LookFurther(chunk, CHOICE + [Key("delta")], [Key(key)]);
    assert CHOICE + [Key("delta")] + [Key(key)] == CHOICE + [Key("delta"), Key(key)];
    LookOne(Obj(delta), key);
  }

  /** The stream a client receives: chunks, and a final stop if no chunk carried a finish reason. */
  class SseOut {
    var chunks: seq<Json>
    var sawFinish: bool

    constructor ()
      ensures chunks == [] && !sawFinish
    {
      chunks := [];
      sawFinish := false;
    }

    method EmitOpenaiDeltaFrame(tag: Tag, frame: Json)
      modifies this
      ensures chunks == old(chunks) + RelayFrame(tag, frame)
      ensures sawFinish == (old(sawFinish) || CarriesFinish(frame))
    {
      var choice := FirstChoice(frame);
      if choice.None? {
        return;
      }
      var delta := DeltaOf(choice.value);
      var finish := FinishOf(choice.value);
      if finish.Some? {
        sawFinish := true;
      }
      var chunk := StructuredChunk(tag, delta, finish);
      if chunk.Some? {
        chunks := chunks + [chunk.value];
      }
    }

    /** Sends a piece of plain text as content. */
    method EmitContent(tag: Tag, text: string)
      requires text != ""
      modifies this
      ensures chunks == old(chunks) + [Chunk(tag, map["content" := Str(text)], None)] && sawFinish == old(sawFinish)
    {
      chunks := chunks + [Chunk(tag, map["content" := Str(text)], None)];
    }

    method EmitAggregatedCompletion(tag: Tag, agg: Aggregate)
      requires AreSlots(agg.toolCalls)
      modifies this
      ensures chunks == old(chunks) + ReplayChunks(tag, agg)
      ensures sawFinish == (old(sawFinish) || ReplayFinish(agg).Some?)
    {
      hide Chunk, RelayedDelta, Indexed;
      if agg.content != "" {
        chunks := chunks + [Chunk(tag, map["content" := Str(agg.content)], None)];
      }
      if agg.toolCalls != [] {
        var indexed := IndexToolCalls(agg.toolCalls);
        var delta := Obj(map["tool_calls" := Arr(indexed)]);
        ToolsChunk(tag, indexed);
        var chunk := StructuredChunk(tag, delta, None);
        if chunk.Some? {
          chunks := chunks + [chunk.value];
        }
      }
      var finish := if agg.finish.Some? then agg.finish else if agg.toolCalls == [] then None else Some("tool_calls");
      if finish.Some? {
        sawFinish := true;
        chunks := chunks + [Chunk(tag, map[], finish)];
      }
    }

    method EndStream(tag: Tag)
      modifies this
      ensures chunks == old(chunks) + (if old(sawFinish) then [] else [StopChunk(tag)]) && sawFinish == old(sawFinish)
    {
      if !sawFinish {
        chunks := chunks + [StopChunk(tag)];
      }
    }
  }

  // ---- Relaying and folding commute ------------------------------------------------------

  /** Both reasoning fields carry text, so the relay drops one of them. */
  predicate DropsReasoning(frame: Json) {
    FirstChoice(frame).Some? &&
    var d := DeltaOf(FirstChoice(frame).value);
    Text(d, "reasoning") != "" && Text(d, "reasoning_content") != ""
  }

  lemma {:induction false} ApplyChunk(agg: Aggregate, tag: Tag, delta: map<string, Json>, finish: Option<string>)
    requires IsAggregate(agg) && (finish.Some? ==> IsFinish(finish.value))
    ensures ApplyFrame(agg, Chunk(tag, delta, finish)) == ApplyDelta(agg, Obj(delta), finish)
  {
    hide ApplyDelta, IsFinish;
    var c := Chunk(tag, delta, finish);
    assert FirstChoice(c) == Some(c.fields["choices"].items[0]);
  }

  /** A relayed delta means the same, except that the second reasoning text is lost. */
  lemma {:induction false} RelayedDeltaMeans(agg: Aggregate, delta: Json, finish: Option<string>)
    requires IsAggregate(agg) && (finish.Some? ==> IsFinish(finish.value))
    ensures var direct, relayed := ApplyDelta(agg, delta, finish), ApplyDelta(agg, Obj(RelayedDelta(delta)), finish);
            && relayed.toolCalls == direct.toolCalls
            && relayed.finish == direct.finish
            && relayed.content == agg.content + Text(delta, "content") + RelayedReasoning(delta)
            && direct.content
               == agg.content + Text(delta, "content") + Text(delta, "reasoning") + Text(delta, "reasoning_content")
  {
    hide MergeAll, RelayedReasoning;
    var out := RelayedDelta(delta);
    assert Text(Obj(out), "content") == Text(delta, "content");
    assert Text(Obj(out), "reasoning") == "";
    assert Text(Obj(out), "reasoning_content") == RelayedReasoning(delta);
    assert ToolCalls(Obj(out)) == ToolCalls(delta);
  }

  lemma {:induction false} SilentDelta(agg: Aggregate, delta: Json)
    requires IsAggregate(agg) && (!delta.Obj? || delta.fields == map[])
    ensures ApplyDelta(agg, delta, None) == agg
  {
    MergeNothing(agg.toolCalls);
  }

  /** Two aggregates with the same tool calls and finish, the first with at most the content of the second. */
  predicate LosesAtMost(a: Aggregate, b: Aggregate) {
    a.toolCalls == b.toolCalls && a.finish == b.finish && |a.content| <= |b.content|
  }

  lemma {:induction false} RelayOneFrame(a: Aggregate, b: Aggregate, tag: Tag, frame: Json)
    requires IsAggregate(a) && IsAggregate(b) && LosesAtMost(a, b)
    ensures var relayed, direct := ApplyFrames(a, RelayFrame(tag, frame)), ApplyFrame(b, frame);
            && LosesAtMost(relayed, direct)
            && (DropsReasoning(frame) || |a.content| < |b.content| ==> |relayed.content| < |direct.content|)
            && (!DropsReasoning(frame) && a == b ==> relayed == direct)
  {
    var choice := FirstChoice(frame);
    if choice.Some? {
      var delta, finish := DeltaOf(choice.value), FinishOf(choice.value);
      if (!delta.Obj? || delta.fields == map[]) && finish.None? {
        SilentDelta(b, delta);
      } else {
        hide ApplyDelta, DeltaOf, FinishOf, RelayedDelta, FirstChoice, IsAggregate, Chunk, Text;
        RelayOneChunk(a, b, tag, delta, finish);
      }
    }
  }

  lemma {:induction false} RelayOneChunk(a: Aggregate, b: Aggregate, tag: Tag, delta: Json, finish: Option<string>)
    requires IsAggregate(a) && IsAggregate(b) && LosesAtMost(a, b) && (finish.Some? ==> IsFinish(finish.value))
    ensures var relayed := ApplyFrames(a, [Chunk(tag, RelayedDelta(delta), finish)]);
            var direct := ApplyDelta(b, delta, finish);
            var drops := Text(delta, "reasoning") != "" && Text(delta, "reasoning_content") != "";
            && LosesAtMost(relayed, direct)
            && (drops || |a.content| < |b.content| ==> |relayed.content| < |direct.content|)
            && (!drops && a == b ==> relayed == direct)
  {
    hide ApplyDelta, RelayedDelta, IsAggregate, Chunk, Text, IsFinish;
    RelayedDeltaMeans(a, delta, finish);
    RelayedDeltaMeans(b, delta, finish);
    SameToolCalls(a, b, delta, finish);
    var chunk := Chunk(tag, RelayedDelta(delta), finish);
    ApplyChunk(a, tag, RelayedDelta(delta), finish);
    assert ApplyFrames(a, [chunk]) == ApplyFrame(a, chunk);
  }

  lemma {:induction false} SameToolCalls(a: Aggregate, b: Aggregate, delta: Json, finish: Option<string>)
    requires IsAggregate(a) && IsAggregate(b) && a.toolCalls == b.toolCalls && a.finish == b.finish
    requires finish.Some? ==> IsFinish(finish.value)
    ensures ApplyDelta(a, delta, finish).toolCalls == ApplyDelta(b, delta, finish).toolCalls
    ensures ApplyDelta(a, delta, finish).finish == ApplyDelta(b, delta, finish).finish
  {
    hide MergeAll, IsFinish, Text;
  }

  lemma {:induction false} ApplyFramesAppend(agg: Aggregate, x: seq<Json>, y: seq<Json>)
    requires IsAggregate(agg)
    ensures ApplyFrames(agg, x + y) == ApplyFrames(ApplyFrames(agg, x), y)
    decreases |x|
  {
    hide ApplyFrame, IsAggregate;
    if x == [] {
      assert x + y == y;
    } else {
      ApplyFramesAppend(ApplyFrame(agg, x[0]), x[1..], y);
      assert (x + y)[1..] == x[1..] + y;
    }
  }

  lemma {:induction false} RelayAllFrames(a: Aggregate, b: Aggregate, tag: Tag, frames: seq<Json>)
    requires IsAggregate(a) && IsAggregate(b) && LosesAtMost(a, b)
    ensures var relayed, direct := ApplyFrames(a, RelayFrames(tag, frames)), ApplyFrames(b, frames);
            && LosesAtMost(relayed, direct)
            && (|a.content| < |b.content| || (exists i :: 0 <= i < |frames| && DropsReasoning(frames[i]))
                ==> |relayed.content| < |direct.content|)
            && (a == b && (forall i :: 0 <= i < |frames| ==> !DropsReasoning(frames[i])) ==> relayed == direct)
    decreases |frames|
  {
    hide ApplyFrame, IsAggregate, RelayFrame, DropsReasoning;
    if frames != [] {
      var first, rest := frames[0], frames[1..];
      RelayOneFrame(a, b, tag, first);
      var a', b' := ApplyFrames(a, RelayFrame(tag, first)), ApplyFrame(b, first);
      RelayAllFrames(a', b', tag, rest);
      ApplyFramesAppend(a, RelayFrame(tag, first), RelayFrames(tag, rest));
      assert forall i :: 1 <= i < |frames| ==> frames[i] == rest[i - 1];
      assert forall i :: 0 <= i < |rest| ==> rest[i] == frames[i + 1];
    }
  }

  /**
   Folding the relayed chunks gives the frames' own aggregate exactly when no frame carries two reasoning texts.
   Tool calls and finish reason survive the relay in any case.
   */
  lemma {:induction false} RelayCommutesWithFolding(tag: Tag, frames: seq<Json>)
    ensures var relayed, direct := ApplyFrames(NOTHING, RelayFrames(tag, frames)), ApplyFrames(NOTHING, frames);
            && relayed.toolCalls == direct.toolCalls
            && relayed.finish == direct.finish
            && (relayed.content == direct.content <==> forall i :: 0 <= i < |frames| ==> !DropsReasoning(frames[i]))
  {
    hide ApplyFrames, RelayFrames, DropsReasoning;
    RelayAllFrames(NOTHING, NOTHING, tag, frames);
  }

  lemma {:induction false} FinishOfFrames(agg: Aggregate, frames: seq<Json>)
    requires IsAggregate(agg)
    ensures ApplyFrames(agg, frames).finish.Some? <==>
            agg.finish.Some? || exists i :: 0 <= i < |frames| && CarriesFinish(frames[i])
    decreases |frames|
  {
    hide MergeAll, FirstChoice, DeltaOf, Text, ToolCalls, FinishOf;
    if frames != [] {
      FinishOfFrames(ApplyFrame(agg, frames[0]), frames[1..]);
      assert forall i :: 1 <= i < |frames| ==> frames[i] == frames[1..][i - 1];
      assert forall i :: 0 <= i < |frames| - 1 ==> frames[1..][i] == frames[i + 1];
    }
  }

  /** The frame carries tool-call deltas. */
  predicate CallsTools(frame: Json) {
    FirstChoice(frame).Some? && ToolCalls(DeltaOf(FirstChoice(frame).value)) != []
  }

  lemma {:induction false} MergeLeavesSlots(slots: seq<Json>, ds: seq<Json>)
    requires AreSlots(slots)
    ensures MergeAll(slots, ds) == [] <==> slots == [] && ds == []
  {
    hide MergeOne;
    if ds != [] {
      OneSlotAtLeast(MergeAll(slots, ds[..|ds| - 1]), ds[|ds| - 1]);
    }
  }

  lemma {:induction false} OneSlotAtLeast(slots: seq<Json>, d: Json)
    requires AreSlots(slots)
    ensures MergeOne(slots, d) != []
  {
    hide MergeSlot, IsSlot;
  }

  lemma {:induction false} ToolsOfFrame(agg: Aggregate, frame: Json)
    requires IsAggregate(agg)
    ensures ApplyFrame(agg, frame).toolCalls == [] <==> agg.toolCalls == [] && !CallsTools(frame)
  {
    hide MergeAll, Text, DeltaOf;
    if FirstChoice(frame).Some? {
      MergeLeavesSlots(agg.toolCalls, ToolCalls(DeltaOf(FirstChoice(frame).value)));
    }
  }

  /** An aggregate has tool calls exactly when some frame carries some. */
  lemma {:induction false} ToolsOfFrames(agg: Aggregate, frames: seq<Json>)
    requires IsAggregate(agg)
    ensures ApplyFrames(agg, frames).toolCalls == [] <==>
            agg.toolCalls == [] && forall i :: 0 <= i < |frames| ==> !CallsTools(frames[i])
    decreases |frames|
  {
    hide ApplyFrame, CallsTools, IsAggregate;
    if frames != [] {
      ToolsOfFrame(agg, frames[0]);
      ToolsOfFrames(ApplyFrame(agg, frames[0]), frames[1..]);
      assert forall i :: 1 <= i < |frames| ==> frames[i] == frames[1..][i - 1];
      assert forall i :: 0 <= i < |frames| - 1 ==> frames[1..][i] == frames[i + 1];
    }
  }

  // ---- Where streaming and buffering differ ----------------------------------------------

  /** A frame with one choice. */
  function FrameOf(delta: map<string, Json>): Json {
    Obj(map["choices" := Arr([Obj(map["delta" := Obj(delta)])])])
  }

  lemma {:induction false} FrameOfMeans(agg: Aggregate, delta: map<string, Json>)
    requires IsAggregate(agg)
    ensures FirstChoice(FrameOf(delta)) == Some(Obj(map["delta" := Obj(delta)]))
    ensures ApplyFrames(agg, [FrameOf(delta)]) == ApplyDelta(agg, Obj(delta), None)
  {
    hide ApplyDelta;
    var frame := FrameOf(delta);
    OneFrame(agg, frame);
    assert Get(frame, "choices") == Some(Arr([Obj(map["delta" := Obj(delta)])]));
  }

  lemma {:induction false} RelayOfFrame(tag: Tag, delta: map<string, Json>)
    requires delta != map[]
    ensures RelayFrames(tag, [FrameOf(delta)]) == [Chunk(tag, RelayedDelta(Obj(delta)), None)]
  {
    hide Chunk, RelayedDelta;
    FrameOfMeans(NOTHING, delta);
    hide FrameOf;
    var frame, choice := FrameOf(delta), Obj(map["delta" := Obj(delta)]);
    assert DeltaOf(choice) == Obj(delta) && FinishOf(choice) == None;
    assert [frame][1..] == [];
    assert RelayFrames(tag, [frame]) == RelayFrame(tag, frame) + [];
  }

  const TWO_REASONINGS := map["reasoning" := Str("a"), "reasoning_content" := Str("b")]

  lemma {:induction false} TwoReasoningTexts()
    ensures TWO_REASONINGS != map[]
    ensures Text(Obj(TWO_REASONINGS), "content") == "" && Text(Obj(TWO_REASONINGS), "reasoning") == "a"
    ensures Text(Obj(TWO_REASONINGS), "reasoning_content") == "b"
  {
    assert "reasoning" in TWO_REASONINGS && "reasoning_content" in TWO_REASONINGS && "content" !in TWO_REASONINGS;
  }

  /** A frame with both reasoning texts: folding the relayed chunk loses one of them. */
  lemma {:induction false} TwoReasoningsLoseOne(tag: Tag)
    ensures ApplyFrames(NOTHING, [FrameOf(TWO_REASONINGS)]).content == "ab"
    ensures ApplyFrames(NOTHING, RelayFrames(tag, [FrameOf(TWO_REASONINGS)])).content == "b"
  {
    hide Chunk, RelayFrames, ApplyFrames, Text, RelayedDelta, FrameOf, ApplyDelta, ApplyFrame;
    TwoReasoningTexts();
    var delta := Obj(TWO_REASONINGS);
    FrameOfMeans(NOTHING, TWO_REASONINGS);
    RelayOfFrame(tag, TWO_REASONINGS);
    ApplyChunk(NOTHING, tag, RelayedDelta(delta), None);
    OneFrame(NOTHING, Chunk(tag, RelayedDelta(delta), None));
    RelayedDeltaMeans(NOTHING, delta, None);
  }

  const BARE_TOOL_CALL := map["tool_calls" := Arr([EMPTY])]

  lemma {:induction false} BareToolCall()
    ensures CallsTools(FrameOf(BARE_TOOL_CALL)) && !CarriesFinish(FrameOf(BARE_TOOL_CALL))
  {
    FrameOfMeans(NOTHING, BARE_TOOL_CALL);
    hide FrameOf;
    var choice := Obj(map["delta" := Obj(BARE_TOOL_CALL)]);
    assert DeltaOf(choice) == Obj(BARE_TOOL_CALL) && FinishOf(choice) == None;
    assert ToolCalls(Obj(BARE_TOOL_CALL)) == [EMPTY];
  }

  /** A tool call without a finish reason: the stream ends with stop, the completion with tool_calls. */
  lemma {:induction false} UnfinishedToolCallDiffers(tag: Tag)
    ensures FinishReason(ApplyFrames(NOTHING, RelayedStream(tag, [FrameOf(BARE_TOOL_CALL)]))) == "stop"
    ensures FinishReason(ApplyFrames(NOTHING, [FrameOf(BARE_TOOL_CALL)])) == "tool_calls"
  {
    hide ApplyFrames, RelayFrames, CarriesFinish, CallsTools, StopChunk, FrameOf;
    var frames := [FrameOf(BARE_TOOL_CALL)];
    BareToolCall();
    var relayed := ApplyFrames(NOTHING, RelayFrames(tag, frames));
    assert CallsTools(frames[0]);
    ToolsOfFrames(NOTHING, frames);
    FinishOfFrames(NOTHING, frames);
    ApplyFramesAppend(NOTHING, RelayFrames(tag, frames), [StopChunk(tag)]);
    StopEnds(relayed, tag);
  }

  // ---- The completion object -------------------------------------------------------------

  function Decimal(n: nat): string {
    if n < 10 then [('0' as int + n) as char] else Decimal(n / 10) + [('0' as int + n % 10) as char]
  }

  function Or(v: Option<Json>, otherwise: Json): Json {
    if v.Some? then v.value else otherwise
  }

  function RenderToolCall(i: nat, tc: Json): Json {
    Obj(map[
      "id" := Or(Get(tc, "id"), Str("call_" + Decimal(i))),
      "type" := Or(Get(tc, "type"), Str("function")),
      "function" := Or(Get(tc, "function"), Obj(map["name" := Str(""), "arguments" := Str("")]))])
  }

  function RenderToolCalls(tcs: seq<Json>): seq<Json> {
    seq(|tcs|, i requires 0 <= i < |tcs| => RenderToolCall(i, tcs[i]))
  }

  function Message(agg: Aggregate): Json {
    if agg.toolCalls == [] then Obj(map["role" := Str("assistant"), "content" := Str(agg.content)])
    else Obj(map[
      "role" := Str("assistant"),
      "content" := if agg.content == "" then Null else Str(agg.content),
      "tool_calls" := Arr(RenderToolCalls(agg.toolCalls))])
  }

  function FinishReason(agg: Aggregate): string {
    if agg.finish.Some? then agg.finish.value else if agg.toolCalls == [] then "stop" else "tool_calls"
  }

  /** The whole completion object; its identifier is drawn at random, here a parameter. */
  function Completion(id: string, model: string, agg: Aggregate, promptTokens: nat, completionTokens: nat): Json {
    Obj(map[
      "id" := Str("chatcmpl-" + id), "object" := Str("chat.completion"),
      "created" := Int(1_700_000_000), "model" := Str(model),
      "choices" := Arr([Obj(map[
        "index" := Int(0), "message" := Message(agg), "finish_reason" := Str(FinishReason(agg))])]),
      "usage" := Obj(map[
        "prompt_tokens" := Int(promptTokens), "completion_tokens" := Int(completionTokens),
        "total_tokens" := Int(promptTokens + completionTokens)])])
  }

  /** The number a string of digits stands for. */
  function ValueOf(s: string): int {
    if s == "" then 0 else ValueOf(s[..|s| - 1]) * 10 + (s[|s| - 1] as int - '0' as int)
  }

  lemma {:induction false} DecimalReads(n: nat)
    ensures ValueOf(Decimal(n)) == n && Decimal(n) != ""
    ensures forall i :: 0 <= i < |Decimal(n)| ==> '0' <= Decimal(n)[i] <= '9'
    ensures |Decimal(n)| > 1 ==> Decimal(n)[0] != '0'
  {
    if n >= 10 {
      DecimalReads(n / 10);
      var high, low := Decimal(n / 10), ('0' as int + n % 10) as char;
      assert (high + [low])[..|high|] == high;
      if |high| == 1 {
        assert high[..0] == "";
      }
    } else {
      assert [('0' as int + n) as char][..0] == "";
    }
  }

  /** A rendered tool call: what the slot says, or else its position, "function" and an empty function. */
  lemma {:induction false} ToolCallReads(i: nat, tc: Json)
    ensures var out := RenderToolCall(i, tc);
            && Look(out, [Key("id")]) == Else(Look(tc, [Key("id")]), Some(Str("call_" + Decimal(i))))
            && Look(out, [Key("type")]) == Else(Look(tc, [Key("type")]), Some(Str("function")))
            && Look(out, [Key("function")]) ==
               Else(Look(tc, [Key("function")]), Some(Obj(map["name" := Str(""), "arguments" := Str("")])))
  {
    hide Decimal;
    var out := RenderToolCall(i, tc);
    LookOne(out, "id");
    LookOne(out, "type");
    LookOne(out, "function");
    LookOne(tc, "id");
    LookOne(tc, "type");
    LookOne(tc, "function");
    hide Look;
  }

  /** The message a client gets: the content (null when there are only tool calls) and every slot in order. */
  lemma {:induction false} MessageReads(agg: Aggregate)
    ensures var m := Message(agg);
            && Look(m, [Key("role")]) == Some(Str("assistant"))
            && Look(m, [Key("content")]) ==
               Some(if agg.content == "" && agg.toolCalls != [] then Null else Str(agg.content))
            && (agg.toolCalls == [] ==> Look(m, [Key("tool_calls")]) == None)
            && (agg.toolCalls != [] ==> Look(m, [Key("tool_calls")]) == Some(Arr(RenderToolCalls(agg.toolCalls))))
  {
    hide RenderToolCalls;
    var m := Message(agg);
    LookOne(m, "role");
    LookOne(m, "content");
    LookOne(m, "tool_calls");
    hide Look;
  }

  /** Every field of a completion. */
  lemma {:induction false} CompletionReads(id: string, model: string, agg: Aggregate, prompt: nat, completion: nat)
    ensures var c := Completion(id, model, agg, prompt, completion);
            && Look(c, [Key("id")]) == Some(Str("chatcmpl-" + id)) && Look(c, [Key("model")]) == Some(Str(model))
            && Look(c, [Key("object")]) == Some(Str("chat.completion"))
            && Look(c, [Key("created")]) == Some(Int(1_700_000_000))
            && Look(c, CHOICE + [Key("index")]) == Some(Int(0))
            && Look(c, CHOICE + [Key("message")]) == Some(Message(agg))
            && Look(c, CHOICE + [Key("finish_reason")]) == Some(Str(FinishReason(agg)))
            && Look(c, [Key("usage"), Key("prompt_tokens")]) == Some(Int(prompt))
            && Look(c, [Key("usage"), Key("completion_tokens")]) == Some(Int(completion))
            && Look(c, [Key("usage"), Key("total_tokens")]) == Some(Int(prompt + completion))
    ensures FinishReason(agg) ==
            if agg.finish.Some? then agg.finish.value else if agg.toolCalls == [] then "stop" else "tool_calls"
  {
    var c := Completion(id, model, agg, prompt, completion);
    CompletionHead(id, model, agg, prompt, completion);
    CompletionChoice(id, model, agg, prompt, completion);
    CompletionUsage(id, model, agg, prompt, completion);
    hide Look, Completion, Message;
  }

  lemma {:induction false} CompletionHead(id: string, model: string, agg: Aggregate, prompt: nat, completion: nat)
    ensures var c := Completion(id, model, agg, prompt, completion);
            && Look(c, [Key("id")]) == Some(Str("chatcmpl-" + id)) && Look(c, [Key("model")]) == Some(Str(model))
            && Look(c, [Key("object")]) == Some(Str("chat.completion"))
            && Look(c, [Key("created")]) == Some(Int(1_700_000_000))
  {
    hide Message, FinishReason;
    var c := Completion(id, model, agg, prompt, completion);
    LookOne(c, "id");
    LookOne(c, "model");
    LookOne(c, "object");
    LookOne(c, "created");
    hide Look;
  }

  lemma {:induction false} CompletionChoice(id: string, model: string, agg: Aggregate, prompt: nat, completion: nat)
    ensures var c := Completion(id, model, agg, prompt, completion);
            && Look(c, CHOICE + [Key("index")]) == Some(Int(0))
            && Look(c, CHOICE + [Key("message")]) == Some(Message(agg))
            && Look(c, CHOICE + [Key("finish_reason")]) == Some(Str(FinishReason(agg)))
  {
    hide Message, FinishReason;
    var c := Completion(id, model, agg, prompt, completion);
    var choice := c.fields["choices"].items[0];
    ChoiceByPath(c);
    assert FirstChoice(c) == Some(choice);
    LookFurther(c, CHOICE, [Key("index")]);
    LookFurther(c, CHOICE, [Key("message")]);
    LookFurther(c, CHOICE, [Key("finish_reason")]);
    LookOne(choice, "index");
    LookOne(choice, "message");
    LookOne(choice, "finish_reason");
    hide Look;
  }

  lemma {:induction false} CompletionUsage(id: string, model: string, agg: Aggregate, prompt: nat, completion: nat)
    ensures var c := Completion(id, model, agg, prompt, completion);
            && Look(c, [Key("usage"), Key("prompt_tokens")]) == Some(Int(prompt))
            && Look(c, [Key("usage"), Key("completion_tokens")]) == Some(Int(completion))
            && Look(c, [Key("usage"), Key("total_tokens")]) == Some(Int(prompt + completion))
  {
    hide Message, FinishReason;
    var c := Completion(id, model, agg, prompt, completion);
    LookTwo(c, "usage", "prompt_tokens");
    LookTwo(c, "usage", "completion_tokens");
    LookTwo(c, "usage", "total_tokens");
    hide Look;
  }

  /** What the stream client is told at the end of a relayed stream. */
  function RelayedStream(tag: Tag, frames: seq<Json>): seq<Json> {
    RelayFrames(tag, frames)
    + if exists i :: 0 <= i < |frames| && CarriesFinish(frames[i]) then [] else [StopChunk(tag)]
  }

  /** Some frame carries a finish reason, or none calls a tool. */
  ghost predicate FinishesAlike(frames: seq<Json>) {
    || (exists i :: 0 <= i < |frames| && CarriesFinish(frames[i]))
    || (forall i :: 0 <= i < |frames| ==> !CallsTools(frames[i]))
  }

  /**
   The finish reason a streaming client ends with is the one a buffered client gets exactly when some frame carries
   one or no frame calls a tool: otherwise the stream says stop and the completion says tool_calls.
   */
  lemma {:induction false} RelayedFinishReason(tag: Tag, frames: seq<Json>)
    ensures var streamed, direct := ApplyFrames(NOTHING, RelayedStream(tag, frames)), ApplyFrames(NOTHING, frames);
            FinishReason(streamed) == FinishReason(direct) <==> FinishesAlike(frames)
  {
    hide ApplyFrames, RelayFrames, CarriesFinish, StopChunk, CallsTools;
    ToolsOfFrames(NOTHING, frames);
    var relayed := ApplyFrames(NOTHING, RelayFrames(tag, frames));
    RelayCommutesWithFolding(tag, frames);
    FinishOfFrames(NOTHING, frames);
    if exists i :: 0 <= i < |frames| && CarriesFinish(frames[i]) {
      assert RelayedStream(tag, frames) == RelayFrames(tag, frames);
    } else {
      ApplyFramesAppend(NOTHING, RelayFrames(tag, frames), [StopChunk(tag)]);
      StopEnds(relayed, tag);
    }
  }

  lemma {:induction false} StopEnds(agg: Aggregate, tag: Tag)
    requires IsAggregate(agg)
    ensures ApplyFrames(agg, [StopChunk(tag)]) == agg.(finish := Some("stop"))
  {
    FinishChunk(agg, tag, "stop");
  }

  lemma {:induction false} FinishChunk(agg: Aggregate, tag: Tag, reason: string)
    requires IsAggregate(agg) && IsFinish(reason)
    ensures ApplyFrames(agg, [Chunk(tag, map[], Some(reason))]) == agg.(finish := Some(reason))
  {
    var chunk := Chunk(tag, map[], Some(reason));
    hide Chunk, IsFinish;
    ApplyChunk(agg, tag, map[], Some(reason));
    MergeNothing(agg.toolCalls);
    assert ApplyFrames(agg, [chunk]) == ApplyFrame(agg, chunk);
  }

  // ---- Replaying a folded completion -----------------------------------------------------

  /** Every slot with its position as index. */
  function Indexed(tcs: seq<Json>): (r: seq<Json>)
    requires AreSlots(tcs)
    ensures |r| == |tcs|
    ensures forall i :: 0 <= i < |r| ==> r[i] == Obj(tcs[i].fields["index" := Int(i)])
  {
    if tcs == [] then []
    else
      var k := |tcs| - 1;
      Indexed(tcs[..k]) + [Obj(tcs[k].fields["index" := Int(k)])]
  }

  function ReplayContent(tag: Tag, agg: Aggregate): seq<Json> {
    if agg.content == "" then [] else [Chunk(tag, map["content" := Str(agg.content)], None)]
  }

  function ReplayTools(tag: Tag, agg: Aggregate): seq<Json>
    requires AreSlots(agg.toolCalls)
  {
    if agg.toolCalls == [] then [] else [Chunk(tag, map["tool_calls" := Arr(Indexed(agg.toolCalls))], None)]
  }

  function ReplayFinish(agg: Aggregate): Option<string> {
    if agg.finish.Some? then agg.finish else if agg.toolCalls == [] then None else Some("tool_calls")
  }

  function ReplayChunks(tag: Tag, agg: Aggregate): seq<Json>
    requires AreSlots(agg.toolCalls)
  {
    ReplayContent(tag, agg) + ReplayTools(tag, agg)
    + if ReplayFinish(agg).Some? then [Chunk(tag, map[], ReplayFinish(agg))] else []
  }

  /** The replay with the bridge's closing stop. */
  function ReplayedStream(tag: Tag, agg: Aggregate): seq<Json>
    requires AreSlots(agg.toolCalls)
  {
    ReplayChunks(tag, agg) + if ReplayFinish(agg).Some? then [] else [StopChunk(tag)]
  }

  /** Merging a slot's own content into an empty slot renders the same, fillers included. */
  lemma {:induction false} SlotRendersBack(slot: Json, i: nat)
    requires IsSlot(slot)
    ensures var back := Obj(MergeSlot(map[], Obj(slot.fields["index" := Int(i)])));
            RenderToolCall(i, back) == RenderToolCall(i, slot)
  {
    var d := Obj(slot.fields["index" := Int(i)]);
    assert Get(d, "id") == Get(slot, "id") && Get(d, "type") == Get(slot, "type")
      && Get(d, "function") == Get(slot, "function");
    hide Decimal;
    if slot == EMPTY {
      FillerRendersBack(d);
    } else {
      FunctionRendersBack(slot.fields["function"].fields, d);
    }
    hide MergeFunction;
  }

  lemma {:induction false} FillerRendersBack(d: Json)
    requires Get(d, "function").None?
    ensures MergeFunction(map[], d) == map["name" := Str(""), "arguments" := Str("")]
  {
  }

  lemma {:induction false} FunctionRendersBack(f: map<string, Json>, d: Json)
    requires IsFunction(f) && Get(d, "function") == Some(Obj(f))
    ensures MergeFunction(map[], d) == f
  {
    var name, args := f["name"].s, f["arguments"].s;
    assert Fragment(d) == Some(args);
    assert NewName(d) == if name != "" then Some(name) else None;
    assert "" + args == args;
    hide Fragment, NewName;
    var named := if name != "" then map["name" := Str(name)] else map[];
    assert ArgsOf(Obj(named)) == "";
    assert MergeFunction(map[], d) == map["name" := Str(name), "arguments" := Str(args)];
  }

  lemma {:induction false} ReplayedSlots(tcs: seq<Json>, k: nat)
    requires AreSlots(tcs) && k <= |tcs| <= U64_LIMIT
    ensures var back := MergeAll([], Indexed(tcs)[..k]);
            |back| == k && forall i :: 0 <= i < k ==> back[i] == Obj(MergeSlot(map[], Indexed(tcs)[i]))
  {
    hide MergeSlot, Indexed, MergeOne, SlotIndex, IsSlot;
    if k > 0 {
      var ds := Indexed(tcs);
      ReplayedSlots(tcs, k - 1);
      assert ds[..k][..k - 1] == ds[..k - 1];
      var before := MergeAll([], ds[..k - 1]);
      OwnIndex(tcs, k - 1);
      MergeAtEnd(before, ds[k - 1]);
      assert MergeAll([], ds[..k]) == MergeOne(before, ds[k - 1]);
    }
  }

  lemma {:induction false} OwnIndex(tcs: seq<Json>, k: nat)
    requires AreSlots(tcs) && k < |tcs| <= U64_LIMIT
    ensures SlotIndex(Indexed(tcs)[k], k) == k
  {
    hide Indexed, IsSlot;
    assert Get(Indexed(tcs)[k], "index") == Some(Int(k));
  }

  lemma {:induction false} MergeAtEnd(slots: seq<Json>, d: Json)
    requires AreSlots(slots) && SlotIndex(d, |slots|) == |slots|
    ensures MergeOne(slots, d) == slots + [Obj(MergeSlot(map[], d))]
  {
    hide MergeSlot, SlotIndex, IsSlot;
  }

  lemma {:induction false} ReplayedToolCalls(tcs: seq<Json>)
    requires AreSlots(tcs) && |tcs| <= U64_LIMIT
    ensures RenderToolCalls(MergeAll([], Indexed(tcs))) == RenderToolCalls(tcs)
    ensures |MergeAll([], Indexed(tcs))| == |tcs|
  {
    hide MergeSlot, Indexed, RenderToolCall, MergeAll;
    assert Indexed(tcs)[..|tcs|] == Indexed(tcs);
    ReplayedSlots(tcs, |tcs|);
    forall i | 0 <= i < |tcs|
      ensures RenderToolCall(i, MergeAll([], Indexed(tcs))[i]) == RenderToolCall(i, tcs[i])
    {
      SlotRendersBack(tcs[i], i);
    }
  }

  lemma {:induction false} FoldContentAndTools(tag: Tag, agg: Aggregate)
    requires IsAggregate(agg)
    ensures ApplyFrames(NOTHING, ReplayContent(tag, agg) + ReplayTools(tag, agg))
         == Aggregate(agg.content, MergeAll([], Indexed(agg.toolCalls)), None)
  {
    hide Chunk, Indexed, MergeAll, ApplyFrame;
    var afterContent := Aggregate(agg.content, [], None);
    ApplyFramesAppend(NOTHING, ReplayContent(tag, agg), ReplayTools(tag, agg));
    FoldContent(tag, agg);
    FoldTools(tag, agg);
  }

  lemma {:induction false} OneFrame(agg: Aggregate, frame: Json)
    requires IsAggregate(agg)
    ensures ApplyFrames(agg, [frame]) == ApplyFrame(agg, frame)
  {
    hide ApplyFrame;
  }

  lemma {:induction false} ContentDelta(text: string)
    ensures ApplyDelta(NOTHING, Obj(map["content" := Str(text)]), None) == Aggregate(text, [], None)
  {
    hide MergeAll;
    MergeNothing([]);
    var delta := Obj(map["content" := Str(text)]);
    assert Text(delta, "content") == text && Text(delta, "reasoning") == "" && Text(delta, "reasoning_content") == "";
    assert ToolCalls(delta) == [];
  }

  lemma {:induction false} FoldContent(tag: Tag, agg: Aggregate)
    ensures ApplyFrames(NOTHING, ReplayContent(tag, agg)) == Aggregate(agg.content, [], None)
  {
    hide Chunk, MergeAll;
    if agg.content != "" {
      var delta := map["content" := Str(agg.content)];
      ApplyChunk(NOTHING, tag, delta, None);
      var chunk := Chunk(tag, delta, None);
      OneFrame(NOTHING, chunk);
      hide ApplyFrame, ApplyDelta, ApplyFrames;
      ContentDelta(agg.content);
    }
  }

  lemma {:induction false} FoldTools(tag: Tag, agg: Aggregate)
    requires AreSlots(agg.toolCalls)
    ensures ApplyFrames(Aggregate(agg.content, [], None), ReplayTools(tag, agg))
         == Aggregate(agg.content, MergeAll([], Indexed(agg.toolCalls)), None)
  {
    var start := Aggregate(agg.content, [], None);
    hide Chunk, MergeAll;
    if agg.toolCalls == [] {
      MergeNothing([]);
    } else {
      var delta := map["tool_calls" := Arr(Indexed(agg.toolCalls))];
      ApplyChunk(start, tag, delta, None);
      var chunk := Chunk(tag, delta, None);
      assert ApplyFrames(start, [chunk]) == ApplyFrame(start, chunk);
      hide Indexed;
      assert ToolCalls(Obj(delta)) == Indexed(agg.toolCalls);
    }
  }

  /**
   A folded completion replayed as a stream and folded again shows the client the same message and finish reason.
   The only limit is that slot positions fit a machine word.
   */
  lemma {:induction false} ReplayRoundTrip(tag: Tag, agg: Aggregate)
    requires IsAggregate(agg) && |agg.toolCalls| <= U64_LIMIT
    ensures var back := ApplyFrames(NOTHING, ReplayedStream(tag, agg));
            Message(back) == Message(agg) && FinishReason(back) == FinishReason(agg)
  {
    var body := ReplayContent(tag, agg) + ReplayTools(tag, agg);
    var folded := ApplyFrames(NOTHING, body);
    var finish := if ReplayFinish(agg).Some? then ReplayFinish(agg).value else "stop";
    var last := Chunk(tag, map[], Some(finish));
    assert ReplayedStream(tag, agg) == body + [last] by {
      hide Chunk, ReplayContent, ReplayTools;
    }
    hide *;
    FoldContentAndTools(tag, agg);
    ReplayedToolCalls(agg.toolCalls);
    ApplyFramesAppend(NOTHING, body, [last]);
    ReplayFinishIsFinish(agg);
    FinishChunk(folded, tag, finish);
    SameFace(agg, folded, finish);
  }

  lemma {:induction false} ReplayFinishIsFinish(agg: Aggregate)
    requires IsAggregate(agg)
    ensures IsFinish(if ReplayFinish(agg).Some? then ReplayFinish(agg).value else "stop")
  {
  }

  lemma {:induction false} SameFace(agg: Aggregate, folded: Aggregate, finish: string)
    requires folded.content == agg.content && |folded.toolCalls| == |agg.toolCalls|
    requires RenderToolCalls(folded.toolCalls) == RenderToolCalls(agg.toolCalls)
    requires finish == if ReplayFinish(agg).Some? then ReplayFinish(agg).value else "stop"
    ensures var back := folded.(finish := Some(finish));
            Message(back) == Message(agg) && FinishReason(back) == FinishReason(agg)
  {
    hide RenderToolCalls;
  }

  // ---- Whole streams ---------------------------------------------------------------------

  /**
   Streams a list of frames to the client. What the client folds from the stream has the frames' own tool calls
   always, their content exactly when no frame carries two reasoning texts, and their finish reason exactly when some
   frame carries one or no frame calls a tool.
   */
  method StreamFrames(tag: Tag, frames: seq<Json>) returns (chunks: seq<Json>)
    ensures chunks == RelayedStream(tag, frames)
    ensures var streamed, direct := ApplyFrames(NOTHING, chunks), ApplyFrames(NOTHING, frames);
            && streamed.toolCalls == direct.toolCalls
            && (streamed.content == direct.content <==> forall i :: 0 <= i < |frames| ==> !DropsReasoning(frames[i]))
            && (FinishReason(streamed) == FinishReason(direct) <==> FinishesAlike(frames))
  {
    hide *;
    var out := new SseOut();
    RelayNothing(tag);
    for k := 0 to |frames|
      invariant out.chunks == RelayFrames(tag, frames[..k])
      invariant out.sawFinish <==> exists i :: 0 <= i < k && CarriesFinish(frames[i])
    {
      RelayOneMore(tag, frames[..k], frames[k]);
      assert frames[..k + 1] == frames[..k] + [frames[k]];
      out.EmitOpenaiDeltaFrame(tag, frames[k]);
    }
    assert frames[..|frames|] == frames;
    out.EndStream(tag);
    chunks := out.chunks;
    StreamIs(tag, frames, chunks);
    StreamTells(tag, frames);
  }

  lemma {:induction false} StreamIs(tag: Tag, frames: seq<Json>, chunks: seq<Json>)
    requires chunks == RelayFrames(tag, frames)
                       + if exists i :: 0 <= i < |frames| && CarriesFinish(frames[i]) then [] else [StopChunk(tag)]
    ensures chunks == RelayedStream(tag, frames)
  {
    hide RelayFrames, CarriesFinish, StopChunk;
  }

  lemma {:induction false} RelayNothing(tag: Tag)
    ensures RelayFrames(tag, []) == []
  {
  }

  lemma {:induction false} RelayOneMore(tag: Tag, frames: seq<Json>, frame: Json)
    ensures RelayFrames(tag, frames + [frame]) == RelayFrames(tag, frames) + RelayFrame(tag, frame)
    decreases |frames|
  {
    hide RelayFrame;
    if frames == [] {
      assert ([] + [frame])[1..] == [];
      assert [] + [frame] == [frame];
    } else {
      RelayOneMore(tag, frames[1..], frame);
      assert (frames + [frame])[1..] == frames[1..] + [frame];
    }
  }

  lemma {:induction false} StreamTells(tag: Tag, frames: seq<Json>)
    ensures var streamed, direct := ApplyFrames(NOTHING, RelayedStream(tag, frames)), ApplyFrames(NOTHING, frames);
            && streamed.toolCalls == direct.toolCalls
            && (streamed.content == direct.content <==> forall i :: 0 <= i < |frames| ==> !DropsReasoning(frames[i]))
            && (FinishReason(streamed) == FinishReason(direct) <==> FinishesAlike(frames))
  {
    hide ApplyFrames, RelayFrames, CarriesFinish, StopChunk, DropsReasoning, FinishReason, FinishesAlike;
    RelayCommutesWithFolding(tag, frames);
    RelayedFinishReason(tag, frames);
    var relayed := RelayFrames(tag, frames);
    if !exists i :: 0 <= i < |frames| && CarriesFinish(frames[i]) {
      ApplyFramesAppend(NOTHING, relayed, [StopChunk(tag)]);
      StopEnds(ApplyFrames(NOTHING, relayed), tag);
    } else {
      assert relayed + [] == relayed;
    }
  }

  /** Streams a buffered completion; what the client folds from it is the same completion object. */
  method StreamAggregate(tag: Tag, agg: Aggregate) returns (chunks: seq<Json>)
    requires IsAggregate(agg) && |agg.toolCalls| <= U64_LIMIT
    ensures chunks == ReplayedStream(tag, agg)
    ensures var back := ApplyFrames(NOTHING, chunks);
            forall id, model, p: nat, q: nat :: Completion(id, model, back, p, q) == Completion(id, model, agg, p, q)
  {
    hide ApplyFrames, Message, FinishReason, StopChunk, ReplayChunks, ReplayFinish;
    var out := new SseOut();
    out.EmitAggregatedCompletion(tag, agg);
    out.EndStream(tag);
    chunks := out.chunks;
    assert chunks == ReplayedStream(tag, agg);
    ReplayRoundTrip(tag, agg);
  }
}
