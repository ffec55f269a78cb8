/** Structural compaction of JSON values before they enter a model context
    (frontend/server/context-compaction.ts).

    A JavaScript string is a sequence of UTF-16 code units.  An object is the list of its own
    entries in enumeration order.  Every primitive that is not a string passes through unchanged,
    so `Null`, `Bool` and `Num` stand for all of them. */
module Compaction {

  newtype CodeUnit = u: int | 0 <= u < 0x1_0000

  type Text = seq<CodeUnit>

  datatype Entry = Entry(key: Text, value: Json)

  datatype Json =
    | Null
    | Bool(b: bool)
    | Num(n: int)
    | Str(s: Text)
    | Arr(items: seq<Json>)
    | Obj(entries: seq<Entry>)

  function Ascii(s: string): Text {
    seq(|s|, i requires 0 <= i < |s| => (s[i] as int % 0x1_0000) as CodeUnit)
  }

  const ELLIPSIS: CodeUnit := 0x2026
  const OMITTED_FIELDS := Ascii("__omittedFields")
  const DEPTH_MARKER := Obj([Entry(Ascii("omitted"), Bool(true)),
                             Entry(Ascii("reason"), Str(Ascii("depth_budget")))])

  function ItemsMarker(omitted: nat): Json {
    Obj([Entry(Ascii("omittedItems"), Num(omitted))])
  }

  function MaxText(tight: bool): nat { if tight then 320 else 1600 }

  function MaxDepth(tight: bool): nat { if tight then 4 else 7 }

  function MaxItems(tight: bool): nat { if tight then 8 else 24 }

  function MaxFields(tight: bool): nat { if tight then 24 else 60 }

  function Min(a: nat, b: nat): nat { if a < b then a else b }

  function Clip(s: Text, max: nat): Text
    requires max > 0
  {
    if |s| > max then s[..max - 1] + [ELLIPSIS] else s
  }

  /** The position of the first entry with this key, or the number of entries. */
  function FieldIndex(entries: seq<Entry>, key: Text): (j: nat)
    ensures j <= |entries|
    ensures j < |entries| ==> entries[j].key == key
    ensures forall i :: 0 <= i < j ==> entries[i].key != key
  {
    if entries == [] then 0
    else if entries[0].key == key then 0
    else 1 + FieldIndex(entries[1..], key)
  }

  /** Property assignment: an existing key keeps its position, a new one goes last. */
  function SetField(entries: seq<Entry>, key: Text, value: Json): seq<Entry> {
    var j := FieldIndex(entries, key);
    if j < |entries| then entries[j := Entry(key, value)] else entries + [Entry(key, value)]
  }

  function Compact(v: Json, depth: nat, tight: bool): Json
    decreases v, 0
  {
    match v
    case Str(s) => Str(Clip(s, MaxText(tight)))
    case Arr(items) =>
      if depth >= MaxDepth(tight) then DEPTH_MARKER
      else Arr(MarkItems(CompactItems(items, Min(|items|, MaxItems(tight)), depth + 1, tight),
                         |items|, MaxItems(tight)))
    case Obj(entries) =>
      if depth >= MaxDepth(tight) then DEPTH_MARKER
      else Obj(MarkFields(CompactFields(entries, Min(|entries|, MaxFields(tight)), depth + 1, tight),
                          |entries|, MaxFields(tight)))
    case _ => v
  }

  /** The first `n` items, each compacted. */
  function CompactItems(items: seq<Json>, n: nat, depth: nat, tight: bool): (kept: seq<Json>)
    requires n <= |items|
    ensures |kept| == n
    ensures forall i :: 0 <= i < n ==> kept[i] == Compact(items[i], depth, tight)
    decreases items, n
  {
    if n == 0 then []
    else CompactItems(items, n - 1, depth, tight) + [Compact(items[n - 1], depth, tight)]
  }

  /** The first `n` entries, each value compacted under its own key. */
  function CompactFields(entries: seq<Entry>, n: nat, depth: nat, tight: bool): (kept: seq<Entry>)
    requires n <= |entries|
    ensures |kept| == n
    ensures forall i :: 0 <= i < n ==>
      kept[i] == Entry(entries[i].key, Compact(entries[i].value, depth, tight))
    decreases entries, n
  {
    if n == 0 then []
    else CompactFields(entries, n - 1, depth, tight)
         + [Entry(entries[n - 1].key, Compact(entries[n - 1].value, depth, tight))]
  }

  /** An array that lost items says how many. */
  function MarkItems(kept: seq<Json>, total: nat, max: nat): seq<Json> {
    if total > max then kept + [ItemsMarker(total - max)] else kept
  }

  /** An object that lost fields says how many, in a field of its own. */
  function MarkFields(kept: seq<Entry>, total: nat, max: nat): seq<Entry> {
    if total > max then SetField(kept, OMITTED_FIELDS, Num(total - max)) else kept
  }

  // ---- What is kept ------------------------------------------------------------------------

  /** A string that is too long keeps its beginning, and ends in an ellipsis instead of the rest. */
  lemma TextKeepsItsBeginning(s: Text, depth: nat, tight: bool)
    ensures
      var max: nat, out := if tight then 320 else 1600, Compact(Str(s), depth, tight);
      && out.Str?
      && (|s| <= max ==> out.s == s)
      && (|s| > max ==>
            && |out.s| == max && out.s[max - 1] == 0x2026
            && forall i :: 0 <= i < max - 1 ==> out.s[i] == s[i])
  {
  }

  /** Numbers, booleans and nulls stay as they are. */
  lemma PrimitivesStay(v: Json, depth: nat, tight: bool)
    requires v.Null? || v.Bool? || v.Num?
    ensures Compact(v, depth, tight) == v
  {
  }

  predicate IsDepthMarker(v: Json) {
    && v.Obj? && |v.entries| == 2
    && v.entries[0].key == Ascii("omitted") && v.entries[0].value == Bool(true)
    && v.entries[1].key == Ascii("reason") && v.entries[1].value == Str(Ascii("depth_budget"))
  }

  /** An array keeps its first items in their order, each compacted one level deeper, and one more item says how
      many were left out; below the allowed depth nothing of it is kept. */
  lemma ArrayKeepsItsBeginning(items: seq<Json>, depth: nat, tight: bool)
    ensures
      var max, deepest, out := if tight then 8 else 24, if tight then 4 else 7, Compact(Arr(items), depth, tight);
      if depth >= deepest then IsDepthMarker(out)
      else
        && out.Arr?
        && (forall i :: 0 <= i < |items| && i < max ==> i < |out.items| && out.items[i] == Compact(items[i], depth + 1, tight))
        && (|items| <= max ==> |out.items| == |items|)
        && (|items| > max ==>
              && |out.items| == max + 1 && out.items[max].Obj? && |out.items[max].entries| == 1
              && out.items[max].entries[0].key == Ascii("omittedItems") && out.items[max].entries[0].value == Num(|items| - max))
  {
  }

  /** An object keeps its first fields under their own keys, and a field of its own says how many were left out. */
  lemma ObjectKeepsItsBeginning(entries: seq<Entry>, depth: nat, tight: bool)
    ensures
      var max, deepest, out := if tight then 24 else 60, if tight then 4 else 7, Compact(Obj(entries), depth, tight);
      if depth >= deepest then IsDepthMarker(out)
      else
        && out.Obj?
        && (forall i :: 0 <= i < |entries| && i < max && (|entries| <= max || entries[i].key != Ascii("__omittedFields")) ==>
              i < |out.entries| && out.entries[i] == Entry(entries[i].key, Compact(entries[i].value, depth + 1, tight)))
        && (|entries| <= max ==> |out.entries| == |entries|)
        && (|entries| > max ==>
              && max <= |out.entries| <= max + 1
              && (exists i :: 0 <= i < |out.entries| && out.entries[i] == Entry(Ascii("__omittedFields"), Num(|entries| - max)))
              && (|out.entries| == max + 1 <==> forall i :: 0 <= i < max ==> entries[i].key != Ascii("__omittedFields")))
  {
    var max: nat := MaxFields(tight);
    if depth < MaxDepth(tight) && |entries| > max {
      var kept := CompactFields(entries, max, depth + 1, tight);
      var j := FieldIndex(kept, OMITTED_FIELDS);
      assert SetField(kept, OMITTED_FIELDS, Num(|entries| - max))[j] == Entry(OMITTED_FIELDS, Num(|entries| - max));
    }
  }

  // ---- Twice is enough ---------------------------------------------------------------------

  lemma {:induction false} SameKeysSameIndex(a: seq<Entry>, b: seq<Entry>, key: Text)
    requires |a| == |b|
    requires forall i :: 0 <= i < |a| ==> a[i].key == b[i].key
    ensures FieldIndex(a, key) == FieldIndex(b, key)
  {
    if a != [] {
      SameKeysSameIndex(a[1..], b[1..], key);
    }
  }

  /** One pass over the fields of an object, whatever is done to each value. */
  ghost function PassFields(entries: seq<Entry>, f: Json -> Json, max: nat): seq<Entry> {
    MarkFields(MapFields(entries[..Min(|entries|, max)], f), |entries|, max)
  }

  ghost function MapFields(entries: seq<Entry>, f: Json -> Json): (r: seq<Entry>)
    ensures |r| == |entries|
    ensures forall i :: 0 <= i < |r| ==> r[i] == Entry(entries[i].key, f(entries[i].value))
  {
    if entries == [] then [] else [Entry(entries[0].key, f(entries[0].value))] + MapFields(entries[1..], f)
  }

  lemma {:induction false} CompactIsPass(entries: seq<Entry>, depth: nat, tight: bool)
    requires depth < MaxDepth(tight)
    ensures Compact(Obj(entries), depth, tight)
         == Obj(PassFields(entries, v => Compact(v, depth + 1, tight), MaxFields(tight)))
  {
    var n := Min(|entries|, MaxFields(tight));
    assert CompactFields(entries, n, depth + 1, tight)
        == MapFields(entries[..n], v => Compact(v, depth + 1, tight));
  }

  lemma {:induction false} NarrowPassSettles(entries: seq<Entry>, f: Json -> Json, max: nat)
    requires |entries| <= max
    requires forall i :: 0 <= i < |entries| ==> f(f(f(entries[i].value))) == f(f(entries[i].value))
    ensures
      var twice := PassFields(PassFields(entries, f, max), f, max);
      PassFields(twice, f, max) == twice
  {
    assert entries[..|entries|] == entries;
    var once := MapFields(entries, f);
    assert once[..|once|] == once;
    var twice := MapFields(once, f);
    assert twice[..|twice|] == twice;
    assert MapFields(twice, f) == twice;
  }

  lemma {:induction false} ReplacedPassSettles(entries: seq<Entry>, f: Json -> Json, max: nat)
    requires |entries| > max > FieldIndex(MapFields(entries[..max], f), OMITTED_FIELDS)
    requires forall n :: f(Num(n)) == Num(n)
    requires forall i :: 0 <= i < max ==> f(f(f(entries[i].value))) == f(f(entries[i].value))
    ensures
      var twice := PassFields(PassFields(entries, f, max), f, max);
      PassFields(twice, f, max) == twice
  {
    var once := PassFields(entries, f, max);
    assert |once| == max;
    forall i | 0 <= i < max
      ensures f(f(f(once[i].value))) == f(f(once[i].value))
      ensures f(f(once[i].value)) == f(once[i].value)
    {
    }
    assert once[..|once|] == once;
    var twice := MapFields(once, f);
    assert twice[..|twice|] == twice;
    assert MapFields(twice, f) == twice;
  }

  lemma {:induction false} AppendedPassSettles(entries: seq<Entry>, f: Json -> Json, max: nat)
    requires |entries| > max == FieldIndex(MapFields(entries[..max], f), OMITTED_FIELDS)
    requires forall i :: 0 <= i < max ==> f(f(f(entries[i].value))) == f(f(entries[i].value))
    ensures
      var twice := PassFields(PassFields(entries, f, max), f, max);
      PassFields(twice, f, max) == twice
  {
    var kept := MapFields(entries[..max], f);
    var again := MapFields(kept, f);
    AppendedPass(kept, |entries|, f, max);
    assert MapFields(again, f) == again;
    SameKeysSameIndex(kept, again, OMITTED_FIELDS);
    AppendedPass(again, max + 1, f, max);
  }

  /** An object that ends in its own count of omitted fields, seen by the next pass. */
  lemma {:induction false} AppendedPass(kept: seq<Entry>, total: nat, f: Json -> Json, max: nat)
    requires total > max == |kept| == FieldIndex(kept, OMITTED_FIELDS)
    ensures PassFields(MarkFields(kept, total, max), f, max)
         == MapFields(kept, f) + [Entry(OMITTED_FIELDS, Num(1))]
         == MarkFields(MapFields(kept, f), max + 1, max)
  {
    var once := MarkFields(kept, total, max);
    assert once[..max] == kept;
    SameKeysSameIndex(kept, MapFields(kept, f), OMITTED_FIELDS);
  }

  ghost predicate SettlesAt(v: Json, depth: nat, tight: bool) {
    var twice := Compact(Compact(v, depth, tight), depth, tight);
    Compact(twice, depth, tight) == twice
  }

  /** Compaction need not be idempotent, but its second application is always a fixpoint. */
  lemma {:induction false} SecondPassIsFixpoint(v: Json, depth: nat, tight: bool)
    ensures SettlesAt(v, depth, tight)
    decreases v
  {
    match v
    case Arr(items) =>
      if depth < MaxDepth(tight) {
        ArraySettles(items, depth, tight);
      }
    case Obj(entries) =>
      if depth < MaxDepth(tight) {
        ObjectSettles(entries, depth, tight);
      }
    case _ =>
  }

  lemma {:induction false} ArraySettles(items: seq<Json>, depth: nat, tight: bool)
    requires depth < MaxDepth(tight)
    ensures SettlesAt(Arr(items), depth, tight)
    decreases items
  {
    var n := Min(|items|, MaxItems(tight));
    var once := Compact(Arr(items), depth, tight);
    var twice := Compact(once, depth, tight);
    var thrice := Compact(twice, depth, tight);
    forall i | 0 <= i < n
      ensures thrice.items[i] == twice.items[i]
    {
      SecondPassIsFixpoint(items[i], depth + 1, tight);
    }
    assert thrice.items == twice.items;
  }

  lemma {:induction false} ObjectSettles(entries: seq<Entry>, depth: nat, tight: bool)
    requires depth < MaxDepth(tight)
    ensures SettlesAt(Obj(entries), depth, tight)
    decreases entries
  {
    var f := v => Compact(v, depth + 1, tight);
    forall i | 0 <= i < Min(|entries|, MaxFields(tight))
      ensures f(f(f(entries[i].value))) == f(f(entries[i].value))
    {
      SecondPassIsFixpoint(entries[i].value, depth + 1, tight);
    }
    if |entries| <= MaxFields(tight) {
      NarrowPassSettles(entries, f, MaxFields(tight));
    } else {
      if FieldIndex(MapFields(entries[..MaxFields(tight)], f), OMITTED_FIELDS) < MaxFields(tight) {
        ReplacedPassSettles(entries, f, MaxFields(tight));
      } else {
        AppendedPassSettles(entries, f, MaxFields(tight));
      }
    }
    var once := PassFields(entries, f, MaxFields(tight));
    CompactIsPass(entries, depth, tight);
    CompactIsPass(once, depth, tight);
    CompactIsPass(PassFields(once, f, MaxFields(tight)), depth, tight);
  }

  // ---- When once is enough -----------------------------------------------------------------

  /** The values on which compaction is idempotent.  An array may overflow by at most one item;
      so may an object, unless it already counts its omitted fields among those it keeps. */
  predicate Settled(v: Json, depth: nat, tight: bool)
    decreases v
  {
    match v
    case Arr(items) =>
      depth >= MaxDepth(tight) ||
      (|items| <= MaxItems(tight) + 1 &&
       forall i :: 0 <= i < Min(|items|, MaxItems(tight)) ==> Settled(items[i], depth + 1, tight))
    case Obj(entries) =>
      var max := MaxFields(tight);
      var n := Min(|entries|, max);
      var j := FieldIndex(entries[..n], OMITTED_FIELDS);
      depth >= MaxDepth(tight) ||
      ((|entries| <= max + 1 || j < max) &&
       forall i :: 0 <= i < n ==> (|entries| > max && i == j) || Settled(entries[i].value, depth + 1, tight))
    case _ => true
  }

  ghost predicate FixedBy(f: Json -> Json, v: Json) {
    f(f(v)) == f(v)
  }

  lemma {:induction false} KeptPassIdempotence(entries: seq<Entry>, f: Json -> Json, max: nat)
    requires |entries| <= max
    ensures
      var once := PassFields(entries, f, max);
      PassFields(once, f, max) == once <==> forall i :: 0 <= i < |entries| ==> FixedBy(f, entries[i].value)
  {
    assert entries[..|entries|] == entries;
    var once := MapFields(entries, f);
    assert once[..|once|] == once;
    var twice := MapFields(once, f);
    assert forall i :: 0 <= i < |entries| ==> (twice[i] == once[i] <==> FixedBy(f, entries[i].value));
  }

  lemma {:induction false} ReplacedPassIdempotence(entries: seq<Entry>, f: Json -> Json, max: nat, j: nat)
    requires |entries| > max
    requires j == FieldIndex(entries[..max], OMITTED_FIELDS) < max
    requires forall n :: f(Num(n)) == Num(n)
    ensures
      var once := PassFields(entries, f, max);
      PassFields(once, f, max) == once <==> forall i :: 0 <= i < max ==> i == j || FixedBy(f, entries[i].value)
  {
    SameKeysSameIndex(entries[..max], MapFields(entries[..max], f), OMITTED_FIELDS);
    var once := PassFields(entries, f, max);
    assert |once| == max && once[..|once|] == once;
    var twice := MapFields(once, f);
    forall i | 0 <= i < max
      ensures twice[i] == once[i] <==> i == j || FixedBy(f, entries[i].value)
    {
      assert once[i] == if i == j then Entry(OMITTED_FIELDS, Num(|entries| - max))
                        else Entry(entries[i].key, f(entries[i].value));
    }
  }

  lemma {:induction false} AppendedPassIdempotence(entries: seq<Entry>, f: Json -> Json, max: nat)
    requires |entries| > max
    requires FieldIndex(entries[..max], OMITTED_FIELDS) == max
    ensures
      var once := PassFields(entries, f, max);
      PassFields(once, f, max) == once <==>
        |entries| == max + 1 && forall i :: 0 <= i < max ==> FixedBy(f, entries[i].value)
  {
    var kept := MapFields(entries[..max], f);
    SameKeysSameIndex(entries[..max], kept, OMITTED_FIELDS);
    AppendedPass(kept, |entries|, f, max);
    var once := PassFields(entries, f, max);
    var twice := PassFields(once, f, max);
    assert forall i :: 0 <= i < max ==> (twice[i] == once[i] <==> FixedBy(f, entries[i].value));
    assert twice[max] == once[max] <==> |entries| == max + 1;
  }

  lemma {:induction false} ArrayIdempotence(items: seq<Json>, depth: nat, tight: bool)
    requires depth < MaxDepth(tight)
    ensures
      var once := Compact(Arr(items), depth, tight);
      Compact(once, depth, tight) == once <==>
        (|items| <= MaxItems(tight) + 1 &&
         forall i :: 0 <= i < Min(|items|, MaxItems(tight)) ==>
           Compact(Compact(items[i], depth + 1, tight), depth + 1, tight) == Compact(items[i], depth + 1, tight))
  {
    var n := Min(|items|, MaxItems(tight));
    var once := Compact(Arr(items), depth, tight).items;
    var twice := Compact(Arr(once), depth, tight).items;
    assert forall i :: 0 <= i < n ==> once[i] == Compact(items[i], depth + 1, tight);
    assert forall i :: 0 <= i < n ==> twice[i] == Compact(once[i], depth + 1, tight);
    if |items| > MaxItems(tight) {
      assert twice[n] == once[n] <==> |items| == n + 1;
    }
  }

  lemma {:induction false} ObjectIdempotence(entries: seq<Entry>, depth: nat, tight: bool)
    requires depth < MaxDepth(tight)
    ensures
      var once := Compact(Obj(entries), depth, tight);
      var max := MaxFields(tight);
      var n := Min(|entries|, max);
      var j := FieldIndex(entries[..n], OMITTED_FIELDS);
      Compact(once, depth, tight) == once <==>
        (|entries| <= max + 1 || j < max) &&
        forall i :: 0 <= i < n ==>
          (|entries| > max && i == j) || FixedBy(v => Compact(v, depth + 1, tight), entries[i].value)
  {
    var max := MaxFields(tight);
    var f := v => Compact(v, depth + 1, tight);
    if |entries| <= max {
      KeptPassIdempotence(entries, f, max);
    } else if FieldIndex(entries[..max], OMITTED_FIELDS) < max {
      ReplacedPassIdempotence(entries, f, max, FieldIndex(entries[..max], OMITTED_FIELDS));
    } else {
      AppendedPassIdempotence(entries, f, max);
    }
    CompactIsPass(entries, depth, tight);
    CompactIsPass(PassFields(entries, f, max), depth, tight);
  }

  /** Exactly the settled values reach their fixpoint in one pass. */
  lemma {:induction false} IdempotentIffSettled(v: Json, depth: nat, tight: bool)
    ensures Compact(Compact(v, depth, tight), depth, tight) == Compact(v, depth, tight) <==> Settled(v, depth, tight)
    decreases v
  {
    match v
    case Arr(items) =>
      if depth < MaxDepth(tight) {
        ArrayIdempotence(items, depth, tight);
        forall i | 0 <= i < Min(|items|, MaxItems(tight)) {
          IdempotentIffSettled(items[i], depth + 1, tight);
        }
      }
    case Obj(entries) =>
      if depth < MaxDepth(tight) {
        ObjectIdempotence(entries, depth, tight);
        forall i | 0 <= i < Min(|entries|, MaxFields(tight)) {
          IdempotentIffSettled(entries[i].value, depth + 1, tight);
        }
      }
    case _ =>
  }

  /** Idempotence does fail: an array that overflows by two is cut twice. */
  lemma OverflowByTwoIsCutTwice(tight: bool)
    ensures
      var v := Arr(seq(MaxItems(tight) + 2, _ => Null));
      Compact(Compact(v, 0, tight), 0, tight) != Compact(v, 0, tight)
  {
    IdempotentIffSettled(Arr(seq(MaxItems(tight) + 2, _ => Null)), 0, tight);
  }

  // ---- What survives, and how large it can be ----------------------------------------------

  /** Every limit is respected down to the primitives. */
  predicate WithinLimits(v: Json, depth: nat, tight: bool)
    decreases v
  {
    match v
    case Str(s) => |s| <= MaxText(tight)
    case Arr(items) =>
      depth < MaxDepth(tight) && |items| <= MaxItems(tight) &&
      forall i :: 0 <= i < |items| ==> WithinLimits(items[i], depth + 1, tight)
    case Obj(entries) =>
      depth < MaxDepth(tight) && |entries| <= MaxFields(tight) &&
      forall i :: 0 <= i < |entries| ==> WithinLimits(entries[i].value, depth + 1, tight)
    case _ => true
  }

  lemma {:induction false} WithinLimitsUnchanged(v: Json, depth: nat, tight: bool)
    requires WithinLimits(v, depth, tight)
    ensures Compact(v, depth, tight) == v
    decreases v
  {
    match v
    case Arr(items) =>
      forall i | 0 <= i < |items|
        ensures Compact(items[i], depth + 1, tight) == items[i]
      {
        WithinLimitsUnchanged(items[i], depth + 1, tight);
      }
      assert CompactItems(items, |items|, depth + 1, tight) == items;
    case Obj(entries) =>
      forall i | 0 <= i < |entries|
        ensures Compact(entries[i].value, depth + 1, tight) == entries[i].value
      {
        WithinLimitsUnchanged(entries[i].value, depth + 1, tight);
      }
      assert CompactFields(entries, |entries|, depth + 1, tight) == entries;
    case _ =>
  }

  function Values(v: Json): (r: seq<Json>)
    ensures forall i :: 0 <= i < |r| ==> r[i] < v
  {
    match v
    case Arr(items) => items
    case Obj(entries) => seq(|entries|, i requires 0 <= i < |entries| => entries[i].value)
    case _ => []
  }

  /** The number of values in a tree, the tree itself included. */
  function Nodes(v: Json): (n: nat)
    decreases v, 0
  {
    1 + NodesIn(v, |Values(v)|)
  }

  function NodesIn(v: Json, n: nat): nat
    requires n <= |Values(v)|
    decreases v, 0, n
  {
    if n == 0 then 0 else NodesIn(v, n - 1) + Nodes(Values(v)[n - 1])
  }

  /** `v` nests at most `levels` containers, and none of its strings is longer than `text`. */
  predicate Fits(v: Json, levels: nat, text: nat)
    decreases v
  {
    (v.Str? ==> |v.s| <= text) && (v.Arr? || v.Obj? ==> levels > 0) &&
    forall i :: 0 <= i < |Values(v)| ==> levels > 0 && Fits(Values(v)[i], levels - 1, text)
  }

  function Remaining(depth: nat, tight: bool): nat {
    if depth < MaxDepth(tight) then MaxDepth(tight) - depth else 0
  }

  /** The recurrence that bounds the size of a compacted value by the depth still allowed. */
  function NodeBudget(remaining: nat, tight: bool): (n: nat)
    ensures n >= 3
  {
    if remaining == 0 then 3 else 2 + MaxFields(tight) * NodeBudget(remaining - 1, tight)
  }

  lemma Distribute(n: nat, each: nat)
    requires n > 0
    ensures n * each == (n - 1) * each + each
  {
  }

  lemma Monotone(a: nat, b: nat, each: nat)
    requires a <= b
    ensures a * each <= b * each
  {
  }

  lemma ItemsWithinFields(each: nat, tight: bool)
    requires each > 0
    ensures 3 + MaxItems(tight) * each <= 2 + MaxFields(tight) * each
  {
  }

  lemma {:induction false} SumBound(v: Json, n: nat, each: nat)
    requires n <= |Values(v)|
    requires forall i :: 0 <= i < n ==> Nodes(Values(v)[i]) <= each
    ensures NodesIn(v, n) <= n * each
  {
    if n > 0 {
      SumBound(v, n - 1, each);
      Distribute(n, each);
    }
  }

  lemma {:induction false} MarkersFit(omitted: nat, levels: nat, text: nat)
    requires levels > 0 && text >= 12
    ensures Nodes(DEPTH_MARKER) == 3 && Nodes(ItemsMarker(omitted)) == 2
    ensures Fits(DEPTH_MARKER, levels, text) && Fits(ItemsMarker(omitted), levels, text)
  {
    assert NodesIn(DEPTH_MARKER, 0) == 0 && NodesIn(DEPTH_MARKER, 1) == 1 && NodesIn(DEPTH_MARKER, 2) == 2;
    assert Values(ItemsMarker(omitted))[0] == Num(omitted);
    assert Nodes(Num(omitted)) == 1 + NodesIn(Num(omitted), 0);
    assert NodesIn(ItemsMarker(omitted), 0) == 0;
    assert NodesIn(ItemsMarker(omitted), 1) == 1;
  }

  ghost predicate Small(v: Json, levels: nat, text: nat, size: nat) {
    Fits(v, levels, text) && Nodes(v) <= size
  }

  lemma {:induction false} ArrayIsSmall(kept: seq<Json>, total: nat, max: nat, levels: nat, text: nat, each: nat)
    requires |kept| == Min(total, max) && levels > 0 && text >= 12
    requires forall i :: 0 <= i < |kept| ==> Small(kept[i], levels, text, each)
    ensures Small(Arr(MarkItems(kept, total, max)), levels + 1, text, 3 + max * each)
  {
    var out := Arr(MarkItems(kept, total, max));
    if total > max {
      MarkersFit(total - max, levels, text);
    }
    forall i | 0 <= i < |out.items|
      ensures Small(Values(out)[i], levels, text, if i < |kept| then each else 2)
    {
      assert out.items[i] == if i < |kept| then kept[i] else ItemsMarker(total - max);
    }
    SumBound(out, |kept|, each);
    Monotone(|kept|, max, each);
  }

  lemma MarkedField(kept: seq<Entry>, total: nat, max: nat, i: nat)
    requires i < |MarkFields(kept, total, max)|
    ensures
      var v := Values(Obj(MarkFields(kept, total, max)))[i];
      v == Num(total - max) || (i < |kept| && v == kept[i].value)
    ensures |MarkFields(kept, total, max)| <= |kept| + if total > max then 1 else 0
  {
  }

  lemma {:induction false} ObjectIsSmall(kept: seq<Entry>, total: nat, max: nat, levels: nat, text: nat, each: nat)
    requires |kept| == Min(total, max) && levels > 0 && each > 0
    requires forall i :: 0 <= i < |kept| ==> Small(kept[i].value, levels, text, each)
    ensures Small(Obj(MarkFields(kept, total, max)), levels + 1, text, 2 + max * each)
  {
    var out := Obj(MarkFields(kept, total, max));
    NumIsSmall(total - max, levels, text);
    forall i | 0 <= i < |out.entries|
      ensures Small(Values(out)[i], levels, text, if i < |kept| then each else 1)
    {
      MarkedField(kept, total, max, i);
    }
    SumBound(out, |kept|, each);
    Monotone(|kept|, max, each);
  }

  lemma {:induction false} NumIsSmall(n: int, levels: nat, text: nat)
    ensures Small(Num(n), levels, text, 1)
  {
    assert NodesIn(Num(n), 0) == 0;
  }

  ghost predicate Bounded(v: Json, depth: nat, tight: bool) {
    Small(Compact(v, depth, tight), Remaining(depth, tight) + 1, MaxText(tight),
          NodeBudget(Remaining(depth, tight), tight))
  }

  lemma ItemsWithinBudget(v: Json, levels: nat, text: nat, left: nat, tight: bool)
    requires left > 0 && Small(v, levels, text, 3 + MaxItems(tight) * NodeBudget(left - 1, tight))
    ensures Small(v, levels, text, NodeBudget(left, tight))
  {
    ItemsWithinFields(NodeBudget(left - 1, tight), tight);
  }

  lemma FieldsWithinBudget(v: Json, levels: nat, text: nat, left: nat, tight: bool)
    requires left > 0 && Small(v, levels, text, 2 + MaxFields(tight) * NodeBudget(left - 1, tight))
    ensures Small(v, levels, text, NodeBudget(left, tight))
  {
  }

  lemma ItemsBoundArray(items: seq<Json>, depth: nat, tight: bool)
    requires depth < MaxDepth(tight)
    requires forall i :: 0 <= i < Min(|items|, MaxItems(tight)) ==> Bounded(items[i], depth + 1, tight)
    ensures Bounded(Arr(items), depth, tight)
  {
    var left, text := Remaining(depth, tight), MaxText(tight);
    var kept := CompactItems(items, Min(|items|, MaxItems(tight)), depth + 1, tight);
    forall i | 0 <= i < |kept|
      ensures Small(kept[i], left, text, NodeBudget(left - 1, tight))
    {
      assert Bounded(items[i], depth + 1, tight);
    }
    MarkedItemsAreSmall(kept, |items|, left, tight);
    assert Compact(Arr(items), depth, tight) == Arr(MarkItems(kept, |items|, MaxItems(tight)));
  }

  lemma MarkedItemsAreSmall(kept: seq<Json>, total: nat, left: nat, tight: bool)
    requires |kept| == Min(total, MaxItems(tight)) && left > 0
    requires forall i :: 0 <= i < |kept| ==> Small(kept[i], left, MaxText(tight), NodeBudget(left - 1, tight))
    ensures Small(Arr(MarkItems(kept, total, MaxItems(tight))), left + 1, MaxText(tight), NodeBudget(left, tight))
  {
    ArrayIsSmall(kept, total, MaxItems(tight), left, MaxText(tight), NodeBudget(left - 1, tight));
    ItemsWithinBudget(Arr(MarkItems(kept, total, MaxItems(tight))), left + 1, MaxText(tight), left, tight);
  }

  lemma FieldsBoundObject(entries: seq<Entry>, depth: nat, tight: bool)
    requires depth < MaxDepth(tight)
    requires forall i :: 0 <= i < Min(|entries|, MaxFields(tight)) ==> Bounded(entries[i].value, depth + 1, tight)
    ensures Bounded(Obj(entries), depth, tight)
  {
    var left, text := Remaining(depth, tight), MaxText(tight);
    var kept := CompactFields(entries, Min(|entries|, MaxFields(tight)), depth + 1, tight);
    forall i | 0 <= i < |kept|
      ensures Small(kept[i].value, left, text, NodeBudget(left - 1, tight))
    {
      assert Bounded(entries[i].value, depth + 1, tight);
    }
    MarkedFieldsAreSmall(kept, |entries|, left, tight);
    assert Compact(Obj(entries), depth, tight) == Obj(MarkFields(kept, |entries|, MaxFields(tight)));
  }

  lemma MarkedFieldsAreSmall(kept: seq<Entry>, total: nat, left: nat, tight: bool)
    requires |kept| == Min(total, MaxFields(tight)) && left > 0
    requires forall i :: 0 <= i < |kept| ==> Small(kept[i].value, left, MaxText(tight), NodeBudget(left - 1, tight))
    ensures Small(Obj(MarkFields(kept, total, MaxFields(tight))), left + 1, MaxText(tight), NodeBudget(left, tight))
  {
    ObjectIsSmall(kept, total, MaxFields(tight), left, MaxText(tight), NodeBudget(left - 1, tight));
    FieldsWithinBudget(Obj(MarkFields(kept, total, MaxFields(tight))), left + 1, MaxText(tight), left, tight);
  }

  /** Whatever comes in, what goes out is bounded in nesting, in string length and in size. */
  lemma {:induction false} CompactIsBounded(v: Json, depth: nat, tight: bool)
    ensures Bounded(v, depth, tight)
    decreases v
  {
    if v.Arr? && depth < MaxDepth(tight) {
      forall i | 0 <= i < Min(|v.items|, MaxItems(tight))
        ensures Bounded(v.items[i], depth + 1, tight)
      {
        CompactIsBounded(v.items[i], depth + 1, tight);
      }
      ItemsBoundArray(v.items, depth, tight);
    } else if v.Obj? && depth < MaxDepth(tight) {
      forall i | 0 <= i < Min(|v.entries|, MaxFields(tight))
        ensures Bounded(v.entries[i].value, depth + 1, tight)
      {
        CompactIsBounded(v.entries[i].value, depth + 1, tight);
      }
      FieldsBoundObject(v.entries, depth, tight);
    } else {
      MarkersFit(0, Remaining(depth, tight) + 1, MaxText(tight));
    }
  }
}
