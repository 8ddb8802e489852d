/** The CBOR items that cbor_skip steps over, as a grammar, and cbor_skip itself.
    The main result is SkipRecognisesItems: the skipper accepts exactly the
    encodings of the grammar's items and consumes exactly one of them. */
module CborItem {
  import opened Bytes
  import opened CborHead

  const SKIP_MAX_DEPTH := 8
  const MAX_CT_LEN := 512 * 1024

  /** An item, with the form of each of its heads. A map holds its keys and values
      alternately, so its list has even length. */
  datatype Item =
    | UIntItem(w: Width, v: nat)
    | BytesItem(w: Width, data: seq<byte>)
    | TextItem(w: Width, data: seq<byte>)
    | ArrayItem(w: Width, items: Items)
    | MapItem(w: Width, items: Items)

  datatype Items = Done | More(first: Item, rest: Items) {
    function Length(): nat {
      if Done? then 0 else 1 + rest.Length()
    }
  }

  /** The item's heads can carry their values, and no map claims more pairs than
      the skipper is willing to count. */
  predicate Legal(i: Item) {
    match i
    case UIntItem(w, v) => w.Fits(v)
    case BytesItem(w, data) => w.Fits(|data|)
    case TextItem(w, data) => w.Fits(|data|)
    case ArrayItem(w, items) => w.Fits(items.Length()) && AllLegal(items)
    case MapItem(w, items) =>
      var n := items.Length();
      n % 2 == 0 && w.Fits(n / 2) && n / 2 <= MAX_CT_LEN / 2 && AllLegal(items)
  }

  predicate AllLegal(items: Items) {
    items.Done? || (Legal(items.first) && AllLegal(items.rest))
  }

  function ItemBytes(i: Item): (s: seq<byte>)
    requires Legal(i)
    ensures |s| >= 1
  {
    match i
    case UIntItem(w, v) => HeadBytes(UINT, w, v)
    case BytesItem(w, data) => HeadBytes(BYTES, w, |data|) + data
    case TextItem(w, data) => HeadBytes(TEXT, w, |data|) + data
    case ArrayItem(w, items) => HeadBytes(ARRAY, w, items.Length()) + ItemsBytes(items)
    case MapItem(w, items) => HeadBytes(MAP, w, items.Length() / 2) + ItemsBytes(items)
  }

  function ItemsBytes(items: Items): (s: seq<byte>)
    requires AllLegal(items)
    ensures |s| >= items.Length()
  {
    if items.Done? then [] else ItemBytes(items.first) + ItemsBytes(items.rest)
  }

  /** Nesting below the item itself: 0 for a scalar or an empty container. */
  function Height(i: Item): nat {
    match i
    case ArrayItem(_, items) => ListHeight(items)
    case MapItem(_, items) => ListHeight(items)
    case _ => 0
  }

  function ListHeight(items: Items): nat {
    if items.Done? then 0
    else
      var a, b := 1 + Height(items.first), ListHeight(items.rest);
      if a < b then b else a
  }

  /** An item the skipper is able to step over when it starts at `depth`. */
  predicate Skippable(i: Item, depth: nat) {
    Legal(i) && depth + Height(i) <= SKIP_MAX_DEPTH
  }

  predicate AllSkippable(items: Items, depth: nat) {
    AllLegal(items) && (items.More? ==> depth + ListHeight(items) <= SKIP_MAX_DEPTH + 1)
  }

  function Room(depth: nat): nat {
    if depth > SKIP_MAX_DEPTH then 0 else SKIP_MAX_DEPTH + 1 - depth
  }

  /** cbor_skip, as the number of bytes the item at `pos` takes. */
  function Skip(buf: seq<byte>, pos: nat, depth: nat): (r: Result<nat>)
    ensures r.Ok? ==> r.value >= 1 && pos + r.value <= |buf|
    ensures r.Err? ==> r.error == ErrCbor
    decreases Room(depth), 0, 0
  {
    if depth > SKIP_MAX_DEPTH then Err(ErrCbor)
    else
      var h :- ReadHead(buf, pos);
      if h.major == BYTES || h.major == TEXT then
        if h.size + h.value > |buf| - pos then Err(ErrCbor) else Ok(h.size + h.value)
      else if h.major == UINT then Ok(h.size)
      else if h.major == ARRAY then
        var n :- SkipMany(buf, pos + h.size, h.value, depth + 1);
        Ok(h.size + n)
      else if h.major == MAP then
        if h.value > MAX_CT_LEN / 2 then Err(ErrCbor)
        else
          var n :- SkipMany(buf, pos + h.size, 2 * h.value, depth + 1);
          Ok(h.size + n)
      else Err(ErrCbor)
  }

  /** `count` items in a row. */
  function SkipMany(buf: seq<byte>, pos: nat, count: nat, depth: nat): (r: Result<nat>)
    requires pos <= |buf|
    ensures r.Ok? ==> r.value >= count && pos + r.value <= |buf|
    ensures r.Err? ==> r.error == ErrCbor
    decreases Room(depth), 1, count
  {
    if count == 0 then Ok(0)
    else
      var n :- Skip(buf, pos, depth);
      var m :- SkipMany(buf, pos + n, count - 1, depth);
      Ok(n + m)
  }

  predicate IsContainer(h: Head) {
    h.major == ARRAY || (h.major == MAP && h.value <= MAX_CT_LEN / 2)
  }

  /** The loop bound: val items of an array, 2*val of a map. */
  function Children(h: Head): nat {
    if h.major == ARRAY then h.value else 2 * h.value
  }

  lemma SkipOfContainer(buf: seq<byte>, pos: nat, depth: nat)
    requires depth <= SKIP_MAX_DEPTH && ReadHead(buf, pos).Ok? && IsContainer(ReadHead(buf, pos).value)
    ensures
      var h := ReadHead(buf, pos).value;
      var inner := SkipMany(buf, pos + h.size, Children(h), depth + 1);
      Skip(buf, pos, depth) == if inner.Ok? then Ok(h.size + inner.value) else inner
  {
    hide ReadHead, SkipMany;
  }

  /** Every legal item of small enough height is stepped over, exactly. */
  lemma {:induction false} SkipsEveryItem(buf: seq<byte>, pos: nat, depth: nat, i: Item)
    requires Skippable(i, depth) && At(buf, pos, ItemBytes(i))
    ensures Skip(buf, pos, depth) == Ok(|ItemBytes(i)|)
    decreases i, 1
  {
    hide Skip, ReadHead, HeadBytes;
    match i
    case UIntItem(w, v) => SkipsUInt(buf, pos, depth, w, v);
    case BytesItem(w, data) => SkipsString(buf, pos, depth, BYTES, w, data);
    case TextItem(w, data) => SkipsString(buf, pos, depth, TEXT, w, data);
    case ArrayItem(w, items) => SkipsContainer(buf, pos, depth, ARRAY, w, items.Length(), items);
    case MapItem(w, items) => SkipsContainer(buf, pos, depth, MAP, w, items.Length() / 2, items);
  }

  lemma SkipsUInt(buf: seq<byte>, pos: nat, depth: nat, w: Width, v: nat)
    requires depth <= SKIP_MAX_DEPTH && w.Fits(v) && At(buf, pos, HeadBytes(UINT, w, v))
    ensures Skip(buf, pos, depth) == Ok(w.Size())
  {
    hide ReadHead, HeadBytes;
    ReadsEveryForm(buf, pos, UINT, w, v);
  }

  lemma SkipsString(buf: seq<byte>, pos: nat, depth: nat, major: nat, w: Width, data: seq<byte>)
    requires depth <= SKIP_MAX_DEPTH && (major == BYTES || major == TEXT) && w.Fits(|data|)
    requires At(buf, pos, HeadBytes(major, w, |data|) + data)
    ensures Skip(buf, pos, depth) == Ok(w.Size() + |data|)
  {
    hide ReadHead, HeadBytes;
    AtConcat(buf, pos, HeadBytes(major, w, |data|), data);
    ReadsEveryForm(buf, pos, major, w, |data|);
  }

  lemma {:induction false} SkipsContainer(
      buf: seq<byte>, pos: nat, depth: nat, major: nat, w: Width, n: nat, items: Items)
    requires AllLegal(items) && depth + ListHeight(items) <= SKIP_MAX_DEPTH
    requires (major == ARRAY && n == items.Length())
          || (major == MAP && 2 * n == items.Length() && n <= MAX_CT_LEN / 2)
    requires w.Fits(n) && At(buf, pos, HeadBytes(major, w, n) + ItemsBytes(items))
    ensures Skip(buf, pos, depth) == Ok(w.Size() + |ItemsBytes(items)|)
    decreases items, 2
  {
    hide ReadHead, HeadBytes, Skip, SkipMany, At, ItemsBytes;
    AtConcat(buf, pos, HeadBytes(major, w, n), ItemsBytes(items));
    ReadsEveryForm(buf, pos, major, w, n);
    SkipOfContainer(buf, pos, depth);
    SkipsEveryList(buf, pos + w.Size(), depth + 1, items);
  }

  lemma {:induction false} SkipsEveryList(buf: seq<byte>, pos: nat, depth: nat, items: Items)
    requires AllSkippable(items, depth) && At(buf, pos, ItemsBytes(items))
    ensures SkipMany(buf, pos, items.Length(), depth) == Ok(|ItemsBytes(items)|)
    decreases items, 1
  {
    hide Skip, At, ItemBytes, Legal, Height;
    if items.More? {
      AtConcat(buf, pos, ItemBytes(items.first), ItemsBytes(items.rest));
      SkipsEveryItem(buf, pos, depth, items.first);
      SkipsEveryList(buf, pos + |ItemBytes(items.first)|, depth, items.rest);
    }
  }

  lemma SkipsOnlyStrings(buf: seq<byte>, pos: nat, depth: nat)
    requires Skip(buf, pos, depth).Ok? && ReadHead(buf, pos).value.major in {BYTES, TEXT}
    ensures
      var h, w := ReadHead(buf, pos).value, WidthAt(buf, pos);
      && Skip(buf, pos, depth) == Ok(h.size + h.value) && w.Fits(h.value) && w.Size() == h.size
      && At(buf, pos, HeadBytes(h.major, w, h.value) + buf[pos + h.size..pos + h.size + h.value])
  {
    hide ReadHead, HeadBytes;
    var h, w := ReadHead(buf, pos).value, WidthAt(buf, pos);
    ReadsOnlyHeads(buf, pos);
    AtConcat(buf, pos, HeadBytes(h.major, w, h.value), buf[pos + h.size..pos + h.size + h.value]);
  }

  /** Whatever is stepped over is such an item; the lemma finds it. */
  lemma {:induction false} SkipsOnlyItems(buf: seq<byte>, pos: nat, depth: nat) returns (i: Item)
    requires Skip(buf, pos, depth).Ok?
    ensures Skippable(i, depth) && At(buf, pos, ItemBytes(i))
    ensures |ItemBytes(i)| == Skip(buf, pos, depth).value
    decreases Room(depth), 2, 0
  {
    hide ReadHead, HeadBytes, SkipMany, At;
    var h, w := ReadHead(buf, pos).value, WidthAt(buf, pos);
    if h.major == BYTES || h.major == TEXT {
      var data := buf[pos + h.size..pos + h.size + h.value];
      SkipsOnlyStrings(buf, pos, depth);
      i := if h.major == BYTES then BytesItem(w, data) else TextItem(w, data);
    } else if h.major == UINT {
      ReadsOnlyHeads(buf, pos);
      i := UIntItem(w, h.value);
    } else {
      var items := SkipsOnlyContainers(buf, pos, depth);
      i := if h.major == ARRAY then ArrayItem(w, items) else MapItem(w, items);
    }
  }

  lemma {:induction false} SkipsOnlyContainers(buf: seq<byte>, pos: nat, depth: nat) returns (items: Items)
    requires Skip(buf, pos, depth).Ok? && ReadHead(buf, pos).value.major !in {UINT, BYTES, TEXT}
    ensures
      var h, w := ReadHead(buf, pos).value, WidthAt(buf, pos);
      && IsContainer(h) && w.Fits(h.value)
      && AllSkippable(items, depth + 1) && items.Length() == Children(h)
      && At(buf, pos, HeadBytes(h.major, w, h.value) + ItemsBytes(items))
      && Skip(buf, pos, depth) == Ok(w.Size() + |ItemsBytes(items)|)
    decreases Room(depth), 1, 0
  {
    hide ReadHead, HeadBytes, SkipMany, At;
    var h, w := ReadHead(buf, pos).value, WidthAt(buf, pos);
    ReadsOnlyHeads(buf, pos);
    items := SkipsOnlyLists(buf, pos + h.size, Children(h), depth + 1);
    AtConcat(buf, pos, HeadBytes(h.major, w, h.value), ItemsBytes(items));
  }

  lemma {:induction false} SkipsOnlyLists(buf: seq<byte>, pos: nat, count: nat, depth: nat) returns (items: Items)
    requires pos <= |buf| && SkipMany(buf, pos, count, depth).Ok? && depth >= 1
    ensures AllSkippable(items, depth) && items.Length() == count && At(buf, pos, ItemsBytes(items))
    ensures |ItemsBytes(items)| == SkipMany(buf, pos, count, depth).value
    decreases Room(depth), 3, count
  {
    hide Skip, At, ItemBytes;
    NothingStandsAnywhere(buf, pos);
    if count == 0 {
      items := Done;
    } else {
      var first := SkipsOnlyItems(buf, pos, depth);
      var rest := SkipsOnlyLists(buf, pos + |ItemBytes(first)|, count - 1, depth);
      AtConcat(buf, pos, ItemBytes(first), ItemsBytes(rest));
      items := More(first, rest);
    }
  }

  ghost predicate ItemAt(buf: seq<byte>, pos: nat, depth: nat, n: nat) {
    exists i :: Skippable(i, depth) && n == |ItemBytes(i)| && At(buf, pos, ItemBytes(i))
  }

  /** cbor_skip succeeds with `n` exactly when an item of the grammar, of height at
      most 8 - depth, stands at `pos` and takes `n` bytes. */
  lemma SkipRecognisesItems(buf: seq<byte>, pos: nat, depth: nat, n: nat)
    ensures Skip(buf, pos, depth) == Ok(n) <==> ItemAt(buf, pos, depth, n)
  {
    if Skip(buf, pos, depth) == Ok(n) {
      var i := SkipsOnlyItems(buf, pos, depth);
      assert Skippable(i, depth);
    }
    if ItemAt(buf, pos, depth, n) {
      var i :| Skippable(i, depth) && n == |ItemBytes(i)| && At(buf, pos, ItemBytes(i));
      SkipsEveryItem(buf, pos, depth, i);
    }
  }

  /** An item of the format itself: heads can carry their values, and nothing else. */
  predicate WellFormed(i: Item) {
    match i
    case UIntItem(w, v) => w.Fits(v)
    case BytesItem(w, data) => w.Fits(|data|)
    case TextItem(w, data) => w.Fits(|data|)
    case ArrayItem(w, items) => w.Fits(items.Length()) && AllWellFormed(items)
    case MapItem(w, items) =>
      items.Length() % 2 == 0 && w.Fits(items.Length() / 2) && AllWellFormed(items)
  }

  predicate AllWellFormed(items: Items) {
    items.Done? || (WellFormed(items.first) && AllWellFormed(items.rest))
  }

  function WireBytes(i: Item): (s: seq<byte>)
    requires WellFormed(i)
    ensures |s| >= 1
  {
    match i
    case UIntItem(w, v) => HeadBytes(UINT, w, v)
    case BytesItem(w, data) => HeadBytes(BYTES, w, |data|) + data
    case TextItem(w, data) => HeadBytes(TEXT, w, |data|) + data
    case ArrayItem(w, items) => HeadBytes(ARRAY, w, items.Length()) + AllWireBytes(items)
    case MapItem(w, items) => HeadBytes(MAP, w, items.Length() / 2) + AllWireBytes(items)
  }

  function AllWireBytes(items: Items): (s: seq<byte>)
    requires AllWellFormed(items)
    ensures |s| >= items.Length()
  {
    if items.Done? then [] else WireBytes(items.first) + AllWireBytes(items.rest)
  }

  /** The pair-count guard turns nothing away that a payload could hold: an item of any
      nesting that takes at most 512 KB is one of the skipper's. */
  lemma {:induction false} PairGuardIsHarmless(i: Item)
    requires WellFormed(i) && |WireBytes(i)| <= MAX_CT_LEN
    ensures Legal(i) && ItemBytes(i) == WireBytes(i)
  {
    hide HeadBytes;
    match i
    case ArrayItem(_, items) => PairGuardIsHarmlessInside(items);
    case MapItem(_, items) => PairGuardIsHarmlessInside(items);
    case _ =>
  }

  lemma {:induction false} PairGuardIsHarmlessInside(items: Items)
    requires AllWellFormed(items) && |AllWireBytes(items)| <= MAX_CT_LEN
    ensures AllLegal(items) && ItemsBytes(items) == AllWireBytes(items)
  {
    if items.More? {
      PairGuardIsHarmless(items.first);
      PairGuardIsHarmlessInside(items.rest);
    }
  }

  /** So the skipper steps over every item of the format that fits a payload and is
      nested at most 8 deep. */
  lemma SkipsEveryFittingItem(buf: seq<byte>, pos: nat, depth: nat, i: Item)
    requires WellFormed(i) && |WireBytes(i)| <= MAX_CT_LEN && depth + Height(i) <= SKIP_MAX_DEPTH
    requires At(buf, pos, WireBytes(i))
    ensures Skip(buf, pos, depth) == Ok(|WireBytes(i)|)
  {
    hide Skip, Height, WellFormed, Legal, ItemBytes, WireBytes, At;
    PairGuardIsHarmless(i);
    SkipsEveryItem(buf, pos, depth, i);
  }

  lemma SkipManyStep(buf: seq<byte>, pos: nat, count: nat, depth: nat)
    requires pos <= |buf|
    ensures SkipMany(buf, pos, 0, depth) == Ok(0)
    ensures count > 0 ==>
      var first := Skip(buf, pos, depth);
      SkipMany(buf, pos, count, depth) ==
        if first.Err? then first
        else
          var rest := SkipMany(buf, pos + first.value, count - 1, depth);
          if rest.Err? then rest else Ok(first.value + rest.value)
  {
    hide Skip;
  }

  /** cbor_skip: recursion around a loop. `calls` counts its invocations: at most
      one per byte consumed when it succeeds, and never more than the bytes that
      remain plus the nesting limit, whatever counts the input claims. */
  method CborSkip(buf: seq<byte>, pos: nat, depth: nat) returns (r: Result<nat>, ghost calls: nat)
    ensures r == Skip(buf, pos, depth)
    ensures r.Ok? ==> calls <= r.value
    ensures pos <= |buf| && depth <= SKIP_MAX_DEPTH + 1 ==> calls <= |buf| - pos + SKIP_MAX_DEPTH + 2 - depth
    decreases Room(depth), 1
  {
    hide ReadHead, SkipMany;
    calls := 1;
    if depth > SKIP_MAX_DEPTH {
      return Err(ErrCbor), calls;
    }
    var head := ReadHead(buf, pos);
    if head.Err? {
      return head.PropagateFailure(), calls;
    }
    var h := head.value;
    if h.major == BYTES || h.major == TEXT {
      if h.size + h.value > |buf| - pos {
        return Err(ErrCbor), calls;
      }
      return Ok(h.size + h.value), calls;
    } else if h.major == UINT {
      return Ok(h.size), calls;
    } else if h.major == ARRAY || h.major == MAP {
      if h.major == MAP && h.value > MAX_CT_LEN / 2 {
        return Err(ErrCbor), calls;
      }
      SkipOfContainer(buf, pos, depth);
      r, calls := SkipChildren(buf, pos, h, depth);
    } else {
      return Err(ErrCbor), calls;
    }
  }

  /** The item loop of cbor_skip's ARRAY and MAP branches. */
  method SkipChildren(buf: seq<byte>, pos: nat, h: Head, depth: nat) returns (r: Result<nat>, ghost calls: nat)
    requires depth <= SKIP_MAX_DEPTH && h.size >= 1 && pos + h.size <= |buf|
    ensures
      var inner := SkipMany(buf, pos + h.size, Children(h), depth + 1);
      r == if inner.Ok? then Ok(h.size + inner.value) else inner
    ensures r.Ok? ==> calls <= r.value
    ensures calls <= |buf| - pos + SKIP_MAX_DEPTH + 2 - depth
    decreases Room(depth), 0
  {
    hide Skip, SkipMany;
    calls := 1;
    var count := Children(h);
    var cur := pos + h.size;
    ghost var whole := SkipMany(buf, cur, count, depth + 1);
    for i := 0 to count
      invariant pos + h.size <= cur <= |buf|
      invariant calls <= cur - pos
      invariant var rest := SkipMany(buf, cur, count - i, depth + 1);
                whole == if rest.Ok? then Ok(cur - (pos + h.size) + rest.value) else rest
    {
      SkipManyStep(buf, cur, count - i, depth + 1);
      var n, more := CborSkip(buf, cur, depth + 1);
      calls := calls + more;
      if n.Err? {
        return n, calls;
      }
      cur := cur + n.value;
    }
    SkipManyStep(buf, cur, 0, depth + 1);
    return Ok(cur - pos), calls;
  }
}
