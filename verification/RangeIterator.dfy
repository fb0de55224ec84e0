/** Range iteration: byte-wise key order, the native bounded cursor and the option
resolution in front of it. */
module RangeIterator {
  import opened Wrappers
  import opened Bytes

  type Key = seq<byte>

  // ---- Key order

  /** Byte-wise lexicographic order, a proper prefix first. */
  predicate Less(a: Key, b: Key) {
    b != [] && (a == [] || a[0] < b[0] || (a[0] == b[0] && Less(a[1..], b[1..])))
  }

  lemma {:induction false} LessTotal(a: Key, b: Key)
    ensures !(Less(a, b) && Less(b, a))
    ensures Less(a, b) || Less(b, a) <==> a != b
    decreases |a|
  {
    if a != [] && b != [] && a[0] == b[0] {
      LessTotal(a[1..], b[1..]);
      assert a == [a[0]] + a[1..] && b == [b[0]] + b[1..];
    }
  }

  /** The trick behind an inclusive end: the keys below `e` followed by a zero byte
  are exactly the keys up to `e`. */
  lemma {:induction false} InclusiveEnd(k: Key, e: Key)
    ensures Less(k, e + [0]) <==> !Less(e, k)
    decreases |e|
  {
    var bound := e + [0];
    if e == [] {
      if k != [] { assert !Less(k[1..], bound[1..]); }
    } else if k != [] && k[0] == e[0] {
      InclusiveEnd(k[1..], e[1..]);
      assert bound[1..] == e[1..] + [0];
    }
  }

  predicate Sorted(keys: seq<Key>) { forall i, j :: 0 <= i < j < |keys| ==> Less(keys[i], keys[j]) }

  // ---- Bounds

  datatype Bounds = Bounds(
    start: Option<Key>, end: Option<Key>, exclusiveStart: bool, inclusiveEnd: bool, reverse: bool)

  /** What the flags say a range holds. */
  predicate Allowed(b: Bounds, k: Key) {
    && (b.start.Some? ==> !Less(k, b.start.value) && (b.exclusiveStart ==> k != b.start.value))
    && (b.end.Some? ==> !Less(b.end.value, k) && (!b.inclusiveEnd ==> k != b.end.value))
  }

  /** What the store is told: an inclusive lower and an exclusive upper bound. */
  predicate InBounds(lower: Option<Key>, upper: Option<Key>, k: Key) {
    (lower.Some? ==> !Less(k, lower.value)) && (upper.Some? ==> Less(k, upper.value))
  }

  function Upper(b: Bounds): Option<Key> {
    match b.end
    case None => None
    case Some(e) => Some(if b.inclusiveEnd then e + [0] else e)
  }

  function Keep(p: Key -> bool, keys: seq<Key>): seq<Key> {
    if keys == [] then []
    else Keep(p, keys[..|keys| - 1]) + (if p(keys[|keys| - 1]) then [keys[|keys| - 1]] else [])
  }

  lemma {:induction false} KeepHolds(p: Key -> bool, keys: seq<Key>)
    ensures forall k :: k in Keep(p, keys) <==> k in keys && p(k)
    decreases |keys|
  {
    if keys != [] {
      KeepHolds(p, keys[..|keys| - 1]);
      assert keys == keys[..|keys| - 1] + [keys[|keys| - 1]];
    }
  }

  lemma {:induction false} KeepSorted(p: Key -> bool, keys: seq<Key>)
    requires Sorted(keys)
    ensures Sorted(Keep(p, keys))
    decreases |keys|
  {
    if keys != [] {
      var front, last := keys[..|keys| - 1], keys[|keys| - 1];
      KeepSorted(p, front);
      KeepHolds(p, front);
      forall k | k in Keep(p, front) ensures Less(k, last) {
        var i :| 0 <= i < |front| && front[i] == k;
        assert Less(keys[i], keys[|keys| - 1]);
      }
    }
  }

  lemma {:induction false} KeepTwice(p: Key -> bool, q: Key -> bool, r: Key -> bool, keys: seq<Key>)
    requires forall k :: r(k) <==> p(k) && q(k)
    ensures Keep(r, keys) == Keep(q, Keep(p, keys))
    decreases |keys|
  {
    if keys != [] {
      var front, last := keys[..|keys| - 1], keys[|keys| - 1];
      KeepTwice(p, q, r, front);
      var kept := Keep(p, keys);
      if p(last) { assert kept[..|kept| - 1] == Keep(p, front); } else { assert kept == Keep(p, front); }
    }
  }

  lemma {:induction false} KeepAll(p: Key -> bool, keys: seq<Key>)
    requires forall k <- keys :: p(k)
    ensures Keep(p, keys) == keys
    decreases |keys|
  {
    if keys != [] {
      KeepAll(p, keys[..|keys| - 1]);
      assert keys == keys[..|keys| - 1] + [keys[|keys| - 1]];
    }
  }

  lemma {:induction false} KeepTail(p: Key -> bool, keys: seq<Key>)
    requires keys != [] && !p(keys[0]) && forall k <- keys[1..] :: p(k)
    ensures Keep(p, keys) == keys[1..]
    decreases |keys|
  {
    if |keys| > 1 {
      var front := keys[..|keys| - 1];
      assert front[1..] == keys[1..|keys| - 1];
      KeepTail(p, front);
      assert keys[|keys| - 1] in keys[1..] by { assert keys[1..][|keys| - 2] == keys[|keys| - 1]; }
      assert keys[1..] == front[1..] + [keys[|keys| - 1]];
    } else {
      assert keys[..0] == [];
    }
  }

  // ---- The bounded cursor

  function View(b: Bounds, keys: seq<Key>): seq<Key> { Keep(k => InBounds(b.start, Upper(b), k), keys) }

  /** The start key, when it is to be left out and is there: the first of the view. */
  predicate Drops(b: Bounds, view: seq<Key>) {
    b.exclusiveStart && b.start.Some? && view != [] && view[0] == b.start.value
  }

  function Low(b: Bounds, view: seq<Key>): nat { if Drops(b, view) then 1 else 0 }

  /** Leaving the start key out of the view leaves exactly the allowed keys. */
  lemma ViewIsAllowed(b: Bounds, keys: seq<Key>)
    requires Sorted(keys)
    ensures View(b, keys)[Low(b, View(b, keys))..] == Keep(k => Allowed(b, k), keys)
  {
    var view := View(b, keys);
    var inside, outside := (k => InBounds(b.start, Upper(b), k)), (k => !(b.exclusiveStart && b.start == Some(k)));
    forall k ensures Allowed(b, k) <==> inside(k) && outside(k) { BoundsAgree(b, k); }
    KeepTwice(inside, outside, k => Allowed(b, k), keys);
    KeepSorted(inside, keys);
    KeepHolds(inside, keys);
    OnlyFirst(b, view);
    if Drops(b, view) { KeepTail(outside, view); } else { KeepAll(outside, view); }
  }

  lemma BoundsAgree(b: Bounds, k: Key)
    ensures Allowed(b, k) <==> InBounds(b.start, Upper(b), k) && !(b.exclusiveStart && b.start == Some(k))
  {
    if b.end.Some? {
      InclusiveEnd(k, b.end.value);
      LessTotal(k, b.end.value);
    }
  }

  /** Only the first key of a view can be the start key. */
  lemma OnlyFirst(b: Bounds, view: seq<Key>)
    requires Sorted(view) && forall k <- view :: InBounds(b.start, Upper(b), k)
    ensures forall i :: 0 < i < |view| ==> b.start != Some(view[i])
  {
    forall i | 0 < i < |view| ensures b.start != Some(view[i]) {
      assert Less(view[0], view[i]) && view[0] in view;
    }
  }

  function Reversed(s: seq<Key>): (r: seq<Key>)
    ensures |r| == |s|
  {
    if s == [] then [] else [s[|s| - 1]] + Reversed(s[..|s| - 1])
  }

  /** The keys of a range, in the order it is to be walked. */
  function Wanted(b: Bounds, keys: seq<Key>): seq<Key> {
    var kept := Keep(k => Allowed(b, k), keys);
    if b.reverse then Reversed(kept) else kept
  }

  /** What is still to come when the cursor is at `pos` of the view. */
  predicate Places(b: Bounds, view: seq<Key>, pos: int, left: seq<Key>) {
    var low := Low(b, view);
    if b.reverse then -1 <= pos < |view| && left == (if pos < low then [] else Reversed(view[low..pos + 1]))
    else low <= pos <= |view| && left == view[pos..]
  }

  /** Where `seek` leaves the cursor. */
  function Sought(b: Bounds, view: seq<Key>): int {
    var at := if b.reverse then |view| - 1 else 0;
    if !(b.exclusiveStart && b.start.Some? && 0 <= at < |view| && view[at] == b.start.value) then at
    else if b.reverse then at - 1 else at + 1
  }

  lemma SeekPlaces(b: Bounds, keys: seq<Key>)
    requires Sorted(keys)
    ensures Places(b, View(b, keys), Sought(b, View(b, keys)), Wanted(b, keys))
  {
    var view := View(b, keys);
    ViewIsAllowed(b, keys);
    ViewIsOrdered(b, keys);
    assert view[Low(b, view)..|view|] == view[Low(b, view)..];
  }

  /** The two halves of the cursor's invariant. */
  datatype Half = Ordered | Placed

  class Cursor {
    const b: Bounds
    const view: seq<Key>      // what the store's iterator shows between its bounds
    var pos: int              // off the view's ends when it is not valid
    ghost var left: seq<Key>  // the keys still to come, in order

    ghost predicate Has(h: Half)
      reads this
    {
      match h
      case Ordered => Sorted(view) && forall k <- view :: InBounds(b.start, Upper(b), k)
      case Placed => Places(b, view, pos, left)
    }

    ghost predicate Valid()
      reads this
    {
      forall h: Half :: Has(h)
    }

    /** `init` and `seek`. */
    constructor (b: Bounds, keys: seq<Key>)
      requires Sorted(keys)
      ensures Valid() && left == Wanted(b, keys)
    {
      this.b := b;
      var shown := View(b, keys);
      view := shown;
      SeekPlaces(b, keys);
      ViewIsOrdered(b, keys);
      var at := if b.reverse then |shown| - 1 else 0;
      if b.exclusiveStart && b.start.Some? && 0 <= at < |shown| && shown[at] == b.start.value {
        at := if b.reverse then at - 1 else at + 1;
      }
      pos := at;
      left := Wanted(b, keys);
      assert at == Sought(b, shown);
    }

    method Next() returns (r: Option<Key>)
      requires Valid()
      modifies this
      ensures Valid()
      ensures r == if old(left) == [] then None else Some(old(left)[0])
      ensures left == if old(left) == [] then [] else old(left)[1..]
    {
      assert Has(Ordered) && Has(Placed);
      if !(0 <= pos < |view|) { return None; }
      var key := view[pos];
      OnlyFirst(b, view);
      if b.reverse && b.exclusiveStart && b.start == Some(key) {
        // A step back that would leave the range ends it; otherwise it is undone.
        if !(0 <= pos - 1 < |view|) { pos := pos - 1; return None; }
      }
      ghost var low := Low(b, view);
      if b.reverse {
        pos := pos - 1;
        assert view[low..pos + 2][..pos + 1 - low] == view[low..pos + 1];
      } else {
        pos := pos + 1;
      }
      left := left[1..];
      return Some(key);
    }
  }

  lemma ViewIsOrdered(b: Bounds, keys: seq<Key>)
    requires Sorted(keys)
    ensures var view := View(b, keys);
            && Sorted(view) && (forall k <- view :: InBounds(b.start, Upper(b), k))
            && forall i :: 0 < i < |view| ==> b.start != Some(view[i])
  {
    KeepSorted(k => InBounds(b.start, Upper(b), k), keys);
    KeepHolds(k => InBounds(b.start, Upper(b), k), keys);
    OnlyFirst(b, View(b, keys));
  }

  predicate Descending(keys: seq<Key>) { forall i, j :: 0 <= i < j < |keys| ==> Less(keys[j], keys[i]) }

  lemma {:induction false} ReversedAt(s: seq<Key>, i: nat)
    requires i < |s|
    ensures Reversed(s)[i] == s[|s| - 1 - i]
    decreases |s|
  {
    if i > 0 { ReversedAt(s[..|s| - 1], i - 1); }
  }

  /** The wanted keys are exactly the allowed ones, in strict order of the direction. */
  lemma WantedIsOrdered(b: Bounds, keys: seq<Key>)
    requires Sorted(keys)
    ensures if b.reverse then Descending(Wanted(b, keys)) else Sorted(Wanted(b, keys))
    ensures forall k :: k in Wanted(b, keys) <==> k in keys && Allowed(b, k)
  {
    var p := k => Allowed(b, k);
    var kept := Keep(p, keys);
    KeepSorted(p, keys);
    KeepHolds(p, keys);
    if b.reverse {
      forall i | 0 <= i < |kept| ensures Reversed(kept)[i] == kept[|kept| - 1 - i] { ReversedAt(kept, i); }
      forall k | k in kept ensures k in Reversed(kept) {
        var i :| 0 <= i < |kept| && kept[i] == k;
        assert Reversed(kept)[|kept| - 1 - i] == k;
      }
    }
  }

  /** Every key of a range, in the order the cursor gives them: the allowed keys, in
  strict order of the direction. */
  method Collect(b: Bounds, keys: seq<Key>) returns (r: seq<Key>)
    requires Sorted(keys)
    ensures r == Wanted(b, keys)
    ensures if b.reverse then Descending(r) else Sorted(r)
    ensures forall k :: k in r <==> k in keys && Allowed(b, k)
  {
    WantedIsOrdered(b, keys);
    var it := new Cursor(b, keys);
    ghost var all := it.left;
    r := [];
    while true
      invariant it.Valid() && r + it.left == all
      decreases |it.left|
    {
      ghost var before := it.left;
      var k := it.Next();
      if k == None { break; }
      assert before == [before[0]] + before[1..];
      r := r + [k.value];
    }
  }

  // ---- Options

  datatype Options = Options(
    key: Option<Key>, start: Option<Key>, end: Option<Key>, reverse: bool,
    exclusiveStart: Option<bool>, inclusiveEnd: Option<bool>)

  datatype Ranged = Range(keys: seq<Key>) | ZeroLengthKey

  function Or<T>(a: Option<T>, b: T): T { if a.Some? then a.value else b }

  /** The bounds and flags handed to the native iterator. */
  function Resolve(o: Options): Bounds {
    var start, end := if o.key.Some? then o.key else o.start, if o.key.Some? then o.key else o.end;
    if o.reverse then Bounds(end, start, Or(o.exclusiveStart, true), Or(o.inclusiveEnd, true), true)
    else Bounds(start, end, Or(o.exclusiveStart, false), o.key.Some? || Or(o.inclusiveEnd, false), false)
  }

  /** The keys come in strict order of the direction. They are the documented ones
  whenever the range runs forward or its flags allow; a reverse range takes each flag
  for the opposite bound; and the `key` shortcut finds its key, unless the flags of a
  reverse range leave it out. */
  method GetRange(o: Options, keys: seq<Key>) returns (r: Ranged)
    requires Sorted(keys)
    ensures r.ZeroLengthKey? <==> (if o.key.Some? then o.key == Some([]) else o.start == Some([]) || o.end == Some([]))
    ensures r.Range? ==> r.keys == Wanted(Resolve(o), keys)
    ensures r.Range? ==> if o.reverse then Descending(r.keys) else Sorted(r.keys)
    ensures r.Range? && o.key == None && (!o.reverse || ReverseAsDocumented(o)) ==>
              forall k :: k in r.keys <==> k in keys && Documented(o, k)
    ensures r.Range? && o.key == None && o.reverse ==> forall k :: k in r.keys <==> k in keys && ReverseTakes(o, k)
    ensures r.Range? && o.key.Some? ==>
              forall k :: k in r.keys <==> k in keys && k == o.key.value && KeyTaken(o)
  {
    if o.key == None { RangeAsDocumented(o); } else { forall k { KeyShortcut(o, k); } }
    var start := if o.key.Some? then o.key else o.start;
    var end := if o.key.Some? then o.key else o.end;
    var exclusiveStart, inclusiveEnd := Or(o.exclusiveStart, false), Or(o.inclusiveEnd, false);
    if o.key.Some? { inclusiveEnd := true; }
    if o.reverse {
      start, end := end, start;
      exclusiveStart, inclusiveEnd := Or(o.exclusiveStart, true), Or(o.inclusiveEnd, true);
    }
    if start.Some? && |start.value| == 0 { return ZeroLengthKey; }
    if end.Some? && |end.value| == 0 { return ZeroLengthKey; }
    var found := Collect(Bounds(start, end, exclusiveStart, inclusiveEnd, o.reverse), keys);
    return Range(found);
  }

  /** A range as the options document it: from `start`, left out when
  `exclusiveStart`, towards `end`, taken in when `inclusiveEnd`. */
  predicate Documented(o: Options, k: Key) {
    && (o.start.Some? ==> (if o.reverse then !Less(o.start.value, k) else !Less(k, o.start.value)))
    && (o.end.Some? ==> (if o.reverse then !Less(k, o.end.value) else !Less(o.end.value, k)))
    && (o.start == Some(k) ==> !Or(o.exclusiveStart, false))
    && (o.end == Some(k) ==> Or(o.inclusiveEnd, false))
  }

  /** What a reverse range takes: down from `start` to `end`, where `exclusiveStart`
  leaves `end` out and `inclusiveEnd` takes `start` in, both by default. */
  predicate ReverseTakes(o: Options, k: Key) {
    && (o.start.Some? ==> !Less(o.start.value, k) && (k == o.start.value ==> Or(o.inclusiveEnd, true)))
    && (o.end.Some? ==> !Less(k, o.end.value) && (k == o.end.value ==> !Or(o.exclusiveStart, true)))
  }

  /** Whether the `key` shortcut finds its key. */
  predicate KeyTaken(o: Options) {
    !Or(o.exclusiveStart, o.reverse) && (o.reverse ==> Or(o.inclusiveEnd, true))
  }

  /** Reverse iteration applies each flag to the opposite bound, so the flags mean
  what they say only when they trade places. */
  predicate FlagsTrade(o: Options) {
    && (o.start.Some? ==> Or(o.inclusiveEnd, true) != Or(o.exclusiveStart, false))
    && (o.end.Some? ==> Or(o.exclusiveStart, true) != Or(o.inclusiveEnd, false))
  }

  /** When a reverse range is as documented: always if its bounds leave nothing
  between them; for one key, if both readings agree on that key; else if the flags
  trade places. */
  predicate ReverseAsDocumented(o: Options) {
    if o.start.Some? && o.end.Some? && Less(o.start.value, o.end.value) then true
    else if o.start.Some? && o.start == o.end then
      (!Or(o.exclusiveStart, true) && Or(o.inclusiveEnd, true))
      == (!Or(o.exclusiveStart, false) && Or(o.inclusiveEnd, false))
    else FlagsTrade(o)
  }

  /** Forward ranges are as documented for every option; reverse ranges exactly
  when the condition above holds, as it does when the flags are left alone. */
  lemma RangeAsDocumented(o: Options)
    requires o.key == None
    ensures (forall k :: Allowed(Resolve(o), k) <==> Documented(o, k)) <==> !o.reverse || ReverseAsDocumented(o)
    ensures o.exclusiveStart == None && o.inclusiveEnd == None ==> ReverseAsDocumented(o)
  {
    if o.reverse {
      if o.start.Some? && o.end.Some? && Less(o.start.value, o.end.value) {
        forall k ensures !Allowed(Resolve(o), k) && !Documented(o, k) { Between(o.start.value, o.end.value, k); }
      } else if !ReverseAsDocumented(o) {
        var k := if o.start.Some? && Or(o.inclusiveEnd, true) == Or(o.exclusiveStart, false)
                 then o.start.value else Or(o.end, []);
        LessTotal(k, k);
        if o.start.Some? && o.end.Some? { LessTotal(o.start.value, o.end.value); }
        assert Allowed(Resolve(o), k) <==> !Documented(o, k);
      } else if o.start.Some? && o.start == o.end {
        forall k ensures Allowed(Resolve(o), k) <==> Documented(o, k) { LessTotal(k, o.start.value); }
      }
    }
  }

  /** No key is at once not above `low` and not below a greater `high`. */
  lemma Between(low: Key, high: Key, k: Key)
    requires Less(low, high)
    ensures Less(low, k) || Less(k, high)
  {
    LessTotal(low, k);
    LessTotal(low, high);
  }

  /** The `key` shortcut finds exactly its key, except that reverse iteration with
  the default flags finds nothing. */
  lemma KeyShortcut(o: Options, k: Key)
    requires o.key.Some?
    ensures Allowed(Resolve(o), k) <==> k == o.key.value && KeyTaken(o)
  {
    LessTotal(k, o.key.value);
  }
}
