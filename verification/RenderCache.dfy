/** The bounded cache of rendered Markdown (`src/markdown.rs`). */
module RenderCache {
  import opened Wrappers
  import Utf8

  const MAX_CACHE_ENTRIES: nat := 32
  const MAX_CACHE_BYTES: nat := 16 * 1024 * 1024
  const USIZE_MAX: nat := 0xffff_ffff_ffff_ffff

  /** The contents of a cache: its entries and the order in which they came. */
  datatype Contents = Contents(entries: map<string, string>, order: seq<string>)

  const EMPTY := Contents(map[], [])

  function SaturatingAdd(a: nat, b: nat): nat {
    if a + b > USIZE_MAX then USIZE_MAX else a + b
  }

  function SaturatingSub(a: nat, b: nat): nat {
    if a < b then 0 else a - b
  }

  /** The total length of the entries of `keys`. */
  function TotalBytes(entries: map<string, string>, keys: seq<string>): nat
    requires forall key :: key in keys ==> key in entries
  {
    if keys == [] then 0 else Utf8.Length(entries[keys[0]]) + TotalBytes(entries, keys[1..])
  }

  predicate Listed(c: Contents) {
    forall key :: key in c.order ==> key in c.entries
  }

  /** `order` lists every key once, and both bounds hold. */
  predicate Sound(c: Contents) {
    && Listed(c)
    && (forall key :: key in c.entries ==> key in c.order)
    && (forall i, j :: 0 <= i < j < |c.order| ==> c.order[i] != c.order[j])
    && |c.order| <= MAX_CACHE_ENTRIES
    && TotalBytes(c.entries, c.order) <= MAX_CACHE_BYTES
  }

  /** The cache without its `n` oldest entries. */
  function Younger(c: Contents, n: nat): Contents
    requires n <= |c.order|
  {
    Contents(map key | key in c.entries && key in c.order[n..] :: c.entries[key], c.order[n..])
  }

  /** The total length of all but the `n` oldest entries. */
  function BytesFrom(c: Contents, n: nat): nat
    requires Listed(c) && n <= |c.order|
  {
    TotalBytes(c.entries, c.order[n..])
  }

  /** An entry of `length` bytes fits once the `n` oldest entries are gone. */
  predicate FitsAfter(c: Contents, n: nat, length: nat)
    requires Listed(c)
  {
    n <= |c.order| && |c.order| - n < MAX_CACHE_ENTRIES && BytesFrom(c, n) + length <= MAX_CACHE_BYTES
  }

  /** How many of the oldest entries have to go: the fewest that make room. */
  function Evicted(c: Contents, length: nat): (n: nat)
    requires Listed(c) && length <= MAX_CACHE_BYTES
    ensures FitsAfter(c, n, length)
    ensures forall k: nat :: k < n ==> !FitsAfter(c, k, length)
  {
    FewestFrom(c, length, 0)
  }

  function FewestFrom(c: Contents, length: nat, k: nat): (n: nat)
    requires Listed(c) && k <= |c.order| && length <= MAX_CACHE_BYTES
    requires forall j: nat :: j < k ==> !FitsAfter(c, j, length)
    ensures FitsAfter(c, n, length)
    ensures forall j: nat :: j < n ==> !FitsAfter(c, j, length)
    decreases |c.order| - k
  {
    if k == |c.order| || FitsAfter(c, k, length) then k else FewestFrom(c, length, k + 1)
  }

  /** The cache after an insertion: the shortest oldest prefix that has to go is gone. */
  function Inserted(c: Contents, digest: string, rendered: string): Contents
    requires Sound(c)
  {
    var length := Utf8.Length(rendered);
    if length > MAX_CACHE_BYTES || digest in c.entries then
      c
    else
      var kept := Younger(c, Evicted(c, length));
      Contents(kept.entries[digest := rendered], kept.order + [digest])
  }

  lemma {:induction false} TotalBytesOfMore(entries: map<string, string>, keys: seq<string>, key: string, value: string)
    requires (forall k :: k in keys ==> k in entries) && key !in keys
    ensures TotalBytes(entries[key := value], keys + [key]) == TotalBytes(entries, keys) + Utf8.Length(value)
  {
    hide Utf8.Length;
    if keys == [] {
      assert keys + [key] == [key] && [key][1..] == [];
    } else {
      assert (keys + [key])[1..] == keys[1..] + [key];
      TotalBytesOfMore(entries, keys[1..], key, value);
    }
  }

  lemma {:induction false} TotalBytesAgree(a: map<string, string>, b: map<string, string>, keys: seq<string>)
    requires forall key :: key in keys ==> key in a && key in b && a[key] == b[key]
    ensures TotalBytes(a, keys) == TotalBytes(b, keys)
  {
    if keys != [] {
      TotalBytesAgree(a, b, keys[1..]);
    }
  }

  lemma {:induction false} BytesOfOlder(c: Contents, n: nat)
    requires Listed(c) && n < |c.order|
    ensures BytesFrom(c, n) == Utf8.Length(c.entries[c.order[n]]) + BytesFrom(c, n + 1)
  {
    hide Utf8.Length;
    assert c.order[n..][1..] == c.order[n + 1..];
  }

  lemma {:induction false} FewerBytesAreLeft(c: Contents, n: nat)
    requires Listed(c) && n <= |c.order|
    ensures BytesFrom(c, n) <= BytesFrom(c, 0)
  {
    hide Utf8.Length, TotalBytes;
    if n > 0 {
      FewerBytesAreLeft(c, n - 1);
      BytesOfOlder(c, n - 1);
    }
  }

  lemma YoungerListing(c: Contents, n: nat)
    requires Sound(c) && n <= |c.order|
    ensures var y := Younger(c, n);
            && Listed(y)
            && (forall key :: key in y.entries ==> key in y.order)
            && (forall i, j :: 0 <= i < j < |y.order| ==> y.order[i] != y.order[j])
  {
    hide TotalBytes;
    var y := Younger(c, n);
    assert forall i :: 0 <= i < |y.order| ==> y.order[i] == c.order[n + i];
    assert forall key :: key in y.order ==> key in c.order;
  }

  lemma YoungerIsSound(c: Contents, n: nat)
    requires Sound(c) && n <= |c.order|
    ensures Sound(Younger(c, n))
    ensures TotalBytes(Younger(c, n).entries, Younger(c, n).order) == BytesFrom(c, n)
  {
    YoungerListing(c, n);
    hide TotalBytes;
    TotalBytesAgree(Younger(c, n).entries, c.entries, c.order[n..]);
    FewerBytesAreLeft(c, n);
    assert c.order[0..] == c.order;
  }

  /** Insertion keeps the listing exact and both bounds. */
  lemma InsertedIsSound(c: Contents, digest: string, rendered: string)
    requires Sound(c)
    ensures Sound(Inserted(c, digest, rendered))
  {
    hide Utf8.Length, TotalBytes;
    var length := Utf8.Length(rendered);
    if length <= MAX_CACHE_BYTES && digest !in c.entries {
      var n := Evicted(c, length);
      YoungerIsSound(c, n);
      AppendedIsSound(Younger(c, n), digest, rendered);
    }
  }

  lemma AppendedIsSound(c: Contents, digest: string, rendered: string)
    requires Sound(c) && digest !in c.entries && |c.order| < MAX_CACHE_ENTRIES
    requires TotalBytes(c.entries, c.order) + Utf8.Length(rendered) <= MAX_CACHE_BYTES
    ensures Sound(Contents(c.entries[digest := rendered], c.order + [digest]))
    ensures TotalBytes(c.entries[digest := rendered], c.order + [digest]) ==
            TotalBytes(c.entries, c.order) + Utf8.Length(rendered)
  {
    hide Utf8.Length, TotalBytes;
    TotalBytesOfMore(c.entries, c.order, digest, rendered);
  }

  /** A value that is not too large is present afterwards, and nothing else is new or changed. */
  lemma InsertedEntries(c: Contents, digest: string, rendered: string)
    requires Sound(c)
    ensures Utf8.Length(rendered) <= MAX_CACHE_BYTES ==> digest in Inserted(c, digest, rendered).entries
    ensures digest !in c.entries && Utf8.Length(rendered) <= MAX_CACHE_BYTES ==>
              Inserted(c, digest, rendered).entries[digest] == rendered
    ensures forall key :: key in Inserted(c, digest, rendered).entries && key != digest ==>
              key in c.entries && Inserted(c, digest, rendered).entries[key] == c.entries[key]
    ensures digest in c.entries ==> Inserted(c, digest, rendered) == c
  {
    hide Utf8.Length;
  }

  /** The survivors keep their order, and the new key comes last: the oldest is the first to go. */
  lemma InsertedOrder(c: Contents, digest: string, rendered: string)
    requires Sound(c) && digest !in c.entries && Utf8.Length(rendered) <= MAX_CACHE_BYTES
    ensures var order := Inserted(c, digest, rendered).order;
            && 0 < |order| <= |c.order| + 1
            && order[|order| - 1] == digest
            && order[..|order| - 1] == c.order[|c.order| + 1 - |order|..]
            && FitsAfter(c, |c.order| + 1 - |order|, Utf8.Length(rendered))
            && (forall k: nat :: k < |c.order| + 1 - |order| ==> !FitsAfter(c, k, Utf8.Length(rendered)))
  {
    var n := Evicted(c, Utf8.Length(rendered));
    assert n <= |c.order|;
    hide Utf8.Length, FitsAfter;
    assert Inserted(c, digest, rendered).order == c.order[n..] + [digest];
  }

  /** The bounds: 32 entries, and 16 MiB in all. */
  lemma SoundIsBounded(c: Contents)
    requires Sound(c)
    ensures |c.entries| == |c.order| <= 32 && TotalBytes(c.entries, c.order) <= 16 * 1024 * 1024
  {
    hide TotalBytes;
    ListingLength(c.entries.Keys, c.order);
  }

  lemma YoungerOfYounger(c: Contents, n: nat)
    requires n < |c.order|
    ensures Younger(Younger(c, n), 1) == Younger(c, n + 1)
  {
    var y := Younger(c, n);
    assert y.order[1..] == c.order[n + 1..];
    assert forall key :: key in c.order[n + 1..] ==> key in c.order[n..];
  }

  /** A listing without repetition has as many keys as the map it lists. */
  lemma {:induction false} ListingLength(keys: set<string>, order: seq<string>)
    requires forall key :: key in order <==> key in keys
    requires forall i, j :: 0 <= i < j < |order| ==> order[i] != order[j]
    ensures |keys| == |order|
  {
    if order == [] {
      assert keys == {};
    } else {
      assert order == [order[0]] + order[1..];
      ListingLength(keys - {order[0]}, order[1..]);
    }
  }

  class RenderCache {
    var entries: map<string, string>
    var order: seq<string>
    var bytes: nat

    ghost function View(): Contents
      reads this
    {
      Contents(entries, order)
    }

    ghost predicate Valid()
      reads this
    {
      Sound(View()) && bytes == TotalBytes(entries, order)
    }

    constructor ()
      ensures Valid() && View() == EMPTY
    {
      entries, order, bytes := map[], [], 0;
    }

    function Get(digest: string): (found: Option<string>)
      reads this
      ensures found.Some? <==> digest in View().entries
      ensures found.Some? ==> found.value == View().entries[digest]
    {
      if digest in entries then Some(entries[digest]) else None
    }

    /** Removes the oldest entry; false when there is none. */
    method RemoveOldest() returns (removed: bool)
      requires Valid()
      modifies this
      ensures Valid()
      ensures removed <==> old(order) != []
      ensures View() == if removed then Younger(old(View()), 1) else old(View())
    {
      hide Utf8.Length, TotalBytes, Sound;
      if order == [] {
        return false;
      }
      ghost var before := View();
      OldestEntry(before);
      var digest := order[0];
      order := order[1..];
      if digest in entries {
        var rendered := entries[digest];
        entries := entries - {digest};
        bytes := SaturatingSub(bytes, Utf8.Length(rendered));
      }
      assert View() == Younger(before, 1);
      removed := true;
    }

    /**
     Inserts a value that is new and not too large, after dropping the shortest
     oldest prefix that makes room; the empty queue is never met on the way.
     */
    method Insert(digest: string, rendered: string)
      requires Valid()
      modifies this
      ensures Valid()
      ensures View() == Inserted(old(View()), digest, rendered)
    {
      hide Utf8.Length, TotalBytes, Sound, FitsAfter, Younger;
      var length := Utf8.Length(rendered);
      if length > MAX_CACHE_BYTES || digest in entries {
        return;
      }
      ghost var before, n := View(), 0;
      SoundIsListed(before);
      YoungerThanNone(before);
      Measures(before, 0, length);
      while |entries| >= MAX_CACHE_ENTRIES || SaturatingAdd(bytes, length) > MAX_CACHE_BYTES
        invariant Valid()
        invariant n <= |before.order| && View() == Younger(before, n) && order == before.order[n..]
        invariant forall k: nat :: k < n ==> !FitsAfter(before, k, length)
        invariant FitsAfter(before, n, length) <==>
                    |entries| < MAX_CACHE_ENTRIES && SaturatingAdd(bytes, length) <= MAX_CACHE_BYTES
        decreases |before.order| - n
      {
        RoomWithoutEntries(before, length);
        var removed := RemoveOldest();
        if !removed {
          return;
        }
        YoungerOfYounger(before, n);
        n := n + 1;
        Measures(before, n, length);
      }
      EvictedIsFewest(before, length, n);
      OneMoreEntry(before, n, digest, rendered);
      bytes := bytes + length;
      order := order + [digest];
      entries := entries[digest := rendered];
    }
  }

  lemma SoundIsListed(c: Contents)
    requires Sound(c)
    ensures Listed(c)
  {
  }

  lemma WithoutOldest(c: Contents)
    requires Sound(c) && c.order != []
    ensures Younger(c, 1) == Contents(c.entries - {c.order[0]}, c.order[1..])
  {
    hide TotalBytes;
    var rest := c.order[1..];
    assert c.order == [c.order[0]] + rest;
    assert c.order[0] !in rest;
    assert Younger(c, 1).entries == c.entries - {c.order[0]};
  }

  /** Removing the oldest entry takes its length and nothing else off the total. */
  lemma OldestEntry(c: Contents)
    requires Sound(c) && c.order != []
    ensures c.order[0] in c.entries && Sound(Younger(c, 1))
    ensures Younger(c, 1) == Contents(c.entries - {c.order[0]}, c.order[1..])
    ensures TotalBytes(c.entries, c.order) ==
            Utf8.Length(c.entries[c.order[0]]) + TotalBytes(Younger(c, 1).entries, Younger(c, 1).order)
  {
    hide Utf8.Length, TotalBytes;
    YoungerIsSound(c, 1);
    BytesOfOlder(c, 0);
    WithoutOldest(c);
    assert c.order[0..] == c.order;
  }

  lemma YoungerThanNone(c: Contents)
    requires Sound(c)
    ensures Younger(c, 0) == c && c.order[0..] == c.order
  {
    hide TotalBytes;
    assert Younger(c, 0).entries == c.entries;
  }

  /** What the loop condition measures is whether the new entry fits; the addition never saturates. */
  lemma Measures(c: Contents, n: nat, length: nat)
    requires Sound(c) && n <= |c.order| && length <= MAX_CACHE_BYTES
    ensures var y := Younger(c, n);
            && Sound(y) && y.order == c.order[n..]
            && SaturatingAdd(TotalBytes(y.entries, y.order), length) == TotalBytes(y.entries, y.order) + length
            && (FitsAfter(c, n, length) <==>
                  |y.entries| < MAX_CACHE_ENTRIES && TotalBytes(y.entries, y.order) + length <= MAX_CACHE_BYTES)
  {
    hide TotalBytes;
    YoungerIsSound(c, n);
    ListingLength(Younger(c, n).entries.Keys, Younger(c, n).order);
  }

  lemma RoomWithoutEntries(c: Contents, length: nat)
    requires Listed(c) && length <= MAX_CACHE_BYTES
    ensures FitsAfter(c, |c.order|, length)
  {
  }

  lemma OneMoreEntry(c: Contents, n: nat, digest: string, rendered: string)
    requires Sound(c) && digest !in c.entries && FitsAfter(c, n, Utf8.Length(rendered))
    ensures var y := Younger(c, n);
            && Sound(y) && Sound(Contents(y.entries[digest := rendered], y.order + [digest]))
            && TotalBytes(y.entries[digest := rendered], y.order + [digest]) ==
               TotalBytes(y.entries, y.order) + Utf8.Length(rendered)
  {
    hide Utf8.Length, TotalBytes;
    YoungerIsSound(c, n);
    AppendedIsSound(Younger(c, n), digest, rendered);
  }

  lemma EvictedIsFewest(c: Contents, length: nat, n: nat)
    requires Listed(c) && length <= MAX_CACHE_BYTES
    requires FitsAfter(c, n, length) && forall k: nat :: k < n ==> !FitsAfter(c, k, length)
    ensures Evicted(c, length) == n
  {
    hide FitsAfter;
    var e := Evicted(c, length);
    assert FitsAfter(c, e, length);
  }
}
