/** The cache the arena is supposed to behave as: one sequence of entries from most to
    least recently used, and an independent reading of "least recently used" by time stamps. */
module LruSpec {
  import opened Wrappers

  datatype Entry<K, V> = Entry(key: K, value: V)

  ghost predicate DistinctKeys<K, V>(es: seq<Entry<K, V>>) {
    forall i, j :: 0 <= i < j < |es| ==> es[i].key != es[j].key
  }

  ghost predicate HasKey<K, V>(es: seq<Entry<K, V>>, k: K) {
    exists i :: 0 <= i < |es| && es[i].key == k
  }

  ghost function Position<K, V>(es: seq<Entry<K, V>>, k: K): (p: nat)
    requires HasKey(es, k)
    ensures p < |es| && es[p].key == k
  {
    var p :| 0 <= p < |es| && es[p].key == k;
    p
  }

  lemma PositionIs<K, V>(es: seq<Entry<K, V>>, p: nat)
    requires DistinctKeys(es) && p < |es|
    ensures HasKey(es, es[p].key) && Position(es, es[p].key) == p
  {
    assert HasKey(es, es[p].key);
    var q := Position(es, es[p].key);
    if q < p {
    } else if p < q {
    }
  }

  /** The entries other than k's, in the order they had. */
  ghost function Without<K, V>(es: seq<Entry<K, V>>, k: K): seq<Entry<K, V>> {
    if HasKey(es, k) then var p := Position(es, k); es[..p] + es[p + 1..] else es
  }

  datatype Op<K, !V> =
    | Get(key: K)
    | GetMut(key: K, write: V -> V)
    | Peek(key: K)
    | Put(key: K, value: V)
    | Pop(key: K)
    | PopLru
    | Clear

  datatype Reply<K, V> =
    | Nothing
    | Found(value: V)
    | Taken(entry: Entry<K, V>)

  /** One operation on the sequence of entries. */
  ghost function Apply<K, V>(es: seq<Entry<K, V>>, capacity: nat, op: Op<K, V>): (r: (seq<Entry<K, V>>, Reply<K, V>)) {
    match op
    case Get(k) =>
      if HasKey(es, k) then
        var v := es[Position(es, k)].value;
        ([Entry(k, v)] + Without(es, k), Found(v))
      else (es, Nothing)
    case GetMut(k, write) =>
      if HasKey(es, k) then
        var v := es[Position(es, k)].value;
        ([Entry(k, write(v))] + Without(es, k), Found(v))
      else (es, Nothing)
    case Peek(k) =>
      (es, if HasKey(es, k) then Found(es[Position(es, k)].value) else Nothing)
    case Put(k, v) =>
      if HasKey(es, k) then
        ([Entry(k, v)] + Without(es, k), Found(es[Position(es, k)].value))
      else if |es| == capacity && es != [] then
        ([Entry(k, v)] + es[..|es| - 1], Found(es[|es| - 1].value))
      else
        ([Entry(k, v)] + es, Nothing)
    case Pop(k) =>
      if HasKey(es, k) then (Without(es, k), Found(es[Position(es, k)].value)) else (es, Nothing)
    case PopLru =>
      if es == [] then (es, Nothing) else (es[..|es| - 1], Taken(es[|es| - 1]))
    case Clear =>
      ([], Nothing)
  }

  ghost function Run<K, V>(capacity: nat, ops: seq<Op<K, V>>): (r: (seq<Entry<K, V>>, seq<Reply<K, V>>))
    ensures |r.1| == |ops|
  {
    if ops == [] then ([], [])
    else
      var before := Run(capacity, ops[..|ops| - 1]);
      var step := Apply(before.0, capacity, ops[|ops| - 1]);
      (step.0, before.1 + [step.1])
  }

  // ---------------------------------------------------------------------------
  // The time-stamp cache: a map from key to (value, time of last use). Nothing in it is
  // ordered; eviction asks for the key with the smallest stamp.

  datatype Stamped<K, V> = Stamped(clock: nat, cells: map<K, (V, nat)>)

  ghost predicate IsOldest<K, V>(cells: map<K, (V, nat)>, k: K) {
    k in cells && forall other | other in cells && other != k :: cells[k].1 < cells[other].1
  }

  /** The least recently used key; only meaningful where there is one. */
  ghost function Oldest<K, V>(cells: map<K, (V, nat)>): (r: Option<K>)
    ensures r.Some? ==> IsOldest(cells, r.value)
    ensures r.None? ==> forall k | k in cells :: !IsOldest(cells, k)
  {
    if k :| k in cells && IsOldest(cells, k) then Some(k) else None
  }

  ghost function ApplyStamped<K, V>(s: Stamped<K, V>, capacity: nat, op: Op<K, V>): (r: (Stamped<K, V>, Reply<K, V>)) {
    var now := s.clock;
    match op
    case Get(k) =>
      if k in s.cells then
        (Stamped(now + 1, s.cells[k := (s.cells[k].0, now)]), Found(s.cells[k].0))
      else (s, Nothing)
    case GetMut(k, write) =>
      if k in s.cells then
        (Stamped(now + 1, s.cells[k := (write(s.cells[k].0), now)]), Found(s.cells[k].0))
      else (s, Nothing)
    case Peek(k) =>
      (s, if k in s.cells then Found(s.cells[k].0) else Nothing)
    case Put(k, v) =>
      if k in s.cells then
        (Stamped(now + 1, s.cells[k := (v, now)]), Found(s.cells[k].0))
      else if |s.cells| == capacity && Oldest(s.cells).Some? then
        var victim := Oldest(s.cells).value;
        (Stamped(now + 1, (s.cells - {victim})[k := (v, now)]), Found(s.cells[victim].0))
      else
        (Stamped(now + 1, s.cells[k := (v, now)]), Nothing)
    case Pop(k) =>
      if k in s.cells then (s.(cells := s.cells - {k}), Found(s.cells[k].0)) else (s, Nothing)
    case PopLru =>
      if Oldest(s.cells).Some? then
        var victim := Oldest(s.cells).value;
        (s.(cells := s.cells - {victim}), Taken(Entry(victim, s.cells[victim].0)))
      else (s, Nothing)
    case Clear =>
      (s.(cells := map[]), Nothing)
  }

  ghost function RunStamped<K, V>(capacity: nat, ops: seq<Op<K, V>>): (r: (Stamped<K, V>, seq<Reply<K, V>>)) {
    if ops == [] then (Stamped(0, map[]), [])
    else
      var before := RunStamped(capacity, ops[..|ops| - 1]);
      var step := ApplyStamped(before.0, capacity, ops[|ops| - 1]);
      (step.0, before.1 + [step.1])
  }

  /** The sequence lists exactly the stamped cells, newest stamp first: its head is the cell
      of its key and was used before the clock, and its tail lists the other cells, all of
      which were last used before the head was. */
  ghost predicate Lists<K, V>(es: seq<Entry<K, V>>, s: Stamped<K, V>) {
    if es == [] then s.cells == map[]
    else
      var k := es[0].key;
      && k in s.cells
      && s.cells[k].0 == es[0].value
      && s.cells[k].1 < s.clock
      && Lists(es[1..], Stamped(s.cells[k].1, s.cells - {k}))
  }

  lemma {:induction false} EntryIsCell<K, V>(es: seq<Entry<K, V>>, s: Stamped<K, V>, i: nat)
    requires Lists(es, s) && i < |es|
    ensures es[i].key in s.cells && s.cells[es[i].key].0 == es[i].value
    ensures s.cells[es[i].key].1 < s.clock
    ensures forall j :: 0 <= j < i ==> es[j].key != es[i].key
  {
    if i > 0 {
      var k := es[0].key;
      EntryIsCell(es[1..], Stamped(s.cells[k].1, s.cells - {k}), i - 1);
      assert forall j :: 1 <= j < i ==> es[j].key == es[1..][j - 1].key;
    }
  }

  lemma {:induction false} CellIsEntry<K, V>(es: seq<Entry<K, V>>, s: Stamped<K, V>, other: K)
    requires Lists(es, s) && other in s.cells
    ensures HasKey(es, other)
  {
    var k := es[0].key;
    if other == k {
      assert es[0].key == other;
    } else {
      CellIsEntry(es[1..], Stamped(s.cells[k].1, s.cells - {k}), other);
      assert es[Position(es[1..], other) + 1].key == other;
    }
  }

  lemma {:induction false} SameSize<K, V>(es: seq<Entry<K, V>>, s: Stamped<K, V>)
    requires Lists(es, s)
    ensures |es| == |s.cells|
  {
    if es != [] {
      var k := es[0].key;
      SameSize(es[1..], Stamped(s.cells[k].1, s.cells - {k}));
      assert s.cells.Keys == (s.cells - {k}).Keys + {k};
    }
  }

  lemma LookupAgrees<K, V>(es: seq<Entry<K, V>>, s: Stamped<K, V>, k: K)
    requires Lists(es, s)
    ensures HasKey(es, k) <==> k in s.cells
    ensures HasKey(es, k) ==> s.cells[k].0 == es[Position(es, k)].value
  {
    if HasKey(es, k) {
      EntryIsCell(es, s, Position(es, k));
    }
    if k in s.cells {
      CellIsEntry(es, s, k);
    }
  }

  lemma {:induction false} LastIsOldest<K, V>(es: seq<Entry<K, V>>, s: Stamped<K, V>)
    requires Lists(es, s) && es != []
    ensures IsOldest(s.cells, es[|es| - 1].key)
  {
    var k := es[0].key;
    var below := Stamped(s.cells[k].1, s.cells - {k});
    EntryIsCell(es, s, |es| - 1);
    if |es| > 1 {
      LastIsOldest(es[1..], below);
      EntryIsCell(es[1..], below, |es| - 2);
      var last := es[|es| - 1].key;
      assert es[1..][|es| - 2].key == last;
      forall other | other in s.cells && other != last
        ensures s.cells[last].1 < s.cells[other].1
      {
        if other != k {
          assert other in below.cells;
        }
      }
    } else {
      assert below.cells == map[];
      assert forall other :: other in s.cells && other != k ==> other in below.cells;
    }
  }

  lemma OldestIsLast<K, V>(es: seq<Entry<K, V>>, s: Stamped<K, V>)
    requires Lists(es, s)
    ensures Oldest(s.cells) == if es == [] then None else Some(es[|es| - 1].key)
  {
    if es != [] {
      LastIsOldest(es, s);
      EntryIsCell(es, s, |es| - 1);
    }
  }

  /** Dropping one listed entry drops its cell and keeps the rest in order. */
  lemma {:induction false} DropListed<K, V>(es: seq<Entry<K, V>>, s: Stamped<K, V>, p: nat)
    requires Lists(es, s) && p < |es|
    ensures Lists(es[..p] + es[p + 1..], s.(cells := s.cells - {es[p].key}))
  {
    var k := es[0].key;
    var below := Stamped(s.cells[k].1, s.cells - {k});
    if p == 0 {
      assert es[..p] + es[p + 1..] == es[1..];
    } else {
      EntryIsCell(es, s, p);
      DropListed(es[1..], below, p - 1);
      var rest := es[..p] + es[p + 1..];
      assert rest[1..] == es[1..][..p - 1] + es[1..][p..];
      assert (s.cells - {k}) - {es[p].key} == (s.cells - {es[p].key}) - {k};
    }
  }

  /** Listing a new key at the front is stamping it with the current time. */
  lemma PushListed<K, V>(es: seq<Entry<K, V>>, s: Stamped<K, V>, k: K, v: V)
    requires Lists(es, s) && k !in s.cells
    ensures Lists([Entry(k, v)] + es, Stamped(s.clock + 1, s.cells[k := (v, s.clock)]))
  {
    assert ([Entry(k, v)] + es)[1..] == es;
    assert s.cells[k := (v, s.clock)] - {k} == s.cells;
  }

  /** Moving a key to the front with a new value is re-stamping it. */
  lemma TouchListed<K, V>(es: seq<Entry<K, V>>, s: Stamped<K, V>, p: nat, v: V)
    requires Lists(es, s) && p < |es| && es[p].key in s.cells
    ensures Lists([Entry(es[p].key, v)] + (es[..p] + es[p + 1..]),
                  Stamped(s.clock + 1, s.cells[es[p].key := (v, s.clock)]))
  {
    var k := es[p].key;
    var less := s.(cells := s.cells - {k});
    DropListed(es, s, p);
    PushListed(es[..p] + es[p + 1..], less, k, v);
    assert less.cells[k := (v, s.clock)] == s.cells[k := (v, s.clock)];
  }

  /** Dropping the last entry drops the oldest cell. */
  lemma DropLast<K, V>(es: seq<Entry<K, V>>, s: Stamped<K, V>)
    requires Lists(es, s) && es != []
    ensures var last := es[|es| - 1];
      && Oldest(s.cells) == Some(last.key)
      && last.key in s.cells && s.cells[last.key].0 == last.value
      && Lists(es[..|es| - 1], s.(cells := s.cells - {last.key}))
  {
    var last := |es| - 1;
    OldestIsLast(es, s);
    EntryIsCell(es, s, last);
    DropListed(es, s, last);
    assert es[..last] + es[last + 1..] == es[..last];
  }

  lemma PutAgrees<K, V>(es: seq<Entry<K, V>>, s: Stamped<K, V>, capacity: nat, k: K, v: V)
    requires Lists(es, s)
    ensures Lists(Apply(es, capacity, Put(k, v)).0, ApplyStamped(s, capacity, Put(k, v)).0)
    ensures Apply(es, capacity, Put(k, v)).1 == ApplyStamped(s, capacity, Put(k, v)).1
  {
    LookupAgrees(es, s, k);
    SameSize(es, s);
    OldestIsLast(es, s);
    if HasKey(es, k) {
      TouchListed(es, s, Position(es, k), v);
    } else if |es| == capacity && es != [] {
      DropLast(es, s);
      PushListed(es[..|es| - 1], s.(cells := s.cells - {es[|es| - 1].key}), k, v);
    } else {
      PushListed(es, s, k, v);
    }
  }

  lemma StepAgrees<K, V>(es: seq<Entry<K, V>>, s: Stamped<K, V>, capacity: nat, op: Op<K, V>)
    requires Lists(es, s)
    ensures Lists(Apply(es, capacity, op).0, ApplyStamped(s, capacity, op).0)
    ensures Apply(es, capacity, op).1 == ApplyStamped(s, capacity, op).1
  {
    match op
    case Get(k) =>
      LookupAgrees(es, s, k);
      if HasKey(es, k) { TouchListed(es, s, Position(es, k), s.cells[k].0); }
    case GetMut(k, write) =>
      LookupAgrees(es, s, k);
      if HasKey(es, k) { TouchListed(es, s, Position(es, k), write(s.cells[k].0)); }
    case Peek(k) =>
      LookupAgrees(es, s, k);
    case Put(k, v) =>
      PutAgrees(es, s, capacity, k, v);
    case Pop(k) =>
      LookupAgrees(es, s, k);
      if HasKey(es, k) { DropListed(es, s, Position(es, k)); }
    case PopLru =>
      OldestIsLast(es, s);
      if es != [] { DropLast(es, s); }
    case Clear =>
  }

  /** Every run of the sequence cache answers as the time-stamp cache does, and always lists
      that cache's cells newest first: the victim of an eviction really is the entry whose
      last use is the oldest. */
  lemma {:induction false} LruIsOldestStamp<K, V>(capacity: nat, ops: seq<Op<K, V>>)
    ensures Lists(Run(capacity, ops).0, RunStamped(capacity, ops).0)
    ensures Run(capacity, ops).1 == RunStamped(capacity, ops).1
  {
    if ops != [] {
      LruIsOldestStamp(capacity, ops[..|ops| - 1]);
      StepAgrees(Run(capacity, ops[..|ops| - 1]).0, RunStamped(capacity, ops[..|ops| - 1]).0, capacity, ops[|ops| - 1]);
    }
  }

  lemma ListedKeysDiffer<K, V>(es: seq<Entry<K, V>>, s: Stamped<K, V>)
    requires Lists(es, s)
    ensures DistinctKeys(es)
  {
    forall i, j | 0 <= i < j < |es| ensures es[i].key != es[j].key {
      EntryIsCell(es, s, j);
    }
  }

  /** After every run no key has two entries, and there are no more entries than the capacity. */
  lemma {:induction false} RunIsBounded<K, V>(capacity: nat, ops: seq<Op<K, V>>)
    requires 1 <= capacity
    ensures DistinctKeys(Run(capacity, ops).0)
    ensures |Run(capacity, ops).0| <= capacity
  {
    LruIsOldestStamp(capacity, ops);
    ListedKeysDiffer(Run(capacity, ops).0, RunStamped(capacity, ops).0);
    if ops != [] {
      RunIsBounded(capacity, ops[..|ops| - 1]);
    }
  }
}
