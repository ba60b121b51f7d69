/** The index-linked cache: an arena of slots, a free list, a recency list threaded through
    the slots by index, and a map from key to slot. */
module LruCache {
  import opened Wrappers
  import opened LruSpec

  datatype Slot<K, V> = Slot(key: Option<K>, value: Option<V>, prev: Option<nat>, next: Option<nat>)

  // --- the recency list, as a fact about plain values -------------------------

  ghost function Before(order: seq<nat>, i: nat): Option<nat>
    requires i < |order|
  {
    if i == 0 then None else Some(order[i - 1])
  }

  ghost function After(order: seq<nat>, i: nat): Option<nat>
    requires i < |order|
  {
    if i + 1 == |order| then None else Some(order[i + 1])
  }

  ghost function First(order: seq<nat>): Option<nat> {
    if order == [] then None else Some(order[0])
  }

  ghost function Last(order: seq<nat>): Option<nat> {
    if order == [] then None else Some(order[|order| - 1])
  }

  ghost predicate NoRepeats(s: seq<nat>) {
    forall i, j :: 0 <= i < j < |s| ==> s[i] != s[j]
  }

  ghost predicate InArena(s: seq<nat>, n: nat) {
    forall i :: 0 <= i < |s| ==> s[i] < n
  }

  /** prev and next are mutual inverses along `order`, which runs from head to tail. */
  ghost predicate Linked<K, V>(slots: seq<Slot<K, V>>, head: Option<nat>, tail: Option<nat>, order: seq<nat>) {
    && InArena(order, |slots|)
    && NoRepeats(order)
    && head == First(order)
    && tail == Last(order)
    && LinksAgree(slots, order)
  }

  ghost predicate LinksAgree<K, V>(slots: seq<Slot<K, V>>, order: seq<nat>)
    requires InArena(order, |slots|)
  {
    forall i {:trigger LinkedAt(slots[order[i]], order, i)} :: 0 <= i < |order| ==> LinkedAt(slots[order[i]], order, i)
  }

  /** Nothing but links may differ. */
  ghost predicate SameData<K, V>(a: seq<Slot<K, V>>, b: seq<Slot<K, V>>) {
    |a| == |b| && forall i :: 0 <= i < |a| ==> a[i].key == b[i].key && a[i].value == b[i].value
  }

  /** `s` with its p-th element left out. */
  ghost function Cut<T>(s: seq<T>, p: nat): (r: seq<T>)
    requires p < |s|
    ensures |r| == |s| - 1
  {
    seq(|s| - 1, i requires 0 <= i < |s| - 1 => s[if i < p then i else i + 1])
  }

  lemma CutIsSpliced<T>(s: seq<T>, p: nat)
    requires p < |s|
    ensures Cut(s, p) == s[..p] + s[p + 1..]
  {
  }

  lemma CutEnds(s: seq<nat>, p: nat)
    requires p < |s|
    ensures First(Cut(s, p)) == if p == 0 then After(s, p) else First(s)
    ensures Last(Cut(s, p)) == if p + 1 == |s| then Before(s, p) else Last(s)
  {
  }

  lemma CutOut(s: seq<nat>, p: nat, n: nat)
    requires NoRepeats(s) && InArena(s, n) && p < |s|
    ensures NoRepeats(Cut(s, p)) && InArena(Cut(s, p), n)
    ensures s[p] !in Cut(s, p)
    ensures forall x :: x in s <==> x == s[p] || x in Cut(s, p)
  {
    var r := Cut(s, p);
    forall x | x in s && x != s[p] ensures x in r {
      var q :| 0 <= q < |s| && s[q] == x;
      assert r[if q < p then q else q - 1] == x;
    }
  }

  /** `slot`'s links are the ones position i of `order` calls for. */
  ghost predicate LinkedAt<K, V>(slot: Slot<K, V>, order: seq<nat>, i: nat)
    requires i < |order|
  {
    slot.prev == Before(order, i) && slot.next == After(order, i)
  }

  /** The links a slot has once `idx` is linked in front of `head`. */
  ghost predicate LinkedInFront<K, V>(was: Slot<K, V>, now: Slot<K, V>, j: nat, idx: nat, head: Option<nat>) {
    && now.key == was.key && now.value == was.value
    && now.prev == (if j == idx then None else if head == Some(j) then Some(idx) else was.prev)
    && now.next == (if j == idx then head else was.next)
  }

  lemma SameDataAt<K, V>(a: seq<Slot<K, V>>, b: seq<Slot<K, V>>, x: nat)
    requires SameData(a, b) && x < |a|
    ensures |a| == |b| && a[x].key == b[x].key && a[x].value == b[x].value
  {
  }

  lemma LinkFrontKeeps<K, V>(slots: seq<Slot<K, V>>, head: Option<nat>, tail: Option<nat>, order: seq<nat>,
                             slots': seq<Slot<K, V>>, idx: nat)
    requires Linked(slots, head, tail, order) && idx < |slots| && idx !in order
    requires |slots'| == |slots| && forall j :: 0 <= j < |slots| ==> LinkedInFront(slots[j], slots'[j], j, idx, head)
    ensures Linked(slots', Some(idx), if head.None? then Some(idx) else tail, [idx] + order)
    ensures SameData(slots, slots')
  {
    var order' := [idx] + order;
    forall i | 0 <= i < |order'|
      ensures LinkedAt(slots'[order'[i]], order', i)
    {
      assert LinkedInFront(slots[order'[i]], slots'[order'[i]], order'[i], idx, head);
      if i > 0 {
        assert order'[i] == order[i - 1];
        assert LinkedAt(slots[order[i - 1]], order, i - 1);
      }
    }
  }

  /** The links a slot has once `idx`, between `prev` and `next`, is unlinked. */
  ghost predicate LinkedAround<K, V>(was: Slot<K, V>, now: Slot<K, V>, j: nat, idx: nat, prev: Option<nat>, next: Option<nat>) {
    && now.key == was.key && now.value == was.value
    && now.prev == (if j == idx then None else if next == Some(j) then prev else was.prev)
    && now.next == (if j == idx then None else if prev == Some(j) then next else was.next)
  }

  lemma UnlinkKeepsAt<K, V>(slots: seq<Slot<K, V>>, head: Option<nat>, tail: Option<nat>, order: seq<nat>,
                            slots': seq<Slot<K, V>>, p: nat, i: nat)
    requires Linked(slots, head, tail, order) && p < |order| && i < |order| - 1
    requires |slots'| == |slots|
    requires forall j :: 0 <= j < |slots| ==> LinkedAround(slots[j], slots'[j], j, order[p], Before(order, p), After(order, p))
    ensures Cut(order, p)[i] < |slots| && LinkedAt(slots'[Cut(order, p)[i]], Cut(order, p), i)
  {
    var q := if i < p then i else i + 1;
    var j := order[q];
    assert LinkedAt(slots[j], order, q);
    assert LinkedAround(slots[j], slots'[j], j, order[p], Before(order, p), After(order, p));
  }

  lemma UnlinkKeeps<K, V>(slots: seq<Slot<K, V>>, head: Option<nat>, tail: Option<nat>, order: seq<nat>,
                          slots': seq<Slot<K, V>>, p: nat)
    requires Linked(slots, head, tail, order) && p < |order|
    requires |slots'| == |slots|
    requires forall j :: 0 <= j < |slots| ==> LinkedAround(slots[j], slots'[j], j, order[p], Before(order, p), After(order, p))
    ensures Linked(slots', if p == 0 then After(order, p) else head,
                   if p + 1 == |order| then Before(order, p) else tail, Cut(order, p))
    ensures SameData(slots, slots')
  {
    CutOut(order, p, |slots|);
    CutEnds(order, p);
    forall i | 0 <= i < |Cut(order, p)|
      ensures LinkedAt(slots'[Cut(order, p)[i]], Cut(order, p), i)
    {
      UnlinkKeepsAt(slots, head, tail, order, slots', p, i);
    }
    forall j | 0 <= j < |slots|
      ensures slots[j].key == slots'[j].key && slots[j].value == slots'[j].value
    {
      assert LinkedAround(slots[j], slots'[j], j, order[p], Before(order, p), After(order, p));
    }
  }

  ghost predicate LinksInArena<K, V>(slots: seq<Slot<K, V>>, idx: nat) {
    && idx < |slots|
    && (slots[idx].prev.Some? ==> slots[idx].prev.value < |slots|)
    && (slots[idx].next.Some? ==> slots[idx].next.value < |slots|)
  }

  /** The slots after the neighbours of `idx`, then `idx` itself, have been rewritten. */
  function Bypass<K, V>(slots: seq<Slot<K, V>>, idx: nat, prev: Option<nat>, next: Option<nat>): (r: seq<Slot<K, V>>)
    requires idx < |slots| && (prev.Some? ==> prev.value < |slots|) && (next.Some? ==> next.value < |slots|)
    ensures |r| == |slots|
  {
    var a := if prev.Some? then slots[prev.value := slots[prev.value].(next := next)] else slots;
    var b := if next.Some? then a[next.value := a[next.value].(prev := prev)] else a;
    b[idx := b[idx].(prev := None, next := None)]
  }

  lemma BypassIsLinkedAround<K, V>(slots: seq<Slot<K, V>>, idx: nat, prev: Option<nat>, next: Option<nat>)
    requires idx < |slots| && (prev.Some? ==> prev.value < |slots|) && (next.Some? ==> next.value < |slots|)
    ensures forall j :: 0 <= j < |slots| ==> LinkedAround(slots[j], Bypass(slots, idx, prev, next)[j], j, idx, prev, next)
  {
  }


  /** Unlinking the p-th live slot leaves the rest of the list linked in the same order. */
  lemma BypassKeeps<K, V>(slots: seq<Slot<K, V>>, head: Option<nat>, tail: Option<nat>, order: seq<nat>, p: nat)
    requires Linked(slots, head, tail, order) && p < |order|
    ensures var prev, next := Before(order, p), After(order, p);
      && slots[order[p]].prev == prev && slots[order[p]].next == next
      && var slots' := Bypass(slots, order[p], prev, next);
      && Linked(slots', if prev.None? then next else head, if next.None? then prev else tail, Cut(order, p))
      && SameData(slots, slots')
  {
    assert LinkedAt(slots[order[p]], order, p);
    BypassIsLinkedAround(slots, order[p], Before(order, p), After(order, p));
    UnlinkKeeps(slots, head, tail, order, Bypass(slots, order[p], Before(order, p), After(order, p)), p);
  }

  // --- the whole representation, as a fact about plain values -----------------

  /** Live and free indices partition the arena, without repeats. */
  ghost predicate Partition(order: seq<nat>, free: seq<nat>, n: nat) {
    && NoRepeats(order) && InArena(order, n)
    && NoRepeats(free) && InArena(free, n)
    && |order| + |free| == n
    && forall x :: 0 <= x < n ==> (x in order <==> x !in free)
  }

  /** A live slot owns its key and value, and the map sends its key back to it. */
  ghost predicate Live<K, V>(slot: Slot<K, V>, x: nat, index: map<K, nat>) {
    && slot.key.Some? && slot.value.Some?
    && slot.key.value in index && index[slot.key.value] == x
  }

  ghost predicate AllLive<K, V>(slots: seq<Slot<K, V>>, order: seq<nat>, index: map<K, nat>)
    requires InArena(order, |slots|)
  {
    forall i {:trigger Live(slots[order[i]], order[i], index)} :: 0 <= i < |order| ==> Live(slots[order[i]], order[i], index)
  }

  /** Every key of the map leads to a live slot holding that key. */
  ghost predicate IndexSound<K, V>(slots: seq<Slot<K, V>>, order: seq<nat>, index: map<K, nat>)
    requires InArena(order, |slots|)
  {
    |index| == |order| && forall k :: k in index ==> index[k] in order && index[k] < |slots| && slots[index[k]].key == Some(k)
  }

  /** A free slot holds no value (it may keep a stale key: see Pop). */
  ghost predicate FreeAreEmpty<K, V>(slots: seq<Slot<K, V>>, free: seq<nat>)
    requires InArena(free, |slots|)
  {
    forall i :: 0 <= i < |free| ==> slots[free[i]].value.None?
  }

  ghost predicate Represents<K, V>(slots: seq<Slot<K, V>>, free: seq<nat>, order: seq<nat>, index: map<K, nat>) {
    && Partition(order, free, |slots|)
    && AllLive(slots, order, index)
    && IndexSound(slots, order, index)
    && FreeAreEmpty(slots, free)
  }

  ghost function EntryOf<K, V>(slot: Slot<K, V>): Entry<K, V>
    requires slot.key.Some? && slot.value.Some?
  {
    Entry(slot.key.value, slot.value.value)
  }

  /** The entries of the live slots, most recently used first. */
  ghost function EntriesOf<K, V>(slots: seq<Slot<K, V>>, order: seq<nat>, index: map<K, nat>): (es: seq<Entry<K, V>>)
    requires InArena(order, |slots|) && AllLive(slots, order, index)
  {
    seq(|order|, i requires 0 <= i < |order| =>
      assert Live(slots[order[i]], order[i], index);
      EntryOf(slots[order[i]]))
  }

  lemma EntriesAreDistinct<K, V>(slots: seq<Slot<K, V>>, free: seq<nat>, order: seq<nat>, index: map<K, nat>)
    requires Represents(slots, free, order, index)
    ensures DistinctKeys(EntriesOf(slots, order, index))
  {
    var es := EntriesOf(slots, order, index);
    forall i, j | 0 <= i < j < |es| ensures es[i].key != es[j].key {
      assert Live(slots[order[i]], order[i], index);
      assert Live(slots[order[j]], order[j], index);
    }
  }

  /** A key is in the map exactly when it has an entry, and then at its slot's place in the order. */
  lemma KeyIsAt<K, V>(slots: seq<Slot<K, V>>, free: seq<nat>, order: seq<nat>, index: map<K, nat>, k: K) returns (p: nat)
    requires Represents(slots, free, order, index)
    ensures HasKey(EntriesOf(slots, order, index), k) <==> k in index
    ensures k in index ==> p < |order| && order[p] == index[k] && Position(EntriesOf(slots, order, index), k) == p
    ensures k in index ==> EntriesOf(slots, order, index)[p].key == k
  {
    var es := EntriesOf(slots, order, index);
    p := 0;
    if HasKey(es, k) {
      var q := Position(es, k);
      assert Live(slots[order[q]], order[q], index);
    }
    if k in index {
      p :| 0 <= p < |order| && order[p] == index[k];
      assert Live(slots[order[p]], order[p], index);
      assert es[p].key == k;
      EntriesAreDistinct(slots, free, order, index);
      PositionIs(es, p);
    }
  }

  lemma LiveAt<K, V>(slots: seq<Slot<K, V>>, free: seq<nat>, order: seq<nat>, index: map<K, nat>, p: nat)
    requires Represents(slots, free, order, index) && p < |order|
    ensures order[p] < |slots| && slots[order[p]].key.Some? && slots[order[p]].value.Some?
    ensures |EntriesOf(slots, order, index)| == |order|
    ensures EntriesOf(slots, order, index)[p] == EntryOf(slots[order[p]])
  {
    assert Live(slots[order[p]], order[p], index);
  }

  // --- what each kind of change does to the representation --------------------

  lemma FrontOrder(order: seq<nat>, free: seq<nat>, p: nat, n: nat)
    requires Partition(order, free, n) && p < |order|
    ensures Partition([order[p]] + Cut(order, p), free, n)
    ensures forall x :: x in [order[p]] + Cut(order, p) <==> x in order
  {
    CutOut(order, p, n);
  }

  /** A slot that kept its data stays live, and is the same entry, under a map that still sends its key to it. */
  lemma StaysLive<K, V>(was: Slot<K, V>, now: Slot<K, V>, x: nat, index: map<K, nat>, index': map<K, nat>)
    requires Live(was, x, index) && now.key == was.key && now.value == was.value
    requires was.key.value in index' && index'[was.key.value] == x
    ensures Live(now, x, index') && EntryOf(now) == EntryOf(was)
  {
  }

  lemma PromotedLive<K, V>(slots: seq<Slot<K, V>>, free: seq<nat>, order: seq<nat>, index: map<K, nat>,
                           slots': seq<Slot<K, V>>, p: nat, i: nat)
    requires Represents(slots, free, order, index) && p < |order| && SameData(slots, slots') && i < |order|
    ensures var x := ([order[p]] + Cut(order, p))[i];
      && x < |slots'| && Live(slots'[x], x, index)
      && var es := EntriesOf(slots, order, index);
         EntryOf(slots'[x]) == ([es[p]] + Cut(es, p))[i]
  {
    var q := if i == 0 then p else if i - 1 < p then i - 1 else i;
    assert Live(slots[order[q]], order[q], index);
    StaysLive(slots[order[q]], slots'[order[q]], order[q], index, index);
  }

  lemma PromotedEntries<K, V>(slots: seq<Slot<K, V>>, free: seq<nat>, order: seq<nat>, index: map<K, nat>,
                              slots': seq<Slot<K, V>>, p: nat)
    requires Represents(slots, free, order, index) && p < |order| && SameData(slots, slots')
    ensures var order' := [order[p]] + Cut(order, p);
      && InArena(order', |slots'|) && AllLive(slots', order', index)
      && var es := EntriesOf(slots, order, index);
         EntriesOf(slots', order', index) == [es[p]] + Cut(es, p)
  {
    var order' := [order[p]] + Cut(order, p);
    forall i | 0 <= i < |order'|
      ensures order'[i] < |slots'| && Live(slots'[order'[i]], order'[i], index)
      ensures EntryOf(slots'[order'[i]]) == ([EntriesOf(slots, order, index)[p]] + Cut(EntriesOf(slots, order, index), p))[i]
    {
      PromotedLive(slots, free, order, index, slots', p, i);
    }
  }

  lemma SameDataKeeps<K, V>(slots: seq<Slot<K, V>>, free: seq<nat>, order: seq<nat>, index: map<K, nat>,
                            slots': seq<Slot<K, V>>, order': seq<nat>)
    requires Represents(slots, free, order, index) && SameData(slots, slots')
    requires |order'| == |order| && InArena(order', |slots'|) && forall x :: x in order' <==> x in order
    ensures IndexSound(slots', order', index) && FreeAreEmpty(slots', free)
  {
  }

  lemma Promoted<K, V>(slots: seq<Slot<K, V>>, free: seq<nat>, order: seq<nat>, index: map<K, nat>,
                       slots': seq<Slot<K, V>>, p: nat)
    requires Represents(slots, free, order, index) && p < |order| && SameData(slots, slots')
    ensures var order' := [order[p]] + Cut(order, p);
      && Represents(slots', free, order', index)
      && var es := EntriesOf(slots, order, index);
         EntriesOf(slots', order', index) == [es[p]] + Cut(es, p)
    ensures slots'[order[p]].value == Some(EntriesOf(slots, order, index)[p].value)
  {
    hide NoRepeats, InArena, AllLive, Live, IndexSound, FreeAreEmpty, SameData, EntriesOf;
    var order' := [order[p]] + Cut(order, p);
    FrontOrder(order, free, p, |slots|);
    LiveAt(slots, free, order, index, p);
    SameDataAt(slots, slots', order[p]);
    PromotedEntries(slots, free, order, index, slots', p);
    SameDataKeeps(slots, free, order, index, slots', order');
  }

  /** All but slot x hold the key and value they held. */
  ghost predicate SameDataBut<K, V>(a: seq<Slot<K, V>>, b: seq<Slot<K, V>>, x: nat) {
    |a| <= |b| && forall i :: 0 <= i < |a| && i != x ==> a[i].key == b[i].key && a[i].value == b[i].value
  }

  /** Which free slots still hold the key of an entry that has left: those in `stale`. */
  ghost predicate KeysKept<K, V>(slots: seq<Slot<K, V>>, free: seq<nat>, stale: set<nat>) {
    && (forall x {:trigger x in stale} :: x in stale ==> x in free)
    && (forall x {:trigger x in free} :: x in free && x < |slots| ==> (slots[x].key.Some? <==> x in stale))
  }

  lemma KeptBySameData<K, V>(a: seq<Slot<K, V>>, b: seq<Slot<K, V>>, free: seq<nat>, stale: set<nat>)
    requires SameData(a, b) && KeysKept(a, free, stale)
    ensures KeysKept(b, free, stale)
  {
  }

  lemma KeptByValue<K, V>(a: seq<Slot<K, V>>, free: seq<nat>, stale: set<nat>, x: nat, v: Option<V>)
    requires x < |a| && KeysKept(a, free, stale)
    ensures KeysKept(a[x := a[x].(value := v)], free, stale)
  {
  }

  /** A live slot that joins the free ones is stale exactly if it comes with a key. */
  lemma KeptFreed<K, V>(a: seq<Slot<K, V>>, b: seq<Slot<K, V>>, order: seq<nat>, free: seq<nat>, stale: set<nat>, p: nat)
    requires Partition(order, free, |a|) && p < |order| && |a| == |b| && SameDataBut(a, b, order[p])
    requires KeysKept(a, free, stale)
    ensures KeysKept(b, free + [order[p]], if b[order[p]].key.Some? then stale + {order[p]} else stale)
  {
    assert order[p] in order;
    assert forall y :: y in free + [order[p]] <==> y in free || y == order[p];
  }

  /** A slot taken into use is stale no longer. */
  lemma KeptTaken<K, V>(a: seq<Slot<K, V>>, b: seq<Slot<K, V>>, order: seq<nat>, free: seq<nat>, free': seq<nat>,
                        stale: set<nat>, x: nat)
    requires Partition(order, free, |a|) && TakenFrom(free, free', |a|, |b|, x) && SameDataBut(a, b, x)
    requires KeysKept(a, free, stale)
    ensures KeysKept(b, free', stale - {x})
  {
    if free != [] {
      assert free == free' + [x];
      assert x !in free';
      assert forall y :: y in free <==> y in free' || y == x;
    } else {
      assert stale == {} by {
        assert forall y :: y in stale ==> y in free;
      }
    }
  }

  lemma EmptyArena<K, V>()
    ensures Linked<K, V>([], None, None, [])
    ensures Represents<K, V>([], [], [], map[])
    ensures EntriesOf<K, V>([], [], map[]) == []
    ensures KeysKept<K, V>([], [], {})
  {
  }

  lemma OrderFits(order: seq<nat>, free: seq<nat>, n: nat)
    requires Partition(order, free, n)
    ensures |order| <= n
  {
  }

  lemma EntriesLength<K, V>(slots: seq<Slot<K, V>>, order: seq<nat>, index: map<K, nat>)
    requires InArena(order, |slots|) && AllLive(slots, order, index)
    ensures |EntriesOf(slots, order, index)| == |order|
  {
  }

  /** Filling a slot and then linking it changes no other slot's data. */
  lemma FilledThenLinked<K, V>(a: seq<Slot<K, V>>, grown: seq<Slot<K, V>>, b: seq<Slot<K, V>>, x: nat, k: K, v: V)
    requires a <= grown && x < |grown|
    requires SameData(grown[x := grown[x].(key := Some(k), value := Some(v))], b)
    ensures |b| == |grown| && SameDataBut(a, b, x) && b[x].key == Some(k) && b[x].value == Some(v)
  {
  }

  /** Unlinking a slot and then emptying it changes no other slot's data. */
  lemma UnlinkedThenEmptied<K, V>(a: seq<Slot<K, V>>, b: seq<Slot<K, V>>, x: nat, slot: Slot<K, V>)
    requires SameData(a, b) && x < |a|
    ensures SameDataBut(a, b[x := slot], x)
  {
  }

  /** Emptying a slot and then unlinking it changes no other slot's data. */
  lemma EmptiedThenSame<K, V>(a: seq<Slot<K, V>>, b: seq<Slot<K, V>>, x: nat, slot: Slot<K, V>)
    requires x < |a| && SameData(a[x := slot], b)
    ensures |b| == |a| && SameDataBut(a, b, x)
  {
  }

  lemma CutOrder(order: seq<nat>, free: seq<nat>, p: nat, n: nat)
    requires Partition(order, free, n) && p < |order|
    ensures Partition(Cut(order, p), free + [order[p]], n)
  {
    CutOut(order, p, n);
  }

  lemma RemovedLive<K, V>(slots: seq<Slot<K, V>>, free: seq<nat>, order: seq<nat>, index: map<K, nat>,
                          slots': seq<Slot<K, V>>, p: nat, k: K, i: nat)
    requires Represents(slots, free, order, index) && p < |order| && i < |order| - 1
    requires |slots'| == |slots| && SameDataBut(slots, slots', order[p]) && slots[order[p]].key == Some(k)
    ensures var x := Cut(order, p)[i];
      && x < |slots'| && Live(slots'[x], x, index - {k})
      && EntryOf(slots'[x]) == Cut(EntriesOf(slots, order, index), p)[i]
  {
    var q := if i < p then i else i + 1;
    assert Live(slots[order[q]], order[q], index);
    assert Live(slots[order[p]], order[p], index);
    assert order[q] != order[p];
    StaysLive(slots[order[q]], slots'[order[q]], order[q], index, index - {k});
  }

  lemma RemovedIndex<K, V>(slots: seq<Slot<K, V>>, free: seq<nat>, order: seq<nat>, index: map<K, nat>,
                           slots': seq<Slot<K, V>>, p: nat, k: K)
    requires Represents(slots, free, order, index) && p < |order|
    requires |slots'| == |slots| && SameDataBut(slots, slots', order[p]) && slots[order[p]].key == Some(k)
    ensures InArena(Cut(order, p), |slots'|) && IndexSound(slots', Cut(order, p), index - {k})
  {
    CutOut(order, p, |slots|);
    assert Live(slots[order[p]], order[p], index);
    assert index.Keys == (index - {k}).Keys + {k};
    forall other | other in index - {k}
      ensures index[other] in Cut(order, p) && slots'[index[other]].key == Some(other)
    {
      assert index[other] != order[p];
    }
  }

  lemma RemovedEntries<K, V>(slots: seq<Slot<K, V>>, free: seq<nat>, order: seq<nat>, index: map<K, nat>,
                             slots': seq<Slot<K, V>>, p: nat, k: K)
    requires Represents(slots, free, order, index) && p < |order|
    requires |slots'| == |slots| && SameDataBut(slots, slots', order[p]) && slots[order[p]].key == Some(k)
    ensures InArena(Cut(order, p), |slots'|) && AllLive(slots', Cut(order, p), index - {k})
    ensures EntriesOf(slots', Cut(order, p), index - {k}) == Cut(EntriesOf(slots, order, index), p)
  {
    var order' := Cut(order, p);
    forall i | 0 <= i < |order'|
      ensures order'[i] < |slots'| && Live(slots'[order'[i]], order'[i], index - {k})
      ensures EntryOf(slots'[order'[i]]) == Cut(EntriesOf(slots, order, index), p)[i]
    {
      RemovedLive(slots, free, order, index, slots', p, k, i);
    }
  }

  lemma Removed<K, V>(slots: seq<Slot<K, V>>, free: seq<nat>, order: seq<nat>, index: map<K, nat>,
                      slots': seq<Slot<K, V>>, p: nat, k: K)
    requires Represents(slots, free, order, index) && p < |order|
    requires |slots'| == |slots| && SameDataBut(slots, slots', order[p]) && slots'[order[p]].value.None?
    requires slots[order[p]].key == Some(k)
    ensures Represents(slots', free + [order[p]], Cut(order, p), index - {k})
    ensures EntriesOf(slots', Cut(order, p), index - {k}) == Cut(EntriesOf(slots, order, index), p)
  {
    hide NoRepeats, AllLive, Live, IndexSound, EntriesOf;
    CutOrder(order, free, p, |slots|);
    RemovedIndex(slots, free, order, index, slots', p, k);
    RemovedEntries(slots, free, order, index, slots', p, k);
    forall i | 0 <= i < |free| ensures slots'[free[i]].value.None? {
      assert free[i] in free && order[p] in order;
    }
  }

  lemma PushOrder(order: seq<nat>, free: seq<nat>, free': seq<nat>, n: nat, n': nat, x: nat)
    requires Partition(order, free, n) && TakenFrom(free, free', n, n', x)
    ensures x !in order && Partition([x] + order, free', n')
  {
    if free != [] {
      assert free == free' + [x];
      assert x in free;
      forall y | 0 <= y < n' ensures y in [x] + order <==> y !in free' {
        assert y in free <==> y in free' || y == x;
      }
    }
  }

  /** x is the arena's next slot: the last free one, or a new one where none is free. */
  ghost predicate TakenFrom(free: seq<nat>, free': seq<nat>, n: nat, n': nat, x: nat) {
    if free == [] then x == n && n' == n + 1 && free' == []
    else x == free[|free| - 1] && n' == n && free' == free[..|free| - 1]
  }

  /** Where fewer than `capacity` slots are live, the arena never grows beyond `capacity`. */
  lemma GrownRoom(order: seq<nat>, free: seq<nat>, free': seq<nat>, n: nat, n': nat, x: nat, capacity: nat)
    requires Partition(order, free, n) && TakenFrom(free, free', n, n', x)
    requires |order| < capacity && n <= capacity
    ensures n' <= capacity && x !in order
  {
    PushOrder(order, free, free', n, n', x);
  }

  lemma InsertedIndex<K, V>(slots: seq<Slot<K, V>>, free: seq<nat>, order: seq<nat>, index: map<K, nat>,
                            slots': seq<Slot<K, V>>, free': seq<nat>, x: nat, k: K)
    requires Represents(slots, free, order, index) && k !in index && x < |slots'|
    requires TakenFrom(free, free', |slots|, |slots'|, x)
    requires SameDataBut(slots, slots', x) && slots'[x].key == Some(k)
    ensures InArena([x] + order, |slots'|) && IndexSound(slots', [x] + order, index[k := x])
  {
    hide NoRepeats, Partition, AllLive, FreeAreEmpty;
    var index' := index[k := x];
    PushOrder(order, free, free', |slots|, |slots'|, x);
    assert index'.Keys == index.Keys + {k};
    forall other | other in index'
      ensures index'[other] in [x] + order && index'[other] < |slots'| && slots'[index'[other]].key == Some(other)
    {
      if other != k {
        assert index[other] in order;
      }
    }
  }

  lemma InsertedLive<K, V>(slots: seq<Slot<K, V>>, free: seq<nat>, order: seq<nat>, index: map<K, nat>,
                           slots': seq<Slot<K, V>>, free': seq<nat>, x: nat, k: K, v: V, i: nat)
    requires Represents(slots, free, order, index) && k !in index && x < |slots'| && i <= |order|
    requires TakenFrom(free, free', |slots|, |slots'|, x)
    requires SameDataBut(slots, slots', x) && slots'[x].key == Some(k) && slots'[x].value == Some(v)
    ensures var y := ([x] + order)[i];
      && y < |slots'| && Live(slots'[y], y, index[k := x])
      && EntryOf(slots'[y]) == ([Entry(k, v)] + EntriesOf(slots, order, index))[i]
  {
    if i > 0 {
      var y := order[i - 1];
      PushOrder(order, free, free', |slots|, |slots'|, x);
      assert y in order;
      assert Live(slots[y], y, index);
      StaysLive(slots[y], slots'[y], y, index, index[k := x]);
    }
  }

  lemma InsertedFree<K, V>(slots: seq<Slot<K, V>>, free: seq<nat>, order: seq<nat>,
                           slots': seq<Slot<K, V>>, free': seq<nat>, x: nat, i: nat)
    requires Partition(order, free, |slots|) && FreeAreEmpty(slots, free)
    requires TakenFrom(free, free', |slots|, |slots'|, x) && SameDataBut(slots, slots', x) && i < |free'|
    ensures free'[i] < |slots'| && slots'[free'[i]].value.None?
  {
    assert free'[i] == free[i] != x;
  }

  lemma InsertedEntries<K, V>(slots: seq<Slot<K, V>>, free: seq<nat>, order: seq<nat>, index: map<K, nat>,
                              slots': seq<Slot<K, V>>, free': seq<nat>, x: nat, k: K, v: V)
    requires Represents(slots, free, order, index) && k !in index && x < |slots'|
    requires TakenFrom(free, free', |slots|, |slots'|, x)
    requires SameDataBut(slots, slots', x) && slots'[x].key == Some(k) && slots'[x].value == Some(v)
    ensures InArena([x] + order, |slots'|) && AllLive(slots', [x] + order, index[k := x])
    ensures EntriesOf(slots', [x] + order, index[k := x]) == [Entry(k, v)] + EntriesOf(slots, order, index)
  {
    var order' := [x] + order;
    forall i | 0 <= i < |order'|
      ensures order'[i] < |slots'| && Live(slots'[order'[i]], order'[i], index[k := x])
      ensures EntryOf(slots'[order'[i]]) == ([Entry(k, v)] + EntriesOf(slots, order, index))[i]
    {
      InsertedLive(slots, free, order, index, slots', free', x, k, v, i);
    }
  }

  lemma Inserted<K, V>(slots: seq<Slot<K, V>>, free: seq<nat>, order: seq<nat>, index: map<K, nat>,
                       slots': seq<Slot<K, V>>, free': seq<nat>, x: nat, k: K, v: V)
    requires Represents(slots, free, order, index) && k !in index && x < |slots'|
    requires TakenFrom(free, free', |slots|, |slots'|, x)
    requires SameDataBut(slots, slots', x) && slots'[x].key == Some(k) && slots'[x].value == Some(v)
    ensures Represents(slots', free', [x] + order, index[k := x])
    ensures EntriesOf(slots', [x] + order, index[k := x]) == [Entry(k, v)] + EntriesOf(slots, order, index)
  {
    PushOrder(order, free, free', |slots|, |slots'|, x);
    InsertedIndex(slots, free, order, index, slots', free', x, k);
    InsertedEntries(slots, free, order, index, slots', free', x, k, v);
    forall i | 0 <= i < |free'| ensures slots'[free'[i]].value.None? {
      InsertedFree(slots, free, order, slots', free', x, i);
    }
  }

  lemma Replaced<K, V>(slots: seq<Slot<K, V>>, free: seq<nat>, order: seq<nat>, index: map<K, nat>, p: nat, v: V)
    requires Represents(slots, free, order, index) && p < |order|
    ensures var x := order[p];
      && var slots' := slots[x := slots[x].(value := Some(v))];
      && Represents(slots', free, order, index)
      && var es := EntriesOf(slots, order, index);
         EntriesOf(slots', order, index) == es[p := Entry(es[p].key, v)]
  {
    var x := order[p];
    assert x in order;
    assert forall i :: 0 <= i < |free| ==> free[i] in free;
    assert forall i :: 0 <= i < |order| ==> Live(slots[order[i]], order[i], index);
  }

  /** Moving a slot to the front and then overwriting its value. */
  lemma PromotedAndReplaced<K, V>(slots: seq<Slot<K, V>>, free: seq<nat>, order: seq<nat>, index: map<K, nat>,
                                  slots': seq<Slot<K, V>>, p: nat, v: V)
    requires Represents(slots, free, order, index) && p < |order| && SameData(slots, slots')
    ensures var x, order' := order[p], [order[p]] + Cut(order, p);
      && var slots'' := slots'[x := slots'[x].(value := Some(v))];
      && Represents(slots'', free, order', index)
      && var es := EntriesOf(slots, order, index);
         EntriesOf(slots'', order', index) == [Entry(es[p].key, v)] + Cut(es, p)
    ensures slots'[order[p]].value == Some(EntriesOf(slots, order, index)[p].value)
  {
    hide NoRepeats, InArena, Partition, AllLive, Live, IndexSound, FreeAreEmpty, SameData;
    Promoted(slots, free, order, index, slots', p);
    Replaced(slots', free, [order[p]] + Cut(order, p), index, 0, v);
  }

  /** Overwriting a slot's value and then moving it to the front. */
  lemma ReplacedAndPromoted<K, V>(slots: seq<Slot<K, V>>, free: seq<nat>, order: seq<nat>, index: map<K, nat>,
                                  slots': seq<Slot<K, V>>, p: nat, v: V)
    requires Represents(slots, free, order, index) && p < |order| && order[p] < |slots|
    requires SameData(slots[order[p] := slots[order[p]].(value := Some(v))], slots')
    ensures var order' := [order[p]] + Cut(order, p);
      && Represents(slots', free, order', index)
      && var es := EntriesOf(slots, order, index);
         EntriesOf(slots', order', index) == [Entry(es[p].key, v)] + Cut(es, p)
    ensures slots[order[p]].value == Some(EntriesOf(slots, order, index)[p].value)
  {
    assert Live(slots[order[p]], order[p], index);
    var es := EntriesOf(slots, order, index);
    Replaced(slots, free, order, index, p, v);
    Promoted(slots[order[p] := slots[order[p]].(value := Some(v))], free, order, index, slots', p);
    assert Cut(es[p := Entry(es[p].key, v)], p) == Cut(es, p);
  }

  lemma ReplacedLinks<K, V>(slots: seq<Slot<K, V>>, head: Option<nat>, tail: Option<nat>, order: seq<nat>, x: nat, slot: Slot<K, V>)
    requires Linked(slots, head, tail, order) && x < |slots|
    requires slot.prev == slots[x].prev && slot.next == slots[x].next
    ensures Linked(slots[x := slot], head, tail, order)
  {
    forall i | 0 <= i < |order| ensures LinkedAt(slots[x := slot][order[i]], order, i) {
      assert LinkedAt(slots[order[i]], order, i);
    }
  }

  function AsReply<K, V>(r: Option<V>): Reply<K, V> {
    if r.Some? then Found(r.value) else Nothing
  }

  // --- the sequence operations, at a known place --------------------------------

  lemma LookupAt<K, V>(es: seq<Entry<K, V>>, capacity: nat, p: nat, k: K)
    requires if HasKey(es, k) then Position(es, k) == p else true
    ensures Apply(es, capacity, Op.Get(k)) == if HasKey(es, k) then ([es[p]] + Cut(es, p), Found(es[p].value)) else (es, Nothing)
    ensures Apply(es, capacity, Op.Peek(k)) == (es, if HasKey(es, k) then Found(es[p].value) else Nothing)
  {
    if HasKey(es, k) {
      CutIsSpliced(es, p);
      assert es[p] == Entry(k, es[p].value);
    }
  }

  lemma GetMutAt<K, V>(es: seq<Entry<K, V>>, capacity: nat, p: nat, k: K, write: V -> V)
    requires if HasKey(es, k) then Position(es, k) == p else true
    ensures Apply(es, capacity, Op.GetMut(k, write)) ==
            if HasKey(es, k) then ([Entry(k, write(es[p].value))] + Cut(es, p), Found(es[p].value)) else (es, Nothing)
  {
    if HasKey(es, k) {
      CutIsSpliced(es, p);
    }
  }

  lemma PopAt<K, V>(es: seq<Entry<K, V>>, capacity: nat, p: nat, k: K)
    requires if HasKey(es, k) then Position(es, k) == p else true
    ensures Apply(es, capacity, Op.Pop(k)) == if HasKey(es, k) then (Cut(es, p), Found(es[p].value)) else (es, Nothing)
  {
    if HasKey(es, k) {
      CutIsSpliced(es, p);
    }
  }

  lemma PutAt<K, V>(es: seq<Entry<K, V>>, capacity: nat, p: nat, k: K, v: V)
    requires HasKey(es, k) && Position(es, k) == p
    ensures Apply(es, capacity, Op.Put(k, v)) == ([Entry(k, v)] + Cut(es, p), Found(es[p].value))
  {
    CutIsSpliced(es, p);
  }

  lemma CutLast<T>(s: seq<T>)
    requires s != []
    ensures Cut(s, |s| - 1) == s[..|s| - 1]
  {
  }

  lemma GrownLinks<K, V>(slots: seq<Slot<K, V>>, head: Option<nat>, tail: Option<nat>, order: seq<nat>, slot: Slot<K, V>)
    requires Linked(slots, head, tail, order)
    ensures Linked(slots + [slot], head, tail, order)
  {
    forall i | 0 <= i < |order| ensures LinkedAt((slots + [slot])[order[i]], order, i) {
      assert LinkedAt(slots[order[i]], order, i);
    }
  }

  class LruCache<K(==), V> {
    var map_: map<K, nat>
    var slots: seq<Slot<K, V>>
    var free: seq<nat>
    var head: Option<nat>
    var tail: Option<nat>
    const capacity: nat
    var len: nat
    /** The live slots, most recently used first. */
    ghost var order: seq<nat>
    /** What the cache holds, most recently used first. */
    ghost var contents: seq<Entry<K, V>>
    /** The free slots that `pop` freed last: only it leaves the key behind. */
    ghost var stale: set<nat>

    /** A slot outside the list becomes its first; every other link keeps its meaning. */
    method LinkFront(idx: nat)
      requires Linked(slots, head, tail, order) && idx < |slots| && idx !in order
      modifies this`slots, this`head, this`tail, this`order
      ensures order == [idx] + old(order)
      ensures Linked(slots, head, tail, order) && SameData(old(slots), slots)
    {
      slots := slots[idx := slots[idx].(prev := None)];
      slots := slots[idx := slots[idx].(next := head)];
      match head {
        case Some(h) => slots := slots[h := slots[h].(prev := Some(idx))];
        case None => tail := Some(idx);
      }
      LinkFrontKeeps(old(slots), old(head), old(tail), order, slots, idx);
      head := Some(idx);
      order := [idx] + order;
    }

    /** Rewrite the links around `idx`, whatever list it is in. */
    method Unlink(idx: nat)
      requires LinksInArena(slots, idx)
      modifies this`slots, this`head, this`tail
      ensures slots == Bypass(old(slots), idx, old(slots)[idx].prev, old(slots)[idx].next)
      ensures head == if old(slots)[idx].prev.None? then old(slots)[idx].next else old(head)
      ensures tail == if old(slots)[idx].next.None? then old(slots)[idx].prev else old(tail)
    {
      var prev := slots[idx].prev;
      var next := slots[idx].next;
      match prev {
        case Some(q) => slots := slots[q := slots[q].(next := next)];
        case None => head := next;
      }
      match next {
        case Some(n) => slots := slots[n := slots[n].(prev := prev)];
        case None => tail := prev;
      }
      slots := slots[idx := slots[idx].(prev := None)];
      slots := slots[idx := slots[idx].(next := None)];
    }

    /** The list loses its p-th slot and is well linked without it. */
    method UnlinkLive(idx: nat, ghost p: nat)
      requires Linked(slots, head, tail, order) && p < |order| && order[p] == idx
      modifies this`slots, this`head, this`tail, this`order
      ensures order == Cut(old(order), p)
      ensures Linked(slots, head, tail, order) && SameData(old(slots), slots)
    {
      BypassKeeps(slots, head, tail, order, p);
      Unlink(idx);
      order := Cut(order, p);
    }

    /** The p-th live slot comes first, and the rest close up behind it. */
    method MoveToFront(idx: nat, ghost p: nat)
      requires Linked(slots, head, tail, order) && p < |order| && order[p] == idx
      modifies this`slots, this`head, this`tail, this`order
      ensures order == [idx] + Cut(old(order), p)
      ensures Linked(slots, head, tail, order) && SameData(old(slots), slots)
    {
      if head == Some(idx) {
        assert p == 0;
        assert order == [idx] + Cut(order, 0);
        return;
      }
      CutOut(order, p, |slots|);
      UnlinkLive(idx, p);
      LinkFront(idx);
    }

    // --- the public operations --------------------------------------------------

    ghost predicate Valid()
      reads this
    {
      && Linked(slots, head, tail, order)
      && Represents(slots, free, order, map_)
      && len == |order|
      && 1 <= capacity
      && |slots| <= capacity
      && contents == EntriesOf(slots, order, map_)
      && KeysKept(slots, free, stale)
    }

    /** A free slot holds no value, and a key exactly if it was freed by `pop` last. */
    lemma FreeSlotKeepsKeyIff(x: nat)
      requires Valid() && x in free
      ensures x < |slots| && slots[x].value.None?
      ensures slots[x].key.Some? <==> x in stale
    {
    }

    /** Conservation: live and free slots share out the whole arena, which never outgrows the
        capacity; no key has two entries, and the length is the number of live slots, of map
        keys and of entries. */
    lemma Conserved()
      requires Valid()
      ensures |order| + |free| == |slots| <= capacity
      ensures forall x :: 0 <= x < |slots| ==> (x in order) != (x in free)
      ensures DistinctKeys(contents)
      ensures |contents| == len == |map_| == |order|
      ensures forall k :: k in map_ <==> HasKey(contents, k)
    {
      EntriesAreDistinct(slots, free, order, map_);
      forall k ensures k in map_ <==> HasKey(contents, k) {
        var p := KeyIsAt(slots, free, order, map_, k);
      }
    }

    constructor (capacity: nat)
      requires 1 <= capacity
      ensures Valid() && contents == [] && this.capacity == capacity && stale == {}
    {
      this.capacity := capacity;
      map_, slots, free, head, tail, len := map[], [], [], None, None, 0;
      order, contents, stale := [], [], {};
    }

    /** The value under `key`; a hit puts its entry first and leaves the others in their order. */
    method Get(key: K) returns (r: Option<V>)
      requires Valid()
      modifies this
      ensures Valid()
      ensures (contents, AsReply(r)) == Apply(old(contents), capacity, Op.Get(key))
      ensures stale == old(stale)
    {
      hide KeysKept, NoRepeats, InArena, Partition, LinksAgree, LinkedAt, AllLive, Live, IndexSound, FreeAreEmpty, SameData, SameDataBut, EntriesOf, Cut;
      ghost var p := KeyIsAt(slots, free, order, map_, key);
      if key in map_ {
        LiveAt(slots, free, order, map_, p);
        var idx := map_[key];
        MoveToFront(idx, p);
        SameDataAt(old(slots), slots, idx);
        Promoted(old(slots), free, old(order), map_, slots, p);
        KeptBySameData(old(slots), slots, free, stale);
        contents := EntriesOf(slots, order, map_);
        r := slots[idx].value;
      } else {
        r := None;
      }
      LookupAt(old(contents), capacity, p, key);
    }

    /** The value under `key`, with no entry moved. */
    method Peek(key: K) returns (r: Option<V>)
      requires Valid()
      ensures (contents, AsReply(r)) == Apply(contents, capacity, Op.Peek(key))
    {
      hide KeysKept, NoRepeats, InArena, Partition, LinksAgree, LinkedAt, AllLive, Live, IndexSound, FreeAreEmpty, SameData, SameDataBut, EntriesOf, Cut;
      ghost var p := KeyIsAt(slots, free, order, map_, key);
      if key in map_ {
        LiveAt(slots, free, order, map_, p);
        r := slots[map_[key]].value;
      } else {
        r := None;
      }
      LookupAt(contents, capacity, p, key);
    }

    /** The map answers membership for the entries as a whole. */
    method Contains(key: K) returns (r: bool)
      requires Valid()
      ensures r <==> HasKey(contents, key)
    {
      hide KeysKept, NoRepeats, InArena, Partition, LinksAgree, LinkedAt, AllLive, Live, IndexSound, FreeAreEmpty, SameData, SameDataBut, EntriesOf, Cut;
      ghost var p := KeyIsAt(slots, free, order, map_, key);
      r := key in map_;
    }

    /** Takes the entry out and gives its value back. The slot keeps the key until it is reused. */
    method Pop(key: K) returns (r: Option<V>)
      requires Valid()
      modifies this
      ensures Valid()
      ensures (contents, AsReply(r)) == Apply(old(contents), capacity, Op.Pop(key))
      ensures r.None? ==> stale == old(stale)
      ensures r.Some? ==> free != [] && free[|free| - 1] < |slots| && slots[free[|free| - 1]].key == Some(key)
      ensures r.Some? ==> stale == old(stale) + {free[|free| - 1]}
    {
      hide KeysKept, NoRepeats, InArena, Partition, LinksAgree, LinkedAt, AllLive, Live, IndexSound, FreeAreEmpty, SameData, SameDataBut, EntriesOf, Cut;
      ghost var p := KeyIsAt(slots, free, order, map_, key);
      PopAt(contents, capacity, p, key);
      if key !in map_ {
        return None;
      }
      LiveAt(slots, free, order, map_, p);
      var idx := map_[key];
      r := slots[idx].value;
      ghost var taken := slots[idx].(value := None);
      ReplacedLinks(slots, head, tail, order, idx, taken);
      slots := slots[idx := slots[idx].(value := None)];
      RemoveAt(idx, p);
      SameDataAt(old(slots)[idx := taken], slots, idx);
      EmptiedThenSame(old(slots), slots, idx, taken);
      map_ := map_ - {key};
      Removed(old(slots), old(free), old(order), old(map_), slots, p, key);
      KeptFreed(old(slots), slots, old(order), old(free), stale, p);
      stale := stale + {idx};
      contents := EntriesOf(slots, order, map_);
    }

    /** Takes the last entry out, key and value; nothing happens to an empty cache. */
    method PopLru() returns (r: Option<Entry<K, V>>)
      requires Valid()
      modifies this
      ensures Valid()
      ensures (contents, if r.Some? then Taken(r.value) else Nothing) == Apply(old(contents), capacity, Op.PopLru)
      ensures stale == old(stale)
    {
      hide KeysKept, NoRepeats, InArena, Partition, LinksAgree, LinkedAt, AllLive, Live, IndexSound, FreeAreEmpty, SameData, SameDataBut, EntriesOf, Cut;
      EntriesLength(slots, order, map_);
      if tail.None? {
        return None;
      }
      var idx := tail.value;
      ghost var p := |order| - 1;
      LiveAt(slots, free, order, map_, p);
      var k := slots[idx].key.value;
      var v := slots[idx].value.value;
      ghost var taken := slots[idx].(key := None, value := None);
      ReplacedLinks(slots, head, tail, order, idx, taken);
      slots := slots[idx := slots[idx].(key := None)];
      slots := slots[idx := slots[idx].(value := None)];
      assert slots == old(slots)[idx := taken];
      RemoveAt(idx, p);
      SameDataAt(old(slots)[idx := taken], slots, idx);
      EmptiedThenSame(old(slots), slots, idx, taken);
      map_ := map_ - {k};
      Removed(old(slots), old(free), old(order), old(map_), slots, p, k);
      KeptFreed(old(slots), slots, old(order), old(free), stale, p);
      CutLast(old(contents));
      CutLast(old(order));
      contents := EntriesOf(slots, order, map_);
      r := Some(Entry(k, v));
    }

    /** No entries are left, nor any slots; the bound stays. */
    method Clear()
      requires Valid()
      modifies this
      ensures Valid()
      ensures (contents, Nothing) == Apply(old(contents), capacity, Op.Clear)
      ensures stale == {}
    {
      hide KeysKept, NoRepeats, InArena, Partition, LinksAgree, Linked, Represents, AllLive, IndexSound, FreeAreEmpty, EntriesOf;
      map_ := map[];
      var i := 0;
      while i < |slots|
        invariant 0 <= i <= |slots| && map_ == map[]
      {
        slots := slots[i := slots[i].(key := None)];
        slots := slots[i := slots[i].(value := None)];
        i := i + 1;
      }
      slots, free := [], [];
      head, tail, len := None, None, 0;
      order, contents, stale := [], [], {};
      EmptyArena<K, V>();
    }

    /** As `Get`, and the value is then written through the reference handed out: `write` is what
        the caller makes of it. */
    method GetMut(key: K, write: V -> V) returns (seen: Option<V>)
      requires Valid()
      modifies this
      ensures Valid()
      ensures (contents, AsReply(seen)) == Apply(old(contents), capacity, Op.GetMut(key, write))
      ensures stale == old(stale)
    {
      hide KeysKept, NoRepeats, InArena, Partition, LinksAgree, LinkedAt, AllLive, Live, IndexSound, FreeAreEmpty, SameData, SameDataBut, EntriesOf, Cut;
      ghost var p := KeyIsAt(slots, free, order, map_, key);
      if key in map_ {
        seen := Update(key, write, p);
      } else {
        seen := None;
      }
      GetMutAt(old(contents), capacity, p, key, write);
    }

    /** Promote the entry at place p, then let the caller write to its value. */
    method Update(key: K, write: V -> V, ghost p: nat) returns (seen: Option<V>)
      requires Valid() && key in map_ && p < |order| && order[p] == map_[key]
      modifies this
      ensures Valid() && p < |old(contents)|
      ensures contents == [Entry(old(contents)[p].key, write(old(contents)[p].value))] + Cut(old(contents), p)
      ensures seen == Some(old(contents)[p].value) && stale == old(stale)
    {
      hide KeysKept, NoRepeats, InArena, Partition, LinksAgree, LinkedAt, AllLive, Live, IndexSound, FreeAreEmpty, SameData, SameDataBut, EntriesOf, Cut;
      LiveAt(slots, free, order, map_, p);
      var idx := map_[key];
      MoveToFront(idx, p);
      SameDataAt(old(slots), slots, idx);
      PromotedAndReplaced(old(slots), free, old(order), map_, slots, p, write(old(contents)[p].value));
      seen := slots[idx].value;
      KeptBySameData(old(slots), slots, free, stale);
      KeptByValue(slots, free, stale, idx, Some(write(seen.value)));
      ReplacedLinks(slots, head, tail, order, idx, slots[idx].(value := Some(write(seen.value))));
      slots := slots[idx := slots[idx].(value := Some(write(seen.value)))];
      contents := EntriesOf(slots, order, map_);
    }

    /** The entry comes first. What it displaces is the key's old value or, for a new key in a full
        cache, the value of the last entry. */
    method Put(key: K, value: V) returns (displaced: Option<V>)
      requires Valid()
      modifies this
      ensures Valid()
      ensures (contents, AsReply(displaced)) == Apply(old(contents), capacity, Op.Put(key, value))
      ensures stale <= old(stale)
    {
      hide KeysKept, NoRepeats, InArena, Partition, LinksAgree, LinkedAt, AllLive, Live, IndexSound, FreeAreEmpty, SameData, SameDataBut, EntriesOf, Cut;
      ghost var p := KeyIsAt(slots, free, order, map_, key);
      if key in map_ {
        displaced := Overwrite(key, value, p);
        PutAt(old(contents), capacity, p, key, value);
        return;
      }
      displaced := None;
      EntriesLength(slots, order, map_);
      if len == capacity {
        var evicted := EvictLru();
        EntriesLength(slots, order, map_);
        displaced := Some(evicted.value.value);
      } else {
        OrderFits(order, free, |slots|);
      }
      InsertNew(key, value);
    }

    /** The first part of `put`: a key that is already there, at place p. */
    method Overwrite(key: K, value: V, ghost p: nat) returns (old_: Option<V>)
      requires Valid() && key in map_ && p < |order| && order[p] == map_[key]
      modifies this
      ensures Valid() && p < |old(contents)|
      ensures contents == [Entry(old(contents)[p].key, value)] + Cut(old(contents), p)
      ensures old_ == Some(old(contents)[p].value) && stale == old(stale)
    {
      hide KeysKept, NoRepeats, InArena, Partition, LinksAgree, LinkedAt, AllLive, Live, IndexSound, FreeAreEmpty, SameData, EntriesOf, Cut;
      LiveAt(slots, free, order, map_, p);
      var idx := map_[key];
      old_ := slots[idx].value;
      KeptByValue(slots, free, stale, idx, Some(value));
      ReplacedLinks(slots, head, tail, order, idx, slots[idx].(value := Some(value)));
      slots := slots[idx := slots[idx].(value := Some(value))];
      MoveToFront(idx, p);
      SameDataAt(old(slots)[idx := old(slots)[idx].(value := Some(value))], slots, idx);
      ReplacedAndPromoted(old(slots), free, old(order), map_, slots, p, value);
      KeptBySameData(old(slots)[idx := old(slots)[idx].(value := Some(value))], slots, free, stale);
      contents := EntriesOf(slots, order, map_);
    }

    /** The index freed last, or one past the arena, which then grows by an empty slot. */
    method AllocSlot() returns (idx: nat)
      requires Linked(slots, head, tail, order) && Partition(order, free, |slots|)
      modifies this`slots, this`free, this`stale
      ensures stale == old(stale) - {idx}
      ensures TakenFrom(old(free), free, |old(slots)|, |slots|, idx) && idx < |slots|
      ensures old(slots) <= slots && Linked(slots, head, tail, order)
    {
      if free != [] {
        idx := free[|free| - 1];
        free := free[..|free| - 1];
      } else {
        GrownLinks(slots, head, tail, order, Slot(None, None, None, None));
        slots := slots + [Slot(None, None, None, None)];
        idx := |slots| - 1;
      }
      stale := stale - {idx};
    }

    /** The last part of `put`: a key that is not there, in a cache with room for it. */
    method InsertNew(key: K, value: V)
      requires Valid() && key !in map_ && len < capacity
      modifies this
      ensures Valid() && contents == [Entry(key, value)] + old(contents)
      ensures key in map_ && stale == old(stale) - {map_[key]}
    {
      hide KeysKept, NoRepeats, InArena, Partition, LinksAgree, LinkedAt, AllLive, Live, IndexSound, FreeAreEmpty, SameData, SameDataBut, EntriesOf, Cut;
      var idx := AllocSlot();
      ghost var grown := slots;
      GrownRoom(old(order), old(free), free, |old(slots)|, |slots|, idx, capacity);
      ReplacedLinks(slots, head, tail, order, idx, slots[idx].(key := Some(key), value := Some(value)));
      slots := slots[idx := slots[idx].(key := Some(key))];
      slots := slots[idx := slots[idx].(value := Some(value))];
      assert slots == grown[idx := grown[idx].(key := Some(key), value := Some(value))];
      map_ := map_[key := idx];
      LinkFront(idx);
      FilledThenLinked(old(slots), grown, slots, idx, key, value);
      Inserted(old(slots), old(free), old(order), old(map_), slots, free, idx, key, value);
      KeptTaken(old(slots), slots, old(order), old(free), free, old(stale), idx);
      len := len + 1;
      contents := EntriesOf(slots, order, map_);
    }

    /** The p-th live slot changes lists: out of the live ones, onto the free ones, contents and all. */
    method RemoveAt(idx: nat, ghost p: nat)
      requires Linked(slots, head, tail, order) && p < |order| && order[p] == idx && len == |order|
      modifies this`slots, this`head, this`tail, this`order, this`len, this`free
      ensures Linked(slots, head, tail, order) && order == Cut(old(order), p) && SameData(old(slots), slots)
      ensures len == old(len) - 1 && free == old(free) + [idx]
    {
      UnlinkLive(idx, p);
      len := len - 1;
      free := free + [idx];
    }

    /** The last entry leaves list, map and slot, and its index joins the free ones. */
    method EvictLru() returns (r: Option<Entry<K, V>>)
      requires Valid()
      modifies this
      ensures Valid()
      ensures if old(contents) == [] then r.None? && contents == [] && map_ == old(map_)
              else r == Some(old(contents)[|old(contents)| - 1]) && contents == old(contents)[..|old(contents)| - 1]
                   && map_ == old(map_) - {r.value.key}
      ensures stale == old(stale)
    {
      hide KeysKept, NoRepeats, InArena, Partition, LinksAgree, LinkedAt, AllLive, Live, IndexSound, FreeAreEmpty, SameData, SameDataBut, EntriesOf, Cut;
      EntriesLength(slots, order, map_);
      if tail.None? {
        return None;
      }
      var idx := tail.value;
      ghost var p := |order| - 1;
      LiveAt(slots, free, order, map_, p);
      UnlinkLive(idx, p);
      SameDataAt(old(slots), slots, idx);
      var k := slots[idx].key.value;
      var v := slots[idx].value.value;
      ghost var emptied := slots[idx].(key := None, value := None);
      ReplacedLinks(slots, head, tail, order, idx, emptied);
      UnlinkedThenEmptied(old(slots), slots, idx, emptied);
      ghost var unlinked := slots;
      slots := slots[idx := slots[idx].(key := None)];
      slots := slots[idx := slots[idx].(value := None)];
      assert slots == unlinked[idx := emptied];
      len := len - 1;
      free := free + [idx];
      map_ := map_ - {k};
      Removed(old(slots), old(free), old(order), old(map_), slots, p, k);
      KeptFreed(old(slots), slots, old(order), old(free), stale, p);
      CutLast(old(contents));
      CutLast(old(order));
      contents := EntriesOf(slots, order, map_);
      r := Some(Entry(k, v));
    }

    /** A walk that has every entry still ahead of it, in the cache's order. */
    method Iterate() returns (it: Iter<K, V>)
      requires Valid()
      ensures fresh(it) && it.Valid() && it.pending == contents
    {
      it := new Iter(slots, head, order, map_);
    }
  }

  lemma PutThenPop<K, V>(key: K, value: V)
    ensures Apply([], 1, Op.Put(key, value)).0 == [Entry(key, value)]
    ensures Apply([Entry(key, value)], 1, Op.Pop(key)).1 == Found(value)
  {
    var es := [Entry(key, value)];
    assert es[0].key == key;
    PositionIs(es, 0);
  }

  /** A cache into which an entry is put and popped again has a free slot with its key in it. */
  method PoppedSlotKeepsKey<K(==), V>(key: K, value: V) returns (cache: LruCache<K, V>)
    ensures cache.Valid() && cache.free != [] && cache.free[|cache.free| - 1] < |cache.slots|
    ensures cache.slots[cache.free[|cache.free| - 1]].key == Some(key)
  {
    hide Linked, Represents, KeysKept, EntriesOf, Apply;
    cache := new LruCache(1);
    var displaced := cache.Put(key, value);
    var popped := cache.Pop(key);
    PutThenPop(key, value);
  }

  /** A walk over the entries, most recently used first. */
  class Iter<K, V> {
    const slots: seq<Slot<K, V>>
    var cur: Option<nat>
    /** The walk's own list, how far it has got, and what it has still to yield. */
    ghost const order: seq<nat>
    ghost const index: map<K, nat>
    ghost var at: nat
    ghost var pending: seq<Entry<K, V>>

    ghost predicate Valid()
      reads this
    {
      && InArena(order, |slots|) && LinksAgree(slots, order) && AllLive(slots, order, index)
      && at <= |order|
      && cur == (if at == |order| then None else Some(order[at]))
      && pending == EntriesOf(slots, order, index)[at..]
    }

    constructor (slots: seq<Slot<K, V>>, head: Option<nat>, ghost order: seq<nat>, ghost index: map<K, nat>)
      requires InArena(order, |slots|) && LinksAgree(slots, order) && AllLive(slots, order, index)
      requires head == First(order)
      ensures Valid() && pending == EntriesOf(slots, order, index)
    {
      this.slots, cur := slots, head;
      this.order, this.index, at := order, index, 0;
      pending := EntriesOf(slots, order, index);
    }

    method Next() returns (item: Option<Entry<K, V>>)
      requires Valid()
      modifies this
      ensures Valid()
      ensures if old(pending) == [] then item.None? && pending == []
              else item == Some(old(pending)[0]) && pending == old(pending)[1..]
    {
      if cur.None? {
        return None;
      }
      var idx := cur.value;
      assert LinkedAt(slots[order[at]], order, at) && Live(slots[order[at]], order[at], index);
      var slot := slots[idx];
      cur := slot.next;
      at := at + 1;
      pending := pending[1..];
      if slot.key.None? || slot.value.None? {
        return None;
      }
      return Some(Entry(slot.key.value, slot.value.value));
    }

    method SizeHint() returns (n: nat)
      requires Valid()
      ensures n == |pending|
    {
      n := 0;
      var c := cur;
      while c.Some?
        invariant at + n <= |order|
        invariant c == (if at + n == |order| then None else Some(order[at + n]))
        decreases |order| - n
      {
        assert LinkedAt(slots[order[at + n]], order, at + n);
        n := n + 1;
        c := slots[c.value].next;
      }
    }
  }
}
