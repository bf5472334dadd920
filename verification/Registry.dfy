/** The open-addressing table of live headers: linear probing from a masked hash, with
    tombstones (yc_runtime.c:44-50, 123-217, 285-305). The view `live` is the set it
    stands for. Slot contents: 0 is empty, 1 is a tombstone, anything else a header. */
module Registry {
  import opened PointerHash

  const TOMBSTONE: nat := 1
  const FIRST_CAP: nat := 1024

  function Home(h: nat, cap: nat): nat
    requires cap > 0
  {
    And(Hash(h + HEADER), cap - 1)
  }

  /** The k-th slot of the cyclic probe sequence. */
  function Probe(home: nat, k: nat, cap: nat): nat
    requires home < cap && k < cap
  {
    if home + k < cap then home + k else home + k - cap
  }

  predicate PowerOfTwo(cap: nat, e: nat) { cap == Pow2(e) }

  lemma HomeInTable(h: nat, cap: nat, e: nat)
    requires PowerOfTwo(cap, e)
    ensures Home(h, cap) < cap
  {
    hide Hash;
    MaskBound(Hash(h + HEADER), e);
  }

  /** `(slot + 1) & mask` is the next slot of the cycle. */
  lemma NextProbe(home: nat, k: nat, cap: nat, e: nat)
    requires PowerOfTwo(cap, e) && home < cap && k < cap
    ensures And(Probe(home, k, cap) + 1, cap - 1)
         == if k + 1 < cap then Probe(home, k + 1, cap) else home
  {
    var slot := Probe(home, k, cap);
    if slot + 1 < cap { MaskKeeps(slot + 1, e); } else { MaskWraps(e); }
  }

  // ----- what a table means -----

  /** Every probe before the k-th hits an occupied slot. */
  ghost predicate Occupied(s: seq<nat>, home: nat, k: nat)
    requires home < |s| && k <= |s|
  {
    forall j :: 0 <= j < k ==> s[Probe(home, j, |s|)] != 0
  }

  ghost predicate FoundAt(s: seq<nat>, h: nat, k: nat)
    requires |s| > 0 && Home(h, |s|) < |s|
  {
    k < |s| && s[Probe(Home(h, |s|), k, |s|)] == h && Occupied(s, Home(h, |s|), k)
  }

  /** `h` is stored on its own probe path with no empty slot before it. */
  ghost predicate Reachable(s: seq<nat>, h: nat) {
    |s| > 0 && Home(h, |s|) < |s| && exists k :: FoundAt(s, h, k)
  }

  ghost predicate Table(s: seq<nat>, live: set<nat>) {
    && (forall i :: 0 <= i < |s| && s[i] > TOMBSTONE ==> s[i] in live)
    && (forall i, j :: 0 <= i < j < |s| && s[i] == s[j] ==> s[i] <= TOMBSTONE)
    && (forall h <- live :: h > TOMBSTONE && Reachable(s, h))
  }

  /** Slots that end no probe: headers and tombstones. */
  function NonNull(s: seq<nat>): nat {
    if s == [] then 0
    else NonNull(s[..|s| - 1]) + if s[|s| - 1] == 0 then 0 else 1
  }

  lemma {:induction false} NonNullUpdate(s: seq<nat>, i: nat, v: nat)
    requires i < |s|
    ensures NonNull(s[i := v])
         == NonNull(s) - (if s[i] == 0 then 0 else 1) + (if v == 0 then 0 else 1)
  {
    var n := |s| - 1;
    if i == n {
      assert s[i := v][..n] == s[..n];
    } else {
      NonNullUpdate(s[..n], i, v);
      assert s[i := v][..n] == s[..n][i := v];
    }
  }

  lemma {:induction false} EmptySlotExists(s: seq<nat>) returns (z: nat)
    requires NonNull(s) < |s|
    ensures z < |s| && s[z] == 0
  {
    var n := |s| - 1;
    if s[n] == 0 { z := n; } else { z := EmptySlotExists(s[..n]); }
  }

  lemma {:induction false} AllNull(s: seq<nat>)
    requires forall i :: 0 <= i < |s| ==> s[i] == 0
    ensures NonNull(s) == 0
  {
    if s != [] { AllNull(s[..|s| - 1]); }
  }

  /** The headers among the first `i` slots. */
  ghost function Stored(s: seq<nat>, i: nat): set<nat>
    requires i <= |s|
  {
    if i == 0 then {}
    else Stored(s, i - 1) + if s[i - 1] > TOMBSTONE then {s[i - 1]} else {}
  }

  lemma {:induction false} StoredAt(s: seq<nat>, i: nat, x: nat)
    requires i <= |s|
    ensures x in Stored(s, i) <==> exists j :: 0 <= j < i && s[j] == x && x > TOMBSTONE
  {
    if i > 0 { StoredAt(s, i - 1, x); }
  }

  lemma {:induction false} StoredCount(s: seq<nat>, i: nat)
    requires i <= |s|
    ensures |Stored(s, i)| <= NonNull(s[..i]) <= NonNull(s)
    ensures i == 0 ==> Stored(s, i) == {}
    decreases i
  {
    NonNullPrefix(s, i);
    if i > 0 {
      StoredCount(s, i - 1);
      assert s[..i][..i - 1] == s[..i - 1];
      AtMostOneMore(Stored(s, i - 1), s[i - 1]);
    }
  }

  lemma AtMostOneMore(a: set<nat>, x: nat)
    ensures |a + {x}| <= |a| + 1 && a + {} == a
  {
    if x in a { assert a + {x} == a; }
  }

  lemma {:induction false} NonNullPrefix(s: seq<nat>, i: nat)
    requires i <= |s|
    ensures NonNull(s[..i]) <= NonNull(s)
    decreases |s|
  {
    if i < |s| {
      NonNullPrefix(s[..|s| - 1], i);
      assert s[..|s| - 1][..i] == s[..i];
    } else {
      assert s[..i] == s;
    }
  }

  lemma StoredStep(s: seq<nat>, live: set<nat>, i: nat)
    requires Table(s, live) && i < |s|
    ensures Stored(s, i + 1) == Stored(s, i) + if s[i] > TOMBSTONE then {s[i]} else {}
    ensures s[i] > TOMBSTONE ==> s[i] !in Stored(s, i)
  {
    hide Hash;
    StoredAt(s, i, s[i]);
  }

  lemma EmptyTable(s: seq<nat>)
    requires forall i :: 0 <= i < |s| ==> s[i] == 0
    ensures Table(s, {}) && NonNull(s) == 0
  {
    AllNull(s);
  }

  lemma AllStored(s: seq<nat>, live: set<nat>)
    requires Table(s, live)
    ensures Stored(s, |s|) == live
  {
    hide Hash;
    forall x
      ensures x in Stored(s, |s|) <==> x in live
    {
      StoredAt(s, |s|, x);
      if x in live {
        assert Reachable(s, x);
        var k :| FoundAt(s, x, k);
      }
    }
  }

  /** The probe number at which a slot is met. */
  function Distance(home: nat, z: nat, cap: nat): (k: nat)
    requires home < cap && z < cap
    ensures k < cap && Probe(home, k, cap) == z
  {
    if home <= z then z - home else z - home + cap
  }

  /** A probe in progress: `slot` is its k-th slot, all earlier ones were occupied, and
      the empty slot `z` is still ahead, so the probe must end. */
  ghost predicate Probing(s: seq<nat>, home: nat, k: nat, slot: nat, z: nat) {
    && home < |s| && z < |s| && s[z] == 0
    && k <= Distance(home, z, |s|)
    && slot == Probe(home, k, |s|) && Occupied(s, home, k)
  }

  lemma StartProbe(s: seq<nat>, home: nat) returns (z: nat)
    requires home < |s| && NonNull(s) < |s|
    ensures Probing(s, home, 0, home, z)
  {
    z := EmptySlotExists(s);
  }

  lemma StepProbe(s: seq<nat>, home: nat, k: nat, slot: nat, z: nat, e: nat)
    requires PowerOfTwo(|s|, e) && Probing(s, home, k, slot, z) && s[slot] != 0
    ensures Probing(s, home, k + 1, And(slot + 1, |s| - 1), z)
  {
    NextProbe(home, k, |s|, e);
  }

  /** The first `k` probes did not meet `h`. */
  ghost predicate Missed(s: seq<nat>, home: nat, k: nat, h: nat)
    requires home < |s| && k <= |s|
  {
    forall j :: 0 <= j < k ==> s[Probe(home, j, |s|)] != h
  }

  /** A probe that reaches an empty slot without meeting `h` proves it is not stored. */
  lemma AbsentAtEmpty(s: seq<nat>, live: set<nat>, h: nat, k: nat)
    requires Table(s, live) && |s| > 0 && Home(h, |s|) < |s| && k < |s|
    requires h > TOMBSTONE && s[Probe(Home(h, |s|), k, |s|)] == 0
    requires Missed(s, Home(h, |s|), k, h)
    ensures h !in live
  {
    hide Hash;
    forall k': nat
      ensures !FoundAt(s, h, k')
    {
      assert k' < k || k' == k || k < k';
    }
    assert !Reachable(s, h);
  }

  lemma StoredOnly(s: seq<nat>, live: set<nat>, i: nat)
    requires Table(s, live) && i < |s| && s[i] > TOMBSTONE
    ensures s[i] in live
  {
  }

  lemma HeadersAbove(s: seq<nat>, live: set<nat>)
    requires Table(s, live)
    ensures forall h <- live :: h > TOMBSTONE
  {
  }

  lemma PlaceKeeps(s: seq<nat>, live: set<nat>, h: nat, k: nat)
    requires Table(s, live) && |s| > 0 && h > TOMBSTONE && h !in live
    requires Home(h, |s|) < |s| && k < |s| && Occupied(s, Home(h, |s|), k)
    requires s[Probe(Home(h, |s|), k, |s|)] <= TOMBSTONE
    ensures Table(s[Probe(Home(h, |s|), k, |s|) := h], live + {h})
  {
    hide Hash;
    var t := Probe(Home(h, |s|), k, |s|);
    var s' := s[t := h];
    assert FoundAt(s', h, k);
    forall x <- live
      ensures Reachable(s', x)
    {
      assert Reachable(s, x);
      var k' :| FoundAt(s, x, k');
      assert FoundAt(s', x, k');
    }
  }

  lemma EraseKeeps(s: seq<nat>, live: set<nat>, h: nat, t: nat)
    requires Table(s, live) && t < |s| && s[t] == h && h > TOMBSTONE
    ensures Table(s[t := TOMBSTONE], live - {h})
  {
    hide Hash;
    var s' := s[t := TOMBSTONE];
    forall x <- live - {h}
      ensures Reachable(s', x)
    {
      assert Reachable(s, x);
      var k' :| FoundAt(s, x, k');
      assert FoundAt(s', x, k');
    }
  }

  class Registry {
    var slots: array<nat>  // no slots at all before the first insertion
    var count: nat
    var used: nat
    ghost var log: nat
    ghost var live: set<nat>

    ghost predicate Valid()
      reads this, slots
    {
      && (slots.Length == 0 ==> live == {} && count == used == 0)
      && (slots.Length > 0 ==>
            && Shaped(slots[..], live)
            && used * 3 < slots.Length * 2)
    }

    /** Everything but the load bound, which resizing re-establishes at its end. */
    ghost predicate Shaped(s: seq<nat>, members: set<nat>)
      reads this
    {
      && |s| > 0 && PowerOfTwo(|s|, log) && Table(s, members)
      && count == |members| && used == NonNull(s)
    }

    constructor ()
      ensures Valid() && live == {} && fresh(slots)
    {
      slots := new nat[0];
      count, used, log, live := 0, 0, 0, {};
    }

    /** The one store that both insertion paths end in. */
    method Store(slot: nat, h: nat, ghost k: nat, ghost members: set<nat>)
      requires slots.Length > 0 && Table(slots[..], members) && count == |members|
      requires h > TOMBSTONE && h !in members && k < slots.Length
      requires Home(h, slots.Length) < slots.Length
      requires Occupied(slots[..], Home(h, slots.Length), k)
      requires slot == Probe(Home(h, slots.Length), k, slots.Length) && slots[slot] <= TOMBSTONE
      modifies this`count, slots
      ensures Table(slots[..], members + {h}) && count == |members + {h}|
      ensures NonNull(slots[..]) == old(NonNull(slots[..])) + if old(slots[slot]) == 0 then 1 else 0
    {
      hide Hash, Table, Occupied;
      ghost var s := slots[..];
      PlaceKeeps(s, members, h, k);
      NonNullUpdate(s, slot, h);
      slots[slot] := h;
      assert slots[..] == s[slot := h];
      count := count + 1;
      assert |members + {h}| == |members| + 1;
    }

    /** One entry of the old table goes to the first empty slot of its probe path
        (yc_runtime.c:143-151). */
    method Rehash(h: nat, ghost members: set<nat>)
      requires Shaped(slots[..], members) && used < slots.Length
      requires h > TOMBSTONE && h !in members
      modifies this`count, this`used, slots
      ensures Shaped(slots[..], members + {h})
      ensures used == old(used) + 1
    {
      hide Hash, Table, Occupied;
      var cap := slots.Length;
      ghost var s, k := slots[..], 0;
      HomeInTable(h, cap, log);
      var slot: nat := Home(h, cap);
      ghost var z := StartProbe(s, slot);
      while slots[slot] != 0
        invariant slots[..] == s && Probing(s, Home(h, cap), k, slot, z)
        invariant Shaped(s, members) && used == old(used)
        decreases cap - k
      {
        StepProbe(s, Home(h, cap), k, slot, z, log);
        slot, k := And(slot + 1, cap - 1), k + 1;
      }
      assert s[slot] == 0;
      Store(slot, h, k, members);
      used := used + 1;
    }

    /** Rebuilding drops the tombstones and loses no header (yc_runtime.c:123-156). */
    method Resize(nextCap: nat, ghost e: nat)
      requires Valid() && PowerOfTwo(nextCap, e) && slots.Length <= nextCap
      requires used < nextCap
      modifies this
      ensures fresh(slots) && slots.Length == nextCap && live == old(live) && log == e
      ensures Shaped(slots[..], live) && used == count
      ensures used <= old(used)
    {
      hide Hash, Table, NonNull, Stored;
      var before := slots;
      ghost var s := before[..];
      slots := new nat[nextCap](_ => 0);
      count, used, log := 0, 0, e;
      EmptyTable(slots[..]);
      StoredCount(s, 0);
      ghost var moved: set<nat> := {};
      var i := 0;
      while i < before.Length
        invariant 0 <= i <= before.Length && before[..] == s
        invariant fresh(slots) && slots != before && slots.Length == nextCap
        invariant live == old(live) && log == e
        invariant moved == Stored(s, i)
        invariant Shaped(slots[..], moved) && used == count
        decreases before.Length - i
      {
        StoredCount(s, i);
        StoredStep(s, live, i);
        if before[i] != 0 && before[i] != TOMBSTONE {
          Rehash(before[i], moved);
          moved := moved + {s[i]};
        }
        i := i + 1;
      }
      StoredCount(s, |s|);
      if s == [] { EmptyTable(s); }
      AllStored(s, live);
    }

    /** Grow before an insertion so that at least a third of the slots stays empty
        (yc_runtime.c:158-166). */
    method Ensure()
      requires Valid()
      modifies this
      ensures Valid() && live == old(live)
      ensures slots.Length > 0 && (used + 1) * 3 < slots.Length * 2
      ensures slots.Length == if old(slots.Length) == 0 then FIRST_CAP
                              else if (old(used) + 1) * 3 >= old(slots.Length) * 2 then old(slots.Length) * 2
                              else old(slots.Length)
      ensures slots == old(slots) || fresh(slots)
    {
      if slots.Length == 0 {
        assert Pow2(10) == FIRST_CAP;
        Resize(FIRST_CAP, 10);
      } else if (used + 1) * 3 >= slots.Length * 2 {
        Resize(slots.Length * 2, log + 1);
      }
    }

    /** The insertion probe (yc_runtime.c:173-194): either the header is already there, or
        the slot to use is the first tombstone met, else the empty slot that ended it. */
    method Seek(h: nat) returns (present: bool, slot: nat, ghost k: nat)
      requires Valid() && slots.Length > 0 && h > TOMBSTONE
      ensures present <==> h in live
      ensures k < slots.Length && Home(h, slots.Length) < slots.Length
      ensures slot == Probe(Home(h, slots.Length), k, slots.Length)
      ensures !present ==> slots[slot] <= TOMBSTONE && Occupied(slots[..], Home(h, slots.Length), k)
      ensures !present ==>
                forall j :: 0 <= j < k ==> slots[Probe(Home(h, slots.Length), j, slots.Length)] > TOMBSTONE
    {
      hide Hash, Table;
      var cap := slots.Length;
      ghost var s := slots[..];
      k := 0;
      HomeInTable(h, cap, log);
      slot := Home(h, cap);
      ghost var z := StartProbe(s, slot);
      var firstTombstone: int := -1;
      ghost var kt := 0;
      while slots[slot] != 0
        invariant slots[..] == s && Probing(s, Home(h, cap), k, slot, z)
        invariant Missed(s, Home(h, cap), k, h)
        invariant 0 <= kt <= k && (firstTombstone == -1 ==> kt == k)
        invariant forall j :: 0 <= j < kt ==> s[Probe(Home(h, cap), j, cap)] > TOMBSTONE
        invariant firstTombstone != -1 ==>
                    kt < k && firstTombstone == Probe(Home(h, cap), kt, cap) && s[firstTombstone] == TOMBSTONE
        decreases cap - k
      {
        assert s[slot] == slots[slot];
        if slots[slot] == TOMBSTONE {
          if firstTombstone == -1 { firstTombstone, kt := slot, k; }
        } else if slots[slot] == h {
          StoredOnly(s, live, slot);
          return true, slot, k;
        }
        StepProbe(s, Home(h, cap), k, slot, z, log);
        slot, k := And(slot + 1, cap - 1), k + 1;
        if firstTombstone == -1 { kt := k; }
      }
      assert s[slot] == 0;
      AbsentAtEmpty(s, live, h, k);
      if firstTombstone != -1 {
        slot := firstTombstone;
      }
      return false, slot, kt;
    }

    /** Add a header; one that is already stored is left where it is
        (yc_runtime.c:168-196). */
    method Add(h: nat)
      requires Valid() && h > TOMBSTONE
      modifies this, slots
      ensures Valid() && live == old(live) + {h}
      ensures slots == old(slots) || fresh(slots)
    {
      hide Hash, Table, Occupied;
      Ensure();
      var present, slot, k := Seek(h);
      if present {
        assert live + {h} == live;
        return;
      }
      if slots[slot] == 0 { used := used + 1; }
      Store(slot, h, k, live);
      live := live + {h};
    }

    /** Replace a header by a tombstone; an unknown header changes nothing
        (yc_runtime.c:198-217). */
    method Drop(h: nat)
      requires Valid() && h > TOMBSTONE
      modifies this`count, this`live, slots
      ensures Valid() && live == old(live) - {h}
    {
      hide Hash, Table, Occupied;
      if slots.Length == 0 { return; }
      var cap := slots.Length;
      ghost var s, k := slots[..], 0;
      HomeInTable(h, cap, log);
      var slot: nat := Home(h, cap);
      ghost var z := StartProbe(s, slot);
      while slots[slot] != 0
        invariant slots[..] == s && Probing(s, Home(h, cap), k, slot, z)
        invariant Missed(s, Home(h, cap), k, h)
        invariant Valid() && live == old(live)
        decreases cap - k
      {
        assert s[slot] == slots[slot];
        if slots[slot] == h {
          StoredOnly(s, live, slot);
          EraseKeeps(s, live, h, slot);
          NonNullUpdate(s, slot, TOMBSTONE);
          slots[slot] := TOMBSTONE;
          assert slots[..] == s[slot := TOMBSTONE];
          if count > 0 { count := count - 1; }
          live := live - {h};
          return;
        }
        StepProbe(s, Home(h, cap), k, slot, z, log);
        slot, k := And(slot + 1, cap - 1), k + 1;
      }
      assert s[slot] == 0;
      AbsentAtEmpty(s, live, h, k);
    }

    /** The header in front of a payload address, or 0: exact whatever mix of insertions,
        removals and rebuilds came before (yc_runtime.c:285-305). */
    method Lookup(ptr: nat) returns (header: nat)
      requires Valid()
      ensures header == if ptr >= HEADER && ptr - HEADER in live then ptr - HEADER else 0
    {
      hide Hash, Table, Occupied;
      if ptr == 0 || slots.Length == 0 { return 0; }
      var cap := slots.Length;
      ghost var s, k := slots[..], 0;
      MaskBound(Hash(ptr), log);
      var slot: nat := And(Hash(ptr), cap - 1);
      ghost var home := slot;
      ghost var z := StartProbe(s, slot);
      while slots[slot] != 0
        invariant slots[..] == s && Probing(s, home, k, slot, z)
        invariant ptr > HEADER + TOMBSTONE ==> Missed(s, home, k, ptr - HEADER)
        decreases cap - k
      {
        header := slots[slot];
        assert s[slot] == header;
        if header != TOMBSTONE && header + HEADER == ptr {
          StoredOnly(s, live, slot);
          return;
        }
        StepProbe(s, home, k, slot, z, log);
        slot, k := And(slot + 1, cap - 1), k + 1;
      }
      assert s[slot] == 0;
      if ptr > HEADER + TOMBSTONE {
        AbsentAtEmpty(s, live, ptr - HEADER, k);
      } else {
        HeadersAbove(s, live);
      }
      return 0;
    }

    /** Shutdown gives the table back (yc_runtime.c:413-418). */
    method Reset()
      modifies this
      ensures Valid() && live == {} && fresh(slots)
    {
      slots := new nat[0];
      count, used, log, live := 0, 0, 0, {};
    }
  }
}
