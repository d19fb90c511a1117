/** The pool of side streams: 63 ids move between two free lists, live streams and
    the lists of streams that wait to be reused (src/glm_ops.ts). */
module StreamPool {
  import opened Wrappers

  const MAX_STREAMS: nat := 63

  predicate HighPriority(stream: nat) { stream % 2 == 1 }

  // ---------------------------------------------------------------------
  // Sorted lists of ids

  predicate Increasing(xs: seq<nat>) {
    forall i, j {:trigger xs[i], xs[j]} :: 0 <= i < j < |xs| ==> xs[i] < xs[j]
  }

  function Insert(x: nat, xs: seq<nat>): (r: seq<nat>)
    ensures forall y {:trigger y in r} :: y in r <==> y == x || y in xs
  {
    if xs == [] || x <= xs[0] then [x] + xs else [xs[0]] + Insert(x, xs[1..])
  }

  /** Array.prototype.sort by number. */
  function Sort(xs: seq<nat>): (r: seq<nat>)
    ensures forall y {:trigger y in r} :: y in r <==> y in xs
  {
    if xs == [] then [] else Insert(xs[0], Sort(xs[1..]))
  }

  ghost predicate Distinct(xs: seq<nat>) {
    forall i, j {:trigger xs[i], xs[j]} :: 0 <= i < j < |xs| ==> xs[i] != xs[j]
  }

  lemma {:induction false} InsertIncreasing(x: nat, xs: seq<nat>)
    requires Increasing(xs) && x !in xs
    ensures Increasing(Insert(x, xs))
  {
    if xs != [] && x > xs[0] {
      InsertIncreasing(x, xs[1..]);
      var rest := Insert(x, xs[1..]);
      forall j | 0 <= j < |rest| ensures xs[0] < rest[j] {
        assert rest[j] in rest;
        if rest[j] != x {
          var i :| 0 <= i < |xs[1..]| && xs[1..][i] == rest[j];
          assert xs[1..][i] == xs[i + 1];
        }
      }
    }
  }

  lemma {:induction false} SortIncreasing(xs: seq<nat>)
    requires Distinct(xs)
    ensures Increasing(Sort(xs))
  {
    if xs != [] {
      SortIncreasing(xs[1..]);
      InsertIncreasing(xs[0], Sort(xs[1..]));
    }
  }

  lemma ConcatDistinct(xs: seq<nat>, ys: seq<nat>)
    requires Increasing(xs) && Increasing(ys) && forall y :: y in ys ==> y !in xs
    ensures Distinct(xs + ys)
  {
    forall i, j | 0 <= i < j < |xs + ys| ensures (xs + ys)[i] != (xs + ys)[j] {
      if i < |xs| <= j { assert (xs + ys)[i] in xs && (xs + ys)[j] in ys; }
    }
  }

  lemma NoMembers(ys: seq<nat>)
    requires forall x :: x !in ys
    ensures ys == []
  {
    if ys != [] { HasMember(ys); }
  }

  lemma HasMember(ys: seq<nat>)
    requires ys != []
    ensures exists y :: y in ys
  {
    assert ys[0] in ys;
  }

  /** A sorted list is determined by its members. */
  lemma {:induction false} SortedUnique(xs: seq<nat>, ys: seq<nat>)
    requires Increasing(xs) && Increasing(ys) && forall x :: x in xs <==> x in ys
    ensures xs == ys
  {
    if xs == [] {
      NoMembers(ys);
    } else {
      assert xs[0] in xs && xs[0] in ys;
      assert ys[0] in ys && ys[0] in xs;
      assert xs[0] == ys[0];
      forall x ensures x in xs[1..] <==> x in ys[1..] {
        assert x in xs[1..] <==> x in xs && x != xs[0] by { TailMember(xs, x); }
        assert x in ys[1..] <==> x in ys && x != ys[0] by { TailMember(ys, x); }
      }
      SortedUnique(xs[1..], ys[1..]);
    }
  }

  lemma TailMember(xs: seq<nat>, x: nat)
    requires xs != [] && Increasing(xs)
    ensures x in xs[1..] <==> x in xs && x != xs[0]
  {
    if x in xs[1..] {
      var i :| 0 <= i < |xs[1..]| && xs[1..][i] == x;
      assert xs[i + 1] == x;
    }
    if x in xs && x != xs[0] {
      var i :| 0 <= i < |xs| && xs[i] == x;
      assert xs[1..][i - 1] == x;
    }
  }

  lemma HeadBelow(xs: seq<nat>, y: nat)
    requires xs != [] && Increasing(xs) && y in xs[1..]
    ensures xs[0] < y
  {
    var i :| 0 <= i < |xs[1..]| && xs[1..][i] == y;
    assert xs[i + 1] == y;
  }

  /** The list without one id. */
  function Without(xs: seq<nat>, x: nat): (r: seq<nat>)
    ensures forall y {:trigger y in r} :: y in r <==> y in xs && y != x
  {
    if xs == [] then [] else (if xs[0] == x then [] else [xs[0]]) + Without(xs[1..], x)
  }

  lemma {:induction false} WithoutIncreasing(xs: seq<nat>, x: nat)
    requires Increasing(xs)
    ensures Increasing(Without(xs, x))
  {
    if xs != [] {
      WithoutIncreasing(xs[1..], x);
      var rest := Without(xs[1..], x);
      forall j | 0 <= j < |rest| ensures xs[0] < rest[j] {
        assert rest[j] in rest;
        HeadBelow(xs, rest[j]);
      }
    }
  }

  /** The ids of one priority. */
  function Only(xs: seq<nat>, high: bool): (r: seq<nat>)
    ensures forall y {:trigger y in r} :: y in r <==> y in xs && HighPriority(y) == high
  {
    if xs == [] then [] else (if HighPriority(xs[0]) == high then [xs[0]] else []) + Only(xs[1..], high)
  }

  lemma {:induction false} OnlyIncreasing(xs: seq<nat>, high: bool)
    requires Increasing(xs)
    ensures Increasing(Only(xs, high))
  {
    if xs != [] {
      OnlyIncreasing(xs[1..], high);
      var rest := Only(xs[1..], high);
      forall j | 0 <= j < |rest| ensures xs[0] < rest[j] {
        assert rest[j] in rest;
        HeadBelow(xs, rest[j]);
      }
    }
  }

  // ---------------------------------------------------------------------
  // Who holds an id

  datatype Owner = Free | In(stream: nat)

  /** The lists are exactly what the owners say, sorted and free of duplicates. */
  ghost predicate FreeLists(normal: seq<nat>, high: seq<nat>, owner: map<nat, Owner>) {
    && Increasing(normal) && Increasing(high)
    && (forall id: nat {:trigger id in normal} :: id in normal <==> id in owner && owner[id] == Free && !HighPriority(id))
    && (forall id: nat {:trigger id in high} :: id in high <==> id in owner && owner[id] == Free && HighPriority(id))
  }

  ghost predicate JoinedList(list: seq<nat>, s: nat, owner: map<nat, Owner>) {
    && Increasing(list)
    && forall id: nat {:trigger id in list} :: id in list <==> id in owner && owner[id] == In(s)
  }

  ghost predicate AllJoined(joined: map<nat, seq<nat>>, owner: map<nat, Owner>) {
    && (forall s: nat {:trigger joined[s]} :: s in joined ==> JoinedList(joined[s], s, owner))
    && (forall id: nat {:trigger owner[id]} :: id in owner && owner[id].In? ==> owner[id].stream in joined)
  }

  ghost predicate AllIds(owner: map<nat, Owner>) {
    forall id: nat {:trigger id in owner} :: id in owner <==> 1 <= id <= MAX_STREAMS
  }

  /** Every id lies in exactly one list. */
  ghost predicate Owned(normal: seq<nat>, high: seq<nat>, joined: map<nat, seq<nat>>, owner: map<nat, Owner>) {
    AllIds(owner) && FreeLists(normal, high, owner) && AllJoined(joined, owner)
  }

  /** Give ids to a new owner. */
  ghost function Moved(owner: map<nat, Owner>, ids: seq<nat>, to: Owner): map<nat, Owner> {
    map id | id in owner :: if id in ids then to else owner[id]
  }

  /** Push some ids of one priority onto a free list and sort it. */
  lemma ReturnToFree(normal: seq<nat>, high: seq<nat>, owner: map<nat, Owner>, ids: seq<nat>)
    requires FreeLists(normal, high, owner) && Increasing(ids)
    requires forall id: nat {:trigger id in ids} :: id in ids ==> id in owner && owner[id] != Free
    ensures FreeLists(Sort(normal + Only(ids, false)), Sort(high + Only(ids, true)), Moved(owner, ids, Free))
  {
    OnlyIncreasing(ids, false);
    OnlyIncreasing(ids, true);
    ConcatDistinct(normal, Only(ids, false));
    ConcatDistinct(high, Only(ids, true));
    SortIncreasing(normal + Only(ids, false));
    SortIncreasing(high + Only(ids, true));
  }

  /** Push ids onto a joined list and sort it. */
  lemma JoinMore(list: seq<nat>, s: nat, owner: map<nat, Owner>, ids: seq<nat>)
    requires JoinedList(list, s, owner) && Increasing(ids)
    requires forall id: nat {:trigger id in ids} :: id in ids ==> id in owner && owner[id] != In(s)
    ensures JoinedList(Sort(list + ids), s, Moved(owner, ids, In(s)))
  {
    ConcatDistinct(list, ids);
    SortIncreasing(list + ids);
  }

  /** Lists without the moved ids, and not receiving them, stay as they are. */
  lemma OtherListStays(list: seq<nat>, s: nat, owner: map<nat, Owner>, ids: seq<nat>, to: Owner)
    requires JoinedList(list, s, owner) && to != In(s)
    requires forall id: nat {:trigger id in ids} :: id in ids ==> id in owner && owner[id] != In(s)
    ensures JoinedList(list, s, Moved(owner, ids, to))
  {
  }

  /** The ids a stream has collected besides its own. */
  function Others(list: seq<nat>, s: nat): seq<nat> { Without(list, s) }

  function OwnOnly(list: seq<nat>, s: nat): seq<nat> { if s in list then [s] else [] }

  lemma OwnOnlyIsFilter(list: seq<nat>, s: nat, owner: map<nat, Owner>)
    requires JoinedList(list, s, owner)
    ensures JoinedList(OwnOnly(list, s), s, Moved(owner, Others(list, s), Free))
    ensures forall d: nat :: d != s ==> JoinedList(OwnOnly(list, s), s, Moved(owner, Others(list, s), In(d)))
  {
  }

  // ---------------------------------------------------------------------
  // Live streams

  /** Records other than 0 belong to running streams or live handles, own their id,
      and collect only ids without records; stream 0 collects nothing. */
  ghost predicate Structured(active: seq<nat>, joined: map<nat, seq<nat>>, owner: map<nat, Owner>, handles: set<nat>) {
    && active != [] && active[0] == 0 && Distinct(active)
    && (forall i {:trigger active[i]} :: 1 <= i < |active| ==> active[i] in joined && active[i] != 0 && active[i] !in handles)
    && (forall h: nat {:trigger h in handles} :: h in handles ==> h in joined && h != 0)
    && (forall s: nat {:trigger joined[s]} :: s in joined && s != 0 ==>
          s in owner && owner[s] == In(s) && (s in active || s in handles))
    && (0 in joined ==> joined[0] == [])
    && (forall id: nat {:trigger owner[id]} :: id in owner && owner[id].In? && owner[id].stream != id ==> id !in joined)
  }

  ghost predicate PoolOk(active: seq<nat>, normal: seq<nat>, high: seq<nat>, joined: map<nat, seq<nat>>,
                         owner: map<nat, Owner>, handles: set<nat>) {
    Owned(normal, high, joined, owner) && Structured(active, joined, owner, handles)
  }

  /** Where a stream's ids go when `destination` waits for it or disposes of it. */
  function Target(destination: nat): Owner { if destination == 0 then Free else In(destination) }

  function JoinedAfter(joined: map<nat, seq<nat>>, destination: nat, ids: seq<nat>): map<nat, seq<nat>>
    requires destination == 0 || destination in joined
  {
    if destination == 0 then joined else joined[destination := Sort(joined[destination] + ids)]
  }

  function FreeAfter(list: seq<nat>, destination: nat, ids: seq<nat>, high: bool): seq<nat> {
    if destination == 0 then Sort(list + Only(ids, high)) else list
  }

  /** Moving some of the ids that `from` has collected to the waiting stream. */
  lemma HandOver(normal: seq<nat>, high: seq<nat>, joined: map<nat, seq<nat>>, owner: map<nat, Owner>, from: nat, destination: nat,
                 ids: seq<nat>, left: seq<nat>)
    requires Owned(normal, high, joined, owner) && from in joined && from != destination
    requires destination == 0 || destination in joined
    requires 0 in joined ==> joined[0] == []
    requires Increasing(ids) && (forall id: nat {:trigger id in ids} :: id in ids ==> id in joined[from])
    requires Increasing(left) && (forall id: nat {:trigger id in left} :: id in left <==> id in joined[from] && id !in ids)
    ensures Owned(FreeAfter(normal, destination, ids, false), FreeAfter(high, destination, ids, true),
                  JoinedAfter(joined[from := left], destination, ids), Moved(owner, ids, Target(destination)))
  {
    var owner', joined' := Moved(owner, ids, Target(destination)), JoinedAfter(joined[from := left], destination, ids);
    assert JoinedList(joined[from], from, owner);
    if destination == 0 {
      ReturnToFree(normal, high, owner, ids);
    } else {
      assert JoinedList(joined[destination], destination, owner);
      JoinMore(joined[destination], destination, owner, ids);
    }
    forall s: nat {:trigger joined'[s]} | s in joined' ensures JoinedList(joined'[s], s, owner') {
      if s != from && s != destination {
        OtherListStays(joined[s], s, owner, ids, Target(destination));
      } else if s == destination && s == 0 {
        OtherListStays(joined[s], s, owner, ids, Target(destination));
      }
    }
  }

  lemma OthersFacts(list: seq<nat>, s: nat, owner: map<nat, Owner>)
    requires JoinedList(list, s, owner)
    ensures Increasing(Others(list, s)) && Increasing(OwnOnly(list, s))
    ensures forall id: nat {:trigger id in Others(list, s)} :: id in Others(list, s) ==> id in list && id != s
    ensures forall id: nat {:trigger id in OwnOnly(list, s)} :: id in OwnOnly(list, s) <==> id in list && id !in Others(list, s)
  {
    WithoutIncreasing(list, s);
  }

  /** The first half of disposing: collected ids go to the destination. */
  lemma TransferKeeps(active: seq<nat>, normal: seq<nat>, high: seq<nat>, joined: map<nat, seq<nat>>, owner: map<nat, Owner>,
                      handles: set<nat>, stream: nat, destination: nat)
    requires PoolOk(active, normal, high, joined, owner, handles)
    requires stream in joined && stream != 0 && destination == active[|active| - 1] && stream != destination
    ensures destination == 0 || destination in joined
    ensures var ids := Others(joined[stream], stream);
            var joined' := JoinedAfter(joined[stream := OwnOnly(joined[stream], stream)], destination, ids);
            PoolOk(active, FreeAfter(normal, destination, ids, false), FreeAfter(high, destination, ids, true), joined',
                   Moved(owner, ids, Target(destination)), handles)
            && joined'[stream] == [stream]
  {
    var ids, left := Others(joined[stream], stream), OwnOnly(joined[stream], stream);
    assert destination in active;
    assert JoinedList(joined[stream], stream, owner) && owner[stream] == In(stream);
    OthersFacts(joined[stream], stream, owner);
    HandOver(normal, high, joined, owner, stream, destination, ids, left);
    var joined', owner' := JoinedAfter(joined[stream := left], destination, ids), Moved(owner, ids, Target(destination));
    forall s: nat {:trigger joined'[s]} | s in joined' && s != 0
      ensures s in owner' && owner'[s] == In(s) && (s in active || s in handles)
    {
      assert s in joined && owner[s] == In(s);
    }
    forall id: nat {:trigger owner'[id]} | id in owner' && owner'[id].In? && owner'[id].stream != id ensures id !in joined' {
      if id in ids { assert owner[id] == In(stream) && id != stream; }
    }
  }

  /** The second half: the record goes, and the stream's own id with it. */
  lemma DropKeeps(active: seq<nat>, normal: seq<nat>, high: seq<nat>, joined: map<nat, seq<nat>>, owner: map<nat, Owner>,
                  handles: set<nat>, stream: nat, destination: nat)
    requires PoolOk(active, normal, high, joined, owner, handles)
    requires stream in handles && joined[stream] == [stream] && destination == active[|active| - 1]
    ensures stream != destination && (destination == 0 || destination in joined)
    ensures PoolOk(active, FreeAfter(normal, destination, [stream], false), FreeAfter(high, destination, [stream], true),
                   JoinedAfter(joined, destination, [stream]) - {stream},
                   Moved(owner, [stream], Target(destination)), handles - {stream})
  {
    assert destination in active;
    if |active| > 1 { assert active[|active| - 1] !in handles; }
    assert stream in joined && owner[stream] == In(stream);
    HandOver(normal, high, joined, owner, stream, destination, [stream], []);
    var joined', owner' := JoinedAfter(joined, destination, [stream]) - {stream}, Moved(owner, [stream], Target(destination));
    var with := JoinedAfter(joined[stream := []], destination, [stream]);
    forall s: nat {:trigger joined'[s]} | s in joined' ensures JoinedList(joined'[s], s, owner') {
      assert joined'[s] == with[s];
    }
    forall s: nat {:trigger joined'[s]} | s in joined' && s != 0
      ensures s in owner' && owner'[s] == In(s) && (s in active || s in handles - {stream})
    {
      assert s in joined && owner[s] == In(s);
    }
    forall id: nat {:trigger owner'[id]} | id in owner' && owner'[id].In? ensures owner'[id].stream in joined' {
      if id != stream {
        assert owner[id].stream in joined;
        if owner[id].stream == stream { assert id in joined[stream]; }
      }
    }
  }

  lemma InItsList(joined: map<nat, seq<nat>>, owner: map<nat, Owner>, id: nat)
    requires AllJoined(joined, owner) && id in owner && owner[id].In?
    ensures owner[id].stream in joined && id in joined[owner[id].stream]
  {
    assert JoinedList(joined[owner[id].stream], owner[id].stream, owner);
  }

  /** Looking stream 0 up creates its record. */
  lemma MainRecordKeeps(active: seq<nat>, normal: seq<nat>, high: seq<nat>, joined: map<nat, seq<nat>>, owner: map<nat, Owner>, handles: set<nat>)
    requires PoolOk(active, normal, high, joined, owner, handles)
    ensures PoolOk(active, normal, high, joined[0 := []], owner, handles)
    ensures PoolOk(active, normal, high, joined - {0}, owner, handles)
  {
    forall id: nat {:trigger owner[id]} | id in owner && owner[id].In? ensures owner[id].stream != 0 {
      InItsList(joined, owner, id);
    }
    forall s: nat {:trigger (joined - {0})[s]} | s in joined - {0} ensures JoinedList((joined - {0})[s], s, owner) {
      assert JoinedList(joined[s], s, owner);
    }
    forall s: nat {:trigger joined[0 := []][s]} | s in joined[0 := []] ensures JoinedList(joined[0 := []][s], s, owner) {
      if s != 0 { assert JoinedList(joined[s], s, owner); }
    }
  }

  lemma TailIncreasing(xs: seq<nat>)
    requires xs != [] && Increasing(xs)
    ensures Increasing(xs[1..]) && forall y {:trigger y in xs[1..]} :: y in xs[1..] <==> y in xs && y != xs[0]
  {
    forall y ensures y in xs[1..] <==> y in xs && y != xs[0] { TailMember(xs, y); }
  }

  /** A free id becomes a running stream. */
  lemma AcquireFreeKeeps(active: seq<nat>, normal: seq<nat>, high: seq<nat>, joined: map<nat, seq<nat>>, owner: map<nat, Owner>,
                         handles: set<nat>, highPriority: bool)
    requires PoolOk(active, normal, high, joined, owner, handles) && (if highPriority then high else normal) != []
    ensures var stream := (if highPriority then high else normal)[0];
            && HighPriority(stream) == highPriority && stream !in joined
            && PoolOk(active + [stream], if highPriority then normal else normal[1..], if highPriority then high[1..] else high,
                      joined[stream := [stream]], owner[stream := In(stream)], handles)
  {
    var list := if highPriority then high else normal;
    var stream := list[0];
    assert stream in list;
    if highPriority { assert stream in high; } else { assert stream in normal; }
    assert owner[stream] == Free;
    TailIncreasing(list);
    StartKeeps(active, joined, owner, handles, joined, owner, stream);
  }

  lemma OwnsItself(active: seq<nat>, joined: map<nat, seq<nat>>, owner: map<nat, Owner>, handles: set<nat>, s: nat)
    requires Structured(active, joined, owner, handles) && s in joined && s != 0
    ensures s in owner && owner[s] == In(s) && (s in active || s in handles)
  {
  }

  /** An inactive id becomes a running stream. */
  lemma StartKeeps(active: seq<nat>, joined: map<nat, seq<nat>>, owner: map<nat, Owner>, handles: set<nat>,
                   joined0: map<nat, seq<nat>>, owner0: map<nat, Owner>, stream: nat)
    requires Structured(active, joined0, owner0, handles) && AllJoined(joined0, owner0) && AllIds(owner0) && stream in owner0
    requires owner0[stream] == Free || (owner0[stream].In? && owner0[stream].stream != stream)
    requires owner == owner0 && joined.Keys == joined0.Keys
    requires forall s: nat {:trigger joined[s]} :: s in joined ==> Increasing(joined[s])
    requires forall s: nat {:trigger joined[s]} :: s in joined ==> forall id: nat {:trigger id in joined[s]} :: id in joined[s] <==> id in joined0[s] && id != stream
    ensures stream !in joined
    ensures Structured(active + [stream], joined[stream := [stream]], owner[stream := In(stream)], handles)
    ensures AllJoined(joined[stream := [stream]], owner[stream := In(stream)])
  {
    assert stream != 0;
    if stream in joined0 { OwnsItself(active, joined0, owner0, handles, stream); }
    var joined', owner' := joined[stream := [stream]], owner[stream := In(stream)];
    forall i | 0 <= i < |active| ensures active[i] != stream {
      if i > 0 { assert active[i] in joined0; }
    }
    forall s: nat {:trigger joined'[s]} | s in joined' ensures JoinedList(joined'[s], s, owner') {
      if s != stream { assert JoinedList(joined0[s], s, owner0); assert joined[s] == joined'[s]; }
    }
    forall s: nat {:trigger joined'[s]} | s in joined' && s != 0
      ensures s in owner' && owner'[s] == In(s) && (s in active + [stream] || s in handles)
    {
      if s != stream { assert s in joined0 && owner0[s] == In(s); }
    }
    forall i {:trigger (active + [stream])[i]} | 1 <= i < |active + [stream]|
      ensures (active + [stream])[i] in joined' && (active + [stream])[i] != 0 && (active + [stream])[i] !in handles
    {
      if i < |active| { assert active[i] in joined0 && active[i] != 0 && active[i] !in handles; }
    }
    if 0 in joined {
      assert joined0[0] == [];
      assert forall id: nat :: id !in joined[0];
      NoMembers(joined[0]);
    }
  }

  /** A descendant that waits for reuse becomes a running stream. */
  lemma AcquireJoinedKeeps(active: seq<nat>, normal: seq<nat>, high: seq<nat>, joined: map<nat, seq<nat>>, owner: map<nat, Owner>,
                           handles: set<nat>, from: nat, stream: nat)
    requires PoolOk(active, normal, high, joined, owner, handles) && from in joined && stream in joined[from] && stream != from
    ensures stream !in joined
    ensures PoolOk(active + [stream], normal, high, joined[from := Without(joined[from], stream)][stream := [stream]],
                   owner[stream := In(stream)], handles)
  {
    assert JoinedList(joined[from], from, owner);
    WithoutIncreasing(joined[from], stream);
    var less := joined[from := Without(joined[from], stream)];
    forall s: nat {:trigger less[s]} | s in less
      ensures Increasing(less[s]) && forall id: nat {:trigger id in less[s]} :: id in less[s] <==> id in joined[s] && id != stream
    {
      assert JoinedList(joined[s], s, owner);
    }
    StartKeeps(active, less, owner, handles, joined, owner, stream);
  }

  /** A running stream ends and becomes a live handle. */
  lemma EndKeeps(active: seq<nat>, normal: seq<nat>, high: seq<nat>, joined: map<nat, seq<nat>>, owner: map<nat, Owner>, handles: set<nat>)
    requires PoolOk(active, normal, high, joined, owner, handles) && |active| > 1
    ensures PoolOk(active[..|active| - 1], normal, high, joined, owner, handles + {active[|active| - 1]})
  {
    var last := active[|active| - 1];
    assert last in joined && last != 0;
    assert active == active[..|active| - 1] + [last];
    forall i {:trigger active[..|active| - 1][i]} | 1 <= i < |active| - 1
      ensures active[..|active| - 1][i] in joined && active[..|active| - 1][i] != 0 && active[..|active| - 1][i] !in handles + {last}
    {
      assert active[i] in joined && active[i] != 0 && active[i] !in handles;
    }
  }

  /** With nothing running and no live handle, every id is free again. */
  lemma AllReturned(active: seq<nat>, normal: seq<nat>, high: seq<nat>, joined: map<nat, seq<nat>>, owner: map<nat, Owner>,
                    initialNormal: seq<nat>, initialHigh: seq<nat>, initialOwner: map<nat, Owner>)
    requires PoolOk(active, normal, high, joined, owner, {}) && |active| == 1
    requires FreeLists(initialNormal, initialHigh, initialOwner) && AllIds(initialOwner)
    requires forall id: nat {:trigger initialOwner[id]} :: id in initialOwner ==> initialOwner[id] == Free
    ensures normal == initialNormal && high == initialHigh
  {
    forall id: nat {:trigger owner[id]} | id in owner ensures owner[id] == Free {
      if owner[id].In? { InItsList(joined, owner, id); }
    }
    assert forall id: nat :: id in owner <==> id in initialOwner;
    SortedUnique(normal, initialNormal);
    SortedUnique(high, initialHigh);
  }

  /** The free lists between returning ids and sorting them. */
  ghost predicate FreeUnsorted(normal: seq<nat>, high: seq<nat>, owner: map<nat, Owner>) {
    && Distinct(normal) && Distinct(high)
    && (forall id: nat {:trigger id in normal} :: id in normal <==> id in owner && owner[id] == Free && !HighPriority(id))
    && (forall id: nat {:trigger id in high} :: id in high <==> id in owner && owner[id] == Free && HighPriority(id))
  }

  ghost predicate Reconciling(active: seq<nat>, normal: seq<nat>, high: seq<nat>, joined: map<nat, seq<nat>>,
                              owner: map<nat, Owner>, handles: set<nat>) {
    AllIds(owner) && FreeUnsorted(normal, high, owner) && AllJoined(joined, owner) && Structured(active, joined, owner, handles)
  }

  lemma AppendDistinct(xs: seq<nat>, ys: seq<nat>)
    requires Distinct(xs) && Increasing(ys) && forall y :: y in ys ==> y !in xs
    ensures Distinct(xs + ys)
  {
    forall i, j | 0 <= i < j < |xs + ys| ensures (xs + ys)[i] != (xs + ys)[j] {
      if i < |xs| <= j { assert (xs + ys)[i] in xs && (xs + ys)[j] in ys; }
    }
  }

  lemma ReturnUnsorted(normal: seq<nat>, high: seq<nat>, owner: map<nat, Owner>, ids: seq<nat>)
    requires FreeUnsorted(normal, high, owner) && Increasing(ids)
    requires forall id: nat {:trigger id in ids} :: id in ids ==> id in owner && owner[id] != Free
    ensures FreeUnsorted(normal + Only(ids, false), high + Only(ids, true), Moved(owner, ids, Free))
  {
    OnlyIncreasing(ids, false);
    OnlyIncreasing(ids, true);
    AppendDistinct(normal, Only(ids, false));
    AppendDistinct(high, Only(ids, true));
  }

  /** Reconciling one record: everything it has collected becomes free. */
  lemma ReleaseKeeps(active: seq<nat>, normal: seq<nat>, high: seq<nat>, joined: map<nat, seq<nat>>, owner: map<nat, Owner>,
                     handles: set<nat>, s: nat)
    requires Reconciling(active, normal, high, joined, owner, handles) && s in joined
    ensures var ids := Others(joined[s], s);
            Reconciling(active, normal + Only(ids, false), high + Only(ids, true), joined[s := OwnOnly(joined[s], s)],
                        Moved(owner, ids, Free), handles)
  {
    var ids, left := Others(joined[s], s), OwnOnly(joined[s], s);
    assert JoinedList(joined[s], s, owner);
    OthersFacts(joined[s], s, owner);
    ReturnUnsorted(normal, high, owner, ids);
    var joined', owner' := joined[s := left], Moved(owner, ids, Free);
    forall t: nat {:trigger joined'[t]} | t in joined' ensures JoinedList(joined'[t], t, owner') {
      assert JoinedList(joined[t], t, owner);
    }
    forall t: nat {:trigger joined'[t]} | t in joined' && t != 0
      ensures t in owner' && owner'[t] == In(t) && (t in active || t in handles)
    {
      OwnsItself(active, joined, owner, handles, t);
    }
    forall id: nat {:trigger owner'[id]} | id in owner' && owner'[id].In?
      ensures owner'[id].stream in joined' && (owner'[id].stream != id ==> id !in joined')
    {
      InItsList(joined, owner, id);
    }
  }

  lemma SortedAgain(active: seq<nat>, normal: seq<nat>, high: seq<nat>, joined: map<nat, seq<nat>>, owner: map<nat, Owner>, handles: set<nat>)
    requires Reconciling(active, normal, high, joined, owner, handles)
    ensures PoolOk(active, Sort(normal), Sort(high), joined, owner, handles)
    ensures Increasing(normal) && Increasing(high) ==> PoolOk(active, normal, high, joined, owner, handles)
  {
    SortIncreasing(normal);
    SortIncreasing(high);
  }

  lemma IncreasingDistinct(xs: seq<nat>)
    requires Increasing(xs)
    ensures Distinct(xs)
  {
  }

  // ---------------------------------------------------------------------
  // The pool

  class Handle {
    const streamId: nat
    var disposed: bool
    var waited: bool

    constructor (streamId: nat)
      ensures this.streamId == streamId && !disposed && !waited
    {
      this.streamId, disposed, waited := streamId, false, false;
    }
  }

  /** Ids 1 to 63 of one priority, ascending. */
  function InitialList(n: nat, high: bool): seq<nat> {
    if n == 0 then [] else InitialList(n - 1, high) + (if HighPriority(n) == high then [n] else [])
  }

  lemma {:induction false} InitialFacts(n: nat, high: bool)
    ensures Increasing(InitialList(n, high))
    ensures forall id: nat {:trigger id in InitialList(n, high)} :: id in InitialList(n, high) <==> 1 <= id <= n && HighPriority(id) == high
  {
    if n > 0 {
      InitialFacts(n - 1, high);
      var before := InitialList(n - 1, high);
      forall i | 0 <= i < |before| ensures before[i] < n { assert before[i] in before; }
    }
  }

  ghost function InitialOwner(n: nat): (owner: map<nat, Owner>)
    ensures forall id: nat {:trigger id in owner} :: id in owner <==> 1 <= id <= n
    ensures forall id: nat {:trigger owner[id]} :: id in owner ==> owner[id] == Free
  {
    if n == 0 then map[] else InitialOwner(n - 1)[n := Free]
  }

  lemma InitialLists()
    ensures FreeLists(InitialList(MAX_STREAMS, false), InitialList(MAX_STREAMS, true), InitialOwner(MAX_STREAMS))
    ensures AllIds(InitialOwner(MAX_STREAMS))
  {
    InitialFacts(MAX_STREAMS, false);
    InitialFacts(MAX_STREAMS, true);
  }

  class Pool {
    var activeStreams: seq<nat>
    var normalPriorityStreams: seq<nat>
    var highPriorityStreams: seq<nat>
    var streamResources: map<nat, seq<nat>>   // per recorded stream, its joined list
    ghost var owner: map<nat, Owner>
    ghost var handles: map<nat, Handle>       // live handles by stream

    ghost predicate Valid()
      reads this, handles.Values
    {
      && PoolOk(activeStreams, normalPriorityStreams, highPriorityStreams, streamResources, owner, handles.Keys)
      && forall h: nat {:trigger handles[h]} :: h in handles ==> handles[h].streamId == h && !handles[h].disposed
    }

    constructor ()
      ensures Valid() && activeStreams == [0] && handles == map[]
      ensures normalPriorityStreams == InitialList(MAX_STREAMS, false) && highPriorityStreams == InitialList(MAX_STREAMS, true)
      ensures forall id: nat {:trigger id in normalPriorityStreams} :: id in normalPriorityStreams <==> 1 <= id <= 63 && id % 2 == 0
      ensures forall id: nat {:trigger id in highPriorityStreams} :: id in highPriorityStreams <==> 1 <= id <= 63 && id % 2 == 1
    {
      InitialLists();
      InitialFacts(MAX_STREAMS, false);
      InitialFacts(MAX_STREAMS, true);
      activeStreams, streamResources := [0], map[];
      normalPriorityStreams, highPriorityStreams := InitialList(MAX_STREAMS, false), InitialList(MAX_STREAMS, true);
      owner, handles := InitialOwner(MAX_STREAMS), map[];
    }

    function CurrentStream(): nat
      requires activeStreams != []
      reads this
    {
      activeStreams[|activeStreams| - 1]
    }

    /** Put an id back behind its free list; the caller sorts. */
    method ReturnStream(stream: nat)
      modifies this`normalPriorityStreams, this`highPriorityStreams
      ensures normalPriorityStreams == old(normalPriorityStreams) + Only([stream], false)
      ensures highPriorityStreams == old(highPriorityStreams) + Only([stream], true)
    {
      if !HighPriority(stream) {
        normalPriorityStreams := normalPriorityStreams + [stream];
      } else {
        highPriorityStreams := highPriorityStreams + [stream];
      }
    }

    method ReturnAll(ids: seq<nat>)
      modifies this`normalPriorityStreams, this`highPriorityStreams
      ensures normalPriorityStreams == old(normalPriorityStreams) + Only(ids, false)
      ensures highPriorityStreams == old(highPriorityStreams) + Only(ids, true)
    {
      var i := 0;
      while i < |ids|
        invariant 0 <= i <= |ids|
        invariant normalPriorityStreams + Only(ids[i..], false) == old(normalPriorityStreams) + Only(ids, false)
        invariant highPriorityStreams + Only(ids[i..], true) == old(highPriorityStreams) + Only(ids, true)
      {
        assert ids[i..][1..] == ids[i + 1..];
        ReturnStream(ids[i]);
        i := i + 1;
      }
    }

    method SortFreeLists()
      modifies this`normalPriorityStreams, this`highPriorityStreams
      ensures normalPriorityStreams == Sort(old(normalPriorityStreams)) && highPriorityStreams == Sort(old(highPriorityStreams))
    {
      normalPriorityStreams := Sort(normalPriorityStreams);
      highPriorityStreams := Sort(highPriorityStreams);
    }

    /** Hand ids to the destination: back to the free lists for stream 0, onto its
        joined list otherwise. */
    method PassOn(ids: seq<nat>, destination: nat)
      requires destination == 0 || destination in streamResources
      modifies this`normalPriorityStreams, this`highPriorityStreams, this`streamResources
      ensures normalPriorityStreams == FreeAfter(old(normalPriorityStreams), destination, ids, false)
      ensures highPriorityStreams == FreeAfter(old(highPriorityStreams), destination, ids, true)
      ensures streamResources == JoinedAfter(old(streamResources), destination, ids)
    {
      if destination == 0 {
        ReturnAll(ids);
        SortFreeLists();
      } else {
        streamResources := streamResources[destination := Sort(streamResources[destination] + ids)];
      }
    }

    /** Everything but the handle objects. */
    ghost predicate Consistent(live: set<nat>)
      reads this
    {
      PoolOk(activeStreams, normalPriorityStreams, highPriorityStreams, streamResources, owner, live)
    }

    method GetStreamResources(stream: nat, ghost live: set<nat>)
      requires Consistent(live) && (stream == 0 || stream in streamResources)
      modifies this`streamResources
      ensures Consistent(live) && stream in streamResources
      ensures streamResources == if stream in old(streamResources) then old(streamResources) else old(streamResources)[0 := []]
    {
      MainRecordKeeps(activeStreams, normalPriorityStreams, highPriorityStreams, streamResources, owner, live);
      if stream !in streamResources { streamResources := streamResources[stream := []]; }
    }

    /** Leave a record with `left` and hand `ids` to the destination. */
    method MoveIds(stream: nat, ids: seq<nat>, left: seq<nat>, destination: nat)
      requires destination == 0 || (destination in streamResources && destination != stream)
      modifies this`normalPriorityStreams, this`highPriorityStreams, this`streamResources
      ensures normalPriorityStreams == FreeAfter(old(normalPriorityStreams), destination, ids, false)
      ensures highPriorityStreams == FreeAfter(old(highPriorityStreams), destination, ids, true)
      ensures streamResources == JoinedAfter(old(streamResources)[stream := left], destination, ids)
    {
      streamResources := streamResources[stream := left];
      PassOn(ids, destination);
    }

    /** Promote what a stream has collected to the current stream; its own id stays
        reserved. */
    method DisposeStreamResources(stream: nat, ghost live: set<nat>)
      requires Consistent(live) && stream in live
      modifies this`normalPriorityStreams, this`highPriorityStreams, this`streamResources, this`owner
      ensures Consistent(live) && stream in streamResources && streamResources[stream] == [stream]
      ensures stream in old(streamResources)
      ensures owner == Moved(old(owner), Others(old(streamResources)[stream], stream), Target(CurrentStream()))
    {
      NotCurrent(live, stream);
      GetStreamResources(CurrentStream(), live);
      if Without(streamResources[stream], stream) == [] {
        OnlyItself(live, stream);
        MovedNone(owner, Target(CurrentStream()));
      } else {
        Promote(stream, live);
      }
    }

    method Promote(stream: nat, ghost live: set<nat>)
      requires Consistent(live) && stream in live && stream in streamResources
      modifies this`normalPriorityStreams, this`highPriorityStreams, this`streamResources, this`owner
      ensures Consistent(live) && stream in streamResources && streamResources[stream] == [stream]
      ensures owner == Moved(old(owner), Others(old(streamResources)[stream], stream), Target(CurrentStream()))
    {
      var destination, joined := CurrentStream(), Without(streamResources[stream], stream);
      NotCurrent(live, stream);
      TransferKeeps(activeStreams, normalPriorityStreams, highPriorityStreams, streamResources, owner, live, stream, destination);
      MoveIds(stream, joined, OwnOnly(streamResources[stream], stream), destination);
      owner := Moved(owner, joined, Target(destination));
    }

    static lemma MovedNone(owner: map<nat, Owner>, to: Owner)
      ensures Moved(owner, [], to) == owner
    {
    }

    /** A live handle's stream is never the current one, so disposing never hits the
        early return for it, nor a missing record. */
    lemma NotCurrent(live: set<nat>, stream: nat)
      requires Consistent(live) && stream in live
      ensures stream != CurrentStream() && stream != 0 && stream in streamResources
      ensures CurrentStream() == 0 || CurrentStream() in streamResources
    {
      assert |activeStreams| > 1 ==> activeStreams[|activeStreams| - 1] in streamResources && activeStreams[|activeStreams| - 1] !in live;
    }

    lemma OnlyItself(live: set<nat>, stream: nat)
      requires Consistent(live) && stream in live && Without(streamResources[stream], stream) == []
      ensures streamResources[stream] == [stream]
    {
      OwnsItself(activeStreams, streamResources, owner, live, stream);
      assert JoinedList(streamResources[stream], stream, owner);
      forall id: nat ensures id in streamResources[stream] <==> id in [stream] {
        assert id in Without(streamResources[stream], stream) <==> id in streamResources[stream] && id != stream;
      }
      SortedUnique(streamResources[stream], [stream]);
    }

    /** Dispose of a stream: what it collected and its own id go to the current stream. */
    method DisposeStream(stream: nat, ghost live: set<nat>)
      requires Consistent(live) && stream in live
      modifies this`normalPriorityStreams, this`highPriorityStreams, this`streamResources, this`owner
      ensures Consistent(live - {stream}) && stream !in streamResources && stream in old(streamResources)
      ensures owner == Moved(old(owner), old(streamResources)[stream], Target(CurrentStream()))
    {
      ghost var all := streamResources[stream];
      OwnsItself(activeStreams, streamResources, owner, live, stream);
      assert stream in all by { assert JoinedList(streamResources[stream], stream, owner); }
      DisposeStreamResources(stream, live);
      Drop(stream, live);
      MovedTwice(old(owner), all, stream, Target(CurrentStream()));
    }

    /** Delete the record of a stream that holds only its own id. */
    method Drop(stream: nat, ghost live: set<nat>)
      requires Consistent(live) && stream in live && stream in streamResources && streamResources[stream] == [stream]
      modifies this`normalPriorityStreams, this`highPriorityStreams, this`streamResources, this`owner
      ensures Consistent(live - {stream}) && stream !in streamResources
      ensures owner == Moved(old(owner), [stream], Target(CurrentStream()))
    {
      var destination := CurrentStream();
      DropKeeps(activeStreams, normalPriorityStreams, highPriorityStreams, streamResources, owner, live, stream, destination);
      owner := Moved(owner, [stream], Target(destination));
      PassOn(streamResources[stream], destination);
      streamResources := streamResources - {stream};
    }

    static lemma MovedTwice(owner: map<nat, Owner>, ids: seq<nat>, stream: nat, to: Owner)
      requires stream in ids
      ensures Moved(Moved(owner, Others(ids, stream), to), [stream], to) == Moved(owner, ids, to)
    {
    }

    /** A collected id of the requested priority on the joined list of active stream i. */
    ghost predicate Reusable(i: nat, high: bool, id: nat)
      reads this
    {
      && 1 <= i < |activeStreams| && activeStreams[i] in streamResources
      && id in streamResources[activeStreams[i]] && id != activeStreams[i] && HighPriority(id) == high
    }

    /** No active stream from index n on has an id to reuse. */
    ghost predicate NothingToReuse(n: nat, high: bool)
      reads this
    {
      forall i: nat, id: nat {:trigger Reusable(i, high, id)} :: n <= i ==> !Reusable(i, high, id)
    }

    /** The lowest id active stream i has to reuse. */
    ghost predicate LeastReusable(i: nat, high: bool, id: nat)
      reads this
    {
      && Reusable(i, high, id)
      && forall other: nat {:trigger Reusable(i, high, other)} :: Reusable(i, high, other) ==> id <= other
    }

    /** The stream the next acquisition takes: the lowest id to reuse of the innermost
        active stream that has one; without any, the lowest free id. */
    ghost predicate NextStream(high: bool, id: nat)
      reads this
    {
      || (exists i: nat {:trigger LeastReusable(i, high, id)} :: LeastReusable(i, high, id) && NothingToReuse(i + 1, high))
      || (NothingToReuse(1, high) && FreeList(high) != [] && FreeList(high)[0] == id)
    }

    function FreeList(high: bool): seq<nat>
      reads this
    {
      if high then highPriorityStreams else normalPriorityStreams
    }

    /** The inner loop: the first inactive descendant of active stream i. */
    method FindDescendant(i: nat, high: bool) returns (stream: Option<nat>)
      requires 1 <= i < |activeStreams| && activeStreams[i] in streamResources && Increasing(streamResources[activeStreams[i]])
      ensures stream.None? ==> forall id: nat {:trigger Reusable(i, high, id)} :: !Reusable(i, high, id)
      ensures stream.Some? ==> LeastReusable(i, high, stream.value)
    {
      var list := streamResources[activeStreams[i]];
      var j := 0;
      while j < |list|
        invariant 0 <= j <= |list|
        invariant forall l :: 0 <= l < j ==> list[l] == activeStreams[i] || HighPriority(list[l]) != high
      {
        if list[j] != activeStreams[i] && HighPriority(list[j]) == high {
          assert list[j] in list;
          forall other: nat {:trigger Reusable(i, high, other)} | Reusable(i, high, other) ensures list[j] <= other {
            var l :| 0 <= l < |list| && list[l] == other;
          }
          return Some(list[j]);
        }
        j := j + 1;
      }
      stream := None;
    }

    /** The outer loop, innermost active stream first; stream 0 ends it. */
    method FindReusable(high: bool, ghost live: set<nat>) returns (found: Option<(nat, nat)>)
      requires Consistent(live)
      ensures found.None? ==> NothingToReuse(1, high)
      ensures found.Some? ==> LeastReusable(found.value.0, high, found.value.1) && NothingToReuse(found.value.0 + 1, high)
    {
      var i := |activeStreams| - 1;
      while i >= 1
        invariant 0 <= i < |activeStreams|
        invariant NothingToReuse(i + 1, high)
      {
        assert activeStreams[i] in streamResources && JoinedList(streamResources[activeStreams[i]], activeStreams[i], owner);
        var stream := FindDescendant(i, high);
        if stream.Some? { return Some((i, stream.value)); }
        i := i - 1;
      }
      found := None;
    }

    /** Take a descendant of the innermost active stream that has one, else a free id.
        The id never has a record already. */
    method AcquireStream(high: bool, ghost live: set<nat>) returns (stream: Option<nat>)
      requires Consistent(live)
      modifies this`normalPriorityStreams, this`highPriorityStreams, this`streamResources, this`owner
      ensures stream.None? ==>
                && Consistent(live) && streamResources == old(streamResources)
                && owner == old(owner) && old(NothingToReuse(1, high)) && old(FreeList(high)) == []
      ensures stream.Some? ==>
                && HighPriority(stream.value) == high && old(NextStream(high, stream.value))
                && stream.value !in old(streamResources) && stream.value in old(owner)
                && owner == old(owner)[stream.value := In(stream.value)]
                && PoolOk(activeStreams + [stream.value], normalPriorityStreams, highPriorityStreams, streamResources, owner, live)
    {
      var found := FindReusable(high, live);
      if found.Some? {
        Reuse(found.value.0, found.value.1, high, live);
        return Some(found.value.1);
      }
      if FreeList(high) == [] { return None; }
      var id := TakeFree(high, live);
      stream := Some(id);
    }

    method Reuse(i: nat, id: nat, ghost high: bool, ghost live: set<nat>)
      requires Consistent(live) && Reusable(i, high, id)
      modifies this`streamResources, this`owner
      ensures id !in old(streamResources) && id in old(owner) && old(owner)[id] != Free
      ensures owner == old(owner)[id := In(id)]
      ensures PoolOk(activeStreams + [id], normalPriorityStreams, highPriorityStreams, streamResources, owner, live)
    {
      var from := activeStreams[i];
      assert JoinedList(streamResources[from], from, owner);
      AcquireJoinedKeeps(activeStreams, normalPriorityStreams, highPriorityStreams, streamResources, owner, live, from, id);
      streamResources := streamResources[from := Without(streamResources[from], id)];
      streamResources := streamResources[id := [id]];
      owner := owner[id := In(id)];
    }

    method TakeFree(high: bool, ghost live: set<nat>) returns (id: nat)
      requires Consistent(live) && FreeList(high) != []
      modifies this`normalPriorityStreams, this`highPriorityStreams, this`streamResources, this`owner
      ensures id == old(FreeList(high))[0]
      ensures HighPriority(id) == high && id !in old(streamResources) && id in old(owner) && owner == old(owner)[id := In(id)]
      ensures PoolOk(activeStreams + [id], normalPriorityStreams, highPriorityStreams, streamResources, owner, live)
    {
      AcquireFreeKeeps(activeStreams, normalPriorityStreams, highPriorityStreams, streamResources, owner, live, high);
      if high {
        id := highPriorityStreams[0];
        assert id in highPriorityStreams;
        highPriorityStreams := highPriorityStreams[1..];
      } else {
        id := normalPriorityStreams[0];
        assert id in normalPriorityStreams;
        normalPriorityStreams := normalPriorityStreams[1..];
      }
      streamResources := streamResources[id := [id]];
      owner := owner[id := In(id)];
    }

    /** withStream up to its callback: acquire a stream and make it current. */
    method Begin(high: bool) returns (stream: Option<nat>)
      requires Valid()
      modifies this`activeStreams, this`normalPriorityStreams, this`highPriorityStreams, this`streamResources, this`owner
      ensures Valid()
      ensures stream.None? ==> activeStreams == old(activeStreams) && owner == old(owner)
                               && old(NothingToReuse(1, high)) && old(FreeList(high)) == []
      ensures stream.Some? ==> activeStreams == old(activeStreams) + [stream.value] && HighPriority(stream.value) == high
                               && old(NextStream(high, stream.value)) && owner == old(owner)[stream.value := In(stream.value)]
    {
      stream := AcquireStream(high, handles.Keys);
      if stream.Some? {
        activeStreams := activeStreams + [stream.value];
      }
    }

    /** withStream after its callback: a handle for the stream, or its disposal when
        the callback threw. */
    method End(completed: bool) returns (handle: Option<Handle>)
      requires Valid() && |activeStreams| > 1
      modifies this
      ensures Valid() && activeStreams == old(activeStreams[..|activeStreams| - 1])
      ensures completed <==> handle.Some?
      ensures completed ==> && fresh(handle.value) && handle.value.streamId == old(CurrentStream()) && owner == old(owner)
                            && !handle.value.disposed && !handle.value.waited
                            && handles == old(handles)[handle.value.streamId := handle.value]
      ensures !completed ==> && handles == old(handles) && old(CurrentStream()) !in streamResources
                             && old(CurrentStream()) in old(streamResources)
                             && owner == Moved(old(owner), old(streamResources)[old(CurrentStream())], Target(CurrentStream()))
    {
      var stream := CurrentStream();
      Pop(handles.Keys);
      if completed {
        var h := new Handle(stream);
        handles := handles[stream := h];
        handle := Some(h);
      } else {
        DisposeStream(stream, handles.Keys + {stream});
        assert handles.Keys + {stream} - {stream} == handles.Keys;
        handle := None;
      }
    }

    method Pop(ghost live: set<nat>)
      requires Consistent(live) && |activeStreams| > 1
      modifies this`activeStreams
      ensures activeStreams == old(activeStreams[..|activeStreams| - 1])
      ensures old(CurrentStream()) !in live && Consistent(live + {old(CurrentStream())})
    {
      EndKeeps(activeStreams, normalPriorityStreams, highPriorityStreams, streamResources, owner, live);
      assert activeStreams[|activeStreams| - 1] !in live;
      activeStreams := activeStreams[..|activeStreams| - 1];
    }

    /** A handle is live until it is disposed. */
    ghost predicate Live(h: Handle)
      reads this
    {
      h.streamId in handles && handles[h.streamId] == h
    }

    /** streamWaitEvent: the current stream takes over what the handle's stream has
        collected, once; false when the handle is disposed. */
    method Wait(h: Handle) returns (ok: bool)
      requires Valid() && (Live(h) || h.disposed)
      modifies this`normalPriorityStreams, this`highPriorityStreams, this`streamResources, this`owner, h
      ensures Valid() && ok == !old(h.disposed) && h.disposed == old(h.disposed)
      ensures h.waited == (ok || old(h.waited))
      ensures ok && !old(h.waited) ==>
                && h.streamId in streamResources && streamResources[h.streamId] == [h.streamId]
                && h.streamId in old(streamResources)
                && owner == Moved(old(owner), Others(old(streamResources)[h.streamId], h.streamId), Target(CurrentStream()))
      ensures !ok || old(h.waited) ==> owner == old(owner)
    {
      if h.disposed { return false; }
      if !h.waited {
        h.waited := true;
        DisposeStreamResources(h.streamId, handles.Keys);
      }
      ok := true;
    }

    /** The first wait on a stream that has just ended, whatever it has collected meanwhile: its
        record keeps its own id alone, and everything else is with the waiting stream, or free
        when that is stream 0. */
    method EndAndWait() returns (handle: Handle)
      requires Valid() && |activeStreams| > 1
      modifies this
      ensures Valid() && activeStreams == old(activeStreams[..|activeStreams| - 1])
      ensures handle.streamId == old(CurrentStream()) && Live(handle) && handle.waited
      ensures handle.streamId in old(streamResources) && handle.streamId in streamResources
      ensures streamResources[handle.streamId] == [handle.streamId]
      ensures forall id: nat {:trigger id in old(streamResources)[handle.streamId]} ::
                id in old(streamResources)[handle.streamId] && id != handle.streamId ==> With(id, CurrentStream())
    {
      ghost var stream := CurrentStream();
      OwnerOfListed(stream);
      var ended := End(true);
      handle := ended.value;
      OwnerOfListed(stream);
      label Waiting:
      var ok := Wait(handle);
      forall id: nat {:trigger id in old(streamResources)[stream]} | id in old(streamResources)[stream] && id != stream
        ensures With(id, CurrentStream())
      {
        assert id in old@Waiting(streamResources)[stream];
        assert owner[id] == Target(CurrentStream());
        OwnedIsWith(id, CurrentStream());
      }
    }

    /** Where ids go that a stream takes over: onto its joined list, or free for stream 0. */
    ghost predicate With(id: nat, stream: nat)
      reads this
    {
      if stream == 0 then id in FreeList(HighPriority(id)) else stream in streamResources && id in streamResources[stream]
    }

    lemma OwnedIsWith(id: nat, stream: nat)
      requires Consistent(handles.Keys) && id in owner && owner[id] == Target(stream)
      ensures With(id, stream)
    {
      if stream != 0 { InItsList(streamResources, owner, id); }
    }

    lemma OwnerOfListed(stream: nat)
      requires Owned(normalPriorityStreams, highPriorityStreams, streamResources, owner)
      ensures forall id: nat {:trigger owner[id]} ::
                id in owner && owner[id] == In(stream) ==> stream in streamResources && id in streamResources[stream]
      ensures stream in streamResources ==>
                forall id: nat {:trigger id in streamResources[stream]} :: id in streamResources[stream] <==> id in owner && owner[id] == In(stream)
    {
      forall id: nat {:trigger owner[id]} | id in owner && owner[id] == In(stream) ensures stream in streamResources && id in streamResources[stream] {
        InItsList(streamResources, owner, id);
      }
      if stream in streamResources { assert JoinedList(streamResources[stream], stream, owner); }
    }

    /** Dispose of a handle; a second call does nothing. */
    method DisposeHandle(h: Handle)
      requires Valid() && (Live(h) || h.disposed)
      modifies this, h
      ensures Valid() && h.disposed && h.waited == old(h.waited) && activeStreams == old(activeStreams)
      ensures handles == if old(h.disposed) then old(handles) else old(handles) - {h.streamId}
      ensures !old(h.disposed) ==>
                && h.streamId !in streamResources && h.streamId in old(streamResources)
                && owner == Moved(old(owner), old(streamResources)[h.streamId], Target(CurrentStream()))
      ensures old(h.disposed) ==> owner == old(owner)
    {
      if h.disposed { return; }
      h.disposed := true;
      DisposeStream(h.streamId, handles.Keys);
      handles := handles - {h.streamId};
      assert handles.Keys == old(handles).Keys - {h.streamId};
    }

    /** After the device has finished: every collected id is free again; live streams
        keep their own. `keepMain` says whether stream 0 still has views to release. */
    method CompleteDeviceSynchronization(keepMain: bool)
      requires Valid()
      modifies this`normalPriorityStreams, this`highPriorityStreams, this`streamResources, this`owner
      ensures Valid()
      ensures forall s: nat {:trigger streamResources[s]} :: s in streamResources && s != 0 ==> streamResources[s] == [s]
      ensures streamResources.Keys - {0} == old(streamResources).Keys - {0}
      ensures old(streamResources) != map[] && !keepMain ==> 0 !in streamResources
    {
      if streamResources == map[] { return; }
      NotCurrentMissing(handles.Keys);
      GetStreamResources(CurrentStream(), handles.Keys);
      ReleaseAll(handles.Keys);
      if 0 in streamResources && !keepMain {
        DropMain(handles.Keys);
      }
    }

    method DropMain(ghost live: set<nat>)
      requires Consistent(live)
      modifies this`streamResources
      ensures Consistent(live) && streamResources == old(streamResources) - {0}
    {
      MainRecordKeeps(activeStreams, normalPriorityStreams, highPriorityStreams, streamResources, owner, live);
      streamResources := streamResources - {0};
    }

    lemma NotCurrentMissing(live: set<nat>)
      requires Consistent(live)
      ensures CurrentStream() == 0 || CurrentStream() in streamResources
    {
      assert |activeStreams| > 1 ==> activeStreams[|activeStreams| - 1] in streamResources;
    }

    ghost predicate Reconciled(live: set<nat>)
      reads this
    {
      Reconciling(activeStreams, normalPriorityStreams, highPriorityStreams, streamResources, owner, live)
    }

    method ReleaseAll(ghost live: set<nat>)
      requires Consistent(live)
      modifies this`normalPriorityStreams, this`highPriorityStreams, this`streamResources, this`owner
      ensures Consistent(live) && streamResources.Keys == old(streamResources).Keys
      ensures forall s: nat {:trigger streamResources[s]} :: s in streamResources && s != 0 ==> streamResources[s] == [s]
    {
      IncreasingDistinct(normalPriorityStreams);
      IncreasingDistinct(highPriorityStreams);
      var released := ReleaseLoop(live);
      SortedAgain(activeStreams, normalPriorityStreams, highPriorityStreams, streamResources, owner, live);
      if released { SortFreeLists(); }
    }

    /** The loop over all records, in any order. */
    method ReleaseLoop(ghost live: set<nat>) returns (released: bool)
      requires Reconciled(live)
      modifies this`normalPriorityStreams, this`highPriorityStreams, this`streamResources, this`owner
      ensures Reconciled(live) && streamResources.Keys == old(streamResources).Keys
      ensures forall s: nat {:trigger streamResources[s]} :: s in streamResources && s != 0 ==> streamResources[s] == [s]
      ensures !released ==> normalPriorityStreams == old(normalPriorityStreams) && highPriorityStreams == old(highPriorityStreams)
    {
      var keys := streamResources.Keys;
      released := false;
      while keys != {}
        invariant keys <= streamResources.Keys == old(streamResources).Keys && Reconciled(live)
        invariant forall s: nat {:trigger streamResources[s]} :: s in streamResources && s != 0 && s !in keys ==> streamResources[s] == [s]
        invariant !released ==> normalPriorityStreams == old(normalPriorityStreams) && highPriorityStreams == old(highPriorityStreams)
        decreases keys
      {
        var s :| s in keys;
        var any := ReleaseOne(s, live);
        released := released || any;
        keys := keys - {s};
      }
    }

    method ReleaseOne(s: nat, ghost live: set<nat>) returns (any: bool)
      requires Reconciled(live) && s in streamResources
      modifies this`normalPriorityStreams, this`highPriorityStreams, this`streamResources, this`owner
      ensures Reconciled(live)
      ensures streamResources == old(streamResources)[s := OwnOnly(old(streamResources)[s], s)]
      ensures s != 0 ==> streamResources[s] == [s]
      ensures !any ==> normalPriorityStreams == old(normalPriorityStreams) && highPriorityStreams == old(highPriorityStreams)
    {
      var ids := Others(streamResources[s], s);
      ReleaseKeeps(activeStreams, normalPriorityStreams, highPriorityStreams, streamResources, owner, live, s);
      assert s != 0 ==> s in streamResources[s] by { if s != 0 { OwnIdListed(live, s); } }
      ReturnAll(ids);
      streamResources := streamResources[s := OwnOnly(streamResources[s], s)];
      owner := Moved(owner, ids, Free);
      any := ids != [];
      assert !any ==> Only(ids, false) == [] && Only(ids, true) == [];
    }

    lemma OwnIdListed(live: set<nat>, s: nat)
      requires Reconciled(live) && s in streamResources && s != 0
      ensures s in streamResources[s]
    {
      OwnsItself(activeStreams, streamResources, owner, live, s);
      assert JoinedList(streamResources[s], s, owner);
    }

    /** Each id is in exactly one place, and each live stream has its own. */
    lemma EveryIdOnce(id: nat)
      requires Valid() && 1 <= id <= MAX_STREAMS
      ensures id in normalPriorityStreams ==> !HighPriority(id) && id !in highPriorityStreams
      ensures id in highPriorityStreams ==> HighPriority(id)
      ensures (id in normalPriorityStreams || id in highPriorityStreams) <==>
                forall s: nat {:trigger streamResources[s]} :: s in streamResources ==> id !in streamResources[s]
      ensures forall s: nat, t: nat {:trigger streamResources[s], streamResources[t]} ::
                s in streamResources && t in streamResources && id in streamResources[s] && id in streamResources[t] ==> s == t
      ensures id in streamResources ==> id in streamResources[id]
    {
      assert id in owner;
      forall s: nat {:trigger streamResources[s]} | s in streamResources ensures JoinedList(streamResources[s], s, owner) {}
      if owner[id].In? { InItsList(streamResources, owner, id); }
      if id in streamResources { OwnsItself(activeStreams, streamResources, owner, handles.Keys, id); }
    }

    /** Once nothing runs and every handle is disposed, both free lists are as at first. */
    lemma AllDisposed()
      requires Valid() && handles == map[] && activeStreams == [0]
      ensures normalPriorityStreams == InitialList(MAX_STREAMS, false) && highPriorityStreams == InitialList(MAX_STREAMS, true)
    {
      InitialLists();
      AllReturned(activeStreams, normalPriorityStreams, highPriorityStreams, streamResources, owner,
                  InitialList(MAX_STREAMS, false), InitialList(MAX_STREAMS, true), InitialOwner(MAX_STREAMS));
    }
  }
}
