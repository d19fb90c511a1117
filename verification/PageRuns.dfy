/** Page conservation and isolation over whole runs of a cache. */
module PageRuns {
  import opened Wrappers
  import opened TokenChunks
  import opened PagePool
  import opened PageLaws
  import opened PageGrowth

  /** What a cache and its sequences can be asked to do. */
  datatype Op<S, P> =
    | NewSequence(s: S)
    | AttachPage(s: S, spare: P)
    | SetLength(s: S, allocLen: nat)
    | ReportTokens(s: S, tokenIds: seq<int>, target: Option<int>)
    | TruncateTo(s: S, newLen: int, spare: P)
    | PopLast(s: S)
    | ClearAll(s: S)
    | ShareFrom(donor: S, s: S, keepPages: nat, target: Option<int>)
    | Forget(s: S)

  /** One operation, under the conditions its callers keep. */
  ghost predicate Step<S, P>(pool: Pool<S, P>, op: Op<S, P>, pool': Pool<S, P>) {
    match op
    case NewSequence(s) => s !in pool.sequences && pool' == Create(pool, s)
    case AttachPage(s, spare) =>
      s in pool.sequences && pool.available != [] && spare !in pool.pages && pool' == Attach(pool, s, spare)
    case SetLength(s, allocLen) =>
      && s in pool.sequences
      && |History(pool, s)| <= allocLen <= Times(|pool.sequences[s].pages|, pool.pageSize)
      && pool' == Retarget(pool, s, allocLen, pool.sequences[s].targetToken)
    case ReportTokens(s, tokenIds, target) =>
      && s in pool.sequences
      && pool' == (match Report(pool, s, tokenIds, target) case Some(p) => p case None => pool)
    case TruncateTo(s, newLen, spare) =>
      && s in pool.sequences && spare !in pool.pages
      && match Truncate(pool, s, newLen, spare) {
           case Done(p) => pool' == p
           case OutOfRange => pool' == pool
           case OutOfPages(_) => false  // the run ends with the error
         }
    case PopLast(s) => CanPop(pool, s) && pool' == PopPage(pool, s)
    case ClearAll(s) => s in pool.sequences && pool' == Clear(pool, s)
    case ShareFrom(donor, s, keepPages, target) =>
      && donor in pool.sequences && s !in pool.sequences && FullPrefix(pool, donor, keepPages)
      && pool' == Share(pool, donor, s, keepPages, target)
    case Forget(s) =>
      s in pool.sequences && pool.sequences[s].pages == [] && pool' == pool.(sequences := pool.sequences - {s})
  }

  /** The sequence an operation works on. */
  function Subject<S, P>(op: Op<S, P>): S { op.s }

  /** Every operation keeps the invariant, and no sequence but its subject reads
      anything different afterwards. */
  lemma StepKeeps<S, P>(pool: Pool<S, P>, op: Op<S, P>, pool': Pool<S, P>)
    requires Valid(pool) && Step(pool, op, pool')
    ensures Valid(pool') && OthersUntouched(pool, pool', Subject(op))
    ensures pool'.maxPages == pool.maxPages && pool'.pageSize == pool.pageSize
  {
    match op
    case NewSequence(s) => CreateFacts(pool, s);
    case AttachPage(s, spare) => AttachFacts(pool, s, spare);
    case SetLength(s, allocLen) => RetargetFacts(pool, s, allocLen, pool.sequences[s].targetToken);
    case ReportTokens(s, tokenIds, target) => ReportExact(pool, s, tokenIds, target); UntouchedReflexive(pool, s);
    case TruncateTo(s, newLen, spare) => TruncateKeeps(pool, s, newLen, spare, pool');
    case PopLast(s) => PopExact(pool, s); PopShape(pool, s);
    case ClearAll(s) => ClearExact(pool, s); ClearSequences(pool, s);
    case ShareFrom(donor, s, keepPages, target) =>
      ShareExact(pool, donor, s, keepPages, target);
    case Forget(s) => ForgetKeeps(pool, s);
  }

  lemma TruncateKeeps<S, P>(pool: Pool<S, P>, s: S, newLen: int, spare: P, pool': Pool<S, P>)
    requires Valid(pool) && Step(pool, TruncateTo(s, newLen, spare), pool')
    ensures Valid(pool') && OthersUntouched(pool, pool', s)
    ensures pool'.maxPages == pool.maxPages && pool'.pageSize == pool.pageSize
  {
    if 0 <= newLen < pool.sequences[s].allocLen {
      TruncateExact(pool, s, newLen, spare);
    } else {
      UntouchedReflexive(pool, s);
    }
  }

  lemma ForgetKeeps<S, P>(pool: Pool<S, P>, s: S)
    requires Valid(pool) && s in pool.sequences && pool.sequences[s].pages == []
    ensures Valid(pool.(sequences := pool.sequences - {s}))
    ensures OthersUntouched(pool, pool.(sequences := pool.sequences - {s}), s)
  {
    RemoveFacts(pool, s);
    forall t | t in pool.sequences && t != s ensures ReadsSame(pool, pool.(sequences := pool.sequences - {s}), t) {
      assert ClosedAt(pool, t);
    }
  }

  ghost predicate Run<S, P>(states: seq<Pool<S, P>>, ops: seq<Op<S, P>>) {
    && |states| == |ops| + 1
    && Fresh(states[0])
    && forall i :: 0 <= i < |ops| ==> Step(states[i], ops[i], states[i + 1])
  }

  /** A new cache: no sequences, every page id free once, contents for every id. */
  ghost predicate Fresh<S, P>(pool: Pool<S, P>) {
    && pool.sequences == map[] && pool.pages == map[]
    && NoDup(pool.available)
    && (forall id: nat :: id in pool.available <==> id < pool.maxPages)
    && (forall id: nat :: id < pool.maxPages ==> id in pool.kv)
  }

  /** At every moment of every run each page's count is the number of sequences
      holding it, free and held ids are disjoint and together are all ids, and only
      full pages are shared. */
  lemma {:induction false} RunConserves<S, P>(states: seq<Pool<S, P>>, ops: seq<Op<S, P>>, k: nat)
    requires Run(states, ops) && k < |states|
    ensures Valid(states[k]) && states[k].maxPages == states[0].maxPages
    ensures forall p | p in states[k].pages :: states[k].pages[p].refs == |Holders(states[k], p)|
    ensures forall id: nat :: id < states[0].maxPages ==> (id in states[k].available <==> !HeldId(states[k], id))
  {
    if k == 0 {
      FreshIsValid(states[0]);
    } else {
      RunConserves(states, ops, k - 1);
      assert Step(states[k - 1], ops[k - 1], states[k - 1 + 1]);
      StepKeeps(states[k - 1], ops[k - 1], states[k]);
    }
    assert Counted(states[k]) && Partitioned(states[k]);
  }

  lemma FreshIsValid<S, P>(pool: Pool<S, P>)
    requires Fresh(pool)
    ensures Valid(pool)
  {
    assert forall id: nat :: !HeldId(pool, id);
  }

  /** Between two moments, a sequence that no step in between works on reads the
      same tokens and the same physical contents. */
  lemma {:induction false} RunIsolates<S, P>(states: seq<Pool<S, P>>, ops: seq<Op<S, P>>, j: nat, k: nat, t: S)
    requires Run(states, ops) && j <= k < |states| && t in states[j].sequences
    requires forall i :: j <= i < k ==> Subject(ops[i]) != t
    ensures ReadsSame(states[j], states[k], t)
    ensures History(states[k], t) == History(states[j], t)
  {
    if j == k {
      RunConserves(states, ops, j);
      assert ClosedAt(states[j], t);
    } else {
      RunIsolates(states, ops, j, k - 1, t);
      RunConserves(states, ops, k - 1);
      assert Step(states[k - 1], ops[k - 1], states[k - 1 + 1]);
      StepKeeps(states[k - 1], ops[k - 1], states[k]);
      assert ReadsSame(states[k - 1], states[k], t);
    }
    ReadsSameHistory(states[j], states[k], t);
  }

  /** When no sequence holds pages any more, every id is back in the free list. */
  lemma AllPagesReturn<S, P>(states: seq<Pool<S, P>>, ops: seq<Op<S, P>>, k: nat)
    requires Run(states, ops) && k < |states|
    requires forall s | s in states[k].sequences :: states[k].sequences[s].pages == []
    ensures forall id: nat :: id in states[k].available <==> id < states[0].maxPages
    ensures NoDup(states[k].available)
  {
    RunConserves(states, ops, k);
    var pool := states[k];
    forall p | p in pool.pages ensures pool.pages[p].refs == 0 {
      assert Holders(pool, p) == {};
    }
    assert forall id: nat :: !HeldId(pool, id);
  }
}
