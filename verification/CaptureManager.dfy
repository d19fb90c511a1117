/** Recording and replaying graphs by key: length dependence is learned lazily, and
    a graph is never replayed in the wrong length bucket (src/capture-manager.ts). */
module CaptureManager {
  import opened Wrappers

  /** One element of a key, before the source joins them with commas. */
  datatype Param = Caller(name: int) | BatchSize(n: nat) | TotalTokens(n: nat) | Backend(name: int) | PaddedKvLen(n: nat)

  /** What a planned state contributes to the key. */
  datatype State = State(batchSize: nat, totalTokens: nat, backend: seq<int>, paddedKvLen: nat)

  /** `inputs` stands for the signature of the input tensors. */
  datatype Key = Key(params: seq<Param>, inputs: int)

  /** What the callback does: throw, or return, having asked for a padded length or not. */
  datatype Outcome = Throws | Returns(consulted: bool)

  datatype Entry = Entry(warmupSteps: nat, graphExec: Option<int>)

  datatype Mode = Eager | Capture | Replay | Unkeyed

  /** What happened so far: runs, with what they were asked to run and the key they ran under,
      and disposals. */
  datatype Event = Ran(key: Key, states: seq<State>, caller: seq<int>, inputs: int, mode: Mode, outcome: Outcome) | Disposed

  const WARMUP_STEPS: nat := 3

  // ---------------------------------------------------------------------
  // Keys

  function CallerParams(key: seq<int>): (r: seq<Param>)
    ensures |r| == |key| && forall i :: 0 <= i < |r| ==> r[i] == Caller(key[i])
  {
    seq(|key|, i requires 0 <= i < |key| => Caller(key[i]))
  }

  function BackendParams(names: seq<int>): (r: seq<Param>)
    ensures |r| == |names| && forall i :: 0 <= i < |r| ==> r[i] == Backend(names[i])
  {
    seq(|names|, i requires 0 <= i < |names| => Backend(names[i]))
  }

  /** The parameters of one state. */
  function OneState(s: State): seq<Param> {
    [BatchSize(s.batchSize), TotalTokens(s.totalTokens)] + BackendParams(s.backend)
  }

  /** The parameters of the first n states. */
  function StateParams(states: seq<State>, n: nat): seq<Param>
    requires n <= |states|
  {
    if n == 0 then [] else StateParams(states, n - 1) + OneState(states[n - 1])
  }

  function BaseKey(states: seq<State>, key: seq<int>): seq<Param> {
    CallerParams(key) + StateParams(states, |states|)
  }

  function Pads(states: seq<State>): (r: seq<nat>)
    ensures |r| == |states| && forall i :: 0 <= i < |r| ==> r[i] == states[i].paddedKvLen
  {
    seq(|states|, i requires 0 <= i < |states| => states[i].paddedKvLen)
  }

  function PadParams(pads: seq<nat>): (r: seq<Param>)
    ensures |r| == |pads| && forall i :: 0 <= i < |r| ==> r[i] == PaddedKvLen(pads[i])
  {
    seq(|pads|, i requires 0 <= i < |pads| => PaddedKvLen(pads[i]))
  }

  ghost predicate Unpadded(params: seq<Param>) {
    forall i {:trigger params[i]} :: 0 <= i < |params| ==> !params[i].PaddedKvLen?
  }

  lemma {:induction false} StateParamsUnpadded(states: seq<State>, n: nat)
    requires n <= |states|
    ensures Unpadded(StateParams(states, n))
  {
    if n > 0 { StateParamsUnpadded(states, n - 1); }
  }

  lemma BaseUnpadded(states: seq<State>, key: seq<int>)
    ensures Unpadded(BaseKey(states, key))
  {
    StateParamsUnpadded(states, |states|);
  }

  lemma PadsInjective(p: seq<nat>, p': seq<nat>)
    requires PadParams(p) == PadParams(p')
    ensures p == p'
  {
    forall i | 0 <= i < |p| ensures p[i] == p'[i] {
      assert PadParams(p)[i] == PadParams(p')[i];
    }
  }

  /** Lengths from index n on, and none before. */
  ghost predicate PadsFrom(params: seq<Param>, n: nat) {
    n <= |params| && forall i {:trigger params[i]} :: 0 <= i < |params| ==> (params[i].PaddedKvLen? <==> n <= i)
  }

  lemma PadsFromUnique(params: seq<Param>, m: nat, n: nat)
    requires PadsFrom(params, m) && PadsFrom(params, n)
    ensures m == n
  {
    assert m < |params| ==> params[m].PaddedKvLen?;
    assert n < |params| ==> params[n].PaddedKvLen?;
  }

  /** A key with lengths can be taken apart again. */
  lemma KeyInjective(base: seq<Param>, pads: seq<nat>, base': seq<Param>, pads': seq<nat>)
    requires Unpadded(base) && Unpadded(base') && base + PadParams(pads) == base' + PadParams(pads')
    ensures base == base' && pads == pads'
  {
    var k, k' := base + PadParams(pads), base' + PadParams(pads');
    PadsFromUnique(k, |base|, |base'|);
    assert k[..|base|] == base && k'[..|base|] == base';
    assert k[|base|..] == PadParams(pads) && k'[|base|..] == PadParams(pads');
    PadsInjective(pads, pads');
  }

  /** How many states a base key lists. */
  function BatchCount(params: seq<Param>, n: nat): nat
    requires n <= |params|
  {
    if n == 0 then 0 else BatchCount(params, n - 1) + (if params[n - 1].BatchSize? then 1 else 0)
  }

  lemma {:induction false} CountPrefix(a: seq<Param>, b: seq<Param>, n: nat)
    requires n <= |a|
    ensures BatchCount(a + b, n) == BatchCount(a, n)
  {
    if n > 0 { CountPrefix(a, b, n - 1); }
  }

  lemma {:induction false} CountConcat(a: seq<Param>, b: seq<Param>, n: nat)
    requires n <= |b|
    ensures BatchCount(a + b, |a| + n) == BatchCount(a, |a|) + BatchCount(b, n)
  {
    if n > 0 { CountConcat(a, b, n - 1); } else { CountPrefix(a, b, |a|); }
  }

  lemma {:induction false} CountNone(b: seq<Param>, n: nat)
    requires n <= |b| && forall i :: 0 <= i < |b| ==> !b[i].BatchSize?
    ensures BatchCount(b, n) == 0
  {
    if n > 0 { CountNone(b, n - 1); }
  }

  /** One state adds one batch size. */
  lemma CountOne(s: State)
    ensures BatchCount(OneState(s), |OneState(s)|) == 1
  {
    var backend := BackendParams(s.backend);
    CountNone(backend, |backend|);
    CountConcat([BatchSize(s.batchSize), TotalTokens(s.totalTokens)], backend, |backend|);
    var head := [BatchSize(s.batchSize), TotalTokens(s.totalTokens)];
    assert BatchCount(head, 0) == 0 && BatchCount(head, 1) == 1 && BatchCount(head, 2) == 1;
  }

  lemma {:induction false} CountStateParams(states: seq<State>, n: nat)
    requires n <= |states|
    ensures BatchCount(StateParams(states, n), |StateParams(states, n)|) == n
  {
    if n > 0 {
      CountStateParams(states, n - 1);
      var one := OneState(states[n - 1]);
      CountOne(states[n - 1]);
      CountConcat(StateParams(states, n - 1), one, |one|);
    }
  }

  /** A base key lists as many batch sizes as states. */
  lemma CountStates(states: seq<State>, key: seq<int>)
    ensures BatchCount(BaseKey(states, key), |BaseKey(states, key)|) == |states|
  {
    var callers, params := CallerParams(key), StateParams(states, |states|);
    CountNone(callers, |callers|);
    CountStateParams(states, |states|);
    CountConcat(callers, params, |params|);
  }

  lemma BackendsInjective(names: seq<int>, names': seq<int>)
    requires BackendParams(names) == BackendParams(names')
    ensures names == names'
  {
    forall i | 0 <= i < |names| ensures names[i] == names'[i] { assert BackendParams(names)[i] == BackendParams(names')[i]; }
  }

  lemma CallersInjective(key: seq<int>, key': seq<int>)
    requires CallerParams(key) == CallerParams(key')
    ensures key == key'
  {
    forall i | 0 <= i < |key| ensures key[i] == key'[i] { assert CallerParams(key)[i] == CallerParams(key')[i]; }
  }

  /** The last batch size of a list stands at index n. */
  ghost predicate LastBatchAt(params: seq<Param>, n: nat) {
    n < |params| && params[n].BatchSize? && forall i {:trigger params[i]} :: n < i < |params| ==> !params[i].BatchSize?
  }

  lemma LastBatchUnique(params: seq<Param>, m: nat, n: nat)
    requires LastBatchAt(params, m) && LastBatchAt(params, n)
    ensures m == n
  {
  }

  lemma OneStateLast(front: seq<Param>, s: State)
    ensures LastBatchAt(front + OneState(s), |front|)
  {
    var all := front + OneState(s);
    forall i {:trigger all[i]} | |front| < i < |all| ensures !all[i].BatchSize? {
      if i > |front| + 1 { assert all[i] == BackendParams(s.backend)[i - |front| - 2]; }
    }
  }

  /** The last state can be read off. */
  lemma LastStateInjective(front: seq<Param>, s: State, front': seq<Param>, s': State)
    requires front + OneState(s) == front' + OneState(s')
    ensures front == front' && s.batchSize == s'.batchSize && s.totalTokens == s'.totalTokens && s.backend == s'.backend
  {
    var all, all' := front + OneState(s), front' + OneState(s');
    OneStateLast(front, s);
    OneStateLast(front', s');
    LastBatchUnique(all, |front|, |front'|);
    assert front == all[..|front|] == all'[..|front'|] == front';
    assert all[|front|] == BatchSize(s.batchSize) && all'[|front|] == BatchSize(s'.batchSize);
    assert all[|front| + 1] == TotalTokens(s.totalTokens) && all'[|front| + 1] == TotalTokens(s'.totalTokens);
    assert BackendParams(s.backend) == all[|front| + 2..] == all'[|front'| + 2..] == BackendParams(s'.backend);
    BackendsInjective(s.backend, s'.backend);
  }

  /** Two plans of the same shape: batch sizes, token counts and backends, state by state. */
  ghost predicate SameShape(states: seq<State>, states': seq<State>) {
    && |states| == |states'|
    && forall i {:trigger states[i]} {:trigger states'[i]} :: 0 <= i < |states| ==>
         && states[i].batchSize == states'[i].batchSize && states[i].totalTokens == states'[i].totalTokens
         && states[i].backend == states'[i].backend
  }

  lemma {:induction false} StatesInjective(callers: seq<Param>, states: seq<State>, callers': seq<Param>, states': seq<State>, n: nat)
    requires n <= |states| && n <= |states'| && callers + StateParams(states, n) == callers' + StateParams(states', n)
    ensures callers == callers'
    ensures forall i {:trigger states[i]} {:trigger states'[i]} :: 0 <= i < n ==>
              && states[i].batchSize == states'[i].batchSize && states[i].totalTokens == states'[i].totalTokens
              && states[i].backend == states'[i].backend
  {
    if n > 0 {
      var one, one' := OneState(states[n - 1]), OneState(states'[n - 1]);
      var front, front' := callers + StateParams(states, n - 1), callers' + StateParams(states', n - 1);
      assert front + one == callers + StateParams(states, n) && front' + one' == callers' + StateParams(states', n);
      LastStateInjective(front, states[n - 1], front', states'[n - 1]);
      StatesInjective(callers, states, callers', states', n - 1);
    } else {
      assert callers + [] == callers && callers' + [] == callers';
    }
  }

  /** A base key tells the caller's key and everything of each state but its length. */
  lemma BaseInjective(states: seq<State>, key: seq<int>, states': seq<State>, key': seq<int>)
    requires BaseKey(states, key) == BaseKey(states', key')
    ensures key == key' && SameShape(states, states')
  {
    CountStates(states, key);
    CountStates(states', key');
    StatesInjective(CallerParams(key), states, CallerParams(key'), states', |states|);
    CallersInjective(key, key');
  }

  // ---------------------------------------------------------------------
  // Histories

  /** Eager attempts to run key k among the first n events, since the last disposal. */
  ghost function EagerRuns(trace: seq<Event>, n: nat, k: Key): nat
    requires n <= |trace|
  {
    if n == 0 || trace[n - 1].Disposed? then 0
    else EagerRuns(trace, n - 1, k) + (if trace[n - 1].key == k && trace[n - 1].mode == Eager then 1 else 0)
  }

  lemma {:induction false} EagerRunsOfPrefix(trace: seq<Event>, e: Event, n: nat, k: Key)
    requires n <= |trace|
    ensures EagerRuns(trace + [e], n, k) == EagerRuns(trace, n, k)
  {
    if n > 0 { EagerRunsOfPrefix(trace, e, n - 1, k); }
  }

  lemma EagerRunsSnoc(trace: seq<Event>, e: Event, k: Key)
    ensures EagerRuns(trace + [e], |trace| + 1, k)
         == if e.Disposed? then 0 else EagerRuns(trace, |trace|, k) + (if e.key == k && e.mode == Eager then 1 else 0)
  {
    EagerRunsOfPrefix(trace, e, |trace|, k);
  }

  /** What the keyed runs of k did among the first n events, since the last disposal; runs
      while capturing is switched off do not count. */
  ghost function RunsSince(trace: seq<Event>, n: nat, k: Key): seq<Outcome>
    requires n <= |trace|
  {
    if n == 0 || trace[n - 1].Disposed? then []
    else RunsSince(trace, n - 1, k) + (if trace[n - 1].key == k && trace[n - 1].mode != Unkeyed then [trace[n - 1].outcome] else [])
  }

  lemma {:induction false} RunsOfPrefix(trace: seq<Event>, e: Event, n: nat, k: Key)
    requires n <= |trace|
    ensures RunsSince(trace + [e], n, k) == RunsSince(trace, n, k)
  {
    if n > 0 { RunsOfPrefix(trace, e, n - 1, k); }
  }

  lemma RunsSnoc(trace: seq<Event>, e: Event, k: Key)
    ensures RunsSince(trace + [e], |trace| + 1, k)
         == if e.Disposed? then []
            else RunsSince(trace, |trace|, k) + (if e.key == k && e.mode != Unkeyed then [e.outcome] else [])
  {
    RunsOfPrefix(trace, e, |trace|, k);
  }

  /** The run behind these runs of the key: eager but for the fourth, and replayed behind a
      fourth that returned. */
  function ModeBehind(runs: seq<Outcome>): Mode {
    if |runs| >= 4 && runs[3].Returns? then Replay else if |runs| == 3 then Capture else Eager
  }

  ghost predicate ModeFits(trace: seq<Event>, j: nat)
    requires j < |trace|
  {
    trace[j].Ran? && trace[j].mode != Unkeyed ==> trace[j].mode == ModeBehind(RunsSince(trace, j, trace[j].key))
  }

  ghost predicate AllModesFit(trace: seq<Event>) {
    forall j {:trigger ModeFits(trace, j)} :: 0 <= j < |trace| ==> ModeFits(trace, j)
  }

  ghost predicate NotDisposed(trace: seq<Event>, i: nat, j: nat)
    requires j <= |trace|
  {
    forall l {:trigger trace[l]} :: i <= l < j ==> trace[l].Ran?
  }

  /** Event i captured key k after three eager runs of k. */
  ghost predicate CapturedAt(trace: seq<Event>, i: nat, k: Key) {
    && i < |trace| && trace[i].Ran? && trace[i].key == k && trace[i].mode == Capture && trace[i].outcome.Returns?
    && EagerRuns(trace, i, k) >= WARMUP_STEPS
  }

  lemma CapturedStays(trace: seq<Event>, e: Event, i: nat, k: Key)
    requires CapturedAt(trace, i, k)
    ensures CapturedAt(trace + [e], i, k)
  {
    EagerRunsOfPrefix(trace, e, i, k);
  }

  /** The graph of key k, if it has one now. */
  ghost predicate HasCapture(trace: seq<Event>, k: Key) {
    exists i {:trigger CapturedAt(trace, i, k)} :: 0 <= i < |trace| && CapturedAt(trace, i, k) && NotDisposed(trace, i, |trace|)
  }

  lemma CaptureStays(trace: seq<Event>, e: Event, k: Key)
    requires HasCapture(trace, k) && e.Ran?
    ensures HasCapture(trace + [e], k)
  {
    var i :| 0 <= i < |trace| && CapturedAt(trace, i, k) && NotDisposed(trace, i, |trace|);
    CapturedStays(trace, e, i, k);
    assert NotDisposed(trace + [e], i, |trace| + 1);
  }

  /** The replayed run is the captured one: the same caller's key, shape and inputs, and the
      same padded lengths if the callback asked for any. */
  ghost predicate SameRun(capture: Event, replay: Event)
    requires capture.Ran? && replay.Ran?
  {
    && capture.caller == replay.caller && SameShape(capture.states, replay.states) && capture.inputs == replay.inputs
    && (capture.outcome.Returns? && capture.outcome.consulted ==> Pads(capture.states) == Pads(replay.states))
  }

  /** Event j replays a graph captured under the same key, for the same run. */
  ghost predicate SafeReplay(trace: seq<Event>, j: nat)
    requires j < |trace|
  {
    trace[j].Ran? && trace[j].mode == Replay ==>
      exists i {:trigger CapturedAt(trace, i, trace[j].key)} ::
        && 0 <= i < j && CapturedAt(trace, i, trace[j].key) && NotDisposed(trace, i, j)
        && SameRun(trace[i], trace[j])
  }

  lemma SafeReplayStays(trace: seq<Event>, e: Event, j: nat)
    requires j < |trace| && SafeReplay(trace, j)
    ensures SafeReplay(trace + [e], j)
  {
    if trace[j].Ran? && trace[j].mode == Replay {
      var i :| 0 <= i < j && CapturedAt(trace, i, trace[j].key) && NotDisposed(trace, i, j)
               && SameRun(trace[i], trace[j]);
      CapturedStays(trace, e, i, trace[j].key);
      assert CapturedAt(trace + [e], i, (trace + [e])[j].key) && NotDisposed(trace + [e], i, j);
    }
  }

  ghost predicate AllSafe(trace: seq<Event>) {
    forall j {:trigger SafeReplay(trace, j)} :: 0 <= j < |trace| ==> SafeReplay(trace, j)
  }

  function BaseOf(e: Event): seq<Param>
    requires e.Ran?
  {
    BaseKey(e.states, e.caller)
  }

  /** Keyed events ran under a key of what they were asked to run, and a base that was found
      to depend on lengths is known to. */
  ghost predicate Recorded(e: Event, lengthVariant: set<seq<Param>>) {
    e.Ran? ==>
      && e.key.inputs == e.inputs && (e.key.params == BaseOf(e) || e.key.params == BaseOf(e) + PadParams(Pads(e.states)))
      && (e.mode != Replay && e.outcome == Returns(true) ==> BaseOf(e) in lengthVariant)
  }

  ghost predicate AllRecorded(trace: seq<Event>, lengthVariant: set<seq<Param>>) {
    forall j {:trigger trace[j]} :: 0 <= j < |trace| ==> Recorded(trace[j], lengthVariant)
  }

  // ---------------------------------------------------------------------
  // Entries

  /** An entry counts the eager runs of its key up to three, and its graph was captured
      after them. */
  ghost predicate EntryOk(e: Entry, trace: seq<Event>, k: Key) {
    && (e.warmupSteps <= WARMUP_STEPS ==> e.graphExec.None? && EagerRuns(trace, |trace|, k) == e.warmupSteps)
    && (e.graphExec.Some? ==> HasCapture(trace, k))
    && EntryAfter(e, RunsSince(trace, |trace|, k))
  }

  /** The entry of a key behind these runs of it. */
  ghost predicate EntryAfter(e: Entry, runs: seq<Outcome>) {
    && (e.graphExec.Some? <==> |runs| >= 4 && runs[3].Returns?)
    && e.warmupSteps == if e.graphExec.Some? then 4 else |runs|
  }

  function EntryOf(captured: map<Key, Entry>, k: Key): Entry {
    if k in captured then captured[k] else Entry(0, None)
  }

  ghost predicate Consistent(captured: map<Key, Entry>, lengthVariant: set<seq<Param>>, trace: seq<Event>) {
    && AllSafe(trace) && AllRecorded(trace, lengthVariant) && AllModesFit(trace)
    && forall k: Key {:trigger EntryOf(captured, k)} :: EntryOk(EntryOf(captured, k), trace, k)
  }

  /** What a run of a key will be. */
  function ModeOf(e: Entry): Mode {
    if e.graphExec.Some? then Replay else if e.warmupSteps == WARMUP_STEPS then Capture else Eager
  }

  /** The entry a run leaves behind. */
  function NextEntry(e: Entry, outcome: Outcome, exec: int): Entry {
    match ModeOf(e)
    case Replay => e
    case Capture => Entry(e.warmupSteps + 1, if outcome.Returns? then Some(exec) else None)
    case _ => Entry(e.warmupSteps + 1, None)
  }

  function Learned(lengthVariant: set<seq<Param>>, base: seq<Param>, outcome: Outcome): set<seq<Param>> {
    if outcome == Returns(true) then lengthVariant + {base} else lengthVariant
  }

  function KeyOf(lengthVariant: set<seq<Param>>, base: seq<Param>, pads: seq<nat>, inputs: int): Key {
    Key(if base in lengthVariant then base + PadParams(pads) else base, inputs)
  }

  lemma EntryStays(e: Entry, trace: seq<Event>, ev: Event, k: Key)
    requires EntryOk(e, trace, k) && ev.Ran? && (ev.key != k || ev.mode == Unkeyed)
    ensures EntryOk(e, trace + [ev], k)
  {
    EagerRunsSnoc(trace, ev, k);
    RunsSnoc(trace, ev, k);
    if e.graphExec.Some? { CaptureStays(trace, ev, k); }
  }

  lemma EntryAfterNext(e: Entry, runs: seq<Outcome>, outcome: Outcome, exec: int)
    requires EntryAfter(e, runs)
    ensures EntryAfter(NextEntry(e, outcome, exec), runs + [outcome]) && ModeOf(e) == ModeBehind(runs)
  {
  }

  lemma EntrySteps(e: Entry, trace: seq<Event>, ev: Event, k: Key, outcome: Outcome, exec: int)
    requires EntryOk(e, trace, k) && ev.Ran? && ev.key == k && ev.mode == ModeOf(e) && ev.outcome == outcome
    ensures EntryOk(NextEntry(e, outcome, exec), trace + [ev], k)
  {
    EagerRunsSnoc(trace, ev, k);
    RunsSnoc(trace, ev, k);
    EntryAfterNext(e, RunsSince(trace, |trace|, k), outcome, exec);
    if e.graphExec.Some? {
      CaptureStays(trace, ev, k);
    } else if ModeOf(e) == Capture && outcome.Returns? {
      EagerRunsOfPrefix(trace, ev, |trace|, k);
      assert CapturedAt(trace + [ev], |trace|, k) && NotDisposed(trace + [ev], |trace|, |trace| + 1);
    }
  }

  /** The heart of replay safety: the key under which a graph is found now is the key
      it was captured under, and if its callback asked for lengths, they are in it. */
  lemma ReplayIsSafe(captured: map<Key, Entry>, lengthVariant: set<seq<Param>>, trace: seq<Event>, ev: Event)
    requires Consistent(captured, lengthVariant, trace)
    requires ev.Ran? && ev.mode == Replay && EntryOf(captured, ev.key).graphExec.Some?
    requires ev.key == KeyOf(lengthVariant, BaseOf(ev), Pads(ev.states), ev.inputs)
    ensures SafeReplay(trace + [ev], |trace|)
  {
    var k, trace' := ev.key, trace + [ev];
    assert HasCapture(trace, k);
    var i :| 0 <= i < |trace| && CapturedAt(trace, i, k) && NotDisposed(trace, i, |trace|);
    CapturedStays(trace, ev, i, k);
    assert Recorded(trace[i], lengthVariant);
    KeysTell(lengthVariant, trace[i], ev);
    assert CapturedAt(trace', i, trace'[|trace|].key) && NotDisposed(trace', i, |trace|);
  }

  /** A key that a run was recorded under tells the run. */
  lemma KeysTell(lengthVariant: set<seq<Param>>, capture: Event, replay: Event)
    requires capture.Ran? && capture.mode == Capture && Recorded(capture, lengthVariant)
    requires replay.Ran? && replay.key == capture.key
    requires replay.key == KeyOf(lengthVariant, BaseOf(replay), Pads(replay.states), replay.inputs)
    ensures SameRun(capture, replay)
  {
    BaseUnpadded(capture.states, capture.caller);
    BaseUnpadded(replay.states, replay.caller);
    NoPads(BaseOf(capture));
    NoPads(BaseOf(replay));
    var captured := if capture.key.params == BaseOf(capture) then [] else Pads(capture.states);
    var pads := if BaseOf(replay) in lengthVariant then Pads(replay.states) else [];
    KeyInjective(BaseOf(capture), captured, BaseOf(replay), pads);
    BaseInjective(capture.states, capture.caller, replay.states, replay.caller);
  }

  lemma NoPads(base: seq<Param>)
    ensures base + PadParams([]) == base
  {
  }

  /** One more run, of mode and entry as the manager chooses them. */
  lemma RunKeeps(captured: map<Key, Entry>, lengthVariant: set<seq<Param>>, trace: seq<Event>,
                 states: seq<State>, caller: seq<int>, inputs: int, outcome: Outcome, exec: int)
    requires Consistent(captured, lengthVariant, trace)
    ensures var base := BaseKey(states, caller);
            var k := KeyOf(lengthVariant, base, Pads(states), inputs);
            var e := EntryOf(captured, k);
            var learned := if ModeOf(e) == Replay then lengthVariant else Learned(lengthVariant, base, outcome);
            Consistent(captured[k := NextEntry(e, outcome, exec)], learned, trace + [Ran(k, states, caller, inputs, ModeOf(e), outcome)])
  {
    var base := BaseKey(states, caller);
    var k := KeyOf(lengthVariant, base, Pads(states), inputs);
    var e := EntryOf(captured, k);
    var ev := Ran(k, states, caller, inputs, ModeOf(e), outcome);
    var learned := if ModeOf(e) == Replay then lengthVariant else Learned(lengthVariant, base, outcome);
    assert EntryOk(e, trace, k);
    if ModeOf(e) == Replay { ReplayIsSafe(captured, lengthVariant, trace, ev); }
    EntryAfterNext(e, RunsSince(trace, |trace|, k), outcome, exec);
    RunsOfPrefix(trace, ev, |trace|, k);
    EventKeeps(lengthVariant, learned, trace, ev);
    var captured' := captured[k := NextEntry(e, outcome, exec)];
    forall k2: Key {:trigger EntryOf(captured', k2)} ensures EntryOk(EntryOf(captured', k2), trace + [ev], k2) {
      assert EntryOk(EntryOf(captured, k2), trace, k2);
      if k2 == k { EntrySteps(e, trace, ev, k, outcome, exec); } else { EntryStays(EntryOf(captured, k2), trace, ev, k2); }
    }
  }

  /** A run without keys, while capturing is switched off. */
  lemma UnkeyedKeeps(captured: map<Key, Entry>, lengthVariant: set<seq<Param>>, trace: seq<Event>,
                     states: seq<State>, caller: seq<int>, inputs: int, outcome: Outcome)
    requires Consistent(captured, lengthVariant, trace)
    ensures var base := BaseKey(states, caller);
            Consistent(captured, Learned(lengthVariant, base, outcome),
                       trace + [Ran(KeyOf(lengthVariant, base, Pads(states), inputs), states, caller, inputs, Unkeyed, outcome)])
  {
    var base := BaseKey(states, caller);
    var k := KeyOf(lengthVariant, base, Pads(states), inputs);
    var ev := Ran(k, states, caller, inputs, Unkeyed, outcome);
    EventKeeps(lengthVariant, Learned(lengthVariant, base, outcome), trace, ev);
    forall k2: Key {:trigger EntryOf(captured, k2)} ensures EntryOk(EntryOf(captured, k2), trace + [ev], k2) {
      assert EntryOk(EntryOf(captured, k2), trace, k2);
      EntryStays(EntryOf(captured, k2), trace, ev, k2);
    }
  }

  lemma EventKeeps(lengthVariant: set<seq<Param>>, learned: set<seq<Param>>, trace: seq<Event>, ev: Event)
    requires AllSafe(trace) && AllRecorded(trace, lengthVariant) && AllModesFit(trace) && lengthVariant <= learned
    requires Recorded(ev, learned) && SafeReplay(trace + [ev], |trace|) && ModeFits(trace + [ev], |trace|)
    ensures AllSafe(trace + [ev]) && AllRecorded(trace + [ev], learned) && AllModesFit(trace + [ev])
  {
    var trace' := trace + [ev];
    forall j {:trigger SafeReplay(trace', j)} | 0 <= j < |trace'| ensures SafeReplay(trace', j) {
      if j < |trace| {
        assert SafeReplay(trace, j);
        SafeReplayStays(trace, ev, j);
      }
    }
    forall j {:trigger trace'[j]} | 0 <= j < |trace'| ensures Recorded(trace'[j], learned) {
      if j < |trace| { assert Recorded(trace[j], lengthVariant); }
    }
    forall j {:trigger ModeFits(trace', j)} | 0 <= j < |trace'| ensures ModeFits(trace', j) {
      if j < |trace| {
        assert ModeFits(trace, j);
        if trace[j].Ran? { RunsOfPrefix(trace, ev, j, trace[j].key); }
      }
    }
  }

  lemma DisposeKeeps(captured: map<Key, Entry>, lengthVariant: set<seq<Param>>, trace: seq<Event>)
    requires Consistent(captured, lengthVariant, trace)
    ensures Consistent(map[], lengthVariant, trace + [Disposed])
  {
    EventKeeps(lengthVariant, lengthVariant, trace, Disposed);
    forall k: Key {:trigger EntryOf(map[], k)} ensures EntryOk(EntryOf(map[], k), trace + [Disposed], k) {
      EagerRunsSnoc(trace, Disposed, k);
      RunsSnoc(trace, Disposed, k);
    }
  }

  // ---------------------------------------------------------------------
  // The manager

  class Manager {
    var disabled: bool
    var captured: map<Key, Entry>
    var lengthVariant: set<seq<Param>>
    ghost var trace: seq<Event>

    constructor ()
      ensures Valid() && !disabled && trace == []
    {
      disabled, captured, lengthVariant, trace := false, map[], {}, [];
    }

    ghost predicate Valid()
      reads this
    {
      Consistent(captured, lengthVariant, trace)
    }

    method StateKeys(states: seq<State>, key: seq<int>) returns (base: seq<Param>, params: seq<Param>)
      ensures base == BaseKey(states, key)
      ensures params == if base in lengthVariant then base + PadParams(Pads(states)) else base
    {
      base := CallerParams(key);
      var i := 0;
      while i < |states|
        invariant 0 <= i <= |states| && base == CallerParams(key) + StateParams(states, i)
      {
        var s := states[i];
        base := base + ([BatchSize(s.batchSize), TotalTokens(s.totalTokens)] + BackendParams(s.backend));
        assert StateParams(states, i + 1) == StateParams(states, i) + OneState(s);
        i := i + 1;
      }
      params := base;
      if base in lengthVariant {
        i := 0;
        while i < |states|
          invariant 0 <= i <= |states| && params == base + PadParams(Pads(states))[..i]
        {
          params := params + [PaddedKvLen(states[i].paddedKvLen)];
          i := i + 1;
        }
        assert PadParams(Pads(states))[..i] == PadParams(Pads(states));
      }
    }

    method IsStateCaptured(states: seq<State>, key: seq<int>, inputs: int) returns (r: bool)
      ensures r <==> key != [] && EntryOf(captured, KeyOf(lengthVariant, BaseKey(states, key), Pads(states), inputs)).graphExec.Some?
    {
      if key == [] { return false; }
      var base, params := StateKeys(states, key);
      var k := Key(params, inputs);
      r := k in captured && captured[k].graphExec.Some?;
    }

    /** Grows only: a base once found to depend on lengths stays so. */
    method RecordLengthVariant(base: seq<Param>, kvLen: bool)
      modifies this`lengthVariant
      ensures lengthVariant == if kvLen then old(lengthVariant) + {base} else old(lengthVariant)
    {
      if kvLen { lengthVariant := lengthVariant + {base}; }
    }

    /** The callback with its bookkeeping: nothing is learned when it throws. */
    method Call(base: seq<Param>, outcome: Outcome) returns (ok: bool)
      modifies this`lengthVariant
      ensures ok <==> outcome.Returns?
      ensures lengthVariant == Learned(old(lengthVariant), base, outcome)
    {
      ok := outcome.Returns?;
      if ok { RecordLengthVariant(base, outcome.consulted); }
    }

    /** The whole effect of one run: how it ran, what it left of the graphs, and what it
        taught about length dependence. */
    twostate predicate RanOnce(states: seq<State>, key: seq<int>, inputs: int, outcome: Outcome, exec: int, mode: Mode, ok: bool)
      reads this
    {
      var base := BaseKey(states, key);
      var k := KeyOf(old(lengthVariant), base, Pads(states), inputs);
      var e := EntryOf(old(captured), k);
      && disabled == old(disabled)
      && mode == (if key == [] || disabled then Unkeyed else ModeOf(e))
      && ok == (mode == Replay || outcome.Returns?)
      && trace == (if key == [] then old(trace) else old(trace) + [Ran(k, states, key, inputs, mode, outcome)])
      && captured == (if mode == Unkeyed then old(captured) else old(captured)[k := NextEntry(e, outcome, exec)])
      && lengthVariant == if key == [] || mode == Replay then old(lengthVariant) else Learned(old(lengthVariant), base, outcome)
    }

    /** Run a keyed computation: eagerly, recording it, or by replaying its graph.
        `outcome` is what the callback would do, `exec` the graph the backend would
        instantiate; ok is false when the callback's exception propagates. */
    method RunStates(states: seq<State>, key: seq<int>, inputs: int, outcome: Outcome, exec: int) returns (mode: Mode, ok: bool)
      requires Valid()
      modifies this
      ensures Valid() && RanOnce(states, key, inputs, outcome, exec, mode, ok)
    {
      if key == [] { return Unkeyed, outcome.Returns?; }
      var base, params := StateKeys(states, key);
      var k := Key(params, inputs);
      if disabled {
        UnkeyedKeeps(captured, lengthVariant, trace, states, key, inputs, outcome);
        trace := trace + [Ran(k, states, key, inputs, Unkeyed, outcome)];
        mode := Unkeyed;
        ok := Call(base, outcome);
      } else {
        assert EntryOk(EntryOf(captured, k), trace, k);
        RunKeeps(captured, lengthVariant, trace, states, key, inputs, outcome, exec);
        trace := trace + [Ran(k, states, key, inputs, ModeOf(EntryOf(captured, k)), outcome)];
        mode, ok := RunKeyed(k, base, outcome, exec);
      }
    }

    method RunKeyed(k: Key, base: seq<Param>, outcome: Outcome, exec: int) returns (mode: Mode, ok: bool)
      requires EntryOf(captured, k).warmupSteps <= WARMUP_STEPS ==> EntryOf(captured, k).graphExec.None?
      modifies this`captured, this`lengthVariant
      ensures var e := EntryOf(old(captured), k);
              && mode == ModeOf(e) && ok == (mode == Replay || outcome.Returns?)
              && captured == old(captured)[k := NextEntry(e, outcome, exec)]
              && lengthVariant == if mode == Replay then old(lengthVariant) else Learned(old(lengthVariant), base, outcome)
    {
      var capturing := false;
      if k in captured {
        var entry := captured[k];
        if entry.graphExec.Some? { return Replay, true; }
        capturing := entry.warmupSteps == WARMUP_STEPS;
        captured := captured[k := entry.(warmupSteps := entry.warmupSteps + 1)];
      } else {
        captured := captured[k := Entry(1, None)];
      }
      mode := if capturing then Capture else Eager;
      ok := Call(base, outcome);
      if capturing && ok {
        captured := captured[k := captured[k].(graphExec := Some(exec))];
      }
    }

    /** Run, and tell the caller whether this was a run before the graph exists. */
    method Execute(states: seq<State>, key: seq<int>, inputs: int, outcome: Outcome, exec: int) returns (warmup: bool, mode: Mode, ok: bool)
      requires Valid()
      modifies this
      ensures Valid() && RanOnce(states, key, inputs, outcome, exec, mode, ok)
      ensures warmup <==> mode == Eager || mode == Capture
      ensures key != [] && !disabled ==> (warmup <==> mode != Replay)
    {
      var isCaptured := IsStateCaptured(states, key, inputs);
      warmup := !disabled && key != [] && !isCaptured;
      mode, ok := RunStates(states, key, inputs, outcome, exec);
    }

    method Dispose()
      requires Valid()
      modifies this`captured, this`trace
      ensures Valid() && captured == map[] && trace == old(trace) + [Disposed]
    {
      DisposeKeeps(captured, lengthVariant, trace);
      captured := map[];
      trace := trace + [Disposed];
    }

    /** Every replay so far was safe. */
    lemma ReplaysAreSafe(j: nat)
      requires Valid() && j < |trace| && trace[j].Ran? && trace[j].mode == Replay
      ensures exists i ::
                && 0 <= i < j && CapturedAt(trace, i, trace[j].key) && NotDisposed(trace, i, j)
                && SameRun(trace[i], trace[j])
      ensures exists i :: 0 <= i < j && EagerRuns(trace, i, trace[j].key) >= 3
    {
      assert SafeReplay(trace, j);
      var i :| 0 <= i < j && CapturedAt(trace, i, trace[j].key) && NotDisposed(trace, i, j)
               && SameRun(trace[i], trace[j]);
      assert EagerRuns(trace, i, trace[j].key) >= 3;
    }

    /** In every history, with runs of other keys, throwing callbacks, disposals and times
        of being switched off in between: a key has a graph now iff it was run at least four
        times since the last disposal and the fourth did not throw. */
    lemma CapturedInFourthRun(k: Key)
      requires Valid()
      ensures var runs := RunsSince(trace, |trace|, k);
              && (EntryOf(captured, k).graphExec.Some? <==> |runs| >= 4 && runs[3].Returns?)
              && ModeOf(EntryOf(captured, k)) == ModeBehind(runs)
    {
      assert EntryOk(EntryOf(captured, k), trace, k);
    }

    /** And every keyed run of the past was eager, captured or replayed accordingly. */
    lemma ModesOfThePast(j: nat)
      requires Valid() && j < |trace| && trace[j].Ran? && trace[j].mode != Unkeyed
      ensures trace[j].mode == ModeBehind(RunsSince(trace, j, trace[j].key))
    {
      assert ModeFits(trace, j);
    }
  }
}
