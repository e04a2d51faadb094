/**
 * The dispatcher's state as a value, and each control operation as a pure
 * transition on it. The class in module Dispatch is proved to follow these.
 */
module Shards {
  import opened Wrappers
  import opened Tally

  /** What a control operation answers; everything but Accepted is a rejection dialog. */
  datatype Reply =
    | Accepted
    | NoShardSelected
    | AlreadyRunning
    | NothingRunning
    | EmptyName
    | DuplicateGroup
    | MissingGroup

  /** How one pass of the rotation monitor ends. */
  datatype Tick =
    | Exited              // the active shard is not running: the monitor loop ends
    | Waiting             // below the threshold: nothing happens this pass
    | Switched(next: string)
    | Fault               // the active shard's group was deleted: the lookup raises

  /**
   * groups/order: the webhook groups and their key order; status: running
   * flag per shard; counts: messages per webhook URL; threads: the delivery
   * handles of each shard (one per URL); current: the active shard of the
   * sequential mode.
   */
  datatype State = State(
    groups: map<string, seq<string>>,
    order: seq<string>,
    status: map<string, bool>,
    counts: map<string, nat>,
    threads: map<string, seq<string>>,
    current: Option<string>)

  /** `shard_status.get(s, False)`. */
  predicate Active(status: map<string, bool>, s: string) {
    s in status && status[s]
  }

  predicate Distinct(order: seq<string>) {
    forall i, j | 0 <= i < j < |order| :: order[i] != order[j]
  }

  /** The key order lists every group exactly once. */
  ghost predicate WellFormed(st: State) {
    Distinct(st.order) && forall s :: s in st.groups <==> s in st.order
  }

  /** Sequential-mode invariant: the active shard runs and no other shard does. */
  ghost predicate Exclusive(st: State) {
    && st.current.Some?
    && Active(st.status, st.current.value)
    && forall s :: Active(st.status, s) ==> s == st.current.value
  }

  /** `list.index`: the first position of `s`. */
  function IndexOf(order: seq<string>, s: string): (i: nat)
    requires s in order
    ensures i < |order| && order[i] == s
    ensures forall j | 0 <= j < i :: order[j] != s
  {
    if order[0] == s then 0 else 1 + IndexOf(order[1..], s)
  }

  /** The order with `s` removed (what deleting a key does to a dict's key order). */
  function Without(order: seq<string>, s: string): (r: seq<string>)
    ensures forall x :: x in r <==> x in order && x != s
    ensures s !in order ==> r == order
    ensures Distinct(order) && s in order ==>
      r == order[..IndexOf(order, s)] + order[IndexOf(order, s) + 1..]
  {
    if order == [] then []
    else if order[0] == s then Without(order[1..], s)
    else [order[0]] + Without(order[1..], s)
  }

  lemma {:induction false} WithoutDistinct(order: seq<string>, s: string)
    requires Distinct(order)
    ensures Distinct(Without(order, s))
  {
    if order != [] {
      WithoutDistinct(order[1..], s);
      var rest := Without(order[1..], s);
      assert order[0] !in order[1..] by {
        forall j | 0 <= j < |order[1..]| ensures order[1..][j] != order[0] {
          assert order[1..][j] == order[j + 1];
        }
      }
    }
  }

  // ----- shard lifecycle -----

  /**
   * `_start_shard`: running, one delivery handle per URL of the group, and
   * every URL of the group has a count (existing ones kept).
   */
  function StartShard(st: State, s: string): State
    requires s in st.groups
  {
    st.(status := st.status[s := true],
        threads := st.threads[s := st.groups[s]],
        counts := WithZeros(st.counts, Urls(st.groups[s])))
  }

  /** `_stop_shard`: a shard that is not running is left alone; otherwise stopped and its handles dropped. */
  function StopShard(st: State, s: string): State {
    if !Active(st.status, s) then st
    else st.(status := st.status[s := false], threads := st.threads[s := []])
  }

  lemma StartShardEffect(st: State, s: string)
    requires s in st.groups
    ensures var st' := StartShard(st, s);
      && Active(st'.status, s)
      && st'.threads[s] == st.groups[s]
      && (forall t :: t != s ==> Active(st'.status, t) == Active(st.status, t))
      && (forall t :: t != s && t in st.threads ==> t in st'.threads && st'.threads[t] == st.threads[t])
      && (forall u :: u in st.groups[s] ==> u in st'.counts)
      && (forall u :: Count(st'.counts, u) == Count(st.counts, u))
      && (st'.groups, st'.order, st'.current) == (st.groups, st.order, st.current)
  {
  }

  lemma StopShardEffect(st: State, s: string)
    ensures var st' := StopShard(st, s);
      && !Active(st'.status, s)
      && (Active(st.status, s) ==> st'.threads[s] == [])
      && (!Active(st.status, s) ==> st' == st)
      && (forall t :: t != s ==> Active(st'.status, t) == Active(st.status, t))
      && st'.counts == st.counts
      && StopShard(st', s) == st'
  {
  }

  // ----- parallel mode -----

  /** Starts the shards of `sel` in order. */
  function StartAll(st: State, sel: seq<string>): (r: State)
    requires forall s :: s in sel ==> s in st.groups
    ensures (r.groups, r.order, r.current) == (st.groups, st.order, st.current)
  {
    if sel == [] then st
    else StartShard(StartAll(st, sel[..|sel| - 1]), sel[|sel| - 1])
  }

  /** Stops the shards of `sel` in order. */
  function StopAll(st: State, sel: seq<string>): (r: State)
    ensures (r.groups, r.order, r.current) == (st.groups, st.order, st.current)
  {
    if sel == [] then st
    else StopShard(StopAll(st, sel[..|sel| - 1]), sel[|sel| - 1])
  }

  lemma {:induction false} StartAllEffect(st: State, sel: seq<string>)
    requires forall s :: s in sel ==> s in st.groups
    ensures var st' := StartAll(st, sel);
      && (forall s :: s in sel ==> Active(st'.status, s) && s in st'.threads && st'.threads[s] == st.groups[s])
      && (forall t :: t !in sel ==> Active(st'.status, t) == Active(st.status, t))
      && (forall t :: t !in sel && t in st.threads ==> t in st'.threads && st'.threads[t] == st.threads[t])
      && (forall u :: Count(st'.counts, u) == Count(st.counts, u))
  {
    if sel != [] {
      var init := sel[..|sel| - 1];
      var last := sel[|sel| - 1];
      assert forall s :: s in init ==> s in sel;
      StartAllEffect(st, init);
      assert forall s :: s in sel ==> s in init || s == last;
    }
  }

  lemma {:induction false} StopAllEffect(st: State, sel: seq<string>)
    ensures var st' := StopAll(st, sel);
      && (forall s :: s in sel ==> !Active(st'.status, s))
      && (forall s :: s in sel && Active(st.status, s) ==> s in st'.threads && st'.threads[s] == [])
      && (forall t :: t !in sel ==> Active(st'.status, t) == Active(st.status, t))
      && (forall t :: t !in sel && t in st.threads ==> t in st'.threads && st'.threads[t] == st.threads[t])
      && st'.counts == st.counts
  {
    if sel != [] {
      var init := sel[..|sel| - 1];
      var last := sel[|sel| - 1];
      StopAllEffect(st, init);
      assert forall s :: s in sel ==> s in init || s == last;
      assert forall s :: s in init ==> s in sel;
    }
  }

  /** `_start_parallel_mode`: rejects an empty selection or one with a running shard. */
  function StartParallel(st: State, sel: seq<string>): (State, Reply)
    requires forall s :: s in sel ==> s in st.groups
  {
    if sel == [] then (st, NoShardSelected)
    else if exists s :: s in sel && Active(st.status, s) then (st, AlreadyRunning)
    else (StartAll(st, sel), Accepted)
  }

  /** `_stop_parallel_mode`: rejects a selection with no running shard. */
  function StopParallel(st: State, sel: seq<string>): (State, Reply) {
    if !exists s :: s in sel && Active(st.status, s) then (st, NothingRunning)
    else (StopAll(st, sel), Accepted)
  }

  lemma ParallelStartGuards(st: State, sel: seq<string>)
    requires forall s :: s in sel ==> s in st.groups
    ensures var (st', reply) := StartParallel(st, sel);
      && (reply == Accepted <==> sel != [] && forall s :: s in sel ==> !Active(st.status, s))
      && (reply != Accepted ==> st' == st)
      && (reply == Accepted ==> forall s :: s in sel ==> Active(st'.status, s))
  {
    if StartParallel(st, sel).1 == Accepted {
      StartAllEffect(st, sel);
    }
  }

  lemma ParallelStopGuards(st: State, sel: seq<string>)
    ensures var (st', reply) := StopParallel(st, sel);
      && (reply == Accepted <==> exists s :: s in sel && Active(st.status, s))
      && (reply != Accepted ==> st' == st)
      && (reply == Accepted ==> (forall s :: s in sel ==> !Active(st'.status, s)) && st'.counts == st.counts)
  {
    if StopParallel(st, sel).1 == Accepted {
      StopAllEffect(st, sel);
    }
  }

  // ----- sequential mode -----

  /** `any(self.shard_status.values())`. */
  predicate AnyActive(status: map<string, bool>) {
    exists s :: s in status && status[s]
  }

  /**
   * `_start_sequential_mode`: rejects while any shard runs, or when no
   * starting shard is chosen; otherwise makes `first` the active shard and starts it.
   */
  function StartSequential(st: State, first: string): (State, Reply)
    requires first == "" || first in st.groups
  {
    if AnyActive(st.status) then (st, AlreadyRunning)
    else if first == "" then (st, NoShardSelected)
    else (StartShard(st.(current := Some(first)), first), Accepted)
  }

  /** `_stop_sequential_mode`: rejects when the active shard is not running. */
  function StopSequential(st: State): (State, Reply) {
    if st.current.None? || !Active(st.status, st.current.value) then (st, NothingRunning)
    else (StopShard(st, st.current.value).(current := None), Accepted)
  }

  lemma SequentialStartExclusive(st: State, first: string)
    requires first == "" || first in st.groups
    ensures var (st', reply) := StartSequential(st, first);
      && (reply == Accepted <==> first != "" && forall s :: !Active(st.status, s))
      && (reply != Accepted ==> st' == st)
      && (reply == Accepted ==> st'.current == Some(first) && Exclusive(st'))
  {
    if AnyActive(st.status) {
      var s :| s in st.status && st.status[s];
      assert Active(st.status, s);
    } else {
      assert forall s :: !Active(st.status, s);
      if first != "" {
        StartShardEffect(st.(current := Some(first)), first);
      }
    }
  }

  lemma SequentialStopSilences(st: State)
    ensures var (st', reply) := StopSequential(st);
      && (reply == Accepted <==> st.current.Some? && Active(st.status, st.current.value))
      && (reply != Accepted ==> st' == st)
      && (reply == Accepted ==> st'.current == None && !Active(st'.status, st.current.value) && st'.counts == st.counts)
      && (reply == Accepted && Exclusive(st) ==> forall s :: !Active(st'.status, s))
  {
    if st.current.Some? {
      StopShardEffect(st, st.current.value);
    }
  }

  // ----- rotation monitor -----

  /** The shard after `s` in the key order, wrapping to the first after the last. */
  function NextShard(order: seq<string>, s: string): string
    requires s in order
  {
    order[(IndexOf(order, s) + 1) % |order|]
  }

  /**
   * One pass of `_monitor_sequential_mode`: while the active shard runs, once
   * the sum of its counts reaches `totalPings`, stop it, make the next shard
   * active and start that one.
   */
  function MonitorTick(st: State, totalPings: nat): (State, Tick)
    requires WellFormed(st)
  {
    if st.current.None? || !Active(st.status, st.current.value) then (st, Exited)
    else
      var s := st.current.value;
      if s !in st.groups then (st, Fault)
      else if Total(st.counts, st.groups[s]) < totalPings then (st, Waiting)
      else
        var next := NextShard(st.order, s);
        (StartShard(StopShard(st, s).(current := Some(next)), next), Switched(next))
  }

  lemma TickBelowThreshold(st: State, totalPings: nat)
    requires WellFormed(st)
    requires st.current.Some? && st.current.value in st.groups
    requires Total(st.counts, st.groups[st.current.value]) < totalPings
    ensures MonitorTick(st, totalPings).0 == st
  {
  }

  /** The next shard follows `s` in key order, wraps after the last, and is `s` itself when it is alone. */
  lemma NextShardWraps(order: seq<string>, s: string)
    requires s in order
    ensures var i := IndexOf(order, s);
      && NextShard(order, s) in order
      && (i < |order| - 1 ==> NextShard(order, s) == order[i + 1])
      && (i == |order| - 1 ==> NextShard(order, s) == order[0])
      && (|order| == 1 ==> NextShard(order, s) == s)
  {
    SuccessorMod(IndexOf(order, s), |order|);
  }

  /** Python's `(i + 1) % n` for an index `i` of a list of length `n`. */
  lemma SuccessorMod(i: nat, n: nat)
    requires i < n
    ensures (i + 1) % n == if i + 1 < n then i + 1 else 0
  {
    if i + 1 == n {
      assert (i + 1) % n == n % n == 0;
    }
  }

  /**
   * At the threshold the monitor hands off to the next shard in key order:
   * it is running and active, the old one is stopped unless it is the same
   * shard, and no count changes.
   */
  lemma TickSwitches(st: State, totalPings: nat)
    requires WellFormed(st)
    requires st.current.Some? && Active(st.status, st.current.value) && st.current.value in st.groups
    requires Total(st.counts, st.groups[st.current.value]) >= totalPings
    ensures var s := st.current.value;
      var r := MonitorTick(st, totalPings);
      && r.1 == Switched(NextShard(st.order, s))
      && r.0.current == Some(r.1.next)
      && Active(r.0.status, r.1.next)
      && r.1.next in r.0.threads && r.0.threads[r.1.next] == st.groups[r.1.next]
      && (r.1.next != s ==> !Active(r.0.status, s))
      && (forall u :: Count(r.0.counts, u) == Count(st.counts, u))
  {
    var s := st.current.value;
    NextShardWraps(st.order, s);
    HandOffEffect(st, s, NextShard(st.order, s));
  }

  /** Stopping `s` and starting `next` (a group) as the monitor does. */
  lemma HandOffEffect(st: State, s: string, next: string)
    requires next in st.groups
    ensures var st' := StartShard(StopShard(st, s).(current := Some(next)), next);
      && st'.current == Some(next)
      && Active(st'.status, next)
      && (forall t :: t != next ==> Active(st'.status, t) == (t != s && Active(st.status, t)))
      && (forall u :: Count(st'.counts, u) == Count(st.counts, u))
      && (st'.groups, st'.order) == (st.groups, st.order)
  {
    StopShardEffect(st, s);
    StartShardEffect(StopShard(st, s).(current := Some(next)), next);
  }

  /** Every pass keeps the sequential-mode invariant. */
  lemma TickKeepsExclusive(st: State, totalPings: nat)
    requires WellFormed(st) && Exclusive(st)
    ensures Exclusive(MonitorTick(st, totalPings).0)
  {
    var s := st.current.value;
    if s in st.groups && Total(st.counts, st.groups[s]) >= totalPings {
      HandOffEffect(st, s, NextShard(st.order, s));
    }
  }

  /**
   * With one shard, a hand-off restarts the same shard with its counts kept,
   * so the very next pass hands off again.
   */
  lemma SingleShardRetriggers(st: State, totalPings: nat)
    requires WellFormed(st) && |st.order| == 1
    requires MonitorTick(st, totalPings).1.Switched?
    ensures MonitorTick(MonitorTick(st, totalPings).0, totalPings).1 == MonitorTick(st, totalPings).1
  {
    var s := st.current.value;
    var st' := MonitorTick(st, totalPings).0;
    assert st.order[0] == s;
    TotalFollowsCounts(st'.counts, st.counts, st.groups[s]);
  }

  // ----- group edits -----

  /** `_add_shard_group` on the in-memory groups: rejects an empty or existing name. */
  function AddGroup(st: State, name: string, urls: seq<string>): (State, Reply) {
    if name == "" then (st, EmptyName)
    else if name in st.groups then (st, DuplicateGroup)
    else (st.(groups := st.groups[name := urls], order := st.order + [name]), Accepted)
  }

  /** `_delete_shard_group` on the in-memory groups: rejects an empty or missing name. */
  function DeleteGroup(st: State, name: string): (State, Reply) {
    if name == "" then (st, EmptyName)
    else if name !in st.groups then (st, MissingGroup)
    else (st.(groups := st.groups - {name}, order := Without(st.order, name)), Accepted)
  }

  lemma AddGroupEffect(st: State, name: string, urls: seq<string>)
    requires WellFormed(st)
    ensures var (st', reply) := AddGroup(st, name, urls);
      && WellFormed(st')
      && (reply == Accepted <==> name != "" && name !in st.groups)
      && (reply != Accepted ==> st' == st)
      && (reply == Accepted ==> st'.groups == st.groups[name := urls] && st'.order == st.order + [name])
      && (st'.status, st'.counts, st'.threads, st'.current) == (st.status, st.counts, st.threads, st.current)
  {
    var (st', reply) := AddGroup(st, name, urls);
    if reply == Accepted {
      assert forall i | 0 <= i < |st.order| :: st'.order[i] == st.order[i];
    }
  }

  lemma DeleteGroupEffect(st: State, name: string)
    requires WellFormed(st)
    ensures var (st', reply) := DeleteGroup(st, name);
      && WellFormed(st')
      && (reply == Accepted <==> name != "" && name in st.groups)
      && (reply != Accepted ==> st' == st)
      && (reply == Accepted ==>
            && name !in st'.groups && name !in st'.order
            && st'.order == Without(st.order, name)
            && forall g :: g in st.groups && g != name ==> g in st'.groups && st'.groups[g] == st.groups[g])
      && (st'.status, st'.counts, st'.threads, st'.current) == (st.status, st.counts, st.threads, st.current)
  {
    WithoutDistinct(st.order, name);
  }
}
