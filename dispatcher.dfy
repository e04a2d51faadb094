/**
 * The dispatcher object: the state it keeps in its fields, and the methods
 * that send, loop, start and stop shards, switch modes and rotate. Each
 * state-changing method is proved to do exactly what the transition of the
 * same name in module Shards describes.
 */
module Dispatch {
  import opened Wrappers
  import opened Delivery
  import opened Tally
  import opened Shards

  class Dispatcher {
    var webhookGroups: map<string, seq<string>>
    /** The key order of `webhookGroups` (a Python dict keeps insertion order). */
    var shardOrder: seq<string>
    var shardStatus: map<string, bool>
    var messageCounts: map<string, nat>
    /** Delivery handles per shard; the handle of a delivery loop is the URL it sends to. */
    var threads: map<string, seq<string>>
    var currentSwitchShard: Option<string>
    const maxRetries: nat
    const messageLimit: nat
    const totalPings: nat

    ghost function Snapshot(): State
      reads this
    {
      State(webhookGroups, shardOrder, shardStatus, messageCounts, threads, currentSwitchShard)
    }

    ghost predicate Valid()
      reads this
    {
      WellFormed(Snapshot())
    }

    /** Every loaded group starts stopped, with no counts and no handles. */
    constructor (groups: map<string, seq<string>>, order: seq<string>, maxRetries: nat, messageLimit: nat, totalPings: nat)
      requires Distinct(order) && forall s :: s in groups <==> s in order
      ensures Valid()
      ensures Snapshot() == State(groups, order, map s | s in groups :: false, map[], map[], None)
      ensures this.maxRetries == maxRetries && this.messageLimit == messageLimit && this.totalPings == totalPings
    {
      webhookGroups := groups;
      shardOrder := order;
      shardStatus := map s | s in groups :: false;
      messageCounts := map[];
      threads := map[];
      currentSwitchShard := None;
      this.maxRetries := maxRetries;
      this.messageLimit := messageLimit;
      this.totalPings := totalPings;
    }

    /**
     * One delivery cycle to `url`; `outcomes` are the network's answers to
     * successive requests. Only a 204 changes a count, by one.
     */
    method SendWebhook(url: string, outcomes: seq<Outcome>) returns (sent: bool, used: nat)
      requires maxRetries <= |outcomes|
      modifies this`messageCounts
      ensures sent == (Cycle(outcomes, maxRetries).verdict == Delivered)
      ensures used == Cycle(outcomes, maxRetries).used
      ensures messageCounts ==
        if sent then old(messageCounts)[url := Count(old(messageCounts), url) + 1] else old(messageCounts)
    {
      var attempt := 0;
      while attempt < maxRetries
        invariant attempt <= maxRetries
        invariant messageCounts == old(messageCounts)
        invariant var rest := Cycle(outcomes[attempt..], maxRetries - attempt);
          Cycle(outcomes, maxRetries) == CycleResult(rest.verdict, rest.used + attempt)
      {
        assert outcomes[attempt..][0] == outcomes[attempt];
        assert outcomes[attempt..][1..] == outcomes[attempt + 1..];
        match outcomes[attempt] {
          case Status(code) =>
            if code == NoContent {
              messageCounts := messageCounts[url := Count(messageCounts, url) + 1];
              return true, attempt + 1;
            } else if code != TooManyRequests {
              return false, attempt + 1;
            }
            // rate limited: the wait before the next attempt is not modelled
          case TransportError =>
            // the backoff wait before the next attempt is not modelled
        }
        attempt := attempt + 1;
      }
      return false, maxRetries;
    }

    /**
     * The delivery loop of one URL of `shard`: while the shard runs and the
     * count is below the limit, run a cycle on the next round of answers.
     * It also ends when the rounds run out.
     */
    method WebhookLoop(url: string, shard: string, rounds: seq<seq<Outcome>>) returns (cycles: nat)
      requires Answered(rounds, maxRetries)
      modifies this`messageCounts
      ensures Active(shardStatus, shard) ==>
        LoopRun(Count(old(messageCounts), url), messageLimit, rounds, maxRetries) == LoopEnd(Count(messageCounts, url), cycles)
      ensures !Active(shardStatus, shard) ==> cycles == 0 && messageCounts == old(messageCounts)
      ensures messageCounts == old(messageCounts) || messageCounts == old(messageCounts)[url := Count(messageCounts, url)]
    {
      cycles := 0;
      while cycles < |rounds| && Active(shardStatus, shard) && Count(messageCounts, url) < messageLimit
        invariant cycles <= |rounds|
        invariant Active(shardStatus, shard) ==>
          var rest := LoopRun(Count(messageCounts, url), messageLimit, rounds[cycles..], maxRetries);
          LoopRun(Count(old(messageCounts), url), messageLimit, rounds, maxRetries) == LoopEnd(rest.count, rest.cycles + cycles)
        invariant !Active(shardStatus, shard) ==> cycles == 0 && messageCounts == old(messageCounts)
        invariant messageCounts == old(messageCounts) || messageCounts == old(messageCounts)[url := Count(messageCounts, url)]
      {
        assert rounds[cycles..][0] == rounds[cycles];
        assert rounds[cycles..][1..] == rounds[cycles + 1..];
        var sent, used := SendWebhook(url, rounds[cycles]);
        // the delay between cycles is not modelled
        cycles := cycles + 1;
      }
    }

    /** `_start_shard`: mark running and launch one delivery loop per URL of the group. */
    method StartShard(s: string)
      requires s in webhookGroups
      modifies this
      ensures Snapshot() == Shards.StartShard(old(Snapshot()), s)
    {
      shardStatus := shardStatus[s := true];
      threads := threads[s := []];
      var urls := webhookGroups[s];
      var i := 0;
      while i < |urls|
        invariant i <= |urls|
        invariant webhookGroups == old(webhookGroups) && shardOrder == old(shardOrder)
        invariant currentSwitchShard == old(currentSwitchShard)
        invariant shardStatus == old(shardStatus)[s := true]
        invariant threads == old(threads)[s := urls[..i]]
        invariant messageCounts == WithZeros(old(messageCounts), Urls(urls[..i]))
      {
        var url := urls[i];
        assert urls[..i + 1] == urls[..i] + [url];
        messageCounts := messageCounts[url := Count(messageCounts, url)];
        threads := threads[s := threads[s] + [url]];
        i := i + 1;
      }
      assert urls[..i] == urls;
    }

    /** `_stop_shard`: clear the running flag and drop the shard's handles. */
    method StopShard(s: string)
      modifies this
      ensures Snapshot() == Shards.StopShard(old(Snapshot()), s)
    {
      if !Active(shardStatus, s) {
        return;
      }
      shardStatus := shardStatus[s := false];
      // joining the delivery threads, five seconds at most each, is not modelled
      threads := threads[s := []];
    }

    method StartParallel(selected: seq<string>) returns (reply: Reply)
      requires forall s :: s in selected ==> s in webhookGroups
      modifies this
      ensures (Snapshot(), reply) == Shards.StartParallel(old(Snapshot()), selected)
    {
      if selected == [] {
        return NoShardSelected;
      }
      if exists s :: s in selected && Active(shardStatus, s) {
        return AlreadyRunning;
      }
      var i := 0;
      while i < |selected|
        invariant i <= |selected|
        invariant Snapshot() == StartAll(old(Snapshot()), selected[..i])
      {
        assert selected[..i + 1][..i] == selected[..i];
        StartShard(selected[i]);
        i := i + 1;
      }
      assert selected[..i] == selected;
      reply := Accepted;
    }

    method StopParallel(selected: seq<string>) returns (reply: Reply)
      modifies this
      ensures (Snapshot(), reply) == Shards.StopParallel(old(Snapshot()), selected)
    {
      if !exists s :: s in selected && Active(shardStatus, s) {
        return NothingRunning;
      }
      var i := 0;
      while i < |selected|
        invariant i <= |selected|
        invariant Snapshot() == StopAll(old(Snapshot()), selected[..i])
      {
        assert selected[..i + 1][..i] == selected[..i];
        StopShard(selected[i]);
        i := i + 1;
      }
      assert selected[..i] == selected;
      reply := Accepted;
    }

    method StartSequential(first: string) returns (reply: Reply)
      requires first == "" || first in webhookGroups
      modifies this
      ensures (Snapshot(), reply) == Shards.StartSequential(old(Snapshot()), first)
    {
      if AnyActive(shardStatus) {
        return AlreadyRunning;
      }
      if first == "" {
        return NoShardSelected;
      }
      currentSwitchShard := Some(first);
      StartShard(first);
      // the monitor thread starts here; each of its passes is MonitorTick
      reply := Accepted;
    }

    method StopSequential() returns (reply: Reply)
      modifies this
      ensures (Snapshot(), reply) == Shards.StopSequential(old(Snapshot()))
    {
      if currentSwitchShard.None? || !Active(shardStatus, currentSwitchShard.value) {
        return NothingRunning;
      }
      StopShard(currentSwitchShard.value);
      currentSwitchShard := None;
      reply := Accepted;
    }

    /** One pass of the rotation monitor's loop (its five-second sleep is not modelled). */
    method MonitorTick() returns (tick: Tick)
      requires Valid()
      modifies this
      ensures Valid()
      ensures (Snapshot(), tick) == Shards.MonitorTick(old(Snapshot()), totalPings)
    {
      if currentSwitchShard.None? || !Active(shardStatus, currentSwitchShard.value) {
        return Exited;
      }
      var s := currentSwitchShard.value;
      if s !in webhookGroups {
        return Fault;
      }
      if Total(messageCounts, webhookGroups[s]) < totalPings {
        return Waiting;
      }
      StopShard(s);
      var next := NextShard(shardOrder, s);
      NextShardWraps(shardOrder, s);
      currentSwitchShard := Some(next);
      StartShard(next);
      tick := Switched(next);
    }

    method AddShardGroup(name: string, urls: seq<string>) returns (reply: Reply)
      requires Valid()
      modifies this
      ensures Valid()
      ensures (Snapshot(), reply) == AddGroup(old(Snapshot()), name, urls)
    {
      AddGroupEffect(Snapshot(), name, urls);
      if name == "" {
        return EmptyName;
      }
      if name in webhookGroups {
        return DuplicateGroup;
      }
      webhookGroups := webhookGroups[name := urls];
      shardOrder := shardOrder + [name];
      reply := Accepted;
    }

    method DeleteShardGroup(name: string) returns (reply: Reply)
      requires Valid()
      modifies this
      ensures Valid()
      ensures (Snapshot(), reply) == DeleteGroup(old(Snapshot()), name)
    {
      DeleteGroupEffect(Snapshot(), name);
      if name == "" {
        return EmptyName;
      }
      if name !in webhookGroups {
        return MissingGroup;
      }
      webhookGroups := webhookGroups - {name};
      shardOrder := Without(shardOrder, name);
      reply := Accepted;
    }
  }
}
