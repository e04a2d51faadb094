# Oblivion dispatcher: a verified model

Oblivion sends the same Discord webhook message, over and over, to groups of
webhook URLs called shards. There are two modes. In parallel mode every
selected shard runs at once. In sequential mode one shard runs at a time: a
monitor hands off to the next shard once the active shard's summed message
count reaches `total_pings`. Each URL of a running shard has its own
delivery loop. The loop retries transport errors and rate limits, and stops
when the URL's count reaches `message_limit`.

This project models that core as Dafny, without its network, sleeps and
threads:

- `Payload` (payload.dfy): the JSON body of every request.
- `Delivery` (delivery.dfy): one delivery cycle (`_send_webhook`) and the
  per-URL loop (`_webhook_loop`). Both are spec functions over the network's
  answers, an input sequence of `Outcome = Status(code) | TransportError`.
- `Tally` (tally.dfy): per-URL counts (`message_counts.get(url, 0)`), the
  zero-filling that `_start_shard` does, and the per-shard sum the monitor
  reads.
- `Shards` (shards.dfy): the whole dispatcher state as a value `State`, each
  control operation as a pure transition on it, and the lemmas the source
  promises of them.
- `Dispatch` (dispatcher.dfy): class `Dispatcher`, whose fields are the
  source's `webhook_groups` (with its key order), `shard_status`,
  `message_counts`, `threads` and `current_switch_shard`, plus the policy
  values `maxRetries`, `messageLimit` and `totalPings`. Every method that
  changes state ensures `Snapshot() == <transition>(old(Snapshot()))`; the
  delivery methods ensure their result against `Delivery.Cycle` and
  `Delivery.LoopRun`.
- `Backoff` (backoff.dfy): the rate-limit wait, for the finding below.

The network is an input. A cycle gets one answer for each request it may
make, so `SendWebhook` requires `maxRetries` answers. A loop gets one such
round of answers per cycle. Thread handles are abstract: the handle of a
delivery loop is the URL it sends to.

Two behaviours of the code that are easy to misread:

- A 429 answer uses up one of the `max_retries` attempts, because
  `for attempt in range(self.max_retries)` advances on every pass
  (oblivion.py:687). It is not retried indefinitely.
- When every delivery loop of a shard ends at the limit, the shard's
  running flag stays `True`. Only `_stop_shard` clears it. `WebhookLoop`
  does not modify `shardStatus`, so a later parallel start of that shard is
  rejected as already running.

## Model

| member | source | states |
|---|---|---|
| Payload.Build | oblivion.py:679-683 | `content` is always the message; `username` / `avatar_url` are present exactly when that argument is a non-empty string, and then hold it; no other keys |
| Delivery.Cycle | oblivion.py:687-713 | a cycle uses at most `max_retries` requests, and a delivery or rejection uses at least one |
| Delivery.CycleDecidedAt | oblivion.py:687-706 | if the first k answers are 429 or transport errors and answer k is not, answer k decides: 204 delivers, any other status rejects, after exactly k+1 requests |
| Delivery.CycleExhausted | oblivion.py:687-713 | `max_retries` answers that are all 429 or transport errors end the cycle unsent after using all of them |
| Delivery.CycleShape | oblivion.py:687-713 | the converse: an exhausted cycle used its whole budget on retryable answers; a delivery ended on 204; a rejection ended on its own non-204, non-429 status; every earlier answer was retryable |
| Delivery.NoRetriesNoRequests | oblivion.py:687-713 | with `max_retries = 0` no request is made and the cycle fails |
| Delivery.LoopRun | oblivion.py:718-720 | the loop runs at most one cycle per round of answers |
| Delivery.LoopCountsDeliveries | oblivion.py:718-719 | the loop raises the count by exactly the number of delivered cycles it ran, so the count never decreases |
| Delivery.LoopCapped | oblivion.py:718-718 | a count starting at or below the limit never ends above it |
| Delivery.LoopStopsAtLimit | oblivion.py:718-718 | the loop leaves rounds unused only once the count has reached the limit |
| Delivery.LoopRunsOnlyBelowLimit | oblivion.py:718-719 | every cycle the loop runs starts with the count below the limit: no request is made once the limit is reached |
| Tally.WithZeros | oblivion.py:732-734 | every URL of the group gets an entry; every existing count is kept and new ones start at 0 |
| Tally.Total | oblivion.py:795-795 | the sum of a shard's counts, with missing URLs counted as 0: it is at least each of its URLs' counts, and 0 for an empty list |
| Tally.TotalFollowsCounts | oblivion.py:795-795 | the shard sum depends only on the counts of that shard's URLs |
| Tally.TotalMonotone | oblivion.py:795-795 | counts that do not decrease give a shard sum that does not decrease |
| Tally.TotalKeptByZeros | oblivion.py:732-734 | starting a shard leaves every shard sum unchanged (counts are never reset) |
| Shards.IndexOf | oblivion.py:800-800 | `list.index`: the first position holding the shard |
| Shards.Without | oblivion.py:632-632 | deleting a key removes exactly that name from the key order, and the other keys keep their order |
| Shards.WithoutDistinct | oblivion.py:632-632 | the key order stays free of duplicates after a delete |
| Shards.StartShardEffect | oblivion.py:722-741 | the shard runs, with one handle per URL of its group; other shards' status and handles, the groups and the active shard are unchanged; every URL of the group has a count; no count changes |
| Shards.StopShardEffect | oblivion.py:744-753 | the shard is not running afterwards and its handles are empty; a shard that is not running is left as it was; no other status and no count changes; stopping twice is stopping once |
| Shards.StartAllEffect | oblivion.py:771-772 | after starting a selection, each selected shard runs with its group's handles; unselected shards and all counts are unchanged |
| Shards.StopAllEffect | oblivion.py:828-829 | after stopping a selection, no selected shard runs and the running ones have no handles; unselected shards and all counts are unchanged |
| Shards.ParallelStartGuards | oblivion.py:763-772 | accepted exactly when the selection is non-empty and none of it runs; a rejection changes nothing; after acceptance every selected shard runs |
| Shards.ParallelStopGuards | oblivion.py:823-829 | accepted exactly when some selected shard runs; a rejection changes nothing; afterwards no selected shard runs and no count changed |
| Shards.SequentialStartExclusive | oblivion.py:776-785 | accepted exactly when no shard at all runs and a starting shard is chosen; a rejection changes nothing; after acceptance the chosen shard is active and is the only one running |
| Shards.SequentialStopSilences | oblivion.py:834-840 | accepted exactly when the active shard runs; a rejection changes nothing; afterwards there is no active shard, it is stopped, no count changed, and under the sequential invariant no shard runs |
| Shards.NextShardWraps | oblivion.py:800-802 | the next shard follows the active one in key order, wraps to the first after the last, and is the same shard when there is only one |
| Shards.TickBelowThreshold | oblivion.py:793-805 | a pass with the active shard's sum below `total_pings` changes nothing |
| Shards.TickSwitches | oblivion.py:795-803 | at the threshold the pass hands off to `order[(i+1) % n]`: it runs with its group's handles and is active, the old shard is stopped unless it is the same one, and no count changes |
| Shards.HandOffEffect | oblivion.py:799-803 | stopping the old shard and starting the next leaves exactly the next shard running among those that change, and keeps all counts |
| Shards.TickKeepsExclusive | oblivion.py:792-805 | every pass keeps the sequential-mode invariant: the active shard runs and no other shard does |
| Shards.SingleShardRetriggers | oblivion.py:792-805 | with a single shard, a hand-off restarts the same shard with its counts kept, so the next pass hands off again |
| Shards.AddGroupEffect | oblivion.py:588-612 | accepted exactly when the name is non-empty and not yet a group; a rejection changes nothing; the new group is stored with its URLs and the key order becomes the old order followed by the name; running state and counts are untouched |
| Shards.DeleteGroupEffect | oblivion.py:620-635 | accepted exactly when the name is non-empty and a group; a rejection changes nothing; the group leaves the groups, the key order loses just that name with the other keys kept in order, the other groups stay; running state and counts are untouched |
| Backoff.RateLimitWait | oblivion.py:700-702 | the corrected wait: the server's `retry_after` converted from milliseconds, else the backoff in seconds as configured |
| Backoff.RateLimitWaitAsWritten | oblivion.py:700-700 | line 700 as written: the server's `retry_after` in milliseconds, divided by 1000; without it, the backoff divided by 1000 as well |
| Backoff.DefaultBackoffShrunk | oblivion.py:700-700 | as written, a 429 without `retry_after` waits backoff/1000 seconds (0.06 s for the default 60 s), unlike the corrected wait |
| Backoff.ServerValueAgrees | oblivion.py:700-700 | as written and corrected agree whenever the server sends `retry_after` |
| Dispatch.Dispatcher.constructor | oblivion.py:52-59 | every loaded group starts stopped, with no counts, no handles and no active shard |
| Dispatch.Dispatcher.SendWebhook | oblivion.py:676-713 | the result and the requests used are those of `Cycle`; only a delivery changes a count, that URL's, by one |
| Dispatch.Dispatcher.WebhookLoop | oblivion.py:715-720 | on a running shard the final count and the cycles run are those of `LoopRun`; on a stopped shard nothing happens; only this URL's count can change; no running flag changes |
| Dispatch.Dispatcher.StartShard | oblivion.py:722-742 | the new state is `Shards.StartShard` of the old one |
| Dispatch.Dispatcher.StopShard | oblivion.py:744-754 | the new state is `Shards.StopShard` of the old one |
| Dispatch.Dispatcher.StartParallel | oblivion.py:763-774 | reply and new state are `Shards.StartParallel` of the old state |
| Dispatch.Dispatcher.StopParallel | oblivion.py:823-832 | reply and new state are `Shards.StopParallel` of the old state |
| Dispatch.Dispatcher.StartSequential | oblivion.py:776-788 | reply and new state are `Shards.StartSequential` of the old state |
| Dispatch.Dispatcher.StopSequential | oblivion.py:834-843 | reply and new state are `Shards.StopSequential` of the old state |
| Dispatch.Dispatcher.MonitorTick | oblivion.py:790-805 | one pass of the monitor loop: the outcome and the new state are `Shards.MonitorTick` of the old state; the key order stays well formed |
| Dispatch.Dispatcher.AddShardGroup | oblivion.py:588-612 | reply and new state are `Shards.AddGroup` of the old state; the key order stays well formed |
| Dispatch.Dispatcher.DeleteShardGroup | oblivion.py:620-635 | reply and new state are `Shards.DeleteGroup` of the old state; the key order stays well formed |

## Left out

- The tkinter interface is not modelled: windows, tabs, themes, icons, the log widget, `TextHandler`, the status label and the enabling of buttons and checkboxes. Apart from the one failure path of `_update_switch_status` described under `SendWebhook` below, this is presentation only.
- `_start_action` and `_stop_action` only pick a mode controller from the mode combo box; the controllers are modelled, the choice is not.
- Loading and saving YAML and JSON files, file dialogs, and `_save_config` are not modelled (file I/O). As a result the policy values are constants of the dispatcher.
- The group edits act on the in-memory groups. The source reloads the webhooks file first, checks against it, and then replaces `webhook_groups` with the file's contents. The model takes the file and the memory to agree. The check that the file holds a list of strings is left out as typing; the `strip()` of the name is left out as text input.
- `requests.post` and `response.json()` are not called: each request's answer is the next element of an input sequence.
- Sleep durations are left out: the inter-message delay, the rate-limit and transport backoffs, and the monitor's 5-second poll. They are floats and wall-clock time. The one numeric defect in them is under Findings.
- Threads are not modelled: their creation, `join(timeout=5)`, and any interleaving between the delivery loops, the monitor and the controls. Handles are the URLs the loops send to, and each loop and each monitor pass runs as one sequential step.
- Dispatch.Dispatcher.WebhookLoop: no other actor can stop the shard during the loop, because there is no interleaving, so the running flag is constant while it runs. The loop also ends when its input rounds run out; the source would go on looping.
- Dispatch.Dispatcher.SendWebhook: does not take the message, username and avatar. The body it would send is `Payload.Build` of them and does not affect the answers, which are an input. The `shard_name` argument is only used to decide whether to refresh the status label (`_update_switch_status`, oblivion.py:695-696). That refresh can fail. In sequential mode, after a 204 for the current shard whose group has since been deleted, line 810 raises `KeyError` once the count has been raised. `KeyError` is not a `RequestException` (line 707), so it escapes `_send_webhook` and `_webhook_loop` and ends that URL's delivery thread. The model does not capture this: it keeps delivering.
- The payload snapshot taken by `_start_shard` (message, username, avatar, delay) is not stored: it only feeds the network call.
- Dispatch.Dispatcher.StartShard: requires the shard to be a group. Given any other name, the source sets `shard_status[name] = True` and `threads[name] = []`, then raises `KeyError` (oblivion.py:724-726). The mode controllers only pass names taken from the current groups. The monitor does not: see the next line.
- Dispatch.Dispatcher.MonitorTick: models one pass of the loop. The loop itself is left out, because between passes the delivery threads run concurrently. The key order is read at each pass. The source reads it once, when the monitor thread starts (oblivion.py:792), and the two differ only if groups are edited during a sequential run. If the next group in that old list was deleted, the source's hand-off calls `_start_shard` with a name that is no longer a group. That marks the name running with no threads, raises `KeyError`, and ends the monitor thread. The model does not capture this outcome. A pass whose active shard's group was deleted raises `KeyError` in the source; it is modelled as `Fault` with no change.
- `_kill_action`, `os._exit` and the Windows `ctypes` call are process control. The Kill button is the only stop control the interface offers, so the `_stop_*` methods are modelled but no button reaches them.

## Findings

| source | as written | input that shows it | evidently intended | confidence | as-written member | corrected member |
|---|---|---|---|---|---|---|
| oblivion.py:700 | `response.json().get('retry_after', self.rate_limit_backoff) / 1000` divides the fallback by 1000 too, although `rate_limit_backoff` is in seconds: the settings label says "seconds", and line 711 sleeps it as seconds | a 429 answer without `retry_after`, with the default backoff of 60: it waits 0.06 s | wait `retry_after / 1000` seconds when the server sends it, otherwise `rate_limit_backoff` seconds | high (not executed) | Backoff.RateLimitWaitAsWritten, Backoff.DefaultBackoffShrunk | Backoff.RateLimitWait |
