/** Per-webhook message counts and the per-shard sum the rotation monitor reads. */
module Tally {

  /** The count of a webhook, 0 when it has none yet (`message_counts.get(url, 0)`). */
  function Count(counts: map<string, nat>, url: string): nat {
    if url in counts then counts[url] else 0
  }

  /** The URLs of a target list, as a set. */
  function Urls(urls: seq<string>): set<string> {
    set u | u in urls
  }

  /**
   * Gives every URL of `urls` an entry, keeping any existing count and
   * starting a new one at 0: no count is ever reset.
   */
  function WithZeros(counts: map<string, nat>, urls: set<string>): (r: map<string, nat>)
    ensures r.Keys == counts.Keys + urls
    ensures forall u :: Count(r, u) == Count(counts, u)
  {
    map u | u in counts.Keys + urls :: Count(counts, u)
  }

  /** The total number of messages sent to a target list. */
  function Total(counts: map<string, nat>, urls: seq<string>): (sum: nat)
    ensures forall i | 0 <= i < |urls| :: Count(counts, urls[i]) <= sum
    ensures urls == [] ==> sum == 0
  {
    if urls == [] then 0 else Count(counts, urls[0]) + Total(counts, urls[1..])
  }

  /** Two count maps that agree on a target list have the same total on it. */
  lemma {:induction false} TotalFollowsCounts(c1: map<string, nat>, c2: map<string, nat>, urls: seq<string>)
    requires forall i | 0 <= i < |urls| :: Count(c1, urls[i]) == Count(c2, urls[i])
    ensures Total(c1, urls) == Total(c2, urls)
  {
    if urls != [] {
      TotalFollowsCounts(c1, c2, urls[1..]);
    }
  }

  /** Counts that never decrease give a total that never decreases. */
  lemma {:induction false} TotalMonotone(c1: map<string, nat>, c2: map<string, nat>, urls: seq<string>)
    requires forall i | 0 <= i < |urls| :: Count(c1, urls[i]) <= Count(c2, urls[i])
    ensures Total(c1, urls) <= Total(c2, urls)
  {
    if urls != [] {
      TotalMonotone(c1, c2, urls[1..]);
    }
  }

  /** Giving URLs a starting entry leaves every total as it was. */
  lemma TotalKeptByZeros(counts: map<string, nat>, added: set<string>, urls: seq<string>)
    ensures Total(WithZeros(counts, added), urls) == Total(counts, urls)
  {
    TotalFollowsCounts(WithZeros(counts, added), counts, urls);
  }
}
