/**
 * `CheckFileSizeConcurrent` of app.go, run sequentially: one result slot per
 * URL, filled from that URL's probe outcome, a progress percentage published
 * after each slot, then the slots ranked in place by parsed size, largest
 * first.
 */
module Checker {
  import opened Wrappers
  import opened SizeCodec
  import opened Probe

  /** One row of the result: the URL and its rendered size or the failure label. */
  datatype Record = Record(url: string, size: SizeText)

  /** Why a run returns no results. */
  datatype RunError =
    | Canceled      // the run's context was cancelled before every URL was dispatched
    | ExportFailed  // writing the spreadsheet failed

  /** The ranking key: the parsed size of a record. */
  function Key(r: Record): int {
    Parse(r.size)
  }

  /** The slot a task fills for URL `url` whose probe produced `e`. */
  function SlotFor(url: string, e: Exchange): (r: Record)
    ensures r.url == url
    ensures r.size.Sentinel? <==> Classify(e).Err?
    ensures Classify(e).Ok? ==> r.size == Format(Classify(e).value)
    ensures r.size.Sentinel? ==> Key(r) == -1
    ensures !r.size.Sentinel? ==> Key(r) >= 1
  {
    match Classify(e)
    case Err(_) => Record(url, Sentinel)
    case Ok(n) =>
      ParseFormatPositive(n);
      Record(url, Format(n))
  }

  /** The whole slot array once every task has run: slot `i` belongs to `urls[i]`. */
  function Slots(urls: seq<string>, exchanges: seq<Exchange>): seq<Record>
    requires |exchanges| == |urls|
  {
    seq(|urls|, i requires 0 <= i < |urls| => SlotFor(urls[i], exchanges[i]))
  }

  /**
   * The progress a task publishes when it finishes slot `index` of `total`.
   * It is computed from the task's own index, not from a count of finished
   * tasks.
   */
  function Progress(index: int, total: int): (p: int)
    requires 0 <= index < total
    ensures 0 <= p <= 100
    ensures p == 100 <==> index == total - 1
    ensures p == 0 <==> 100 * (index + 1) < total
  {
    PercentOf(100 * (index + 1), total);
    (index + 1) * 100 / total
  }

  /** Integer percentage arithmetic: `x / d` for `0 <= x <= 100 * d`. */
  lemma PercentOf(x: int, d: int)
    requires 0 <= x <= 100 * d && d > 0
    ensures 0 <= x / d <= 100
    ensures x / d == 100 <==> x == 100 * d
    ensures x / d == 0 <==> x < d
  {
  }

  /** Non-increasing by parsed size: the order `sort.Slice` is asked for. */
  ghost predicate SortedDesc(s: seq<Record>) {
    forall i, j :: 0 <= i < j < |s| ==> Key(s[i]) >= Key(s[j])
  }

  /** No failure record comes before a successful one. */
  ghost predicate FailuresLast(s: seq<Record>) {
    forall i, j :: 0 <= i < j < |s| && s[i].size.Sentinel? ==> s[j].size.Sentinel?
  }

  /**
   * Once the slots of a run are ranked, every failure record follows every
   * successful one: successes parse to at least 1 and failures to -1.
   */
  lemma RankedFailuresLast(ranked: seq<Record>, urls: seq<string>, exchanges: seq<Exchange>)
    requires |exchanges| == |urls|
    requires multiset(ranked) == multiset(Slots(urls, exchanges))
    requires SortedDesc(ranked)
    ensures FailuresLast(ranked)
  {
    var slots := Slots(urls, exchanges);
    forall k | 0 <= k < |ranked|
      ensures ranked[k].size.Sentinel? <==> Key(ranked[k]) < 0
    {
      assert ranked[k] in multiset(slots);
      var m :| 0 <= m < |slots| && slots[m] == ranked[k];
      assert ranked[k] == SlotFor(urls[m], exchanges[m]);
    }
  }

  /** The position of a largest key in `a[from..]`. */
  method IndexOfLargest(a: array<Record>, from: nat) returns (best: nat)
    requires from < a.Length
    ensures from <= best < a.Length
    ensures forall m :: from <= m < a.Length ==> Key(a[best]) >= Key(a[m])
  {
    best := from;
    var j := from + 1;
    while j < a.Length
      invariant from <= best < j <= a.Length
      invariant forall m :: from <= m < j ==> Key(a[best]) >= Key(a[m])
    {
      if Key(a[j]) > Key(a[best]) {
        best := j;
      }
      j := j + 1;
    }
  }

  /** Exchanges two slots, leaving the others and the multiset of records as they were. */
  method Swap(a: array<Record>, i: nat, j: nat)
    requires i < a.Length && j < a.Length
    modifies a
    ensures a[i] == old(a[j]) && a[j] == old(a[i])
    ensures forall m :: 0 <= m < a.Length && m != i && m != j ==> a[m] == old(a[m])
    ensures multiset(a[..]) == old(multiset(a[..]))
  {
    a[i], a[j] := a[j], a[i];
  }

  /**
   * The ranking step: rearranges `a` in place into non-increasing order of
   * parsed size. Ties keep no particular order.
   */
  method RankBySize(a: array<Record>)
    modifies a
    ensures multiset(a[..]) == old(multiset(a[..]))
    ensures SortedDesc(a[..])
  {
    var i := 0;
    while i < a.Length
      invariant 0 <= i <= a.Length
      invariant multiset(a[..]) == old(multiset(a[..]))
      invariant forall k, m :: 0 <= k < m < i ==> Key(a[k]) >= Key(a[m])
      invariant forall k, m :: 0 <= k < i <= m < a.Length ==> Key(a[k]) >= Key(a[m])
    {
      var best := IndexOfLargest(a, i);
      Swap(a, i, best);
      i := i + 1;
    }
  }

  /** The application object; the only state the core changes is `progress`. */
  class App {
    var progress: int

    /**
     * CheckFileSizeConcurrent, one URL after another. `exchanges[i]` is what
     * the probe of `urls[i]` produced; `cancelAt`, when present, is the index
     * before whose dispatch the run's context is found cancelled; `exportOk`
     * is whether writing the spreadsheet succeeded. `unranked` is the slot
     * array as it stands before the sort.
     */
    method CheckFileSizeConcurrent(urls: seq<string>, exchanges: seq<Exchange>, cancelAt: Option<nat>, exportOk: bool)
      returns (r: Result<array<Record>, RunError>, ghost unranked: seq<Record>)
      requires |exchanges| == |urls|
      modifies this
      ensures cancelAt.Some? && cancelAt.value < |urls| ==>
                && r == Err(Canceled)
                && progress == if cancelAt.value == 0 then old(progress) else Progress(cancelAt.value - 1, |urls|)
      ensures !(cancelAt.Some? && cancelAt.value < |urls|) ==>
                && unranked == Slots(urls, exchanges)
                && progress == (if |urls| == 0 then old(progress) else 100)
                && (exportOk ==> r.Ok? && fresh(r.value) && r.value.Length == |urls|
                                 && multiset(r.value[..]) == multiset(unranked)
                                 && SortedDesc(r.value[..])
                                 && FailuresLast(r.value[..]))
                && (!exportOk ==> r == Err(ExportFailed))
    {
      var n := |urls|;
      var results := new Record[n](_ => Record("", Unscannable));
      var i := 0;
      while i < n
        invariant 0 <= i <= n
        invariant cancelAt.Some? ==> cancelAt.value >= i
        invariant forall k :: 0 <= k < i ==> results[k] == SlotFor(urls[k], exchanges[k])
        invariant progress == if i == 0 then old(progress) else Progress(i - 1, n)
      {
        if cancelAt == Some(i) {
          return Err(Canceled), [];
        }
        var outcome := Classify(exchanges[i]);
        if outcome.Err? {
          results[i] := Record(urls[i], Sentinel);
        } else {
          results[i] := Record(urls[i], Format(outcome.value));
        }
        progress := Progress(i, n);
        i := i + 1;
      }
      unranked := results[..];
      assert unranked == Slots(urls, exchanges);
      RankBySize(results);
      RankedFailuresLast(results[..], urls, exchanges);
      if !exportOk {
        return Err(ExportFailed), unranked;
      }
      r := Ok(results);
    }
  }
}
