/** The batch executor of scraper/adapters/indeed/scraping.py
    (`scrape_jobs_batch`) and of its copy in scraper/adapters/indeed.py, over
    any kind of page `P` and record `J`: which tabs are opened, navigated, read
    and closed, in which slices, and which records come out. */
module Batching {
  import opened Outcomes
  import opened Selectors

  /** What happens to the tab of job_urls[i], in call order: `new_page`
      succeeded, `goto` was attempted, the tab was scrolled, the tab was closed. */
  datatype TabEvent = Open(item: nat) | Load(item: nat) | Scroll(item: nat) | Close(item: nat)

  /** How the browser answers for the URL at each position of job_urls: whether
      `new_page` succeeds, whether `goto` and the settle wait succeed, and the
      page the tab shows when it is read. */
  datatype Tabs<P> = Tabs(opens: nat -> bool, loads: nat -> bool, pageAt: nat -> P)

  /** What the executor reads off a tab: the bot check and the record extractor. */
  datatype Reader<!P, J> = Reader(bot: P -> bool, extract: (P, string) -> Option<J>)

  function Min(a: nat, b: nat): nat {
    if a < b then a else b
  }

  /** The positions in [s, e) whose tab opened, in order. */
  function Opened<P>(tabs: Tabs<P>, s: nat, e: nat): seq<nat>
    decreases e
  {
    if e <= s then [] else Opened(tabs, s, e - 1) + (if tabs.opens(e - 1) then [e - 1] else [])
  }

  /** Only positions of [s, e) whose tab opened are listed, each once, in
      increasing order. */
  lemma {:induction false} OpenedShape<P>(tabs: Tabs<P>, s: nat, e: nat)
    ensures var r := Opened(tabs, s, e);
      (forall k :: 0 <= k < |r| ==> s <= r[k] < e && tabs.opens(r[k])) &&
      (forall k, l :: 0 <= k < l < |r| ==> r[k] < r[l]) &&
      (s <= e ==> |r| <= e - s)
    decreases e
  {
    if s < e {
      OpenedShape(tabs, s, e - 1);
      var r0 := Opened(tabs, s, e - 1);
      if tabs.opens(e - 1) {
        var r := r0 + [e - 1];
        assert forall k :: 0 <= k < |r| ==> r[k] == if k < |r0| then r0[k] else e - 1;
      } else {
        assert Opened(tabs, s, e) == r0;
      }
    }
  }

  /** Every position in [s, e) whose tab opened is listed. */
  lemma {:induction false} OpenedComplete<P>(tabs: Tabs<P>, s: nat, e: nat, i: nat)
    requires s <= i < e && tabs.opens(i)
    ensures i in Opened(tabs, s, e)
    decreases e
  {
    if i < e - 1 {
      OpenedComplete(tabs, s, e - 1, i);
    }
  }

  function OpenEvents(idx: seq<nat>): seq<TabEvent>
    decreases |idx|
  {
    if idx == [] then [] else OpenEvents(idx[..|idx| - 1]) + [Open(idx[|idx| - 1])]
  }

  /** The navigation pass: every opened tab gets `goto`; the modular executor
      then scrolls each tab that loaded. */
  function TabLoads<P>(v: Variant, tabs: Tabs<P>, i: nat): seq<TabEvent> {
    if ScrollsInBatch(v) && tabs.loads(i) then [Load(i), Scroll(i)] else [Load(i)]
  }

  function LoadEvents<P>(v: Variant, tabs: Tabs<P>, idx: seq<nat>): seq<TabEvent>
    decreases |idx|
  {
    if idx == [] then [] else LoadEvents(v, tabs, idx[..|idx| - 1]) + TabLoads(v, tabs, idx[|idx| - 1])
  }

  /** The closes of the read pass: a bot-flagged tab is closed in its branch and
      again in `finally`. */
  function TabCloses<P, J>(rd: Reader<P, J>, tabs: Tabs<P>, i: nat): seq<TabEvent> {
    if rd.bot(tabs.pageAt(i)) then [Close(i), Close(i)] else [Close(i)]
  }

  function CloseEvents<P, J>(rd: Reader<P, J>, tabs: Tabs<P>, idx: seq<nat>): seq<TabEvent>
    decreases |idx|
  {
    if idx == [] then []
    else CloseEvents(rd, tabs, idx[..|idx| - 1]) + TabCloses(rd, tabs, idx[|idx| - 1])
  }

  /** What one opened tab contributes: nothing when flagged as a bot page or
      when extraction gives None, else its record. */
  function TabJob<P, J>(rd: Reader<P, J>, tabs: Tabs<P>, urls: seq<string>, i: nat): (r: seq<J>)
    ensures |r| <= 1
    ensures r != [] ==> i < |urls| && !rd.bot(tabs.pageAt(i)) && rd.extract(tabs.pageAt(i), urls[i]) == Some(r[0])
  {
    if i >= |urls| || rd.bot(tabs.pageAt(i)) then []
    else
      match rd.extract(tabs.pageAt(i), urls[i])
      case Some(job) => [job]
      case None => []
  }

  function JobsOf<P, J>(rd: Reader<P, J>, tabs: Tabs<P>, urls: seq<string>, idx: seq<nat>): seq<J>
    decreases |idx|
  {
    if idx == [] then []
    else JobsOf(rd, tabs, urls, idx[..|idx| - 1]) + TabJob(rd, tabs, urls, idx[|idx| - 1])
  }

  /** At most one record per tab. */
  lemma {:induction false} JobsBound<P, J>(rd: Reader<P, J>, tabs: Tabs<P>, urls: seq<string>, idx: seq<nat>)
    ensures |JobsOf(rd, tabs, urls, idx)| <= |idx|
    decreases |idx|
  {
    if idx != [] {
      JobsBound(rd, tabs, urls, idx[..|idx| - 1]);
    }
  }

  /** Every record comes from one listed tab: one that was not flagged and
      whose extraction gave that record. */
  lemma {:induction false} JobsOfFrom<P, J>(rd: Reader<P, J>, tabs: Tabs<P>, urls: seq<string>, idx: seq<nat>, x: J)
    requires x in JobsOf(rd, tabs, urls, idx)
    ensures exists k :: 0 <= k < |idx| && idx[k] < |urls| && !rd.bot(tabs.pageAt(idx[k])) &&
                        rd.extract(tabs.pageAt(idx[k]), urls[idx[k]]) == Some(x)
    decreases |idx|
  {
    var front, t := idx[..|idx| - 1], idx[|idx| - 1];
    if x in JobsOf(rd, tabs, urls, front) {
      JobsOfFrom(rd, tabs, urls, front, x);
      var k :| 0 <= k < |front| && front[k] < |urls| && !rd.bot(tabs.pageAt(front[k])) &&
               rd.extract(tabs.pageAt(front[k]), urls[front[k]]) == Some(x);
      assert idx[k] == front[k];
    } else {
      var last := TabJob(rd, tabs, urls, t);
      assert x in last;
      assert idx[|idx| - 1] == t;
    }
  }

  datatype Run<J> = Run(jobs: seq<J>, events: seq<TabEvent>)

  function BatchEvents<P, J>(v: Variant, rd: Reader<P, J>, tabs: Tabs<P>, idx: seq<nat>): seq<TabEvent> {
    OpenEvents(idx) + LoadEvents(v, tabs, idx) + CloseEvents(rd, tabs, idx)
  }

  /** The batches from `start` on, each [start, min(start + c, n)). */
  function RunFrom<P, J>(v: Variant, rd: Reader<P, J>, tabs: Tabs<P>, urls: seq<string>, c: nat, start: nat): Run<J>
    requires c > 0
    decreases if start < |urls| then |urls| - start else 0
  {
    if start >= |urls| then Run([], [])
    else
      var idx := Opened(tabs, start, Min(start + c, |urls|));
      var rest := RunFrom(v, rd, tabs, urls, c, start + c);
      Run(JobsOf(rd, tabs, urls, idx) + rest.jobs, BatchEvents(v, rd, tabs, idx) + rest.events)
  }

  /** The loop of `scrape_jobs_batch` from `start` on, with `acc` gathered so far. */
  function RunAcc<P, J>(v: Variant, rd: Reader<P, J>, tabs: Tabs<P>, urls: seq<string>, c: nat, start: nat,
                        acc: Run<J>): Run<J>
    requires c > 0
    decreases if start < |urls| then |urls| - start else 0
  {
    if start >= |urls| then acc
    else
      var idx := Opened(tabs, start, Min(start + c, |urls|));
      RunAcc(v, rd, tabs, urls, c, start + c,
             Run(acc.jobs + JobsOf(rd, tabs, urls, idx), acc.events + BatchEvents(v, rd, tabs, idx)))
  }

  /** The accumulating loop ends with what it had plus the run from `start`. */
  lemma {:induction false} RunAccFrom<P, J>(v: Variant, rd: Reader<P, J>, tabs: Tabs<P>, urls: seq<string>, c: nat,
                                           start: nat, acc: Run<J>)
    requires c > 0
    ensures var r := RunFrom(v, rd, tabs, urls, c, start);
      RunAcc(v, rd, tabs, urls, c, start, acc) == Run(acc.jobs + r.jobs, acc.events + r.events)
    decreases if start < |urls| then |urls| - start else 0
  {
    var r := RunFrom(v, rd, tabs, urls, c, start);
    if start >= |urls| {
      assert acc.jobs + [] == acc.jobs && acc.events + [] == acc.events;
    } else {
      var idx := Opened(tabs, start, Min(start + c, |urls|));
      var next := Run(acc.jobs + JobsOf(rd, tabs, urls, idx), acc.events + BatchEvents(v, rd, tabs, idx));
      var r2 := RunFrom(v, rd, tabs, urls, c, start + c);
      RunAccFrom(v, rd, tabs, urls, c, start + c, next);
      assert r.jobs == JobsOf(rd, tabs, urls, idx) + r2.jobs;
      assert r.events == BatchEvents(v, rd, tabs, idx) + r2.events;
      Regroup(acc.jobs, JobsOf(rd, tabs, urls, idx), r2.jobs, acc.jobs + r.jobs);
      Regroup(acc.events, BatchEvents(v, rd, tabs, idx), r2.events, acc.events + r.events);
    }
  }

  /** Started empty, the accumulating loop computes the run. */
  lemma RunAccEmpty<P, J>(v: Variant, rd: Reader<P, J>, tabs: Tabs<P>, urls: seq<string>, c: nat, start: nat)
    requires c > 0
    ensures RunAcc(v, rd, tabs, urls, c, start, Run([], [])) == RunFrom(v, rd, tabs, urls, c, start)
  {
    var r := RunFrom(v, rd, tabs, urls, c, start);
    RunAccFrom(v, rd, tabs, urls, c, start, Run([], []));
    assert [] + r.jobs == r.jobs && [] + r.events == r.events;
  }

  /** The slices `job_urls[i:i + c]` for i in `range(start, n, c)`, as
      [from, to) pairs; RunFrom walks the same ones. */
  function Slices(n: nat, c: nat, start: nat): seq<(nat, nat)>
    requires c > 0
    decreases if start < n then n - start else 0
  {
    if start >= n then [] else [(start, Min(start + c, n))] + Slices(n, c, start + c)
  }

  /** The slices start at `start`, follow one another without gap or overlap,
      hold c URLs each except the last, which holds 1 to c and ends at n. */
  lemma {:induction false} SliceShape(n: nat, c: nat, start: nat)
    requires c > 0 && start < n
    ensures var sl := Slices(n, c, start);
      |sl| > 0 && sl[0].0 == start && sl[|sl| - 1].1 == n &&
      (forall k :: 0 <= k < |sl| ==> sl[k].0 < sl[k].1 <= sl[k].0 + c) &&
      (forall k :: 0 <= k < |sl| - 1 ==> sl[k].1 == sl[k].0 + c && sl[k].1 == sl[k + 1].0)
    decreases n - start
  {
    var sl := Slices(n, c, start);
    if start + c < n {
      SliceShape(n, c, start + c);
      var tail := Slices(n, c, start + c);
      assert sl == [(start, start + c)] + tail;
      assert forall k :: 1 <= k < |sl| ==> sl[k] == tail[k - 1];
    } else {
      assert Slices(n, c, start + c) == [];
      assert sl == [(start, n)];
    }
  }

  /** Twelve URLs with a step of five: two full batches and a batch of two. */
  lemma SlicesOfTwelve()
    ensures Slices(12, 5, 0) == [(0, 5), (5, 10), (10, 12)]
  {
    assert Slices(12, 5, 15) == [];
    assert Slices(12, 5, 10) == [(10, 12)];
    assert Slices(12, 5, 5) == [(5, 10), (10, 12)];
  }

  lemma Regroup<T>(a: seq<T>, b: seq<T>, r: seq<T>, w: seq<T>)
    requires a + (b + r) == w
    ensures (a + b) + r == w
  {
  }

  /** The open pass: `new_page` for every URL of the slice [s, e); a tab that
      fails to open is left out. */
  method OpenBatch<P>(tabs: Tabs<P>, s: nat, e: nat) returns (live: seq<nat>, trace: seq<TabEvent>)
    requires s <= e
    ensures live == Opened(tabs, s, e)
    ensures trace == OpenEvents(live)
  {
    live, trace := [], [];
    var i := s;
    while i < e
      invariant s <= i <= e
      invariant live == Opened(tabs, s, i)
      invariant trace == OpenEvents(live)
    {
      if tabs.opens(i) {
        live := live + [i];
        trace := trace + [Open(i)];
        assert live[..|live| - 1] == Opened(tabs, s, i);
      }
      i := i + 1;
    }
  }

  /** The read pass: check each tab for a bot page, extract its record
      otherwise, and close it (twice when it was flagged). */
  method ReadBatch<P, J>(rd: Reader<P, J>, tabs: Tabs<P>, urls: seq<string>, live: seq<nat>)
    returns (batchJobs: seq<J>, trace: seq<TabEvent>)
    requires forall k :: 0 <= k < |live| ==> live[k] < |urls|
    ensures batchJobs == JobsOf(rd, tabs, urls, live)
    ensures trace == CloseEvents(rd, tabs, live)
  {
    batchJobs, trace := [], [];
    var j := 0;
    while j < |live|
      invariant 0 <= j <= |live|
      invariant trace == CloseEvents(rd, tabs, live[..j])
      invariant batchJobs == JobsOf(rd, tabs, urls, live[..j])
    {
      var t := live[j];
      var page := tabs.pageAt(t);
      if rd.bot(page) {
        trace := trace + [Close(t), Close(t)];
      } else {
        var job := rd.extract(page, urls[t]);
        if job.Some? {
          batchJobs := batchJobs + [job.value];
        }
        trace := trace + [Close(t)];
      }
      assert live[..j + 1][..j] == live[..j];
      j := j + 1;
    }
    assert live[..|live|] == live;
  }

  // Properties of the batch executor.

  lemma {:induction false} OpenedSplit<P>(tabs: Tabs<P>, s: nat, m: nat, e: nat)
    requires s <= m <= e
    ensures Opened(tabs, s, e) == Opened(tabs, s, m) + Opened(tabs, m, e)
    decreases e
  {
    if m < e {
      OpenedSplit(tabs, s, m, e - 1);
      var last := if tabs.opens(e - 1) then [e - 1] else [];
      assert Opened(tabs, s, m) + Opened(tabs, m, e - 1) + last
          == Opened(tabs, s, m) + (Opened(tabs, m, e - 1) + last);
    }
  }

  lemma {:induction false} OpenEventsAppend(a: seq<nat>, b: seq<nat>)
    ensures OpenEvents(a + b) == OpenEvents(a) + OpenEvents(b)
    decreases |b|
  {
    if b == [] {
      assert a + b == a;
    } else {
      assert (a + b)[..|a + b| - 1] == a + b[..|b| - 1];
      OpenEventsAppend(a, b[..|b| - 1]);
    }
  }

  lemma {:induction false} LoadEventsAppend<P>(v: Variant, tabs: Tabs<P>, a: seq<nat>, b: seq<nat>)
    ensures LoadEvents(v, tabs, a + b) == LoadEvents(v, tabs, a) + LoadEvents(v, tabs, b)
    decreases |b|
  {
    if b == [] {
      assert a + b == a;
    } else {
      assert (a + b)[..|a + b| - 1] == a + b[..|b| - 1];
      LoadEventsAppend(v, tabs, a, b[..|b| - 1]);
    }
  }

  lemma {:induction false} CloseEventsAppend<P, J>(rd: Reader<P, J>, tabs: Tabs<P>, a: seq<nat>, b: seq<nat>)
    ensures CloseEvents(rd, tabs, a + b) == CloseEvents(rd, tabs, a) + CloseEvents(rd, tabs, b)
    decreases |b|
  {
    if b == [] {
      assert a + b == a;
    } else {
      assert (a + b)[..|a + b| - 1] == a + b[..|b| - 1];
      CloseEventsAppend(rd, tabs, a, b[..|b| - 1]);
    }
  }

  lemma {:induction false} JobsOfAppend<P, J>(rd: Reader<P, J>, tabs: Tabs<P>, urls: seq<string>, a: seq<nat>, b: seq<nat>)
    ensures JobsOf(rd, tabs, urls, a + b) == JobsOf(rd, tabs, urls, a) + JobsOf(rd, tabs, urls, b)
    decreases |b|
  {
    if b == [] {
      assert a + b == a;
    } else {
      assert (a + b)[..|a + b| - 1] == a + b[..|b| - 1];
      JobsOfAppend(rd, tabs, urls, a, b[..|b| - 1]);
    }
  }

  /** One batch of the run: its records and events come first, the rest of the
      run follows from the next batch, and the opened tabs split the same way. */
  lemma RunStep<P, J>(v: Variant, rd: Reader<P, J>, tabs: Tabs<P>, urls: seq<string>, c: nat, start: nat)
    requires c > 0 && start < |urls|
    ensures var m := Min(start + c, |urls|);
      var idx := Opened(tabs, start, m);
      var run := RunFrom(v, rd, tabs, urls, c, start);
      var rest := RunFrom(v, rd, tabs, urls, c, start + c);
      run.jobs == JobsOf(rd, tabs, urls, idx) + rest.jobs &&
      run.events == BatchEvents(v, rd, tabs, idx) + rest.events &&
      Opened(tabs, start, |urls|) == idx + Opened(tabs, m, |urls|) &&
      (start + c >= |urls| ==> m == |urls| && Opened(tabs, m, |urls|) == [] && rest == Run([], [])) &&
      (start + c < |urls| ==> m == start + c)
  {
    OpenedSplit(tabs, start, Min(start + c, |urls|), |urls|);
  }

  /** The records of a run are those of every opened tab in URL order, however
      the URLs are cut into batches. */
  lemma {:induction false} RunJobsFlat<P, J>(v: Variant, rd: Reader<P, J>, tabs: Tabs<P>, urls: seq<string>, c: nat, start: nat)
    requires c > 0
    ensures RunFrom(v, rd, tabs, urls, c, start).jobs == JobsOf(rd, tabs, urls, Opened(tabs, start, |urls|))
    decreases if start < |urls| then |urls| - start else 0
  {
    if start < |urls| {
      var n := |urls|;
      var m := Min(start + c, n);
      var idx, tail := Opened(tabs, start, m), Opened(tabs, m, n);
      RunStep(v, rd, tabs, urls, c, start);
      JobsOfAppend(rd, tabs, urls, idx, tail);
      if start + c < n {
        RunJobsFlat(v, rd, tabs, urls, c, m);
      }
    }
  }

  lemma BatchEventsAppend<P, J>(v: Variant, rd: Reader<P, J>, tabs: Tabs<P>, a: seq<nat>, b: seq<nat>)
    ensures multiset(BatchEvents(v, rd, tabs, a + b))
         == multiset(BatchEvents(v, rd, tabs, a)) + multiset(BatchEvents(v, rd, tabs, b))
  {
    OpenEventsAppend(a, b);
    LoadEventsAppend(v, tabs, a, b);
    CloseEventsAppend(rd, tabs, a, b);
  }

  /** The events of a run, taken as a bag, are those of one batch holding every
      opened tab. */
  lemma {:induction false} RunEventsFlat<P, J>(v: Variant, rd: Reader<P, J>, tabs: Tabs<P>, urls: seq<string>, c: nat, start: nat)
    requires c > 0
    ensures multiset(RunFrom(v, rd, tabs, urls, c, start).events)
         == multiset(BatchEvents(v, rd, tabs, Opened(tabs, start, |urls|)))
    decreases if start < |urls| then |urls| - start else 0
  {
    if start < |urls| {
      var m := Min(start + c, |urls|);
      RunStep(v, rd, tabs, urls, c, start);
      BatchEventsAppend(v, rd, tabs, Opened(tabs, start, m), Opened(tabs, m, |urls|));
      if start + c < |urls| {
        RunEventsFlat(v, rd, tabs, urls, c, m);
      }
    }
  }

  lemma {:induction false} OpenedCount<P>(tabs: Tabs<P>, s: nat, e: nat, i: nat)
    ensures multiset(Opened(tabs, s, e))[i] == if s <= i < e && tabs.opens(i) then 1 else 0
    decreases e
  {
    if s < e {
      OpenedCount(tabs, s, e - 1, i);
      var last := if tabs.opens(e - 1) then [e - 1] else [];
      assert multiset(Opened(tabs, s, e)) == multiset(Opened(tabs, s, e - 1)) + multiset(last);
      if tabs.opens(e - 1) {
        assert multiset(last) == multiset{e - 1};
      } else {
        assert multiset(last) == multiset{};
      }
    }
  }

  /** How often each kind of event names tab i in the three passes over `idx`. */
  lemma PassCounts<P, J>(v: Variant, rd: Reader<P, J>, tabs: Tabs<P>, idx: seq<nat>, i: nat)
    ensures var m := multiset(BatchEvents(v, rd, tabs, idx));
      m[Open(i)] == multiset(idx)[i] && m[Load(i)] == multiset(idx)[i] &&
      m[Scroll(i)] == (if ScrollsInBatch(v) && tabs.loads(i) then multiset(idx)[i] else 0) &&
      m[Close(i)] == (if rd.bot(tabs.pageAt(i)) then 2 * multiset(idx)[i] else multiset(idx)[i])
  {
    OpenCounts(idx, Open(i));
    OpenCounts(idx, Load(i));
    OpenCounts(idx, Scroll(i));
    OpenCounts(idx, Close(i));
    CloseCounts(rd, tabs, idx, Open(i));
    CloseCounts(rd, tabs, idx, Load(i));
    CloseCounts(rd, tabs, idx, Scroll(i));
    CloseCounts(rd, tabs, idx, Close(i));
    LoadCounts(v, tabs, idx, Open(i));
    LoadCounts(v, tabs, idx, Load(i));
    LoadCounts(v, tabs, idx, Scroll(i));
    LoadCounts(v, tabs, idx, Close(i));
  }

  /** The open pass names each listed tab once, with an Open event. */
  lemma {:induction false} OpenCounts(idx: seq<nat>, ev: TabEvent)
    ensures multiset(OpenEvents(idx))[ev] == if ev.Open? then multiset(idx)[ev.item] else 0
    decreases |idx|
  {
    if idx != [] {
      var front, t := idx[..|idx| - 1], idx[|idx| - 1];
      assert idx == front + [t];
      OpenCounts(front, ev);
      assert multiset(OpenEvents(idx)) == multiset(OpenEvents(front)) + multiset{Open(t)};
      assert multiset(idx) == multiset(front) + multiset{t};
    }
  }

  /** The navigation pass loads each listed tab once and scrolls it once more
      when the variant scrolls and the load succeeded. */
  lemma {:induction false} LoadCounts<P>(v: Variant, tabs: Tabs<P>, idx: seq<nat>, ev: TabEvent)
    ensures multiset(LoadEvents(v, tabs, idx))[ev]
         == if ev.Load? then multiset(idx)[ev.item]
            else if ev.Scroll? && ScrollsInBatch(v) && tabs.loads(ev.item) then multiset(idx)[ev.item]
            else 0
    decreases |idx|
  {
    if idx != [] {
      var front, t := idx[..|idx| - 1], idx[|idx| - 1];
      assert idx == front + [t];
      LoadCounts(v, tabs, front, ev);
      assert multiset(idx) == multiset(front) + multiset{t};
      var loads := TabLoads(v, tabs, t);
      assert multiset(LoadEvents(v, tabs, idx)) == multiset(LoadEvents(v, tabs, front)) + multiset(loads);
      if ScrollsInBatch(v) && tabs.loads(t) {
        assert multiset(loads) == multiset{Load(t), Scroll(t)};
      } else {
        assert multiset(loads) == multiset{Load(t)};
      }
    }
  }

  /** The read pass closes each listed tab once, or twice when it is flagged. */
  lemma {:induction false} CloseCounts<P, J>(rd: Reader<P, J>, tabs: Tabs<P>, idx: seq<nat>, ev: TabEvent)
    ensures multiset(CloseEvents(rd, tabs, idx))[ev]
         == if !ev.Close? then 0
            else if rd.bot(tabs.pageAt(ev.item)) then 2 * multiset(idx)[ev.item]
            else multiset(idx)[ev.item]
    decreases |idx|
  {
    if idx != [] {
      var front, t := idx[..|idx| - 1], idx[|idx| - 1];
      assert idx == front + [t];
      CloseCounts(rd, tabs, front, ev);
      var closes := TabCloses(rd, tabs, t);
      assert multiset(CloseEvents(rd, tabs, idx)) == multiset(CloseEvents(rd, tabs, front)) + multiset(closes);
      assert multiset(idx) == multiset(front) + multiset{t};
      if rd.bot(tabs.pageAt(t)) {
        assert multiset(closes) == multiset{Close(t), Close(t)};
      } else {
        assert multiset(closes) == multiset{Close(t)};
      }
    }
  }

  /** Tabs are independent: two runs whose tabs agree everywhere but at j give
      the same records before and after j's own contribution. */
  ghost predicate AgreeExcept<P>(t1: Tabs<P>, t2: Tabs<P>, j: nat) {
    forall i :: i != j ==> t1.opens(i) == t2.opens(i) && t1.pageAt(i) == t2.pageAt(i)
  }

  function TabOutcome<P, J>(rd: Reader<P, J>, tabs: Tabs<P>, urls: seq<string>, j: nat): (r: seq<J>)
    requires j < |urls|
    ensures !tabs.opens(j) ==> r == []
    ensures tabs.opens(j) ==> r == TabJob(rd, tabs, urls, j)
  {
    if tabs.opens(j) then TabJob(rd, tabs, urls, j) else []
  }

  lemma {:induction false} OpenedAgree<P>(t1: Tabs<P>, t2: Tabs<P>, j: nat, s: nat, e: nat)
    requires AgreeExcept(t1, t2, j)
    requires j < s || e <= j
    ensures Opened(t1, s, e) == Opened(t2, s, e)
    decreases e
  {
    if s < e {
      OpenedAgree(t1, t2, j, s, e - 1);
      assert t1.opens(e - 1) == t2.opens(e - 1);
    }
  }

  lemma {:induction false} JobsAgree<P, J>(rd: Reader<P, J>, t1: Tabs<P>, t2: Tabs<P>, urls: seq<string>, j: nat, idx: seq<nat>)
    requires AgreeExcept(t1, t2, j)
    requires forall k :: 0 <= k < |idx| ==> idx[k] != j
    ensures JobsOf(rd, t1, urls, idx) == JobsOf(rd, t2, urls, idx)
    decreases |idx|
  {
    if idx != [] {
      JobsAgree(rd, t1, t2, urls, j, idx[..|idx| - 1]);
      assert t1.pageAt(idx[|idx| - 1]) == t2.pageAt(idx[|idx| - 1]);
    }
  }

  lemma {:induction false} JobsAround<P, J>(rd: Reader<P, J>, tabs: Tabs<P>, urls: seq<string>, j: nat)
    requires j < |urls|
    ensures JobsOf(rd, tabs, urls, Opened(tabs, 0, |urls|))
         == JobsOf(rd, tabs, urls, Opened(tabs, 0, j)) + TabOutcome(rd, tabs, urls, j)
            + JobsOf(rd, tabs, urls, Opened(tabs, j + 1, |urls|))
  {
    var n := |urls|;
    var pre, mid, post := Opened(tabs, 0, j), Opened(tabs, j, j + 1), Opened(tabs, j + 1, n);
    OpenedSplit(tabs, 0, j, n);
    OpenedSplit(tabs, j, j + 1, n);
    JobsOfAppend(rd, tabs, urls, mid, post);
    JobsOfAppend(rd, tabs, urls, pre, mid + post);
    assert JobsOf(rd, tabs, urls, mid) == TabOutcome(rd, tabs, urls, j) by {
      assert Opened(tabs, j, j) == [];
      if tabs.opens(j) {
        assert mid == [j];
        assert mid[..0] == [];
      } else {
        assert mid == [];
      }
    }
    Regroup(JobsOf(rd, tabs, urls, pre), TabOutcome(rd, tabs, urls, j), JobsOf(rd, tabs, urls, post),
            JobsOf(rd, tabs, urls, Opened(tabs, 0, n)));
  }

  /** Per-item isolation: whatever happens to tab j (it fails to open, is
      flagged, or yields nothing), the records of every other tab are kept, in
      the same order. */
  lemma OtherTabsUnaffected<P, J>(rd: Reader<P, J>, t1: Tabs<P>, t2: Tabs<P>, urls: seq<string>, j: nat)
    requires j < |urls| && AgreeExcept(t1, t2, j)
    ensures var before := JobsOf(rd, t1, urls, Opened(t1, 0, j));
      var after := JobsOf(rd, t1, urls, Opened(t1, j + 1, |urls|));
      JobsOf(rd, t1, urls, Opened(t1, 0, |urls|)) == before + TabOutcome(rd, t1, urls, j) + after &&
      JobsOf(rd, t2, urls, Opened(t2, 0, |urls|)) == before + TabOutcome(rd, t2, urls, j) + after
  {
    JobsAround(rd, t1, urls, j);
    JobsAround(rd, t2, urls, j);
    OpenedShape(t1, 0, j);
    OpenedShape(t1, j + 1, |urls|);
    OpenedAgree(t1, t2, j, 0, j);
    OpenedAgree(t1, t2, j, j + 1, |urls|);
    JobsAgree(rd, t1, t2, urls, j, Opened(t1, 0, j));
    JobsAgree(rd, t1, t2, urls, j, Opened(t1, j + 1, |urls|));
  }
}
