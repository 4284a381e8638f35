/**
 The API's rate limiter: fixed windows per key in one bounded, insertion-ordered map that forgets old windows. It is
 compared with a limiter that never forgets, for which the budgets are then proved.
 */
module RateLimiter {
  import opened Base

  const HOUR := 3_600_000

  datatype Limit = Limit(max: nat, timeWindowMs: nat)

  datatype Decision = Decision(allowed: bool, limit: nat, remaining: nat, retryAfterSeconds: nat)

  /** One entry of the map; the entries keep the order in which their keys were first inserted. */
  datatype Window = Window(key: string, count: nat, start: int)

  predicate DistinctKeys(ws: seq<Window>) {
    forall i, j :: 0 <= i < j < |ws| ==> ws[i].key != ws[j].key
  }

  function IndexOf(ws: seq<Window>, key: string): (r: Option<nat>)
    ensures r.Some? ==> r.value < |ws| && ws[r.value].key == key
    ensures r.None? ==> forall i :: 0 <= i < |ws| ==> ws[i].key != key
  {
    if ws == [] then None
    else if ws[|ws| - 1].key == key then Some(|ws| - 1)
    else IndexOf(ws[..|ws| - 1], key)
  }

  /** Past every configured budget: the entry can no longer deny anything. */
  predicate IsStale(w: Window, current: int) {
    current - w.start > HOUR
  }

  function Kept(ws: seq<Window>, current: int): seq<Window> {
    if ws == [] then []
    else
      var n := |ws| - 1;
      Kept(ws[..n], current) + (if IsStale(ws[n], current) then [] else [ws[n]])
  }

  /** Dropping entries from the front until there is room for one more. */
  function Trimmed(ws: seq<Window>, maxWindows: nat): seq<Window> {
    if |ws| < maxWindows then ws
    else if maxWindows == 0 then []
    else ws[|ws| - (maxWindows - 1)..]
  }

  function WithRoom(ws: seq<Window>, current: int, maxWindows: nat): seq<Window> {
    if |ws| < maxWindows then ws else Trimmed(Kept(ws, current), maxWindows)
  }

  function Put(ws: seq<Window>, w: Window): seq<Window> {
    var i := IndexOf(ws, w.key);
    if i.Some? then ws[i.value := w] else ws + [w]
  }

  /** The window a hit counts in, and the count it brings there. */
  function NextWindow(existing: Option<Window>, key: string, current: int, limit: Limit): Window {
    if existing.None? || current - existing.value.start >= limit.timeWindowMs then Window(key, 1, current)
    else existing.value.(count := existing.value.count + 1)
  }

  function CeilSeconds(ms: int): int {
    (ms + 999) / 1000
  }

  function DecisionOf(w: Window, current: int, limit: Limit): Decision {
    Decision(w.count <= limit.max, limit.max, Max(0, limit.max - w.count),
             Max(1, CeilSeconds(limit.timeWindowMs - (current - w.start))))
  }

  function Lookup(ws: seq<Window>, key: string): Option<Window> {
    var i := IndexOf(ws, key);
    if i.Some? then Some(ws[i.value]) else None
  }

  /** The whole state of a limiter. */
  datatype State = State(windows: seq<Window>, lastPrune: int, maxWindows: nat)

  /** A request: the clock is read once for the hit and, if a prune is due, once more for that. */
  datatype Request = Request(key: string, limit: Limit, current: int, later: int)

  function Pruned(s: State, r: Request): State {
    if r.current - s.lastPrune > HOUR then s.(windows := Kept(s.windows, r.later), lastPrune := r.later) else s
  }

  /** The map as it is when the hit is counted. */
  function Prepared(s: State, r: Request): seq<Window> {
    var ws := Pruned(s, r).windows;
    if Lookup(ws, r.key).None? then WithRoom(ws, r.current, s.maxWindows) else ws
  }

  function CountedWindow(s: State, r: Request): Window {
    NextWindow(Lookup(Pruned(s, r).windows, r.key), r.key, r.current, r.limit)
  }

  function Hit(s: State, r: Request): (State, Decision) {
    var w := CountedWindow(s, r);
    (Pruned(s, r).(windows := Put(Prepared(s, r), w)), DecisionOf(w, r.current, r.limit))
  }

  lemma YoungerStay(ws: seq<Window>, kept: seq<Window>, current: int)
    requires kept == Kept(ws, current)
    ensures forall w :: w in kept <==> w in ws && current - w.start <= 3_600_000
  {
    hide Kept;
    KeptFacts(ws, current);
  }

  // ---- The limiter ----------------------------------------------------------------------------------

  class Limiter {
    const maxWindows: nat
    var windows: seq<Window>
    var lastPrune: int

    constructor (now: int, maxWindows: nat)
      ensures windows == [] && lastPrune == now && this.maxWindows == maxWindows
    {
      this.maxWindows, windows, lastPrune := maxWindows, [], now;
    }

    function Current(): State
      reads this
    {
      State(windows, lastPrune, maxWindows)
    }

    /** Deleting the stale entries while iterating over the map. */
    method DeleteStale(current: int)
      modifies this`windows
      ensures windows == Kept(old(windows), current)
      ensures forall w :: w in windows <==> w in old(windows) && current - w.start <= 3_600_000
    {
      var i, seen, total := 0, 0, |windows|;
      ghost var all := windows;
      while seen < total
        invariant seen <= total == |all| && i <= |windows|
        invariant windows[..i] == Kept(all[..seen], current)
        invariant windows[i..] == all[seen..]
        decreases total - seen
      {
        assert all[..seen + 1][..seen] == all[..seen];
        assert windows[i] == windows[i..][0] == all[seen];
        assert all[seen..][1..] == all[seen + 1..];
        if IsStale(windows[i], current) {
          windows := windows[..i] + windows[i + 1..];
        } else {
          assert windows[..i + 1] == windows[..i] + [windows[i]];
          i := i + 1;
        }
        seen := seen + 1;
      }
      assert all[..|all|] == all && windows[..i] == windows;
      YoungerStay(all, windows, current);
    }

    method Prune(now: int)
      modifies this
      ensures windows == Kept(old(windows), now) && lastPrune == now
    {
      DeleteStale(now);
      lastPrune := now;
    }

    method MakeRoom(current: int)
      modifies this`windows
      ensures windows == WithRoom(old(windows), current, maxWindows)
    {
      if |windows| < maxWindows { return; }
      DeleteStale(current);
      ghost var kept := windows;
      ghost var dropped := 0;
      while |windows| > 0
        invariant dropped <= |kept| && windows == kept[dropped..]
        invariant dropped > 0 ==> |kept| - dropped + 1 >= maxWindows
        decreases |windows|
      {
        if |windows| < maxWindows { break; }
        windows := windows[1..];
        dropped := dropped + 1;
      }
    }

    method HitKey(r: Request) returns (d: Decision)
      modifies this
      ensures Current() == Hit(old(Current()), r).0 && d == Hit(old(Current()), r).1
    {
      if r.current - lastPrune > HOUR { Prune(r.later); }
      var existing := Lookup(windows, r.key);
      if existing.None? { MakeRoom(r.current); }
      var w := NextWindow(existing, r.key, r.current, r.limit);
      windows := Put(windows, w);
      d := DecisionOf(w, r.current, r.limit);
    }
  }

  // ---- The map stays small and its keys distinct -----------------------------------------------------

  lemma {:induction false} KeptFacts(ws: seq<Window>, current: int)
    ensures |Kept(ws, current)| <= |ws|
    ensures forall w :: w in Kept(ws, current) <==> w in ws && current - w.start <= 3_600_000
    ensures DistinctKeys(ws) ==> DistinctKeys(Kept(ws, current))
    decreases |ws|
  {
    if ws != [] {
      var n := |ws| - 1;
      KeptFacts(ws[..n], current);
      assert ws == ws[..n] + [ws[n]];
      if DistinctKeys(ws) {
        forall w | w in Kept(ws[..n], current) ensures w.key != ws[n].key {
          var i :| 0 <= i < n && ws[i] == w;
        }
      }
    }
  }

  predicate WellFormed(s: State) {
    DistinctKeys(s.windows) && |s.windows| <= Max(1, s.maxWindows)
  }

  lemma RoomForOne(ws: seq<Window>, current: int, maxWindows: nat)
    requires DistinctKeys(ws)
    ensures DistinctKeys(WithRoom(ws, current, maxWindows))
    ensures |WithRoom(ws, current, maxWindows)| < Max(1, maxWindows)
  {
    hide Kept;
    KeptFacts(ws, current);
  }

  lemma PutKeepsDistinct(ws: seq<Window>, w: Window)
    requires DistinctKeys(ws)
    ensures DistinctKeys(Put(ws, w))
    ensures |Put(ws, w)| == if IndexOf(ws, w.key).Some? then |ws| else |ws| + 1
  {
  }

  lemma HitKeepsBound(s: State, r: Request)
    requires WellFormed(s)
    ensures WellFormed(Hit(s, r).0) && Hit(s, r).0.maxWindows == s.maxWindows
  {
    hide Kept, Put, WithRoom, IndexOf, DistinctKeys, DecisionOf;
    KeptFacts(s.windows, r.later);
    var ws := Pruned(s, r).windows;
    RoomForOne(ws, r.current, s.maxWindows);
    PutKeepsDistinct(Prepared(s, r), CountedWindow(s, r));
    assert CountedWindow(s, r).key == r.key;
  }

  // ---- Refinement of a limiter that forgets nothing ----------------------------------------------------

  type Memory = map<string, Window>

  function Recall(m: Memory, key: string): Option<Window> {
    if key in m then Some(m[key]) else None
  }

  function Remember(m: Memory, r: Request): (Memory, Decision) {
    var w := NextWindow(Recall(m, r.key), r.key, r.current, r.limit);
    (m[r.key := w], DecisionOf(w, r.current, r.limit))
  }

  /** Every window in the map is remembered as it is, and a window only memory has is stale by now; all have counted. */
  ghost predicate Refines(ws: seq<Window>, m: Memory, clock: int) {
    && DistinctKeys(ws)
    && (forall key :: key in m ==> m[key].count >= 1)
    && (forall i :: 0 <= i < |ws| ==> Recall(m, ws[i].key) == Some(ws[i]))
    && (forall key :: key in m && Lookup(ws, key).None? ==> IsStale(m[key], clock))
  }

  /** Making room for this request drops no window that could still deny. */
  predicate EvictsNoLive(s: State, r: Request) {
    var ws := Pruned(s, r).windows;
    Lookup(ws, r.key).None? && |ws| >= s.maxWindows ==> |Kept(ws, r.current)| < s.maxWindows
  }

  lemma LookupOfKept(ws: seq<Window>, current: int, key: string)
    requires DistinctKeys(ws)
    ensures DistinctKeys(Kept(ws, current))
    ensures Lookup(Kept(ws, current), key).Some? ==> Lookup(Kept(ws, current), key) == Lookup(ws, key)
    ensures Lookup(ws, key).Some? && Lookup(Kept(ws, current), key).None? ==> IsStale(Lookup(ws, key).value, current)
  {
    KeptFacts(ws, current);
    var i := IndexOf(ws, key);
    var j := IndexOf(Kept(ws, current), key);
    if j.Some? { assert Kept(ws, current)[j.value] in ws; }
    if i.Some? && j.None? { assert ws[i.value] !in Kept(ws, current); }
  }

  /** Forgetting stale windows keeps the refinement at any later time. */
  lemma KeptRefines(ws: seq<Window>, m: Memory, clock: int, current: int, now: int)
    requires Refines(ws, m, clock) && clock <= now && current <= now
    ensures Refines(Kept(ws, current), m, now) && Refines(ws, m, now)
  {
    hide Kept;
    var kept := Kept(ws, current);
    KeptFacts(ws, current);
    forall i | 0 <= i < |kept| ensures Recall(m, kept[i].key) == Some(kept[i]) {
      assert kept[i] in ws;
    }
    forall key | key in m && Lookup(kept, key).None? ensures IsStale(m[key], now) {
      LookupOfKept(ws, current, key);
      if Lookup(ws, key).Some? { assert Recall(m, key) == Some(ws[IndexOf(ws, key).value]); }
    }
  }

  lemma PutRefines(ws: seq<Window>, m: Memory, clock: int, w: Window)
    requires Refines(ws, m, clock) && w.count >= 1
    ensures Refines(Put(ws, w), m[w.key := w], clock)
  {
    hide Put, Lookup, IsStale;
    var after, more := Put(ws, w), m[w.key := w];
    PutKeepsDistinct(ws, w);
    forall i | 0 <= i < |after| ensures Recall(more, after[i].key) == Some(after[i]) {
      PutAt(ws, w, i);
      if after[i] != w { assert Recall(m, ws[i].key) == Some(ws[i]); }
    }
    forall key | key in more && Lookup(after, key).None? ensures IsStale(more[key], clock) {
      PutIsFound(ws, w, key);
    }
  }

  lemma PutAt(ws: seq<Window>, w: Window, i: nat)
    requires DistinctKeys(ws) && i < |Put(ws, w)|
    ensures Put(ws, w)[i] == w || (i < |ws| && Put(ws, w)[i] == ws[i] && ws[i].key != w.key)
  {
  }

  lemma PutIsFound(ws: seq<Window>, w: Window, key: string)
    requires DistinctKeys(ws)
    ensures Lookup(Put(ws, w), key).None? ==> key != w.key && Lookup(ws, key).None?
  {
    var i := IndexOf(ws, w.key);
    var after := Put(ws, w);
    if Lookup(after, key).None? {
      assert forall k :: 0 <= k < |after| ==> after[k].key != key;
      assert after[if i.Some? then i.value else |ws|].key == w.key;
      assert forall k :: 0 <= k < |ws| ==> ws[k].key == after[k].key;
    }
  }

  predicate PruneIsDue(s: State, r: Request) {
    r.current - s.lastPrune > HOUR
  }

  /** The window still counts at this moment: a hit would not restart it. */
  predicate IsOpen(w: Window, r: Request) {
    r.current - w.start < r.limit.timeWindowMs
  }

  /** The prune that is due forgets the key's open window, because it reads the clock once more. */
  predicate ForgetsOpen(s: State, r: Request) {
    var existing := Lookup(s.windows, r.key);
    PruneIsDue(s, r) && existing.Some? && IsOpen(existing.value, r) && IsStale(existing.value, r.later)
  }

  /** The budget leaves the clock room to move on while pruning. */
  predicate FitsHour(r: Request) {
    r.later - r.current + r.limit.timeWindowMs <= HOUR
  }

  lemma PreparedRefines(s: State, m: Memory, r: Request, clock: int)
    requires Refines(s.windows, m, clock) && clock <= r.current <= r.later && EvictsNoLive(s, r)
    ensures Refines(Pruned(s, r).windows, m, if PruneIsDue(s, r) then r.later else r.current)
    ensures Refines(Prepared(s, r), m, r.later)
  {
    hide Refines, Kept, Lookup;
    KeptRefines(s.windows, m, clock, r.later, r.later);
    KeptRefines(s.windows, m, clock, r.current, r.current);
    KeptRefines(Pruned(s, r).windows, m, if PruneIsDue(s, r) then r.later else r.current, r.current, r.later);
  }

  /**
   Exactly when a hit is counted in the remembered window: unless the prune before it forgets that very window while it
   is open, or the key's open window was forgotten earlier, which no budget of at most an hour allows.
   */
  lemma SameWindowExactly(s: State, m: Memory, r: Request, clock: int)
    requires Refines(s.windows, m, clock) && clock <= r.current <= r.later
    ensures CountedWindow(s, r) == NextWindow(Recall(m, r.key), r.key, r.current, r.limit)
            <==> !ForgetsOpen(s, r)
                 && !(r.key in m && Lookup(s.windows, r.key).None? && IsOpen(m[r.key], r))
    ensures r.key in m && Lookup(s.windows, r.key).None? && IsOpen(m[r.key], r) ==> r.limit.timeWindowMs > HOUR
  {
    hide Kept;
    var i := IndexOf(s.windows, r.key);
    if i.Some? { assert Recall(m, r.key) == Some(s.windows[i.value]); }
    LookupOfKept(s.windows, r.later, r.key);
    if i.Some? && IsStale(s.windows[i.value], r.later) { StaleIsForgotten(s.windows, r.later, i.value); }
  }

  lemma StaleIsForgotten(ws: seq<Window>, current: int, i: nat)
    requires DistinctKeys(ws) && i < |ws| && IsStale(ws[i], current)
    ensures Lookup(Kept(ws, current), ws[i].key).None?
  {
    hide Kept;
    KeptFacts(ws, current);
    var kept := Kept(ws, current);
    forall k | 0 <= k < |kept| ensures kept[k].key != ws[i].key {
      assert kept[k] in kept;
    }
  }

  /** A budget that fits into the hour is never forgotten while it counts. */
  lemma FittingForgetsNothing(s: State, r: Request)
    requires FitsHour(r) && r.current <= r.later
    ensures r.limit.timeWindowMs <= HOUR && !ForgetsOpen(s, r)
  {
  }

  /** Nothing that still counts is lost by this request. */
  predicate KeepsOpen(s: State, r: Request) {
    r.limit.timeWindowMs <= HOUR && !ForgetsOpen(s, r) && EvictsNoLive(s, r)
  }

  /**
   One request on a clock that does not go back: while nothing that still counts is forgotten or evicted, the bounded
   limiter decides as the unbounded one, and goes on doing so.
   */
  lemma HitRefines(s: State, m: Memory, r: Request, clock: int)
    requires Refines(s.windows, m, clock) && clock <= r.current <= r.later && KeepsOpen(s, r)
    ensures Hit(s, r).1 == Remember(m, r).1
    ensures Refines(Hit(s, r).0.windows, Remember(m, r).0, r.later)
  {
    hide Refines, Kept, Put, DecisionOf, ForgetsOpen;
    PreparedRefines(s, m, r, clock);
    SameWindowExactly(s, m, r, clock);
    assert CountedWindow(s, r).key == r.key;
    PutRefines(Prepared(s, r), m, r.later, CountedWindow(s, r));
  }

  // ---- Whole runs ------------------------------------------------------------------------------------

  function StateAfter(start: State, rs: seq<Request>, n: nat): State
    requires n <= |rs|
  {
    if n == 0 then start else Hit(StateAfter(start, rs, n - 1), rs[n - 1]).0
  }

  function MemoryAfter(rs: seq<Request>, n: nat): Memory
    requires n <= |rs|
  {
    if n == 0 then map[] else Remember(MemoryAfter(rs, n - 1), rs[n - 1]).0
  }

  function DecisionAt(start: State, rs: seq<Request>, i: nat): Decision
    requires i < |rs|
  {
    Hit(StateAfter(start, rs, i), rs[i]).1
  }

  function RememberedDecisionAt(rs: seq<Request>, i: nat): Decision
    requires i < |rs|
  {
    Remember(MemoryAfter(rs, i), rs[i]).1
  }

  predicate ClockAdvances(start: State, rs: seq<Request>) {
    && (forall i :: 0 <= i < |rs| ==> rs[i].current <= rs[i].later)
    && (forall i :: 0 < i < |rs| ==> rs[i - 1].later <= rs[i].current)
  }

  predicate RunsQuietly(start: State, rs: seq<Request>) {
    forall i :: 0 <= i < |rs| ==> KeepsOpen(StateAfter(start, rs, i), rs[i])
  }

  /** While nothing that still counts is lost, every decision of a run is that of the limiter that forgets nothing. */
  lemma {:induction false} RunRefines(start: State, rs: seq<Request>, n: nat)
    requires start.windows == [] && n <= |rs| && ClockAdvances(start, rs) && RunsQuietly(start, rs)
    ensures Refines(StateAfter(start, rs, n).windows, MemoryAfter(rs, n),
                    if n > 0 then rs[n - 1].later else if rs == [] then 0 else rs[0].current)
    ensures forall i :: 0 <= i < n ==> DecisionAt(start, rs, i) == RememberedDecisionAt(rs, i)
    decreases n
  {
    hide Refines, Hit, Remember, KeepsOpen;
    if n == 0 {
      EmptyRefines(if rs == [] then 0 else rs[0].current);
    } else {
      RunRefines(start, rs, n - 1);
      HitRefines(StateAfter(start, rs, n - 1), MemoryAfter(rs, n - 1), rs[n - 1],
                 if n > 1 then rs[n - 2].later else rs[0].current);
    }
  }

  /**
   Budgets of exactly an hour are not safe: in this run from a new limiter the second hit falls into the open window of
   the first, but the prune before it, two milliseconds later, forgets that window, and the hit is allowed.
   */
  lemma HourBudgetCanRestart()
    ensures var rs := [Request("k", Limit(1, HOUR), 2, 2), Request("k", Limit(1, HOUR), HOUR + 1, HOUR + 3)];
            var start := State([], 0, 10);
            && ClockAdvances(start, rs) && EvictsNoLive(StateAfter(start, rs, 1), rs[1])
            && ForgetsOpen(StateAfter(start, rs, 1), rs[1])
            && DecisionAt(start, rs, 1).allowed && !RememberedDecisionAt(rs, 1).allowed
  {
    var rs := [Request("k", Limit(1, HOUR), 2, 2), Request("k", Limit(1, HOUR), HOUR + 1, HOUR + 3)];
    var start, w := State([], 0, 10), Window("k", 1, 2);
    assert StateAfter(start, rs, 1) == State([w], 0, 10);
    assert MemoryAfter(rs, 1) == map["k" := w];
    assert Kept([w], HOUR + 3) == [] by { assert [w][..0] == []; }
  }

  lemma EmptyRefines(clock: int)
    ensures Refines([], map[], clock)
  {
  }

  lemma {:induction false} RunIsBounded(start: State, rs: seq<Request>, n: nat)
    requires start.windows == [] && n <= |rs|
    ensures WellFormed(StateAfter(start, rs, n)) && StateAfter(start, rs, n).maxWindows == start.maxWindows
    ensures |StateAfter(start, rs, n).windows| <= if start.maxWindows > 0 then start.maxWindows else 1
    decreases n
  {
    hide Hit;
    if n > 0 {
      RunIsBounded(start, rs, n - 1);
      HitKeepsBound(StateAfter(start, rs, n - 1), rs[n - 1]);
    }
  }

  // ---- The budgets -------------------------------------------------------------------------------------

  /** Requests lo..n on this key that the unbounded limiter allows. */
  function AllowedOn(rs: seq<Request>, key: string, lo: nat, n: nat): nat
    requires lo <= n <= |rs|
  {
    if n == lo then 0
    else AllowedOn(rs, key, lo, n - 1) + (if rs[n - 1].key == key && RememberedDecisionAt(rs, n - 1).allowed then 1 else 0)
  }

  /** All requests of this key carry this budget. */
  predicate HasBudget(rs: seq<Request>, key: string, limit: Limit) {
    forall i :: 0 <= i < |rs| && rs[i].key == key ==> rs[i].limit == limit
  }

  function StartOf(m: Memory, key: string): Option<int> {
    if key in m then Some(m[key].start) else None
  }

  /** How many windows of the key the requests lo..n were counted in. */
  function WindowsOn(rs: seq<Request>, key: string, lo: nat, n: nat): nat
    requires lo <= n <= |rs|
  {
    if n == lo then 0
    else
      var before := WindowsOn(rs, key, lo, n - 1);
      if rs[n - 1].key != key then before
      else if before == 0 || StartOf(MemoryAfter(rs, n), key) != StartOf(MemoryAfter(rs, n - 1), key) then before + 1
      else before
  }

  /** What the requests lo..n say about the key's current window. */
  predicate Tally(rs: seq<Request>, key: string, limit: Limit, lo: nat, n: nat)
    requires lo < |rs| && lo <= n <= |rs|
  {
    var allowed, windows, m := AllowedOn(rs, key, lo, n), WindowsOn(rs, key, lo, n), MemoryAfter(rs, n);
    if windows == 0 then allowed == 0
    else
      && key in m
      && allowed <= (windows - 1) * limit.max + Min(m[key].count, limit.max)
      && m[key].start + limit.timeWindowMs > rs[lo].current
      && (windows >= 2 ==> m[key].start > rs[lo].current)
  }

  lemma TallyStep(rs: seq<Request>, key: string, limit: Limit, lo: nat, n: nat)
    requires lo < n <= |rs| && HasBudget(rs, key, limit) && limit.timeWindowMs > 0
    requires rs[lo].current <= rs[n - 1].current
    requires Tally(rs, key, limit, lo, n - 1)
    ensures Tally(rs, key, limit, lo, n)
  {
    var m, r := MemoryAfter(rs, n - 1), rs[n - 1];
    if r.key == key {
      var windows := WindowsOn(rs, key, lo, n - 1);
      var w := MemoryAfter(rs, n)[key];
      assert w == NextWindow(Recall(m, key), key, r.current, limit);
      assert RememberedDecisionAt(rs, n - 1).allowed <==> w.count <= limit.max;
      if windows > 0 && StartOf(MemoryAfter(rs, n), key) != StartOf(m, key) {
        assert (windows + 1 - 1) * limit.max == (windows - 1) * limit.max + limit.max;
      }
    }
  }

  lemma {:induction false} Tallied(rs: seq<Request>, key: string, limit: Limit, lo: nat, n: nat)
    requires lo < |rs| && lo <= n <= |rs| && HasBudget(rs, key, limit) && limit.timeWindowMs > 0
    requires forall i :: lo <= i < n ==> rs[lo].current <= rs[i].current
    ensures Tally(rs, key, limit, lo, n)
    decreases n
  {
    hide Tally;
    if n == lo {
      NothingTallied(rs, key, limit, lo);
    } else {
      Tallied(rs, key, limit, lo, n - 1);
      TallyStep(rs, key, limit, lo, n);
    }
  }

  lemma NothingTallied(rs: seq<Request>, key: string, limit: Limit, lo: nat)
    requires lo < |rs|
    ensures Tally(rs, key, limit, lo, lo)
  {
  }

  /** Each window allows at most its budget. */
  lemma BudgetPerWindow(rs: seq<Request>, key: string, limit: Limit, lo: nat, n: nat)
    requires lo < |rs| && lo <= n <= |rs| && HasBudget(rs, key, limit) && limit.timeWindowMs > 0
    requires forall i :: lo <= i < n ==> rs[lo].current <= rs[i].current
    ensures AllowedOn(rs, key, lo, n) <= WindowsOn(rs, key, lo, n) * limit.max
  {
    Tallied(rs, key, limit, lo, n);
    var windows := WindowsOn(rs, key, lo, n);
    if windows > 0 { assert windows * limit.max == (windows - 1) * limit.max + limit.max; }
  }

  /** No more than two windows meet an interval of the length of one. */
  lemma {:induction false} TwoWindowsAtMost(rs: seq<Request>, key: string, limit: Limit, lo: nat, n: nat)
    requires lo < |rs| && lo <= n <= |rs| && HasBudget(rs, key, limit) && limit.timeWindowMs > 0
    requires forall i :: lo <= i < n ==> rs[lo].current <= rs[i].current <= rs[lo].current + limit.timeWindowMs
    ensures WindowsOn(rs, key, lo, n) <= 2
    decreases n
  {
    if n > lo {
      TwoWindowsAtMost(rs, key, limit, lo, n - 1);
      Tallied(rs, key, limit, lo, n - 1);
      if rs[n - 1].key == key && WindowsOn(rs, key, lo, n - 1) == 2 {
        var m := MemoryAfter(rs, n - 1);
        assert MemoryAfter(rs, n)[key] == NextWindow(Some(m[key]), key, rs[n - 1].current, limit);
      }
    }
  }

  /** In any interval as long as a window, a key gets at most twice its budget. */
  lemma BudgetPerInterval(rs: seq<Request>, key: string, limit: Limit, lo: nat, n: nat)
    requires lo < |rs| && lo <= n <= |rs| && HasBudget(rs, key, limit) && limit.timeWindowMs > 0
    requires forall i :: lo <= i < n ==> rs[lo].current <= rs[i].current <= rs[lo].current + limit.timeWindowMs
    ensures AllowedOn(rs, key, lo, n) <= 2 * limit.max
  {
    TwoWindowsAtMost(rs, key, limit, lo, n);
    BudgetPerWindow(rs, key, limit, lo, n);
    var windows := WindowsOn(rs, key, lo, n);
    assert windows in {0, 1, 2};
  }

  /** The same count for the limiter itself. */
  function GrantedOn(start: State, rs: seq<Request>, key: string, lo: nat, n: nat): nat
    requires lo <= n <= |rs|
  {
    if n == lo then 0
    else GrantedOn(start, rs, key, lo, n - 1) + (if rs[n - 1].key == key && DecisionAt(start, rs, n - 1).allowed then 1 else 0)
  }

  lemma {:induction false} GrantedIsAllowed(start: State, rs: seq<Request>, key: string, lo: nat, n: nat)
    requires lo <= n <= |rs|
    requires forall i :: lo <= i < n ==> DecisionAt(start, rs, i) == RememberedDecisionAt(rs, i)
    ensures GrantedOn(start, rs, key, lo, n) == AllowedOn(rs, key, lo, n)
    decreases n
  {
    hide DecisionAt, RememberedDecisionAt;
    if n > lo { GrantedIsAllowed(start, rs, key, lo, n - 1); }
  }

  lemma {:induction false} ClockIsMonotone(start: State, rs: seq<Request>, i: nat, j: nat)
    requires ClockAdvances(start, rs) && i <= j < |rs|
    ensures rs[i].current <= rs[j].current
    decreases j
  {
    if i < j { ClockIsMonotone(start, rs, i, j - 1); }
  }

  /** The bounded limiter keeps the doubled budget too, in any run that evicts no live window. */
  lemma LimiterKeepsBudget(start: State, rs: seq<Request>, key: string, limit: Limit, lo: nat, n: nat)
    requires start.windows == [] && ClockAdvances(start, rs) && RunsQuietly(start, rs)
    requires lo < |rs| && lo < n <= |rs| && HasBudget(rs, key, limit) && limit.timeWindowMs > 0
    requires rs[n - 1].current <= rs[lo].current + limit.timeWindowMs
    ensures GrantedOn(start, rs, key, lo, n) <= 2 * limit.max
  {
    RunRefines(start, rs, |rs|);
    GrantedIsAllowed(start, rs, key, lo, n);
    forall i | lo <= i < n ensures rs[lo].current <= rs[i].current <= rs[lo].current + limit.timeWindowMs {
      ClockIsMonotone(start, rs, lo, i);
      ClockIsMonotone(start, rs, i, n - 1);
    }
    BudgetPerInterval(rs, key, limit, lo, n);
  }

  // ---- Runs that anybody can check ---------------------------------------------------------------------

  function KeysOf(rs: seq<Request>): set<string> {
    set i | 0 <= i < |rs| :: rs[i].key
  }

  /** No more clients than the map has room for, with budgets that leave the clock room to move on. */
  predicate IsFitting(start: State, rs: seq<Request>) {
    |KeysOf(rs)| <= start.maxWindows && forall i :: 0 <= i < |rs| ==> FitsHour(rs[i])
  }

  /** All windows in the map are of these keys. */
  predicate Within(ws: seq<Window>, keys: set<string>) {
    forall i :: 0 <= i < |ws| ==> ws[i].key in keys
  }

  lemma {:induction false} RoomForKeys(ws: seq<Window>, keys: set<string>)
    requires DistinctKeys(ws) && Within(ws, keys)
    ensures |ws| <= |keys|
    decreases |ws|
  {
    if ws != [] {
      var n := |ws| - 1;
      RoomForKeys(ws[..n], keys - {ws[n].key});
    }
  }

  lemma HitStaysWithin(s: State, r: Request, keys: set<string>)
    requires Within(s.windows, keys) && r.key in keys
    ensures Within(Hit(s, r).0.windows, keys)
  {
    hide Kept, WithRoom, IndexOf, IsStale;
    KeptFacts(s.windows, r.later);
    var ws := Pruned(s, r).windows;
    assert Within(ws, keys) by {
      forall i | 0 <= i < |ws| ensures ws[i].key in keys { assert ws[i] in s.windows; }
    }
    KeptFacts(ws, r.current);
    var k := RoomIsSuffix(ws, r.current, s.maxWindows);
    var room := Prepared(s, r);
    forall i | 0 <= i < |room| ensures room[i].key in keys {
      assert room[i] in ws;
    }
  }

  lemma {:induction false} RunStaysWithin(start: State, rs: seq<Request>, n: nat)
    requires start.windows == [] && n <= |rs|
    ensures Within(StateAfter(start, rs, n).windows, KeysOf(rs))
    decreases n
  {
    hide Hit;
    if n > 0 {
      RunStaysWithin(start, rs, n - 1);
      HitStaysWithin(StateAfter(start, rs, n - 1), rs[n - 1], KeysOf(rs));
    }
  }

  /** With as much room as keys nothing is ever evicted. */
  lemma NothingEvicted(s: State, r: Request, keys: set<string>)
    requires DistinctKeys(s.windows) && Within(s.windows, keys) && r.key in keys && |keys| <= s.maxWindows
    ensures EvictsNoLive(s, r)
  {
    hide Kept, IsStale;
    KeptFacts(s.windows, r.later);
    var ws := Pruned(s, r).windows;
    if Lookup(ws, r.key).None? {
      forall i | 0 <= i < |ws| ensures ws[i].key in keys - {r.key} { assert ws[i] in s.windows; }
      RoomForKeys(ws, keys - {r.key});
    }
  }

  lemma FittingIsQuiet(start: State, rs: seq<Request>)
    requires start.windows == [] && ClockAdvances(start, rs) && IsFitting(start, rs)
    ensures RunsQuietly(start, rs)
  {
    hide EvictsNoLive, ForgetsOpen, FitsHour, StateAfter;
    forall i | 0 <= i < |rs| ensures KeepsOpen(StateAfter(start, rs, i), rs[i]) {
      RunIsBounded(start, rs, i);
      RunStaysWithin(start, rs, i);
      FittingForgetsNothing(StateAfter(start, rs, i), rs[i]);
      NothingEvicted(StateAfter(start, rs, i), rs[i], KeysOf(rs));
    }
  }

  /**
   In terms of the requests alone: with no more keys than room and budgets that fit into the hour, every decision is that
   of a limiter that forgets nothing, and no key gets more than twice its budget in an interval as long as its window.
   */
  lemma FittingRunIsExact(start: State, rs: seq<Request>)
    requires start.windows == [] && ClockAdvances(start, rs) && IsFitting(start, rs)
    ensures forall i :: 0 <= i < |rs| ==> DecisionAt(start, rs, i) == RememberedDecisionAt(rs, i)
    ensures forall key, limit, lo: nat, n: nat ::
              lo < n <= |rs| && HasBudget(rs, key, limit) && limit.timeWindowMs > 0
              && rs[n - 1].current <= rs[lo].current + limit.timeWindowMs ==>
                GrantedOn(start, rs, key, lo, n) <= 2 * limit.max
  {
    FittingIsQuiet(start, rs);
    RunRefines(start, rs, |rs|);
    forall key, limit, lo: nat, n: nat |
      lo < n <= |rs| && HasBudget(rs, key, limit) && limit.timeWindowMs > 0
      && rs[n - 1].current <= rs[lo].current + limit.timeWindowMs
      ensures GrantedOn(start, rs, key, lo, n) <= 2 * limit.max
    {
      LimiterKeepsBudget(start, rs, key, limit, lo, n);
    }
  }

  // ---- Decisions, from the requests alone ------------------------------------------------------------

  /** The last of the first n requests on this key. */
  function Last(rs: seq<Request>, key: string, n: nat): (p: Option<nat>)
    requires n <= |rs|
    ensures p.Some? ==> p.value < n && rs[p.value].key == key && forall i :: p.value < i < n ==> rs[i].key != key
    ensures p.None? ==> forall i :: 0 <= i < n ==> rs[i].key != key
  {
    if n == 0 then None else if rs[n - 1].key == key then Some(n - 1) else Last(rs, key, n - 1)
  }

  /** The request that opened the window in which request n is counted. */
  function Opener(rs: seq<Request>, n: nat): (b: nat)
    requires n < |rs|
    ensures b <= n && rs[b].key == rs[n].key
  {
    var p := Last(rs, rs[n].key, n);
    if p.None? then n
    else
      var b := Opener(rs, p.value);
      if rs[n].current - rs[b].current >= rs[n].limit.timeWindowMs then n else b
  }

  /** The requests on this key from b to n. */
  function Between(rs: seq<Request>, key: string, b: nat, n: nat): set<int>
    requires n < |rs|
  {
    set i | b <= i <= n && rs[i].key == key
  }

  /** The requests counted in that window so far, this one included. */
  function Counted(rs: seq<Request>, n: nat): set<int>
    requires n < |rs|
  {
    Between(rs, rs[n].key, Opener(rs, n), n)
  }

  lemma BetweenGrows(rs: seq<Request>, key: string, b: nat, p: nat, n: nat)
    requires b <= p < n < |rs| && rs[n].key == key && forall i :: p < i < n ==> rs[i].key != key
    ensures Between(rs, key, b, n) == Between(rs, key, b, p) + {n} && n !in Between(rs, key, b, p)
  {
  }

  lemma OpenerStep(rs: seq<Request>, n: nat, p: nat)
    requires n < |rs| && Last(rs, rs[n].key, n) == Some(p)
    ensures Opener(rs, n) == if rs[n].current - rs[Opener(rs, p)].current >= rs[n].limit.timeWindowMs then n
                             else Opener(rs, p)
  {
    hide Last;
  }

  lemma CountedGrows(rs: seq<Request>, n: nat, p: nat)
    requires n < |rs| && Last(rs, rs[n].key, n) == Some(p)
    ensures rs[n].current - rs[Opener(rs, p)].current < rs[n].limit.timeWindowMs ==>
              |Counted(rs, n)| == |Counted(rs, p)| + 1 && Opener(rs, n) == Opener(rs, p)
    ensures rs[n].current - rs[Opener(rs, p)].current >= rs[n].limit.timeWindowMs ==> Opener(rs, n) == n
  {
    hide Last, Opener, Between;
    OpenerStep(rs, n, p);
    if rs[n].current - rs[Opener(rs, p)].current < rs[n].limit.timeWindowMs {
      BetweenGrows(rs, rs[n].key, Opener(rs, p), p, n);
    }
  }

  lemma CountedFirst(rs: seq<Request>, n: nat)
    requires n < |rs| && Opener(rs, n) == n
    ensures |Counted(rs, n)| == 1
  {
    hide Opener;
    assert Counted(rs, n) == {n};
  }

  lemma {:induction false} MemoryIsCount(rs: seq<Request>, key: string, n: nat)
    requires n <= |rs|
    ensures var p := Last(rs, key, n);
            Recall(MemoryAfter(rs, n), key)
            == if p.None? then None else Some(Window(key, |Counted(rs, p.value)|, rs[Opener(rs, p.value)].current))
    decreases n
  {
    hide DecisionOf, Counted, Opener;
    if n > 0 {
      MemoryIsCount(rs, key, n - 1);
      if rs[n - 1].key == key {
        var p := Last(rs, key, n - 1);
        if p.Some? { CountedGrows(rs, n - 1, p.value); } else { OpenerOfFirst(rs, n - 1); }
        if Opener(rs, n - 1) == n - 1 { CountedFirst(rs, n - 1); }
      }
    }
  }

  /**
   The limiter that forgets nothing, told from the requests alone: a window is opened by the first request on its key and
   by every one that comes a whole window after the last opener; a request is allowed while no more than the budget have
   been counted since, and is told what is left of the budget and how many seconds of the window.
   */
  lemma DecidedExactly(rs: seq<Request>, n: nat)
    requires n < |rs|
    ensures var limit, count := rs[n].limit, |Counted(rs, n)|;
            var left := limit.timeWindowMs - (rs[n].current - rs[Opener(rs, n)].current);
            && (RememberedDecisionAt(rs, n).allowed <==> count <= limit.max)
            && RememberedDecisionAt(rs, n).limit == limit.max
            && RememberedDecisionAt(rs, n).remaining == (if count < limit.max then limit.max - count else 0)
            && RememberedDecisionAt(rs, n).retryAfterSeconds >= 1
            && 1000 * RememberedDecisionAt(rs, n).retryAfterSeconds >= left
            && (RememberedDecisionAt(rs, n).retryAfterSeconds > 1 ==>
                  1000 * (RememberedDecisionAt(rs, n).retryAfterSeconds - 1) < left)
  {
    hide Counted, Opener, Last, MemoryAfter;
    var p := Last(rs, rs[n].key, n);
    MemoryIsCount(rs, rs[n].key, n);
    if p.Some? { CountedGrows(rs, n, p.value); } else { OpenerOfFirst(rs, n); }
    if Opener(rs, n) == n { CountedFirst(rs, n); }
  }

  lemma OpenerOfFirst(rs: seq<Request>, n: nat)
    requires n < |rs| && Last(rs, rs[n].key, n).None?
    ensures Opener(rs, n) == n
  {
    hide Last;
  }

  // ---- What a client is told -------------------------------------------------------------------------

  /**
   The answer is exact to the second: after the announced wait the window restarts, one second earlier it does not,
   and the announced remainder is what is left of the budget in this window.
   */
  lemma AnswerIsExact(w: Window, current: int, later: int, limit: Limit)
    requires w.start <= current <= later
    ensures var d := DecisionOf(w, current, limit);
            var next := NextWindow(Some(w), w.key, later, limit);
            && (later >= current + 1000 * d.retryAfterSeconds ==> next == Window(w.key, 1, later))
            && (d.retryAfterSeconds > 1 && later <= current + 1000 * (d.retryAfterSeconds - 1) ==>
                  next == w.(count := w.count + 1))
            && (next.start == w.start && next.count > 1 ==> (DecisionOf(next, later, limit).allowed <==> d.remaining > 0))
  {
  }

  // ---- Which entry is evicted -----------------------------------------------------------------------------

  /** The entries dropped to make room, when only live ones are left. */
  function Evicted(ws: seq<Window>, maxWindows: nat): seq<Window>
    requires maxWindows >= 1
  {
    if |ws| < maxWindows then [] else ws[..|ws| - (maxWindows - 1)]
  }

  /** The dropped entries are the oldest windows exactly when no kept window is older than a dropped one. */
  predicate EvictsOldest(ws: seq<Window>, maxWindows: nat)
    requires maxWindows >= 1
  {
    forall i, j :: 0 <= i < |Evicted(ws, maxWindows)| <= j < |ws| ==> ws[i].start <= ws[j].start
  }

  predicate Ascends(ws: seq<Window>) {
    forall i, j :: 0 <= i < j < |ws| ==> ws[i].start <= ws[j].start
  }

  /** Whatever the number of entries to drop, the oldest go first exactly when the starts ascend along the map. */
  lemma OldestGoExactly(ws: seq<Window>)
    ensures Ascends(ws) <==> forall m :: 1 <= m <= |ws| ==> EvictsOldest(ws, m)
  {
    if forall m :: 1 <= m <= |ws| ==> EvictsOldest(ws, m) {
      forall i, j | 0 <= i < j < |ws| ensures ws[i].start <= ws[j].start {
        assert EvictsOldest(ws, |ws| - j + 1);
        assert |Evicted(ws, |ws| - j + 1)| == j;
      }
    }
  }

  /** The hit restarts a window in front of one that has started earlier than now: setting a key does not move it. */
  predicate RestartsInFront(s: State, r: Request) {
    var ws := Pruned(s, r).windows;
    var i := IndexOf(ws, r.key);
    && i.Some? && !IsOpen(ws[i.value], r)
    && exists j :: i.value < j < |ws| && ws[j].start < r.current
  }

  predicate StartedBy(ws: seq<Window>, clock: int) {
    forall i :: 0 <= i < |ws| ==> ws[i].start <= clock
  }

  lemma KeptStartedBy(ws: seq<Window>, current: int, clock: int)
    requires StartedBy(ws, clock)
    ensures StartedBy(Kept(ws, current), clock)
  {
    hide Kept;
    KeptFacts(ws, current);
    var kept := Kept(ws, current);
    forall i | 0 <= i < |kept| ensures kept[i].start <= clock {
      assert kept[i] in ws;
    }
  }

  lemma {:induction false} KeptAscends(ws: seq<Window>, current: int)
    requires Ascends(ws)
    ensures Ascends(Kept(ws, current))
    decreases |ws|
  {
    hide IsStale;
    if ws != [] {
      var n := |ws| - 1;
      KeptAscends(ws[..n], current);
      AllBefore(ws, n);
      KeptStartedBy(ws[..n], current, ws[n].start);
    }
  }

  lemma AllBefore(ws: seq<Window>, n: nat)
    requires Ascends(ws) && n < |ws|
    ensures StartedBy(ws[..n], ws[n].start)
  {
  }

  lemma PutAscends(ws: seq<Window>, w: Window)
    requires Ascends(ws) && DistinctKeys(ws) && StartedBy(ws, w.start)
    ensures var i := IndexOf(ws, w.key);
            Ascends(Put(ws, w)) <==> i.None? || forall j :: i.value < j < |ws| ==> w.start <= ws[j].start
  {
    var i, after := IndexOf(ws, w.key), Put(ws, w);
    if i.Some? && Ascends(after) {
      forall j | i.value < j < |ws| ensures w.start <= ws[j].start {
        assert after[i.value].start <= after[j].start;
      }
    }
  }

  /** One hit keeps the starts ascending exactly when it does not restart in front. */
  lemma HitAscends(s: State, r: Request)
    requires DistinctKeys(s.windows) && Ascends(s.windows) && StartedBy(s.windows, r.current)
    ensures StartedBy(Hit(s, r).0.windows, r.current)
    ensures Ascends(Hit(s, r).0.windows) <==> !RestartsInFront(s, r)
  {
    hide Kept;
    KeptAscends(s.windows, r.later);
    KeptStartedBy(s.windows, r.later, r.current);
    KeptFacts(s.windows, r.later);
    var ws, w := Pruned(s, r).windows, CountedWindow(s, r);
    var i := IndexOf(ws, r.key);
    if i.None? {
      RoomForOne(ws, r.current, s.maxWindows);
      StillMissing(ws, r.current, s.maxWindows, r.key);
      RoomAscends(ws, r.current, s.maxWindows);
      PutAscends(Prepared(s, r), w);
    } else if !IsOpen(ws[i.value], r) {
      PutAscends(ws, w);
    }
  }

  /** Making room leaves all windows, or the last of the kept ones. */
  lemma RoomIsSuffix(ws: seq<Window>, current: int, maxWindows: nat) returns (k: nat)
    ensures WithRoom(ws, current, maxWindows) == ws || k <= |Kept(ws, current)|
    ensures WithRoom(ws, current, maxWindows) == ws || WithRoom(ws, current, maxWindows) == Kept(ws, current)[k..]
  {
    hide Kept;
    var kept := Kept(ws, current);
    k := if |kept| < maxWindows then 0 else if maxWindows == 0 then |kept| else |kept| - (maxWindows - 1);
  }

  lemma StillMissing(ws: seq<Window>, current: int, maxWindows: nat, key: string)
    requires IndexOf(ws, key).None?
    ensures IndexOf(WithRoom(ws, current, maxWindows), key).None?
  {
    hide Kept, WithRoom, IndexOf;
    KeptFacts(ws, current);
    var k := RoomIsSuffix(ws, current, maxWindows);
    var after := WithRoom(ws, current, maxWindows);
    forall i | 0 <= i < |after| ensures after[i].key != key {
      assert after[i] in ws;
    }
  }

  lemma RoomAscends(ws: seq<Window>, current: int, maxWindows: nat)
    requires StartedBy(ws, current) && Ascends(ws)
    ensures StartedBy(WithRoom(ws, current, maxWindows), current) && Ascends(WithRoom(ws, current, maxWindows))
  {
    hide Kept, WithRoom;
    KeptStartedBy(ws, current, current);
    KeptAscends(ws, current);
    var k := RoomIsSuffix(ws, current, maxWindows);
  }

  /** The starts ascend in the first n + 1 states of a run. */
  predicate AscendsThrough(start: State, rs: seq<Request>, n: nat)
    requires n <= |rs|
  {
    Ascends(StateAfter(start, rs, n).windows) && (n > 0 ==> AscendsThrough(start, rs, n - 1))
  }

  /** None of the first n requests restarts in front. */
  predicate NeverInFront(start: State, rs: seq<Request>, n: nat)
    requires n <= |rs|
  {
    forall i :: 0 <= i < n ==> !RestartsInFront(StateAfter(start, rs, i), rs[i])
  }

  /** A run from an empty map has ascending starts all along exactly as long as no hit restarts in front. */
  lemma {:induction false} RunAscends(start: State, rs: seq<Request>, n: nat)
    requires start.windows == [] && n <= |rs| && ClockAdvances(start, rs)
    ensures AscendsThrough(start, rs, n) <==> NeverInFront(start, rs, n)
    ensures AscendsThrough(start, rs, n) && n > 0 ==> StartedBy(StateAfter(start, rs, n).windows, rs[n - 1].current)
    decreases n
  {
    hide Hit, Ascends, RestartsInFront, StartedBy, ClockAdvances;
    NothingAscends(0);
    if n > 0 {
      RunAscends(start, rs, n - 1);
      RunIsBounded(start, rs, n - 1);
      var before, r := StateAfter(start, rs, n - 1), rs[n - 1];
      assert NeverInFront(start, rs, n) <==> NeverInFront(start, rs, n - 1) && !RestartsInFront(before, r);
      if AscendsThrough(start, rs, n - 1) {
        NothingAscends(r.current);
        if n > 1 {
          ClockIsMonotone(start, rs, n - 2, n - 1);
          StartedLater(before.windows, rs[n - 2].current, r.current);
        }
        HitAscends(before, r);
      }
    }
  }

  lemma NothingAscends(clock: int)
    ensures Ascends([]) && StartedBy([], clock)
  {
  }

  lemma StartedLater(ws: seq<Window>, clock: int, later: int)
    requires StartedBy(ws, clock) && clock <= later
    ensures StartedBy(ws, later)
  {
  }

  const Budget := Limit(5, 60)
  const RestartInFront := [Request("a", Budget, 0, 0), Request("b", Budget, 1, 1), Request("a", Budget, 60, 60)]

  /** So a full map can drop a window that is younger than one it keeps: here "a" restarts at 60 and goes before "b" of 1. */
  lemma YoungerIsEvicted()
    ensures var start := State([], 0, 2);
            var full := StateAfter(start, RestartInFront, 3).windows;
            && full == [Window("a", 1, 60), Window("b", 1, 1)]
            && RestartsInFront(StateAfter(start, RestartInFront, 2), RestartInFront[2]) && !EvictsOldest(full, 2)
            && WithRoom(full, 61, 2) == [Window("b", 1, 1)]
  {
    hide StateAfter;
    var a2, b := Window("a", 1, 60), Window("b", 1, 1);
    BeforeTheRestart();
    assert StateAfter(State([], 0, 2), RestartInFront, 3).windows == [a2, b] by {
      AfterTheRestart();
    }
    assert [a2, b][..1] == [a2] && [a2][..0] == [];
    assert Kept([a2], 61) == [a2];
    assert Kept([a2, b], 61) == [a2, b];
    assert Evicted([a2, b], 2) == [a2];
  }

  lemma BeforeTheRestart()
    ensures StateAfter(State([], 0, 2), RestartInFront, 2) == State([Window("a", 1, 0), Window("b", 1, 1)], 0, 2)
    ensures IndexOf([Window("a", 1, 0), Window("b", 1, 1)], "a") == Some(0)
  {
    var start, a, b := State([], 0, 2), Window("a", 1, 0), Window("b", 1, 1);
    assert Hit(start, RestartInFront[0]).0 == State([a], 0, 2);
    assert Lookup([a], "b").None? by { assert [a][..0] == []; }
    assert Hit(State([a], 0, 2), RestartInFront[1]).0 == State([a, b], 0, 2);
    assert StateAfter(start, RestartInFront, 1) == State([a], 0, 2);
    assert IndexOf([a, b], "a") == Some(0) by { assert [a, b][..1] == [a] && [a][..0] == []; }
  }

  lemma AfterTheRestart()
    ensures StateAfter(State([], 0, 2), RestartInFront, 3).windows == [Window("a", 1, 60), Window("b", 1, 1)]
  {
    hide IndexOf, Kept;
    BeforeTheRestart();
    assert StateAfter(State([], 0, 2), RestartInFront, 3)
           == Hit(StateAfter(State([], 0, 2), RestartInFront, 2), RestartInFront[2]).0;
  }
}
