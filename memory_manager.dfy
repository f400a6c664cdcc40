/**
 * The cache-eviction policy of the K/V store (water.MemoryManager).
 *
 * The heap limits are derived once from the maximal heap size.  The cleaner
 * reports the size of the cache (setCacheSz) and asks, value by value,
 * whether a value should be dropped (removeValue); a garbage-collection
 * notification reports the heap usage (handleNotification).  Between them
 * they maintain the amount of memory still to be freed, the flag that lets
 * allocations proceed, and an adaptive estimate of the age after which a
 * value counts as old.
 *
 * Java's `x >> k` on a long is floor division by 2^k, which is Dafny's `/`
 * by a positive constant.
 */
module MemoryManager {
  import opened Wrappers

  // ---------------------------------------------------------------------------
  // Heap limits

  /** MEM_MAX and the limits derived from it by the static initialiser. */
  datatype Limits = Limits(memMax: int, memCritical: int, memHi: int, cacheHi: int, cacheLo: int)

  /**
   * MEM_CRITICAL is 3/4 of the heap, MEM_HI 3/4 of that, CACHE_HI half the
   * heap and CACHE_LO an eighth of it (each rounded as the shifts round).
   */
  function LimitsOf(memMax: int): (l: Limits)
    ensures l.memMax == memMax
    ensures memMax >= 0 ==>
      0 <= l.cacheLo <= l.cacheHi <= l.memHi <= l.memCritical <= l.memMax
    ensures memMax >= 0 ==> 4 * l.memCritical >= 3 * memMax && 2 * l.cacheHi <= memMax
  {
    var critical := memMax - memMax / 4;
    Limits(memMax, critical, critical - critical / 4, memMax / 2, memMax / 8)
  }

  /** (MEM_CRITICAL - MEM_HI) >> 1: the slack below which allocations resume. */
  function Slack(l: Limits): int {
    (l.memCritical - l.memHi) / 2
  }

  /**
   * The amount a heap notification asks the cleaner to free: everything
   * above MEM_CRITICAL plus the slack, or half of what lies above MEM_HI,
   * or nothing.
   */
  function Clean(l: Limits, heapUsage: int): (c: int)
    ensures l.memHi <= l.memCritical ==>
      0 <= c &&
      (heapUsage <= l.memHi ==> c == 0) &&
      (heapUsage > l.memCritical ==> c > Slack(l) && c >= heapUsage - l.memCritical)
  {
    if heapUsage > l.memCritical then (heapUsage - l.memCritical) + Slack(l)
    else if heapUsage > l.memHi then (heapUsage - l.memHi) / 2
    else 0
  }

  /** A higher heap usage never asks for less to be freed. */
  lemma CleanMonotone(l: Limits, h1: int, h2: int)
    requires l.memHi <= l.memCritical
    requires h1 <= h2
    ensures Clean(l, h1) <= Clean(l, h2)
  {
    if h2 > l.memCritical && h1 > l.memHi && h1 <= l.memCritical {
      assert (h1 - l.memHi) / 2 <= (l.memCritical - l.memHi) / 2;
    }
  }

  /**
   * After a critical notification, the slack check that lets allocations
   * resume can only pass once more than the excess above MEM_CRITICAL has
   * been freed.
   */
  lemma ResumeNeedsExcessFreed(l: Limits, heapUsage: int, freed: int)
    requires heapUsage > l.memCritical
    requires Clean(l, heapUsage) - freed < Slack(l)
    ensures freed > heapUsage - l.memCritical
  {
  }

  /** The part of the cache above CACHE_HI that setCacheSz asks to free, if any. */
  function CacheExcess(l: Limits, cached: int): (r: Option<int>)
    ensures r.Some? <==> cached > l.cacheHi
    ensures r.Some? ==> 0 <= r.value && 2 * r.value <= cached - l.cacheHi
  {
    if cached > l.cacheHi then Some((cached - l.cacheHi) / 2) else None
  }

  // ---------------------------------------------------------------------------
  // The adaptive age estimate

  /**
   * _sCounter and _uCounter count successive old and young values; _maxTime
   * is the age above which a value is old and _previousT its value before the
   * last adjustment.
   */
  datatype Estimator = Estimator(sCounter: int, uCounter: int, maxTime: int, previousT: int)

  /** The estimate at class initialisation. */
  const InitialEstimator := Estimator(0, 0, 4000, 4000)

  /** Both counters lie in [0, 10) and at least one of them is 0; the times are not negative. */
  predicate Sound(e: Estimator) {
    0 <= e.sCounter < 10 && 0 <= e.uCounter < 10 && (e.sCounter == 0 || e.uCounter == 0) &&
    0 <= e.maxTime && 0 <= e.previousT
  }

  /**
   * After ten old values in a row: move _maxTime halfway up toward
   * _previousT, or grow it by half; the answer is (maxTime, previousT).
   */
  function Lengthen(maxTime: int, previousT: int): (r: (int, int))
    ensures 0 <= maxTime && 0 <= previousT ==> maxTime <= r.0 && 0 <= r.1
    ensures maxTime < previousT ==> r.0 <= previousT && r.1 == maxTime
    ensures previousT <= maxTime ==> r.1 == maxTime
  {
    if previousT > maxTime then (maxTime + (previousT - maxTime) / 2, maxTime)
    else (2 * maxTime - maxTime / 2, maxTime)
  }

  /**
   * After ten young values in a row: move _maxTime halfway down toward
   * _previousT, or shrink it to three quarters.
   */
  function Shorten(maxTime: int, previousT: int): (r: (int, int))
    ensures 0 <= maxTime && 0 <= previousT ==> 0 <= r.0 <= maxTime && 0 <= r.1
    ensures previousT < maxTime ==> previousT <= r.0 && r.1 == maxTime
    ensures maxTime <= previousT ==> r.1 == maxTime
  {
    if previousT < maxTime then (maxTime - (maxTime - previousT) / 2, maxTime)
    else (maxTime / 2 + maxTime / 4, maxTime)
  }

  /** The estimator after one value that is old (`isOld`) or young. */
  function Observe(e: Estimator, isOld: bool): (r: Estimator)
    ensures Sound(e) ==> Sound(r)
    ensures isOld ==> r.uCounter == 0
    ensures !isOld ==> r.sCounter == 0
    ensures Sound(e) && isOld ==> e.maxTime <= r.maxTime
    ensures Sound(e) && !isOld ==> r.maxTime <= e.maxTime
    ensures r.maxTime != e.maxTime ==> r.sCounter == 0 && r.uCounter == 0 && r.previousT == e.maxTime
  {
    if isOld then
      if e.sCounter + 1 == 10 then
        var t := Lengthen(e.maxTime, e.previousT);
        Estimator(0, 0, t.0, t.1)
      else
        e.(sCounter := e.sCounter + 1, uCounter := 0)
    else
      if e.uCounter + 1 == 10 then
        var t := Shorten(e.maxTime, e.previousT);
        Estimator(0, 0, t.0, t.1)
      else
        e.(sCounter := 0, uCounter := e.uCounter + 1)
  }

  /** The estimator after a run of values, oldest first. */
  function ObserveAll(e: Estimator, ages: seq<bool>): Estimator
    decreases |ages|
  {
    if |ages| == 0 then e else ObserveAll(Observe(e, ages[0]), ages[1..])
  }

  /** k copies of the same answer. */
  function Repeat(b: bool, k: nat): (s: seq<bool>)
    ensures |s| == k && forall i :: 0 <= i < k ==> s[i] == b
  {
    if k == 0 then [] else [b] + Repeat(b, k - 1)
  }

  /** A sound estimator stays sound over any run of values. */
  lemma {:induction false} ObserveAllSound(e: Estimator, ages: seq<bool>)
    requires Sound(e)
    ensures Sound(ObserveAll(e, ages))
    decreases |ages|
  {
    if |ages| > 0 {
      ObserveAllSound(Observe(e, ages[0]), ages[1..]);
    }
  }

  /** Fewer than ten old values in a row only count; _maxTime does not move. */
  lemma {:induction false} OldRun(e: Estimator, k: nat)
    requires 1 <= k && 0 <= e.sCounter && e.sCounter + k < 10
    ensures ObserveAll(e, Repeat(true, k)) == e.(sCounter := e.sCounter + k, uCounter := 0)
    decreases k
  {
    var e1 := Observe(e, true);
    assert e1 == e.(sCounter := e.sCounter + 1, uCounter := 0);
    assert Repeat(true, k)[1..] == Repeat(true, k - 1);
    if k > 1 {
      OldRun(e1, k - 1);
    }
  }

  /** Fewer than ten young values in a row only count; _maxTime does not move. */
  lemma {:induction false} YoungRun(e: Estimator, k: nat)
    requires 1 <= k && 0 <= e.uCounter && e.uCounter + k < 10
    ensures ObserveAll(e, Repeat(false, k)) == e.(sCounter := 0, uCounter := e.uCounter + k)
    decreases k
  {
    var e1 := Observe(e, false);
    assert e1 == e.(sCounter := 0, uCounter := e.uCounter + 1);
    assert Repeat(false, k)[1..] == Repeat(false, k - 1);
    if k > 1 {
      YoungRun(e1, k - 1);
    }
  }

  /** ObserveAll over a concatenation is ObserveAll over each part in turn. */
  lemma {:induction false} ObserveAllAppend(e: Estimator, a: seq<bool>, b: seq<bool>)
    ensures ObserveAll(e, a + b) == ObserveAll(ObserveAll(e, a), b)
    decreases |a|
  {
    if |a| == 0 {
      assert a + b == b;
    } else {
      assert (a + b)[1..] == a[1..] + b;
      ObserveAllAppend(Observe(e, a[0]), a[1..], b);
    }
  }

  /** Ten old values in a row, after a young one, lengthen _maxTime once and reset both counters. */
  lemma TenOld(e: Estimator)
    requires Sound(e) && e.sCounter == 0
    ensures var t := Lengthen(e.maxTime, e.previousT);
      ObserveAll(e, Repeat(true, 10)) == Estimator(0, 0, t.0, t.1)
  {
    var mid := ObserveAll(e, Repeat(true, 9));
    OldRun(e, 9);
    assert Repeat(true, 10) == Repeat(true, 9) + [true];
    ObserveAllAppend(e, Repeat(true, 9), [true]);
    assert ObserveAll(mid, [true]) == Observe(mid, true);
  }

  /** Ten young values in a row, after an old one, shorten _maxTime once and reset both counters. */
  lemma TenYoung(e: Estimator)
    requires Sound(e) && e.uCounter == 0
    ensures var t := Shorten(e.maxTime, e.previousT);
      ObserveAll(e, Repeat(false, 10)) == Estimator(0, 0, t.0, t.1)
  {
    var mid := ObserveAll(e, Repeat(false, 9));
    YoungRun(e, 9);
    assert Repeat(false, 10) == Repeat(false, 9) + [false];
    ObserveAllAppend(e, Repeat(false, 9), [false]);
    assert ObserveAll(mid, [false]) == Observe(mid, false);
  }

  /**
   * Once _maxTime and _previousT are both 0 no run of values moves them
   * again: every value older than 0 then counts as old.
   */
  lemma {:induction false} ZeroEstimateStays(e: Estimator, ages: seq<bool>)
    requires e.maxTime == 0 && e.previousT == 0
    ensures ObserveAll(e, ages).maxTime == 0 && ObserveAll(e, ages).previousT == 0
    decreases |ages|
  {
    if |ages| > 0 {
      ZeroEstimateStays(Observe(e, ages[0]), ages[1..]);
    }
  }

  // ---------------------------------------------------------------------------
  // The manager's state

  /** The part of a Value the manager looks at: its last access time and its buffer's length (None for null). */
  class Value {
    var lastAccessedTime: int
    var mem: Option<nat>

    constructor (lastAccessedTime: int, mem: Option<nat>)
      ensures this.lastAccessedTime == lastAccessedTime && this.mem == mem
    {
      this.lastAccessedTime := lastAccessedTime;
      this.mem := mem;
    }

    /** free_mem(): drop the cached buffer. */
    method FreeMem()
      modifies this
      ensures mem == None && lastAccessedTime == old(lastAccessedTime)
    {
      mem := None;
    }
  }

  /** The static state of MemoryManager, as an object. */
  class Manager {
    const limits: Limits
    var cached: int
    var mem2Free: int
    var canAllocate: bool
    var numBlocked: int
    var sCounter: int
    var uCounter: int
    var maxTime: int
    var previousT: int

    /** The age estimate held in the four estimator fields. */
    function Estimate(): Estimator
      reads this
    {
      Estimator(sCounter, uCounter, maxTime, previousT)
    }

    ghost predicate Valid()
      reads this
    {
      Sound(Estimate()) && 0 <= numBlocked
    }

    /** The state after class initialisation on a heap of memMax bytes. */
    constructor (memMax: int)
      ensures limits == LimitsOf(memMax)
      ensures cached == 0 && mem2Free == 0 && canAllocate && numBlocked == 0
      ensures Estimate() == InitialEstimator && Valid()
    {
      limits := LimitsOf(memMax);
      cached := 0;
      mem2Free := 0;
      canAllocate := true;
      numBlocked := 0;
      sCounter := 0;
      uCounter := 0;
      maxTime := 4000;
      previousT := 4000;
    }

    /** memCritical(): allocations are blocked. */
    predicate MemCritical()
      reads this
    {
      !canAllocate
    }

    /** setCacheSz(c): record the cache size and raise mem2Free to the excess above CACHE_HI. */
    method SetCacheSz(c: int)
      modifies this
      ensures cached == c
      ensures mem2Free == match CacheExcess(limits, c)
        case Some(free) => if free > old(mem2Free) then free else old(mem2Free)
        case None => old(mem2Free)
      ensures old(mem2Free) <= mem2Free
      ensures canAllocate == old(canAllocate) && numBlocked == old(numBlocked)
      ensures Estimate() == old(Estimate())
    {
      cached := c;
      if cached > limits.cacheHi {
        var free := (cached - limits.cacheHi) / 2;
        if free > mem2Free {
          mem2Free := free;
        }
      }
    }

    /**
     * removeValue(currentTime, v): update the age estimate with v's age, and
     * drop v's buffer when v is old, memory is to be freed and the cache is
     * above CACHE_LO.  Allocations resume when enough has been freed.
     */
    method RemoveValue(currentTime: int, v: Value) returns (removed: bool)
      requires Valid()
      modifies this, v
      ensures Valid()
      ensures Estimate() == Observe(old(Estimate()), currentTime - v.lastAccessedTime > old(maxTime))
      ensures removed <==>
        currentTime - v.lastAccessedTime > old(maxTime) && old(mem2Free) > 0 && cached > limits.cacheLo
      ensures v.lastAccessedTime == old(v.lastAccessedTime)
      ensures v.mem == if removed then None else old(v.mem)
      ensures mem2Free == old(mem2Free) - if removed && old(v.mem).Some? then old(v.mem).value else 0
      ensures canAllocate ==
        (old(canAllocate) || (removed && old(v.mem).Some? && mem2Free < Slack(limits)))
      ensures numBlocked == if canAllocate && !old(canAllocate) then 0 else old(numBlocked)
      ensures cached == old(cached)
    {
      var deltaT := currentTime - v.lastAccessedTime;
      var isOld := deltaT > maxTime;
      Track(isOld);
      if isOld && mem2Free > 0 && cached > limits.cacheLo {
        var m := v.mem;
        if m.Some? {
          v.FreeMem();
          mem2Free := mem2Free - m.value;
          if !canAllocate && mem2Free < Slack(limits) {
            canAllocate := true;
            if numBlocked > 0 {
              numBlocked := 0;
            }
          }
        }
        return true;
      }
      return false;
    }

    /**
     * The estimator part of removeValue: count an old value (resetting the
     * young count) or a young one (resetting the old count), and adjust
     * _maxTime on the tenth in a row.
     */
    method Track(isOld: bool)
      modifies this
      ensures Estimate() == Observe(old(Estimate()), isOld)
      ensures cached == old(cached) && mem2Free == old(mem2Free)
      ensures canAllocate == old(canAllocate) && numBlocked == old(numBlocked)
    {
      if isOld {
        uCounter := 0;
        sCounter := sCounter + 1;
        if sCounter == 10 {
          if previousT > maxTime {
            var x := maxTime;
            maxTime := maxTime + (previousT - maxTime) / 2;
            previousT := x;
          } else {
            previousT := maxTime;
            maxTime := 2 * maxTime - maxTime / 2;
          }
          sCounter := 0;
        }
      } else {
        sCounter := 0;
        uCounter := uCounter + 1;
        if uCounter == 10 {
          if previousT < maxTime {
            var x := maxTime;
            maxTime := maxTime - (maxTime - previousT) / 2;
            previousT := x;
          } else {
            previousT := maxTime;
            maxTime := maxTime / 2 + maxTime / 4;
          }
          uCounter := 0;
        }
      }
    }

    /**
     * handleNotification: on a collection-threshold notification, raise
     * mem2Free to what the heap usage asks for, and block allocations when
     * the usage is above MEM_CRITICAL.  Other notifications change nothing.
     */
    method HandleNotification(thresholdExceeded: bool, heapUsage: int)
      modifies this
      ensures mem2Free ==
        if thresholdExceeded && Clean(limits, heapUsage) > old(mem2Free) then Clean(limits, heapUsage)
        else old(mem2Free)
      ensures old(mem2Free) <= mem2Free
      ensures canAllocate == (old(canAllocate) && !(thresholdExceeded && heapUsage > limits.memCritical))
      ensures cached == old(cached) && numBlocked == old(numBlocked) && Estimate() == old(Estimate())
    {
      if thresholdExceeded {
        var clean := 0;
        if heapUsage > limits.memCritical {
          clean := (heapUsage - limits.memCritical) + Slack(limits);
          canAllocate := false;
        } else if heapUsage > limits.memHi {
          clean := (heapUsage - limits.memHi) / 2;
        }
        if clean > mem2Free {
          mem2Free := clean;
        }
      }
    }
  }
}
