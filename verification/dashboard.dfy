/**
 * The dashboard's data: the process list a user sees, filtered by role,
 * and the three counters shown above it (total, on time, delayed).
 */
module Dashboard {
  import opened Wrappers
  import opened Process

  /** The elements of `xs` that `keep` accepts, in their original order. */
  function Filter<T>(xs: seq<T>, keep: T -> bool): (r: seq<T>)
    ensures |r| <= |xs|
    ensures forall i :: 0 <= i < |r| ==> r[i] in xs && keep(r[i])
    ensures forall i :: 0 <= i < |xs| && keep(xs[i]) ==> xs[i] in r
  {
    if |xs| == 0 then []
    else (if keep(xs[0]) then [xs[0]] else []) + Filter(xs[1..], keep)
  }

  /** Filtering a concatenation filters each part. */
  lemma {:induction false} FilterAppend<T>(a: seq<T>, b: seq<T>, keep: T -> bool)
    ensures Filter(a + b, keep) == Filter(a, keep) + Filter(b, keep)
  {
    if |a| > 0 {
      assert (a + b)[1..] == a[1..] + b;
      FilterAppend(a[1..], b, keep);
    } else {
      assert a + b == b;
    }
  }

  /** The records assigned to user `userId`. */
  function AssignedTo(userId: string): ProcessRecord -> bool {
    (p: ProcessRecord) => p.assignedTo == userId
  }

  /**
   * The records the dashboard lists for `user`: every record for the
   * director role, otherwise exactly those assigned to the user.
   */
  function Visible(processes: seq<ProcessRecord>, user: User): (r: seq<ProcessRecord>)
    ensures user.role == Director ==> r == processes
    ensures user.role != Director ==>
              forall p :: p in r <==> p in processes && p.assignedTo == user.id
  {
    if user.role == Director then processes else Filter(processes, AssignedTo(user.id))
  }

  /** A record is late at instant `now` when it has a final deadline strictly before `now`. */
  predicate IsDelayed(p: ProcessRecord, now: int) {
    p.deadline.Some? && p.deadline.value < now
  }

  function DelayedAt(now: int): ProcessRecord -> bool {
    (p: ProcessRecord) => IsDelayed(p, now)
  }

  datatype Kpis = Kpis(total: int, delayed: int, onTime: int)

  /** Number of late records, counted one by one: the reference for the counter. */
  function CountDelayed(processes: seq<ProcessRecord>, now: int): (n: nat)
    ensures n <= |processes|
  {
    if |processes| == 0 then 0
    else (if IsDelayed(processes[0], now) then 1 else 0) + CountDelayed(processes[1..], now)
  }

  /**
   * The counters for `processes` at instant `now`, the instant the list was
   * delivered: total, the records whose deadline has passed, and the rest.
   */
  function ComputeKpis(processes: seq<ProcessRecord>, now: int): (k: Kpis)
    ensures k.total == |processes|
    ensures k.total == k.onTime + k.delayed
    ensures 0 <= k.delayed <= k.total
    ensures k.delayed == CountDelayed(processes, now)
  {
    var total := |processes|;
    var late := Filter(processes, DelayedAt(now));
    FilterCounts(processes, now);
    Kpis(total, |late|, total - |late|)
  }

  /** Filtering out the late records and counting them one by one agree. */
  lemma {:induction false} FilterCounts(processes: seq<ProcessRecord>, now: int)
    ensures |Filter(processes, DelayedAt(now))| == CountDelayed(processes, now)
  {
    if |processes| > 0 {
      FilterCounts(processes[1..], now);
    }
  }

  /** No record is counted late exactly when no record's deadline has passed. */
  lemma {:induction false} NoneDelayed(processes: seq<ProcessRecord>, now: int)
    ensures CountDelayed(processes, now) == 0 <==> forall p :: p in processes ==> !IsDelayed(p, now)
  {
    if |processes| > 0 {
      NoneDelayed(processes[1..], now);
      assert forall p :: p in processes <==> p == processes[0] || p in processes[1..];
    }
  }

  /** Every record is counted late exactly when every record's deadline has passed. */
  lemma {:induction false} AllDelayed(processes: seq<ProcessRecord>, now: int)
    ensures CountDelayed(processes, now) == |processes| <==> forall p :: p in processes ==> IsDelayed(p, now)
  {
    if |processes| > 0 {
      AllDelayed(processes[1..], now);
      assert forall p :: p in processes <==> p == processes[0] || p in processes[1..];
    }
  }

  /** The late count of a concatenation is the sum of the parts' counts. */
  lemma {:induction false} DelayedAdds(a: seq<ProcessRecord>, b: seq<ProcessRecord>, now: int)
    ensures CountDelayed(a + b, now) == CountDelayed(a, now) + CountDelayed(b, now)
  {
    if |a| > 0 {
      assert (a + b)[1..] == a[1..] + b;
      DelayedAdds(a[1..], b, now);
    } else {
      assert a + b == b;
    }
  }

  /**
   * The counters are recomputed only when a new list is delivered, against
   * the instant of that delivery; between two deliveries of the same list,
   * the later one never counts fewer late records or more on-time ones.
   */
  lemma {:induction false} DelayedGrowsWithTime(processes: seq<ProcessRecord>, earlier: int, later: int)
    requires earlier <= later
    ensures ComputeKpis(processes, earlier).delayed <= ComputeKpis(processes, later).delayed
    ensures ComputeKpis(processes, earlier).onTime >= ComputeKpis(processes, later).onTime
  {
    CountMonotone(processes, earlier, later);
  }

  lemma {:induction false} CountMonotone(processes: seq<ProcessRecord>, earlier: int, later: int)
    requires earlier <= later
    ensures CountDelayed(processes, earlier) <= CountDelayed(processes, later)
  {
    if |processes| > 0 {
      CountMonotone(processes[1..], earlier, later);
    }
  }

  /** A director's counters cover every record; other users' cover only their own. */
  lemma VisibleCounts(processes: seq<ProcessRecord>, user: User, now: int)
    ensures user.role == Director ==> ComputeKpis(Visible(processes, user), now) == ComputeKpis(processes, now)
    ensures ComputeKpis(Visible(processes, user), now).total <= |processes|
  {
  }
}
