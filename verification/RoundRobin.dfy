/** Round-robin balance of `next` over any window of a run (src/pool/manager.rs:79-87). */
module RoundRobin {
  import opened Wrappers
  import opened Lanes
  import opened Select
  import opened PoolCore
  import opened Protocol

  // ---- Counting over consecutive cursor values ----------------------------------------------

  /** How many of `c, c+1, .., c+m-1` are `i` modulo `n`. */
  function Hits(c: nat, m: nat, n: nat, i: nat): nat
    requires n > 0
  {
    if m == 0 then 0 else Hits(c, m - 1, n, i) + One((c + m - 1) % n == i)
  }

  /** How many numbers below `x` are `i` modulo `n`. */
  function Below(x: nat, n: nat, i: nat): nat
    requires i < n
  {
    x / n + One(x % n > i)
  }

  lemma NextResidue(x: nat, n: nat)
    requires n > 0
    ensures if x % n == n - 1 then (x + 1) % n == 0 && (x + 1) / n == x / n + 1
            else (x + 1) % n == x % n + 1 && (x + 1) / n == x / n
  {
    var (q, r) := (x / n, x % n);
    assert x == q * n + r;
    if r == n - 1 {
      assert x + 1 == (q + 1) * n;
      Quotient(x + 1, n, q + 1, 0);
    } else {
      Quotient(x + 1, n, q, r + 1);
    }
  }

  lemma AtLeastOnce(d: int, n: nat)
    requires d >= 1
    ensures d * n >= n
  {
  }

  lemma UniqueQuotient(n: nat, q: int, r: int, q': int, r': int)
    requires n > 0 && q * n + r == q' * n + r' && 0 <= r < n && 0 <= r' < n
    ensures q == q' && r == r'
  {
    Difference(n, q, q');
    if q > q' {
      AtLeastOnce(q - q', n);
    } else if q < q' {
      AtLeastOnce(q' - q, n);
    }
  }

  lemma Difference(n: nat, q: int, q': int)
    ensures (q - q') * n == q * n - q' * n && (q' - q) * n == q' * n - q * n
  {
  }

  lemma Quotient(x: nat, n: nat, q: nat, r: nat)
    requires n > 0 && x == q * n + r && r < n
    ensures x / n == q && x % n == r
  {
    UniqueQuotient(n, x / n, x % n, q, r);
  }

  lemma {:induction false} HitsClosedForm(c: nat, m: nat, n: nat, i: nat)
    requires i < n
    ensures Hits(c, m, n, i) + Below(c, n, i) == Below(c + m, n, i)
  {
    if m > 0 {
      HitsClosedForm(c, m - 1, n, i);
      NextResidue(c + m - 1, n);
    }
  }

  /** Without a wrap any two residues are hit equally often, up to one. */
  lemma HitsBalanced(c: nat, m: nat, n: nat, i: nat, j: nat)
    requires i < n && j < n
    ensures Hits(c, m, n, i) <= Hits(c, m, n, j) + 1
  {
    HitsClosedForm(c, m, n, i);
    HitsClosedForm(c, m, n, j);
  }

  // ---- Picks in a run -----------------------------------------------------------------------

  /** The step by which a `next` call takes a cursor value. */
  ghost predicate Picks(s: State, e: Event) {
    && e.Go? && e.call in s.calls && s.calls[e.call].Choosing? && s.calls[e.call].handOut.Holding?
    && s.calls[e.call].handOut.pick.Next? && s.calls[e.call].handOut.snapshot != []
  }

  /** It picks entry `i` of the snapshot it holds. */
  ghost predicate PicksEntry(s: State, e: Event, i: nat) {
    Picks(s, e) && s.cursor % |s.calls[e.call].handOut.snapshot| == i
  }

  ghost function PickCount(run: Run, j: nat, k: nat): nat
    requires run.Valid() && j <= k < |run.states|
    decreases k - j
  {
    if j == k then 0 else PickCount(run, j, k - 1) + One(Picks(run.states[k - 1], run.events[k - 1]))
  }

  /** How often the calls of the window chose entry `i` of the snapshots they held. */
  ghost function Selections(run: Run, j: nat, k: nat, i: nat): nat
    requires run.Valid() && j <= k < |run.states|
    decreases k - j
  {
    if j == k then 0 else Selections(run, j, k - 1, i) + One(PicksEntry(run.states[k - 1], run.events[k - 1], i))
  }

  /** Every `next` of the window chose from this one snapshot. */
  ghost predicate OneSnapshot(run: Run, j: nat, k: nat, snapshot: seq<Endpoint>)
    requires run.Valid() && j <= k < |run.states|
  {
    forall m | j <= m < k && Picks(run.states[m], run.events[m]) ::
      run.states[m].calls[run.events[m].call].handOut.snapshot == snapshot
  }

  /** A pick of entry `i` is a call about to hand out exactly that entry. */
  lemma PickChooses(s: State, e: Event, i: nat)
    requires Enabled(s, e) && PicksEntry(s, e, i)
    ensures i < |s.calls[e.call].handOut.snapshot|
    ensures Step(s, e).calls[e.call] == Choosing(HandingOut(s.calls[e.call].handOut.snapshot[i]))
  {
  }

  lemma StepMovesCursor(s: State, e: Event)
    requires Enabled(s, e) && s.cursor < U64_MODULUS
    ensures Step(s, e).cursor == if Picks(s, e) then (s.cursor + 1) % U64_MODULUS else s.cursor
  {
    hide FindEndpoint, Without, ReadyLanes, RestartLane, WithState, AssignLanes, RotateLanes, RotateResult,
      AssignRotates, ExpireLanes, Deliver, ShutdownResult, ReplyTo, Finish, GoRotation, GoStop;
    if e.Go? && !s.calls[e.call].Choosing? {
      RotationKeepsCursor(s, e.call);
    }
  }

  lemma RotationKeepsCursor(s: State, call: nat)
    requires call in s.calls && CanGo(s, s.calls[call]) && !s.calls[call].Choosing?
    ensures GoCall(s, call).cursor == s.cursor
  {
    hide FindEndpoint, Without;
  }

  /** The cursor is its old value plus the picks, modulo the machine word. */
  lemma {:induction false} CursorCountsPicks(run: Run, j: nat, k: nat)
    requires run.Valid() && j <= k < |run.states|
    ensures run.states[j].cursor < U64_MODULUS
    ensures run.states[k].cursor == (run.states[j].cursor + PickCount(run, j, k)) % U64_MODULUS
    decreases k, k - j
  {
    hide Step, Enabled, Picks, Init;
    if j < k {
      CursorCountsPicks(run, j, k - 1);
      LastStep(run, k);
      StepMovesCursor(run.states[k - 1], run.events[k - 1]);
      NextCursor(run.states[j].cursor + PickCount(run, j, k - 1));
    } else if k > 0 {
      CursorCountsPicks(run, k - 1, k - 1);
      LastStep(run, k);
      StepMovesCursor(run.states[k - 1], run.events[k - 1]);
    } else {
      FirstState(run);
      FreshCursor(run.states[0]);
    }
  }

  lemma NextCursor(x: nat)
    ensures (x % U64_MODULUS + 1) % U64_MODULUS == (x + 1) % U64_MODULUS
  {
  }

  lemma FreshCursor(s: State)
    requires Init(s)
    ensures s.cursor == 0
  {
  }

  /** How many of the `m` cursor values from `c` on, wrapping at the machine word, name entry `i`. */
  function WrappedHits(c: nat, m: nat, n: nat, i: nat): nat
    requires n > 0
  {
    if m == 0 then 0 else WrappedHits(c, m - 1, n, i) + One((c + m - 1) % U64_MODULUS % n == i)
  }

  lemma {:induction false} SelectionsAreHits(run: Run, j: nat, k: nat, snapshot: seq<Endpoint>, i: nat)
    requires run.Valid() && j <= k < |run.states| && i < |snapshot| && OneSnapshot(run, j, k, snapshot)
    ensures Selections(run, j, k, i)
         == WrappedHits(run.states[j].cursor, PickCount(run, j, k), |snapshot|, i)
    decreases k - j
  {
    hide Step;
    if j < k {
      SelectionsAreHits(run, j, k - 1, snapshot, i);
      CursorCountsPicks(run, j, k - 1);
    }
  }

  lemma {:induction false} WrapSplits(c: nat, m: nat, n: nat, i: nat)
    requires n > 0 && c < U64_MODULUS && c + m <= 2 * U64_MODULUS
    ensures WrappedHits(c, m, n, i)
         == if c + m <= U64_MODULUS then Hits(c, m, n, i)
            else Hits(c, U64_MODULUS - c, n, i) + Hits(0, c + m - U64_MODULUS, n, i)
  {
    hide Hits, WrappedHits;
    if m == 0 {
      NoHits(c, n, i);
    } else {
      WrapSplits(c, m - 1, n, i);
      OneMore(c, m, n, i);
      WrapModulo(c + m - 1);
      if c + m > U64_MODULUS {
        OneMore(0, c + m - U64_MODULUS, n, i);
        NoHits(0, n, i);
      }
    }
  }

  lemma NoHits(c: nat, n: nat, i: nat)
    requires n > 0
    ensures Hits(c, 0, n, i) == 0 && WrappedHits(c, 0, n, i) == 0
  {
  }

  lemma OneMore(c: nat, m: nat, n: nat, i: nat)
    requires n > 0 && m > 0
    ensures Hits(c, m, n, i) == Hits(c, m - 1, n, i) + One((c + m - 1) % n == i)
    ensures WrappedHits(c, m, n, i) == WrappedHits(c, m - 1, n, i) + One((c + m - 1) % U64_MODULUS % n == i)
  {
  }

  lemma WrapModulo(x: nat)
    requires x < 2 * U64_MODULUS
    ensures x % U64_MODULUS == if x < U64_MODULUS then x else x - U64_MODULUS
  {
  }

  /**
   Round-robin balance: over any window of `next` calls by any handles that choose from one
   snapshot, any two entries are chosen equally often up to one while the cursor does not wrap,
   and up to two across one wrap of the machine word.
   */
  lemma RoundRobinBalance(run: Run, j: nat, k: nat, snapshot: seq<Endpoint>, i: nat, i': nat)
    requires run.Valid() && j <= k < |run.states| && i < |snapshot| && i' < |snapshot|
    requires OneSnapshot(run, j, k, snapshot)
    ensures run.states[j].cursor + PickCount(run, j, k) <= U64_MODULUS ==>
              Selections(run, j, k, i) <= Selections(run, j, k, i') + 1
    ensures run.states[j].cursor + PickCount(run, j, k) <= 2 * U64_MODULUS ==>
              Selections(run, j, k, i) <= Selections(run, j, k, i') + 2
  {
    var (c, m, n) := (run.states[j].cursor, PickCount(run, j, k), |snapshot|);
    CursorCountsPicks(run, j, k);
    SelectionsAreHits(run, j, k, snapshot, i);
    SelectionsAreHits(run, j, k, snapshot, i');
    if c + m <= 2 * U64_MODULUS {
      WrapSplits(c, m, n, i);
      WrapSplits(c, m, n, i');
      if c + m <= U64_MODULUS {
        HitsBalanced(c, m, n, i, i');
      } else {
        HitsBalanced(c, U64_MODULUS - c, n, i, i');
        HitsBalanced(0, c + m - U64_MODULUS, n, i, i');
      }
    }
  }
}
