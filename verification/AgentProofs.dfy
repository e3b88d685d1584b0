/** Every interleaving of the tool calls agrees with running them one by one. */
module AgentProofs {
  import opened Wrappers
  import opened TraceLog
  import opened AgentLoop

  // ---------------------------------------------------------------------------
  // The serial reference
  // ---------------------------------------------------------------------------

  lemma {:induction false} SerialExtends(cfg: Config, calls: seq<ToolCall>, c: ToolCall, m: nat)
    requires m <= |calls|
    ensures SerialWorld(cfg, calls + [c], m) == SerialWorld(cfg, calls, m)
  {
    if m > 0 { SerialExtends(cfg, calls, c, m - 1); }
  }

  lemma {:induction false} ReadOnlyStretches(cfg: Config, c: ToolCall, active: Option<string>, k: nat, host: Host)
    requires Honest(cfg) && !Exclusive(cfg, c)
    ensures Stretches(cfg, c, active, k, host).1 == host
  {
    if k > 0 { ReadOnlyStretches(cfg, c, active, k - 1, host); }
  }

  lemma ReadOnlyTurn(cfg: Config, c: ToolCall, index: nat, w: World)
    requires Honest(cfg) && !Exclusive(cfg, c)
    ensures Turn(cfg, c, index, w).0 == w
  {
    ReadOnlyStretches(cfg, c, w.active, cfg.steps(c), w.host);
  }

  /** Read-only calls from `i` to `j` leave the serial world as it was at `i`. */
  lemma {:induction false} ReadOnlyRange(cfg: Config, calls: seq<ToolCall>, i: nat, j: nat)
    requires Honest(cfg) && i <= j <= |calls|
    requires forall q :: i <= q < j ==> !Exclusive(cfg, calls[q])
    ensures SerialWorld(cfg, calls, j) == SerialWorld(cfg, calls, i)
  {
    if i < j {
      ReadOnlyRange(cfg, calls, i, j - 1);
      ReadOnlyTurn(cfg, calls[j - 1], j, SerialWorld(cfg, calls, j - 1));
    }
  }

  lemma {:induction false} OverBudgetRange(cfg: Config, calls: seq<ToolCall>, j: nat)
    requires cfg.maxTools <= j <= |calls|
    ensures SerialWorld(cfg, calls, j) == SerialWorld(cfg, calls, cfg.maxTools)
  {
    if cfg.maxTools < j { OverBudgetRange(cfg, calls, j - 1); }
  }

  // ---------------------------------------------------------------------------
  // Consequences of the barrier
  // ---------------------------------------------------------------------------

  /** A waiting call whose events are all set stands behind no unended conflict. */
  lemma GateOpens(cfg: Config, s: State, p: nat)
    requires Shape(cfg, s) && Guarded(cfg, s) && Barrier(cfg, s)
    requires Enabled(cfg, s, Enter(p))
    ensures forall q: nat :: q < p && Conflict(cfg, s, q, p) ==> IsEnded(s, q)
  {
    forall q: nat | q < p && Conflict(cfg, s, q, p)
      ensures IsEnded(s, q)
    {
      assert Covered(cfg, s, s.phases[p].waits, q);
      if !IsEnded(s, q) && q !in s.phases[p].waits {
        var e :| e in s.phases[p].waits && q < e < |s.calls| && Exclusive(cfg, s.calls[e]);
        assert e < p && p < cfg.maxTools;
        assert IsEnded(s, e) && Begun(cfg, s, e);
        assert Conflict(cfg, s, q, e);
      }
    }
  }

  /** While a read-only call is running, no call that runs alone is. */
  lemma ReadRunsQuietly(cfg: Config, s: State, p: nat)
    requires Shape(cfg, s) && Barrier(cfg, s)
    requires p < |s.phases| && s.phases[p].Running? && !Exclusive(cfg, s.calls[p])
    ensures Quiet(cfg, s, p)
  {
    assert Begun(cfg, s, p) && !IsEnded(s, p);
    forall q: nat | q < |s.calls| && Exclusive(cfg, s.calls[q])
      ensures q < p ==> IsEnded(s, q)
      ensures q >= p ==> !Begun(cfg, s, q)
    {
      if q < p { assert Conflict(cfg, s, q, p); } else { assert Conflict(cfg, s, p, q); }
    }
  }

  /** A call that enters, and stands alone among the calls before it, finds the world
      the serial order gives it. */
  lemma WorldAtEntry(cfg: Config, s: State, p: nat)
    requires Honest(cfg) && Inv(cfg, s) && Enabled(cfg, s, Enter(p))
    ensures p < cfg.maxTools && s.world == SerialWorld(cfg, s.calls, p)
  {
    GateOpens(cfg, s, p);
    assert !IsEnded(s, p);
    forall q: nat | q < |s.calls| && Exclusive(cfg, s.calls[q])
      ensures q < p ==> IsEnded(s, q)
      ensures q >= p ==> !Begun(cfg, s, q)
    {
      if q < p { assert Conflict(cfg, s, q, p); } else { assert Conflict(cfg, s, p, q); }
    }
    assert Quiet(cfg, s, p);
  }

  // ---------------------------------------------------------------------------
  // Start
  // ---------------------------------------------------------------------------

  lemma OldWaitsCover(cfg: Config, s: State, c: ToolCall, p: nat, q: nat)
    requires Inv(cfg, s) && q < p < |s.phases| && s.phases[p].Waiting? && Conflict(cfg, s, q, p)
    ensures var s' := DoStart(cfg, s, c);
            Shape(cfg, s') && q < |s'.calls| && Covered(cfg, s', s.phases[p].waits, q)
  {
    var s', waits := DoStart(cfg, s, c), s.phases[p].waits;
    assert s'.phases[q] == s.phases[q];
    assert Covered(cfg, s, waits, q);
    if !IsEnded(s, q) && q !in waits {
      var e :| e in waits && q < e < |s.calls| && Exclusive(cfg, s.calls[e]);
      assert Exclusive(cfg, s'.calls[e]);
    }
  }

  lemma StartKeepsGuarded(cfg: Config, s: State, c: ToolCall)
    requires Inv(cfg, s)
    ensures var s' := DoStart(cfg, s, c); Shape(cfg, s') && Guarded(cfg, s')
  {
    var s' := DoStart(cfg, s, c);
    var n := |s.calls|;
    forall p | 0 <= p < |s'.phases| && s'.phases[p].Waiting?
      ensures forall e :: e in s'.phases[p].waits ==> e < p
      ensures forall q :: 0 <= q < p && Conflict(cfg, s', q, p) ==> Covered(cfg, s', s'.phases[p].waits, q)
    {
      if p < n { assert s'.phases[p] == s.phases[p]; }
      forall q | 0 <= q < p && Conflict(cfg, s', q, p)
        ensures Covered(cfg, s', s'.phases[p].waits, q)
      {
        if p < n {
          assert Conflict(cfg, s, q, p);
          OldWaitsCover(cfg, s, c, p, q);
        } else {
          NewWaitsCover(cfg, s, c, q);
        }
      }
    }
  }

  lemma StartKeepsGates(cfg: Config, s: State, c: ToolCall)
    requires Inv(cfg, s)
    ensures var s' := DoStart(cfg, s, c);
            Shape(cfg, s') && Guarded(cfg, s') && Barrier(cfg, s') && Frontier(cfg, s')
  {
    var s' := DoStart(cfg, s, c);
    var n := |s.calls|;
    StartKeepsGuarded(cfg, s, c);
    forall q: nat
      ensures q < n ==> IsEnded(s', q) == IsEnded(s, q) && s'.calls[q] == s.calls[q] && s'.phases[q] == s.phases[q]
    {}
    forall q: nat, p: nat | q < p < |s'.calls| && Begun(cfg, s', p) && Conflict(cfg, s', q, p)
      ensures IsEnded(s', q)
    {
      assert p < n;
      assert Begun(cfg, s, p) && Conflict(cfg, s, q, p);
    }
  }

  lemma NewWaitsCover(cfg: Config, s: State, c: ToolCall, q: nat)
    requires Inv(cfg, s) && q < |s.calls| < cfg.maxTools
    requires Exclusive(cfg, s.calls[q]) || Exclusive(cfg, c)
    ensures Covered(cfg, DoStart(cfg, s, c), Waits(cfg, s, c), q)
  {
    var s' := DoStart(cfg, s, c);
    assert s'.calls[q] == s.calls[q] && IsEnded(s', q) == IsEnded(s, q);
    if s.alone.Some? && q < s.alone.value {
      assert Exclusive(cfg, s'.calls[s.alone.value]) && s.alone.value in Waits(cfg, s, c);
    }
  }

  lemma StartKeepsWorld(cfg: Config, s: State, c: ToolCall)
    requires Honest(cfg) && Inv(cfg, s)
    ensures var s' := DoStart(cfg, s, c);
            Shape(cfg, s') && AllOnTrack(cfg, s') && WorldAgrees(cfg, s')
  {
    var s' := DoStart(cfg, s, c);
    var n := |s.calls|;
    forall q: nat
      ensures q < n ==> s'.calls[q] == s.calls[q] && s'.phases[q] == s.phases[q]
    {}
    forall p | 0 <= p < |s'.phases| && s'.phases[p].Running?
      ensures OnTrack(cfg, s', p)
    {
      assert s'.phases[p] == s.phases[p] && OnTrack(cfg, s, p);
      SerialExtends(cfg, s.calls, c, p);
    }
    forall j: nat | j <= |s'.calls| && j <= cfg.maxTools && Quiet(cfg, s', j)
      ensures s'.world == SerialWorld(cfg, s'.calls, j)
    {
      var i := if j <= n then j else n;
      forall q: nat | q < n && Exclusive(cfg, s.calls[q])
        ensures q < i ==> IsEnded(s, q)
        ensures q >= i ==> !Begun(cfg, s, q)
      {
        assert s'.calls[q] == s.calls[q];
      }
      assert Quiet(cfg, s, i);
      SerialExtends(cfg, s.calls, c, i);
      if j == n + 1 {
        assert s'.calls[n] == c;
        assert !Exclusive(cfg, c);
        ReadOnlyRange(cfg, s'.calls, n, j);
      }
    }
  }

  /** `s'` is `s` with one more call started. */
  ghost predicate Started(cfg: Config, s: State, s': State, c: ToolCall) {
    && Shape(cfg, s) && Shape(cfg, s')
    && s'.calls == s.calls + [c]
    && |s'.phases| == |s.phases| + 1
    && s'.phases[..|s.phases|] == s.phases
    && (s'.phases[|s.phases|].Ended? <==> |s.calls| >= cfg.maxTools)
  }

  lemma StartedAt(cfg: Config, s: State, s': State, c: ToolCall, p: nat)
    requires Started(cfg, s, s', c) && p < |s.calls|
    ensures s'.phases[p] == s.phases[p] && s'.calls[p] == s.calls[p]
    ensures SerialEvent(cfg, s'.calls, p) == SerialEvent(cfg, s.calls, p)
    ensures SerialReply(cfg, s'.calls, p) == SerialReply(cfg, s.calls, p)
  {
    assert s'.phases[..|s.phases|][p] == s.phases[p];
    SerialExtends(cfg, s.calls, c, p);
  }

  lemma ExpectedEntry(cfg: Config, s: State, k: nat)
    requires Shape(cfg, s)
    ensures k in Expected(cfg, s) <==> 1 <= k <= |s.calls| && s.phases[k - 1].Ended?
    ensures k in Expected(cfg, s) ==>
              Expected(cfg, s)[k] == if k <= cfg.maxTools then Some(SerialEvent(cfg, s.calls, k - 1)) else None
  {
  }

  lemma ExpectedSameEntry(cfg: Config, s: State, s': State, c: ToolCall, k: nat)
    requires Started(cfg, s, s', c) && k != |s.calls| + 1
    ensures k in Expected(cfg, s') <==> k in Expected(cfg, s)
    ensures k in Expected(cfg, s) ==> Expected(cfg, s')[k] == Expected(cfg, s)[k]
  {
    ExpectedEntry(cfg, s, k);
    ExpectedEntry(cfg, s', k);
    if 1 <= k <= |s.calls| { StartedAt(cfg, s, s', c, k - 1); }
  }

  /** Starting a call adds its end to the expected log only if it is over budget. */
  lemma ExpectedAfterStart(cfg: Config, s: State, s': State, c: ToolCall)
    requires Started(cfg, s, s', c)
    ensures |s.calls| + 1 !in Expected(cfg, s)
    ensures Expected(cfg, s') ==
            if |s.calls| >= cfg.maxTools then Expected(cfg, s)[|s.calls| + 1 := None] else Expected(cfg, s)
  {
    var n := |s.calls|;
    var was, now := Expected(cfg, s), Expected(cfg, s');
    ExpectedEntry(cfg, s, n + 1);
    ExpectedEntry(cfg, s', n + 1);
    forall k: nat | k != n + 1
      ensures k in now <==> k in was
      ensures k in was ==> now[k] == was[k]
    {
      ExpectedSameEntry(cfg, s, s', c, k);
    }
  }

  lemma StartKeepsReplies(cfg: Config, s: State, s': State, c: ToolCall)
    requires Started(cfg, s, s', c) && RepliesAgree(cfg, s)
    requires |s.calls| >= cfg.maxTools ==> s'.phases[|s.phases|] == Phase.Ended(None)
    ensures RepliesAgree(cfg, s')
  {
    forall p | 0 <= p < |s'.phases| && s'.phases[p].Ended?
      ensures s'.phases[p].reply == SerialReply(cfg, s'.calls, p)
    {
      if p < |s.calls| { StartedAt(cfg, s, s', c, p); }
    }
  }

  lemma StartKeepsLog(cfg: Config, s: State, c: ToolCall)
    requires Inv(cfg, s)
    ensures var s' := DoStart(cfg, s, c);
            Shape(cfg, s') && Mirrors(s'.log, Expected(cfg, s')) && RepliesAgree(cfg, s')
  {
    var s' := DoStart(cfg, s, c);
    ExpectedAfterStart(cfg, s, s', c);
    StartKeepsReplies(cfg, s, s', c);
    if |s.calls| >= cfg.maxTools { EndedMirrors(s.log, Expected(cfg, s), |s.calls| + 1); }
  }

  // ---------------------------------------------------------------------------
  // Steps that move one call: what carries over
  // ---------------------------------------------------------------------------

  /** Only call `p` moved; it had not ended and does not wait any more. */
  ghost predicate Moved(s: State, s': State, p: nat) {
    && p < |s.phases| == |s'.phases|
    && s'.calls == s.calls && s'.alone == s.alone && s'.beside == s.beside
    && !s.phases[p].Ended? && !s'.phases[p].Waiting?
    && s'.phases == s.phases[p := s'.phases[p]]
  }

  lemma MoveKeepsGates(cfg: Config, s: State, s': State, p: nat)
    requires Inv(cfg, s) && Moved(s, s', p)
    requires forall q: nat :: q < p && Conflict(cfg, s, q, p) ==> IsEnded(s, q)
    ensures Shape(cfg, s') && Guarded(cfg, s') && Barrier(cfg, s') && Frontier(cfg, s')
  {
    forall q: nat
      ensures q < |s.phases| && IsEnded(s, q) ==> IsEnded(s', q)
      ensures q < |s.phases| && q != p ==> s'.phases[q] == s.phases[q]
    {}
    forall r | 0 <= r < |s'.phases| && s'.phases[r].Waiting?
      ensures forall e :: e in s'.phases[r].waits ==> e < r
      ensures forall q :: 0 <= q < r && Conflict(cfg, s', q, r) ==> Covered(cfg, s', s'.phases[r].waits, q)
    {
      assert r != p && s'.phases[r] == s.phases[r];
      forall q | 0 <= q < r && Conflict(cfg, s', q, r)
        ensures Covered(cfg, s', s'.phases[r].waits, q)
      {
        assert Conflict(cfg, s, q, r) && Covered(cfg, s, s.phases[r].waits, q);
      }
    }
    forall q: nat, r: nat | q < r < |s'.calls| && Begun(cfg, s', r) && Conflict(cfg, s', q, r)
      ensures IsEnded(s', q)
    {
      assert Conflict(cfg, s, q, r);
      if r != p { assert Begun(cfg, s, r); }
      assert IsEnded(s, q);
    }
  }

  /** A step of a read-only call leaves the world, and the other calls on track. */
  lemma ReadMoveKeepsWorld(cfg: Config, s: State, s': State, p: nat)
    requires Inv(cfg, s) && Moved(s, s', p) && s'.world == s.world
    requires !Exclusive(cfg, s.calls[p])
    requires s'.phases[p].Running? ==> OnTrack(cfg, s', p)
    ensures AllOnTrack(cfg, s') && WorldAgrees(cfg, s')
  {
    forall r | 0 <= r < |s'.phases| && s'.phases[r].Running?
      ensures OnTrack(cfg, s', r)
    {
      if r != p { assert s'.phases[r] == s.phases[r] && OnTrack(cfg, s, r); }
    }
    forall j: nat | j <= |s'.calls| && j <= cfg.maxTools && Quiet(cfg, s', j)
      ensures s'.world == SerialWorld(cfg, s'.calls, j)
    {
      assert Quiet(cfg, s, j) by {
        forall q: nat | q < |s.calls| && Exclusive(cfg, s.calls[q])
          ensures q < j ==> IsEnded(s, q)
          ensures q >= j ==> !Begun(cfg, s, q)
        {
          assert q != p && s'.calls[q] == s.calls[q] && s'.phases[q] == s.phases[q];
        }
      }
    }
  }

  /** A call that runs alone and goes on running: nothing else is running, and no
      point of the serial order is claimed for the world until it ends. */
  lemma AloneMoveKeepsWorld(cfg: Config, s: State, s': State, p: nat)
    requires Inv(cfg, s) && Moved(s, s', p) && p < cfg.maxTools
    requires Exclusive(cfg, s.calls[p])
    requires forall q: nat :: q < p ==> IsEnded(s, q)
    requires s'.phases[p].Running? && OnTrack(cfg, s', p)
    ensures AllOnTrack(cfg, s') && WorldAgrees(cfg, s')
  {
    NothingElseRuns(cfg, s, p);
    assert forall r: nat :: r < |s.phases| && r != p ==> s'.phases[r] == s.phases[r];
    assert s'.calls[p] == s.calls[p] && Begun(cfg, s', p) && !IsEnded(s', p);
    assert forall j: nat :: j <= |s'.calls| ==> !Quiet(cfg, s', j);
  }

  lemma NothingElseRuns(cfg: Config, s: State, p: nat)
    requires Inv(cfg, s) && p < |s.phases| && p < cfg.maxTools
    requires Exclusive(cfg, s.calls[p]) && !s.phases[p].Ended?
    requires forall q: nat :: q < p ==> IsEnded(s, q)
    ensures forall q: nat :: q < |s.phases| && q != p ==> !s.phases[q].Running?
    ensures forall q: nat :: p < q < |s.phases| ==> !Begun(cfg, s, q)
  {
    assert !IsEnded(s, p);
    forall q: nat | p < q < |s.phases|
      ensures !Begun(cfg, s, q)
    {
      assert Conflict(cfg, s, p, q);
    }
    forall q: nat | q < |s.phases| && q != p
      ensures !s.phases[q].Running?
    {
      if q < p { assert IsEnded(s, q); } else { assert !Begun(cfg, s, q); }
    }
  }

  /** Once call `p` has run alone, only read-only calls can lie between it and a frontier
      that no exclusive call has passed. */
  lemma OnlyReadsBeyond(cfg: Config, s: State, s': State, p: nat, j: nat)
    requires Shape(cfg, s) && Shape(cfg, s') && Moved(s, s', p) && p < cfg.maxTools && p < |s.calls|
    requires Exclusive(cfg, s.calls[p]) && s'.phases[p].Ended?
    requires forall q: nat :: p < q < |s.phases| ==> !Begun(cfg, s, q)
    requires j <= |s'.calls| && j <= cfg.maxTools && Quiet(cfg, s', j)
    ensures j > p
    ensures forall q :: p + 1 <= q < j ==> !Exclusive(cfg, s.calls[q])
  {
    assert s'.calls[p] == s.calls[p] && Begun(cfg, s', p);
    forall q | p + 1 <= q < j
      ensures !Exclusive(cfg, s.calls[q])
    {
      assert s'.calls[q] == s.calls[q] && s'.phases[q] == s.phases[q];
      assert !Begun(cfg, s, q);
    }
  }

  lemma WorldBeyond(cfg: Config, s: State, s': State, p: nat, j: nat)
    requires Honest(cfg) && Shape(cfg, s) && Shape(cfg, s') && Moved(s, s', p) && p < cfg.maxTools && p < |s.calls|
    requires Exclusive(cfg, s.calls[p]) && s'.phases[p].Ended? && s'.world == SerialWorld(cfg, s.calls, p + 1)
    requires forall q: nat :: p < q < |s.phases| ==> !Begun(cfg, s, q)
    requires j <= |s'.calls| && j <= cfg.maxTools && Quiet(cfg, s', j)
    ensures s'.world == SerialWorld(cfg, s'.calls, j)
  {
    OnlyReadsBeyond(cfg, s, s', p, j);
    ReadOnlyRange(cfg, s.calls, p + 1, j);
  }

  /** A call that runs alone and ends leaves the serial world after it. */
  lemma AloneEndKeepsWorld(cfg: Config, s: State, s': State, p: nat)
    requires Honest(cfg) && Inv(cfg, s) && Moved(s, s', p) && p < cfg.maxTools
    requires Exclusive(cfg, s.calls[p])
    requires forall q: nat :: q < p ==> IsEnded(s, q)
    requires s'.phases[p].Ended? && s'.world == SerialWorld(cfg, s.calls, p + 1)
    ensures AllOnTrack(cfg, s') && WorldAgrees(cfg, s')
  {
    NothingElseRuns(cfg, s, p);
    assert forall r: nat :: r < |s.phases| && r != p ==> s'.phases[r] == s.phases[r];
    forall j: nat | j <= |s'.calls| && j <= cfg.maxTools && Quiet(cfg, s', j)
      ensures s'.world == SerialWorld(cfg, s'.calls, j)
    {
      WorldBeyond(cfg, s, s', p, j);
    }
  }

  lemma ExpectedStays(cfg: Config, s: State, s': State, p: nat)
    requires Shape(cfg, s) && Shape(cfg, s') && Moved(s, s', p) && s'.phases[p].Running?
    ensures Expected(cfg, s') == Expected(cfg, s)
  {
    SameEndings(cfg, s, s', p);
    assert forall k: nat :: Shut(s', k) == Shut(s, k);
  }

  lemma MoveKeepsLog(cfg: Config, s: State, s': State, p: nat)
    requires Shape(cfg, s) && Shape(cfg, s') && Mirrors(s.log, Expected(cfg, s)) && RepliesAgree(cfg, s)
    requires Moved(s, s', p) && s'.phases[p].Running? && s'.log == s.log
    ensures Mirrors(s'.log, Expected(cfg, s')) && RepliesAgree(cfg, s')
  {
    ExpectedStays(cfg, s, s', p);
    forall r | 0 <= r < |s'.phases| && s'.phases[r].Ended?
      ensures s'.phases[r].reply == SerialReply(cfg, s'.calls, r)
    {
      assert r != p && s'.phases[r] == s.phases[r];
    }
  }

  lemma SameEndings(cfg: Config, s: State, s': State, p: nat)
    requires Shape(cfg, s) && Shape(cfg, s') && Moved(s, s', p)
    ensures forall k: nat :: k != p + 1 ==> Shut(s', k) == Shut(s, k)
    ensures Shut(s', p + 1) == s'.phases[p].Ended? && !Shut(s, p + 1)
  {
    forall k: nat | k != p + 1
      ensures Shut(s', k) == Shut(s, k)
    {
      if 0 < k <= |s.phases| { assert s'.phases[k - 1] == s.phases[k - 1]; }
    }
  }

  lemma ExpectedAfterClose(cfg: Config, s: State, s': State, p: nat)
    requires Shape(cfg, s) && Shape(cfg, s') && Moved(s, s', p) && p < cfg.maxTools && s'.phases[p].Ended?
    ensures p + 1 !in Expected(cfg, s)
    ensures Expected(cfg, s') == Expected(cfg, s)[p + 1 := Some(SerialEvent(cfg, s.calls, p))]
  {
    SameEndings(cfg, s, s', p);
  }

  lemma CloseKeepsReplies(cfg: Config, s: State, s': State, p: nat)
    requires Shape(cfg, s) && Shape(cfg, s') && RepliesAgree(cfg, s) && Moved(s, s', p)
    requires s'.phases[p] == Phase.Ended(SerialReply(cfg, s.calls, p))
    ensures RepliesAgree(cfg, s')
  {
    forall q | 0 <= q < |s'.phases| && s'.phases[q].Ended?
      ensures s'.phases[q].reply == SerialReply(cfg, s'.calls, q)
    {
      if q != p { assert s'.phases[q] == s.phases[q]; }
    }
  }

  lemma CloseMoves(cfg: Config, s: State, p: nat, world: World, event: Event, r: Reply)
    requires Shape(cfg, s) && p < |s.phases| && p < cfg.maxTools && !s.phases[p].Ended?
    ensures var s' := Close(s, p, world, event, r);
            Shape(cfg, s') && Moved(s, s', p) && s'.phases[p] == Phase.Ended(Some(r))
  {
  }

  lemma CloseKeepsLog(cfg: Config, s: State, p: nat, world: World, event: Event, r: Reply)
    requires Shape(cfg, s) && Mirrors(s.log, Expected(cfg, s)) && RepliesAgree(cfg, s)
    requires p < |s.phases| && p < cfg.maxTools && !s.phases[p].Ended?
    requires Some(r) == SerialReply(cfg, s.calls, p) && event == SerialEvent(cfg, s.calls, p)
    ensures var s' := Close(s, p, world, event, r);
            Shape(cfg, s') && Mirrors(s'.log, Expected(cfg, s')) && RepliesAgree(cfg, s')
  {
    var s' := Close(s, p, world, event, r);
    CloseMoves(cfg, s, p, world, event, r);
    CloseKeepsReplies(cfg, s, s', p);
    CloseKeepsMirror(cfg, s, s', p, event);
  }

  lemma CloseKeepsMirror(cfg: Config, s: State, s': State, p: nat, event: Event)
    requires Shape(cfg, s) && Shape(cfg, s') && Moved(s, s', p) && p < cfg.maxTools && s'.phases[p].Ended?
    requires Mirrors(s.log, Expected(cfg, s)) && event == SerialEvent(cfg, s.calls, p)
    requires s'.log == TraceLog.Ended(Observed(s.log, event), p + 1)
    ensures Mirrors(s'.log, Expected(cfg, s'))
  {
    ExpectedAfterClose(cfg, s, s', p);
    EventIndex(cfg, s.calls, p);
    ClosedLogMirrors(cfg, s, s', event);
  }

  lemma ClosedLogMirrors(cfg: Config, s: State, s': State, event: Event)
    requires Shape(cfg, s) && Shape(cfg, s') && Mirrors(s.log, Expected(cfg, s))
    requires event.index > 0 && event.index !in Expected(cfg, s)
    requires s'.log == TraceLog.Ended(Observed(s.log, event), event.index)
    requires Expected(cfg, s') == Expected(cfg, s)[event.index := Some(event)]
    ensures Mirrors(s'.log, Expected(cfg, s'))
  {
    ClosedMirrors(s.log, Expected(cfg, s), event);
  }

  lemma EventIndex(cfg: Config, calls: seq<ToolCall>, p: nat)
    requires p < |calls|
    ensures SerialEvent(cfg, calls, p).index == p + 1
  {
  }

  // ---------------------------------------------------------------------------
  // Each step keeps the invariant
  // ---------------------------------------------------------------------------

  lemma EnterKeeps(cfg: Config, s: State, p: nat)
    requires Honest(cfg) && Inv(cfg, s) && Enabled(cfg, s, Enter(p))
    ensures Inv(cfg, DoEnter(cfg, s, p))
  {
    var s' := DoEnter(cfg, s, p);
    var c, w := s.calls[p], s.world;
    GateOpens(cfg, s, p);
    WorldAtEntry(cfg, s, p);
    MoveKeepsGates(cfg, s, s', p);
    if Exclusive(cfg, c) {
      forall q: nat | q < p ensures IsEnded(s, q) { assert Conflict(cfg, s, q, p); }
    }
    if Immediate(cfg, c, w.active) {
      CloseKeepsLog(cfg, s, p, s'.world, SerialEvent(cfg, s.calls, p), ImmediateResult(cfg, c, w.active).1);
      if Exclusive(cfg, c) {
        AloneEndKeepsWorld(cfg, s, s', p);
      } else {
        assert s'.world == w;
        ReadMoveKeepsWorld(cfg, s, s', p);
      }
    } else {
      MoveKeepsLog(cfg, s, s', p);
      assert OnTrack(cfg, s', p);
      if Exclusive(cfg, c) { AloneMoveKeepsWorld(cfg, s, s', p); } else { ReadMoveKeepsWorld(cfg, s, s', p); }
    }
  }

  /** A running call has nothing unended and conflicting before it. */
  lemma RunningIsPastGate(cfg: Config, s: State, p: nat)
    requires Inv(cfg, s) && p < |s.phases| && s.phases[p].Running?
    ensures p < cfg.maxTools
    ensures forall q: nat :: q < p && Conflict(cfg, s, q, p) ==> IsEnded(s, q)
    ensures Exclusive(cfg, s.calls[p]) ==> forall q: nat :: q < p ==> IsEnded(s, q)
  {
    assert Begun(cfg, s, p);
    forall q: nat | q < p && Exclusive(cfg, s.calls[p])
      ensures IsEnded(s, q)
    {
      assert Conflict(cfg, s, q, p);
    }
  }

  lemma StretchKeeps(cfg: Config, s: State, p: nat)
    requires Honest(cfg) && Inv(cfg, s) && Enabled(cfg, s, Stretch(p))
    ensures Inv(cfg, DoStretch(cfg, s, p))
  {
    var s' := DoStretch(cfg, s, p);
    assert OnTrack(cfg, s, p);
    RunningIsPastGate(cfg, s, p);
    MoveKeepsGates(cfg, s, s', p);
    MoveKeepsLog(cfg, s, s', p);
    if Exclusive(cfg, s.calls[p]) {
      assert OnTrack(cfg, s', p);
      AloneMoveKeepsWorld(cfg, s, s', p);
    } else {
      ReadRunsQuietly(cfg, s, p);
      var Running(before, scratch, pc) := s.phases[p];
      ReadOnlyStretches(cfg, s.calls[p], before, pc, s.world.host);
      assert OnTrack(cfg, s', p);
      ReadMoveKeepsWorld(cfg, s, s', p);
    }
  }

  lemma FinishKeeps(cfg: Config, s: State, p: nat)
    requires Honest(cfg) && Inv(cfg, s) && Enabled(cfg, s, Finish(p))
    ensures Inv(cfg, DoFinish(cfg, s, p))
  {
    var s' := DoFinish(cfg, s, p);
    assert OnTrack(cfg, s, p);
    RunningIsPastGate(cfg, s, p);
    MoveKeepsGates(cfg, s, s', p);
    if Exclusive(cfg, s.calls[p]) {
      CloseKeepsLog(cfg, s, p, s.world, SerialEvent(cfg, s.calls, p), s.phases[p].scratch.reply);
      AloneEndKeepsWorld(cfg, s, s', p);
    } else {
      ReadRunsQuietly(cfg, s, p);
      CloseKeepsLog(cfg, s, p, s.world, SerialEvent(cfg, s.calls, p), s.phases[p].scratch.reply);
      ReadMoveKeepsWorld(cfg, s, s', p);
    }
  }

  lemma StepKeeps(cfg: Config, s: State, a: Action)
    requires Honest(cfg) && Inv(cfg, s) && Enabled(cfg, s, a)
    ensures Inv(cfg, Apply(cfg, s, a))
  {
    match a
    case Start(c) =>
      StartKeepsGates(cfg, s, c);
      StartKeepsWorld(cfg, s, c);
      StartKeepsLog(cfg, s, c);
    case Enter(p) => EnterKeeps(cfg, s, p);
    case Stretch(p) => StretchKeeps(cfg, s, p);
    case Finish(p) => FinishKeeps(cfg, s, p);
  }

  lemma {:induction false} RunKeeps(cfg: Config, s: State, run: seq<Action>)
    requires Honest(cfg) && Inv(cfg, s) && Legal(cfg, s, run)
    ensures Inv(cfg, After(cfg, s, run))
    decreases |run|
  {
    if run != [] {
      StepKeeps(cfg, s, run[0]);
      RunKeeps(cfg, Apply(cfg, s, run[0]), run[1..]);
    }
  }

  lemma InitialHolds(cfg: Config)
    ensures Inv(cfg, Initial(cfg))
  {
    var s := Initial(cfg);
    assert Expected(cfg, s) == map[];
  }

  // ---------------------------------------------------------------------------
  // Main results
  // ---------------------------------------------------------------------------

  lemma {:induction false} ExpectedIsSerial(cfg: Config, s: State, m: nat)
    requires Shape(cfg, s) && m <= |s.calls| && Closed(Expected(cfg, s), m)
    ensures Events(Expected(cfg, s), m) == SerialTrace(cfg, s.calls, m)
  {
    if m > 0 {
      assert m in Expected(cfg, s);
      ExpectedIsSerial(cfg, s, m - 1);
    }
  }

  /** At every point of every interleaving the trace is the serial trace of the calls
      released so far, in index order, and the sink has received the same. */
  lemma TraceIsSerialPrefix(cfg: Config, run: seq<Action>)
    requires Honest(cfg) && Legal(cfg, Initial(cfg), run)
    ensures var s := After(cfg, Initial(cfg), run);
            && s.log.traced <= |s.calls|
            && s.log.trace == SerialTrace(cfg, s.calls, s.log.traced)
            && s.log.sink == s.log.trace
            && Ascending(s.log.trace)
  {
    InitialHolds(cfg);
    RunKeeps(cfg, Initial(cfg), run);
    var s := After(cfg, Initial(cfg), run);
    var ledger := Expected(cfg, s);
    assert s.log.traced == 0 || s.log.traced in ledger;
    ExpectedIsSerial(cfg, s, s.log.traced);
    TraceIsOrdered(s.log, ledger);
  }

  ghost predicate AllEnded(s: State) {
    forall p: nat {:trigger IsEnded(s, p)} :: p < |s.calls| ==> IsEnded(s, p)
  }

  lemma EndedWorld(cfg: Config, s: State)
    requires Honest(cfg) && Shape(cfg, s) && WorldAgrees(cfg, s) && AllEnded(s)
    ensures s.world == SerialWorld(cfg, s.calls, |s.calls|)
  {
    var n := |s.calls|;
    var j := if n <= cfg.maxTools then n else cfg.maxTools;
    forall q: nat | q < n ensures IsEnded(s, q) && (q >= j ==> !Begun(cfg, s, q)) {
    }
    assert Quiet(cfg, s, j);
    if n > j { OverBudgetRange(cfg, s.calls, n); }
  }

  lemma EndedTrace(cfg: Config, s: State)
    requires Shape(cfg, s) && Mirrors(s.log, Expected(cfg, s)) && AllEnded(s)
    ensures s.log.traced == |s.calls| && s.log.trace == SerialTrace(cfg, s.calls, |s.calls|) == s.log.sink
  {
    var n, ledger := |s.calls|, Expected(cfg, s);
    forall k: nat
      ensures k in ledger <==> 1 <= k <= n
    {
      if 1 <= k <= n { assert IsEnded(s, k - 1) && Shut(s, k); }
    }
    AllClosedAllTraced(s.log, ledger, n);
    ExpectedIsSerial(cfg, s, n);
  }

  lemma EndedReplies(cfg: Config, s: State, p: nat)
    requires Shape(cfg, s) && RepliesAgree(cfg, s) && AllEnded(s) && p < |s.calls|
    ensures s.phases[p] == Phase.Ended(SerialReply(cfg, s.calls, p))
  {
    assert IsEnded(s, p);
  }

  /** Every interleaving in which all started calls have ended gives the trace, the
      replies, the active skill and the host's state of running the calls one by one in
      index order, and every call has been traced. */
  lemma InterleavingIsSerial(cfg: Config, run: seq<Action>)
    requires Honest(cfg) && Legal(cfg, Initial(cfg), run) && AllEnded(After(cfg, Initial(cfg), run))
    ensures var s := After(cfg, Initial(cfg), run);
            var n := |s.calls|;
            && s.world == SerialWorld(cfg, s.calls, n)
            && s.log.traced == n
            && s.log.trace == SerialTrace(cfg, s.calls, n) == s.log.sink
            && |s.phases| == n
            && forall p :: 0 <= p < n ==> s.phases[p] == Phase.Ended(SerialReply(cfg, s.calls, p))
  {
    InitialHolds(cfg);
    RunKeeps(cfg, Initial(cfg), run);
    var s := After(cfg, Initial(cfg), run);
    EndedWorld(cfg, s);
    EndedTrace(cfg, s);
    forall p | 0 <= p < |s.calls|
      ensures s.phases[p] == Phase.Ended(SerialReply(cfg, s.calls, p))
    {
      EndedReplies(cfg, s, p);
    }
  }

  /** Of two calls at least one of which is not read-only, the later one's body starts
      only after the earlier one has ended. */
  lemma BodiesDoNotOverlap(cfg: Config, run: seq<Action>, i: nat, j: nat)
    requires Honest(cfg) && Legal(cfg, Initial(cfg), run)
    requires var s := After(cfg, Initial(cfg), run);
             |s.phases| == |s.calls| && i < j < |s.calls| && Conflict(cfg, s, i, j) && Begun(cfg, s, j)
    ensures IsEnded(After(cfg, Initial(cfg), run), i)
  {
    InitialHolds(cfg);
    RunKeeps(cfg, Initial(cfg), run);
  }

  /** While a call that is not read-only runs, no other call does. */
  lemma ExclusiveRunsAlone(cfg: Config, run: seq<Action>, p: nat, q: nat)
    requires Honest(cfg) && Legal(cfg, Initial(cfg), run)
    requires var s := After(cfg, Initial(cfg), run);
             p < |s.phases| && p < |s.calls| && s.phases[p].Running? && Exclusive(cfg, s.calls[p])
    requires q < |After(cfg, Initial(cfg), run).phases| && q != p
    ensures !After(cfg, Initial(cfg), run).phases[q].Running?
  {
    InitialHolds(cfg);
    RunKeeps(cfg, Initial(cfg), run);
    var s := After(cfg, Initial(cfg), run);
    assert Begun(cfg, s, p) && !IsEnded(s, p);
    assert Conflict(cfg, s, q, p) && Conflict(cfg, s, p, q);
    assert IsEnded(s, q) || !Begun(cfg, s, q);
  }

  /** The step the lowest unended call can take. */
  function NextAction(cfg: Config, s: State, p: nat): Action
    requires p < |s.phases| == |s.calls|
  {
    match s.phases[p]
    case Running(_, _, pc) => if pc < cfg.steps(s.calls[p]) then Stretch(p) else Finish(p)
    case _ => Enter(p)
  }

  /** While any call is unended the lowest one is never blocked: the waits cannot
      deadlock, with `beside` pruned and calls over the budget among the rest. */
  lemma LowestCallIsNeverBlocked(cfg: Config, run: seq<Action>, p: nat)
    requires Honest(cfg) && Legal(cfg, Initial(cfg), run)
    requires var s := After(cfg, Initial(cfg), run);
             |s.phases| == |s.calls| && p < |s.calls| && !IsEnded(s, p) && forall q: nat :: q < p ==> IsEnded(s, q)
    ensures var s := After(cfg, Initial(cfg), run);
            Enabled(cfg, s, NextAction(cfg, s, p))
  {
    InitialHolds(cfg);
    RunKeeps(cfg, Initial(cfg), run);
    var s := After(cfg, Initial(cfg), run);
    if s.phases[p].Running? { assert OnTrack(cfg, s, p); }
  }
}
