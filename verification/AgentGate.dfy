/** The variables `invoke` updates before its first await (asas_agent/loop.py): the
    call counter, `alone`, `beside`, and which `done` events are set. */
module AgentGate {
  import opened Wrappers
  import opened AgentLoop

  class Gate {
    var calls: nat
    var alone: Option<nat>
    var beside: seq<nat>
    var isSet: set<nat>

    /** The object holds the gate part of a machine state. */
    ghost predicate Matches(s: State)
      reads this
    {
      && calls == |s.calls| == |s.phases|
      && alone == s.alone
      && (set q | q in beside) == s.beside
      && isSet == set q: nat | q < |s.phases| && IsEnded(s, q)
    }

    constructor ()
      ensures forall cfg :: Matches(Initial(cfg))
    {
      calls, alone, beside, isSet := 0, None, [], {};
    }

    /** `[e for e in beside if not e.is_set()]` */
    method Prune() returns (live: seq<nat>)
      ensures forall q :: q in live <==> q in beside && q !in isSet
    {
      live := [];
      for i := 0 to |beside|
        invariant forall q :: q in live <==> q in beside[..i] && q !in isSet
      {
        assert beside[..i + 1] == beside[..i] + [beside[i]];
        if beside[i] !in isSet {
          live := live + [beside[i]];
        }
      }
      assert beside[..|beside|] == beside;
    }

    /** The call takes its index, its waits and its place; over the budget it ends at
        once, its event set. The object follows `DoStart`. */
    method Take(cfg: Config, ghost s: State, c: ToolCall) returns (pos: nat, waits: seq<nat>, over: bool)
      requires Matches(s)
      modifies this
      ensures Matches(DoStart(cfg, s, c))
      ensures pos == |s.calls| && over == (pos >= cfg.maxTools)
      ensures (set q | q in waits) == Waits(cfg, s, c)
    {
      pos := calls;
      calls := calls + 1;
      waits := if alone.Some? then [alone.value] else [];
      if c.name in cfg.readOnly {
        var live := Prune();
        beside := live + [pos];
        assert forall q :: q in beside <==> q in live || q == pos;
      } else {
        assert forall q :: q in waits + beside <==> q in waits || q in beside;
        waits := waits + beside;
        alone, beside := Some(pos), [];
      }
      over := pos >= cfg.maxTools;
      if over {
        isSet := isSet + {pos};
      }
      ghost var s' := DoStart(cfg, s, c);
      assert forall q: nat :: q < |s.phases| ==> s'.phases[q] == s.phases[q];
      assert s'.phases[pos].Ended? == over;
      assert forall q :: q in beside <==> q in s'.beside;
    }

    /** `done.set()`, as the call of position `pos` ends. */
    method Set(ghost s: State, ghost s': State, pos: nat)
      requires Matches(s) && pos < |s.phases|
      requires s'.calls == s.calls && s'.alone == s.alone && s'.beside == s.beside
      requires exists r :: s'.phases == s.phases[pos := Phase.Ended(r)]
      modifies this`isSet
      ensures Matches(s')
    {
      isSet := isSet + {pos};
      assert forall q: nat :: q < |s.phases| && q != pos ==> s'.phases[q] == s.phases[q];
      assert s'.phases[pos].Ended?;
    }
  }
}
