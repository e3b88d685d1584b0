/** The ordered trace of `run_agent`: events are held back until every call before
    theirs is traced or has ended, then released in index order
    (asas_agent/loop.py, `observed`, `ended`, `release_trace`). */
module TraceLog {
  import opened Wrappers

  datatype Event = Event(
    index: nat,
    callId: string,
    name: string,
    skillBefore: Option<string>,
    skillAfter: Option<string>,
    arguments: string,
    ok: bool,
    code: Option<string>,
    version: Option<string>)

  /** `held`, `traced`, `state.trace` and what the host's sink was handed. */
  datatype Log = Log(held: map<nat, Option<Event>>, traced: nat, trace: seq<Event>, sink: seq<Event>)

  const EMPTY := Log(map[], 0, [], [])

  /** What one round of the release loop does to the log. */
  function Pop(l: Log): Log
    requires l.traced + 1 in l.held
  {
    var k := l.traced + 1;
    var event := l.held[k];
    var out := if event.Some? then [event.value] else [];
    Log(l.held - {k}, k, l.trace + out, l.sink + out)
  }

  function Release(l: Log): Log
    decreases |l.held|
  {
    if l.traced + 1 in l.held then
      assert |l.held.Keys - {l.traced + 1}| < |l.held.Keys|;
      assert (l.held - {l.traced + 1}).Keys == l.held.Keys - {l.traced + 1};
      Release(Pop(l))
    else l
  }

  function Observed(l: Log, event: Event): Log {
    Release(l.(held := l.held[event.index := Some(event)]))
  }

  /** `held.setdefault(index, None)`: an index that was already released goes back
      into `held`, where nothing will ever look at it again. */
  function Ended(l: Log, index: nat): Log {
    Release(l.(held := if index in l.held then l.held else l.held[index := None]))
  }

  /** The same log as the object `run_agent` mutates. */
  class CallTrace {
    var held: map<nat, Option<Event>>
    var traced: nat
    var trace: seq<Event>
    var sink: seq<Event>

    ghost function Snapshot(): Log
      reads this
    {
      Log(held, traced, trace, sink)
    }

    constructor ()
      ensures Snapshot() == EMPTY
    {
      held, traced, trace, sink := map[], 0, [], [];
    }

    method ReleaseTrace()
      modifies this
      ensures Snapshot() == Release(old(Snapshot()))
    {
      while traced + 1 in held
        invariant Release(Snapshot()) == Release(old(Snapshot()))
        decreases |held|
      {
        ghost var before := Snapshot();
        assert |held.Keys - {traced + 1}| < |held.Keys|;
        traced := traced + 1;
        var event := held[traced];
        held := held - {traced};
        assert held.Keys == before.held.Keys - {traced};
        if event.Some? {
          trace := trace + [event.value];
          sink := sink + [event.value];
        }
        assert Snapshot() == Pop(before) by {
          if event.None? { assert trace + [] == trace && sink + [] == sink; }
        }
      }
    }

    method Observe(event: Event)
      modifies this
      ensures Snapshot() == Observed(old(Snapshot()), event)
    {
      held := held[event.index := Some(event)];
      ReleaseTrace();
    }

    method End(index: nat)
      modifies this
      ensures Snapshot() == Ended(old(Snapshot()), index)
    {
      if index !in held {
        held := held[index := None];
      }
      ReleaseTrace();
    }
  }

  // ---------------------------------------------------------------------------
  // What the log means: a ledger of every call that was observed or has ended
  // ---------------------------------------------------------------------------

  /** Each closed index with the event it left, or None for a call that left none. */
  type Ledger = map<nat, Option<Event>>

  ghost predicate Closed(ledger: Ledger, m: nat) {
    forall k {:trigger k in ledger} :: 1 <= k <= m ==> k in ledger
  }

  /** The events of indexes 1..m, in order. */
  ghost function Events(ledger: Ledger, m: nat): seq<Event>
    requires Closed(ledger, m)
  {
    if m == 0 then []
    else Events(ledger, m - 1) + (if ledger[m].Some? then [ledger[m].value] else [])
  }

  /** `l` has released exactly the longest closed prefix of `ledger` and holds the
      rest. Nothing is said about keys of `held` that are not above `traced`. */
  ghost predicate Mirrors(l: Log, ledger: Ledger) {
    && Holds(l, ledger)
    && l.traced + 1 !in ledger
  }

  ghost predicate Holds(l: Log, ledger: Ledger) {
    && Closed(ledger, l.traced)
    && (forall k {:trigger k in ledger} {:trigger k in l.held} :: k > l.traced ==> (k in l.held <==> k in ledger))
    && (forall k {:trigger l.held[k]} :: k > l.traced && k in l.held ==> l.held[k] == ledger[k])
    && l.trace == Events(ledger, l.traced)
    && l.sink == l.trace
  }

  lemma {:induction false} ReleaseMirrors(l: Log, ledger: Ledger)
    requires Holds(l, ledger)
    ensures Mirrors(Release(l), ledger)
    decreases |l.held|
  {
    if l.traced + 1 in l.held {
      assert |l.held.Keys - {l.traced + 1}| < |l.held.Keys|;
      assert (l.held - {l.traced + 1}).Keys == l.held.Keys - {l.traced + 1};
      ReleaseMirrors(Pop(l), ledger);
    }
  }

  lemma {:induction false} EventsExtend(small: Ledger, large: Ledger, m: nat)
    requires Closed(small, m) && small.Items <= large.Items
    ensures Closed(large, m) && Events(large, m) == Events(small, m)
  {
    forall k: nat | k in small
      ensures k in large && large[k] == small[k]
    {
      assert (k, small[k]) in small.Items;
    }
    if m > 0 { EventsExtend(small, large, m - 1); }
  }

  /** A first observation closes the index with its event. */
  lemma ObservedMirrors(l: Log, ledger: Ledger, event: Event)
    requires Mirrors(l, ledger) && event.index > 0 && event.index !in ledger
    ensures Mirrors(Observed(l, event), ledger[event.index := Some(event)])
  {
    var after := ledger[event.index := Some(event)];
    assert ledger.Items <= after.Items;
    EventsExtend(ledger, after, l.traced);
    ReleaseMirrors(l.(held := l.held[event.index := Some(event)]), after);
  }

  /** The end of a call that left an event changes nothing, even when the index was
      released in between and goes back into `held`; the end of a call that left none
      closes its index with no event. */
  lemma EndedMirrors(l: Log, ledger: Ledger, index: nat)
    requires Mirrors(l, ledger) && index > 0
    ensures Mirrors(Ended(l, index), if index in ledger then ledger else ledger[index := None])
  {
    var after := if index in ledger then ledger else ledger[index := None];
    assert ledger.Items <= after.Items;
    EventsExtend(ledger, after, l.traced);
    ReleaseMirrors(l.(held := if index in l.held then l.held else l.held[index := None]), after);
  }

  /** A call that is observed and then ends leaves its event, once. */
  lemma ClosedMirrors(l: Log, ledger: Ledger, event: Event)
    requires Mirrors(l, ledger) && event.index > 0 && event.index !in ledger
    ensures Mirrors(Ended(Observed(l, event), event.index), ledger[event.index := Some(event)])
  {
    ObservedMirrors(l, ledger, event);
    EndedMirrors(Observed(l, event), ledger[event.index := Some(event)], event.index);
  }

  ghost predicate Ascending(trace: seq<Event>) {
    forall i, j :: 0 <= i < j < |trace| ==> trace[i].index < trace[j].index
  }

  ghost predicate Labelled(ledger: Ledger) {
    forall k :: k in ledger && ledger[k].Some? ==> ledger[k].value.index == k
  }

  lemma {:induction false} EventsAscend(ledger: Ledger, m: nat)
    requires Closed(ledger, m)
    requires Labelled(ledger)
    ensures Ascending(Events(ledger, m))
    ensures forall e :: e in Events(ledger, m) ==> 1 <= e.index <= m
    ensures forall k :: 1 <= k <= m && ledger[k].Some? ==> ledger[k].value in Events(ledger, m)
  {
    if m > 0 { EventsAscend(ledger, m - 1); }
  }

  /** The trace is strictly increasing in call index, equals what the sink received,
      holds every observed event up to `traced` once and nothing else. */
  lemma TraceIsOrdered(l: Log, ledger: Ledger)
    requires Mirrors(l, ledger) && Labelled(ledger)
    ensures Ascending(l.trace) && l.sink == l.trace
    ensures forall k :: 1 <= k <= l.traced && ledger[k].Some? ==> multiset(l.trace)[ledger[k].value] == 1
    ensures forall e :: e in l.trace ==> 1 <= e.index <= l.traced && ledger[e.index] == Some(e)
  {
    EventsAscend(ledger, l.traced);
    EventsComeFromLedger(ledger, l.traced);
    forall k | 1 <= k <= l.traced && ledger[k].Some?
      ensures multiset(l.trace)[ledger[k].value] == 1
    {
      AscendingOnce(l.trace, ledger[k].value);
    }
  }

  lemma {:induction false} EventsComeFromLedger(ledger: Ledger, m: nat)
    requires Closed(ledger, m)
    requires Labelled(ledger)
    ensures forall e :: e in Events(ledger, m) ==> 1 <= e.index <= m && ledger[e.index] == Some(e)
  {
    if m > 0 { EventsComeFromLedger(ledger, m - 1); }
  }

  lemma {:induction false} AscendingOnce(trace: seq<Event>, e: Event)
    requires Ascending(trace) && e in trace
    ensures multiset(trace)[e] == 1
  {
    var last := |trace| - 1;
    var init := trace[..last];
    assert trace == init + [trace[last]];
    if trace[last] == e {
      assert e !in init;
    } else {
      AscendingOnce(init, e);
    }
  }

  /** Once indexes 1..n are closed and no other, all of them are traced. */
  lemma AllClosedAllTraced(l: Log, ledger: Ledger, n: nat)
    requires Mirrors(l, ledger)
    requires forall k {:trigger k in ledger} :: k in ledger <==> 1 <= k <= n
    ensures l.traced == n && l.trace == Events(ledger, n)
  {
    assert l.traced >= n;
    assert l.traced == 0 || l.traced in ledger;
  }
}
