/** The cache policy in the host's terms: what a path names, what a write displaces, how
    long a body and a counter live (asas_oracle/cache.py and client.py). */
module OraclePolicy {
  import opened Wrappers
  import opened OracleCache

  // ---------------------------------------------------------------------------
  // What a path names
  // ---------------------------------------------------------------------------

  /** `path` is `slashes` slashes, then `name`, then nothing or a rest that starts with a
      slash or a question mark; `name` has neither, and all leading slashes are cut. */
  predicate SplitsAt(path: string, name: string, slashes: nat) {
    && slashes + |name| <= |path|
    && (forall i :: 0 <= i < slashes ==> path[i] == '/')
    && path[slashes..slashes + |name|] == name
    && '/' !in name && '?' !in name
    && (slashes < |path| ==> path[slashes] != '/')
    && (slashes + |name| < |path| ==> path[slashes + |name|] == '/' || path[slashes + |name|] == '?')
  }

  ghost predicate Names(path: string, name: string) {
    exists slashes: nat :: SplitsAt(path, name, slashes)
  }

  lemma {:induction false} TrimmedAt(path: string) returns (slashes: nat)
    ensures slashes <= |path| && TrimSlashes(path) == path[slashes..]
    ensures forall i :: 0 <= i < slashes ==> path[i] == '/'
    ensures slashes < |path| ==> path[slashes] != '/'
    decreases |path|
  {
    slashes := 0;
    if path != "" && path[0] == '/' {
      var rest := TrimmedAt(path[1..]);
      slashes := rest + 1;
      forall i | 0 <= i < slashes ensures path[i] == '/' {
        if i > 0 { assert path[1..][i - 1] == path[i]; }
      }
    }
  }

  lemma {:induction false} UpToIs(text: string, stop: char)
    ensures var found := UpTo(text, stop);
            && |found| <= |text| && found == text[..|found|] && stop !in found
            && (|found| < |text| ==> text[|found|] == stop)
    decreases |text|
  {
    if text != "" && text[0] != stop { UpToIs(text[1..], stop); }
  }

  lemma ResourceSplits(path: string) returns (slashes: nat)
    ensures SplitsAt(path, Resource(path), slashes)
  {
    slashes := TrimmedAt(path);
    var trimmed := TrimSlashes(path);
    UpToIs(trimmed, '/');
    var segment := UpTo(trimmed, '/');
    UpToIs(segment, '?');
    var name := UpTo(segment, '?');
    assert name == trimmed[..|name|] && path[slashes..slashes + |name|] == name;
    if |name| < |trimmed| { assert path[slashes + |name|] == trimmed[|name|]; }
  }

  lemma SplitIsUnique(path: string, a: string, m: nat, b: string, n: nat)
    requires SplitsAt(path, a, m) && SplitsAt(path, b, n)
    ensures a == b
  {
    assert m == n;
    assert forall i :: 0 <= i < |a| ==> path[m + i] == a[i];
    assert forall i :: 0 <= i < |b| ==> path[m + i] == b[i];
  }

  /** The resource of a path is its first segment, and nothing else is. */
  lemma ResourceIs(path: string, name: string)
    ensures Names(path, name) <==> name == Resource(path)
  {
    var slashes := ResourceSplits(path);
    if Names(path, name) {
      var other: nat :| SplitsAt(path, name, other);
      SplitIsUnique(path, name, other, Resource(path), slashes);
    }
  }

  // ---------------------------------------------------------------------------
  // What a write displaces
  // ---------------------------------------------------------------------------

  /** A write to `path` is declared to make `resource` stale, under the path's name. */
  ghost predicate Displaces(pod: Pod, path: string, resource: string) {
    exists name :: Names(path, name) && name in pod.staleOnWrite && resource in pod.staleOnWrite[name]
  }

  /** The client makes stale what is declared, all of it and no more. */
  lemma StaleIs(pod: Pod, path: string, resource: string)
    ensures resource in Stale(pod, path) <==> Displaces(pod, path, resource)
  {
    ResourceIs(path, Resource(path));
    if Displaces(pod, path, resource) {
      var name :| Names(path, name) && name in pod.staleOnWrite && resource in pod.staleOnWrite[name];
      ResourceIs(path, name);
    }
  }

  // ---------------------------------------------------------------------------
  // What is kept, and for how long
  // ---------------------------------------------------------------------------

  /** The host has the resource cached. */
  predicate CachesFor(pod: Pod, resource: string) {
    pod.configured && resource in pod.ttls && pod.ttls[resource] > 0
  }

  lemma CachedIs(pod: Pod, path: string, useCache: bool)
    ensures IsCached(pod, path, useCache) <==> useCache && CachesFor(pod, Resource(path))
  {
  }

  /** A body is kept for its resource's time, an empty collection for no longer than the
      host allows those. */
  lemma BodyTtlIs(pod: Pod, resource: string, body: Body)
    requires resource in pod.ttls
    ensures var ttl := BodyTtl(pod, resource, body);
            && ttl <= pod.ttls[resource] && (body.noItems ==> ttl <= pod.emptyTtl)
            && (ttl == pod.ttls[resource] || (body.noItems && ttl == pod.emptyTtl))
  {
  }

  /** How long a counter lives: a day, or the longest time to live if that is longer. */
  ghost predicate IsLife(pod: Pod, seconds: int) {
    && seconds >= 86_400
    && (forall resource :: resource in pod.ttls ==> pod.ttls[resource] <= seconds)
    && (seconds == 86_400 || exists resource :: resource in pod.ttls && pod.ttls[resource] == seconds)
  }

  lemma CounterTtlIs(pod: Pod, seconds: int)
    ensures IsLife(pod, seconds) <==> seconds == CounterTtl(pod)
  {
    var longest := Longest(pod);
    forall resource | resource in pod.ttls
      ensures pod.ttls[resource] <= longest
    {
      assert pod.ttls[resource] in pod.ttls.Values;
    }
    if longest > 86_400 {
      assert longest in pod.ttls.Values;
      var resource :| resource in pod.ttls && pod.ttls[resource] == longest;
    }
  }

  /** What is sent: the caller's parameters less the empty ones, `onlyData` unless the
      caller says otherwise, and the caller's headers. */
  lemma RequestIs(path: string, params: map<string, Option<string>>, headers: map<string, string>, name: string)
    ensures var request := Normalised(path, params, headers);
            && request.path == path && request.headers == headers
            && (name in request.query <==> name == "onlyData" || (name in params && params[name].Some?))
            && (name in request.query ==>
                  request.query[name] == if name in params && params[name].Some? then params[name].value else "true")
  {
  }
}
