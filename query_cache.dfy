/** The `cache_query` decorator: a process-wide dictionary from query
    text to query result. A call whose query is already a key returns the
    stored result without running the query; any other call runs it,
    stores the result under its query and returns it. Entries are never
    evicted or overwritten. */
module QueryCache {
  import opened Wrappers

  /** The cache key: the query text, or Python's `None` when the call
      names no query. */
  type Key = Option<string>

  const QueryKeyword := "query"

  /** `kwargs.get("query") if "query" in kwargs else (args[0] if args else
      None)`, with `args` the positional arguments after the connection. */
  function CacheKey(args: seq<string>, kwargs: map<string, string>): (key: Key)
    ensures QueryKeyword in kwargs ==> key == Some(kwargs[QueryKeyword])
    ensures QueryKeyword !in kwargs && args != [] ==> key == Some(args[0])
    ensures key == None <==> QueryKeyword !in kwargs && args == []
  {
    if QueryKeyword in kwargs then Some(kwargs[QueryKeyword])
    else if args != [] then Some(args[0])
    else None
  }

  /** One call, on values: the result returned, whether the wrapped query
      ran, and the cache afterwards. */
  datatype Outcome<R> = Outcome(result: R, invoked: bool, entries: map<Key, R>)

  /** A call with key `key` against cache `entries`; `answer` is what the
      wrapped query returns if it runs. */
  function Lookup<R>(entries: map<Key, R>, key: Key, answer: R): (o: Outcome<R>)
    ensures o.invoked <==> key !in entries
    ensures !o.invoked ==> o.result == entries[key] && o.entries == entries
    ensures o.invoked ==> o.result == answer
    ensures key in o.entries && o.entries[key] == o.result
    ensures o.entries.Keys == entries.Keys + {key}
    ensures forall k | k in entries :: k in o.entries && o.entries[k] == entries[k]
  {
    if key in entries then Outcome(entries[key], false, entries)
    else Outcome(answer, true, entries[key := answer])
  }

  /** A sequence of calls, each a key and the answer its query would give:
      the results in call order and the final cache. */
  function Run<R>(entries: map<Key, R>, calls: seq<(Key, R)>): (out: (seq<R>, map<Key, R>))
    ensures |out.0| == |calls|
    decreases |calls|
  {
    if calls == [] then ([], entries)
    else
      var o := Lookup(entries, calls[0].0, calls[0].1);
      var rest := Run(o.entries, calls[1..]);
      ([o.result] + rest.0, rest.1)
  }

  /** A key already cached answers every later call with its entry. */
  lemma {:induction false} CachedKeyAnswersLater<R>(entries: map<Key, R>, calls: seq<(Key, R)>, j: nat)
    requires j < |calls| && calls[j].0 in entries
    ensures Run(entries, calls).0[j] == entries[calls[j].0]
    decreases j
  {
    var o := Lookup(entries, calls[0].0, calls[0].1);
    if j > 0 {
      CachedKeyAnswersLater(o.entries, calls[1..], j - 1);
    }
  }

  /** Two calls with the same query return the same result, whatever the
      wrapped query would have answered the second time. */
  lemma {:induction false} SameQuerySameResult<R>(entries: map<Key, R>, calls: seq<(Key, R)>, i: nat, j: nat)
    requires i < j < |calls| && calls[i].0 == calls[j].0
    ensures Run(entries, calls).0[i] == Run(entries, calls).0[j]
    decreases i
  {
    var o := Lookup(entries, calls[0].0, calls[0].1);
    if i > 0 {
      SameQuerySameResult(o.entries, calls[1..], i - 1, j - 1);
    } else {
      CachedKeyAnswersLater(o.entries, calls[1..], j - 1);
    }
  }

  /** The module-level `query_cache` dictionary. */
  class Cache<R> {
    var entries: map<Key, R>

    constructor ()
      ensures entries == map[]
    {
      entries := map[];
    }

    /** `wrapper(conn, *args, **kwargs)`. `answer` is what
        `func(conn, *args, **kwargs)` returns when it is called;
        `invoked` says whether it was. */
    method Call(args: seq<string>, kwargs: map<string, string>, answer: R) returns (result: R, invoked: bool)
      modifies this
      ensures var o := Lookup(old(entries), CacheKey(args, kwargs), answer);
        result == o.result && invoked == o.invoked && entries == o.entries
    {
      var key := CacheKey(args, kwargs);
      if key in entries {
        result := entries[key];
        invoked := false;
      } else {
        result := answer;
        entries := entries[key := result];
        invoked := true;
      }
    }
  }
}
