/**
 * `MultiContextRequestIdFetcher`: an append-only, ordered registry of
 * fetchers and a lookup that returns the first truthy value a fetcher
 * returns without raising. Raising fetchers are skipped; the exception never
 * reaches the caller.
 */
module CtxFetcher {
  import opened Values
  import opened Flask

  /** A zero-argument fetcher, with the ambient state it reads made explicit; `Err` is a raise. */
  type Fetcher = Ambient -> Result<PyValue>

  /** A fetcher call that ends the lookup: it returned a truthy value without raising. */
  predicate Succeeds(o: Result<PyValue>)
  {
    o.Ok? && Truthy(o.value)
  }

  /** What `get_request_id` returns for a registry, by the registration order. */
  function FirstSuccess(fetchers: seq<Fetcher>, env: Ambient): (r: PyValue)
    ensures r == PyNone || Truthy(r)
    ensures r == PyNone <==> forall i :: 0 <= i < |fetchers| ==> !Succeeds(fetchers[i](env))
    ensures r != PyNone ==> exists i :: 0 <= i < |fetchers| && fetchers[i](env) == Ok(r)
  {
    if fetchers == [] then PyNone
    else
      var o := fetchers[0](env);
      if Succeeds(o) then o.value else FirstSuccess(fetchers[1..], env)
  }

  /** The lookup returns the value of the first fetcher that succeeds. */
  lemma {:induction false} FirstSuccessAt(fetchers: seq<Fetcher>, env: Ambient, i: nat)
    requires i < |fetchers| && Succeeds(fetchers[i](env))
    requires forall j :: 0 <= j < i ==> !Succeeds(fetchers[j](env))
    ensures FirstSuccess(fetchers, env) == fetchers[i](env).value
  {
    if i > 0 {
      FirstSuccessAt(fetchers[1..], env, i - 1);
    }
  }

  /**
   * Fetchers after the first success are irrelevant; when no earlier fetcher
   * succeeds, the later ones decide. So registering a fetcher never changes an
   * answer the registry already gives.
   */
  lemma {:induction false} FirstSuccessAppend(fs: seq<Fetcher>, more: seq<Fetcher>, env: Ambient)
    ensures FirstSuccess(fs, env) != PyNone ==> FirstSuccess(fs + more, env) == FirstSuccess(fs, env)
    ensures FirstSuccess(fs, env) == PyNone ==> FirstSuccess(fs + more, env) == FirstSuccess(more, env)
  {
    if fs == [] {
      assert fs + more == more;
    } else {
      assert (fs + more)[1..] == fs[1..] + more;
      FirstSuccessAppend(fs[1..], more, env);
    }
  }

  /** A raising fetcher followed by one that returns "ok" gives "ok". */
  lemma RaisingFetcherIsSkipped(env: Ambient, e: Error)
    ensures FirstSuccess([(a: Ambient) => Err(e), (a: Ambient) => Ok(PyStr("ok"))], env) == PyStr("ok")
  {
    var fs: seq<Fetcher> := [(a: Ambient) => Err(e), (a: Ambient) => Ok(PyStr("ok"))];
    FirstSuccessAt(fs, env, 1);
  }

  class MultiContextRequestIdFetcher {
    /** The registered fetchers, in registration order. */
    var fetchers: seq<Fetcher>

    /** `__init__`: an empty registry. */
    constructor ()
      ensures fetchers == []
    {
      fetchers := [];
    }

    /** `register_fetcher`: appends at the end, keeping the earlier fetchers in order. */
    method RegisterFetcher(fetcher: Fetcher)
      modifies this
      ensures fetchers == old(fetchers) + [fetcher]
      ensures |fetchers| == |old(fetchers)| + 1 && fetchers[..|old(fetchers)|] == old(fetchers)
    {
      fetchers := fetchers + [fetcher];
    }

    /**
     * `get_request_id`: calls the fetchers in order and returns the first
     * truthy value one returns without raising, else `None`. It changes
     * nothing. That fetchers after the first success cannot affect the
     * result is `FirstSuccessAppend`.
     */
    method GetRequestId(env: Ambient) returns (requestId: PyValue)
      ensures requestId == FirstSuccess(fetchers, env)
      ensures requestId == PyNone <==> forall j :: 0 <= j < |fetchers| ==> !Succeeds(fetchers[j](env))
      ensures requestId != PyNone ==> exists j :: 0 <= j < |fetchers| && fetchers[j](env) == Ok(requestId)
    {
      var i := 0;
      while i < |fetchers|
        invariant i <= |fetchers|
        invariant forall j :: 0 <= j < i ==> !Succeeds(fetchers[j](env))
        invariant FirstSuccess(fetchers[i..], env) == FirstSuccess(fetchers, env)
      {
        var outcome := fetchers[i](env);
        if outcome.Ok? && Truthy(outcome.value) {
          return outcome.value;
        }
        assert fetchers[i..][1..] == fetchers[i + 1..];
        i := i + 1;
      }
      assert fetchers[i..] == [];
      return PyNone;
    }
  }
}
