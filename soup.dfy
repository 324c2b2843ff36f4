/** allegro/utils/soup.py: `get_soup`, the proxy-rotating fetch loop.

    The first attempt goes through the first proxy of the list (or no proxy),
    with the caller's timeout. When it fails, the loop walks a cyclic cursor
    over the list and retries, without a timeout, until an attempt succeeds
    or the cursor shows the start proxy again. */
module Soup {
  import opened Outcomes
  import opened Pages
  import opened Check

  const IpRestrictedMsg := "You are being IP restricted, please use proxies"
  const CannotBypassMsg := "We can't bypass IP block"

  /** The `proxies` mapping built for one proxy: both schemes go to it over HTTPS. */
  function ProxyObject(proxy: string): (r: ProxyMap)
  {
    ProxyMap("https://" + proxy, "https://" + proxy)
  }

  /** Distinct proxy maps come from distinct proxies. */
  lemma ProxyObjectInjective(p: string, q: string)
    requires ProxyObject(p) == ProxyObject(q)
    ensures p == q
  {
    var s := "https://";
    assert (s + p)[|s|..] == p && (s + q)[|s|..] == q;
  }

  /** `itertools.cycle` over a non-empty list: hands out the elements in
      order and starts again after the last one. */
  class ProxyCycle {
    const items: seq<string>
    var cursor: nat

    ghost predicate Valid()
      reads this
    {
      |items| >= 1 && cursor < |items|
    }

    constructor (items: seq<string>)
      requires |items| >= 1
      ensures Valid() && this.items == items && cursor == 0
    {
      this.items := items;
      cursor := 0;
    }

    /** `next(cycle)` */
    method Next() returns (p: string)
      requires Valid()
      modifies this
      ensures Valid()
      ensures p == items[old(cursor)]
      ensures cursor == Wrap(old(cursor) + 1, |items|)
    {
      p := items[cursor];
      cursor := if cursor + 1 == |items| then 0 else cursor + 1;
    }
  }

  /** Position `i` (at most one full turn, `i <= n`) of a cycle over `n` items. */
  function Wrap(i: nat, n: nat): (k: nat)
    requires 1 <= n && i <= n
    ensures k < n
  {
    if i == n then 0 else i
  }

  /** The requests one `get_soup` call issues, in order, and its outcome. */
  datatype Attempts = Attempts(trace: seq<Request>, result: Result<Page>)

  /** The retry loop, entered with the cursor at position `i` of the cycle
      over `ps` (`ps[0]` is the start marker). */
  function Retry(transport: Request -> Response, url: string, ps: seq<string>, i: nat): (r: Attempts)
    requires 1 <= i <= |ps|
    ensures i + |r.trace| <= |ps|
    ensures r.result.Failure? ==> r.result.error == OSError(CannotBypassMsg)
    decreases |ps| - i
  {
    var current := ps[Wrap(i, |ps|)];
    if current == ps[0] then
      Attempts([], Failure(OSError(CannotBypassMsg)))
    else
      var req := Request(url, Some(ProxyObject(current)), None);
      match CheckSoup(transport, req)
      case Some(page) => Attempts([req], Success(page))
      case None =>
        var rest := Retry(transport, url, ps, i + 1);
        Attempts([req] + rest.trace, rest.result)
  }

  /** What `get_soup(url, proxies, timeout)` does. */
  function Fetch(transport: Request -> Response, url: string, proxies: Option<seq<string>>,
                 timeout: Option<int>): (r: Attempts)
    ensures 1 <= |r.trace|
    ensures r.result.Failure? ==>
      r.result.error == OSError(IpRestrictedMsg) || r.result.error == OSError(CannotBypassMsg)
    ensures r.result.Failure? && r.result.error == OSError(IpRestrictedMsg)
            ==> proxies.None? || proxies.value == []
  {
    if proxies.None? || |proxies.value| == 0 then
      var req := Request(url, None, timeout);
      match CheckSoup(transport, req)
      case Some(page) => Attempts([req], Success(page))
      case None => Attempts([req], Failure(OSError(IpRestrictedMsg)))
    else
      var ps := proxies.value;
      var first := Request(url, Some(ProxyObject(ps[0])), timeout);
      match CheckSoup(transport, first)
      case Some(page) => Attempts([first], Success(page))
      case None =>
        var rest := Retry(transport, url, ps, 1);
        Attempts([first] + rest.trace, rest.result)
  }

  /** `get_soup`: the loop itself, over a `ProxyCycle`, with `trace` recording
      each request handed to `check_soup`. */
  method GetSoup(transport: Request -> Response, url: string, proxies: Option<seq<string>>,
                 timeout: Option<int>)
    returns (soup: Result<Page>, trace: seq<Request>)
    ensures Attempts(trace, soup) == Fetch(transport, url, proxies, timeout)
  {
    var cycle: ProxyCycle? := null;
    var current := "";
    var start := "";
    var proxyObject: Option<ProxyMap> := None;
    if proxies.Some? && |proxies.value| >= 1 {
      cycle := new ProxyCycle(proxies.value);
      current := cycle.Next();
      start := current;
      proxyObject := Some(ProxyObject(current));
    }

    var req := Request(url, proxyObject, timeout);
    trace := [req];
    var page := CheckSoup(transport, req);
    if page.Some? {
      return Success(page.value), trace;
    }

    if cycle != null {
      current := cycle.Next();
    }
    ghost var i: nat := 1;
    while cycle != null && start != current
      invariant cycle == null ==> (proxies.None? || |proxies.value| == 0) && trace == [req]
      invariant cycle == null ==> req == Request(url, None, timeout) && page.None?
      invariant cycle != null ==> proxies.Some? && cycle.Valid() && cycle.items == proxies.value
      invariant cycle != null ==> 1 <= i <= |cycle.items| && start == cycle.items[0]
      invariant cycle != null ==> current == cycle.items[Wrap(i, |cycle.items|)]
      invariant cycle != null ==> cycle.cursor == Wrap(Wrap(i, |cycle.items|) + 1, |cycle.items|)
      invariant cycle != null ==>
        var rest := Retry(transport, url, cycle.items, i);
        Fetch(transport, url, proxies, timeout) == Attempts(trace + rest.trace, rest.result)
      decreases if cycle == null then 0 else |cycle.items| - i
    {
      var ps := cycle.items;
      ghost var rest := Retry(transport, url, ps, i);
      proxyObject := Some(ProxyObject(current));
      req := Request(url, proxyObject, None);
      trace := trace + [req];
      page := CheckSoup(transport, req);
      if page.Some? {
        assert rest == Attempts([req], Success(page.value));
        return Success(page.value), trace;
      }
      assert i < |ps|;
      current := cycle.Next();
      i := i + 1;
      assert trace + Retry(transport, url, ps, i).trace == (trace[..|trace| - 1]) + rest.trace;
    }

    if cycle == null {
      soup := Failure(OSError(IpRestrictedMsg));
    } else {
      soup := Failure(OSError(CannotBypassMsg));
    }
  }

  // ---------------------------------------------------------------------------
  // Properties of the fetch loop

  predicate Distinct(s: seq<string>) {
    forall a, b :: 0 <= a < b < |s| ==> s[a] != s[b]
  }

  /** Attempt `k` of the retry loop entered at cursor `i` goes through
      `ps[i + k]`, without a timeout, and that proxy is not the start proxy. */
  lemma {:induction false} RetryAttempt(transport: Request -> Response, url: string, ps: seq<string>, i: nat,
                                        k: nat)
    requires 1 <= i <= |ps| && k < |Retry(transport, url, ps, i).trace|
    ensures i + k < |ps|
    ensures Retry(transport, url, ps, i).trace[k] == Request(url, Some(ProxyObject(ps[i + k])), None)
    ensures ps[i + k] != ps[0]
    decreases k
  {
    var a := Retry(transport, url, ps, i);
    var current := ps[Wrap(i, |ps|)];
    assert current != ps[0];
    assert i < |ps| && current == ps[i];
    var req := Request(url, Some(ProxyObject(current)), None);
    if k == 0 {
      assert a.trace[0] == req;
    } else {
      assert CheckSoup(transport, req).None?;
      var rest := Retry(transport, url, ps, i + 1);
      assert a.trace == [req] + rest.trace;
      RetryAttempt(transport, url, ps, i + 1, k - 1);
      assert a.trace[k] == rest.trace[k - 1];
      assert i + 1 + (k - 1) == i + k;
    }
  }

  /** The retry loop stops at the first attempt that succeeds and returns its
      page; otherwise every attempt failed and it raises "We can't bypass IP
      block" exactly when the cursor reaches a copy of the start proxy. */
  lemma {:induction false} RetryStops(transport: Request -> Response, url: string, ps: seq<string>, i: nat)
    requires 1 <= i <= |ps|
    ensures var a := Retry(transport, url, ps, i);
      && i + |a.trace| <= |ps|
      && (forall k :: 0 <= k < |a.trace| - 1 ==> CheckSoup(transport, a.trace[k]).None?)
      && (a.result.Success? ==>
            |a.trace| >= 1 && CheckSoup(transport, a.trace[|a.trace| - 1]) == Some(a.result.value))
      && (a.result.Failure? ==>
            && a.result.error == OSError(CannotBypassMsg)
            && (forall k :: 0 <= k < |a.trace| ==> CheckSoup(transport, a.trace[k]).None?)
            && ps[Wrap(i + |a.trace|, |ps|)] == ps[0])
    decreases |ps| - i
  {
    var a := Retry(transport, url, ps, i);
    var current := ps[Wrap(i, |ps|)];
    if current != ps[0] {
      assert i < |ps|;
      var req := Request(url, Some(ProxyObject(current)), None);
      if CheckSoup(transport, req).Some? {
        assert a == Attempts([req], Success(CheckSoup(transport, req).value));
      } else {
        RetryStops(transport, url, ps, i + 1);
        var rest := Retry(transport, url, ps, i + 1);
        assert a.trace == [req] + rest.trace;
        forall k | 1 <= k < |a.trace|
          ensures a.trace[k] == rest.trace[k - 1]
        {
        }
      }
    }
  }

  /** Without a proxy list (or with an empty one) exactly one proxyless
      attempt is made, with the caller's timeout; if it fails the call raises
      "You are being IP restricted, please use proxies". */
  lemma FetchWithoutProxies(transport: Request -> Response, url: string, proxies: Option<seq<string>>,
                            timeout: Option<int>)
    requires proxies.None? || proxies.value == []
    ensures var a := Fetch(transport, url, proxies, timeout);
      && a.trace == [Request(url, None, timeout)]
      && (a.result.Success? <==> CheckSoup(transport, a.trace[0]).Some?)
      && (a.result.Success? ==> CheckSoup(transport, a.trace[0]) == Some(a.result.value))
      && (a.result.Failure? ==> a.result.error == OSError(IpRestrictedMsg))
  {
  }

  /** The attempts of one `get_soup` call go through the list in order:
      attempt `k` uses proxy `ps[k]`; only the first passes the timeout; and
      there are never more attempts than proxies. */
  lemma FetchVisitOrder(transport: Request -> Response, url: string, ps: seq<string>, timeout: Option<int>)
    requires |ps| >= 1
    ensures var a := Fetch(transport, url, Some(ps), timeout);
      && 1 <= |a.trace| <= |ps|
      && (forall k :: 0 <= k < |a.trace| ==> a.trace[k].url == url && a.trace[k].proxies == Some(ProxyObject(ps[k])))
      && a.trace[0].timeout == timeout
      && (forall k :: 1 <= k < |a.trace| ==> a.trace[k].timeout.None? && ps[k] != ps[0])
  {
    var first := Request(url, Some(ProxyObject(ps[0])), timeout);
    if CheckSoup(transport, first).None? {
      var rest := Retry(transport, url, ps, 1);
      var a := Fetch(transport, url, Some(ps), timeout);
      assert a.trace == [first] + rest.trace;
      forall k | 1 <= k < |a.trace|
        ensures a.trace[k] == Request(url, Some(ProxyObject(ps[k])), None) && ps[k] != ps[0]
      {
        RetryAttempt(transport, url, ps, 1, k - 1);
        assert a.trace[k] == rest.trace[k - 1];
      }
    }
  }

  /** The call returns the page of the first attempt that succeeds, unchanged;
      every earlier attempt failed and no later one is made. */
  lemma FetchStopsAtFirstSuccess(transport: Request -> Response, url: string, proxies: Option<seq<string>>,
                                 timeout: Option<int>)
    ensures var a := Fetch(transport, url, proxies, timeout);
      && |a.trace| >= 1
      && (forall k :: 0 <= k < |a.trace| - 1 ==> CheckSoup(transport, a.trace[k]).None?)
      && (a.result.Success? ==> CheckSoup(transport, a.trace[|a.trace| - 1]) == Some(a.result.value))
      && (a.result.Failure? ==> forall k :: 0 <= k < |a.trace| ==> CheckSoup(transport, a.trace[k]).None?)
  {
    if proxies.Some? && |proxies.value| >= 1 {
      var ps := proxies.value;
      var first := Request(url, Some(ProxyObject(ps[0])), timeout);
      if CheckSoup(transport, first).None? {
        RetryStops(transport, url, ps, 1);
        var rest := Retry(transport, url, ps, 1);
        var a := Fetch(transport, url, proxies, timeout);
        assert a.trace == [first] + rest.trace;
        forall k | 1 <= k < |a.trace|
          ensures a.trace[k] == rest.trace[k - 1]
        {
        }
      }
    }
  }

  /** A successful first attempt is the whole story: its page comes back and
      the cycle is never advanced. */
  lemma FetchFirstAttemptWins(transport: Request -> Response, url: string, ps: seq<string>,
                              timeout: Option<int>, page: Page)
    requires |ps| >= 1
    requires CheckSoup(transport, Request(url, Some(ProxyObject(ps[0])), timeout)) == Some(page)
    ensures Fetch(transport, url, Some(ps), timeout)
         == Attempts([Request(url, Some(ProxyObject(ps[0])), timeout)], Success(page))
  {
  }

  /** With distinct proxies a failed call has tried every proxy exactly once
      (`|trace| == |ps|`, attempt `k` through `ps[k]`) and raises
      "We can't bypass IP block". */
  lemma FetchExhausted(transport: Request -> Response, url: string, ps: seq<string>, timeout: Option<int>)
    requires |ps| >= 1 && Distinct(ps)
    requires Fetch(transport, url, Some(ps), timeout).result.Failure?
    ensures var a := Fetch(transport, url, Some(ps), timeout);
      && a.result.error == OSError(CannotBypassMsg)
      && |a.trace| == |ps|
      && (forall k :: 0 <= k < |ps| ==> a.trace[k].proxies == Some(ProxyObject(ps[k])))
  {
    FetchVisitOrder(transport, url, ps, timeout);
    var first := Request(url, Some(ProxyObject(ps[0])), timeout);
    RetryStops(transport, url, ps, 1);
    var rest := Retry(transport, url, ps, 1);
    var j := 1 + |rest.trace|;
    assert ps[Wrap(j, |ps|)] == ps[0];
    assert Wrap(j, |ps|) == 0;
  }

  /** The exhaustion test compares proxy values: with a one-element list, or
      one whose second element equals the first, a failed first attempt
      raises at once, without a second request. */
  lemma FetchRepeatedStart(transport: Request -> Response, url: string, ps: seq<string>, timeout: Option<int>)
    requires |ps| >= 1 && (|ps| == 1 || ps[1] == ps[0])
    requires CheckSoup(transport, Request(url, Some(ProxyObject(ps[0])), timeout)).None?
    ensures Fetch(transport, url, Some(ps), timeout)
         == Attempts([Request(url, Some(ProxyObject(ps[0])), timeout)], Failure(OSError(CannotBypassMsg)))
  {
  }

  /** Failover: when the first proxy is blocked and a different second proxy
      works, the call succeeds with the second proxy's page after two attempts. */
  lemma FetchFailover(transport: Request -> Response, url: string, ps: seq<string>, timeout: Option<int>,
                      page: Page)
    requires |ps| >= 2 && ps[1] != ps[0]
    requires CheckSoup(transport, Request(url, Some(ProxyObject(ps[0])), timeout)).None?
    requires CheckSoup(transport, Request(url, Some(ProxyObject(ps[1])), None)) == Some(page)
    ensures var a := Fetch(transport, url, Some(ps), timeout);
      && a.result == Success(page)
      && a.trace == [Request(url, Some(ProxyObject(ps[0])), timeout), Request(url, Some(ProxyObject(ps[1])), None)]
  {
  }

  /** With distinct proxies, no proxy is tried twice in one call. */
  lemma FetchTriesEachProxyOnce(transport: Request -> Response, url: string, ps: seq<string>, timeout: Option<int>)
    requires |ps| >= 1 && Distinct(ps)
    ensures var a := Fetch(transport, url, Some(ps), timeout);
      forall k, m :: 0 <= k < m < |a.trace| ==> a.trace[k].proxies != a.trace[m].proxies
  {
    FetchVisitOrder(transport, url, ps, timeout);
    var a := Fetch(transport, url, Some(ps), timeout);
    forall k, m | 0 <= k < m < |a.trace|
      ensures a.trace[k].proxies != a.trace[m].proxies
    {
      if a.trace[k].proxies == a.trace[m].proxies {
        ProxyObjectInjective(ps[k], ps[m]);
      }
    }
  }
}
