/** allegro/proxy/proxy_checker.py: `is_good_proxy` and `filter_proxies`.
    The product fetch through a proxy is the oracle `probe`. */
module ProxyChecker {
  import opened Outcomes
  import opened Products

  /** `is_good_proxy`: the probe fetch raised nothing. Every exception,
      `NotImplementedError` of a non-buy-now probe offer included, makes the
      proxy bad. */
  function IsGoodProxy(probe: string -> Result<Product>, proxy: string): (r: bool)
    ensures r <==> probe(proxy).Success?
    ensures probe(proxy) == Failure(NotImplementedError) ==> !r
  {
    probe(proxy).Success?
  }

  /** The proxies that pass, in input order. */
  function Good(probe: string -> Result<Product>, proxies: seq<string>): (r: seq<string>)
  {
    if proxies == [] then []
    else
      var last := proxies[|proxies| - 1];
      Good(probe, proxies[..|proxies| - 1]) + (if IsGoodProxy(probe, last) then [last] else [])
  }

  /** `filter_proxies`: one check per proxy, in order (`checked`), keeping
      those that pass. */
  method FilterProxies(probe: string -> Result<Product>, proxies: seq<string>)
    returns (good: seq<string>, checked: seq<string>)
    ensures good == Good(probe, proxies)
    ensures checked == proxies
  {
    good, checked := [], [];
    var i := 0;
    while i < |proxies|
      invariant 0 <= i <= |proxies|
      invariant good == Good(probe, proxies[..i])
      invariant checked == proxies[..i]
    {
      assert proxies[..i + 1][..i] == proxies[..i];
      var working := IsGoodProxy(probe, proxies[i]);
      checked := checked + [proxies[i]];
      if working {
        good := good + [proxies[i]];
      }
      i := i + 1;
    }
    assert proxies[..i] == proxies;
  }

  /** The result is a subsequence of the input: `Good` of a concatenation is
      the concatenation of the parts' `Good`. */
  lemma {:induction false} GoodAppend(probe: string -> Result<Product>, a: seq<string>, b: seq<string>)
    ensures Good(probe, a + b) == Good(probe, a) + Good(probe, b)
    decreases |b|
  {
    if b == [] {
      assert a + b == a;
    } else {
      var b' := b[..|b| - 1];
      assert (a + b)[..|a + b| - 1] == a + b';
      GoodAppend(probe, a, b');
    }
  }

  /** Exactly the passing proxies are kept, each as many times as it occurs,
      and the result is never longer than the input. */
  lemma {:induction false} GoodSpec(probe: string -> Result<Product>, proxies: seq<string>)
    ensures |Good(probe, proxies)| <= |proxies|
    ensures forall p :: multiset(Good(probe, proxies))[p]
                       == if IsGoodProxy(probe, p) then multiset(proxies)[p] else 0
  {
    if proxies != [] {
      var init := proxies[..|proxies| - 1];
      var last := proxies[|proxies| - 1];
      GoodSpec(probe, init);
      assert proxies == init + [last];
      assert multiset(proxies) == multiset(init) + multiset{last};
    }
  }
}
