/**
 * `nekit::rule::GeoRule`: a routing rule that matches a session on the
 * country of its destination address, memoizing the country code in the
 * session's integer cache.
 */
module Rule {
  import opened Wrappers
  import opened Utils

  type CountryIsoCode = int

  /** The one cache key GeoRule reads and writes. */
  const CountryIsoCodeCacheKey: string := "NECO"

  datatype MatchResult = Match | NotMatch | ResolveNeeded

  /**
   * The geo-IP database: the country of an address. Total, because the
   * lookup is asserted never to fail.
   */
  type GeoLookup = Address -> CountryIsoCode

  /**
   * What one evaluation of a rule on a session does: the verdict, the cache
   * afterwards, and the address the database was consulted on, if any.
   */
  datatype Evaluation = Evaluation(verdict: MatchResult, cache: map<string, int>, lookedUp: Option<Address>)

  /** True when no cached code and no usable address: the domain failed or is still pending. */
  predicate Undecidable(destination: Destination, cache: map<string, int>)
  {
    CountryIsoCodeCacheKey !in cache && destination.DomainDestination? &&
    !destination.domain.resolution.IsResolved()
  }

  class GeoRule {
    /** The country the rule is about. */
    const code: CountryIsoCode
    /** True: match sessions in `code`; false: match sessions anywhere else. */
    const matchIfEqual: bool

    constructor (code: CountryIsoCode, matchIfEqual: bool)
      ensures this.code == code && this.matchIfEqual == matchIfEqual
    {
      this.code := code;
      this.matchIfEqual := matchIfEqual;
    }

    /** The decision once a country code is known: an XNOR of equality and the toggle. */
    function Decide(found: CountryIsoCode): (r: MatchResult)
      ensures r != ResolveNeeded
    {
      if (found == code) == matchIfEqual then MatchResult.Match else NotMatch
    }

    /** Specification of `Match`: cache first, then the address or first resolved address. */
    function Evaluate(destination: Destination, cache: map<string, int>, lookup: GeoLookup): (e: Evaluation)
      requires destination.WellFormed()
      // no lookup, no cache write
      ensures e.lookedUp == None ==> e.cache == cache
      // a lookup happens only on a miss, and writes its result under the key and nowhere else
      ensures e.lookedUp.Some? ==>
        CountryIsoCodeCacheKey !in cache && e.cache == cache[CountryIsoCodeCacheKey := lookup(e.lookedUp.value)]
      // whenever a code is known afterwards, the verdict is the decision on it
      ensures CountryIsoCodeCacheKey in e.cache ==> e.verdict == Decide(e.cache[CountryIsoCodeCacheKey])
      // otherwise the domain failed (NotMatch) or is pending (ResolveNeeded)
      ensures CountryIsoCodeCacheKey !in e.cache <==> Undecidable(destination, cache)
      ensures Undecidable(destination, cache) ==>
        (e.verdict == ResolveNeeded <==> !destination.domain.resolution.IsFailed()) &&
        e.verdict != MatchResult.Match
    {
      if CountryIsoCodeCacheKey in cache then
        Evaluation(Decide(cache[CountryIsoCodeCacheKey]), cache, None)
      else
        match destination
        case AddressDestination(address) =>
          var found := lookup(address);
          Evaluation(Decide(found), cache[CountryIsoCodeCacheKey := found], Some(address))
        case DomainDestination(domain) =>
          if domain.resolution.IsFailed() then
            Evaluation(NotMatch, cache, None)
          else if !domain.resolution.IsResolved() then
            Evaluation(ResolveNeeded, cache, None)
          else
            var address := domain.resolution.addresses[0];
            var found := lookup(address);
            Evaluation(Decide(found), cache[CountryIsoCodeCacheKey := found], Some(address))
    }

    /** `n` evaluations in a row on one destination, each seeing the cache the previous one left. */
    function Replay(destination: Destination, cache: map<string, int>, lookup: GeoLookup, n: nat): (es: seq<Evaluation>)
      requires destination.WellFormed()
      ensures |es| == n
      ensures n > 0 ==> es[0] == Evaluate(destination, cache, lookup)
      ensures forall i :: 0 < i < n ==> es[i] == Evaluate(destination, es[i - 1].cache, lookup)
      decreases n
    {
      if n == 0 then []
      else
        var e := Evaluate(destination, cache, lookup);
        [e] + Replay(destination, e.cache, lookup, n - 1)
    }

    /**
     * Looks up `address`, stores its code under the cache key and returns it;
     * `consulted` records the address the database was called on.
     */
    method LookupAndCache(session: Session, address: Address, lookup: GeoLookup)
      returns (found: CountryIsoCode, ghost consulted: Address)
      modifies session`intCache
      ensures consulted == address && found == lookup(consulted)
      ensures session.intCache == old(session.intCache)[CountryIsoCodeCacheKey := found]
    {
      found := lookup(address);
      consulted := address;
      session.intCache := session.intCache[CountryIsoCodeCacheKey := found];
    }

    /**
     * Evaluates the rule on `session`. `queried` is the address the database
     * was consulted on, as `LookupAndCache` reports it, or `None` when the
     * database was not called.
     */
    method Match(session: Session, lookup: GeoLookup) returns (r: MatchResult, ghost queried: Option<Address>)
      requires session.destination.WellFormed()
      modifies session`intCache
      ensures Evaluation(r, session.intCache, queried) == Evaluate(session.destination, old(session.intCache), lookup)
    {
      var found: CountryIsoCode;
      ghost var consulted: Address;
      if CountryIsoCodeCacheKey in session.intCache {
        found := session.intCache[CountryIsoCodeCacheKey];
        queried := None;
      } else {
        match session.destination
        case AddressDestination(address) =>
          found, consulted := LookupAndCache(session, address, lookup);
          queried := Some(consulted);
        case DomainDestination(domain) =>
          if domain.resolution.IsFailed() {
            return NotMatch, None;
          }
          if !domain.resolution.IsResolved() {
            return ResolveNeeded, None;
          }
          found, consulted := LookupAndCache(session, domain.resolution.addresses[0], lookup);
          queried := Some(consulted);
      }
      if (found == code) == matchIfEqual {
        r := MatchResult.Match;
      } else {
        r := NotMatch;
      }
    }
  }

  /** A cached code decides, whatever the destination (even a failed or pending domain). */
  lemma CacheHitDecides(rule: GeoRule, destination: Destination, cache: map<string, int>, lookup: GeoLookup)
    requires destination.WellFormed() && CountryIsoCodeCacheKey in cache
    ensures rule.Evaluate(destination, cache, lookup) ==
            Evaluation(rule.Decide(cache[CountryIsoCodeCacheKey]), cache, None)
  {
  }

  /** A failed domain with nothing cached is NotMatch, without lookup or cache write. */
  lemma FailedDomainNotMatch(rule: GeoRule, domain: Domain, cache: map<string, int>, lookup: GeoLookup)
    requires CountryIsoCodeCacheKey !in cache && domain.resolution.IsFailed()
    ensures rule.Evaluate(DomainDestination(domain), cache, lookup) == Evaluation(NotMatch, cache, None)
  {
  }

  /** A pending domain with nothing cached suspends, without lookup or cache write. */
  lemma PendingDomainSuspends(rule: GeoRule, domain: Domain, cache: map<string, int>, lookup: GeoLookup)
    requires CountryIsoCodeCacheKey !in cache
    requires !domain.resolution.IsFailed() && !domain.resolution.IsResolved()
    ensures rule.Evaluate(DomainDestination(domain), cache, lookup) == Evaluation(ResolveNeeded, cache, None)
  {
  }

  /** An address session with nothing cached is looked up on its address; only the key changes. */
  lemma AddressMissLooksUp(rule: GeoRule, address: Address, cache: map<string, int>, lookup: GeoLookup)
    requires CountryIsoCodeCacheKey !in cache
    ensures var e := rule.Evaluate(AddressDestination(address), cache, lookup);
      e.lookedUp == Some(address) &&
      e.cache[CountryIsoCodeCacheKey] == lookup(address) &&
      e.cache.Keys == cache.Keys + {CountryIsoCodeCacheKey} &&
      (forall k :: k in cache ==> e.cache[k] == cache[k]) &&
      e.verdict == rule.Decide(lookup(address))
  {
  }

  /** A resolved domain with nothing cached is looked up on its first address only. */
  lemma ResolvedDomainUsesFirstAddress(rule: GeoRule, domain: Domain, cache: map<string, int>, lookup: GeoLookup)
    requires CountryIsoCodeCacheKey !in cache
    requires domain.resolution.Resolved? && |domain.resolution.addresses| > 0
    ensures var e := rule.Evaluate(DomainDestination(domain), cache, lookup);
      var first := domain.resolution.addresses[0];
      e.lookedUp == Some(first) &&
      e.cache == cache[CountryIsoCodeCacheKey := lookup(first)] &&
      e.verdict == rule.Decide(lookup(first))
  {
  }

  /** The decision table: match-if-equal matches exactly the equal code, the inverse rule exactly the others. */
  lemma DecisionTable(rule: GeoRule, found: CountryIsoCode)
    ensures rule.matchIfEqual ==> (rule.Decide(found) == Match <==> found == rule.code)
    ensures !rule.matchIfEqual ==> (rule.Decide(found) == Match <==> found != rule.code)
    ensures rule.Decide(found) == Match || rule.Decide(found) == NotMatch
  {
  }

  /**
   * A second evaluation after a deciding one gives the same verdict from the
   * cache, with no lookup and no cache change; one that did not decide
   * leaves everything as it was, so it is simply repeated.
   */
  lemma EvaluateIdempotent(rule: GeoRule, destination: Destination, cache: map<string, int>, lookup: GeoLookup)
    requires destination.WellFormed()
    ensures var first := rule.Evaluate(destination, cache, lookup);
      var second := rule.Evaluate(destination, first.cache, lookup);
      second.lookedUp == None && second.verdict == first.verdict && second.cache == first.cache
  {
  }

  /**
   * Matches a fresh session (empty cache) twice: the second match is served
   * from the cache the first one filled, with the same verdict.
   */
  method MatchFreshSessionTwice(rule: GeoRule, destination: Destination, lookup: GeoLookup)
    returns (first: MatchResult, second: MatchResult)
    requires destination.WellFormed()
    ensures first == rule.Evaluate(destination, map[], lookup).verdict
    ensures second == first
    ensures destination.AddressDestination? ==> first == rule.Decide(lookup(destination.address))
  {
    var session := new Session(destination);
    ghost var queried;
    first, queried := rule.Match(session, lookup);
    EvaluateIdempotent(rule, destination, map[], lookup);
    second, queried := rule.Match(session, lookup);
    assert queried == None;
  }

  /**
   * Once an evaluation leaves the cache as it found it (a cached code, a
   * failed or a pending domain), every further evaluation repeats it.
   */
  lemma {:induction false} ReplayAtFixedPoint(rule: GeoRule, destination: Destination, cache: map<string, int>,
                                              lookup: GeoLookup, n: nat)
    requires destination.WellFormed()
    requires rule.Evaluate(destination, cache, lookup).cache == cache
    ensures forall e <- rule.Replay(destination, cache, lookup, n) :: e == rule.Evaluate(destination, cache, lookup)
  {
    if n > 0 {
      ReplayAtFixedPoint(rule, destination, cache, lookup, n - 1);
    }
  }

  /**
   * However often a rule is evaluated on one destination, only the first
   * evaluation can consult the database, and all give the same verdict and
   * leave the same cache.
   */
  lemma ReplayLooksUpAtMostOnce(rule: GeoRule, destination: Destination, cache: map<string, int>,
                                lookup: GeoLookup, n: nat)
    requires destination.WellFormed()
    ensures var es := rule.Replay(destination, cache, lookup, n);
      forall j :: 0 < j < |es| ==>
        es[j].lookedUp == None && es[j].verdict == es[0].verdict && es[j].cache == es[0].cache
  {
    if n > 1 {
      var es := rule.Replay(destination, cache, lookup, n);
      var first := rule.Evaluate(destination, cache, lookup);
      var rest := rule.Replay(destination, first.cache, lookup, n - 1);
      assert es == [first] + rest;
      EvaluateIdempotent(rule, destination, cache, lookup);
      ReplayAtFixedPoint(rule, destination, first.cache, lookup, n - 1);
      forall j | 0 < j < n
        ensures es[j].lookedUp == None && es[j].verdict == first.verdict && es[j].cache == first.cache
      {
        assert es[j] == rest[j - 1] && rest[j - 1] in rest;
      }
    }
  }

  /**
   * Suspension and resumption: while the domain is pending the rule suspends
   * with no lookup; once it resolves, the next evaluation looks up exactly the
   * first resolved address.
   */
  lemma ResumeAfterResolution(rule: GeoRule, name: string, pending: Resolution, addresses: seq<Address>,
                              cache: map<string, int>, lookup: GeoLookup)
    requires CountryIsoCodeCacheKey !in cache
    requires pending == Unresolved || pending == Resolving
    requires |addresses| > 0
    ensures var suspended := rule.Evaluate(DomainDestination(Domain(name, pending)), cache, lookup);
      var resumed := rule.Evaluate(DomainDestination(Domain(name, Resolved(addresses))), suspended.cache, lookup);
      suspended == Evaluation(ResolveNeeded, cache, None) &&
      resumed.lookedUp == Some(addresses[0]) &&
      resumed.verdict == rule.Decide(lookup(addresses[0]))
  {
  }
}
