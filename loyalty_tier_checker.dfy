/**
 * The loyalty-tier lookup behind free shipping: an in-memory map for the current
 * process, a persistent cache with a lifetime in front of the ledger's
 * loyalty-status call, and the check whether the tier found is one of the
 * configured free-shipping tiers.
 */
module LoyaltyTierChecker {
  import opened Wrappers
  import opened Php

  /**
   * The outcome of the loyalty-status call: the HTTP status and the decoded
   * body's `currentTier` (None when the body is not JSON or the field is
   * missing or null), or an exception.
   */
  datatype TierReply = Answered(status: int, currentTier: Option<string>) | Threw

  /** The settings the checker reads. */
  datatype Settings = Settings(
    enabled: bool,
    freeShippingEnabled: bool,
    apiUrl: Option<string>,
    freeShippingTiers: seq<string>,
    cacheLifetime: int)

  /**
   * `fetchTierFromAPI`: None without a configured URL (and then no call is made);
   * otherwise the `currentTier` of a 2xx answer, and None for any other answer or
   * an exception.
   */
  function Fetched(apiUrl: Option<string>, reply: TierReply): (t: Option<string>)
    ensures !TruthyOpt(apiUrl) || reply.Threw? ==> t.None?
    ensures TruthyOpt(apiUrl) && reply.Answered? && 200 <= reply.status < 300 ==> t == reply.currentTier
    ensures reply.Answered? && !(200 <= reply.status < 300) ==> t.None?
  {
    if !TruthyOpt(apiUrl) then None
    else match reply
      case Threw => None
      case Answered(status, tier) => if 200 <= status < 300 then tier else None
  }

  /** A persistent cache entry: the stored text and the time it expires. */
  datatype Entry = Entry(value: string, expiresAt: int)

  /** The persistent tier cache, keyed by e-mail, whose entries all carry the tag `loyalty_tier`. */
  class TierCache {
    var entries: map<string, Entry>

    constructor ()
      ensures entries == map[]
    {
      entries := map[];
    }

    /** `load`: the stored text if it has not expired at `now`, otherwise None (`false`). */
    function Load(email: string, now: int): Option<string>
      reads this
    {
      if email in entries && now < entries[email].expiresAt then Some(entries[email].value) else None
    }

    /** `save` with a lifetime in seconds. */
    method Save(email: string, value: string, now: int, lifetime: int)
      modifies this`entries
      ensures entries == old(entries)[email := Entry(value, now + lifetime)]
    {
      entries := entries[email := Entry(value, now + lifetime)];
    }

    /** `remove`. */
    method Remove(email: string)
      modifies this`entries
      ensures entries == old(entries) - {email}
    {
      entries := entries - {email};
    }

    /** `clean(['loyalty_tier'])`: every entry carries the tag, so all go. */
    method Clean()
      modifies this`entries
      ensures entries == map[]
    {
      entries := map[];
    }
  }

  /** The state a lookup works on: the in-memory map, the persistent entries and the e-mails fetched so far. */
  datatype Caches = Caches(memory: map<string, Option<string>>, persistent: map<string, Entry>, fetches: seq<string>)

  function LoadAt(persistent: map<string, Entry>, email: string, now: int): Option<string> {
    if email in persistent && now < persistent[email].expiresAt then Some(persistent[email].value) else None
  }

  /** `$x ?: null` for a string. */
  function NullIfFalsy(s: string): Option<string> {
    if TruthyString(s) then Some(s) else None
  }

  /**
   * `getCustomerTier` on values: the new state and the tier returned. A set
   * (non-null) memory entry answers at once; else a live persistent entry is
   * copied into memory as it is and returned with falsy texts as null; else the
   * ledger is asked, and the answer is stored persistently ('' for a falsy one)
   * and in memory as it is.
   */
  function Lookup(c: Caches, email: string, now: int, s: Settings, reply: TierReply): (Caches, Option<string>) {
    if email in c.memory && c.memory[email].Some? then (c, c.memory[email])
    else
      match LoadAt(c.persistent, email, now)
      case Some(v) => (c.(memory := c.memory[email := Some(v)]), NullIfFalsy(v))
      case None =>
        var tier := Fetched(s.apiUrl, reply);
        var stored := if tier.Some? && TruthyString(tier.value) then tier.value else "";
        (Caches(c.memory[email := tier], c.persistent[email := Entry(stored, now + s.cacheLifetime)],
                c.fetches + (if TruthyOpt(s.apiUrl) then [email] else [])),
         tier)
  }

  /** A set memory entry is returned without touching the persistent cache or the ledger. */
  lemma MemoryHit(c: Caches, email: string, now: int, s: Settings, reply: TierReply)
    requires email in c.memory && c.memory[email].Some?
    ensures Lookup(c, email, now, s, reply) == (c, c.memory[email])
  {
  }

  /**
   * A live persistent entry makes no call; a stored '' comes back as null, but the
   * memory then holds '', so the next lookup returns ''.
   */
  lemma PersistentHit(c: Caches, email: string, now: int, s: Settings, reply: TierReply, reply2: TierReply)
    requires !(email in c.memory && c.memory[email].Some?)
    requires email in c.persistent && now < c.persistent[email].expiresAt
    ensures var (c1, t) := Lookup(c, email, now, s, reply);
      c1.fetches == c.fetches && c1.persistent == c.persistent
      && c1.memory == c.memory[email := Some(c.persistent[email].value)]
      && (c.persistent[email].value == "" ==> t.None? && Lookup(c1, email, now, s, reply2).1 == Some(""))
  {
  }

  /**
   * On a miss there is one call at most (none without a URL); the answer is
   * stored with the configured lifetime, nothing else changes, and the stored
   * text is '' exactly when the answer is falsy.
   */
  lemma Miss(c: Caches, email: string, now: int, s: Settings, reply: TierReply)
    requires !(email in c.memory && c.memory[email].Some?)
    requires LoadAt(c.persistent, email, now).None?
    ensures var (c1, t) := Lookup(c, email, now, s, reply);
      t == Fetched(s.apiUrl, reply)
      && c1.fetches == c.fetches + (if TruthyOpt(s.apiUrl) then [email] else [])
      && c1.memory == c.memory[email := t]
      && email in c1.persistent && c1.persistent[email].expiresAt == now + s.cacheLifetime
      && (c1.persistent[email].value == "" <==> !TruthyOpt(t))
      && (TruthyOpt(t) ==> c1.persistent[email].value == t.value)
      && (forall e :: e != email ==> (e in c1.persistent <==> e in c.persistent))
      && (forall e :: e != email && e in c.persistent ==> c1.persistent[e] == c.persistent[e])
  {
  }

  /**
   * Caching works: a second lookup of the same e-mail before the entry expires
   * never calls the ledger, and returns a truthy tier the first lookup found.
   */
  lemma SecondLookupIsCached(c: Caches, email: string, now: int, later: int, s: Settings,
                             reply: TierReply, reply2: TierReply)
    requires now <= later < now + s.cacheLifetime
    ensures var (c1, t) := Lookup(c, email, now, s, reply);
      var (c2, t2) := Lookup(c1, email, later, s, reply2);
      c2.fetches == c1.fetches && (TruthyOpt(t) ==> t2 == t)
  {
    var (c1, t) := Lookup(c, email, now, s, reply);
    if !(email in c.memory && c.memory[email].Some?) && LoadAt(c.persistent, email, now).None? {
      assert c1.persistent[email].expiresAt == now + s.cacheLifetime;
      assert LoadAt(c1.persistent, email, later).Some?;
    }
  }

  /**
   * `qualifiesForFreeShipping` once the tier is known: the tier must be truthy and
   * one of the configured tiers, compared strictly (`in_array(..., true)`).
   */
  predicate TierQualifies(tier: Option<string>, tiers: seq<string>) {
    TruthyOpt(tier) && tier.value in tiers
  }

  /** The e-mail the check uses: the given one when truthy, else the logged-in customer's. */
  function EmailFor(given: Option<string>, sessionEmail: Option<string>): Option<string> {
    if TruthyOpt(given) then given else sessionEmail
  }

  class Checker {
    /** The in-memory map; an entry may hold null, which `isset` treats as absent. */
    var memory: map<string, Option<string>>
    /** The e-mails the ledger was asked about, in order. */
    var fetches: seq<string>
    const cache: TierCache

    constructor (cache: TierCache)
      ensures this.cache == cache && memory == map[] && fetches == []
    {
      this.cache := cache;
      memory := map[];
      fetches := [];
    }

    function State(): Caches
      reads this, cache
    {
      Caches(memory, cache.entries, fetches)
    }

    /** `getCustomerTier`; `reply` is what the ledger would answer, used only on a miss. */
    method GetCustomerTier(email: string, now: int, s: Settings, reply: TierReply) returns (tier: Option<string>)
      modifies this`memory, this`fetches, cache`entries
      ensures (State(), tier) == Lookup(old(State()), email, now, s, reply)
    {
      if email in memory && memory[email].Some? {
        return memory[email];
      }
      var cached := cache.Load(email, now);
      if cached.Some? {
        memory := memory[email := cached];
        return NullIfFalsy(cached.value);
      }
      tier := FetchTierFromApi(email, s.apiUrl, reply);
      var stored := if tier.Some? && TruthyString(tier.value) then tier.value else "";
      cache.Save(email, stored, now, s.cacheLifetime);
      memory := memory[email := tier];
    }

    /** `fetchTierFromAPI`: records the call when a URL is configured. */
    method FetchTierFromApi(email: string, apiUrl: Option<string>, reply: TierReply) returns (tier: Option<string>)
      modifies this`fetches
      ensures tier == Fetched(apiUrl, reply)
      ensures fetches == old(fetches) + (if TruthyOpt(apiUrl) then [email] else [])
    {
      if !TruthyOpt(apiUrl) {
        return None;
      }
      fetches := fetches + [email];
      tier := Fetched(apiUrl, reply);
    }

    /**
     * `qualifiesForFreeShipping`. Disabled module or feature, or no e-mail: false
     * with no lookup. Otherwise the tier is looked up and must qualify.
     */
    method QualifiesForFreeShipping(given: Option<string>, sessionEmail: Option<string>, now: int,
                                    s: Settings, reply: TierReply)
      returns (qualifies: bool)
      modifies this`memory, this`fetches, cache`entries
      ensures var email := EmailFor(given, sessionEmail);
        if !s.enabled || !s.freeShippingEnabled || !TruthyOpt(email)
        then !qualifies && State() == old(State())
        else
          var (c1, t) := Lookup(old(State()), email.value, now, s, reply);
          State() == c1 && qualifies == TierQualifies(t, s.freeShippingTiers)
    {
      if !s.enabled || !s.freeShippingEnabled {
        return false;
      }
      var email := given;
      if !TruthyOpt(email) {
        email := sessionEmail;
      }
      if !TruthyOpt(email) {
        return false;
      }
      var tier := GetCustomerTier(email.value, now, s, reply);
      if !TruthyOpt(tier) {
        return false;
      }
      qualifies := tier.value in s.freeShippingTiers;
    }

    /** `clearTierCache`: forgets one e-mail at both levels. */
    method ClearTierCache(email: string)
      modifies this`memory, cache`entries
      ensures memory == old(memory) - {email} && cache.entries == old(cache.entries) - {email}
    {
      cache.Remove(email);
      memory := memory - {email};
    }

    /** `clearAllTierCaches`: empties both levels. */
    method ClearAllTierCaches()
      modifies this`memory, cache`entries
      ensures memory == map[] && cache.entries == map[]
    {
      cache.Clean();
      memory := map[];
    }
  }

  /** After clearing an e-mail, its next lookup goes to the ledger (when a URL is set), and other e-mails keep their entries. */
  lemma ClearedLookupFetches(c: Caches, email: string, now: int, s: Settings, reply: TierReply)
    requires TruthyOpt(s.apiUrl)
    ensures var cleared := Caches(c.memory - {email}, c.persistent - {email}, c.fetches);
      Lookup(cleared, email, now, s, reply).0.fetches == c.fetches + [email]
  {
  }
}
