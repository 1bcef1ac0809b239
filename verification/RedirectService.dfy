/** The redirect cache and service as their methods run on their own: backend/internal/codes/redirect.go. */
module RedirectService {
  import opened Basics
  import opened Rfc3339
  import opened Tables
  import opened Protocol
  import opened CodesRepository

  datatype Cached = Cached(target: Target, expires: Instant)

  /** RedisCache: SET with the one-hour TTL, GET, DEL. */
  class RedisCache {
    var entries: map<string, Cached>
    var now: Instant

    constructor (start: Instant)
      ensures entries == map[] && now == start
    {
      entries, now := map[], start;
    }

    predicate Has(slug: string)
      reads this
    {
      slug in entries && now < entries[slug].expires
    }

    function Hit(slug: string): Option<Target>
      reads this
    {
      if Has(slug) then Some(entries[slug].target) else None
    }

    /** Every entry that can still be served is what the tables say. */
    ghost predicate CoherentWith(db: Db)
      reads this
    {
      forall slug <- entries :: now < entries[slug].expires ==> ResolveSlug(db, slug) == Some(entries[slug].target)
    }

    /** A miss is not an error. */
    method Lookup(slug: string, fault: Fault) returns (target: Option<Target>, failed: bool)
      ensures failed <==> !fault.Fine?
      ensures target == if fault.Fine? then Hit(slug) else None
    {
      if !fault.Fine? {
        return None, true;
      }
      if slug !in entries || entries[slug].expires <= now {
        return None, false;
      }
      return Some(entries[slug].target), false;
    }

    method Store(slug: string, target: Target, fault: Fault) returns (failed: bool)
      modifies this`entries
      ensures failed <==> !fault.Fine?
      ensures entries == if fault.Failed? then old(entries)
                         else old(entries)[slug := Cached(target, now + 3_600_000_000_000)]
    {
      if !fault.Failed? {
        entries := entries[slug := Cached(target, now + REDIRECT_TTL)];
      }
      failed := !fault.Fine?;
    }

    method Invalidate(slug: string, fault: Fault) returns (failed: bool)
      modifies this`entries
      ensures failed <==> !fault.Fine?
      ensures entries == if fault.Failed? then old(entries) else old(entries) - {slug}
    {
      if !fault.Failed? {
        entries := entries - {slug};
      }
      failed := !fault.Fine?;
    }

    /** Time passes and Redis drops whatever it likes. */
    method Wait(elapsed: nat, dropped: set<string>)
      modifies this
      ensures now == old(now) + elapsed && entries == old(entries) - dropped
      ensures forall db: Db :: old(CoherentWith(db)) ==> CoherentWith(db)
    {
      now := now + elapsed;
      entries := entries - dropped;
    }
  }

  /** What a Resolve answers, given what the cache holds and what the tables say. */
  function AnswerOf(hit: Option<Target>, lookup: Fault, row: Option<Target>, query: Fault): Answer {
    if lookup.Fine? && hit.Some? then Found(hit.value.destination)
    else if !query.Fine? then Unavailable
    else match row case None => NotFound case Some(t) => Found(t.destination)
  }

  /** Whether it leaves a new entry. */
  predicate Stores(hit: Option<Target>, lookup: Fault, row: Option<Target>, query: Fault, store: Fault) {
    !(lookup.Fine? && hit.Some?) && query.Fine? && row.Some? && !store.Failed?
  }

  class RedirectService {
    const repo: Repository
    const cache: RedisCache

    constructor (repo: Repository, cache: RedisCache)
      ensures this.repo == repo && this.cache == cache
    {
      this.repo, this.cache := repo, cache;
    }

    /**
     Cache first, then the tables, storing what they say; a cache error is a miss. With a coherent cache the answer is
     exactly ResolveSlug's, and the cache stays coherent.
     */
    method Resolve(slug: string, lookup: Fault, query: Fault, store: Fault) returns (answer: Answer)
      modifies cache`entries
      ensures var hit, row := old(cache.Hit(slug)), ResolveSlug(repo.db, slug);
              && answer == AnswerOf(hit, lookup, row, query)
              && cache.entries == if Stores(hit, lookup, row, query, store)
                                  then old(cache.entries)[slug := Cached(row.value, cache.now + REDIRECT_TTL)]
                                  else old(cache.entries)
      ensures var entries, row := old(cache.entries), ResolveSlug(repo.db, slug);
              if lookup.Fine? && slug in entries && cache.now < entries[slug].expires then
                answer == Found(entries[slug].target.destination) && cache.entries == entries
              else if !query.Fine? then answer == Unavailable && cache.entries == entries
              else if row.None? then answer == NotFound && cache.entries == entries
              else
                && answer == Found(row.value.destination)
                && cache.entries == if store.Failed? then entries
                                    else entries[slug := Cached(row.value, cache.now + 3_600_000_000_000)]
      ensures old(cache.CoherentWith(repo.db)) ==>
                && cache.CoherentWith(repo.db)
                && (answer.Unavailable? ==> !query.Fine?)
                && (answer.NotFound? ==> ResolveSlug(repo.db, slug).None?)
                && (answer.Found? ==> ResolveSlug(repo.db, slug).Some?
                                      && ResolveSlug(repo.db, slug).value.destination == answer.destination)
    {
      var target, failed := cache.Lookup(slug, lookup);
      if !failed && target.Some? {
        return Found(target.value.destination);
      }
      if !query.Fine? {
        return Unavailable;
      }
      var row := ResolveSlug(repo.db, slug);
      if row.None? {
        return NotFound;
      }
      var _ := cache.Store(slug, row.value, store);
      answer := Found(row.value.destination);
    }
  }
}
