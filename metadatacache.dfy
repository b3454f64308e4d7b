/**
 * The group-metadata cache of the bot (`GroupMetadataManager` in
 * `AmandaBOT.ts`): metadata fetched for a group is reused for five
 * minutes, and the cache can be cleared for one group or for all.
 */
module MetadataCache {
  import opened Common

  const CacheTtlMs: int := 5 * 60 * 1000

  /** The part of a group's metadata the bot reads. */
  datatype GroupMetadata = GroupMetadata(id: string, subject: string, participants: seq<string>)

  /** The two maps of the cache. */
  datatype Cache = Cache(metadata: map<string, GroupMetadata>, lastFetch: map<string, int>)

  /** `lastFetch.get(jid) || 0`. */
  function LastFetchOf(c: Cache, jid: string): int
  {
    if jid in c.lastFetch then c.lastFetch[jid] else 0
  }

  /**
   * The cache check of `getGroupMetadata`: the cached metadata when there
   * is some and it was fetched less than five minutes before `now`.
   */
  function Fresh(c: Cache, jid: string, now: int): (r: Option<GroupMetadata>)
    ensures r.Some? <==> jid in c.metadata && now - LastFetchOf(c, jid) < CacheTtlMs
    ensures r.Some? ==> r.value == c.metadata[jid]
  {
    if jid in c.metadata && now - LastFetchOf(c, jid) < CacheTtlMs then Some(c.metadata[jid]) else None
  }

  /** `clearCache(jid)`: without a group, both maps are emptied; with one, only its entries go. */
  function Cleared(c: Cache, jid: Option<string>): (r: Cache)
    ensures jid.None? ==> r.metadata == map[] && r.lastFetch == map[]
    ensures jid.Some? ==>
      && r.metadata.Keys == c.metadata.Keys - {jid.value}
      && r.lastFetch.Keys == c.lastFetch.Keys - {jid.value}
      && (forall g :: g in r.metadata ==> r.metadata[g] == c.metadata[g])
      && (forall g :: g in r.lastFetch ==> r.lastFetch[g] == c.lastFetch[g])
  {
    if jid.Some? then Cache(c.metadata - {jid.value}, c.lastFetch - {jid.value}) else Cache(map[], map[])
  }

  class GroupMetadataManager {
    var metadataCache: map<string, GroupMetadata>
    var lastFetch: map<string, int>

    function State(): Cache
      reads this
    {
      Cache(metadataCache, lastFetch)
    }

    constructor ()
      ensures State() == Cache(map[], map[])
    {
      metadataCache := map[];
      lastFetch := map[];
    }

    /**
     * `getGroupMetadata(jid)` at `now`, `fetched` being what the fetch
     * would return (the group's metadata, or the default one the fetch
     * falls back to): a fresh cached entry is returned untouched; otherwise
     * the fetched metadata is stored, stamped with `now`, and returned.
     */
    method GetGroupMetadata(jid: string, now: int, fetched: GroupMetadata) returns (m: GroupMetadata)
      modifies this
      ensures var hit := Fresh(old(State()), jid, now);
        && (hit.Some? ==> m == hit.value && State() == old(State()))
        && (hit.None? ==>
              && m == fetched
              && State() == Cache(old(metadataCache)[jid := fetched], old(lastFetch)[jid := now]))
    {
      var cached := if jid in metadataCache then Some(metadataCache[jid]) else None;
      var lastFetchTime := if jid in lastFetch then lastFetch[jid] else 0;
      if cached.Some? && now - lastFetchTime < CacheTtlMs {
        return cached.value;
      }
      metadataCache := metadataCache[jid := fetched];
      lastFetch := lastFetch[jid := now];
      m := fetched;
    }

    /** `clearCache(jid?)`. */
    method ClearCache(jid: Option<string>)
      modifies this
      ensures State() == Cleared(old(State()), jid)
    {
      if jid.Some? {
        metadataCache := metadataCache - {jid.value};
        lastFetch := lastFetch - {jid.value};
      } else {
        metadataCache := map[];
        lastFetch := map[];
      }
    }
  }

  /** Metadata just stored is served from the cache for the next five minutes, and not after. */
  lemma StoredServedForTtl(c: Cache, jid: string, m: GroupMetadata, fetchedAt: int, now: int)
    ensures Fresh(Cache(c.metadata[jid := m], c.lastFetch[jid := fetchedAt]), jid, now) ==
      (if now - fetchedAt < CacheTtlMs then Some(m) else None)
  {
  }

  /**
   * Clearing one group's entry makes its next lookup miss and leaves every
   * other group's lookup as it was; clearing everything makes every lookup miss.
   */
  lemma ClearedLookups(c: Cache, jid: Option<string>, g: string, now: int)
    ensures jid.None? ==> Fresh(Cleared(c, jid), g, now).None?
    ensures jid == Some(g) ==> Fresh(Cleared(c, jid), g, now).None?
    ensures jid.Some? && jid.value != g ==> Fresh(Cleared(c, jid), g, now) == Fresh(c, g, now)
  {
  }
}
