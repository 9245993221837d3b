/** The reference list of a MIBiG entry page: one link per cited identifier,
    with titles and info lines filled from the PubMed and DOI caches
    (mibig_html/annotations/html_output.py, `ReferenceLink` and
    `ReferenceCollection`). */
module References {
  import opened Basics
  import opened Citations
  import opened Caches

  /** A link on the page: the citation, and the title and info line shown for it. */
  datatype ReferenceLink = ReferenceLink(citation: Citation, title: string, info: string)

  /** A citation that gets a link: everything except the PubMed sentinel "0". */
  predicate Linked(p: Citation)
  {
    !(p.database == "pubmed" && p.value == "0")
  }

  /** The links the constructor files, keyed by citation value: a later citation
      with an already present value replaces that link but keeps its place. */
  function LinksOf(pubs: seq<Citation>): (d: Dict<string, ReferenceLink>)
    ensures d.Valid()
  {
    if pubs == [] then EmptyDict()
    else
      var p := pubs[|pubs| - 1];
      var d := LinksOf(pubs[..|pubs| - 1]);
      if Linked(p) then d.Put(p.value, ReferenceLink(p, "", "")) else d
  }

  /** The values of the linked citations, in input order, repeats included. */
  function LinkedValues(pubs: seq<Citation>): seq<string>
  {
    if pubs == [] then []
    else
      var p := pubs[|pubs| - 1];
      LinkedValues(pubs[..|pubs| - 1]) + if Linked(p) then [p.value] else []
  }

  /** The PubMed identifiers to resolve: every "pubmed" citation's value except "0". */
  function PmidsOf(pubs: seq<Citation>): seq<string>
  {
    if pubs == [] then []
    else
      var p := pubs[|pubs| - 1];
      PmidsOf(pubs[..|pubs| - 1]) + if p.database == "pubmed" && p.value != "0" then [p.value] else []
  }

  /** The DOIs to resolve: every "doi" citation's value. */
  function DoisOf(pubs: seq<Citation>): seq<string>
  {
    if pubs == [] then []
    else
      var p := pubs[|pubs| - 1];
      DoisOf(pubs[..|pubs| - 1]) + if p.database == "doi" then [p.value] else []
  }

  /** The position of the first occurrence of `x` in `vs`. */
  function FirstIndex(vs: seq<string>, x: string): (i: nat)
    requires x in vs
    ensures i < |vs| && vs[i] == x
    ensures forall j | 0 <= j < i :: vs[j] != x
  {
    if vs[0] == x then 0 else 1 + FirstIndex(vs[1..], x)
  }

  lemma FirstIndexSnoc(vs: seq<string>, y: string, x: string)
    requires x in vs + [y]
    ensures x in vs ==> FirstIndex(vs + [y], x) == FirstIndex(vs, x)
    ensures x !in vs ==> FirstIndex(vs + [y], x) == |vs|
  {
    if x in vs {
      assert (vs + [y])[FirstIndex(vs, x)] == x;
    }
  }

  /** One more cited value keeps the first-encounter order of the distinct values. */
  lemma FirstEncounterStep(vs: seq<string>, keys: seq<string>, v: string)
    requires Elems(keys) == Elems(vs)
    requires forall i, j | 0 <= i < j < |keys| :: FirstIndex(vs, keys[i]) < FirstIndex(vs, keys[j])
    ensures var keys' := if v in keys then keys else keys + [v];
      && Elems(keys') == Elems(vs + [v])
      && forall i, j | 0 <= i < j < |keys'| :: FirstIndex(vs + [v], keys'[i]) < FirstIndex(vs + [v], keys'[j])
  {
    var keys' := if v in keys then keys else keys + [v];
    ElemsSnoc(vs, v);
    if v !in keys {
      ElemsSnoc(keys, v);
    }
    forall i, j | 0 <= i < j < |keys'|
      ensures FirstIndex(vs + [v], keys'[i]) < FirstIndex(vs + [v], keys'[j])
    {
      assert keys'[i] == keys[i] && keys[i] in Elems(vs);
      FirstIndexSnoc(vs, v, keys[i]);
      if j < |keys| {
        assert keys'[j] == keys[j] && keys[j] in Elems(vs);
        FirstIndexSnoc(vs, v, keys[j]);
      } else {
        assert keys'[j] == v && v !in Elems(vs);
        FirstIndexSnoc(vs, v, v);
      }
    }
  }

  /** One more citation extends the cited values and the link keys. */
  lemma LinksSnoc(pubs: seq<Citation>)
    requires pubs != []
    ensures var init := pubs[..|pubs| - 1];
      var p := pubs[|pubs| - 1];
      var keys := LinksOf(init).keys;
      && (!Linked(p) ==> LinkedValues(pubs) == LinkedValues(init) && LinksOf(pubs).keys == keys)
      && (Linked(p) ==> LinkedValues(pubs) == LinkedValues(init) + [p.value])
      && (Linked(p) ==> LinksOf(pubs).keys == if p.value in keys then keys else keys + [p.value])
  {
    var d := LinksOf(pubs[..|pubs| - 1]);
    var p := pubs[|pubs| - 1];
    assert p.value in d.entries <==> p.value in d.keys by {
      assert d.Valid();
    }
  }

  /** `get_links` lists each linked value once, in the order in which the
      values are first cited. */
  lemma {:induction false} LinksFirstEncounterOrder(pubs: seq<Citation>)
    ensures Elems(LinksOf(pubs).keys) == Elems(LinkedValues(pubs))
    ensures forall i, j | 0 <= i < j < |LinksOf(pubs).keys| ::
      FirstIndex(LinkedValues(pubs), LinksOf(pubs).keys[i]) < FirstIndex(LinkedValues(pubs), LinksOf(pubs).keys[j])
  {
    if pubs != [] {
      var init := pubs[..|pubs| - 1];
      var p := pubs[|pubs| - 1];
      LinksFirstEncounterOrder(init);
      LinksSnoc(pubs);
      if Linked(p) {
        FirstEncounterStep(LinkedValues(init), LinksOf(init).keys, p.value);
      }
    }
  }

  /** `pubs[k]` is the last linked citation of `pubs` whose value is `v`. */
  ghost predicate LastCitationOf(pubs: seq<Citation>, k: int, v: string)
  {
    && 0 <= k < |pubs| && Linked(pubs[k]) && pubs[k].value == v
    && forall l | k < l < |pubs| :: !(Linked(pubs[l]) && pubs[l].value == v)
  }

  lemma LastCitationSnoc(init: seq<Citation>, p: Citation, k: int, v: string)
    requires LastCitationOf(init, k, v)
    requires !(Linked(p) && p.value == v)
    ensures LastCitationOf(init + [p], k, v)
  {
    var pubs := init + [p];
    forall l | k < l < |pubs| ensures !(Linked(pubs[l]) && pubs[l].value == v) {
      if l < |init| {
        assert pubs[l] == init[l];
      }
    }
  }

  /** Each link belongs to the last linked citation with its value, and starts
      with an empty title and info line. */
  lemma {:induction false} LinkIsLastCitation(pubs: seq<Citation>, v: string)
    requires v in LinksOf(pubs).entries
    ensures exists k :: LastCitationOf(pubs, k, v) && LinksOf(pubs).entries[v] == ReferenceLink(pubs[k], "", "")
  {
    var init := pubs[..|pubs| - 1];
    var p := pubs[|pubs| - 1];
    assert pubs == init + [p];
    if Linked(p) && p.value == v {
      assert LastCitationOf(pubs, |pubs| - 1, v);
    } else {
      LinkIsLastCitation(init, v);
      var k :| LastCitationOf(init, k, v) && LinksOf(init).entries[v] == ReferenceLink(init[k], "", "");
      LastCitationSnoc(init, p, k, v);
      assert pubs[k] == init[k];
    }
  }

  /** The sentinel "0" is never resolved as a PubMed identifier. */
  lemma {:induction false} SentinelNeverResolved(pubs: seq<Citation>)
    ensures "0" !in PmidsOf(pubs)
  {
    if pubs != [] {
      SentinelNeverResolved(pubs[..|pubs| - 1]);
    }
  }

  /** The identifiers asked of the PubMed service are collected PubMed
      identifiers the cache lacks, so the sentinel "0" is never fetched. */
  lemma SentinelNeverFetched(m: map<string, PubmedEntry>, pubs: seq<Citation>)
    ensures forall x | x in MissingFrom(m, PmidsOf(pubs)) :: x in PmidsOf(pubs) && x !in m && x != "0"
  {
    SentinelNeverResolved(pubs);
    assert forall x | x in MissingFrom(m, PmidsOf(pubs)) :: x in Elems(MissingFrom(m, PmidsOf(pubs)));
  }

  /** Every identifier to resolve has a link, so resolution always finds one. */
  lemma {:induction false} PendingAreLinked(pubs: seq<Citation>)
    ensures forall x | x in PmidsOf(pubs) :: x in LinksOf(pubs).entries
    ensures forall x | x in DoisOf(pubs) :: x in LinksOf(pubs).entries
  {
    if pubs != [] {
      PendingAreLinked(pubs[..|pubs| - 1]);
    }
  }

  /** A value cited only from databases other than PubMed and DOI is never
      resolved, so its link keeps the empty title and info line. */
  lemma {:induction false} OtherDatabasesUnresolved(pubs: seq<Citation>, v: string)
    requires forall k | 0 <= k < |pubs| && pubs[k].value == v :: pubs[k].database != "pubmed" && pubs[k].database != "doi"
    ensures v !in PmidsOf(pubs) && v !in DoisOf(pubs)
  {
    if pubs != [] {
      var init := pubs[..|pubs| - 1];
      assert forall k | 0 <= k < |init| :: init[k] == pubs[k];
      OtherDatabasesUnresolved(init, v);
    }
  }

  /** A link with the title and info line of a PubMed entry that has authors. */
  function FilledFromPubmed(link: ReferenceLink, e: PubmedEntry): (r: ReferenceLink)
    requires |e.authors| > 0
    ensures r.citation == link.citation && r.title == e.title && Some(r.info) == e.Info()
  {
    link.(title := e.title, info := e.Info().value)
  }

  /** A link with the title and info line of a DOI cache entry. */
  function FilledFromDoi(link: ReferenceLink, e: DoiEntry): (r: ReferenceLink)
    ensures r.citation == link.citation && r.title == e.title && r.info == e.info
  {
    link.(title := e.title, info := e.info)
  }

  /** `after` is `before` with the link of each of `ids` filled from its
      PubMed entry, which has authors, and every other link as it was. */
  ghost predicate PubmedFilled(ids: seq<string>, before: map<string, ReferenceLink>, after: map<string, ReferenceLink>,
                               cache: map<string, PubmedEntry>)
  {
    && after.Keys == before.Keys
    && (forall x | x in ids :: x in before && x in cache && |cache[x].authors| > 0)
    && (forall x | x in ids :: after[x] == FilledFromPubmed(before[x], cache[x]))
    && (forall k | k in after && k !in ids :: after[k] == before[k])
  }

  /** Filling one more link keeps the others filled; filling a link twice
      from the same entry is filling it once. */
  lemma PubmedFilledStep(ids: seq<string>, pmid: string, before: map<string, ReferenceLink>, mid: map<string, ReferenceLink>,
                         after: map<string, ReferenceLink>, cache: map<string, PubmedEntry>)
    requires PubmedFilled(ids, before, mid, cache)
    requires pmid in mid && pmid in cache && |cache[pmid].authors| > 0
    requires after == mid[pmid := FilledFromPubmed(mid[pmid], cache[pmid])]
    ensures PubmedFilled(ids + [pmid], before, after, cache)
  {
    forall x | x in ids + [pmid] ensures after[x] == FilledFromPubmed(before[x], cache[x]) {
      if x == pmid && pmid !in ids {
        assert mid[pmid] == before[pmid];
      }
    }
  }

  /** A fill stopped at `ids[i]` changed no link outside `ids`. */
  lemma PubmedStoppedAt(ids: seq<string>, i: int, before: map<string, ReferenceLink>, mid: map<string, ReferenceLink>,
                        after: map<string, ReferenceLink>, cache: map<string, PubmedEntry>)
    requires 0 <= i < |ids|
    requires PubmedFilled(ids[..i], before, mid, cache)
    requires after.Keys == mid.Keys
    requires forall k | k in after && k != ids[i] :: after[k] == mid[k]
    ensures forall k | k in after && k !in ids :: after[k] == before[k]
  {
    forall k | k in after && k !in ids ensures after[k] == before[k] {
      assert k !in ids[..i];
    }
  }

  /** `cache` is `cache0` with entries added only for DOIs of `ids` that the
      lookup service answered, with its answer; nothing cached is replaced. */
  ghost predicate DoiCacheGrown(ids: seq<string>, cache0: map<string, DoiEntry>, cache: map<string, DoiEntry>,
                                lookup: string -> Option<DoiEntry>)
  {
    && (forall k | k in cache0 :: k in cache && cache[k] == cache0[k])
    && (forall k | k in cache && k !in cache0 :: k in ids && lookup(k) == Some(cache[k]))
  }

  /** `after` is `before` with the link of each of `ids` filled from its DOI
      cache entry, and every other link as it was. */
  ghost predicate DoiFilled(ids: seq<string>, before: map<string, ReferenceLink>, after: map<string, ReferenceLink>,
                            cache: map<string, DoiEntry>)
  {
    && after.Keys == before.Keys
    && (forall x | x in ids :: x in before && x in cache)
    && (forall x | x in ids :: after[x] == FilledFromDoi(before[x], cache[x]))
    && (forall k | k in after && k !in ids :: after[k] == before[k])
  }

  /** Resolving one more DOI keeps the earlier links filled: an entry, once
      cached, is never replaced, so a DOI met twice is filled the same way. */
  lemma DoiFilledStep(ids: seq<string>, doi: string, before: map<string, ReferenceLink>, mid: map<string, ReferenceLink>,
                      after: map<string, ReferenceLink>, cacheMid: map<string, DoiEntry>, cache: map<string, DoiEntry>, e: DoiEntry)
    requires DoiFilled(ids, before, mid, cacheMid)
    requires doi in mid
    requires forall k | k in cacheMid :: k in cache && cache[k] == cacheMid[k]
    requires doi in cache && cache[doi] == e
    requires after == mid[doi := FilledFromDoi(mid[doi], e)]
    ensures DoiFilled(ids + [doi], before, after, cache)
  {
    forall x | x in ids + [doi] ensures x in before && x in cache && after[x] == FilledFromDoi(before[x], cache[x]) {
      if x == doi && doi !in ids {
        assert mid[doi] == before[doi];
      } else if x != doi {
        assert x in ids;
      }
    }
  }

  /** Looking up one more DOI keeps the cache grown only by answered lookups. */
  lemma DoiCacheGrownStep(ids: seq<string>, doi: string, cache0: map<string, DoiEntry>, cacheMid: map<string, DoiEntry>,
                          cache: map<string, DoiEntry>, lookup: string -> Option<DoiEntry>, e: DoiEntry)
    requires DoiCacheGrown(ids, cache0, cacheMid, lookup)
    requires DoiGet(cacheMid, doi, lookup) == DoiFetch(Success(e), cache)
    ensures DoiCacheGrown(ids + [doi], cache0, cache, lookup)
  {
    forall k | k in cache && k !in cache0 ensures k in ids + [doi] && lookup(k) == Some(cache[k]) {
      if k != doi {
        assert k in cacheMid;
      }
    }
  }

  /** Every DOI of a filled list was cached before or answered by the service. */
  lemma DoiFilledResolved(ids: seq<string>, before: map<string, ReferenceLink>, after: map<string, ReferenceLink>,
                          cache0: map<string, DoiEntry>, cache: map<string, DoiEntry>, lookup: string -> Option<DoiEntry>)
    requires DoiCacheGrown(ids, cache0, cache, lookup) && DoiFilled(ids, before, after, cache)
    ensures forall x | x in ids :: x in cache0 || lookup(x).Some?
  {
    forall x | x in ids ensures x in cache0 || lookup(x).Some? {
      assert x in cache;
    }
  }

  /** Filling from PubMed and then from the DOI cache: a DOI link ends up
      filled from the DOI cache, any other PubMed link from PubMed, and every
      other link as it was. */
  lemma ResolvedLinks(pmids: seq<string>, dois: seq<string>, e0: map<string, ReferenceLink>, e1: map<string, ReferenceLink>,
                      e2: map<string, ReferenceLink>, pc: map<string, PubmedEntry>, dc: map<string, DoiEntry>)
    requires e1.Keys == e0.Keys
    requires forall x | x in pmids :: x in pc && |pc[x].authors| > 0
    requires forall x | x in pmids :: x in e0 && e1[x] == FilledFromPubmed(e0[x], pc[x])
    requires forall k | k in e1 && k !in pmids :: e1[k] == e0[k]
    requires DoiFilled(dois, e1, e2, dc)
    ensures forall k | k in e2 && k !in pmids && k !in dois :: e2[k] == e0[k]
    ensures forall x | x in pmids && x !in dois ::
      && x in pc && |pc[x].authors| > 0 && x in e2 && e2[x] == FilledFromPubmed(e0[x], pc[x])
    ensures forall x | x in dois :: x in dc && x in e2 && e2[x] == FilledFromDoi(e0[x], dc[x])
  {
    forall x | x in dois ensures x in dc && x in e2 && e2[x] == FilledFromDoi(e0[x], dc[x]) {
      assert e2[x] == FilledFromDoi(e1[x], dc[x]);
    }
  }

  /** Every identifier has a PubMed entry with authors: filling from the
      cache then raises neither a KeyError nor an IndexError. */
  predicate PubmedComplete(ids: seq<string>, m: map<string, PubmedEntry>)
  {
    forall x | x in ids :: x in m && |m[x].authors| > 0
  }

  /** Every DOI is cached or answered by the lookup service: resolving them
      raises no ValueError. */
  predicate DoisResolvable(ids: seq<string>, m: map<string, DoiEntry>, lookup: string -> Option<DoiEntry>)
  {
    forall x | x in ids :: x in m || lookup(x).Some?
  }

  /** The links of an entry page, resolved against the two caches. */
  class ReferenceCollection {
    /** Whether the PubMed client has been created. */
    var clientCreated: bool
    /** The lists of identifiers asked of the PubMed service, one per request. */
    ghost var requests: seq<seq<string>>
    var references: Dict<string, ReferenceLink>
    const pubmedCache: PubmedCache
    const doiCache: DoiCache
    /** The PubMed identifiers and DOIs the constructor collected for resolution. */
    const pmids: seq<string>
    const dois: seq<string>

    ghost predicate Valid()
      reads this
    {
      && references.Valid()
      && (forall x | x in pmids :: x in references.entries)
      && (forall x | x in dois :: x in references.entries)
    }

    /** The filing loop of `__init__`: a link per linked citation, and the
        identifiers to resolve, split by database. */
    constructor (publications: seq<Citation>, pubmedCache: PubmedCache, doiCache: DoiCache)
      ensures Valid()
      ensures references == LinksOf(publications)
      ensures pmids == PmidsOf(publications) && dois == DoisOf(publications)
      ensures !clientCreated && requests == []
      ensures this.pubmedCache == pubmedCache && this.doiCache == doiCache
    {
      var refs := EmptyDict();
      var ps: seq<string> := [];
      var ds: seq<string> := [];
      for i := 0 to |publications|
        invariant refs == LinksOf(publications[..i])
        invariant ps == PmidsOf(publications[..i]) && ds == DoisOf(publications[..i])
      {
        var publication := publications[i];
        assert publications[..i + 1][..i] == publications[..i];
        if publication.database == "pubmed" {
          if publication.value == "0" {
            continue;
          }
          ps := ps + [publication.value];
        } else if publication.database == "doi" {
          ds := ds + [publication.value];
        }
        refs := refs.Put(publication.value, ReferenceLink(publication, "", ""));
      }
      assert publications[..|publications|] == publications;
      PendingAreLinked(publications);
      clientCreated := false;
      requests := [];
      references := refs;
      this.pubmedCache := pubmedCache;
      this.doiCache := doiCache;
      pmids := ps;
      dois := ds;
    }

    /** `get_links`: the links in filing order. */
    function GetLinks(): (links: seq<ReferenceLink>)
      reads this
      requires references.Valid()
      ensures |links| == |references.keys|
      ensures forall i | 0 <= i < |links| :: links[i] == references.entries[references.keys[i]]
    {
      references.Values()
    }

    /** The fill half of `_resolve_pmids`: each link's title and info line from
        the PubMed cache. A pmid the cache lacks fails with a KeyError, an entry
        without authors with an IndexError (after the title was already set). */
    method FillFromPubmed(ids: seq<string>) returns (failure: Option<LookupError>)
      requires references.Valid()
      requires forall x | x in ids :: x in references.entries
      modifies this
      ensures references.Valid() && references.keys == old(references.keys)
      ensures references.entries.Keys == old(references.entries.Keys)
      ensures clientCreated == old(clientCreated) && requests == old(requests)
      ensures failure.None? <==> forall x | x in ids :: x in pubmedCache.mappings && |pubmedCache.mappings[x].authors| > 0
      ensures failure.None? ==> PubmedFilled(ids, old(references.entries), references.entries, pubmedCache.mappings)
      ensures failure.Some? ==> exists x | x in ids ::
        failure.value == (if x in pubmedCache.mappings then NoAuthors(x) else KeyError(x))
      ensures forall k | k in references.entries && k !in ids :: references.entries[k] == old(references.entries[k])
    {
      failure := None;
      for i := 0 to |ids|
        invariant failure.None?
        invariant references.Valid() && references.keys == old(references.keys)
        invariant clientCreated == old(clientCreated) && requests == old(requests)
        invariant PubmedFilled(ids[..i], old(references.entries), references.entries, pubmedCache.mappings)
      {
        var pmid := ids[i];
        assert ids[..i + 1] == ids[..i] + [pmid];
        ghost var mid := references.entries;
        failure := FillPmid(pmid);
        if failure.Some? {
          assert pmid in ids;
          PubmedStoppedAt(ids, i, old(references.entries), mid, references.entries, pubmedCache.mappings);
          return;
        }
        PubmedFilledStep(ids[..i], pmid, old(references.entries), mid, references.entries, pubmedCache.mappings);
      }
      assert ids[..|ids|] == ids;
    }

    /** One step of the fill: the title and info line of one link. */
    method FillPmid(pmid: string) returns (failure: Option<LookupError>)
      requires references.Valid() && pmid in references.entries
      modifies this
      ensures references.Valid() && references.keys == old(references.keys)
      ensures references.entries.Keys == old(references.entries.Keys)
      ensures clientCreated == old(clientCreated) && requests == old(requests)
      ensures forall k | k in references.entries && k != pmid :: references.entries[k] == old(references.entries[k])
      ensures failure.None? <==> pmid in pubmedCache.mappings && |pubmedCache.mappings[pmid].authors| > 0
      ensures failure.None? ==>
        references.entries == old(references.entries)[pmid := FilledFromPubmed(old(references.entries[pmid]), pubmedCache.mappings[pmid])]
      ensures failure.Some? ==> failure.value == if pmid in pubmedCache.mappings then NoAuthors(pmid) else KeyError(pmid)
    {
      var entry := pubmedCache.Get(pmid);
      if entry.Failure? {
        return Some(entry.error);
      }
      var e := entry.value;
      var link := references.entries[pmid];
      var info := e.Info();
      if info.None? {
        references := references.Update(pmid, link.(title := e.title));
        return Some(NoAuthors(pmid));
      }
      references := references.Update(pmid, link.(title := e.title, info := info.value));
      return None;
    }

    /** The request half of `_resolve_pmids`: one request for exactly the
        identifiers the cache lacks, through a client created on first use,
        and every returned article added to the cache; nothing when the cache
        lacks none. */
    method FetchMissing(ids: seq<string>, efetch: seq<string> -> seq<Article>)
      modifies this, pubmedCache
      ensures references == old(references)
      ensures var missing := MissingFrom(old(pubmedCache.mappings), ids);
        && clientCreated == (old(clientCreated) || missing != [])
        && requests == old(requests) + (if missing != [] then [missing] else [])
        && pubmedCache.mappings == if missing != [] then AddArticles(old(pubmedCache.mappings), efetch(missing)) else old(pubmedCache.mappings)
    {
      var missing := pubmedCache.GetMissing(ids);
      if missing != [] {
        if !clientCreated {
          clientCreated := true;
        }
        var articles := efetch(missing);
        requests := requests + [missing];
        AddEach(pubmedCache, articles);
      }
    }

    /** `_resolve_pmids`: nothing for an empty list; otherwise the missing
        identifiers fetched into the cache, and then each link filled from it. */
    method ResolvePmids(ids: seq<string>, efetch: seq<string> -> seq<Article>) returns (failure: Option<LookupError>)
      requires references.Valid()
      requires forall x | x in ids :: x in references.entries
      modifies this, pubmedCache
      ensures references.Valid() && references.keys == old(references.keys)
      ensures references.entries.Keys == old(references.entries.Keys)
      ensures ids == [] ==> references == old(references) && failure.None?
      ensures var missing := MissingFrom(old(pubmedCache.mappings), ids);
        var fetch := ids != [] && missing != [];
        && clientCreated == (old(clientCreated) || fetch)
        && requests == old(requests) + (if fetch then [missing] else [])
        && pubmedCache.mappings == if fetch then AddArticles(old(pubmedCache.mappings), efetch(missing)) else old(pubmedCache.mappings)
      ensures failure.None? <==> forall x | x in ids :: x in pubmedCache.mappings && |pubmedCache.mappings[x].authors| > 0
      ensures failure.None? ==> forall x | x in ids ::
        references.entries[x] == FilledFromPubmed(old(references.entries[x]), pubmedCache.mappings[x])
      ensures failure.Some? ==> exists x | x in ids ::
        failure.value == (if x in pubmedCache.mappings then NoAuthors(x) else KeyError(x))
      ensures forall k | k in references.entries && k !in ids :: references.entries[k] == old(references.entries[k])
    {
      failure := None;
      if ids == [] {
        return;
      }
      FetchMissing(ids, efetch);
      ghost var fetched := pubmedCache.mappings;
      failure := FillFromPubmed(ids);
      assert pubmedCache.mappings == fetched;
    }

    /** `_resolve_dois`: each link's title and info line from the DOI cache,
        which fetches what it lacks; the first DOI that cannot be resolved
        fails with a ValueError. */
    method ResolveDois(ids: seq<string>, lookup: string -> Option<DoiEntry>) returns (failure: Option<LookupError>)
      requires references.Valid()
      requires forall x | x in ids :: x in references.entries
      modifies this, doiCache
      ensures references.Valid() && references.keys == old(references.keys)
      ensures clientCreated == old(clientCreated) && requests == old(requests)
      ensures doiCache.persisted == old(doiCache.persisted)
      ensures DoiCacheGrown(ids, old(doiCache.mappings), doiCache.mappings, lookup)
      ensures failure.None? <==> forall x | x in ids :: x in old(doiCache.mappings) || lookup(x).Some?
      ensures failure.None? ==> DoiFilled(ids, old(references.entries), references.entries, doiCache.mappings)
      ensures failure.Some? ==> exists x | x in ids ::
        failure.value == Unresolved(x) && x !in old(doiCache.mappings) && lookup(x).None?
      ensures forall k | k in references.entries && k !in ids :: references.entries[k] == old(references.entries[k])
    {
      failure := None;
      for i := 0 to |ids|
        invariant references.Valid() && references.keys == old(references.keys)
        invariant clientCreated == old(clientCreated) && requests == old(requests)
        invariant doiCache.persisted == old(doiCache.persisted)
        invariant DoiCacheGrown(ids[..i], old(doiCache.mappings), doiCache.mappings, lookup)
        invariant DoiFilled(ids[..i], old(references.entries), references.entries, doiCache.mappings)
      {
        var doi := ids[i];
        assert ids[..i + 1] == ids[..i] + [doi];
        ghost var mid := references.entries;
        ghost var cacheMid := doiCache.mappings;
        var entry := FillFromDoi(doi, lookup);
        if entry.Failure? {
          assert doi in ids && doi !in old(doiCache.mappings);
          assert forall x | x in ids[..i] :: x in ids;
          failure := Some(entry.error);
          return;
        }
        DoiCacheGrownStep(ids[..i], doi, old(doiCache.mappings), cacheMid, doiCache.mappings, lookup, entry.value);
        DoiFilledStep(ids[..i], doi, old(references.entries), mid, references.entries, cacheMid, doiCache.mappings, entry.value);
      }
      assert ids[..|ids|] == ids;
      DoiFilledResolved(ids, old(references.entries), references.entries, old(doiCache.mappings), doiCache.mappings, lookup);
    }

    /** One step of `_resolve_dois`: the DOI cache entry of one link, and the
        link filled from it. */
    method FillFromDoi(doi: string, lookup: string -> Option<DoiEntry>) returns (entry: Result<DoiEntry, LookupError>)
      requires references.Valid() && doi in references.entries
      modifies this, doiCache
      ensures DoiFetch(entry, doiCache.mappings) == DoiGet(old(doiCache.mappings), doi, lookup)
      ensures doiCache.persisted == old(doiCache.persisted)
      ensures clientCreated == old(clientCreated) && requests == old(requests)
      ensures entry.Failure? ==> references == old(references)
      ensures entry.Success? ==> references == old(references).Update(doi, FilledFromDoi(old(references.entries[doi]), entry.value))
    {
      entry := doiCache.Get(doi, lookup);
      if entry.Success? {
        references := references.Update(doi, FilledFromDoi(references.entries[doi], entry.value));
      }
    }

    /** The resolution steps of `__init__`: the collected PubMed identifiers,
        then the collected DOIs; the first failed lookup stops resolution. */
    method Resolve(efetch: seq<string> -> seq<Article>, lookup: string -> Option<DoiEntry>) returns (failure: Option<LookupError>)
      requires Valid()
      modifies this, pubmedCache, doiCache
      ensures references.Valid() && references.keys == old(references.keys)
      ensures var missing := MissingFrom(old(pubmedCache.mappings), pmids);
        var fetch := pmids != [] && missing != [];
        && clientCreated == (old(clientCreated) || fetch)
        && requests == old(requests) + (if fetch then [missing] else [])
        && pubmedCache.mappings == if fetch then AddArticles(old(pubmedCache.mappings), efetch(missing)) else old(pubmedCache.mappings)
      ensures doiCache.persisted == old(doiCache.persisted)
      ensures DoiCacheGrown(dois, old(doiCache.mappings), doiCache.mappings, lookup)
      ensures failure.None? <==>
        PubmedComplete(pmids, pubmedCache.mappings) && DoisResolvable(dois, old(doiCache.mappings), lookup)
      ensures !PubmedComplete(pmids, pubmedCache.mappings) ==>
        && doiCache.mappings == old(doiCache.mappings) && failure.Some?
        && exists x | x in pmids :: failure.value == (if x in pubmedCache.mappings then NoAuthors(x) else KeyError(x))
      ensures PubmedComplete(pmids, pubmedCache.mappings) && failure.Some? ==> exists x | x in dois ::
        failure.value == Unresolved(x) && x !in old(doiCache.mappings) && lookup(x).None?
      ensures failure.None? ==> forall k | k in references.entries && k !in pmids && k !in dois ::
        references.entries[k] == old(references.entries[k])
      ensures failure.None? ==> forall x | x in pmids && x !in dois ::
        && x in pubmedCache.mappings && |pubmedCache.mappings[x].authors| > 0 && x in references.entries
        && references.entries[x] == FilledFromPubmed(old(references.entries[x]), pubmedCache.mappings[x])
      ensures failure.None? ==> forall x | x in dois ::
        && x in doiCache.mappings && x in references.entries
        && references.entries[x] == FilledFromDoi(old(references.entries[x]), doiCache.mappings[x])
    {
      ghost var e0 := references.entries;
      failure := ResolvePmids(pmids, efetch);
      if failure.Some? {
        return;
      }
      ghost var e1 := references.entries;
      ghost var pubmed := pubmedCache.mappings;
      failure := ResolveDois(dois, lookup);
      assert pubmedCache.mappings == pubmed;
      if failure.None? {
        ResolvedLinks(pmids, dois, e0, e1, references.entries, pubmed, doiCache.mappings);
      }
    }
  }

  /** `ReferenceCollection(publications, pubmed_cache, doi_cache)`: files the
      links, then resolves the PubMed identifiers and then the DOIs; a failed
      lookup aborts construction. */
  method NewReferenceCollection(publications: seq<Citation>, pubmedCache: PubmedCache, doiCache: DoiCache,
                                efetch: seq<string> -> seq<Article>, lookup: string -> Option<DoiEntry>)
    returns (r: Result<ReferenceCollection, LookupError>)
    modifies pubmedCache, doiCache
    ensures var missing := MissingFrom(old(pubmedCache.mappings), PmidsOf(publications));
      pubmedCache.mappings ==
        if PmidsOf(publications) != [] && missing != [] then AddArticles(old(pubmedCache.mappings), efetch(missing))
        else old(pubmedCache.mappings)
    ensures doiCache.persisted == old(doiCache.persisted)
    ensures DoiCacheGrown(DoisOf(publications), old(doiCache.mappings), doiCache.mappings, lookup)
    ensures r.Success? <==>
      PubmedComplete(PmidsOf(publications), pubmedCache.mappings) && DoisResolvable(DoisOf(publications), old(doiCache.mappings), lookup)
    ensures !PubmedComplete(PmidsOf(publications), pubmedCache.mappings) ==>
      && doiCache.mappings == old(doiCache.mappings) && r.Failure?
      && exists x | x in PmidsOf(publications) ::
        r.error == (if x in pubmedCache.mappings then NoAuthors(x) else KeyError(x))
    ensures PubmedComplete(PmidsOf(publications), pubmedCache.mappings) && r.Failure? ==> exists x | x in DoisOf(publications) ::
      r.error == Unresolved(x) && x !in old(doiCache.mappings) && lookup(x).None?
    ensures r.Success? ==> fresh(r.value) && r.value.references.Valid()
    ensures r.Success? ==> r.value.pubmedCache == pubmedCache && r.value.doiCache == doiCache
    ensures r.Success? ==> var missing := MissingFrom(old(pubmedCache.mappings), PmidsOf(publications));
      var fetch := PmidsOf(publications) != [] && missing != [];
      r.value.clientCreated == fetch && r.value.requests == (if fetch then [missing] else [])
    ensures r.Success? ==> r.value.references.keys == LinksOf(publications).keys
    ensures r.Success? ==> forall k | k in r.value.references.entries && k !in PmidsOf(publications) && k !in DoisOf(publications) ::
      r.value.references.entries[k] == LinksOf(publications).entries[k]
    ensures r.Success? ==> forall x | x in PmidsOf(publications) && x !in DoisOf(publications) ::
      && x in pubmedCache.mappings && |pubmedCache.mappings[x].authors| > 0 && x in r.value.references.entries
      && r.value.references.entries[x] == FilledFromPubmed(LinksOf(publications).entries[x], pubmedCache.mappings[x])
    ensures r.Success? ==> forall x | x in DoisOf(publications) ::
      && x in doiCache.mappings && x in r.value.references.entries
      && r.value.references.entries[x] == FilledFromDoi(LinksOf(publications).entries[x], doiCache.mappings[x])
  {
    var c := new ReferenceCollection(publications, pubmedCache, doiCache);
    var failure := c.Resolve(efetch, lookup);
    r := if failure.Some? then Failure(failure.value) else Success(c);
  }
}
