/** Bibliographic caches: the PubMed cache of mibig_html/annotations/mibig.py
    and the DOI cache the resolver and the DOI prefetcher use. */
module Caches {
  import opened Basics

  /** Why a cache lookup failed: a key absent from the mapping (KeyError), an
      entry without authors (IndexError) or a DOI the service could not
      resolve (ValueError). */
  datatype LookupError = KeyError(key: string) | NoAuthors(key: string) | Unresolved(key: string)

  datatype PubmedEntry = PubmedEntry(title: string, authors: seq<string>, year: string, journal: string, pmid: string)
  {
    /** `PubmedEntry.info`: "<first author> et al., <journal> (<year>) PMID:<pmid>";
        None stands for the IndexError of an empty author list. */
    function Info(): (r: Option<string>)
      ensures r.Some? <==> |authors| > 0
      ensures r.Some? ==> StartsWith(r.value, authors[0] + " et al., " + journal + " (")
      ensures r.Some? ==> var pre := authors[0] + " et al., " + journal + " (";
        && |r.value| == |pre| + |year| + 7 + |pmid|
        && r.value[|pre|..|pre| + |year|] == year
        && r.value[|pre| + |year|..] == ") PMID:" + pmid
    {
      if |authors| == 0 then None
      else
        var s := authors[0] + " et al., " + journal + " (" + year + ") PMID:" + pmid;
        assert s == (authors[0] + " et al., " + journal + " (") + (year + ")") + (" PMID:" + pmid);
        Some(s)
    }
  }

  /** An article as the PubMed service returns it. */
  datatype Article = Article(title: string, authors: seq<string>, year: string, journal: string, pmid: string)

  function EntryOf(a: Article): PubmedEntry
  {
    PubmedEntry(a.title, a.authors, a.year, a.journal, a.pmid)
  }

  function PmidsOfArticles(articles: seq<Article>): set<string>
  {
    set a | a in articles :: a.pmid
  }

  /** The mapping after `add` of each article in turn, keyed by its own pmid. */
  function AddArticles(m: map<string, PubmedEntry>, articles: seq<Article>): map<string, PubmedEntry>
  {
    if articles == [] then m
    else
      var a := articles[|articles| - 1];
      AddArticles(m, articles[..|articles| - 1])[a.pmid := EntryOf(a)]
  }

  /** Adding articles adds exactly their pmids, each with an entry of the
      article's fields under that pmid, and keeps every other entry. */
  lemma AddArticlesEffect(m: map<string, PubmedEntry>, articles: seq<Article>)
    ensures AddArticles(m, articles).Keys == m.Keys + PmidsOfArticles(articles)
    ensures forall k | k in m && k !in PmidsOfArticles(articles) :: AddArticles(m, articles)[k] == m[k]
    ensures forall k | k in PmidsOfArticles(articles) ::
      exists a | a in articles :: a.pmid == k && AddArticles(m, articles)[k] == EntryOf(a)
  {
    AddArticlesKeeps(m, articles);
    AddArticlesEntries(m, articles);
  }

  lemma {:induction false} AddArticlesKeeps(m: map<string, PubmedEntry>, articles: seq<Article>)
    ensures AddArticles(m, articles).Keys == m.Keys + PmidsOfArticles(articles)
    ensures forall k | k in m && k !in PmidsOfArticles(articles) :: AddArticles(m, articles)[k] == m[k]
  {
    if articles != [] {
      var init := articles[..|articles| - 1];
      var a := articles[|articles| - 1];
      AddArticlesKeeps(m, init);
      assert articles == init + [a];
      assert PmidsOfArticles(articles) == PmidsOfArticles(init) + {a.pmid};
    }
  }

  lemma {:induction false} AddArticlesEntries(m: map<string, PubmedEntry>, articles: seq<Article>)
    ensures forall k | k in PmidsOfArticles(articles) ::
      k in AddArticles(m, articles) && exists a | a in articles :: a.pmid == k && AddArticles(m, articles)[k] == EntryOf(a)
  {
    if articles != [] {
      var init := articles[..|articles| - 1];
      var a := articles[|articles| - 1];
      AddArticlesEntries(m, init);
      assert articles == init + [a];
      forall k | k in PmidsOfArticles(articles)
        ensures k in AddArticles(m, articles) && exists b | b in articles :: b.pmid == k && AddArticles(m, articles)[k] == EntryOf(b)
      {
        if k == a.pmid {
          assert a in articles;
        } else {
          var b :| b in articles && b.pmid == k;
          assert b in init;
          var b' :| b' in init && b'.pmid == k && AddArticles(m, init)[k] == EntryOf(b');
          assert b' in articles;
        }
      }
    }
  }

  /** The PubMed cache: pmid -> entry, filled from a cache file at start. */
  class PubmedCache {
    var mappings: map<string, PubmedEntry>

    /** `PubmedCache(cache_file)`, with the file's entries already read. */
    constructor (loaded: map<string, PubmedEntry>)
      ensures mappings == loaded
    {
      mappings := loaded;
    }

    /** `add`: stores a new entry under `pmid`, replacing any entry already there. */
    method Add(title: string, authors: seq<string>, year: string, journal: string, pmid: string)
      modifies this
      ensures mappings == old(mappings)[pmid := PubmedEntry(title, authors, year, journal, pmid)]
      ensures Get(pmid) == Success(PubmedEntry(title, authors, year, journal, pmid))
    {
      mappings := mappings[pmid := PubmedEntry(title, authors, year, journal, pmid)];
    }

    /** `get`: the entry of a cached pmid; a KeyError for any other. */
    function Get(pmid: string): (r: Result<PubmedEntry, LookupError>)
      reads this
      ensures r.Success? <==> pmid in mappings
      ensures r.Success? ==> r.value == mappings[pmid]
      ensures r.Failure? ==> r.error == KeyError(pmid)
    {
      if pmid in mappings then Success(mappings[pmid]) else Failure(KeyError(pmid))
    }

    /** `get_missing`: the wanted pmids that are not cached, sorted, each once. */
    function GetMissing(want: seq<string>): (r: seq<string>)
      reads this
      ensures Elems(r) == Elems(want) - mappings.Keys
      ensures StrictlySorted(r, Below)
    {
      MissingFrom(mappings, want)
    }
  }

  /** Adding a batch of fetched articles, in order, each under its own pmid. */
  method AddEach(cache: PubmedCache, articles: seq<Article>)
    modifies cache
    ensures cache.mappings == AddArticles(old(cache.mappings), articles)
  {
    for i := 0 to |articles|
      invariant cache.mappings == AddArticles(old(cache.mappings), articles[..i])
    {
      var article := articles[i];
      assert articles[..i + 1][..i] == articles[..i];
      cache.Add(article.title, article.authors, article.year, article.journal, article.pmid);
    }
    assert articles[..|articles|] == articles;
  }

  /** `get_missing` on a mapping value, for stating what a caller fetched. */
  function MissingFrom(m: map<string, PubmedEntry>, want: seq<string>): (r: seq<string>)
    ensures Elems(r) == Elems(want) - m.Keys
    ensures StrictlySorted(r, Below)
  {
    SortedStrings(Elems(want) - m.Keys)
  }

  /** Nothing is missing exactly when every wanted pmid is cached. */
  lemma MissingEmpty(m: map<string, PubmedEntry>, want: seq<string>)
    ensures MissingFrom(m, want) == [] <==> forall p | p in want :: p in m
  {
    if MissingFrom(m, want) == [] {
      forall p | p in want ensures p in m {
        assert p !in Elems(MissingFrom(m, want));
      }
    } else {
      var x := MissingFrom(m, want)[0];
      assert x in Elems(MissingFrom(m, want));
    }
  }

  /** Asking again after adding an article for each missing pmid finds nothing
      missing: a second resolution of the same list fetches nothing. */
  lemma MissingAfterFetch(m: map<string, PubmedEntry>, want: seq<string>, articles: seq<Article>)
    requires Elems(MissingFrom(m, want)) <= PmidsOfArticles(articles)
    ensures MissingFrom(AddArticles(m, articles), want) == []
  {
    AddArticlesEffect(m, articles);
    MissingEmpty(AddArticles(m, articles), want);
    forall p | p in want ensures p in AddArticles(m, articles) {
      if p !in m {
        assert p in Elems(MissingFrom(m, want));
      }
    }
  }

  /** A DOI cache entry: the title and the info line shown for it, and the DOI
      it is filed under. */
  datatype DoiEntry = DoiEntry(title: string, info: string, identifier: string)

  /** The outcome of a DOI lookup: the entry or the error, and the mapping after. */
  datatype DoiFetch = DoiFetch(result: Result<DoiEntry, LookupError>, mappings: map<string, DoiEntry>)

  /** `DoiCache.get` on a mapping value: a cached DOI is returned as it is; a
      missing one is asked of the lookup service, and added when it answers. */
  function DoiGet(m: map<string, DoiEntry>, doi: string, lookup: string -> Option<DoiEntry>): (r: DoiFetch)
    ensures m.Keys <= r.mappings.Keys && forall k | k in m :: r.mappings[k] == m[k]
    ensures r.result.Success? <==> doi in m || lookup(doi).Some?
    ensures r.result.Success? ==> doi in r.mappings && r.result.value == r.mappings[doi]
    ensures r.result.Failure? ==> r.mappings == m && r.result.error == Unresolved(doi)
    ensures r.result.Success? ==> r.mappings == if doi in m then m else m[doi := r.result.value]
  {
    if doi in m then DoiFetch(Success(m[doi]), m)
    else match lookup(doi)
      case None => DoiFetch(Failure(Unresolved(doi)), m)
      case Some(e) => DoiFetch(Success(e), m[doi := e])
  }

  /** The DOI cache: DOI -> entry, and what the cache file last saved holds. */
  class DoiCache {
    var mappings: map<string, DoiEntry>
    var persisted: map<string, DoiEntry>

    constructor (loaded: map<string, DoiEntry>)
      ensures mappings == loaded && persisted == loaded
    {
      mappings := loaded;
      persisted := loaded;
    }

    /** `get`, fetching on a miss; a DOI the service cannot resolve is a ValueError. */
    method Get(doi: string, lookup: string -> Option<DoiEntry>) returns (r: Result<DoiEntry, LookupError>)
      modifies this
      ensures DoiFetch(r, mappings) == DoiGet(old(mappings), doi, lookup)
      ensures persisted == old(persisted)
    {
      var fetched := DoiGet(mappings, doi, lookup);
      mappings := fetched.mappings;
      r := fetched.result;
    }

    /** `add_entry`: files an entry under its identifier. */
    method AddEntry(e: DoiEntry)
      modifies this
      ensures mappings == old(mappings)[e.identifier := e]
      ensures persisted == old(persisted)
    {
      mappings := mappings[e.identifier := e];
    }

    /** `save`: the cache file now holds every entry. */
    method Save()
      modifies this
      ensures persisted == mappings && mappings == old(mappings)
    {
      persisted := mappings;
    }
  }
}
