/** The DOI prefetcher (prefetch_doi.py): collects every "doi:" tag of a set
    of entry documents and warms the DOI cache with them, filing the DOIs of
    a fixed table from the table instead of asking the lookup service. */
module PrefetchDoi {
  import opened Basics
  import opened Caches
  import opened JsonTags

  /** A string value is a DOI citation when it starts with "doi:". */
  function DoiPick(s: string): Option<string>
  {
    if StartsWith(s, "doi:") then Some(s) else None
  }

  /** `gather_dois(data, existing_results)` */
  method GatherDois(data: Json, existing: Option<TagList>) returns (r: TagList)
    modifies if existing.Some? then {existing.value} else {}
    ensures existing.Some? ==> r == existing.value && r.items == old(existing.value.items) + Tags(data, DoiPick)
    ensures existing.None? ==> fresh(r) && r.items == Tags(data, DoiPick)
  {
    r := GatherInto(data, existing, DoiPick);
  }

  /** The collected citations are exactly the document's string values that
      start with "doi:". */
  lemma DoiTagsAreDois(data: Json, t: string)
    ensures t in Tags(data, DoiPick) <==> t in Leaves(data) && StartsWith(t, "doi:")
  {
    TagMembers(data, DoiPick, t);
    if t in Leaves(data) && StartsWith(t, "doi:") {
      assert DoiPick(t) == Some(t);
    }
  }

  /** The identifier of a citation tag: the text after "doi:". */
  function DoiValue(tag: string): (v: string)
    ensures StartsWith(tag, "doi:") ==> tag == "doi:" + v
  {
    if StartsWith(tag, "doi:") then tag[4..] else tag
  }

  /** The identifiers of a list of tags, in order. */
  function DoiValues(tags: seq<string>): (vs: seq<string>)
    ensures |vs| == |tags| && forall i | 0 <= i < |tags| :: vs[i] == DoiValue(tags[i])
  {
    if tags == [] then [] else DoiValues(tags[..|tags| - 1]) + [DoiValue(tags[|tags| - 1])]
  }

  /** The identifiers the prefetcher handles, file after file. */
  function AllDois(files: seq<Json>): seq<string>
  {
    if files == [] then [] else DoiValues(Tags(files[0], DoiPick)) + AllDois(files[1..])
  }

  /** The cache after a run, what was saved of it, and the error that stopped it. */
  datatype Run = Run(mappings: map<string, DoiEntry>, persisted: map<string, DoiEntry>, failure: Option<LookupError>)

  /** The citation loop: a DOI of the table is filed from the table; any other
      is fetched into the cache, which is then saved; the first DOI that
      cannot be resolved stops the run. */
  function Prefetch(vs: seq<string>, m: map<string, DoiEntry>, p: map<string, DoiEntry>,
                    special: map<string, DoiEntry>, lookup: string -> Option<DoiEntry>): Run
  {
    if vs == [] then Run(m, p, None)
    else if vs[0] in special then
      var e := special[vs[0]];
      Prefetch(vs[1..], m[e.identifier := e], p, special, lookup)
    else
      var f := DoiGet(m, vs[0], lookup);
      if f.result.Failure? then Run(f.mappings, p, Some(f.result.error))
      else Prefetch(vs[1..], f.mappings, f.mappings, special, lookup)
  }

  /** `fetch_all(cache_file, files)` on loaded documents: the citation loop
      over every file in turn, and a final save when nothing failed. */
  method FetchAll(cache: DoiCache, files: seq<Json>, special: map<string, DoiEntry>, lookup: string -> Option<DoiEntry>)
    returns (failure: Option<LookupError>)
    modifies cache
    ensures var run := Prefetch(AllDois(files), old(cache.mappings), old(cache.persisted), special, lookup);
      && failure == run.failure
      && cache.mappings == run.mappings
      && cache.persisted == if failure.None? then run.mappings else run.persisted
  {
    ghost var run := Prefetch(AllDois(files), cache.mappings, cache.persisted, special, lookup);
    for fi := 0 to |files|
      invariant run == Prefetch(AllDois(files[fi..]), cache.mappings, cache.persisted, special, lookup)
    {
      assert files[fi..][1..] == files[fi + 1..];
      var citations := GatherDois(files[fi], None);
      var tags := citations.items;
      var values := DoiValues(tags);
      for ci := 0 to |values|
        invariant run == Prefetch(values[ci..] + AllDois(files[fi + 1..]), cache.mappings, cache.persisted, special, lookup)
      {
        var rest := values[ci..] + AllDois(files[fi + 1..]);
        assert rest[0] == values[ci] && rest[1..] == values[ci + 1..] + AllDois(files[fi + 1..]);
        var doi := DoiValue(tags[ci]);
        if doi in special {
          cache.AddEntry(special[doi]);
        } else {
          var entry := cache.Get(doi, lookup);
          if entry.Failure? {
            return Some(entry.error);
          }
          cache.Save();
        }
      }
      assert values[|values|..] + AllDois(files[fi + 1..]) == AllDois(files[fi + 1..]);
    }
    assert files[|files|..] == [];
    cache.Save();
    failure := None;
  }

  /** A run never forgets a cached DOI. */
  lemma {:induction false} PrefetchKeepsKeys(vs: seq<string>, m: map<string, DoiEntry>, p: map<string, DoiEntry>,
                                             special: map<string, DoiEntry>, lookup: string -> Option<DoiEntry>)
    ensures m.Keys <= Prefetch(vs, m, p, special, lookup).mappings.Keys
  {
    if vs != [] {
      if vs[0] in special {
        var e := special[vs[0]];
        PrefetchKeepsKeys(vs[1..], m[e.identifier := e], p, special, lookup);
      } else {
        var f := DoiGet(m, vs[0], lookup);
        if f.result.Success? {
          PrefetchKeepsKeys(vs[1..], f.mappings, f.mappings, special, lookup);
        }
      }
    }
  }

  /** After a run that did not fail every DOI is cached: a table DOI under the
      identifier of its table entry, any other under itself. */
  lemma {:induction false} PrefetchCachesAll(vs: seq<string>, m: map<string, DoiEntry>, p: map<string, DoiEntry>,
                                             special: map<string, DoiEntry>, lookup: string -> Option<DoiEntry>)
    requires Prefetch(vs, m, p, special, lookup).failure.None?
    ensures forall v | v in vs && v in special :: special[v].identifier in Prefetch(vs, m, p, special, lookup).mappings
    ensures forall v | v in vs && v !in special :: v in Prefetch(vs, m, p, special, lookup).mappings
  {
    if vs != [] {
      var run := Prefetch(vs, m, p, special, lookup);
      assert forall v | v in vs :: v == vs[0] || v in vs[1..];
      if vs[0] in special {
        var e := special[vs[0]];
        PrefetchCachesAll(vs[1..], m[e.identifier := e], p, special, lookup);
        PrefetchKeepsKeys(vs[1..], m[e.identifier := e], p, special, lookup);
      } else {
        var f := DoiGet(m, vs[0], lookup);
        PrefetchCachesAll(vs[1..], f.mappings, f.mappings, special, lookup);
        PrefetchKeepsKeys(vs[1..], f.mappings, f.mappings, special, lookup);
      }
    }
  }

  /** A run fails only on a DOI outside the table that the service cannot
      resolve, and with that DOI's error; so it cannot fail when the service
      resolves every DOI outside the table. */
  lemma {:induction false} PrefetchFailsOnlyUnresolved(vs: seq<string>, m: map<string, DoiEntry>, p: map<string, DoiEntry>,
                                                       special: map<string, DoiEntry>, lookup: string -> Option<DoiEntry>)
    ensures var run := Prefetch(vs, m, p, special, lookup);
      run.failure.Some? ==> exists v | v in vs ::
        v !in special && lookup(v).None? && run.failure.value == Unresolved(v)
    ensures (forall v | v in vs && v !in special :: lookup(v).Some?) ==> Prefetch(vs, m, p, special, lookup).failure.None?
  {
    if vs != [] {
      assert forall v | v in vs[1..] :: v in vs;
      if vs[0] in special {
        var e := special[vs[0]];
        PrefetchFailsOnlyUnresolved(vs[1..], m[e.identifier := e], p, special, lookup);
      } else {
        var f := DoiGet(m, vs[0], lookup);
        if f.result.Success? {
          PrefetchFailsOnlyUnresolved(vs[1..], f.mappings, f.mappings, special, lookup);
        } else {
          assert vs[0] in vs;
        }
      }
    }
  }

  /** A DOI of the table is never asked of the lookup service: two services
      that agree outside the table give the same run. */
  lemma {:induction false} PrefetchIgnoresServiceOnTable(vs: seq<string>, m: map<string, DoiEntry>, p: map<string, DoiEntry>,
                                                         special: map<string, DoiEntry>,
                                                         lookup: string -> Option<DoiEntry>, lookup': string -> Option<DoiEntry>)
    requires forall v | v !in special :: lookup(v) == lookup'(v)
    ensures Prefetch(vs, m, p, special, lookup) == Prefetch(vs, m, p, special, lookup')
  {
    if vs != [] {
      if vs[0] in special {
        var e := special[vs[0]];
        PrefetchIgnoresServiceOnTable(vs[1..], m[e.identifier := e], p, special, lookup, lookup');
      } else {
        var f := DoiGet(m, vs[0], lookup);
        assert f == DoiGet(m, vs[0], lookup');
        PrefetchIgnoresServiceOnTable(vs[1..], f.mappings, f.mappings, special, lookup, lookup');
      }
    }
  }
}
