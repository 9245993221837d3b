/** The PubMed prefetcher (prefetch_pubmed.py): collects the "pubmed:" tags
    of a set of entry documents and fetches articles until the PubMed cache
    holds every wanted pmid. */
module PrefetchPubmed {
  import opened Basics
  import opened Caches
  import opened JsonTags

  /** The characters Python's `str.split()` splits on (`str.isspace`). */
  predicate IsSpace(c: char)
  {
    var n := c as int;
    || (0x09 <= n <= 0x0D) || (0x1C <= n <= 0x20)
    || n == 0x85 || n == 0xA0 || n == 0x1680
    || (0x2000 <= n <= 0x200A)
    || n == 0x2028 || n == 0x2029 || n == 0x202F || n == 0x205F || n == 0x3000
  }

  /** `s.split()[0]` for a string that does not start with whitespace: the
      longest prefix without whitespace. */
  function FirstWord(s: string): (w: string)
    ensures StartsWith(s, w)
    ensures forall i | 0 <= i < |w| :: !IsSpace(w[i])
    ensures w == s || IsSpace(s[|w|])
  {
    if s == [] || IsSpace(s[0]) then []
    else
      var rest := FirstWord(s[1..]);
      assert forall i | 1 <= i <= |rest| :: ([s[0]] + rest)[i] == rest[i - 1];
      [s[0]] + rest
  }

  /** A string value is a PubMed citation when it starts with "pubmed:"; the
      citation is cut at its first whitespace. */
  function PubmedPick(s: string): (t: Option<string>)
    ensures t.Some? <==> StartsWith(s, "pubmed:")
    ensures t.Some? ==> StartsWith(t.value, "pubmed:") && StartsWith(s, t.value)
    ensures t.Some? ==> forall i | 0 <= i < |t.value| :: !IsSpace(t.value[i])
  {
    if StartsWith(s, "pubmed:") then
      var w := FirstWord(s);
      NoSpaceInPrefix(s, w);
      Some(w)
    else None
  }

  /** The first word of a "pubmed:" string is at least the prefix itself. */
  lemma NoSpaceInPrefix(s: string, w: string)
    requires StartsWith(s, "pubmed:") && w == FirstWord(s)
    ensures StartsWith(w, "pubmed:")
  {
    assert forall i | 0 <= i < 7 :: s[i] == "pubmed:"[i] && !IsSpace(s[i]);
    assert w[..7] == s[..7];
  }

  /** `gather_references(data, existing_results)` */
  method GatherReferences(data: Json, existing: Option<TagList>) returns (r: TagList)
    modifies if existing.Some? then {existing.value} else {}
    ensures existing.Some? ==> r == existing.value && r.items == old(existing.value.items) + Tags(data, PubmedPick)
    ensures existing.None? ==> fresh(r) && r.items == Tags(data, PubmedPick)
  {
    r := GatherInto(data, existing, PubmedPick);
  }

  /** The collected citations are exactly the first words of the document's
      string values that start with "pubmed:". */
  lemma ReferenceTagsAreFirstWords(data: Json, t: string)
    ensures t in Tags(data, PubmedPick) <==>
      exists s | s in Leaves(data) :: StartsWith(s, "pubmed:") && t == FirstWord(s)
  {
    TagMembers(data, PubmedPick, t);
  }

  /** The pmid of a citation tag: the text after "pubmed:". */
  function PmidValue(tag: string): (v: string)
    ensures StartsWith(tag, "pubmed:") ==> tag == "pubmed:" + v
  {
    if StartsWith(tag, "pubmed:") then tag[7..] else tag
  }

  /** `{citation.value for citation in citations}` */
  function PmidSet(tags: seq<string>): (r: set<string>)
    ensures forall p :: p in r <==> exists t | t in tags :: PmidValue(t) == p
  {
    set t | t in tags :: PmidValue(t)
  }

  /** What `extract_pmids` returns as written: the sorted pmids of the LAST
      file only, and nothing at all (an unbound name) for an empty file list. */
  function LastFilePmids(files: seq<Json>): (r: Option<seq<string>>)
    ensures r.None? <==> files == []
    ensures r.Some? ==> StrictlySorted(r.value, Below)
    ensures r.Some? ==> Elems(r.value) == PmidSet(Tags(files[|files| - 1], PubmedPick))
  {
    if files == [] then None
    else Some(SortedStrings(PmidSet(Tags(files[|files| - 1], PubmedPick))))
  }

  /** `extract_pmids(files)` as written: `citations` is rebound for every
      file, so the set is built from the last file's citations. */
  method ExtractPmids(files: seq<Json>) returns (r: Option<seq<string>>)
    ensures r == LastFilePmids(files)
  {
    var citations: Option<seq<string>> := None;
    for i := 0 to |files|
      invariant i == 0 ==> citations.None?
      invariant i > 0 ==> citations == Some(Tags(files[i - 1], PubmedPick))
    {
      var found := GatherReferences(files[i], None);
      citations := Some(found.items);
    }
    if citations.None? {
      return None;
    }
    r := Some(SortedStrings(PmidSet(citations.value)));
  }

  /** A file citing only "pubmed:<pmid>". */
  function OneCitation(pmid: string): Json
  {
    JArray([JString("pubmed:" + pmid)])
  }

  lemma OneCitationTags(pmid: string)
    requires forall i | 0 <= i < |pmid| :: !IsSpace(pmid[i])
    ensures Tags(OneCitation(pmid), PubmedPick) == ["pubmed:" + pmid]
  {
    var s := "pubmed:" + pmid;
    assert s[..7] == "pubmed:";
    forall i | 0 <= i < |s| ensures !IsSpace(s[i]) {
      if i >= 7 {
        assert s[i] == pmid[i - 7];
      } else {
        assert s[i] == "pubmed:"[i];
      }
    }
    assert FirstWord(s) == s;
    assert Tags(JString(s), PubmedPick) == [s];
    assert [JString(s)][..0] == [];
    assert ItemTags([JString(s)], PubmedPick) == ItemTags([], PubmedPick) + Tags(JString(s), PubmedPick);
  }

  /** The pmids of a single citation. */
  lemma PmidSetOne(pmid: string)
    ensures PmidSet(["pubmed:" + pmid]) == {pmid}
  {
    var t := "pubmed:" + pmid;
    assert t[..7] == "pubmed:";
    assert PmidValue(t) == pmid;
    assert t in [t];
  }

  /** A one-element set sorts to itself. */
  lemma SortedSingleton(x: string)
    ensures SortedStrings({x}) == [x]
  {
    var r := SortedStrings({x});
    assert r != [] by {
      assert x in Elems(r);
    }
    assert r[0] in Elems(r);
  }

  /** As written, two files citing pmids 1 and 2 give only ["2"]: the first
      file's pmid is never fetched. */
  lemma LastFileOnly()
    ensures LastFilePmids([OneCitation("1"), OneCitation("2")]) == Some(["2"])
    ensures "1" in AllPmids([OneCitation("1"), OneCitation("2")])
  {
    var files := [OneCitation("1"), OneCitation("2")];
    OneCitationTags("1");
    OneCitationTags("2");
    PmidSetOne("2");
    SortedSingleton("2");
    PmidSetOne("1");
    assert "pubmed:1" in Tags(files[0], PubmedPick) && PmidValue("pubmed:1") == "1" by {
      assert "pubmed:1" in ["pubmed:1"];
      assert PmidSet(["pubmed:1"]) == {"1"};
    }
    AllPmidsMembers(files, "1");
  }

  /** The pmids of every file, which `extract_pmids` evidently means to return. */
  function AllPmids(files: seq<Json>): set<string>
  {
    if files == [] then {} else AllPmids(files[..|files| - 1]) + PmidSet(Tags(files[|files| - 1], PubmedPick))
  }

  /** A pmid is wanted exactly when some file cites it. */
  lemma {:induction false} AllPmidsMembers(files: seq<Json>, p: string)
    ensures p in AllPmids(files) <==>
      exists i, t | 0 <= i < |files| && t in Tags(files[i], PubmedPick) :: PmidValue(t) == p
  {
    if files != [] {
      var init := files[..|files| - 1];
      AllPmidsMembers(init, p);
      if p in AllPmids(files) {
        if p in AllPmids(init) {
          var i, t :| 0 <= i < |init| && t in Tags(init[i], PubmedPick) && PmidValue(t) == p;
          assert files[i] == init[i];
        } else {
          var t :| t in Tags(files[|files| - 1], PubmedPick) && PmidValue(t) == p;
        }
      } else {
        forall i, t | 0 <= i < |files| && t in Tags(files[i], PubmedPick) ensures PmidValue(t) != p {
          if i < |init| {
            assert files[i] == init[i];
          }
        }
      }
    }
  }

  /** `extract_pmids` as intended: the pmids of all files, sorted, each once;
      an empty file list wants nothing. */
  method ExtractAllPmids(files: seq<Json>) returns (r: seq<string>)
    ensures Elems(r) == AllPmids(files)
    ensures StrictlySorted(r, Below)
  {
    var pmids: set<string> := {};
    for i := 0 to |files|
      invariant pmids == AllPmids(files[..i])
    {
      var found := GatherReferences(files[i], None);
      assert files[..i + 1][..i] == files[..i];
      pmids := pmids + PmidSet(found.items);
    }
    assert files[..|files|] == files;
    r := SortedStrings(pmids);
  }

  /** The cache after the fetch loop, whether it ended with nothing missing,
      and the list asked of the service on each round. */
  datatype FetchRun = FetchRun(mappings: map<string, PubmedEntry>, done: bool, requests: seq<seq<string>>)

  /** The `while missing:` loop of `fetch_all`, for at most `fuel` rounds: ask
      the service for exactly the missing pmids and add every article it
      returns, until nothing is missing. */
  function Fetch(m: map<string, PubmedEntry>, pmids: seq<string>, efetch: seq<string> -> seq<Article>, fuel: nat): FetchRun
    decreases fuel
  {
    var missing := MissingFrom(m, pmids);
    if missing == [] then FetchRun(m, true, [])
    else if fuel == 0 then FetchRun(m, false, [])
    else
      var rest := Fetch(AddArticles(m, efetch(missing)), pmids, efetch, fuel - 1);
      FetchRun(rest.mappings, rest.done, [missing] + rest.requests)
  }

  /** One round of the loop, when something is missing and rounds remain. */
  lemma FetchRound(m: map<string, PubmedEntry>, pmids: seq<string>, efetch: seq<string> -> seq<Article>, fuel: nat)
    requires MissingFrom(m, pmids) != [] && fuel > 0
    ensures var missing := MissingFrom(m, pmids);
      var rest := Fetch(AddArticles(m, efetch(missing)), pmids, efetch, fuel - 1);
      Fetch(m, pmids, efetch, fuel) == FetchRun(rest.mappings, rest.done, [missing] + rest.requests)
  {
  }

  /** The loop stops when nothing is missing or no rounds remain. */
  lemma FetchStop(m: map<string, PubmedEntry>, pmids: seq<string>, efetch: seq<string> -> seq<Article>, fuel: nat)
    requires MissingFrom(m, pmids) == [] || fuel == 0
    ensures Fetch(m, pmids, efetch, fuel) == FetchRun(m, MissingFrom(m, pmids) == [], [])
  {
  }

  /** The state of the loop: the rounds ahead give, after the requests made
      so far, the whole run. */
  ghost predicate FetchLoop(run: FetchRun, m: map<string, PubmedEntry>, requests: seq<seq<string>>,
                            pmids: seq<string>, efetch: seq<string> -> seq<Article>, rounds: nat)
  {
    var rest := Fetch(m, pmids, efetch, rounds);
    run == FetchRun(rest.mappings, rest.done, requests + rest.requests)
  }

  lemma FetchLoopStep(run: FetchRun, m: map<string, PubmedEntry>, requests: seq<seq<string>>,
                      pmids: seq<string>, efetch: seq<string> -> seq<Article>, rounds: nat)
    requires FetchLoop(run, m, requests, pmids, efetch, rounds)
    requires MissingFrom(m, pmids) != [] && rounds > 0
    ensures var missing := MissingFrom(m, pmids);
      FetchLoop(run, AddArticles(m, efetch(missing)), requests + [missing], pmids, efetch, rounds - 1)
  {
    var missing := MissingFrom(m, pmids);
    var rest := Fetch(AddArticles(m, efetch(missing)), pmids, efetch, rounds - 1);
    FetchRound(m, pmids, efetch, rounds);
    assert requests + ([missing] + rest.requests) == (requests + [missing]) + rest.requests;
  }

  lemma FetchLoopStart(run: FetchRun, m: map<string, PubmedEntry>,
                       pmids: seq<string>, efetch: seq<string> -> seq<Article>, fuel: nat)
    requires run == Fetch(m, pmids, efetch, fuel)
    ensures FetchLoop(run, m, [], pmids, efetch, fuel)
  {
    assert [] + run.requests == run.requests;
  }

  /** The body of the loop: fetch the missing pmids, add every article
      returned, and ask the cache again what is missing. */
  method FetchRoundOf(cache: PubmedCache, pmids: seq<string>, efetch: seq<string> -> seq<Article>, missing: seq<string>)
    returns (missing': seq<string>)
    modifies cache
    ensures cache.mappings == AddArticles(old(cache.mappings), efetch(missing))
    ensures missing' == MissingFrom(cache.mappings, pmids)
  {
    var articles := efetch(missing);
    AddEach(cache, articles);
    missing' := cache.GetMissing(pmids);
  }

  /** `fetch_all(cache_file, pmids)` on a loaded cache, with the wanted pmids
      passed in and the loop bounded by `fuel`. */
  method FetchAll(cache: PubmedCache, pmids: seq<string>, efetch: seq<string> -> seq<Article>, fuel: nat)
    returns (done: bool, ghost requests: seq<seq<string>>)
    modifies cache
    ensures var run := Fetch(old(cache.mappings), pmids, efetch, fuel);
      cache.mappings == run.mappings && done == run.done && requests == run.requests
  {
    ghost var run := Fetch(cache.mappings, pmids, efetch, fuel);
    var rounds := fuel;
    requests := [];
    FetchLoopStart(run, cache.mappings, pmids, efetch, fuel);
    var missing := cache.GetMissing(pmids);
    while missing != [] && rounds > 0
      invariant missing == MissingFrom(cache.mappings, pmids)
      invariant FetchLoop(run, cache.mappings, requests, pmids, efetch, rounds)
      decreases rounds
    {
      FetchLoopStep(run, cache.mappings, requests, pmids, efetch, rounds);
      requests := requests + [missing];
      missing := FetchRoundOf(cache, pmids, efetch, missing);
      rounds := rounds - 1;
    }
    FetchStop(cache.mappings, pmids, efetch, rounds);
    done := missing == [];
  }

  /** The loop reports success exactly when every wanted pmid is cached. */
  lemma {:induction false} FetchDoneIffComplete(m: map<string, PubmedEntry>, pmids: seq<string>, efetch: seq<string> -> seq<Article>, fuel: nat)
    ensures var run := Fetch(m, pmids, efetch, fuel);
      run.done <==> forall p | p in pmids :: p in run.mappings
    decreases fuel
  {
    var missing := MissingFrom(m, pmids);
    if missing != [] && fuel > 0 {
      FetchRound(m, pmids, efetch, fuel);
      FetchDoneIffComplete(AddArticles(m, efetch(missing)), pmids, efetch, fuel - 1);
    } else {
      FetchStop(m, pmids, efetch, fuel);
      MissingEmpty(m, pmids);
    }
  }

  /** The loop never removes a cached pmid. */
  lemma {:induction false} FetchKeepsKeys(m: map<string, PubmedEntry>, pmids: seq<string>, efetch: seq<string> -> seq<Article>, fuel: nat)
    ensures m.Keys <= Fetch(m, pmids, efetch, fuel).mappings.Keys
    decreases fuel
  {
    var missing := MissingFrom(m, pmids);
    if missing != [] && fuel > 0 {
      FetchRound(m, pmids, efetch, fuel);
      AddArticlesKeeps(m, efetch(missing));
      FetchKeepsKeys(AddArticles(m, efetch(missing)), pmids, efetch, fuel - 1);
    }
  }

  /** What every request of a run started from `m` is: a non-empty, sorted,
      duplicate-free list of wanted pmids, none of them cached at the start. */
  predicate WellFormedRequest(q: seq<string>, pmids: seq<string>, m: map<string, PubmedEntry>)
  {
    && q != []
    && StrictlySorted(q, Below)
    && Elems(q) <= Elems(pmids)
    && Elems(q) !! m.Keys
  }

  /** There is at most one request per round. */
  lemma {:induction false} FetchRequestCount(m: map<string, PubmedEntry>, pmids: seq<string>, efetch: seq<string> -> seq<Article>, fuel: nat)
    ensures |Fetch(m, pmids, efetch, fuel).requests| <= fuel
    decreases fuel
  {
    if MissingFrom(m, pmids) != [] && fuel > 0 {
      FetchRound(m, pmids, efetch, fuel);
      FetchRequestCount(AddArticles(m, efetch(MissingFrom(m, pmids))), pmids, efetch, fuel - 1);
    } else {
      FetchStop(m, pmids, efetch, fuel);
    }
  }

  /** Each request asks only for wanted pmids that were not cached when the
      loop started, and is never empty. */
  lemma {:induction false} FetchRequests(m: map<string, PubmedEntry>, pmids: seq<string>, efetch: seq<string> -> seq<Article>, fuel: nat)
    ensures var run := Fetch(m, pmids, efetch, fuel);
      forall i | 0 <= i < |run.requests| :: WellFormedRequest(run.requests[i], pmids, m)
    decreases fuel
  {
    var missing := MissingFrom(m, pmids);
    if missing != [] && fuel > 0 {
      var m' := AddArticles(m, efetch(missing));
      var rest := Fetch(m', pmids, efetch, fuel - 1);
      FetchRound(m, pmids, efetch, fuel);
      FetchRequests(m', pmids, efetch, fuel - 1);
      AddArticlesKeeps(m, efetch(missing));
      assert WellFormedRequest(missing, pmids, m);
      forall i | 0 <= i < |rest.requests| ensures WellFormedRequest(rest.requests[i], pmids, m) {
        assert WellFormedRequest(rest.requests[i], pmids, m');
      }
      var requests := [missing] + rest.requests;
      assert forall i | 1 <= i < |requests| :: requests[i] == rest.requests[i - 1];
    } else {
      FetchStop(m, pmids, efetch, fuel);
    }
  }

  /** A service that returns an article for every pmid it is asked for
      completes the cache in at most one round. */
  lemma FetchCompleteService(m: map<string, PubmedEntry>, pmids: seq<string>, efetch: seq<string> -> seq<Article>, fuel: nat)
    requires forall q | q in [MissingFrom(m, pmids)] :: Elems(q) <= PmidsOfArticles(efetch(q))
    requires fuel >= 1
    ensures Fetch(m, pmids, efetch, fuel).done
    ensures |Fetch(m, pmids, efetch, fuel).requests| <= 1
  {
    var missing := MissingFrom(m, pmids);
    if missing != [] {
      assert missing in [missing];
      MissingAfterFetch(m, pmids, efetch(missing));
    }
  }

  /** Once the loop has completed the cache, running it again fetches nothing
      and changes nothing. */
  lemma FetchStable(m: map<string, PubmedEntry>, pmids: seq<string>, efetch: seq<string> -> seq<Article>, fuel: nat, again: nat)
    requires Fetch(m, pmids, efetch, fuel).done
    ensures var done := Fetch(m, pmids, efetch, fuel).mappings;
      Fetch(done, pmids, efetch, again) == FetchRun(done, true, [])
  {
    var done := Fetch(m, pmids, efetch, fuel).mappings;
    FetchDoneIffComplete(m, pmids, efetch, fuel);
    MissingEmpty(done, pmids);
  }

  /** The script's main line with the intended extraction: warm the cache
      with the pmids of every file. */
  method WarmCache(cache: PubmedCache, files: seq<Json>, efetch: seq<string> -> seq<Article>, fuel: nat) returns (done: bool)
    modifies cache
    ensures old(cache.mappings).Keys <= cache.mappings.Keys
    ensures done <==> forall p | p in AllPmids(files) :: p in cache.mappings
  {
    var pmids := ExtractAllPmids(files);
    ghost var m := cache.mappings;
    ghost var requests;
    done, requests := FetchAll(cache, pmids, efetch, fuel);
    FetchDoneIffComplete(m, pmids, efetch, fuel);
    FetchKeepsKeys(m, pmids, efetch, fuel);
  }
}
