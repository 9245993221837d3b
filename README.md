# MIBiG HTML side-loading core, in Dafny

This project models the core of `mibig_html`, the tool that turns a MIBiG entry
(a curated description of a biosynthetic gene cluster) plus its GenBank record
into antiSMASH-style HTML pages. It covers five files:

- **`mibig_html/annotations/mibig.py`**:
  - the reuse payload (`to_json`) and the reuse verdict of `from_json`;
  - the cluster area and `mibig_loader`. The loader adds the extra genes to the
    record, re-annotates the CDS products, and checks that every gene the
    entry refers to exists in the record;
  - `PubmedEntry.info` and the PubMed cache (`add`, `get`, `get_missing`).
- **`mibig_html/annotations/html_output.py`**:
  - the reference collection, which links each publication and resolves PMIDs
    and DOIs through the two caches;
  - the genes table of `generate_html`, in which each CDS of the region takes
    the first remaining annotation sharing one of its names.
- **`mibig_html/common/html_renderer.py`**: short-form citation links, evidence
  lists, the tooltip counter, and clickable gene labels.
- **`prefetch_doi.py` and `prefetch_pubmed.py`**: the scripts that harvest the
  "doi:" and "pubmed:" tags of MIBiG JSON files and warm the two caches.

Modules follow the source:

| module | file | models |
|---|---|---|
| `Basics` | `basics.dfy` | `Option`/`Result`, Python truthiness, `str.join`, the string order, `sorted(set(...))`, insertion-ordered dicts |
| `Citations` | `citations.dfy` | the citation value and its order |
| `Annotations` | `annotations.dfy` | `mibig.py` without the caches |
| `Caches` | `caches.dfy` | `PubmedEntry` and `PubmedCache` of `mibig.py`, and the DOI cache that `html_output.py` and `prefetch_doi.py` use (it is not part of this model's source files, so its behaviour is assumed; see "Left out") |
| `References` | `references.dfy` | `ReferenceLink` and `ReferenceCollection` |
| `Renderer` | `renderer.dfy` | `html_renderer.py` |
| `GeneTable` | `gene_table.dfy` | the CDS/annotation matching loop of `generate_html` |
| `JsonTags` | `json.dfy` | loaded JSON values and the recursive tag collector both scripts share |
| `PrefetchDoi` | `prefetch_doi.dfy` | `prefetch_doi.py` |
| `PrefetchPubmed` | `prefetch_pubmed.dfy` | `prefetch_pubmed.py` |

**Form of the model**
- Objects whose fields the source updates in place are classes:
  - `Record`, `PubmedCache`, `DoiCache` and `ReferenceCollection`;
  - the popped annotation list;
  - the tooltip counter;
  - the shared accumulator of the tag collectors.
- Each loop of the source that updates an object or a collection in place is a method with a loop, proved against a specification function. The loops that only build a new value are recursive functions:
  - the tool-function loop and the annotated-function loop of the genes table (`GeneTable.ToolFunctions`, `GeneTable.AnnotatedFunctions`);
  - the `references_by_method` loops (`GeneTable.ReferencesByMethod`, `GeneTable.LinksOf`);
  - the generator of `clickable_gene_list` (`Renderer.GeneLabels`).
- Pure computations are functions.
- Services the code calls are function parameters:
  - the PubMed `efetch`;
  - the DOI lookup inside `DoiCache.get`;
  - `Citation.to_url`;
  - the translation of a location.
- A Python exception is the `Failure` or `None` of a `Result`/`Option`.
- Python truthiness is explicit: an optional string is true when present and non-empty, an optional integer when present and non-zero.
- The PubMed `fetch_all` reads the module-level `pmids`. Here the list is its parameter.

## Model

| member | source | states |
|---|---|---|
| Citations.CitationBelowIsTotalOrder | mibig_html/common/html_renderer.py:108 | the order `sorted` uses on citations is total, antisymmetric and transitive |
| Annotations.Record.AddCdsFeature | mibig_html/annotations/mibig.py:132 | the feature is appended; alterations are unchanged |
| Annotations.Record.AddAlteration | mibig_html/annotations/mibig.py:133 | the note is appended; features are unchanged |
| Annotations.Record.SetProduct | mibig_html/annotations/mibig.py:148-149 | only the product of the one feature changes |
| Annotations.OrMinusOne | mibig_html/annotations/mibig.py:57 | a falsy bound (absent or 0) becomes -1; a truthy bound is kept |
| Annotations.ToJson | mibig_html/annotations/mibig.py:45-60 | id, accession, coords with -1 for falsy bounds; annotation and extra-gene lists keep order and length, empty without a genes block |
| Annotations.ReuseVerdict | mibig_html/annotations/mibig.py:69-102 | reuse succeeds iff accession, record id, both coords, annotation count and extra-gene count all match; it then yields the cluster area; otherwise a reuse error |
| Annotations.OwnPayloadIsReusable | mibig_html/annotations/mibig.py:45-102 | a payload written by `to_json` is accepted by `from_json` for the same entry and record |
| Annotations.ClusterAreaBounds | mibig_html/annotations/mibig.py:92-97 | with both bounds set, the area is [start-1, end) and the payload coords are (start, end) |
| Annotations.ExonLocation | mibig_html/annotations/mibig.py:124-126 | one part per exon, shifted to 0-based start, with the gene's strand |
| Annotations.Notes | mibig_html/annotations/mibig.py:133 | one "<name> was added" note per added CDS, in order |
| Annotations.AddedGenes | mibig_html/annotations/mibig.py:122-133 | every added CDS lies inside the area and has a location; a failure is an empty exon list or a gene outside the cluster |
| Annotations.AddedGenesStopAtFirstOffender | mibig_html/annotations/mibig.py:122-133 | the CDSs added are those of the eligible genes before the first offending gene, whose error is the result |
| Annotations.LastProductIsLast | mibig_html/annotations/mibig.py:139-149 | the product set is that of the last matching annotation with a product; none iff no annotation matches with a product |
| Annotations.RetagAll | mibig_html/annotations/mibig.py:135-149 | the features keep their number and order and each is retagged on its own |
| Annotations.RetagOnlyProducts | mibig_html/annotations/mibig.py:135-149 | re-annotation changes only products, only of CDSs inside the area, and only to a matching annotation's product |
| Annotations.ExistingNamesMembership | mibig_html/annotations/mibig.py:151-155 | a name exists iff it is the locus tag, protein id or gene of some CDS of the whole record |
| Annotations.AnnotationIds | mibig_html/annotations/mibig.py:158-160 | the annotation ids, one per annotation, in order |
| Annotations.IntegrityCheck | mibig_html/annotations/mibig.py:179-182 | no error iff every referenced gene exists; the error names the accession and lists the missing genes sorted, each once |
| Annotations.LoadChangesRecord | mibig_html/annotations/mibig.py:111-155 | the record gains exactly the added CDSs and their notes; old and new features differ from before only in product; added CDSs lie in the area |
| Annotations.LoadVerdict | mibig_html/annotations/mibig.py:105-184 | the loader succeeds iff no extra gene is refused and no referenced gene is missing; it then yields the cluster area; each error case is given |
| Annotations.AddExtraGenes | mibig_html/annotations/mibig.py:120-133 | the record gains the added CDSs and their notes; the result is the first refusal |
| Annotations.Reannotate | mibig_html/annotations/mibig.py:134-149 | the features become their retagged versions; alterations are unchanged |
| Annotations.ExistingOf | mibig_html/annotations/mibig.py:151-155 | the loop yields every name of every CDS of the record |
| Annotations.AddAll | mibig_html/annotations/mibig.py:157-173 | the set gains all the given ids |
| Annotations.AddSynthaseGenes | mibig_html/annotations/mibig.py:166-170 | the set gains the genes of every synthase and of every module |
| Annotations.AddCompoundGenes | mibig_html/annotations/mibig.py:174-177 | the set gains every moiety's subcluster genes |
| Annotations.ReferencedOf | mibig_html/annotations/mibig.py:157-177 | the loops yield the referenced-gene set of the entry |
| Annotations.MibigLoader | mibig_html/annotations/mibig.py:105-184 | the method changes the record and returns exactly what the loader specification gives |
| Caches.PubmedEntry.Info | mibig_html/annotations/mibig.py:195-197 | defined iff the entry has an author; then exactly "<first author> et al., <journal> (<year>) PMID:<pmid>", stated as the prefix, the year at its place and the suffix |
| Caches.PubmedCache.constructor | mibig_html/annotations/mibig.py:210-217 | the cache holds the loaded entries |
| Caches.PubmedCache.Add | mibig_html/annotations/mibig.py:219-220 | the entry is stored under its pmid, replacing any entry there |
| Caches.PubmedCache.Get | mibig_html/annotations/mibig.py:222-223 | the cached entry, or a KeyError for an uncached pmid |
| Caches.PubmedCache.GetMissing | mibig_html/annotations/mibig.py:225-227 | exactly the wanted pmids not cached, sorted, each once |
| Caches.AddEach | mibig_html/annotations/html_output.py:229-231 | adding the articles one by one gives the article-adding specification |
| Caches.AddArticlesEffect | mibig_html/annotations/mibig.py:219-220 | adding articles adds exactly their pmids, each with some article's entry, and keeps every other entry |
| Caches.MissingFrom | mibig_html/annotations/mibig.py:225-227 | the missing list holds the wanted pmids not in the mapping, sorted, each once |
| Caches.MissingEmpty | mibig_html/annotations/mibig.py:225-227 | nothing is missing iff every wanted pmid is cached |
| Caches.MissingAfterFetch | mibig_html/annotations/html_output.py:223-231 | after adding an article for each missing pmid, nothing is missing |
| Caches.DoiGet | mibig_html/annotations/html_output.py:240 | a DOI lookup keeps every cached entry; it succeeds iff the DOI is cached or the service resolves it; a success adds at most the looked-up DOI, and a failure changes nothing |
| Caches.DoiCache.constructor | prefetch_doi.py:41 | the cache and its saved state hold the loaded entries |
| Caches.DoiCache.Get | prefetch_doi.py:51 | the lookup follows the DOI-lookup specification; nothing is saved |
| Caches.DoiCache.AddEntry | prefetch_doi.py:48 | the entry is filed under its own identifier; nothing is saved |
| Caches.DoiCache.Save | prefetch_doi.py:52 | the saved state becomes the current mapping |
| References.LinksOf | mibig_html/annotations/html_output.py:203-211 | the links form a well-formed insertion-ordered dict |
| References.FirstIndex | mibig_html/annotations/html_output.py:211 | the first position of a value |
| References.LinksFirstEncounterOrder | mibig_html/annotations/html_output.py:203-217 | the keys are exactly the linked values, ordered by first occurrence |
| References.LinkIsLastCitation | mibig_html/annotations/html_output.py:203-211 | each value's link holds the last linked publication with that value |
| References.SentinelNeverResolved | mibig_html/annotations/html_output.py:204-206 | PMID "0" is never resolved |
| References.SentinelNeverFetched | mibig_html/annotations/html_output.py:223-228 | every identifier asked of the PubMed service is a collected PMID the cache lacks, never "0" |
| References.PendingAreLinked | mibig_html/annotations/html_output.py:203-211 | every PMID and DOI collected for resolution has a link |
| References.OtherDatabasesUnresolved | mibig_html/annotations/html_output.py:203-210 | a value cited only under other databases is resolved neither way |
| References.FilledFromPubmed | mibig_html/annotations/html_output.py:234-236 | the link keeps its citation and takes the entry's title and info |
| References.FilledFromDoi | mibig_html/annotations/html_output.py:240-242 | the link keeps its citation and takes the DOI entry's title and info |
| References.DoiFilledResolved | mibig_html/annotations/html_output.py:238-242 | every DOI resolved was cached or resolvable |
| References.ResolvedLinks | mibig_html/annotations/html_output.py:213-214 | after both passes, DOI links carry DOI entries, other PMID links carry PubMed entries, and the rest are unchanged |
| References.ReferenceCollection.constructor | mibig_html/annotations/html_output.py:194-212 | the links, the PMIDs and the DOIs are those of the publications; no client and no request yet |
| References.ReferenceCollection.GetLinks | mibig_html/annotations/html_output.py:216-217 | the links in key order |
| References.ReferenceCollection.FillFromPubmed | mibig_html/annotations/html_output.py:233-236 | every PMID link is filled, or the first missing entry or empty author list is reported; other links are unchanged |
| References.ReferenceCollection.FillPmid | mibig_html/annotations/html_output.py:234-236 | one PMID link is filled, or the KeyError or IndexError is reported |
| References.ReferenceCollection.FetchMissing | mibig_html/annotations/html_output.py:223-231 | exactly the missing list is requested, and only when non-empty; the client is created once; the articles are added |
| References.ReferenceCollection.ResolvePmids | mibig_html/annotations/html_output.py:219-236 | an empty list does nothing; at most one request; success iff every PMID ends up cached with an author; all PMID links are filled |
| References.ReferenceCollection.ResolveDois | mibig_html/annotations/html_output.py:238-242 | success iff every DOI is cached or resolvable; a failure names an unresolvable DOI; all DOI links are filled |
| References.ReferenceCollection.FillFromDoi | mibig_html/annotations/html_output.py:240-242 | one DOI link is filled from the lookup, or nothing changes |
| References.ReferenceCollection.Resolve | mibig_html/annotations/html_output.py:213-214 | at most one PubMed request, for exactly the missing PMIDs, whose articles stay in the PubMed cache whatever follows; the DOI cache grows only by answered lookups and is not saved; success iff every PMID is then cached with an author and every DOI is cached or resolvable; a PubMed failure leaves the DOI cache alone and names the PMID, a DOI failure names the unresolvable DOI; on success every collected link is filled and every other link is unchanged |
| References.NewReferenceCollection | mibig_html/annotations/html_output.py:194-214 | the same cache effects and the same success condition and errors over the publications' PMIDs and DOIs, on both outcomes; on success a fresh collection with the publications' keys, filled links, the client created iff something was fetched, and that one request |
| Renderer.Chunks | mibig_html/common/html_renderer.py:109 | one link chunk per citation, in order |
| Renderer.DistinctSorted | mibig_html/common/html_renderer.py:108 | the same citations, each once, in strictly ascending order |
| Renderer.BuildShortFormCitationLinks | mibig_html/common/html_renderer.py:98-110 | defined iff every citation has a short id (the assertion) |
| Renderer.ShortFormLinksDependOnSetOnly | mibig_html/common/html_renderer.py:107-110 | order and duplicates of the input do not change the links |
| Renderer.ShortFormSuperscript | mibig_html/common/html_renderer.py:110 | with superscript the markup is wrapped in sup tags; without, it is empty or starts with a link |
| Renderer.EvidenceSection | mibig_html/common/html_renderer.py:94 | the method name followed by its links, when they are defined |
| Renderer.EvidenceSections | mibig_html/common/html_renderer.py:92-94 | one section per evidence, in order |
| Renderer.BuildEvidenceList | mibig_html/common/html_renderer.py:83-95 | the loop yields the sections joined with ", ", or fails when a section does |
| Renderer.EvidenceSectionsDefined | mibig_html/common/html_renderer.py:92-94 | the sections exist iff every evidence's links do |
| Renderer.EvidenceListFails | mibig_html/common/html_renderer.py:92-107 | the list fails iff some cited reference has no short id |
| Renderer.Decimal | mibig_html/common/html_renderer.py:34 | `%d` of a counter is a non-empty string of digits |
| Renderer.DecimalInjective | mibig_html/common/html_renderer.py:34 | different counters print differently |
| Renderer.TooltipIdDeterminesCounter | mibig_html/common/html_renderer.py:34 | a tooltip id determines its counter, whatever the names |
| Renderer.TooltipInline | mibig_html/common/html_renderer.py:35-38 | the container is the inline one iff inline is asked |
| Renderer.TooltipCounter.constructor | mibig_html/common/html_renderer.py:18 | the counter starts at 0 |
| Renderer.TooltipCounter.HelpTooltip | mibig_html/common/html_renderer.py:32-38 | the counter goes up by one and the id is "<name>-help-<counter>" |
| Renderer.TwoTooltips | mibig_html/common/html_renderer.py:21-38 | two tooltips never share an id |
| Renderer.ClickableGene | mibig_html/common/html_renderer.py:55-63 | real name given or looked up; shown name forced, else the gene name, else the real name; the failing lookups are given |
| Renderer.GeneLabels | mibig_html/common/html_renderer.py:80 | one label per name, in order, defined iff all are |
| Renderer.ClickableGeneList | mibig_html/common/html_renderer.py:66-80 | the labels joined with the separator |
| GeneTable.Span | mibig_html/annotations/html_output.py:66-67 | the span starts at the lowest part start and ends at the highest part end |
| GeneTable.ToolFunctions | mibig_html/annotations/html_output.py:73-82 | the functions form a well-formed dict |
| GeneTable.ToolFunctionsOnlyMibig | mibig_html/annotations/html_output.py:73-82 | a function is listed iff the "mibig" tool gave it, and with no links |
| GeneTable.BaseRow | mibig_html/annotations/html_output.py:61-82 | the row's function dict is well formed |
| GeneTable.ReferencesByMethod | mibig_html/annotations/html_output.py:100-102 | the grouping forms a well-formed dict |
| GeneTable.ReferencesByMethodContents | mibig_html/annotations/html_output.py:100-102 | one group per evidence method, each holding the function's references |
| GeneTable.LinksOf | mibig_html/annotations/html_output.py:103-105 | the links form a well-formed dict |
| GeneTable.LinksOfDefined | mibig_html/annotations/html_output.py:103-105 | the links exist iff each method's links do |
| GeneTable.LinksOfAt | mibig_html/annotations/html_output.py:103-105 | a key has links iff it is a method, and they are its references' links |
| GeneTable.LinksOfKeys | mibig_html/annotations/html_output.py:103-105 | the keys are exactly the methods |
| GeneTable.LinksOfValues | mibig_html/annotations/html_output.py:103-105 | each method's links are its references' links |
| GeneTable.FunctionLinksPerMethod | mibig_html/annotations/html_output.py:100-106 | one entry per evidence method, each the short-form links of the function's references; defined iff there is no evidence or those links are |
| GeneTable.AnnotatedFunctions | mibig_html/annotations/html_output.py:94-106 | the functions form a well-formed dict |
| GeneTable.AnnotatedFunctionsDefined | mibig_html/annotations/html_output.py:94-106 | the functions exist iff every function's links do |
| GeneTable.AnnotatedFunctionsKeepOrder | mibig_html/annotations/html_output.py:94-106 | the tool's functions stay first, in order |
| GeneTable.AnnotatedFunctionsContents | mibig_html/annotations/html_output.py:94-106 | the keys are the tool's functions plus each annotated function's text |
| GeneTable.AnnotatedFunctionsLast | mibig_html/annotations/html_output.py:94-106 | the last function's links are those of its text |
| GeneTable.AnnotatedRow | mibig_html/annotations/html_output.py:93-114 | product and comment are taken when truthy; a mutation phenotype adds an empty entry; coordinates are kept |
| GeneTable.RowOf | mibig_html/annotations/html_output.py:61-114 | 1-based start, end, strand sign, product from the annotation when truthy, comment only from an annotation |
| GeneTable.FirstHit | mibig_html/annotations/html_output.py:83-91 | the first annotation sharing a name with the CDS, or -1 |
| GeneTable.FindAnnotation | mibig_html/annotations/html_output.py:83-91 | the search loop finds the first hit |
| GeneTable.FirstHitUnique | mibig_html/annotations/html_output.py:83-91 | the first hit is the only index with its defining property |
| GeneTable.RemoveAt | mibig_html/annotations/html_output.py:93 | popping removes exactly one annotation |
| GeneTable.Taking | mibig_html/annotations/html_output.py:83-93 | none iff no remaining annotation shares a name; otherwise a remaining one that does |
| GeneTable.LeftAfterConserves | mibig_html/annotations/html_output.py:93 | popping or not, no annotation is lost or made |
| GeneTable.WalkOf | mibig_html/annotations/html_output.py:57-115 | one row and one match per CDS until a failure |
| GeneTable.WalkConserves | mibig_html/annotations/html_output.py:57-115 | taken plus remaining annotations are exactly the entry's annotations |
| GeneTable.WalkRows | mibig_html/annotations/html_output.py:57-115 | each row is the row of its CDS and its match |
| GeneTable.WalkNames | mibig_html/annotations/html_output.py:83-91 | each match shares a name with its CDS |
| GeneTable.WalkComments | mibig_html/annotations/html_output.py:59-114 | the comments flag is set iff some matched annotation has a truthy comment |
| GeneTable.WalkTakesFirst | mibig_html/annotations/html_output.py:83-93 | each CDS takes the first hit among the annotations still remaining |
| GeneTable.WalkStaysFailed | mibig_html/annotations/html_output.py:57-115 | once a step fails, later CDSs change nothing |
| GeneTable.AnnotationList.Pop | mibig_html/annotations/html_output.py:93 | returns the i-th annotation and removes it |
| GeneTable.TableOf | mibig_html/annotations/html_output.py:116-117 | the table exists iff no step failed and every annotation was taken |
| GeneTable.TableTakesAll | mibig_html/annotations/html_output.py:57-117 | a successful table has one row per CDS, takes every annotation once, and matches by name |
| GeneTable.GenesLoopStep | mibig_html/annotations/html_output.py:83-115 | one iteration in each of its three cases |
| GeneTable.GenerateGenes | mibig_html/annotations/html_output.py:57-117 | the loop yields the table of the walk and leaves the remaining annotations in the list |
| JsonTags.ObjectWalkedAsValues | prefetch_doi.py:28-30 | an object is walked as the list of its values; keys are never looked at |
| JsonTags.PickedConcat | prefetch_doi.py:25-37 | picking tags commutes with concatenating string values |
| JsonTags.PickedMembers | prefetch_doi.py:31-33 | a tag is kept iff some string value yields it |
| JsonTags.TagsArePickedLeaves | prefetch_doi.py:25-37 | the walk keeps the tags of the string values, depth first in document order; numbers, booleans and null give nothing |
| JsonTags.TagMembers | prefetch_doi.py:25-37 | a tag is collected iff some string value of the document yields it |
| JsonTags.TagList.Append | prefetch_doi.py:33 | the tag is appended |
| JsonTags.Gather | prefetch_doi.py:25-37 | the walk appends the document's tags after whatever the list held |
| JsonTags.GatherMembers | prefetch_doi.py:28-30 | the member loop appends the members' tags in order |
| JsonTags.GatherItems | prefetch_doi.py:34-36 | the item loop appends the items' tags in order |
| JsonTags.GatherInto | prefetch_doi.py:26-37 | a fresh list without an accumulator; otherwise the accumulator itself, extended, is returned |
| PrefetchDoi.GatherDois | prefetch_doi.py:25-37 | the "doi:" tags, appended to the accumulator or a fresh list |
| PrefetchDoi.DoiTagsAreDois | prefetch_doi.py:31-33 | a citation is collected iff it is a string value starting with "doi:" |
| PrefetchDoi.DoiValue | prefetch_doi.py:33-47 | a tag is "doi:" followed by its value |
| PrefetchDoi.DoiValues | prefetch_doi.py:46 | one value per tag, in order |
| PrefetchDoi.FetchAll | prefetch_doi.py:40-56 | the file and citation loops give the prefetch run's cache, saved state and error, with a final save on success |
| PrefetchDoi.PrefetchKeepsKeys | prefetch_doi.py:46-52 | the run never forgets a cached DOI |
| PrefetchDoi.PrefetchCachesAll | prefetch_doi.py:46-52 | after a run without failure every DOI is cached: a table DOI under its entry's identifier, any other under itself |
| PrefetchDoi.PrefetchFailsOnlyUnresolved | prefetch_doi.py:49-55 | a failure names a DOI outside the table that the service cannot resolve; with a service resolving every such DOI there is no failure |
| PrefetchDoi.PrefetchIgnoresServiceOnTable | prefetch_doi.py:47-48 | a table DOI is never asked of the service |
| PrefetchPubmed.FirstWord | prefetch_pubmed.py:25 | the longest prefix without whitespace, ending the string or followed by whitespace |
| PrefetchPubmed.PubmedPick | prefetch_pubmed.py:23-26 | picked iff it starts with "pubmed:"; the citation keeps that prefix, is a prefix of the value, and holds no whitespace |
| PrefetchPubmed.GatherReferences | prefetch_pubmed.py:17-30 | the "pubmed:" tags, appended to the accumulator or a fresh list |
| PrefetchPubmed.ReferenceTagsAreFirstWords | prefetch_pubmed.py:17-30 | a citation is collected iff it is the first word of a string value starting with "pubmed:" |
| PrefetchPubmed.PmidValue | prefetch_pubmed.py:26-39 | a tag is "pubmed:" followed by its pmid |
| PrefetchPubmed.PmidSet | prefetch_pubmed.py:39 | the set of the citations' values |
| PrefetchPubmed.LastFilePmids | prefetch_pubmed.py:33-39 | as written: none for no files, else the last file's pmids, sorted, each once |
| PrefetchPubmed.ExtractPmids | prefetch_pubmed.py:33-39 | the loop as written gives the last-file result |
| PrefetchPubmed.LastFileOnly | prefetch_pubmed.py:35-39 | two files citing 1 and 2 give ["2"], though 1 is cited |
| PrefetchPubmed.AllPmidsMembers | prefetch_pubmed.py:33-39 | a pmid is wanted iff some file cites it |
| PrefetchPubmed.ExtractAllPmids | prefetch_pubmed.py:33-39 | the pmids of all files, sorted, each once |
| PrefetchPubmed.FetchRoundOf | prefetch_pubmed.py:48-52 | one round: the fetched articles are added and the new missing list is computed |
| PrefetchPubmed.FetchAll | prefetch_pubmed.py:42-54 | the loop gives the fetch run's cache, completion flag and requests |
| PrefetchPubmed.FetchDoneIffComplete | prefetch_pubmed.py:46-52 | the loop ends done iff every wanted pmid is cached |
| PrefetchPubmed.FetchKeepsKeys | prefetch_pubmed.py:47-52 | the loop never removes a cached pmid |
| PrefetchPubmed.FetchRequestCount | prefetch_pubmed.py:47-52 | one request per round |
| PrefetchPubmed.FetchRequests | prefetch_pubmed.py:46-52 | each request is non-empty, sorted and duplicate-free, asks only for wanted pmids, and asks none that were cached at the start |
| PrefetchPubmed.FetchCompleteService | prefetch_pubmed.py:46-52 | a service answering every asked pmid completes the cache in one round |
| PrefetchPubmed.FetchStable | prefetch_pubmed.py:46-52 | after a completed run, another run fetches and changes nothing |
| PrefetchPubmed.WarmCache | prefetch_pubmed.py:64-65 | the main line with the corrected extraction: keys only grow, and done iff every pmid of every file is cached |

## Left out

- File and JSON I/O are left out. The model receives loaded values:
  - `open`/`json.load` in `from_json`, `mibig_loader`, the cache constructors and both scripts;
  - `glob`;
  - the command lines of the scripts;
  - the `NCBI_API_KEY` environment variable.
- The PubMed `save` and the DOI cache's file format are left out, because neither is shown. The DOI cache's save is a snapshot of its mapping.
- Network calls are function parameters, because their behaviour is not in these files:
  - `eutils.Client.efetch`;
  - the fetch inside `DoiCache.get`.
- External code is abstracted:
  - `Citation.from_json`: a citation tag's value is the text after its "doi:" or "pubmed:" prefix;
  - `Citation.to_url` and `DoiEntry.from_json`: function parameters;
  - the contents of the DOI prefetcher's special table: the model takes the table as a map from DOI to entry;
  - the taxonomy lookup of `MibigAnnotations.__init__` (`TaxonCache`).
- Annotations.Record.AddCdsFeature: `add_cds_feature(..., auto_deduplicate=False)` is not among the source files. The model always appends the feature. It does not capture that a CDS whose name the record already has may be refused there, so an extra gene whose id is already a CDS name still loads in the model. Reversed or out-of-record coordinates of exons and of the cluster area are taken as they are, so the model assumes that `FeatureLocation` and `SubRegion` accept them.
- antiSMASH `Record` and `CDSFeature` internals are simplified:
  - a record is a sequence of CDS values with optional names, a product and a location;
  - containment is plain interval containment of every part of a location;
  - translation and `extract(seq)` are parameters or left out;
  - `get_cds_features_within_location` is the CDSs whose every part lies in the area.
- Templates and markup assembly are left out:
  - `FileTemplate.render` and `render_template`;
  - every other section of `generate_html`;
  - the commented-out sections.
- The markup strings the renderer helpers write themselves are modelled character for character.
- The `rule-based-clusters` and `smcogs` branches of `generate_html` are left out. They cannot run after the `tool != "mibig"` filter.
- Citations.CitationBelow: `Citation` is defined outside these files, so its order and equality are an assumption. The model assumes that `sorted(set(citations))` compares citations by database, then value, then short id, and that two citations are equal only when all three fields agree. If equality were on database and value only, `set(...)` at mibig_html/common/html_renderer.py:108 would merge two citations that differ only in short id, and Renderer.DistinctSorted would keep both.
- Caches.DoiGet: `DoiCache` is defined outside these files, so its `get` is an assumption. A cached DOI is returned without a lookup. A resolved DOI is stored under itself. A DOI the service cannot resolve raises a ValueError and changes nothing.
- Caches.DoiCache.AddEntry: `add_entry` is assumed to file the entry under the entry's `identifier`.
- `ReferenceLink.category` (mibig_html/annotations/html_output.py:175-177) is left out. It returns the citation's database, which the model reads directly as `citation.database`.
- A string is a sequence of characters. Python's string order on code points is the lexicographic order `Below`.
- PrefetchPubmed.FetchAll: the `while missing:` loop has no bound in the source. The model bounds it by a number of rounds and reports whether it finished, so runs that never end are not captured.

## Findings

| source | as written | input that shows it | evidently intended | confidence | as-written member | corrected member |
|---|---|---|---|---|---|---|
| prefetch_pubmed.py:35-39 | `citations` is rebound on every iteration, so only the last file's pmids are returned. An empty file list raises UnboundLocalError. | two files, citing "pubmed:1" and "pubmed:2": the result is ["2"], and pmid 1 is never fetched | the sorted, distinct pmids of all files (the docstring says "all unique pmids") | high; not executed | PrefetchPubmed.LastFileOnly | PrefetchPubmed.ExtractAllPmids |
