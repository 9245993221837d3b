/** MIBiG side-loading (mibig_html/annotations/mibig.py): the reuse payload, the
    reuse decision, the cluster area, and the loader that merges an entry into
    a genomic record. */
module Annotations {
  import opened Basics
  import opened Citations

  // ---------------------------------------------------------------------------
  // Genomic record

  /** A 0-based, end-exclusive stretch [start, end) of the record. */
  datatype Interval = Interval(start: int, end: int)

  /** A feature location: one part for a simple location, several for a
      compound one, and the strand. */
  datatype Location = Location(parts: seq<Interval>, strand: int)

  /** Plain interval containment of every part of `loc` in `area`. */
  predicate Inside(area: Interval, loc: Location)
  {
    forall p | p in loc.parts :: area.start <= p.start && p.end <= area.end
  }

  /** A function annotation attached to a CDS by some analysis tool. */
  datatype GeneFunction = GeneFunction(tool: string, name: string, description: string)

  /** A CDS feature: its location, its three optional names, product,
      translation and the gene functions tools attached to it. */
  datatype Cds = Cds(
    location: Location,
    locusTag: Option<string>,
    proteinId: Option<string>,
    gene: Option<string>,
    product: string,
    translation: string,
    geneFunctions: seq<GeneFunction>)

  /** The genomic record the loader changes in place: its CDS features, in the
      order they were added, and the alterations noted on it. */
  class Record {
    const id: string
    const seqLength: nat
    var cdsFeatures: seq<Cds>
    var alterations: seq<string>

    constructor (id: string, seqLength: nat, cdsFeatures: seq<Cds>)
      ensures this.id == id && this.seqLength == seqLength
      ensures this.cdsFeatures == cdsFeatures && alterations == []
    {
      this.id := id;
      this.seqLength := seqLength;
      this.cdsFeatures := cdsFeatures;
      alterations := [];
    }

    /** `record.add_cds_feature(cds, auto_deduplicate=False)` */
    method AddCdsFeature(cds: Cds)
      modifies this
      ensures cdsFeatures == old(cdsFeatures) + [cds]
      ensures alterations == old(alterations)
    {
      cdsFeatures := cdsFeatures + [cds];
    }

    /** `record.add_alteration(note)` */
    method AddAlteration(note: string)
      modifies this
      ensures alterations == old(alterations) + [note]
      ensures cdsFeatures == old(cdsFeatures)
    {
      alterations := alterations + [note];
    }

    /** `cds_feature.product = product` for the i-th feature */
    method SetProduct(i: nat, product: string)
      requires i < |cdsFeatures|
      modifies this
      ensures cdsFeatures == old(cdsFeatures)[i := old(cdsFeatures)[i].(product := product)]
      ensures alterations == old(alterations)
    {
      cdsFeatures := cdsFeatures[i := cdsFeatures[i].(product := product)];
    }
  }

  // ---------------------------------------------------------------------------
  // MIBiG entry

  /** The cluster's locus; start and end are 1-based and inclusive, and may be
      absent. */
  datatype Loci = Loci(accession: string, start: Option<int>, end: Option<int>)

  datatype Exon = Exon(start: int, end: int)

  datatype GeneLocation = GeneLocation(exons: seq<Exon>, strand: int)

  /** A gene the entry adds to the record. */
  datatype ExtraGene = ExtraGene(id: Option<string>, location: Option<GeneLocation>, translation: Option<string>)

  /** One annotated function of a gene: its name, the evidence methods that
      support it and its references. */
  datatype AnnotatedFunction = AnnotatedFunction(name: string, evidence: seq<string>, references: seq<Citation>)

  /** A gene annotation of the entry. */
  datatype GeneAnnotation = GeneAnnotation(
    id: string,
    name: Option<string>,
    product: Option<string>,
    comment: Option<string>,
    functions: seq<AnnotatedFunction>,
    tailoringFunctions: seq<string>,
    mutationPhenotype: Option<string>)

  datatype Genes = Genes(annotations: seq<GeneAnnotation>, extraGenes: seq<ExtraGene>)

  datatype Nrp = Nrp(nrpsGenes: seq<string>, thioesterases: seq<string>)

  /** A polyketide synthase: its genes and, per module, that module's genes. */
  datatype Synthase = Synthase(genes: seq<string>, modules: seq<seq<string>>)

  datatype Polyketide = Polyketide(synthases: seq<Synthase>)

  datatype Saccharide = Saccharide(glycosyltransferases: seq<string>)

  /** A compound: for each chemical moiety, the genes of its subcluster (empty
      when the moiety names none). */
  datatype Compound = Compound(moieties: seq<seq<string>>)

  datatype Cluster = Cluster(
    mibigAccession: string,
    loci: Loci,
    genes: Option<Genes>,
    biosyntheticClass: seq<string>,
    nrp: Option<Nrp>,
    polyketide: Option<Polyketide>,
    saccharide: Option<Saccharide>,
    compounds: seq<Compound>)

  /** A parsed MIBiG entry. */
  datatype Everything = Everything(cluster: Cluster)

  function AnnotationsOf(c: Cluster): seq<GeneAnnotation>
  {
    if c.genes.Some? then c.genes.value.annotations else []
  }

  function ExtraGenesOf(c: Cluster): seq<ExtraGene>
  {
    if c.genes.Some? then c.genes.value.extraGenes else []
  }

  // ---------------------------------------------------------------------------
  // Results and errors

  /** A region of the record found by a tool, with a label. */
  datatype SubRegion = SubRegion(location: Interval, tool: string, product: string)

  /** The result of side-loading: record id, the cluster area and the entry. */
  datatype MibigAnnotations = MibigAnnotations(recordId: string, area: SubRegion, data: Everything)

  /** Which reuse comparison failed first. */
  datatype ReuseCheck = AccessionChanged | RecordIdChanged | CoordsChanged | AnnotationCountChanged | ExtraGeneCountChanged

  datatype Error =
    | ReuseRejected(check: ReuseCheck)
    | NoExons(geneId: string)
    | GeneOutsideCluster(geneId: string)
    | MissingGenes(accession: string, ids: seq<string>)

  /** The text of the exception each error stands for. */
  function Message(e: Error): string
  {
    match e
    case ReuseRejected(_) => "Genbank record or gene annotations are updated, can't reuse result"
    case NoExons(_) => "list index out of range"
    case GeneOutsideCluster(id) => "additional gene " + id + " lies outside cluster"
    case MissingGenes(accession, ids) => accession + " refers to missing genes: " + Join(ids, ", ")
  }

  // ---------------------------------------------------------------------------
  // Reuse payload (to_json) and reuse decision (from_json)

  /** The minimal projection of a result saved for deciding reuse.  An entry's
      own `to_json` of annotations and extra genes belongs to the entry
      parser; the payload keeps those values themselves. */
  datatype ReusePayload = ReusePayload(
    recordId: string,
    genbankAccession: string,
    coords: (int, int),
    geneAnnotations: seq<GeneAnnotation>,
    extraGenes: seq<ExtraGene>)

  /** `x or -1` for an optional coordinate. */
  function OrMinusOne(o: Option<int>): (r: int)
    ensures r == -1 <==> !TruthyInt(o) || o.value == -1
    ensures TruthyInt(o) ==> r == o.value
  {
    if TruthyInt(o) then o.value else -1
  }

  /** What `to_json` saves for an entry loaded into the record `recordId`. */
  function Payload(recordId: string, data: Everything): ReusePayload
  {
    ReusePayload(
      recordId,
      data.cluster.loci.accession,
      (OrMinusOne(data.cluster.loci.start), OrMinusOne(data.cluster.loci.end)),
      AnnotationsOf(data.cluster),
      ExtraGenesOf(data.cluster))
  }

  /** `MibigAnnotations.to_json`: the saved payload, with the annotation and
      extra-gene lists copied one element at a time. */
  method ToJson(a: MibigAnnotations) returns (p: ReusePayload)
    ensures p == Payload(a.recordId, a.data)
    ensures p.recordId == a.recordId && p.genbankAccession == a.data.cluster.loci.accession
    ensures p.coords == (OrMinusOne(a.data.cluster.loci.start), OrMinusOne(a.data.cluster.loci.end))
    ensures a.data.cluster.genes.None? ==> p.geneAnnotations == [] && p.extraGenes == []
    ensures a.data.cluster.genes.Some? ==>
      && |p.geneAnnotations| == |a.data.cluster.genes.value.annotations|
      && (forall i | 0 <= i < |p.geneAnnotations| :: p.geneAnnotations[i] == a.data.cluster.genes.value.annotations[i])
      && |p.extraGenes| == |a.data.cluster.genes.value.extraGenes|
      && (forall i | 0 <= i < |p.extraGenes| :: p.extraGenes[i] == a.data.cluster.genes.value.extraGenes[i])
  {
    var loci := a.data.cluster.loci;
    var source := AnnotationsOf(a.data.cluster);
    var annotations: seq<GeneAnnotation> := [];
    for i := 0 to |source|
      invariant annotations == source[..i]
    {
      annotations := annotations + [source[i]];
    }
    var extraSource := ExtraGenesOf(a.data.cluster);
    var extraGenes: seq<ExtraGene> := [];
    for i := 0 to |extraSource|
      invariant extraGenes == extraSource[..i]
    {
      extraGenes := extraGenes + [extraSource[i]];
    }
    assert annotations == source && extraGenes == extraSource;
    p := ReusePayload(a.recordId, loci.accession, (OrMinusOne(loci.start), OrMinusOne(loci.end)), annotations, extraGenes);
  }

  /** The cluster area: 1-based inclusive annotation coordinates become the
      0-based end-exclusive [start - 1, end); an absent start means the record's
      start, an absent end its length.  Labelled with the biosynthetic classes. */
  function ClusterArea(c: Cluster, seqLength: nat): SubRegion
  {
    SubRegion(
      Interval(if TruthyInt(c.loci.start) then c.loci.start.value - 1 else 0,
               if TruthyInt(c.loci.end) then c.loci.end.value else seqLength),
      "mibig",
      Join(c.biosyntheticClass, ", "))
  }

  /** `MibigAnnotations.from_json` after parsing: compares the previous payload
      with the fresh entry and the record id, check by check. */
  function FromJson(prev: ReusePayload, data: Everything, recordId: string, seqLength: nat): Result<MibigAnnotations, Error>
  {
    var c := data.cluster;
    if c.loci.accession != prev.genbankAccession then Failure(ReuseRejected(AccessionChanged))
    else if recordId != prev.recordId then Failure(ReuseRejected(RecordIdChanged))
    else if OrMinusOne(c.loci.start) != prev.coords.0 || OrMinusOne(c.loci.end) != prev.coords.1 then
      Failure(ReuseRejected(CoordsChanged))
    else if |AnnotationsOf(c)| != |prev.geneAnnotations| then Failure(ReuseRejected(AnnotationCountChanged))
    else if |ExtraGenesOf(c)| != |prev.extraGenes| then Failure(ReuseRejected(ExtraGeneCountChanged))
    else Success(MibigAnnotations(recordId, ClusterArea(c, seqLength), data))
  }

  /** The fields the reuse check compares. */
  predicate SameShape(p: ReusePayload, q: ReusePayload)
  {
    && p.genbankAccession == q.genbankAccession
    && p.recordId == q.recordId
    && p.coords == q.coords
    && |p.geneAnnotations| == |q.geneAnnotations|
    && |p.extraGenes| == |q.extraGenes|
  }

  /** Reuse succeeds exactly when the previous payload agrees with the payload
      of the fresh entry on accession, record id, both coordinates and the two
      counts; it then yields the same area the loader computes.  Any mismatch
      is an AntismashInputError. */
  lemma ReuseVerdict(prev: ReusePayload, data: Everything, recordId: string, seqLength: nat)
    ensures FromJson(prev, data, recordId, seqLength).Success? <==> SameShape(prev, Payload(recordId, data))
    ensures FromJson(prev, data, recordId, seqLength).Success? ==>
      FromJson(prev, data, recordId, seqLength).value == MibigAnnotations(recordId, ClusterArea(data.cluster, seqLength), data)
    ensures FromJson(prev, data, recordId, seqLength).Failure? ==>
      FromJson(prev, data, recordId, seqLength).error.ReuseRejected?
  {
  }

  /** The payload a run saves lets that same entry and record be reused. */
  lemma OwnPayloadIsReusable(a: MibigAnnotations, seqLength: nat)
    ensures FromJson(Payload(a.recordId, a.data), a.data, a.recordId, seqLength)
      == Success(MibigAnnotations(a.recordId, ClusterArea(a.data.cluster, seqLength), a.data))
  {
  }

  /** The area's bounds: the 1-based start moves back by one, the end stays. */
  lemma ClusterAreaBounds(c: Cluster, seqLength: nat, start: int, end: int)
    requires c.loci.start == Some(start) && c.loci.end == Some(end) && start != 0 && end != 0
    ensures ClusterArea(c, seqLength).location == Interval(start - 1, end)
    ensures Payload("", Everything(c)).coords == (start, end)
  {
  }

  // ---------------------------------------------------------------------------
  // Loader: extra genes

  /** An extra gene is considered when it has a non-empty id and a location. */
  predicate Eligible(g: ExtraGene)
  {
    Truthy(g.id) && g.location.Some?
  }

  /** Each 1-based inclusive exon becomes the 0-based part [start - 1, end),
      on the gene's strand. */
  function ExonLocation(gl: GeneLocation): (loc: Location)
    ensures |loc.parts| == |gl.exons| && loc.strand == gl.strand
    ensures forall i | 0 <= i < |gl.exons| :: loc.parts[i] == Interval(gl.exons[i].start - 1, gl.exons[i].end)
  {
    Location(seq(|gl.exons|, i requires 0 <= i < |gl.exons| => Interval(gl.exons[i].start - 1, gl.exons[i].end)), gl.strand)
  }

  /** A considered gene the loader refuses: no exon, or not inside the area. */
  predicate Offends(g: ExtraGene, area: Interval)
  {
    Eligible(g) && (|g.location.value.exons| == 0 || !Inside(area, ExonLocation(g.location.value)))
  }

  /** The error an offending gene raises. */
  function OffenceOf(g: ExtraGene, area: Interval): Error
    requires Offends(g, area)
  {
    if |g.location.value.exons| == 0 then NoExons(g.id.value) else GeneOutsideCluster(g.id.value)
  }

  /** The CDS feature built for a considered gene: locus tag = the gene's id,
      translation = the given one or, when empty, the record's translation of
      its location (an external function here). */
  function NewCds(g: ExtraGene, translate: Location -> string): Cds
    requires Eligible(g)
  {
    var loc := ExonLocation(g.location.value);
    Cds(loc, Some(g.id.value), None, None, "",
        if Truthy(g.translation) then g.translation.value else translate(loc), [])
  }

  /** `CDSFeature.get_name()`: the locus tag, else the protein id, else the gene name. */
  function RealName(c: Cds): string
  {
    if Truthy(c.locusTag) then c.locusTag.value
    else if Truthy(c.proteinId) then c.proteinId.value
    else if c.gene.Some? then c.gene.value
    else ""
  }

  /** The note recorded for an added feature. */
  function AddedNote(c: Cds): string
  {
    RealName(c) + " was added"
  }

  function Notes(cs: seq<Cds>): (r: seq<string>)
    ensures |r| == |cs|
    ensures forall i | 0 <= i < |cs| :: r[i] == AddedNote(cs[i])
  {
    seq(|cs|, i requires 0 <= i < |cs| => AddedNote(cs[i]))
  }

  datatype Added = Added(cds: seq<Cds>, failure: Option<Error>)

  /** The features the extra-gene loop appends, in order, and the error that
      stops it, if any. */
  function AddedGenes(genes: seq<ExtraGene>, area: Interval, translate: Location -> string): (r: Added)
    ensures forall c | c in r.cds :: Inside(area, c.location) && |c.location.parts| > 0
    ensures r.failure.Some? ==> r.failure.value.NoExons? || r.failure.value.GeneOutsideCluster?
    decreases |genes|
  {
    if genes == [] then Added([], None)
    else
      var g := genes[0];
      if !Eligible(g) then AddedGenes(genes[1..], area, translate)
      else if Offends(g, area) then Added([], Some(OffenceOf(g, area)))
      else
        var rest := AddedGenes(genes[1..], area, translate);
        Added([NewCds(g, translate)] + rest.cds, rest.failure)
  }

  /** The features of all considered genes, when none offends. */
  function AllNew(genes: seq<ExtraGene>, translate: Location -> string): seq<Cds>
  {
    if genes == [] then []
    else (if Eligible(genes[0]) then [NewCds(genes[0], translate)] else []) + AllNew(genes[1..], translate)
  }

  lemma {:induction false} AllNewSnoc(genes: seq<ExtraGene>, g: ExtraGene, translate: Location -> string)
    ensures AllNew(genes + [g], translate) == AllNew(genes, translate) + (if Eligible(g) then [NewCds(g, translate)] else [])
  {
    if genes == [] {
      assert genes + [g] == [g];
    } else {
      assert (genes + [g])[1..] == genes[1..] + [g];
      AllNewSnoc(genes[1..], g, translate);
    }
  }

  /** With k the first offending gene (or the end of the list), the loop has
      appended exactly the features of the considered genes before k, and
      raises k's error; genes lacking an id or a location are skipped. */
  lemma {:induction false} AddedGenesStopAtFirstOffender(genes: seq<ExtraGene>, area: Interval, translate: Location -> string, k: nat)
    requires k <= |genes|
    requires forall j | 0 <= j < k :: !Offends(genes[j], area)
    requires k < |genes| ==> Offends(genes[k], area)
    ensures AddedGenes(genes, area, translate).cds == AllNew(genes[..k], translate)
    ensures AddedGenes(genes, area, translate).failure == if k == |genes| then None else Some(OffenceOf(genes[k], area))
    decreases |genes|
  {
    if genes == [] {
    } else if k == 0 {
      assert genes[..0] == [];
    } else {
      assert genes[..k][1..] == genes[1..][..k - 1];
      AddedGenesStopAtFirstOffender(genes[1..], area, translate, k - 1);
    }
  }

  // ---------------------------------------------------------------------------
  // Loader: product re-tagging

  /** The loader's match rule: the CDS's non-empty locus tag or protein id is
      the annotation's id, or its non-empty gene name is the annotation's name. */
  predicate Matches(c: Cds, a: GeneAnnotation)
  {
    || (Truthy(c.locusTag) && a.id == c.locusTag.value)
    || (Truthy(c.proteinId) && a.id == c.proteinId.value)
    || (Truthy(c.gene) && a.name == c.gene)
  }

  /** An annotation that changes the product of `c`. */
  predicate Retags(c: Cds, a: GeneAnnotation)
  {
    Matches(c, a) && Truthy(a.product)
  }

  /** The product of the last annotation that matches `c` and has a product. */
  function LastProduct(c: Cds, annots: seq<GeneAnnotation>): Option<string>
  {
    if annots == [] then None
    else
      var a := annots[|annots| - 1];
      if Retags(c, a) then Some(a.product.value) else LastProduct(c, annots[..|annots| - 1])
  }

  /** `annots[k]` is the last annotation of `annots` that re-tags `c`. */
  ghost predicate LastRetagAt(c: Cds, annots: seq<GeneAnnotation>, k: int)
  {
    && 0 <= k < |annots| && Retags(c, annots[k])
    && forall j | k < j < |annots| :: !Retags(c, annots[j])
  }

  lemma LastRetagSnoc(c: Cds, init: seq<GeneAnnotation>, a: GeneAnnotation, k: int)
    requires LastRetagAt(c, init, k) && !Retags(c, a)
    ensures LastRetagAt(c, init + [a], k)
  {
    var annots := init + [a];
    forall j | k < j < |annots| ensures !Retags(c, annots[j]) {
      if j < |init| {
        assert annots[j] == init[j];
      }
    }
  }

  /** The product found is that of the last re-tagging annotation, and there
      is none exactly when no annotation re-tags `c`. */
  lemma {:induction false} LastProductIsLast(c: Cds, annots: seq<GeneAnnotation>)
    ensures LastProduct(c, annots).None? <==> forall k | 0 <= k < |annots| :: !Retags(c, annots[k])
    ensures LastProduct(c, annots).Some? ==> exists k ::
      LastRetagAt(c, annots, k) && LastProduct(c, annots).value == annots[k].product.value
  {
    if annots != [] {
      var init := annots[..|annots| - 1];
      var a := annots[|annots| - 1];
      assert annots == init + [a];
      if Retags(c, a) {
        assert LastRetagAt(c, annots, |annots| - 1);
      } else {
        LastProductIsLast(c, init);
        if LastProduct(c, init).Some? {
          var k :| LastRetagAt(c, init, k) && LastProduct(c, init).value == init[k].product.value;
          LastRetagSnoc(c, init, a, k);
          assert annots[k] == init[k];
        } else {
          forall k | 0 <= k < |annots| ensures !Retags(c, annots[k]) {
            if k < |init| {
              assert annots[k] == init[k];
            }
          }
        }
      }
    }
  }

  /** A CDS after re-tagging: inside the area it takes the last matching
      product; otherwise, or when nothing matches, it is unchanged. */
  function Retag(c: Cds, annots: seq<GeneAnnotation>, area: Interval): Cds
  {
    if Inside(area, c.location) && LastProduct(c, annots).Some? then c.(product := LastProduct(c, annots).value) else c
  }

  function RetagAll(cds: seq<Cds>, annots: seq<GeneAnnotation>, area: Interval): (r: seq<Cds>)
    ensures |r| == |cds|
    ensures forall i | 0 <= i < |cds| :: r[i] == Retag(cds[i], annots, area)
  {
    seq(|cds|, i requires 0 <= i < |cds| => Retag(cds[i], annots, area))
  }

  /** Re-tagging touches only products, and only of CDS features inside the
      area that some annotation with a product matches. */
  lemma RetagOnlyProducts(c: Cds, annots: seq<GeneAnnotation>, area: Interval)
    ensures Retag(c, annots, area).(product := c.product) == c
    ensures Retag(c, annots, area).product != c.product ==>
      Inside(area, c.location) && exists k | 0 <= k < |annots| :: Retags(c, annots[k]) && annots[k].product.value != c.product
  {
    LastProductIsLast(c, annots);
  }

  // ---------------------------------------------------------------------------
  // Loader: referential integrity

  /** The names a CDS feature is known by (locus tag, protein id, gene). */
  function NamesOf(c: Cds): set<string>
  {
    (if c.locusTag.Some? then {c.locusTag.value} else {})
    + (if c.proteinId.Some? then {c.proteinId.value} else {})
    + (if c.gene.Some? then {c.gene.value} else {})
  }

  /** All names of all CDS features of the record. */
  function ExistingNames(cds: seq<Cds>): set<string>
  {
    if cds == [] then {} else ExistingNames(cds[..|cds| - 1]) + NamesOf(cds[|cds| - 1])
  }

  lemma {:induction false} ExistingNamesMembership(cds: seq<Cds>, n: string)
    ensures n in ExistingNames(cds) <==> exists i | 0 <= i < |cds| :: n in NamesOf(cds[i])
  {
    if cds != [] {
      ExistingNamesMembership(cds[..|cds| - 1], n);
      assert forall i | 0 <= i < |cds| - 1 :: cds[..|cds| - 1][i] == cds[i];
    }
  }

  function Flatten(xss: seq<seq<string>>): seq<string>
  {
    if xss == [] then [] else xss[0] + Flatten(xss[1..])
  }

  lemma {:induction false} FlattenSnoc(xss: seq<seq<string>>, xs: seq<string>)
    ensures Flatten(xss + [xs]) == Flatten(xss) + xs
  {
    if xss == [] {
      assert xss + [xs] == [xs];
    } else {
      assert (xss + [xs])[1..] == xss[1..] + [xs];
      FlattenSnoc(xss[1..], xs);
    }
  }

  function AnnotationIds(annots: seq<GeneAnnotation>): (r: seq<string>)
    ensures |r| == |annots|
    ensures forall i | 0 <= i < |annots| :: r[i] == annots[i].id
  {
    seq(|annots|, i requires 0 <= i < |annots| => annots[i].id)
  }

  function SynthaseGenes(ss: seq<Synthase>): seq<string>
  {
    if ss == [] then [] else SynthaseGenes(ss[..|ss| - 1]) + ss[|ss| - 1].genes + Flatten(ss[|ss| - 1].modules)
  }

  function CompoundGenes(cs: seq<Compound>): seq<string>
  {
    if cs == [] then [] else CompoundGenes(cs[..|cs| - 1]) + Flatten(cs[|cs| - 1].moieties)
  }

  /** Every gene id the entry refers to: the annotations' ids, NRPS genes and
      thioesterases, polyketide synthase and module genes, glycosyltransferases
      and compound moiety subclusters. */
  function Referenced(c: Cluster): set<string>
  {
    Elems(AnnotationIds(AnnotationsOf(c)))
    + (if c.nrp.Some? then Elems(c.nrp.value.nrpsGenes) + Elems(c.nrp.value.thioesterases) else {})
    + (if c.polyketide.Some? then Elems(SynthaseGenes(c.polyketide.value.synthases)) else {})
    + (if c.saccharide.Some? then Elems(c.saccharide.value.glycosyltransferases) else {})
    + Elems(CompoundGenes(c.compounds))
  }

  /** The integrity check: the referenced ids that no CDS is known by, sorted,
      make the loader fail. */
  function IntegrityCheck(c: Cluster, cds: seq<Cds>): (r: Option<Error>)
    ensures r.None? <==> Referenced(c) <= ExistingNames(cds)
    ensures r.Some? ==>
      && r.value.MissingGenes? && r.value.accession == c.mibigAccession
      && Elems(r.value.ids) == Referenced(c) - ExistingNames(cds)
      && StrictlySorted(r.value.ids, Below)
  {
    var missing := Referenced(c) - ExistingNames(cds);
    if missing != {} then Some(MissingGenes(c.mibigAccession, SortedStrings(missing))) else None
  }

  // ---------------------------------------------------------------------------
  // Loader: the whole merge

  /** What the loader leaves behind: the record's features and alterations,
      and its result. */
  datatype LoadOutcome = LoadOutcome(cds: seq<Cds>, alterations: seq<string>, result: Result<MibigAnnotations, Error>)

  function Load(data: Everything, recordId: string, seqLength: nat, cds: seq<Cds>, alterations: seq<string>,
                translate: Location -> string): LoadOutcome
  {
    var c := data.cluster;
    var area := ClusterArea(c, seqLength);
    var done := Success(MibigAnnotations(recordId, area, data));
    if c.genes.None? then
      var check := IntegrityCheck(c, cds);
      LoadOutcome(cds, alterations, if check.Some? then Failure(check.value) else done)
    else
      var added := AddedGenes(c.genes.value.extraGenes, area.location, translate);
      var cds1 := cds + added.cds;
      var alterations1 := alterations + Notes(added.cds);
      if added.failure.Some? then LoadOutcome(cds1, alterations1, Failure(added.failure.value))
      else
        var cds2 := RetagAll(cds1, c.genes.value.annotations, area.location);
        var check := IntegrityCheck(c, cds2);
        LoadOutcome(cds2, alterations1, if check.Some? then Failure(check.value) else done)
  }

  /** The features the loader appends for an entry. */
  function AppendedFor(data: Everything, seqLength: nat, translate: Location -> string): seq<Cds>
  {
    AddedGenes(ExtraGenesOf(data.cluster), ClusterArea(data.cluster, seqLength).location, translate).cds
  }

  /** What the merge does to the record: it appends the added genes' features,
      each lying in the area, with one "<id> was added" note apiece, and it
      changes nothing of any feature but its product. */
  lemma LoadChangesRecord(data: Everything, recordId: string, seqLength: nat, cds: seq<Cds>, alterations: seq<string>,
                          translate: Location -> string)
    ensures var out := Load(data, recordId, seqLength, cds, alterations, translate);
      var added := AppendedFor(data, seqLength, translate);
      && |out.cds| == |cds| + |added|
      && out.alterations == alterations + Notes(added)
      && (forall i | 0 <= i < |cds| :: out.cds[i].(product := cds[i].product) == cds[i])
      && (forall i | |cds| <= i < |out.cds| ::
            out.cds[i].(product := added[i - |cds|].product) == added[i - |cds|]
            && Inside(ClusterArea(data.cluster, seqLength).location, out.cds[i].location))
  {
    var c := data.cluster;
    var area := ClusterArea(c, seqLength);
    var added := AppendedFor(data, seqLength, translate);
    var out := Load(data, recordId, seqLength, cds, alterations, translate);
    if c.genes.Some? && added == AddedGenes(c.genes.value.extraGenes, area.location, translate).cds {
      var cds1 := cds + added;
      forall i | 0 <= i < |out.cds| ensures out.cds[i].(product := cds1[i].product) == cds1[i] {
        RetagOnlyProducts(cds1[i], c.genes.value.annotations, area.location);
      }
      forall i | |cds| <= i < |out.cds| ensures Inside(area.location, out.cds[i].location) {
        assert cds1[i] == added[i - |cds|];
        assert cds1[i] in added;
      }
    }
  }

  /** The loader's verdict: it fails with the missing ids, sorted, exactly when
      an added gene is not refused and some referenced id is not a name of any
      CDS feature of the record after the merge, added ones included and
      whether inside the area or not; on success it yields the record id and
      the cluster area. */
  lemma LoadVerdict(data: Everything, recordId: string, seqLength: nat, cds: seq<Cds>, alterations: seq<string>,
                    translate: Location -> string)
    ensures var out := Load(data, recordId, seqLength, cds, alterations, translate);
      var refusal := AddedGenes(ExtraGenesOf(data.cluster), ClusterArea(data.cluster, seqLength).location, translate).failure;
      && (out.result.Success? <==> refusal.None? && Referenced(data.cluster) <= ExistingNames(out.cds))
      && (out.result.Success? ==> out.result.value == MibigAnnotations(recordId, ClusterArea(data.cluster, seqLength), data))
      && (refusal.Some? ==> out.result == Failure(refusal.value))
      && (refusal.None? && out.result.Failure? ==>
            && out.result.error.MissingGenes?
            && out.result.error.accession == data.cluster.mibigAccession
            && Elems(out.result.error.ids) == Referenced(data.cluster) - ExistingNames(out.cds)
            && StrictlySorted(out.result.error.ids, Below))
  {
  }

  // ---------------------------------------------------------------------------
  // Loader: the imperative merge

  /** The extra-gene loop: appends each considered gene, with its note, until
      the first one that has no exon or lies outside the area. */
  method AddExtraGenes(record: Record, genes: seq<ExtraGene>, area: Interval, translate: Location -> string)
    returns (failure: Option<Error>)
    modifies record
    ensures record.cdsFeatures == old(record.cdsFeatures) + AddedGenes(genes, area, translate).cds
    ensures record.alterations == old(record.alterations) + Notes(AddedGenes(genes, area, translate).cds)
    ensures failure == AddedGenes(genes, area, translate).failure
  {
    ghost var cds0 := record.cdsFeatures;
    ghost var alterations0 := record.alterations;
    var k := 0;
    while k < |genes|
      invariant k <= |genes|
      invariant forall j | 0 <= j < k :: !Offends(genes[j], area)
      invariant record.cdsFeatures == cds0 + AllNew(genes[..k], translate)
      invariant record.alterations == alterations0 + Notes(AllNew(genes[..k], translate))
    {
      var gene := genes[k];
      assert genes[..k + 1] == genes[..k] + [gene];
      AllNewSnoc(genes[..k], gene, translate);
      if Truthy(gene.id) && gene.location.Some? {
        var location := ExonLocation(gene.location.value);
        if |gene.location.value.exons| == 0 {
          AddedGenesStopAtFirstOffender(genes, area, translate, k);
          return Some(NoExons(gene.id.value));
        }
        if !Inside(area, location) {
          AddedGenesStopAtFirstOffender(genes, area, translate, k);
          return Some(GeneOutsideCluster(gene.id.value));
        }
        var cds := NewCds(gene, translate);
        record.AddCdsFeature(cds);
        record.AddAlteration(AddedNote(cds));
        assert Notes(AllNew(genes[..k + 1], translate)) == Notes(AllNew(genes[..k], translate)) + [AddedNote(cds)];
      } else {
        assert Notes(AllNew(genes[..k + 1], translate)) == Notes(AllNew(genes[..k], translate));
      }
      k := k + 1;
    }
    assert genes[..k] == genes;
    AddedGenesStopAtFirstOffender(genes, area, translate, k);
    failure := None;
  }

  /** The re-annotation loop: every CDS feature inside the area receives, in
      turn, the product of each matching annotation that has one. */
  method Reannotate(record: Record, annots: seq<GeneAnnotation>, area: Interval)
    modifies record
    ensures record.cdsFeatures == RetagAll(old(record.cdsFeatures), annots, area)
    ensures record.alterations == old(record.alterations)
  {
    ghost var cds0 := record.cdsFeatures;
    for i := 0 to |record.cdsFeatures|
      invariant |record.cdsFeatures| == |cds0|
      invariant record.alterations == old(record.alterations)
      invariant forall j | 0 <= j < i :: record.cdsFeatures[j] == Retag(cds0[j], annots, area)
      invariant forall j | i <= j < |cds0| :: record.cdsFeatures[j] == cds0[j]
    {
      var cds := record.cdsFeatures[i];
      if Inside(area, cds.location) {
        ghost var before := record.cdsFeatures;
        for k := 0 to |annots|
          invariant |record.cdsFeatures| == |cds0|
          invariant record.alterations == old(record.alterations)
          invariant forall j | 0 <= j < |cds0| && j != i :: record.cdsFeatures[j] == before[j]
          invariant record.cdsFeatures[i] == cds.(product := record.cdsFeatures[i].product)
          invariant record.cdsFeatures[i].product ==
            if LastProduct(cds, annots[..k]).Some? then LastProduct(cds, annots[..k]).value else cds.product
        {
          assert annots[..k + 1][..k] == annots[..k];
          var annot := annots[k];
          if Matches(cds, annot) && Truthy(annot.product) {
            record.SetProduct(i, annot.product.value);
          }
        }
        assert annots[..|annots|] == annots;
      }
    }
  }

  /** `existing`: the names of every CDS feature of the record. */
  method ExistingOf(record: Record) returns (existing: set<string>)
    ensures existing == ExistingNames(record.cdsFeatures)
  {
    existing := {};
    for i := 0 to |record.cdsFeatures|
      invariant existing == ExistingNames(record.cdsFeatures[..i])
    {
      var cds := record.cdsFeatures[i];
      assert record.cdsFeatures[..i + 1][..i] == record.cdsFeatures[..i];
      if cds.locusTag.Some? { existing := existing + {cds.locusTag.value}; }
      if cds.proteinId.Some? { existing := existing + {cds.proteinId.value}; }
      if cds.gene.Some? { existing := existing + {cds.gene.value}; }
    }
    assert record.cdsFeatures[..|record.cdsFeatures|] == record.cdsFeatures;
  }

  /** `referenced.update(set(ids))` */
  method AddAll(referenced: set<string>, ids: seq<string>) returns (r: set<string>)
    ensures r == referenced + Elems(ids)
  {
    r := referenced;
    for i := 0 to |ids|
      invariant r == referenced + Elems(ids[..i])
    {
      assert ids[..i + 1] == ids[..i] + [ids[i]];
      r := r + {ids[i]};
    }
    assert ids[..|ids|] == ids;
  }

  /** The polyketide part of `referenced`: each synthase's genes, then each of
      its modules' genes. */
  method AddSynthaseGenes(referenced: set<string>, synthases: seq<Synthase>) returns (r: set<string>)
    ensures r == referenced + Elems(SynthaseGenes(synthases))
  {
    r := referenced;
    for i := 0 to |synthases|
      invariant r == referenced + Elems(SynthaseGenes(synthases[..i]))
    {
      var synthase := synthases[i];
      assert synthases[..i + 1][..i] == synthases[..i];
      r := AddAll(r, synthase.genes);
      for m := 0 to |synthase.modules|
        invariant r == referenced + Elems(SynthaseGenes(synthases[..i])) + Elems(synthase.genes) + Elems(Flatten(synthase.modules[..m]))
      {
        assert synthase.modules[..m + 1] == synthase.modules[..m] + [synthase.modules[m]];
        FlattenSnoc(synthase.modules[..m], synthase.modules[m]);
        r := AddAll(r, synthase.modules[m]);
      }
      assert synthase.modules[..|synthase.modules|] == synthase.modules;
    }
    assert synthases[..|synthases|] == synthases;
  }

  /** The compound part of `referenced`: the subcluster genes of every moiety
      that names a subcluster. */
  method AddCompoundGenes(referenced: set<string>, compounds: seq<Compound>) returns (r: set<string>)
    ensures r == referenced + Elems(CompoundGenes(compounds))
  {
    r := referenced;
    for i := 0 to |compounds|
      invariant r == referenced + Elems(CompoundGenes(compounds[..i]))
    {
      var compound := compounds[i];
      assert compounds[..i + 1][..i] == compounds[..i];
      for m := 0 to |compound.moieties|
        invariant r == referenced + Elems(CompoundGenes(compounds[..i])) + Elems(Flatten(compound.moieties[..m]))
      {
        assert compound.moieties[..m + 1] == compound.moieties[..m] + [compound.moieties[m]];
        FlattenSnoc(compound.moieties[..m], compound.moieties[m]);
        if compound.moieties[m] != [] {
          r := AddAll(r, compound.moieties[m]);
        }
      }
      assert compound.moieties[..|compound.moieties|] == compound.moieties;
    }
    assert compounds[..|compounds|] == compounds;
  }

  /** `referenced`: every gene id the entry refers to, gathered section by
      section. */
  method ReferencedOf(c: Cluster) returns (referenced: set<string>)
    ensures referenced == Referenced(c)
  {
    referenced := {};
    if c.genes.Some? && c.genes.value.annotations != [] {
      referenced := AddAll(referenced, AnnotationIds(c.genes.value.annotations));
    }
    ghost var s1 := Elems(AnnotationIds(AnnotationsOf(c)));
    assert referenced == s1;
    if c.nrp.Some? {
      referenced := AddAll(referenced, c.nrp.value.nrpsGenes);
      referenced := AddAll(referenced, c.nrp.value.thioesterases);
    }
    ghost var s2 := s1 + (if c.nrp.Some? then Elems(c.nrp.value.nrpsGenes) + Elems(c.nrp.value.thioesterases) else {});
    assert referenced == s2;
    if c.polyketide.Some? {
      referenced := AddSynthaseGenes(referenced, c.polyketide.value.synthases);
    }
    ghost var s3 := s2 + (if c.polyketide.Some? then Elems(SynthaseGenes(c.polyketide.value.synthases)) else {});
    assert referenced == s3;
    if c.saccharide.Some? {
      referenced := AddAll(referenced, c.saccharide.value.glycosyltransferases);
    }
    assert referenced == s3 + (if c.saccharide.Some? then Elems(c.saccharide.value.glycosyltransferases) else {});
    referenced := AddCompoundGenes(referenced, c.compounds);
  }

  /** `mibig_loader` after parsing: merges the entry into the record in place
      and checks that every referenced gene exists. */
  method MibigLoader(data: Everything, record: Record, translate: Location -> string)
    returns (result: Result<MibigAnnotations, Error>)
    modifies record
    ensures var out := Load(data, record.id, record.seqLength, old(record.cdsFeatures), old(record.alterations), translate);
      record.cdsFeatures == out.cds && record.alterations == out.alterations && result == out.result
  {
    var c := data.cluster;
    var area := ClusterArea(c, record.seqLength);
    if c.genes.Some? {
      var failure := AddExtraGenes(record, c.genes.value.extraGenes, area.location, translate);
      if failure.Some? {
        return Failure(failure.value);
      }
      Reannotate(record, AnnotationsOf(c), area.location);
    }
    var existing := ExistingOf(record);
    var referenced := ReferencedOf(c);
    var missing := referenced - existing;
    if missing != {} {
      return Failure(MissingGenes(c.mibigAccession, SortedStrings(missing)));
    }
    result := Success(MibigAnnotations(record.id, area, data));
  }
}
