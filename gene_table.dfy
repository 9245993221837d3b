/** The genes table of an entry page (mibig_html/annotations/html_output.py,
    `generate_html`): one row per CDS of the region, each CDS taking the first
    remaining gene annotation that shares one of its names, and every
    annotation of the entry taken by some CDS. */
module GeneTable {
  import opened Basics
  import opened Citations
  import opened Annotations
  import opened Renderer

  // ---------------------------------------------------------------------------
  // Rows

  /** The span of a location: from its lowest start to its highest end. */
  function Span(loc: Location): (r: Interval)
    requires loc.parts != []
    ensures forall p | p in loc.parts :: r.start <= p.start && p.end <= r.end
    ensures exists p | p in loc.parts :: p.start == r.start
    ensures exists p | p in loc.parts :: p.end == r.end
    decreases |loc.parts|
  {
    if |loc.parts| == 1 then loc.parts[0]
    else
      var rest := Span(Location(loc.parts[1..], loc.strand));
      var p := loc.parts[0];
      assert forall q | q in loc.parts[1..] :: q in loc.parts;
      Interval(if p.start < rest.start then p.start else rest.start, if p.end > rest.end then p.end else rest.end)
  }

  /** The links of one function, by evidence method. */
  type Links = Dict<string, string>

  /** A row of the genes table. Coordinates are 1-based and inclusive. */
  datatype GeneRow = GeneRow(
    realName: string,
    locusTag: Option<string>,
    proteinId: Option<string>,
    gene: Option<string>,
    start: int,
    end: int,
    strand: string,
    product: string,
    comment: Option<string>,
    aaSeq: string,
    functions: Dict<string, Links>)

  /** The functions the "mibig" tool attached to a CDS, each with no links;
      the other tools' functions are not listed. */
  function ToolFunctions(fs: seq<GeneFunction>): (d: Dict<string, Links>)
    ensures d.Valid()
  {
    if fs == [] then EmptyDict()
    else
      var f := fs[|fs| - 1];
      var d := ToolFunctions(fs[..|fs| - 1]);
      if f.tool != "mibig" then d else d.Put(f.name, EmptyDict())
  }

  /** Only functions of the "mibig" tool are listed, every one of them, and
      none with links. */
  lemma {:induction false} ToolFunctionsOnlyMibig(fs: seq<GeneFunction>, k: string)
    ensures k in ToolFunctions(fs).entries <==> exists f | f in fs :: f.tool == "mibig" && f.name == k
    ensures k in ToolFunctions(fs).entries ==> ToolFunctions(fs).entries[k] == EmptyDict()
  {
    if fs != [] {
      var init := fs[..|fs| - 1];
      var f := fs[|fs| - 1];
      var d := ToolFunctions(init);
      assert fs == init + [f];
      if f.tool == "mibig" && f.name == k {
        assert ToolFunctions(fs) == d.Put(k, EmptyDict());
        assert f in fs;
      } else {
        assert ToolFunctions(fs).entries.Keys - {f.name} == d.entries.Keys - {f.name};
        assert k in ToolFunctions(fs).entries ==> ToolFunctions(fs).entries[k] == d.entries[k];
        ToolFunctionsOnlyMibig(init, k);
        if exists g | g in fs :: g.tool == "mibig" && g.name == k {
          var g :| g in fs && g.tool == "mibig" && g.name == k;
          assert g in init;
        }
        if exists g | g in init :: g.tool == "mibig" && g.name == k {
          var g :| g in init && g.tool == "mibig" && g.name == k;
          assert g in fs;
        }
      }
    }
  }

  /** The row of a CDS before any annotation is applied. */
  function BaseRow(c: Cds): (r: GeneRow)
    requires c.location.parts != []
    ensures r.functions.Valid()
  {
    var span := Span(c.location);
    GeneRow(RealName(c), c.locusTag, c.proteinId, c.gene, span.start + 1, span.end,
            if c.location.strand > 0 then "+" else "-", c.product, None, c.translation,
            ToolFunctions(c.geneFunctions))
  }

  /** The row key of an annotated function: its name, then the tailoring
      functions in parentheses when there are any. */
  function FunctionText(f: AnnotatedFunction, tailoring: seq<string>): string
  {
    if tailoring != [] then f.name + " (" + Join(tailoring, ", ") + ") " else f.name + " "
  }

  /** `references_by_method`: each distinct evidence method, in first-encounter
      order, with the function's references once per time the method occurs. */
  function ReferencesByMethod(evidence: seq<string>, references: seq<Citation>): (d: Dict<string, seq<Citation>>)
    ensures d.Valid()
  {
    if evidence == [] then EmptyDict()
    else
      var m := evidence[|evidence| - 1];
      var d := ReferencesByMethod(evidence[..|evidence| - 1], references);
      d.Put(m, (if m in d.entries then d.entries[m] else []) + references)
  }

  /** Every method's list holds exactly the function's references. */
  lemma {:induction false} ReferencesByMethodContents(evidence: seq<string>, references: seq<Citation>)
    ensures forall m | m in ReferencesByMethod(evidence, references).entries ::
      m in evidence && Elems(ReferencesByMethod(evidence, references).entries[m]) == Elems(references)
    ensures forall m | m in evidence :: m in ReferencesByMethod(evidence, references).entries
  {
    if evidence != [] {
      ReferencesByMethodContents(evidence[..|evidence| - 1], references);
      assert evidence == evidence[..|evidence| - 1] + [evidence[|evidence| - 1]];
      var m := evidence[|evidence| - 1];
      var d := ReferencesByMethod(evidence[..|evidence| - 1], references);
      if m in d.entries {
        assert Elems(d.entries[m] + references) == Elems(d.entries[m]) + Elems(references);
      } else {
        assert [] + references == references;
      }
    }
  }

  /** The links of each method: what `link` makes of its references (the
      short-form citation links, in `FunctionLinks`). */
  function LinksOf(keys: seq<string>, byMethod: Dict<string, seq<Citation>>, link: seq<Citation> -> Option<string>)
    : (r: Option<Links>)
    requires byMethod.Valid() && forall k | k in keys :: k in byMethod.entries
    ensures r.Some? ==> r.value.Valid()
  {
    if keys == [] then Some(EmptyDict())
    else
      var k := keys[|keys| - 1];
      var rest := LinksOf(keys[..|keys| - 1], byMethod, link);
      var links := link(byMethod.entries[k]);
      if rest.None? || links.None? then None else Some(rest.value.Put(k, links.value))
  }

  /** The links exist exactly when every method's references have links. */
  lemma {:induction false} LinksOfDefined(keys: seq<string>, byMethod: Dict<string, seq<Citation>>, link: seq<Citation> -> Option<string>)
    requires byMethod.Valid() && forall k | k in keys :: k in byMethod.entries
    ensures LinksOf(keys, byMethod, link).Some? <==> forall k | k in keys :: link(byMethod.entries[k]).Some?
  {
    if keys != [] {
      var init := keys[..|keys| - 1];
      var k := keys[|keys| - 1];
      assert keys == init + [k];
      assert forall j | j in init :: j in keys;
      LinksOfDefined(init, byMethod, link);
    }
  }

  /** Defined links hold a key exactly when it is a method, with the links of
      that method's references. */
  lemma {:induction false} LinksOfAt(keys: seq<string>, byMethod: Dict<string, seq<Citation>>, link: seq<Citation> -> Option<string>,
                                     x: string)
    requires byMethod.Valid() && forall k | k in keys :: k in byMethod.entries
    requires LinksOf(keys, byMethod, link).Some?
    ensures x in LinksOf(keys, byMethod, link).value.entries <==> x in keys
    ensures x in keys ==> Some(LinksOf(keys, byMethod, link).value.entries[x]) == link(byMethod.entries[x])
  {
    if keys != [] {
      var init := keys[..|keys| - 1];
      var k := keys[|keys| - 1];
      assert keys == init + [k];
      var rest := LinksOf(init, byMethod, link);
      assert rest.Some? && LinksOf(keys, byMethod, link).value == rest.value.Put(k, link(byMethod.entries[k]).value);
      if x != k {
        assert x in keys <==> x in init;
        assert forall j | j in init :: j in keys;
        LinksOfAt(init, byMethod, link, x);
      }
    }
  }

  /** Defined links hold each method and nothing else. */
  lemma LinksOfKeys(keys: seq<string>, byMethod: Dict<string, seq<Citation>>, link: seq<Citation> -> Option<string>)
    requires byMethod.Valid() && forall k | k in keys :: k in byMethod.entries
    requires LinksOf(keys, byMethod, link).Some?
    ensures LinksOf(keys, byMethod, link).value.entries.Keys == Elems(keys)
  {
    forall x ensures x in LinksOf(keys, byMethod, link).value.entries <==> x in Elems(keys) {
      LinksOfAt(keys, byMethod, link, x);
    }
  }

  /** Defined links hold, for each method, the links of its references. */
  lemma LinksOfValues(keys: seq<string>, byMethod: Dict<string, seq<Citation>>, link: seq<Citation> -> Option<string>)
    requires byMethod.Valid() && forall k | k in keys :: k in byMethod.entries
    requires LinksOf(keys, byMethod, link).Some?
    ensures forall k | k in keys ::
      k in LinksOf(keys, byMethod, link).value.entries
      && Some(LinksOf(keys, byMethod, link).value.entries[k]) == link(byMethod.entries[k])
  {
    forall x | x in keys
      ensures x in LinksOf(keys, byMethod, link).value.entries
        && Some(LinksOf(keys, byMethod, link).value.entries[x]) == link(byMethod.entries[x])
    {
      LinksOfAt(keys, byMethod, link, x);
    }
  }

  /** The method-to-links table of one annotated function. */
  function FunctionLinks(f: AnnotatedFunction, url: Citation -> string): Option<Links>
  {
    var byMethod := ReferencesByMethod(f.evidence, f.references);
    ReferencesByMethodContents(f.evidence, f.references);
    LinksOf(byMethod.keys, byMethod, ShortLinks(url))
  }

  /** The links of one method: the short-form links of its references, not in
      a superscript. */
  function ShortLinks(url: Citation -> string): seq<Citation> -> Option<string>
  {
    cs => BuildShortFormCitationLinks(cs, false, url)
  }

  /** When `link` makes the same of every method's references, the links
      fail only when there is a method and `link` fails on the references. */
  lemma MethodLinksDefined(evidence: seq<string>, references: seq<Citation>, link: seq<Citation> -> Option<string>)
    requires var byMethod := ReferencesByMethod(evidence, references);
      forall m | m in byMethod.entries :: link(byMethod.entries[m]) == link(references)
    ensures var byMethod := ReferencesByMethod(evidence, references);
      && (forall k | k in byMethod.keys :: k in byMethod.entries)
      && (LinksOf(byMethod.keys, byMethod, link).Some? <==> evidence == [] || link(references).Some?)
  {
    var byMethod := ReferencesByMethod(evidence, references);
    ReferencesByMethodContents(evidence, references);
    LinksOfDefined(byMethod.keys, byMethod, link);
    if evidence != [] {
      assert evidence[0] in byMethod.entries;
      assert evidence[0] in byMethod.keys;
    }
  }

  /** When `link` makes the same of every method's references, every method
      links to that, and nothing else has links. */
  lemma MethodLinksValues(evidence: seq<string>, references: seq<Citation>, link: seq<Citation> -> Option<string>)
    requires var byMethod := ReferencesByMethod(evidence, references);
      && (forall m | m in byMethod.entries :: link(byMethod.entries[m]) == link(references))
      && (forall k | k in byMethod.keys :: k in byMethod.entries)
      && LinksOf(byMethod.keys, byMethod, link).Some?
    ensures var byMethod := ReferencesByMethod(evidence, references);
      && LinksOf(byMethod.keys, byMethod, link).value.entries.Keys == Elems(evidence)
      && forall m | m in evidence :: Some(LinksOf(byMethod.keys, byMethod, link).value.entries[m]) == link(references)
  {
    var byMethod := ReferencesByMethod(evidence, references);
    ReferencesByMethodContents(evidence, references);
    LinksOfKeys(byMethod.keys, byMethod, link);
    LinksOfValues(byMethod.keys, byMethod, link);
    assert Elems(byMethod.keys) == Elems(evidence) by {
      forall m ensures m in byMethod.keys <==> m in evidence {
        assert m in byMethod.keys <==> m in byMethod.entries;
      }
    }
  }

  /** Every evidence method of a function links to the short-form links of
      the function's references, however often the method repeats; the links
      fail only when the function has evidence and a reference without a label. */
  lemma FunctionLinksPerMethod(f: AnnotatedFunction, url: Citation -> string)
    ensures FunctionLinks(f, url).Some? <==> f.evidence == [] || BuildShortFormCitationLinks(f.references, false, url).Some?
    ensures FunctionLinks(f, url).Some? ==> FunctionLinks(f, url).value.entries.Keys == Elems(f.evidence)
    ensures FunctionLinks(f, url).Some? ==> forall m | m in f.evidence ::
      FunctionLinks(f, url).value.entries[m] == BuildShortFormCitationLinks(f.references, false, url).value
  {
    var byMethod := ReferencesByMethod(f.evidence, f.references);
    ReferencesByMethodContents(f.evidence, f.references);
    forall m | m in byMethod.entries
      ensures ShortLinks(url)(byMethod.entries[m]) == ShortLinks(url)(f.references)
    {
      ShortFormLinksDependOnSetOnly(byMethod.entries[m], f.references, false, url);
    }
    MethodLinksDefined(f.evidence, f.references, ShortLinks(url));
    if FunctionLinks(f, url).Some? {
      MethodLinksValues(f.evidence, f.references, ShortLinks(url));
    }
  }

  /** The links of each annotated function, as `AnnotatedFunctions` takes them. */
  function FunctionLinksOf(url: Citation -> string): AnnotatedFunction -> Option<Links>
  {
    f => FunctionLinks(f, url)
  }

  /** The annotated functions of a matched annotation, added to the row's
      table, each with what `links` makes of it. */
  function AnnotatedFunctions(d: Dict<string, Links>, fs: seq<AnnotatedFunction>, tailoring: seq<string>,
                              links: AnnotatedFunction -> Option<Links>)
    : (r: Option<Dict<string, Links>>)
    requires d.Valid()
    ensures r.Some? ==> r.value.Valid()
  {
    if fs == [] then Some(d)
    else
      var f := fs[|fs| - 1];
      var rest := AnnotatedFunctions(d, fs[..|fs| - 1], tailoring, links);
      var l := links(f);
      if rest.None? || l.None? then None else Some(rest.value.Put(FunctionText(f, tailoring), l.value))
  }

  /** The functions can be listed exactly when each has its links. */
  lemma {:induction false} AnnotatedFunctionsDefined(d: Dict<string, Links>, fs: seq<AnnotatedFunction>, tailoring: seq<string>,
                                                     links: AnnotatedFunction -> Option<Links>)
    requires d.Valid()
    ensures AnnotatedFunctions(d, fs, tailoring, links).Some? <==> forall i | 0 <= i < |fs| :: links(fs[i]).Some?
  {
    if fs != [] {
      var init := fs[..|fs| - 1];
      var f := fs[|fs| - 1];
      AnnotatedFunctionsDefined(d, init, tailoring, links);
      if AnnotatedFunctions(d, fs, tailoring, links).Some? {
        forall i | 0 <= i < |fs| ensures links(fs[i]).Some? {
          if i < |init| {
            assert fs[i] == init[i];
          }
        }
      } else if AnnotatedFunctions(d, init, tailoring, links).None? {
        var i :| 0 <= i < |init| && links(init[i]).None?;
        assert fs[i] == init[i];
      } else {
        assert links(fs[|fs| - 1]).None?;
      }
    }
  }

  /** The row keys of the annotated functions, in order. */
  function Texts(fs: seq<AnnotatedFunction>, tailoring: seq<string>): seq<string>
  {
    if fs == [] then [] else Texts(fs[..|fs| - 1], tailoring) + [FunctionText(fs[|fs| - 1], tailoring)]
  }

  /** Listed functions keep the row's earlier functions in their place. */
  lemma {:induction false} AnnotatedFunctionsKeepOrder(d: Dict<string, Links>, fs: seq<AnnotatedFunction>, tailoring: seq<string>,
                                                       links: AnnotatedFunction -> Option<Links>)
    requires d.Valid()
    requires AnnotatedFunctions(d, fs, tailoring, links).Some?
    ensures var r := AnnotatedFunctions(d, fs, tailoring, links).value;
      |d.keys| <= |r.keys| && r.keys[..|d.keys|] == d.keys
  {
    if fs != [] {
      var init := fs[..|fs| - 1];
      AnnotatedFunctionsKeepOrder(d, init, tailoring, links);
      var rest := AnnotatedFunctions(d, init, tailoring, links).value;
      var t := FunctionText(fs[|fs| - 1], tailoring);
      assert (rest.keys + [t])[..|d.keys|] == rest.keys[..|d.keys|];
    }
  }

  /** Listed functions add exactly the texts of the annotated functions. */
  lemma {:induction false} AnnotatedFunctionsContents(d: Dict<string, Links>, fs: seq<AnnotatedFunction>, tailoring: seq<string>,
                                                      links: AnnotatedFunction -> Option<Links>)
    requires d.Valid()
    requires AnnotatedFunctions(d, fs, tailoring, links).Some?
    ensures AnnotatedFunctions(d, fs, tailoring, links).value.entries.Keys == d.entries.Keys + Elems(Texts(fs, tailoring))
  {
    if fs != [] {
      var init := fs[..|fs| - 1];
      AnnotatedFunctionsContents(d, init, tailoring, links);
      ElemsSnoc(Texts(init, tailoring), FunctionText(fs[|fs| - 1], tailoring));
    }
  }

  /** The links of the last listed function with a given text are the ones shown. */
  lemma {:induction false} AnnotatedFunctionsLast(d: Dict<string, Links>, fs: seq<AnnotatedFunction>, tailoring: seq<string>,
                                                  links: AnnotatedFunction -> Option<Links>)
    requires d.Valid() && fs != []
    requires AnnotatedFunctions(d, fs, tailoring, links).Some?
    ensures var r := AnnotatedFunctions(d, fs, tailoring, links).value;
      var f := fs[|fs| - 1];
      FunctionText(f, tailoring) in r.entries && Some(r.entries[FunctionText(f, tailoring)]) == links(f)
  {
  }

  /** The row of a CDS with its matched annotation applied: the annotation's
      functions and mutation phenotype are listed, and its product and comment
      replace the row's only when it has them. */
  function AnnotatedRow(row: GeneRow, a: GeneAnnotation, url: Citation -> string): (r: Option<GeneRow>)
    requires row.functions.Valid()
    ensures r.Some? <==> AnnotatedFunctions(row.functions, a.functions, a.tailoringFunctions, FunctionLinksOf(url)).Some?
    ensures r.Some? ==> r.value.functions.Valid()
    ensures r.Some? ==> r.value.product == if Truthy(a.product) then a.product.value else row.product
    ensures r.Some? ==> r.value.comment == if Truthy(a.comment) then a.comment else row.comment
    ensures r.Some? ==> r.value.start == row.start && r.value.end == row.end && r.value.strand == row.strand
    ensures r.Some? && Truthy(a.mutationPhenotype) ==>
      var key := "Mutation phenotype: " + a.mutationPhenotype.value;
      key in r.value.functions.entries && r.value.functions.entries[key] == EmptyDict()
  {
    match AnnotatedFunctions(row.functions, a.functions, a.tailoringFunctions, FunctionLinksOf(url))
    case None => None
    case Some(fs) =>
      var fs' := if Truthy(a.mutationPhenotype) then fs.Put("Mutation phenotype: " + a.mutationPhenotype.value, EmptyDict()) else fs;
      Some(row.(functions := fs',
                product := if Truthy(a.product) then a.product.value else row.product,
                comment := if Truthy(a.comment) then a.comment else row.comment))
  }

  /** The row of a CDS and the annotation it took, if any: the CDS's span
      1-based, "+" exactly for the forward strand, and the annotation's
      product and comment when it has them. Only an annotated row can fail. */
  function RowOf(c: Cds, m: Option<GeneAnnotation>, url: Citation -> string): (r: Option<GeneRow>)
    requires c.location.parts != []
    ensures m.None? ==> r.Some?
    ensures r.Some? ==>
      && r.value.start == Span(c.location).start + 1 && r.value.end == Span(c.location).end
      && (r.value.strand == "+" <==> c.location.strand > 0)
      && r.value.product == (if m.Some? && Truthy(m.value.product) then m.value.product.value else c.product)
      && (r.value.comment.Some? <==> m.Some? && Truthy(m.value.comment))
  {
    if m.None? then Some(BaseRow(c)) else AnnotatedRow(BaseRow(c), m.value, url)
  }

  /** How the table builds the row of a CDS, as the walk below takes it. A
      location always has a part; the empty case is never reached. */
  function Rows(url: Citation -> string): (Cds, Option<GeneAnnotation>) -> Option<GeneRow>
  {
    (c: Cds, m: Option<GeneAnnotation>) => if c.location.parts == [] then None else RowOf(c, m, url)
  }

  // ---------------------------------------------------------------------------
  // Matching CDS features to annotations

  /** The CDS carries `n` as its locus tag, protein id or gene name. */
  predicate HasName(c: Cds, n: string)
  {
    c.locusTag == Some(n) || c.proteinId == Some(n) || c.gene == Some(n)
  }

  /** The annotation's id, or its name when it has one, is a name of the CDS. */
  predicate NameHit(c: Cds, a: GeneAnnotation)
  {
    HasName(c, a.id) || (Truthy(a.name) && HasName(c, a.name.value))
  }

  /** The index of the first annotation that shares a name with `c`, or -1. */
  function FirstHit(c: Cds, annots: seq<GeneAnnotation>): (r: int)
    ensures -1 <= r < |annots|
    ensures r >= 0 ==> NameHit(c, annots[r])
    ensures forall j | 0 <= j < |annots| && (r < 0 || j < r) :: !NameHit(c, annots[j])
  {
    if annots == [] then -1
    else if NameHit(c, annots[0]) then 0
    else
      var r := FirstHit(c, annots[1..]);
      assert forall j | 1 <= j < |annots| :: annots[j] == annots[1..][j - 1];
      if r < 0 then -1 else r + 1
  }

  /** The search loop of `generate_html`. */
  method FindAnnotation(c: Cds, annots: seq<GeneAnnotation>) returns (idx: int)
    ensures idx == FirstHit(c, annots)
  {
    idx := -1;
    var i := 0;
    while i < |annots|
      invariant 0 <= i <= |annots|
      invariant forall j | 0 <= j < i :: !NameHit(c, annots[j])
    {
      if NameHit(c, annots[i]) {
        idx := i;
        FirstHitUnique(c, annots, i);
        return;
      }
      i := i + 1;
    }
    FirstHitUnique(c, annots, -1);
  }

  /** The first hit is determined by the hit property. */
  lemma FirstHitUnique(c: Cds, annots: seq<GeneAnnotation>, r: int)
    requires -1 <= r < |annots|
    requires r >= 0 ==> NameHit(c, annots[r])
    requires forall j | 0 <= j < |annots| && (r < 0 || j < r) :: !NameHit(c, annots[j])
    ensures r == FirstHit(c, annots)
  {
  }

  /** `annots.pop(i)` */
  function RemoveAt(s: seq<GeneAnnotation>, i: nat): (r: seq<GeneAnnotation>)
    requires i < |s|
    ensures |r| == |s| - 1
    ensures multiset(r) + multiset{s[i]} == multiset(s)
  {
    assert s == s[..i] + [s[i]] + s[i + 1..];
    s[..i] + s[i + 1..]
  }

  /** The walk over the region's CDS features: the rows so far, the annotation
      each CDS took, whether some taken annotation has a comment, the
      annotations not yet taken, and whether building a row failed. */
  datatype Walk = Walk(
    rows: seq<GeneRow>,
    matched: seq<Option<GeneAnnotation>>,
    haveComments: bool,
    remaining: seq<GeneAnnotation>,
    failed: bool)

  /** The annotation a CDS takes: the first remaining one sharing a name with it. */
  function Taking(c: Cds, remaining: seq<GeneAnnotation>): (m: Option<GeneAnnotation>)
    ensures m.None? <==> forall j | 0 <= j < |remaining| :: !NameHit(c, remaining[j])
    ensures m.Some? ==> NameHit(c, m.value) && m.value in remaining
  {
    var i := FirstHit(c, remaining);
    if i < 0 then None else Some(remaining[i])
  }

  /** The annotations left once a CDS has taken its annotation. */
  function LeftAfter(c: Cds, remaining: seq<GeneAnnotation>): seq<GeneAnnotation>
  {
    var i := FirstHit(c, remaining);
    if i < 0 then remaining else RemoveAt(remaining, i)
  }

  /** Taking an annotation removes exactly that one from the remaining ones. */
  lemma LeftAfterConserves(c: Cds, remaining: seq<GeneAnnotation>)
    ensures Taking(c, remaining).None? ==> LeftAfter(c, remaining) == remaining
    ensures Taking(c, remaining).Some? ==>
      multiset(LeftAfter(c, remaining)) + multiset{Taking(c, remaining).value} == multiset(remaining)
  {
  }

  /** One iteration: the CDS takes its annotation, if any, and gets the row
      `rows` builds for it; a failure stops the walk. */
  function WalkStep(w: Walk, c: Cds, rows: (Cds, Option<GeneAnnotation>) -> Option<GeneRow>): (w': Walk)
  {
    if w.failed then w
    else
      var m := Taking(c, w.remaining);
      var rest := LeftAfter(c, w.remaining);
      match rows(c, m)
      case None => Walk(w.rows, w.matched, w.haveComments, rest, true)
      case Some(row) => Walk(w.rows + [row], w.matched + [m], w.haveComments || (m.Some? && Truthy(m.value.comment)), rest, false)
  }

  /** The state after the first |cds| iterations. */
  function WalkOf(cds: seq<Cds>, annots: seq<GeneAnnotation>, rows: (Cds, Option<GeneAnnotation>) -> Option<GeneRow>): (w: Walk)
    ensures |w.matched| == |w.rows| <= |cds|
    ensures !w.failed ==> |w.rows| == |cds|
  {
    if cds == [] then Walk([], [], false, annots, false)
    else WalkStep(WalkOf(cds[..|cds| - 1], annots, rows), cds[|cds| - 1], rows)
  }

  /** The annotations taken, as a multiset. */
  function Taken(matched: seq<Option<GeneAnnotation>>): multiset<GeneAnnotation>
  {
    if matched == [] then multiset{}
    else
      var m := matched[|matched| - 1];
      Taken(matched[..|matched| - 1]) + if m.Some? then multiset{m.value} else multiset{}
  }

  lemma MultisetMove<T>(a: multiset<T>, b: multiset<T>, t: multiset<T>, x: multiset<T>)
    requires a + x == b
    ensures a + (t + x) == b + t && (a + t) + x == b + t
  {
  }

  /** Popping loses no annotation and invents none: the annotations not taken
      and the ones taken (plus the one being rendered when the walk failed)
      are exactly the entry's. */
  lemma {:induction false} WalkConserves(cds: seq<Cds>, annots: seq<GeneAnnotation>, rows: (Cds, Option<GeneAnnotation>) -> Option<GeneRow>)
    requires forall c | c in cds :: rows(c, None).Some?
    ensures var w := WalkOf(cds, annots, rows);
      !w.failed ==> multiset(w.remaining) + Taken(w.matched) == multiset(annots)
    ensures var w := WalkOf(cds, annots, rows);
      w.failed ==> |multiset(w.remaining) + Taken(w.matched)| + 1 == |multiset(annots)|
  {
    if cds != [] {
      var init := cds[..|cds| - 1];
      var c := cds[|cds| - 1];
      assert forall x | x in init :: x in cds;
      assert c in cds;
      WalkConserves(init, annots, rows);
      var w := WalkOf(init, annots, rows);
      var w' := WalkOf(cds, annots, rows);
      assert w' == WalkStep(w, c, rows);
      if !w.failed {
        var m := Taking(c, w.remaining);
        var mm := if m.Some? then multiset{m.value} else multiset{};
        LeftAfterConserves(c, w.remaining);
        assert multiset(w'.remaining) + mm == multiset(w.remaining);
        MultisetMove(multiset(w'.remaining), multiset(w.remaining), Taken(w.matched), mm);
        if !w'.failed {
          assert w'.matched == w.matched + [m];
          assert w'.matched[..|w'.matched| - 1] == w.matched;
          assert Taken(w'.matched) == Taken(w.matched) + mm;
        } else {
          assert m.Some?;
          var lost := multiset(w'.remaining) + Taken(w'.matched);
          assert |lost + mm| == |lost| + 1;
        }
      } else {
        assert w' == w;
      }
    }
  }

  /** Each CDS in order took the first then remaining annotation sharing one
      of its names (none when there was none), got the row `rows` builds from
      it, and comments are noted exactly when a taken annotation has one. */
  lemma {:induction false} WalkRows(cds: seq<Cds>, annots: seq<GeneAnnotation>, rows: (Cds, Option<GeneAnnotation>) -> Option<GeneRow>)
    ensures var w := WalkOf(cds, annots, rows);
      forall i | 0 <= i < |w.rows| :: Some(w.rows[i]) == rows(cds[i], w.matched[i])
  {
    if cds != [] {
      var init := cds[..|cds| - 1];
      var c := cds[|cds| - 1];
      WalkRows(init, annots, rows);
      var w := WalkOf(init, annots, rows);
      var w' := WalkOf(cds, annots, rows);
      assert w' == WalkStep(w, c, rows);
      if !w'.failed {
        var m := Taking(c, w.remaining);
        assert w'.matched == w.matched + [m] && w'.rows == w.rows + [rows(c, m).value];
        forall i | 0 <= i < |w'.rows| ensures Some(w'.rows[i]) == rows(cds[i], w'.matched[i]) {
          if i < |w.rows| {
            assert w'.rows[i] == w.rows[i] && w'.matched[i] == w.matched[i] && cds[i] == init[i];
          } else {
            assert w'.matched[i] == m && cds[i] == c;
          }
        }
      }
    }
  }

  /** The annotation each CDS took shares one of its names. */
  lemma {:induction false} WalkNames(cds: seq<Cds>, annots: seq<GeneAnnotation>, rows: (Cds, Option<GeneAnnotation>) -> Option<GeneRow>)
    ensures var w := WalkOf(cds, annots, rows);
      forall i | 0 <= i < |w.matched| :: w.matched[i].Some? ==> NameHit(cds[i], w.matched[i].value)
  {
    if cds != [] {
      var init := cds[..|cds| - 1];
      var c := cds[|cds| - 1];
      WalkNames(init, annots, rows);
      var w := WalkOf(init, annots, rows);
      var w' := WalkOf(cds, annots, rows);
      assert w' == WalkStep(w, c, rows);
      if !w'.failed {
        var m := Taking(c, w.remaining);
        assert w'.matched == w.matched + [m];
        forall i | 0 <= i < |w'.matched| ensures w'.matched[i].Some? ==> NameHit(cds[i], w'.matched[i].value) {
          if i < |w.matched| {
            assert w'.matched[i] == w.matched[i] && cds[i] == init[i];
          } else {
            assert w'.matched[i] == m && cds[i] == c;
          }
        }
      }
    }
  }

  /** A completed walk notes comments exactly when some CDS took an annotation
      with a comment. */
  lemma {:induction false} WalkComments(cds: seq<Cds>, annots: seq<GeneAnnotation>, rows: (Cds, Option<GeneAnnotation>) -> Option<GeneRow>)
    requires !WalkOf(cds, annots, rows).failed
    ensures var w := WalkOf(cds, annots, rows);
      w.haveComments <==> exists i | 0 <= i < |w.matched| :: w.matched[i].Some? && Truthy(w.matched[i].value.comment)
  {
    if cds != [] {
      var init := cds[..|cds| - 1];
      var c := cds[|cds| - 1];
      var w := WalkOf(init, annots, rows);
      var w' := WalkOf(cds, annots, rows);
      assert w' == WalkStep(w, c, rows);
      WalkComments(init, annots, rows);
      assert forall i | 0 <= i < |w.matched| :: w'.matched[i] == w.matched[i];
      if w.haveComments {
        var i :| 0 <= i < |w.matched| && w.matched[i].Some? && Truthy(w.matched[i].value.comment);
        assert w'.matched[i] == w.matched[i];
      }
      if w'.haveComments && !w.haveComments {
        assert w'.matched[|w.matched|] == Taking(c, w.remaining);
      }
    }
  }

  /** Each CDS takes the first annotation, among those still remaining, that
      shares one of its names. */
  lemma {:induction false} WalkTakesFirst(cds: seq<Cds>, annots: seq<GeneAnnotation>, rows: (Cds, Option<GeneAnnotation>) -> Option<GeneRow>)
    requires cds != [] && !WalkOf(cds, annots, rows).failed
    ensures var w := WalkOf(cds[..|cds| - 1], annots, rows);
      WalkOf(cds, annots, rows).matched[|cds| - 1] == Taking(cds[|cds| - 1], w.remaining)
  {
    var w := WalkOf(cds[..|cds| - 1], annots, rows);
    assert WalkOf(cds, annots, rows) == WalkStep(w, cds[|cds| - 1], rows);
  }

  /** Once the walk fails it stays failed, with the same state. */
  lemma {:induction false} WalkStaysFailed(cds: seq<Cds>, n: nat, annots: seq<GeneAnnotation>, rows: (Cds, Option<GeneAnnotation>) -> Option<GeneRow>)
    requires n <= |cds|
    requires WalkOf(cds[..n], annots, rows).failed
    ensures WalkOf(cds, annots, rows) == WalkOf(cds[..n], annots, rows)
    decreases |cds| - n
  {
    if n < |cds| {
      assert cds[..n + 1][..n] == cds[..n];
      assert WalkOf(cds[..n + 1], annots, rows) == WalkStep(WalkOf(cds[..n], annots, rows), cds[n], rows);
      WalkStaysFailed(cds, n + 1, annots, rows);
    } else {
      assert cds[..n] == cds;
    }
  }

  // ---------------------------------------------------------------------------
  // The genes section

  /** The entry's gene annotations, which the table consumes in place. */
  class AnnotationList {
    var items: seq<GeneAnnotation>

    constructor (items: seq<GeneAnnotation>)
      ensures this.items == items
    {
      this.items := items;
    }

    /** `pop(i)` */
    method Pop(i: nat) returns (a: GeneAnnotation)
      requires i < |items|
      modifies this
      ensures a == old(items)[i] && items == RemoveAt(old(items), i)
    {
      a := items[i];
      items := items[..i] + items[i + 1..];
    }
  }

  datatype GenesSection = GenesSection(rows: seq<GeneRow>, haveComments: bool)

  datatype TableError = CitationWithoutLabel | AnnotationsLeft(remaining: seq<GeneAnnotation>)

  /** The outcome of the table: a failed link, annotations left over, or the rows. */
  function TableOf(w: Walk): (r: Result<GenesSection, TableError>)
    ensures r.Success? <==> !w.failed && w.remaining == []
  {
    if w.failed then Failure(CitationWithoutLabel)
    else if w.remaining != [] then Failure(AnnotationsLeft(w.remaining))
    else Success(GenesSection(w.rows, w.haveComments))
  }

  /** When the table is built, every CDS has its row, built from the
      annotation it took, which shares one of its names; every annotation of
      the entry was taken by exactly one CDS. */
  lemma TableTakesAll(cds: seq<Cds>, annots: seq<GeneAnnotation>, url: Citation -> string)
    requires forall c | c in cds :: c.location.parts != []
    requires TableOf(WalkOf(cds, annots, Rows(url))).Success?
    ensures var w := WalkOf(cds, annots, Rows(url));
      && |TableOf(w).value.rows| == |cds|
      && Taken(w.matched) == multiset(annots)
      && forall i | 0 <= i < |cds| ::
           && RowOf(cds[i], w.matched[i], url) == Some(w.rows[i])
           && (w.matched[i].Some? ==> NameHit(cds[i], w.matched[i].value))
  {
    forall c | c in cds ensures Rows(url)(c, None).Some? {
    }
    WalkConserves(cds, annots, Rows(url));
    WalkRows(cds, annots, Rows(url));
    WalkNames(cds, annots, Rows(url));
    var w := WalkOf(cds, annots, Rows(url));
    forall i | 0 <= i < |cds| ensures RowOf(cds[i], w.matched[i], url) == Some(w.rows[i]) {
      assert cds[i] in cds;
    }
  }

  /** One iteration of the genes loop, as a step of the walk: a CDS without
      a hit gets its base row; one with a hit pops it and gets the annotated
      row, or fails when the annotation's links fail. */
  lemma GenesLoopStep(w: Walk, c: Cds, url: Citation -> string, idx: int)
    requires !w.failed && c.location.parts != []
    requires idx == FirstHit(c, w.remaining)
    ensures idx < 0 ==>
      WalkStep(w, c, Rows(url)) == Walk(w.rows + [BaseRow(c)], w.matched + [None], w.haveComments, w.remaining, false)
    ensures idx >= 0 && AnnotatedRow(BaseRow(c), w.remaining[idx], url).None? ==> WalkStep(w, c, Rows(url)).failed
    ensures idx >= 0 && AnnotatedRow(BaseRow(c), w.remaining[idx], url).Some? ==>
      var a := w.remaining[idx];
      WalkStep(w, c, Rows(url)) ==
        Walk(w.rows + [AnnotatedRow(BaseRow(c), a, url).value], w.matched + [Some(a)], w.haveComments || Truthy(a.comment),
             RemoveAt(w.remaining, idx), false)
  {
    var m := Taking(c, w.remaining);
    var rest := LeftAfter(c, w.remaining);
    if idx >= 0 {
      var a := w.remaining[idx];
      assert m == Some(a) && rest == RemoveAt(w.remaining, idx);
      assert Rows(url)(c, m) == AnnotatedRow(BaseRow(c), a, url);
      match AnnotatedRow(BaseRow(c), a, url)
      case None =>
        assert WalkStep(w, c, Rows(url)) == Walk(w.rows, w.matched, w.haveComments, rest, true);
      case Some(row) =>
        assert WalkStep(w, c, Rows(url)) == Walk(w.rows + [row], w.matched + [m], w.haveComments || Truthy(a.comment), rest, false);
    } else {
      assert m == None && rest == w.remaining;
      assert Rows(url)(c, m) == Some(BaseRow(c));
      assert WalkStep(w, c, Rows(url)) == Walk(w.rows + [BaseRow(c)], w.matched + [None], w.haveComments, rest, false);
    }
  }

  /** The genes loop of `generate_html`: one row per CDS of the region, the
      annotations taken popped from the entry's list, and a failed assertion
      when annotations are left over. */
  method GenerateGenes(cdsChildren: seq<Cds>, annots: AnnotationList, url: Citation -> string)
    returns (r: Result<GenesSection, TableError>)
    requires forall c | c in cdsChildren :: c.location.parts != []
    modifies annots
    ensures r == TableOf(WalkOf(cdsChildren, old(annots.items), Rows(url)))
    ensures annots.items == WalkOf(cdsChildren, old(annots.items), Rows(url)).remaining
  {
    ghost var original := annots.items;
    var rows: seq<GeneRow> := [];
    ghost var matched: seq<Option<GeneAnnotation>> := [];
    var haveComments := false;
    for k := 0 to |cdsChildren|
      invariant WalkOf(cdsChildren[..k], original, Rows(url)) == Walk(rows, matched, haveComments, annots.items, false)
    {
      var c := cdsChildren[k];
      assert cdsChildren[..k + 1][..k] == cdsChildren[..k];
      assert c in cdsChildren;
      ghost var before := Walk(rows, matched, haveComments, annots.items, false);
      assert WalkOf(cdsChildren[..k + 1], original, Rows(url)) == WalkStep(before, c, Rows(url));
      var row := BaseRow(c);
      var idx := FindAnnotation(c, annots.items);
      GenesLoopStep(before, c, url, idx);
      if idx >= 0 {
        var a := annots.Pop(idx);
        var annotated := AnnotatedRow(row, a, url);
        if annotated.None? {
          WalkStaysFailed(cdsChildren, k + 1, original, Rows(url));
          return Failure(CitationWithoutLabel);
        }
        row := annotated.value;
        matched := matched + [Some(a)];
        haveComments := haveComments || Truthy(a.comment);
      } else {
        matched := matched + [None];
      }
      rows := rows + [row];
    }
    assert cdsChildren[..|cdsChildren|] == cdsChildren;
    if annots.items != [] {
      return Failure(AnnotationsLeft(annots.items));
    }
    r := Success(GenesSection(rows, haveComments));
  }
}
