/** The page-rendering helpers of mibig_html/common/html_renderer.py:
    short-form citation links, evidence lists, help tooltips with unique
    identifiers, and clickable gene labels. */
module Renderer {
  import opened Basics
  import opened Citations

  // ---------------------------------------------------------------------------
  // Citation links

  /** One citation in short form: ` <a href="URL">[LABEL]</a>`, where the URL
      comes from the citation database's own scheme (`to_url`). */
  function CitationChunk(c: Citation, url: Citation -> string): string
  {
    " <a href=\"" + url(c) + "\">[" + c.shortId + "]</a>"
  }

  function Chunks(cs: seq<Citation>, url: Citation -> string): (r: seq<string>)
    ensures |r| == |cs|
    ensures forall i | 0 <= i < |cs| :: r[i] == CitationChunk(cs[i], url)
  {
    seq(|cs|, i requires 0 <= i < |cs| => CitationChunk(cs[i], url))
  }

  /** `sorted(set(citations))`: each distinct citation once, ascending. */
  function DistinctSorted(citations: seq<Citation>): (r: seq<Citation>)
    ensures Elems(r) == Elems(citations)
    ensures StrictlySorted(r, CitationBelow)
  {
    CitationBelowIsTotalOrder();
    SortedSet(Elems(citations), CitationBelow)
  }

  function Superscript(s: string, useSuperscript: bool): string
  {
    if useSuperscript then "<sup>" + s + "</sup>" else s
  }

  /** The markup of the links: the chunks of the distinct citations in sorted
      order, joined by ", ", in a superscript when asked. */
  function ShortFormMarkup(citations: seq<Citation>, useSuperscript: bool, url: Citation -> string): string
  {
    Superscript(Join(Chunks(DistinctSorted(citations), url), ", "), useSuperscript)
  }

  /** `build_short_form_citation_links`; a citation without a short label fails
      the function's assertion (None). */
  function BuildShortFormCitationLinks(citations: seq<Citation>, useSuperscript: bool, url: Citation -> string): (r: Option<string>)
    ensures r.Some? <==> forall c | c in citations :: c.shortId != ""
    ensures r.Some? ==> r.value == ShortFormMarkup(citations, useSuperscript, url)
  {
    if exists c | c in citations :: c.shortId == "" then None
    else Some(ShortFormMarkup(citations, useSuperscript, url))
  }

  /** Repeating or reordering citations changes nothing: the links depend on
      the set of citations only. */
  lemma ShortFormLinksDependOnSetOnly(a: seq<Citation>, b: seq<Citation>, useSuperscript: bool, url: Citation -> string)
    requires Elems(a) == Elems(b)
    ensures BuildShortFormCitationLinks(a, useSuperscript, url) == BuildShortFormCitationLinks(b, useSuperscript, url)
  {
    CitationBelowIsTotalOrder();
    StrictlySortedUnique(DistinctSorted(a), DistinctSorted(b), CitationBelow);
  }

  /** The links are in a superscript exactly when asked: without one they are
      empty or start with a chunk. */
  lemma ShortFormSuperscript(citations: seq<Citation>, useSuperscript: bool, url: Citation -> string)
    ensures var s := ShortFormMarkup(citations, useSuperscript, url);
      if useSuperscript then StartsWith(s, "<sup>") && EndsWith(s, "</sup>")
      else s == "" || StartsWith(s, " <a href=\"")
  {
    var chunks := Chunks(DistinctSorted(citations), url);
    var j := Join(chunks, ", ");
    if useSuperscript {
      SuperscriptEnds(j);
    } else if chunks != [] {
      JoinStartsWithFirst(chunks, ", ");
      ChunkStart(DistinctSorted(citations)[0], url);
    }
  }

  predicate EndsWith(s: string, suffix: string)
  {
    |suffix| <= |s| && s[|s| - |suffix|..] == suffix
  }

  lemma SuperscriptEnds(j: string)
    ensures StartsWith(Superscript(j, true), "<sup>") && EndsWith(Superscript(j, true), "</sup>")
  {
    var s := "<sup>" + j + "</sup>";
    assert s == "<sup>" + (j + "</sup>");
    assert s == ("<sup>" + j) + "</sup>";
  }

  lemma ChunkStart(c: Citation, url: Citation -> string)
    ensures StartsWith(CitationChunk(c, url), " <a href=\"")
  {
    assert CitationChunk(c, url) == " <a href=\"" + (url(c) + "\">[" + c.shortId + "]</a>");
  }

  /** A joined list starts with its first part. */
  lemma {:induction false} JoinStartsWithFirst(parts: seq<string>, sep: string)
    requires parts != []
    ensures StartsWith(Join(parts, sep), parts[0])
  {
    if |parts| > 1 {
      assert Join(parts, sep) == parts[0] + (sep + Join(parts[1..], sep));
    }
  }

  // ---------------------------------------------------------------------------
  // Evidence lists

  /** One piece of evidence: the method and the citations supporting it. */
  datatype Evidence = Evidence(methodName: string, references: seq<Citation>)

  /** The short-form links as a function of the citations alone. */
  function ShortForm(useSuperscript: bool, url: Citation -> string): seq<Citation> -> Option<string>
  {
    cs => BuildShortFormCitationLinks(cs, useSuperscript, url)
  }

  /** The section of one piece of evidence: its method followed by what
      `links` makes of its references. */
  function EvidenceSection(e: Evidence, links: seq<Citation> -> Option<string>): (r: Option<string>)
    ensures r.Some? <==> links(e.references).Some?
    ensures r.Some? ==> StartsWith(r.value, e.methodName) && r.value[|e.methodName|..] == links(e.references).value
  {
    match links(e.references)
    case None => None
    case Some(l) => Some(e.methodName + l)
  }

  /** The sections of the evidence items, in order; None when one fails. */
  function EvidenceSections(evidence: seq<Evidence>, links: seq<Citation> -> Option<string>): (r: Option<seq<string>>)
    ensures r.Some? ==> |r.value| == |evidence|
    ensures r.Some? ==> forall i | 0 <= i < |evidence| :: Some(r.value[i]) == EvidenceSection(evidence[i], links)
  {
    if evidence == [] then Some([])
    else
      var init := evidence[..|evidence| - 1];
      var sections := EvidenceSections(init, links);
      var last := EvidenceSection(evidence[|evidence| - 1], links);
      assert forall i | 0 <= i < |init| :: init[i] == evidence[i];
      if sections.None? || last.None? then None else Some(sections.value + [last.value])
  }

  /** `build_evidence_list`: one section per evidence item, in input order,
      joined by ", ". */
  method BuildEvidenceList(evidence: seq<Evidence>, useSuperscript: bool, url: Citation -> string) returns (r: Option<string>)
    ensures r.Some? <==> EvidenceSections(evidence, ShortForm(useSuperscript, url)).Some?
    ensures r.Some? ==> r.value == Join(EvidenceSections(evidence, ShortForm(useSuperscript, url)).value, ", ")
  {
    var links := ShortForm(useSuperscript, url);
    var sections: seq<string> := [];
    for i := 0 to |evidence|
      invariant EvidenceSections(evidence[..i], links) == Some(sections)
    {
      assert evidence[..i + 1][..i] == evidence[..i];
      var section := EvidenceSection(evidence[i], links);
      if section.None? {
        assert EvidenceSections(evidence[..i + 1], links).None?;
        EvidenceSectionsPrefix(evidence, i + 1, links);
        return None;
      }
      sections := sections + [section.value];
    }
    assert evidence[..|evidence|] == evidence;
    r := Some(Join(sections, ", "));
  }

  /** The sections exist exactly when every evidence item has its links. */
  lemma {:induction false} EvidenceSectionsDefined(evidence: seq<Evidence>, links: seq<Citation> -> Option<string>)
    ensures EvidenceSections(evidence, links).Some? <==> forall i | 0 <= i < |evidence| :: links(evidence[i].references).Some?
  {
    if evidence != [] {
      var init := evidence[..|evidence| - 1];
      assert forall i | 0 <= i < |init| :: init[i] == evidence[i];
      EvidenceSectionsDefined(init, links);
    }
  }

  /** A failing prefix makes the whole list fail. */
  lemma {:induction false} EvidenceSectionsPrefix(evidence: seq<Evidence>, n: nat, links: seq<Citation> -> Option<string>)
    requires n <= |evidence|
    requires EvidenceSections(evidence[..n], links).None?
    ensures EvidenceSections(evidence, links).None?
  {
    EvidenceSectionsDefined(evidence[..n], links);
    EvidenceSectionsDefined(evidence, links);
    var i :| 0 <= i < n && links(evidence[..n][i].references).None?;
    assert evidence[..n][i] == evidence[i];
  }

  /** The evidence list fails exactly when some item cites a reference without
      a short label. */
  lemma EvidenceListFails(evidence: seq<Evidence>, useSuperscript: bool, url: Citation -> string)
    ensures EvidenceSections(evidence, ShortForm(useSuperscript, url)).None? <==>
      exists i, c | 0 <= i < |evidence| && c in evidence[i].references :: c.shortId == ""
  {
    EvidenceSectionsDefined(evidence, ShortForm(useSuperscript, url));
  }

  // ---------------------------------------------------------------------------
  // Help tooltips

  /** The decimal digits of `n`, as `%d` writes them. */
  function Decimal(n: nat): (s: string)
    ensures |s| > 0
    ensures forall i | 0 <= i < |s| :: '0' <= s[i] <= '9'
    ensures n >= 10 ==> |s| >= 2
  {
    if n < 10 then [(n as char + '0')]
    else Decimal(n / 10) + [((n % 10) as char + '0')]
  }

  lemma {:induction false} DecimalInjective(n: nat, m: nat)
    requires Decimal(n) == Decimal(m)
    ensures n == m
  {
    if n >= 10 && m >= 10 {
      var a, b := Decimal(n), Decimal(m);
      assert a[..|a| - 1] == Decimal(n / 10) && b[..|b| - 1] == Decimal(m / 10);
      DecimalInjective(n / 10, m / 10);
    }
  }

  /** The identifier of the `count`-th tooltip: "<name>-help-<count>". */
  function TooltipId(name: string, count: nat): string
  {
    name + "-help-" + Decimal(count)
  }

  /** In a tooltip identifier the counter's digits follow a dash. */
  lemma CounterFollowsDash(name: string, n: nat)
    ensures var s := TooltipId(name, n);
      |s| > |Decimal(n)| && s[|s| - |Decimal(n)| - 1] == '-'
      && s[|s| - |Decimal(n)|..] == Decimal(n)
  {
    var s := TooltipId(name, n);
    assert s == (name + "-help") + ['-'] + Decimal(n);
  }

  /** A tooltip identifier determines its counter, whatever the names. */
  lemma TooltipIdDeterminesCounter(name1: string, n: nat, name2: string, m: nat)
    requires TooltipId(name1, n) == TooltipId(name2, m)
    ensures n == m
  {
    var s := TooltipId(name1, n);
    var a, b := Decimal(n), Decimal(m);
    CounterFollowsDash(name1, n);
    CounterFollowsDash(name2, m);
    if |a| < |b| {
      assert false;
    } else if |b| < |a| {
      assert false;
    } else {
      DecimalInjective(n, m);
    }
  }

  function ContainerOpen(inline: bool): string
  {
    if inline then "<div class=\"help-container-inline\">" else "<div class=\"help-container\">"
  }

  /** The tooltip markup: a help icon pointing at a tooltip span, both under
      the identifier, in a container whose class ends in "-inline" when inline. */
  function TooltipMarkup(id: string, text: string, inline: bool): string
  {
    ContainerOpen(inline)
    + " <div class=\"help-icon\" data-id=\"" + id + "\"></div>"
    + " <span class=\"help-tooltip\" id=\"" + id + "\">" + text + "</span>"
    + "</div>"
  }

  /** The container is inline exactly when asked. */
  lemma TooltipInline(id: string, text: string, inline: bool)
    ensures StartsWith(TooltipMarkup(id, text, inline), "<div class=\"help-container-inline\"") <==> inline
  {
    var m := TooltipMarkup(id, text, inline);
    var open := ContainerOpen(inline);
    assert m[..|open|] == open;
    if !inline {
      assert m[26] == open[26] == '"';
    }
  }

  /** The module-wide tooltip counter. */
  class TooltipCounter {
    var count: nat

    constructor ()
      ensures count == 0
    {
      count := 0;
    }

    /** `help_tooltip`: the counter goes up by one and names the tooltip. */
    method HelpTooltip(text: string, name: string, inline: bool) returns (markup: string, id: string)
      modifies this
      ensures count == old(count) + 1
      ensures id == TooltipId(name, count)
      ensures markup == TooltipMarkup(id, text, inline)
    {
      count := count + 1;
      id := TooltipId(name, count);
      markup := TooltipMarkup(id, text, inline);
    }
  }

  /** Two calls never share an identifier: the later one has a larger counter. */
  method TwoTooltips(t: TooltipCounter, text1: string, name1: string, text2: string, name2: string)
    returns (id1: string, id2: string)
    modifies t
    ensures id1 != id2
    ensures t.count == old(t.count) + 2
  {
    var m1, m2;
    m1, id1 := t.HelpTooltip(text1, name1, false);
    m2, id2 := t.HelpTooltip(text2, name2, false);
    if id1 == id2 {
      TooltipIdDeterminesCounter(name1, t.count - 1, name2, t.count);
    }
  }

  // ---------------------------------------------------------------------------
  // Clickable gene labels

  /** What the record knows about its genes: the unique name of the CDS behind
      any identifier, and the gene name of each CDS by unique name. */
  datatype GeneIndex = GeneIndex(realNames: map<string, string>, geneNames: map<string, Option<string>>)

  datatype RenderError = UnknownGene(name: string)

  /** A label: the CDS it highlights and the name it displays. */
  datatype GeneLabel = GeneLabel(realName: string, shown: string)
  {
    function Markup(): string
    {
      "<span class=\"jsdomain-orflabel\" data-locus=\"" + realName + "\" style=\"font-size:100%\">" + shown + "</span>"
    }
  }

  /** `clickable_gene`: the unique name is the one given when truthy, else the
      record's for `name`; the displayed name is `name` when `forceCurrent`,
      else the CDS's gene name, falling back to the unique name. */
  function ClickableGene(name: string, index: GeneIndex, forceCurrent: bool, realName: Option<string>): (r: Result<GeneLabel, RenderError>)
    ensures Truthy(realName) ==> r.Success? || !forceCurrent
    ensures r.Success? && Truthy(realName) ==> r.value.realName == realName.value
    ensures r.Success? && !Truthy(realName) ==> name in index.realNames && r.value.realName == index.realNames[name]
    ensures r.Success? && forceCurrent ==> r.value.shown == name
    ensures r.Success? && !forceCurrent ==>
      && r.value.realName in index.geneNames
      && r.value.shown == (if Truthy(index.geneNames[r.value.realName]) then index.geneNames[r.value.realName].value else r.value.realName)
    ensures r.Failure? <==>
      || (!Truthy(realName) && name !in index.realNames)
      || (!forceCurrent && (if Truthy(realName) then realName.value else index.realNames[name]) !in index.geneNames)
  {
    if !Truthy(realName) && name !in index.realNames then Failure(UnknownGene(name))
    else
      var unique := if Truthy(realName) then realName.value else index.realNames[name];
      if forceCurrent then Success(GeneLabel(unique, name))
      else if unique !in index.geneNames then Failure(UnknownGene(unique))
      else
        var gene := index.geneNames[unique];
        Success(GeneLabel(unique, if Truthy(gene) then gene.value else unique))
  }

  /** The labels of a list of names, in order; the first unknown name fails. */
  function GeneLabels(names: seq<string>, index: GeneIndex, forceCurrent: bool): (r: Result<seq<string>, RenderError>)
    ensures r.Success? <==> forall i | 0 <= i < |names| :: ClickableGene(names[i], index, forceCurrent, None).Success?
    ensures r.Success? ==> |r.value| == |names|
    ensures r.Success? ==> forall i | 0 <= i < |names| ::
      r.value[i] == ClickableGene(names[i], index, forceCurrent, None).value.Markup()
  {
    if names == [] then Success([])
    else
      match GeneLabels(names[..|names| - 1], index, forceCurrent)
      case Failure(e) => Failure(e)
      case Success(labels) =>
        match ClickableGene(names[|names| - 1], index, forceCurrent, None)
        case Failure(e) => Failure(e)
        case Success(g) => Success(labels + [g.Markup()])
  }

  /** `clickable_gene_list`: one label per name, in order, joined by the separator. */
  function ClickableGeneList(names: seq<string>, index: GeneIndex, forceCurrent: bool, separator: string): (r: Result<string, RenderError>)
    ensures r.Success? <==> GeneLabels(names, index, forceCurrent).Success?
    ensures r.Success? ==> r.value == Join(GeneLabels(names, index, forceCurrent).value, separator)
  {
    match GeneLabels(names, index, forceCurrent)
    case Failure(e) => Failure(e)
    case Success(labels) => Success(Join(labels, separator))
  }
}
