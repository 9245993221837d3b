/** Literature references as they appear in MIBiG entries. */
module Citations {
  import opened Basics

  /** A reference: the database it lives in ("pubmed", "doi", ...), its
      identifier there, and the short label shown on the page. */
  datatype Citation = Citation(database: string, value: string, shortId: string)

  /** Citations sort by database, then identifier, then label. */
  predicate CitationBelow(a: Citation, b: Citation)
  {
    if a.database != b.database then Below(a.database, b.database)
    else if a.value != b.value then Below(a.value, b.value)
    else Below(a.shortId, b.shortId)
  }

  lemma CitationBelowIsTotalOrder()
    ensures TotalOrder(CitationBelow)
  {
    BelowIsTotalOrder();
    forall a, b | CitationBelow(a, b) && CitationBelow(b, a) ensures a == b {
      if a.database == b.database && a.value == b.value {
        BelowAntisymmetric(a.shortId, b.shortId);
      }
    }
    forall a, b, c | CitationBelow(a, b) && CitationBelow(b, c) ensures CitationBelow(a, c) {
      if a.database != b.database || b.database != c.database {
        if a.database == c.database {
          BelowAntisymmetric(a.database, b.database);
        }
      } else if a.value != b.value || b.value != c.value {
        if a.value == c.value {
          BelowAntisymmetric(a.value, b.value);
        }
      }
    }
  }
}
