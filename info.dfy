/** `info domains`: every domain with the number of its entities, most
    populated first, under a header that names how many domains there are
    and over a line giving the total number of entities. */
module Info {
  import opened Seqs
  import opened Entities
  import opened Grouping
  import Query

  function HasDomain(d: string): Entity -> bool {
    (e: Entity) => DomainOf(e.entityId) == d
  }

  /** The domain listing, the domain count of the header and the total line. */
  method DomainsCommand(states: seq<Entity>) returns (rows: seq<KeyCount>, domainCount: nat, total: nat)
    ensures rows == CountByKey(DomainKeys(states))
    ensures domainCount == |rows| && total == |states|
  {
    var counts: seq<KeyCount> := [];
    var i := 0;
    while i < |states|
      invariant 0 <= i <= |states|
      invariant counts == Tally(DomainKeys(states[..i]))
    {
      var keys := DomainKeys(states[..i + 1]);
      assert keys[..i] == DomainKeys(states[..i]);
      counts := Bump(counts, DomainOf(states[i].entityId));
      i := i + 1;
    }
    assert states[..i] == states;
    rows := SortByCountDesc(counts);
    domainCount := |rows|;
    total := |states|;
  }

  /** Each domain is listed once, with the number of entities in it, the
      listing runs from the most to the least populated domain, the counts
      add up to the total, and there is one row per domain present. */
  lemma DomainsFacts(states: seq<Entity>)
    ensures var rows := CountByKey(DomainKeys(states));
      && DistinctNames(rows)
      && SortedByCountDesc(rows)
      && Total(rows) == |states|
      && |rows| == |set e | e in states :: DomainOf(e.entityId)|
      && (forall i :: 0 <= i < |rows| ==> rows[i].count == CountWhere(states, HasDomain(rows[i].name)) > 0)
  {
    var keys := DomainKeys(states);
    var rows := CountByKey(keys);
    CountByKeyFacts(keys);
    SameKeysAsQuery(states);
    Query.DomainSet(states);
    forall i | 0 <= i < |rows| ensures rows[i].count == CountWhere(states, HasDomain(rows[i].name)) {
      DomainMultiplicity(states, rows[i].name);
    }
  }

  /** The multiplicity of a domain among the keys is the number of entities
      in that domain. */
  lemma {:induction false} DomainMultiplicity(states: seq<Entity>, d: string)
    ensures multiset(DomainKeys(states))[d] == CountWhere(states, HasDomain(d))
  {
    if |states| > 0 {
      DomainMultiplicity(states[1..], d);
      assert DomainKeys(states) == [DomainOf(states[0].entityId)] + DomainKeys(states[1..]);
    }
  }

  /** `info domains` lists exactly what `query count --by domain` lists. */
  lemma SameKeysAsQuery(states: seq<Entity>)
    ensures DomainKeys(states) == Query.CountKeysOf(states, "domain")
  {
  }
}
