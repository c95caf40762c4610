/** What a cycle does to a name and what it keeps, from the reference definition alone. */
module CycleLaws {
  import opened Text
  import opened Endpoints
  import opened Dns
  import opened Provider
  import opened Plan
  import opened Cycle

  lemma InNext(g: Goal, z: Zone, k: RRKey)
    ensures k in NextZone(g, z) <==> After(g, z, k).Some?
    ensures k in NextZone(g, z) ==> NextZone(g, z)[k] == After(g, z, k).value
  {
    NextZoneLookup(g, z, k);
  }

  /** A record that arrives at an unowned name: desired, of a slot that was empty, and accepted. */
  ghost predicate Arrives(g: Goal, z: Zone, k: RRKey) {
    IsWanted(g, k) && !Has(z, Slot(k)) && Free(z, k)
  }

  lemma RecordAfter(g: Goal, z: Zone, k: RRKey)
    requires IsRecord(k)
    ensures Owned(g.owner, z, NameOf(k)) ==> (k in NextZone(g, z) <==> IsWanted(g, k))
    ensures !Owned(g.owner, z, NameOf(k)) ==> (k in NextZone(g, z) <==> k in z || Arrives(g, z, k))
    ensures !Owned(g.owner, z, NameOf(k)) && k in z ==> NextZone(g, z)[k] == z[k]
    ensures k in NextZone(g, z) && k !in z ==> NextZone(g, z)[k] == WrittenTTL(g.cfg, g.want[Slot(k)].ttl)
  {
    InNext(g, z, k);
    if k in z { assert Has(z, Slot(k)); }
  }

  ghost predicate OurMarker(g: Goal, k: RRKey) {
    IsMarker(k) && k == MarkerKey(g.owner, NameOf(k)[|OWNER_PREFIX|..])
  }

  lemma OtherAfter(g: Goal, z: Zone, k: RRKey)
    requires !IsRecord(k)
    ensures !OurMarker(g, k) ==> Lookup(NextZone(g, z), k) == Lookup(z, k)
    ensures OurMarker(g, k) ==>
              var n := NameOf(k)[|OWNER_PREFIX|..];
              k in NextZone(g, z) <==> CreatesAt(g, z, n) || (k in z && !DropsAt(g, z, n))
  {
    NextZoneLookup(g, z, k);
  }

  /** A created marker sits at the marker name of a desired name. */
  lemma NewMarker(g: Goal, z: Zone, k: RRKey) returns (s: string)
    requires GoodGoal(g) && !IsRecord(k) && k in NextZone(g, z) && k !in z
    ensures s in g.want && k == MarkerKey(g.owner, g.want[s].dnsName) &&
            NameOf(k) == OwnershipName(g.want[s].dnsName) && Legal(k.name)
  {
    OtherAfter(g, z, k);
    var n := NameOf(k)[|OWNER_PREFIX|..];
    s :| Missing(g, z, s) && g.want[s].dnsName == n;
    WantFacts(g, s);
    MarkerKeyFacts(g.owner, n);
  }

  // ----- what every cycle keeps -----

  lemma NextNamesLegal(g: Goal, z: Zone, k: RRKey)
    requires GoodGoal(g) && GoodZone(g, z) && k in NextZone(g, z)
    ensures Legal(k.name) && LegalData(k.data)
  {
    if k !in z {
      if IsRecord(k) {
        RecordAfter(g, z, k);
        WantFacts(g, Slot(k));
      } else {
        var s := NewMarker(g, z, k);
      }
    }
  }

  lemma WantedTogether(g: Goal, k: RRKey, k': RRKey)
    requires GoodGoal(g) && IsWanted(g, k) && IsWanted(g, k') && k.name == k'.name && k.data.CNAME?
    ensures k == k'
  {
    WantAtSlot(g, k);
    WantAtSlot(g, k');
    TypeTellsCname(k.data);
  }

  /** Nothing invisible is ever beside a desired CNAME. */
  lemma VisibleNext(g: Goal, z: Zone, k: RRKey, k': RRKey)
    requires GoodGoal(g) && GoodZone(g, z) && IsWanted(g, k) && k.data.CNAME? && k' in NextZone(g, z) &&
             k'.name == k.name
    ensures IsRecord(k')
  {
    WantAtSlot(g, k);
    WantFacts(g, Slot(k));
    if !IsRecord(k') && k' !in z {
      var s := NewMarker(g, z, k');
    }
  }

  /** A record after a cycle is desired, or was there at an unowned name; one that is new there found the name free. */
  lemma NextRecordOrigin(g: Goal, z: Zone, k: RRKey)
    requires IsRecord(k) && k in NextZone(g, z)
    ensures IsWanted(g, k) || (k in z && !Owned(g.owner, z, NameOf(k)))
    ensures !Owned(g.owner, z, NameOf(k)) && k !in z ==> Free(z, k)
  {
    RecordAfter(g, z, k);
  }

  lemma NextCnameAloneAmongRecords(g: Goal, z: Zone, k: RRKey, k': RRKey)
    requires GoodGoal(g) && GoodZone(g, z) && k in NextZone(g, z) && k' in NextZone(g, z)
    requires k.name == k'.name && k.data.CNAME? && IsRecord(k')
    ensures k == k'
  {
    NextRecordOrigin(g, z, k);
    NextRecordOrigin(g, z, k');
    if IsWanted(g, k) && IsWanted(g, k') { WantedTogether(g, k, k'); }
  }

  lemma NextCnameAlone(g: Goal, z: Zone, k: RRKey, k': RRKey)
    requires GoodGoal(g) && GoodZone(g, z) && k in NextZone(g, z) && k' in NextZone(g, z) && k.name == k'.name &&
             k.data.CNAME?
    ensures k == k'
  {
    if IsRecord(k') {
      NextCnameAloneAmongRecords(g, z, k, k');
    } else {
      RecordAfter(g, z, k);
      if IsWanted(g, k) { VisibleNext(g, z, k, k'); }
      if k' !in z {
        var s := NewMarker(g, z, k');
      }
    }
  }

  /** The exact ownership law: owned after a cycle iff something was created there, or owned before and nothing
      was deleted there. */
  lemma OwnershipLaw(g: Goal, z: Zone, n: string)
    requires GoodGoal(g) && GoodZone(g, z)
    ensures Owned(g.owner, NextZone(g, z), n) <==> CreatesAt(g, z, n) || (Owned(g.owner, z, n) && !DropsAt(g, z, n))
  {
    var m := MarkerKey(g.owner, n);
    if Owned(g.owner, NextZone(g, z), n) {
      var k :| k in NextZone(g, z) && Claims(g.owner, k, n);
      OtherAfter(g, z, k);
      assert NameOf(k)[|OWNER_PREFIX|..] == n;
      if !OurMarker(g, k) { NextNamesLegal(g, z, k); OwnedIsMarker(g, z, n); FqdnTrim(k.name); }
    }
    if CreatesAt(g, z, n) {
      var s :| Missing(g, z, s) && g.want[s].dnsName == n;
      WantFacts(g, s);
      MarkerKeyFacts(g.owner, n);
      OtherAfter(g, z, m);
    } else if Owned(g.owner, z, n) && !DropsAt(g, z, n) {
      OwnedIsMarker(g, z, n);
      MarkerKeyFacts(g.owner, n);
      OtherAfter(g, z, m);
    }
  }

  lemma NextManaged(g: Goal, z: Zone, n: string)
    requires GoodGoal(g) && GoodZone(g, z) && Managed(g, NextZone(g, z), n)
    ensures Managed(g, z, n)
  {
    OwnershipLaw(g, z, n);
  }

  lemma NextSingletons(g: Goal, z: Zone)
    requires GoodGoal(g) && GoodZone(g, z)
    ensures Singletons(g, NextZone(g, z))
  {
    var z' := NextZone(g, z);
    forall k, k' | k in z' && k' in z' && IsRecord(k) && IsRecord(k') && Slot(k) == Slot(k') &&
        Managed(g, z', NameOf(k))
      ensures k == k'
    {
      NextManaged(g, z, NameOf(k));
      SlotInjective(k, k');
      RecordAfter(g, z, k);
      RecordAfter(g, z, k');
    }
    forall k | k in z' && IsRecord(k) && Managed(g, z', NameOf(k)) ensures SingleString(k.data) {
      NextManaged(g, z, NameOf(k));
      RecordAfter(g, z, k);
      if IsWanted(g, k) { WantFacts(g, Slot(k)); }
    }
  }

  lemma NextMarkersSingle(g: Goal, z: Zone)
    requires GoodGoal(g) && GoodZone(g, z)
    ensures MarkersSingle(g, NextZone(g, z))
  {
    forall k, n | k in NextZone(g, z) && Claims(g.owner, k, n) ensures k.data.strings == [OwnershipValue(g.owner)] {
      OtherAfter(g, z, k);
    }
  }

  lemma NextMarkerNamesFree(g: Goal, z: Zone)
    requires GoodGoal(g) && GoodZone(g, z)
    ensures MarkerNamesFree(g, NextZone(g, z))
  {
    forall s, k: RRKey | s in g.want && k.name == Fqdn(OwnershipName(g.want[s].dnsName)) && k.data.CNAME?
      ensures k !in NextZone(g, z)
    {
      RecordAfter(g, z, k);
      assert k !in z;
      if IsWanted(g, k) {
        WantAtSlot(g, k);
        WantFacts(g, s);
        MarkerKeyFacts(g.owner, g.want[s].dnsName);
        assert NameOf(k) == OwnershipName(g.want[s].dnsName);
      }
    }
  }

  /** The zone conditions are an invariant: any number of cycles keeps them. */
  lemma NextGood(g: Goal, z: Zone)
    requires GoodGoal(g) && GoodZone(g, z)
    ensures GoodZone(g, NextZone(g, z))
  {
    var z' := NextZone(g, z);
    forall k | k in z' ensures Legal(k.name) && LegalData(k.data) { NextNamesLegal(g, z, k); }
    forall k, k' | k in z' && k' in z' && k.name == k'.name && k.data.CNAME?
      ensures k == k'
    {
      NextCnameAlone(g, z, k, k');
    }
    NextSingletons(g, z);
    NextMarkersSingle(g, z);
    NextMarkerNamesFree(g, z);
    forall s, k | s in g.want && g.want[s].recordType == TYPE_CNAME && k in z' && k.name == Fqdn(g.want[s].dnsName)
      ensures IsRecord(k)
    {
      WantFacts(g, s);
      VisibleNext(g, z, KeyOf(g.cfg, g.want[s]), k);
    }
  }

  // ----- the meaning of one cycle, name by name -----

  /** The record reads as the endpoint desired in its slot. */
  ghost predicate ReadsAsWanted(g: Goal, z: Zone, k: RRKey) {
    k in z && Slot(k) in g.want && Read(g.cfg, k, z[k]) == g.want[Slot(k)]
  }

  lemma WantedReads(g: Goal, z: Zone, k: RRKey)
    requires GoodGoal(g) && GoodZone(g, z) && IsRecord(k) && IsWanted(g, k) && Owned(g.owner, z, NameOf(k))
    ensures ReadsAsWanted(g, NextZone(g, z), k)
  {
    InNext(g, z, k);
    RecordAfter(g, z, k);
    WantFacts(g, Slot(k));
    var ep := g.want[Slot(k)];
    if k in z && SameRecord(Read(g.cfg, k, z[k]), ep) {
      assert Read(g.cfg, k, z[k]) == ep;
    }
  }

  /** At an owned name the supported records become exactly the desired ones, a switch between CNAME and other
      types included: the slots of the name are those desired, and each reads as desired. */
  lemma OwnedNameBecomesDesired(g: Goal, z: Zone, n: string)
    requires GoodGoal(g) && GoodZone(g, z) && Owned(g.owner, z, n)
    ensures var z' := NextZone(g, z);
            && (forall k :: k in z' && IsRecord(k) && NameOf(k) == n ==> ReadsAsWanted(g, z', k))
            && (forall s :: s in g.want && g.want[s].dnsName == n ==> Has(z', s))
  {
    var z' := NextZone(g, z);
    forall k | k in z' && IsRecord(k) && NameOf(k) == n ensures ReadsAsWanted(g, z', k) {
      RecordAfter(g, z, k);
      WantedReads(g, z, k);
    }
    forall s | s in g.want && g.want[s].dnsName == n ensures Has(z', s) {
      WantFacts(g, s);
      RecordAfter(g, z, KeyOf(g.cfg, g.want[s]));
    }
  }

  /** At an unowned name every record stays as it is, and what arrives is desired, in a slot that was empty. */
  lemma UnownedNameIsKept(g: Goal, z: Zone, n: string)
    requires GoodGoal(g) && GoodZone(g, z) && !Owned(g.owner, z, n)
    ensures var z' := NextZone(g, z);
            && (forall k :: k in z && IsRecord(k) && NameOf(k) == n ==> Lookup(z', k) == Lookup(z, k))
            && (forall k :: k in z' && k !in z && IsRecord(k) && NameOf(k) == n ==>
                  Missing(g, z, Slot(k)) && Free(z, k) && ReadsAsWanted(g, z', k))
            && (forall s :: Missing(g, z, s) && g.want[s].dnsName == n && Free(z, KeyOf(g.cfg, g.want[s])) ==>
                Has(z', s))
  {
    var z' := NextZone(g, z);
    forall k | k in z && IsRecord(k) && NameOf(k) == n ensures Lookup(z', k) == Lookup(z, k) { RecordAfter(g, z, k); }
    forall k | k in z' && k !in z && IsRecord(k) && NameOf(k) == n
      ensures Missing(g, z, Slot(k)) && Free(z, k) && ReadsAsWanted(g, z', k)
    {
      RecordAfter(g, z, k);
      WantFacts(g, Slot(k));
    }
    forall s | Missing(g, z, s) && g.want[s].dnsName == n && Free(z, KeyOf(g.cfg, g.want[s])) ensures Has(z', s) {
      WantFacts(g, s);
      RecordAfter(g, z, KeyOf(g.cfg, g.want[s]));
    }
  }
}
