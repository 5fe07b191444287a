/**
 * The local sequential identifier source: an in-memory cache of the highest
 * sequence issued per namespace and partition, consulted together with the
 * store's high-water mark every time a batch of identifiers is reserved.
 */
module IdentifierSource {
  import opened Results
  import opened Numerals
  import opened Partitions
  import opened SctidShape
  import opened SequenceFinder

  /** The cache key, namespaceId + "_" + partitionId. */
  function CacheKey(namespaceId: nat, partitionId: string): (r: string)
    ensures namespaceId == 0 ==> r == "0_" + partitionId
  {
    Decimal(namespaceId) + "_" + partitionId
  }

  /** The namespace digits never contain '_', so a key names one namespace and partition. */
  lemma CacheKeyInjective(ns1: nat, p1: string, ns2: nat, p2: string)
    requires CacheKey(ns1, p1) == CacheKey(ns2, p2)
    ensures ns1 == ns2 && p1 == p2
  {
    var key := CacheKey(ns1, p1);
    var d1, d2 := Decimal(ns1), Decimal(ns2);
    assert key == d1 + "_" + p1 == d2 + "_" + p2;
    assert key[|d1|] == '_' && key[|d2|] == '_';
    assert |d1| == |d2| by {
      assert forall k :: 0 <= k < |d1| ==> key[k] == d1[k];
      assert forall k :: 0 <= k < |d2| ==> key[k] == d2[k];
    }
    assert d1 == key[..|d1|] == d2;
    assert p1 == key[|d1| + 1..] == p2;
    DecimalInjective(ns1, ns2);
  }

  lemma OtherKeysDiffer(namespaceId: nat, partitionId: string)
    ensures forall ns: nat, p: string :: ns != namespaceId || p != partitionId ==>
      CacheKey(ns, p) != CacheKey(namespaceId, partitionId)
  {
    forall ns: nat, p: string | ns != namespaceId || p != partitionId
      ensures CacheKey(ns, p) != CacheKey(namespaceId, partitionId)
    {
      if CacheKey(ns, p) == CacheKey(namespaceId, partitionId) { CacheKeyInjective(ns, p, namespaceId, partitionId); }
    }
  }

  /** How many times the reservation loop runs: none for a quantity of zero or less. */
  function Count(quantity: int): nat
  {
    if quantity > 0 then quantity else 0
  }

  /** The sequence a reservation starts after: the store's, unless the cache is strictly ahead. */
  function StartSequence(found: int, cached: int): (r: int)
    ensures r >= found && r >= cached
    ensures r == found || r == cached
    ensures r == cached ==> cached >= found
  {
    if cached > found then cached else found
  }

  /** The identifiers a reservation returns, in order. */
  function Identifiers(start: nat, namespaceId: nat, partitionId: string, quantity: int, check: string -> char): (r: seq<nat>)
    requires AllDigits(partitionId) && DigitValued(check)
    ensures |r| == Count(quantity)
  {
    seq<nat>(Count(quantity), i requires 0 <= i < Count(quantity) => SctidValue(start + i + 1, namespaceId, partitionId, check))
  }

  /** Within one reservation the identifiers strictly increase, so they are pairwise distinct. */
  lemma IdentifiersIncreasing(start: nat, namespaceId: nat, partitionId: string, quantity: int, check: string -> char)
    requires AllDigits(partitionId) && DigitValued(check)
    ensures var r := Identifiers(start, namespaceId, partitionId, quantity, check);
      forall i, j :: 0 <= i < j < |r| ==> r[i] < r[j]
  {
    var r := Identifiers(start, namespaceId, partitionId, quantity, check);
    forall i, j | 0 <= i < j < |r| ensures r[i] < r[j] {
      SctidValueIncreasing(start + i + 1, start + j + 1, namespaceId, partitionId, check);
    }
  }

  /**
   * The i-th identifier is the text sequence, namespace digits, partition and
   * check digit for sequence start + i + 1, and its check digit is the
   * checksum of everything before it.
   */
  lemma IdentifiersHaveShape(start: nat, namespaceId: nat, partitionId: string, quantity: int, check: string -> char, i: nat)
    requires AllDigits(partitionId) && DigitValued(check)
    requires i < Count(quantity)
    ensures var text := Decimal(Identifiers(start, namespaceId, partitionId, quantity, check)[i]);
      && text == Decimal(start + i + 1) + NamespaceDigits(namespaceId) + partitionId + [text[|text| - 1]]
      && text[|text| - 1] == check(text[..|text| - 1])
  {
    SctidRendersBack(start + i + 1, namespaceId, partitionId, check);
    var n := Numeral(start + i + 1, namespaceId, partitionId);
    assert (n + [check(n)])[..|n|] == n;
  }

  /**
   * Two reservations in a row for one key: the second starts no earlier than
   * where the first stopped, whatever the store reports the second time, so
   * every identifier of the second is above every identifier of the first;
   * with the store unchanged it starts exactly there.
   */
  lemma SuccessiveReservationsDisjoint(found1: nat, found2: nat, cached: nat, q1: int, q2: int,
                                       namespaceId: nat, partitionId: string, check: string -> char)
    requires AllDigits(partitionId) && DigitValued(check)
    ensures var s1 := StartSequence(found1, cached);
      var s2 := StartSequence(found2, s1 + Count(q1));
      && s2 >= s1 + Count(q1)
      && (found2 <= found1 ==> s2 == s1 + Count(q1))
      && forall i, j :: 0 <= i < Count(q1) && 0 <= j < Count(q2) ==>
           Identifiers(s1, namespaceId, partitionId, q1, check)[i] < Identifiers(s2, namespaceId, partitionId, q2, check)[j]
  {
    var s1 := StartSequence(found1, cached);
    var s2 := StartSequence(found2, s1 + Count(q1));
    assert s2 >= s1 + Count(q1);
    var first := Identifiers(s1, namespaceId, partitionId, q1, check);
    var second := Identifiers(s2, namespaceId, partitionId, q2, check);
    forall i, j | 0 <= i < Count(q1) && 0 <= j < Count(q2)
      ensures first[i] < second[j]
    {
      assert s1 + i + 1 < s2 + j + 1;
      SctidValueIncreasing(s1 + i + 1, s2 + j + 1, namespaceId, partitionId, check);
    }
  }

  class LocalSequentialIdentifierSource {
    /** namespaceAndPartitionHighestSequenceCache: key to the highest sequence issued by this instance. */
    var cache: map<string, int>
    /** The check-digit calculator. */
    const check: string -> char

    ghost predicate Valid()
      reads this
    {
      DigitValued(check) && forall key :: key in cache ==> cache[key] >= 0
    }

    constructor (check: string -> char)
      requires DigitValued(check)
      ensures Valid() && this.check == check && cache == map[]
    {
      this.check := check;
      cache := map[];
    }

    /** cache.getOrDefault(namespaceId + "_" + partitionId, 0) */
    function CachedSequence(namespaceId: nat, partitionId: string): (r: int)
      reads this
      requires Valid()
      ensures r >= 0
    {
      var key := CacheKey(namespaceId, partitionId);
      if key in cache then cache[key] else 0
    }

    /**
     * reserveIds: fails before touching the cache when the finder fails;
     * otherwise returns the identifiers after max(store, cache) and records
     * the last sequence used (the start itself for a quantity of zero or less).
     */
    method ReserveIds(store: Store, namespaceId: nat, partitionId: string, quantity: int) returns (r: Result<seq<nat>>)
      requires Valid()
      modifies this
      ensures Valid()
      ensures FindHighestSequence(store, namespaceId, partitionId).Err? ==>
        r == Err(FindHighestSequence(store, namespaceId, partitionId).failure) && cache == old(cache)
      ensures FindHighestSequence(store, namespaceId, partitionId).Ok? ==>
        var start := StartSequence(FindHighestSequence(store, namespaceId, partitionId).value,
                                   old(CachedSequence(namespaceId, partitionId)));
        && r == Ok(Identifiers(start, namespaceId, partitionId, quantity, check))
        && cache == old(cache)[CacheKey(namespaceId, partitionId) := start + Count(quantity)]
        && CachedSequence(namespaceId, partitionId) == start + Count(quantity)
      ensures forall ns: nat, p: string :: ns != namespaceId || p != partitionId ==>
        CachedSequence(ns, p) == old(CachedSequence(ns, p))
    {
      var found := FindHighestSequence(store, namespaceId, partitionId);
      if found.Err? {
        return Err(found.failure);
      }
      var sequence := found.value;

      var sequenceCacheKey := CacheKey(namespaceId, partitionId);
      var sequenceCacheValue := if sequenceCacheKey in cache then cache[sequenceCacheKey] else 0;
      if sequenceCacheValue > sequence {
        sequence := sequenceCacheValue;
      }
      var newIdentifiers;
      newIdentifiers, sequence := MintIdentifiers(sequence, namespaceId, partitionId, quantity);
      cache := cache[sequenceCacheKey := sequence];
      r := Ok(newIdentifiers);
      OtherKeysDiffer(namespaceId, partitionId);
    }

    /**
     * The loop of reserveIds: quantity times, advance the sequence, compose
     * sequence, namespace digits and partition, append the check digit and
     * read the text as a number.
     */
    method MintIdentifiers(start: nat, namespaceId: nat, partitionId: string, quantity: int)
      returns (newIdentifiers: seq<nat>, sequence: nat)
      requires Valid() && Resolve(partitionId).Some?
      ensures newIdentifiers == Identifiers(start, namespaceId, partitionId, quantity, check)
      ensures sequence == start + Count(quantity)
    {
      sequence := start;
      newIdentifiers := [];
      var i := 0;
      while i < quantity
        invariant 0 <= i <= Count(quantity)
        invariant sequence == start + i
        invariant |newIdentifiers| == i
        invariant forall j :: 0 <= j < i ==>
          newIdentifiers[j] == SctidValue(start + j + 1, namespaceId, partitionId, check)
      {
        sequence := sequence + 1;
        var namespace := if namespaceId == 0 then "" else Decimal(namespaceId);
        var sctidWithoutCheck := Decimal(sequence) + namespace + partitionId;
        var verhoeff := check(sctidWithoutCheck);
        SctidDigits(sequence, namespaceId, partitionId, check);
        assert sctidWithoutCheck == Numeral(sequence, namespaceId, partitionId);
        var newSctid := Value(sctidWithoutCheck + [verhoeff]);
        newIdentifiers := newIdentifiers + [newSctid];
        i := i + 1;
      }
      ghost var expected := Identifiers(start, namespaceId, partitionId, quantity, check);
      assert |newIdentifiers| == |expected|;
      forall j | 0 <= j < |expected| ensures newIdentifiers[j] == expected[j] { }
    }

    /** registerIds: identifiers assigned elsewhere are not recorded. */
    method RegisterIds(namespaceId: int, idsAssigned: set<int>)
      ensures cache == old(cache)
    {
    }
  }

  /**
   * Empty store, international namespace, concept partition: a reservation of
   * three yields sequences 1, 2, 3 and a following reservation of two yields 4, 5.
   */
  method EmptyStoreScenario(check: string -> char) returns (first: Result<seq<nat>>, second: Result<seq<nat>>)
    requires DigitValued(check)
    ensures first == Ok([SctidValue(1, 0, "00", check), SctidValue(2, 0, "00", check), SctidValue(3, 0, "00", check)])
    ensures second == Ok([SctidValue(4, 0, "00", check), SctidValue(5, 0, "00", check)])
  {
    var source := new LocalSequentialIdentifierSource(check);
    var empty := Store([], [], [], []);
    assert FindHighestSequence(empty, 0, "00") == Ok(0);
    first := source.ReserveIds(empty, 0, "00", 3);
    assert Identifiers(0, 0, "00", 3, check)
      == [SctidValue(1, 0, "00", check), SctidValue(2, 0, "00", check), SctidValue(3, 0, "00", check)];
    second := source.ReserveIds(empty, 0, "00", 2);
    assert Identifiers(3, 0, "00", 2, check) == [SctidValue(4, 0, "00", check), SctidValue(5, 0, "00", check)];
  }

  /** The finder reads 41 from a store holding only the identifier minted for sequence 41. */
  lemma StoreAtFortyOne(check: string -> char)
    requires DigitValued(check)
    ensures FindHighestSequence(Store([Sctid(41, 0, "00", check)], [], [], []), 0, "00") == Ok(41)
  {
    var stored := Sctid(41, 0, "00", check);
    var store := Store([stored], [], [], []);
    assert 41 < Pow10(11) by { Pow10Monotone(2, 11); assert Pow10(2) == 100; }
    SctidMatchesPattern(41, 0, "00", check);
    ParseSequenceOfSctid(41, 0, "00", check);
    assert [stored][1..] == [];
    assert Matching([stored], 0, "00") == [stored];
    assert HighestRanked([stored]) == Some(stored);
  }

  /**
   * The store holds sequence 41 and lags behind: the first reservation of five
   * starts at 42, and the second, against the same store, continues at 47
   * because the cache is ahead.
   */
  method CacheAheadOfStoreScenario(check: string -> char) returns (first: Result<seq<nat>>, second: Result<seq<nat>>)
    requires DigitValued(check)
    ensures first == Ok(Identifiers(41, 0, "00", 5, check)) && first.value[0] == SctidValue(42, 0, "00", check)
    ensures second == Ok(Identifiers(46, 0, "00", 2, check)) && second.value[0] == SctidValue(47, 0, "00", check)
  {
    var store := Store([Sctid(41, 0, "00", check)], [], [], []);
    StoreAtFortyOne(check);
    var source := new LocalSequentialIdentifierSource(check);
    assert source.CachedSequence(0, "00") == 0;
    first := source.ReserveIds(store, 0, "00", 5);
    assert first == Ok(Identifiers(41, 0, "00", 5, check));
    assert source.CachedSequence(0, "00") == 46;
    second := source.ReserveIds(store, 0, "00", 2);
    FirstIdentifier(41, 5, check);
    FirstIdentifier(46, 2, check);
  }

  lemma FirstIdentifier(start: nat, quantity: int, check: string -> char)
    requires DigitValued(check) && quantity > 0
    ensures Identifiers(start, 0, "00", quantity, check)[0] == SctidValue(start + 1, 0, "00", check)
  {
  }
}
