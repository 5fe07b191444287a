/**
 * The highest-sequence finder: resolve the partition, select the stored
 * identifiers that match the namespace/partition pattern, take the highest
 * one under the length-then-characters ranking, and parse its sequence back.
 */
module SequenceFinder {
  import opened Results
  import opened Numerals
  import opened Partitions
  import opened SctidShape

  /** Integer.MAX_VALUE: Integer.parseInt rejects anything larger. */
  const IntMax: nat := 2147483647

  /**
   * The document store, reduced to what the finder reads: for each
   * identifier field, the values it holds across all branches and versions.
   */
  datatype Store = Store(
    conceptIds: seq<string>,
    descriptionIds: seq<string>,
    relationshipIds: seq<string>,
    referencedComponentIds: seq<string>)

  /** The values of one field; for reference set members the referenced component id is read. */
  function FieldValues(store: Store, f: IdField): seq<string>
  {
    match f
    case ConceptId => store.conceptIds
    case DescriptionId => store.descriptionIds
    case RelationshipId => store.relationshipIds
    case ReferencedComponentId => store.referencedComponentIds
  }

  /**
   * Full-string match of the regular expression the finder builds:
   * "[0-9]{0,11}" + partition + "[0-9]" for namespace 0, and
   * "[0-9]*" + namespace + partition + "[0-9]" otherwise. The literal part has a
   * fixed length, so the only split of the id is the one below.
   */
  predicate MatchesPattern(id: string, namespaceId: nat, partitionId: string)
  {
    var literal := NamespaceDigits(namespaceId) + partitionId;
    |id| > |literal| &&
    var k := |id| - |literal| - 1;
    && AllDigits(id[..k])
    && (namespaceId == 0 ==> k <= 11)
    && id[k..|id| - 1] == literal
    && IsDigit(id[|id| - 1])
  }

  /** The stored values the regular-expression query selects, in store order. */
  function Matching(ids: seq<string>, namespaceId: nat, partitionId: string): (r: seq<string>)
    ensures forall x :: x in r <==> x in ids && MatchesPattern(x, namespaceId, partitionId)
  {
    if ids == [] then []
    else
      var rest := Matching(ids[1..], namespaceId, partitionId);
      assert ids == [ids[0]] + ids[1..];
      if MatchesPattern(ids[0], namespaceId, partitionId) then [ids[0]] + rest else rest
  }

  /**
   * The single hit of the query sorted by string length descending, then by
   * string descending: a maximum under RankLe.
   */
  function HighestRanked(ids: seq<string>): (r: Option<string>)
    ensures r.None? <==> ids == []
    ensures r.Some? ==> r.value in ids && forall x :: x in ids ==> RankLe(x, r.value)
  {
    if ids == [] then None
    else
      match HighestRanked(ids[1..])
      case None =>
        assert ids == [ids[0]];
        LexReflexive(ids[0]);
        Some(ids[0])
      case Some(best) =>
        assert ids == [ids[0]] + ids[1..];
        RankTotal(ids[0], best);
        if RankLe(ids[0], best) then Some(best)
        else
          LexReflexive(ids[0]);
          assert forall x :: x in ids[1..] ==> RankLe(x, ids[0]) by {
            forall x | x in ids[1..] ensures RankLe(x, ids[0]) { RankTransitive(x, best, ids[0]); }
          }
          Some(ids[0])
  }

  /** Integer.parseInt on the digit-only texts the finder passes it. */
  function ParseInt(s: string): (r: Result<int>)
    ensures r.Ok? ==> 0 <= r.value <= IntMax
  {
    if |s| > 0 && AllDigits(s) && Value(s) <= IntMax then Ok(Value(s)) else Err(NumberFormat(s))
  }

  lemma ParseIntOfDecimal(n: nat)
    requires n <= IntMax
    ensures ParseInt(Decimal(n)) == Ok(n)
  {
    ValueOfDecimal(n);
  }

  /** The sequence text: the identifier without namespace digits, partition and check digit. */
  function SequenceText(id: string, namespaceId: nat): string
    requires |id| >= |NamespaceDigits(namespaceId)| + 3
  {
    id[..|id| - |NamespaceDigits(namespaceId)| - 3]
  }

  /** Parsing the sequence back out of the winning identifier (with the intended offsets). */
  function ParseSequence(id: string, namespaceId: nat): Result<int>
    requires |id| >= |NamespaceDigits(namespaceId)| + 3
  {
    ParseInt(SequenceText(id, namespaceId))
  }

  /** Only the identifiers of one component kind and field are searched. */
  function Candidates(store: Store, namespaceId: nat, partitionId: string): (r: seq<string>)
    requires Resolve(partitionId).Some?
    ensures forall x :: x in r <==>
      x in FieldValues(store, Resolve(partitionId).value.idField) && MatchesPattern(x, namespaceId, partitionId)
    ensures partitionId == "16" ==> forall x :: x in r <==>
      x in store.referencedComponentIds && MatchesPattern(x, namespaceId, partitionId)
  {
    Matching(FieldValues(store, Resolve(partitionId).value.idField), namespaceId, partitionId)
  }

  /**
   * The highest sequence issued in a namespace and partition according to the
   * store, 0 when nothing matches. The winner is parsed with ParseSequence,
   * the intended offsets; ParseSequenceAsWritten below is the source's parse.
   */
  function FindHighestSequence(store: Store, namespaceId: nat, partitionId: string): (r: Result<int>)
    ensures Resolve(partitionId).None? ==> r == Err(UnknownPartition(partitionId))
    ensures r.Ok? ==> Resolve(partitionId).Some? && 0 <= r.value <= IntMax
    ensures Resolve(partitionId).Some? && Candidates(store, namespaceId, partitionId) == [] ==> r == Ok(0)
  {
    match Resolve(partitionId)
    case None => Err(UnknownPartition(partitionId))
    case Some(target) =>
      match HighestRanked(Matching(FieldValues(store, target.idField), namespaceId, partitionId))
      case None => Ok(0)
      case Some(highest) => ParseSequence(highest, namespaceId)
  }

  /**
   * What the pattern admits: a run of digits (at most 11 for namespace 0),
   * the namespace digits and partition, then one digit. The run is the
   * sequence text the finder parses.
   */
  lemma MatchedIdentifierSplits(id: string, namespaceId: nat, partitionId: string)
    requires MatchesPattern(id, namespaceId, partitionId) && |partitionId| == 2
    ensures |id| >= |NamespaceDigits(namespaceId)| + 3
    ensures id == SequenceText(id, namespaceId) + NamespaceDigits(namespaceId) + partitionId + [id[|id| - 1]]
    ensures AllDigits(SequenceText(id, namespaceId))
    ensures namespaceId == 0 ==> |SequenceText(id, namespaceId)| <= 11
    ensures AllDigits(partitionId) ==> AllDigits(id)
  {
    var t := SequenceText(id, namespaceId);
    var literal := NamespaceDigits(namespaceId) + partitionId;
    assert id == t + id[|t|..|id| - 1] + [id[|id| - 1]];
    if AllDigits(partitionId) {
      AllDigitsConcat(NamespaceDigits(namespaceId), partitionId);
      AllDigitsConcat(t, literal);
      AllDigitsConcat(t + literal, [id[|id| - 1]]);
    }
  }

  /**
   * Integer.parseInt on the sequence text of a matched identifier: it fails
   * with NumberFormatException exactly when the text is empty or exceeds
   * Integer.MAX_VALUE, and otherwise returns the text's value.
   */
  lemma ParseSequenceOutcome(id: string, namespaceId: nat, partitionId: string)
    requires MatchesPattern(id, namespaceId, partitionId) && |partitionId| == 2
    ensures |id| >= |NamespaceDigits(namespaceId)| + 3
    ensures var t := SequenceText(id, namespaceId);
      && (ParseSequence(id, namespaceId).Err? <==> t == [] || Value(t) > IntMax)
      && (ParseSequence(id, namespaceId).Err? ==> ParseSequence(id, namespaceId) == Err(NumberFormat(t)))
      && (ParseSequence(id, namespaceId).Ok? ==> ParseSequence(id, namespaceId).value == Value(t))
  {
    MatchedIdentifierSplits(id, namespaceId, partitionId);
  }

  /**
   * The finder's answer is the parse of its top-ranked hit, so a hit whose
   * sequence text is empty or too large makes it fail with NumberFormat.
   */
  lemma FindHighestParsesTopHit(store: Store, namespaceId: nat, partitionId: string, w: string)
    requires Resolve(partitionId).Some?
    requires HighestRanked(Candidates(store, namespaceId, partitionId)) == Some(w)
    ensures |w| >= |NamespaceDigits(namespaceId)| + 3
    ensures FindHighestSequence(store, namespaceId, partitionId) == ParseSequence(w, namespaceId)
    ensures var t := SequenceText(w, namespaceId);
      FindHighestSequence(store, namespaceId, partitionId).Err? <==> t == [] || Value(t) > IntMax
    ensures var t := SequenceText(w, namespaceId);
      FindHighestSequence(store, namespaceId, partitionId).Err? ==>
        FindHighestSequence(store, namespaceId, partitionId) == Err(NumberFormat(t))
  {
    assert w in Candidates(store, namespaceId, partitionId);
    ResolveFollowsPartitionDigits(partitionId);
    ParseSequenceOutcome(w, namespaceId, partitionId);
  }

  /** A stored concept id "001" leaves no sequence text before "00" and its check digit. */
  lemma EmptySequenceTextFails()
    ensures FindHighestSequence(Store(["001"], [], [], []), 0, "00") == Err(NumberFormat(""))
  {
    var store := Store(["001"], [], [], []);
    assert "001"[..0] == [] && "001"[0..2] == "00";
    assert MatchesPattern("001", 0, "00");
    assert Candidates(store, 0, "00") == ["001"];
    FindHighestParsesTopHit(store, 0, "00", "001");
    assert SequenceText("001", 0) == "";
  }

  /** The top hit is determined by the ranking alone, not by the order of the store. */
  lemma HighestRankedUnique(ids: seq<string>, w: string)
    requires w in ids && forall x :: x in ids ==> RankLe(x, w)
    ensures HighestRanked(ids) == Some(w)
  {
    var b := HighestRanked(ids).value;
    RankAntisymmetric(b, w);
  }

  /** A matched identifier whose sequence text is canonical and fits an int. */
  predicate WellFormedSequence(id: string, namespaceId: nat)
  {
    && |id| >= |NamespaceDigits(namespaceId)| + 3
    && Canonical(SequenceText(id, namespaceId))
    && Value(SequenceText(id, namespaceId)) <= IntMax
  }

  function SequenceOf(id: string, namespaceId: nat): nat
    requires WellFormedSequence(id, namespaceId)
  {
    Value(SequenceText(id, namespaceId))
  }

  /** On well-formed identifiers of one key, a higher rank never means a lower sequence. */
  lemma SequenceMonotoneInRank(a: string, b: string, namespaceId: nat)
    requires WellFormedSequence(a, namespaceId) && WellFormedSequence(b, namespaceId)
    requires RankLe(a, b)
    ensures SequenceOf(a, namespaceId) <= SequenceOf(b, namespaceId)
  {
    var sa, sb := SequenceText(a, namespaceId), SequenceText(b, namespaceId);
    if |a| == |b| {
      assert a == sa + a[|sa|..] && b == sb + b[|sb|..];
      LexPrefix(sa, a[|sa|..], sb, b[|sb|..]);
    }
    assert RankLe(sa, sb);
    RankIsNumericOrder(sa, sb);
  }

  /**
   * When every matching stored identifier is well formed, the finder returns
   * the largest sequence among them, and 0 when there is none.
   */
  lemma FindHighestIsMaxSequence(store: Store, namespaceId: nat, partitionId: string)
    requires Resolve(partitionId).Some?
    requires forall id :: id in Candidates(store, namespaceId, partitionId) ==> WellFormedSequence(id, namespaceId)
    ensures FindHighestSequence(store, namespaceId, partitionId).Ok?
    ensures forall id :: id in Candidates(store, namespaceId, partitionId) ==>
      SequenceOf(id, namespaceId) <= FindHighestSequence(store, namespaceId, partitionId).value
    ensures Candidates(store, namespaceId, partitionId) != [] ==>
      exists id :: id in Candidates(store, namespaceId, partitionId) &&
        SequenceOf(id, namespaceId) == FindHighestSequence(store, namespaceId, partitionId).value
  {
    var ids := Candidates(store, namespaceId, partitionId);
    var r := FindHighestSequence(store, namespaceId, partitionId);
    if ids != [] {
      var best := HighestRanked(ids).value;
      assert r == ParseInt(SequenceText(best, namespaceId));
      assert r == Ok(SequenceOf(best, namespaceId));
      forall id | id in ids
        ensures SequenceOf(id, namespaceId) <= r.value
      {
        SequenceMonotoneInRank(id, best, namespaceId);
      }
    }
  }

  /** An identifier assembled from a digit run, the literal part and one digit matches, up to the length bound. */
  lemma PatternOfParts(x: string, namespaceId: nat, partitionId: string, c: char)
    requires AllDigits(x) && IsDigit(c)
    ensures MatchesPattern(x + (NamespaceDigits(namespaceId) + partitionId) + [c], namespaceId, partitionId)
      <==> (namespaceId == 0 ==> |x| <= 11)
  {
    var literal := NamespaceDigits(namespaceId) + partitionId;
    var id := x + literal + [c];
    assert |id| - |literal| - 1 == |x|;
    assert id[..|x|] == x;
    assert id[|x|..|id| - 1] == literal;
    assert id[|id| - 1] == c;
  }

  lemma SctidMatchesPatternByLength(sequence: nat, namespaceId: nat, partitionId: string, check: string -> char)
    requires AllDigits(partitionId) && DigitValued(check)
    ensures MatchesPattern(Sctid(sequence, namespaceId, partitionId, check), namespaceId, partitionId)
      <==> (namespaceId == 0 ==> |Decimal(sequence)| <= 11)
  {
    var c := check(Numeral(sequence, namespaceId, partitionId));
    assert IsDigit(c);
    SctidSplits(sequence, namespaceId, partitionId, check);
    assert Sctid(sequence, namespaceId, partitionId, check)
      == Decimal(sequence) + (NamespaceDigits(namespaceId) + partitionId) + [c];
    PatternOfParts(Decimal(sequence), namespaceId, partitionId, c);
  }

  /** A number has at most k digits exactly when it is below 10^k. */
  lemma DecimalLengthBound(n: nat, k: nat)
    requires k > 0
    ensures |Decimal(n)| <= k <==> n < Pow10(k)
  {
    var d := Decimal(n);
    ValueOfDecimal(n);
    ValueBounds(d);
    if |d| <= k {
      Pow10Monotone(|d|, k);
    } else {
      Pow10Monotone(k, |d| - 1);
    }
  }

  /** A minted identifier matches its own key's pattern; for namespace 0 only while the sequence has at most 11 digits. */
  lemma SctidMatchesPattern(sequence: nat, namespaceId: nat, partitionId: string, check: string -> char)
    requires AllDigits(partitionId) && DigitValued(check)
    ensures MatchesPattern(Sctid(sequence, namespaceId, partitionId, check), namespaceId, partitionId)
      <==> (namespaceId != 0 || sequence < Pow10(11))
  {
    SctidMatchesPatternByLength(sequence, namespaceId, partitionId, check);
    DecimalLengthBound(sequence, 11);
  }

  /** Parsing inverts minting: the sequence of a minted identifier is read back unchanged. */
  lemma ParseSequenceOfSctid(sequence: nat, namespaceId: nat, partitionId: string, check: string -> char)
    requires sequence <= IntMax && |partitionId| == 2
    ensures |Sctid(sequence, namespaceId, partitionId, check)| >= |NamespaceDigits(namespaceId)| + 3
    ensures ParseSequence(Sctid(sequence, namespaceId, partitionId, check), namespaceId) == Ok(sequence)
  {
    var id := Sctid(sequence, namespaceId, partitionId, check);
    SctidSplits(sequence, namespaceId, partitionId, check);
    assert SequenceText(id, namespaceId) == Decimal(sequence);
    ParseIntOfDecimal(sequence);
  }

  /**
   * Once a minted identifier is in the store (and the other matching
   * identifiers are well formed), the finder never reports a lower sequence.
   */
  lemma FinderSeesStoredSctid(store: Store, sequence: nat, namespaceId: nat, partitionId: string, check: string -> char)
    requires Resolve(partitionId).Some? && DigitValued(check)
    requires 0 < sequence <= IntMax && (namespaceId != 0 || sequence < Pow10(11))
    requires Sctid(sequence, namespaceId, partitionId, check) in FieldValues(store, Resolve(partitionId).value.idField)
    requires forall id :: id in Candidates(store, namespaceId, partitionId) ==> WellFormedSequence(id, namespaceId)
    ensures FindHighestSequence(store, namespaceId, partitionId).Ok?
    ensures FindHighestSequence(store, namespaceId, partitionId).value >= sequence
  {
    var id := Sctid(sequence, namespaceId, partitionId, check);
    SctidMatchesPattern(sequence, namespaceId, partitionId, check);
    ParseSequenceOfSctid(sequence, namespaceId, partitionId, check);
    assert id in Candidates(store, namespaceId, partitionId);
    assert SequenceText(id, namespaceId) == Decimal(sequence) by { SctidSplits(sequence, namespaceId, partitionId, check); }
    ValueOfDecimal(sequence);
    FindHighestIsMaxSequence(store, namespaceId, partitionId);
  }

  /**
   * The length bound keeps the international pattern off long model
   * identifiers that end in the same partition, such as 900000000000550004.
   */
  lemma InternationalPatternSkipsLongIdentifiers()
    ensures !MatchesPattern("900000000000550004", 0, "00")
  {
  }

  // ---- The namespace parse as the source writes it ----

  /** t occurs in s starting at index j. */
  predicate OccursAt(s: string, t: string, j: int)
  {
    0 <= j && j + |t| <= |s| && s[j..j + |t|] == t
  }

  /** String.lastIndexOf: the last index where t occurs in s, -1 when it does not occur. */
  function LastIndexOf(s: string, t: string): (r: int)
    ensures r == -1 || OccursAt(s, t, r)
    ensures forall j :: r < j ==> !OccursAt(s, t, j)
  {
    LastIndexFrom(s, t, |s| - |t|)
  }

  function LastIndexFrom(s: string, t: string, from: int): (r: int)
    requires from <= |s| - |t|
    ensures r == -1 || (OccursAt(s, t, r) && r <= from)
    ensures forall j :: r < j <= from ==> !OccursAt(s, t, j)
    decreases from + 1
  {
    if from < 0 then -1
    else if s[from..from + |t|] == t then from
    else LastIndexFrom(s, t, from - 1)
  }

  /**
   * The parse as written: for a non-zero namespace the sequence is the text
   * before the last occurrence of the namespace digits anywhere in the id.
   */
  function ParseSequenceAsWritten(id: string, namespaceId: nat, partitionId: string): (r: Result<int>)
    requires MatchesPattern(id, namespaceId, partitionId) && |partitionId| == 2
    ensures namespaceId == 0 ==> r == ParseSequence(id, 0)
  {
    if namespaceId == 0 then ParseInt(id[..|id| - 3])
    else
      var ns := Decimal(namespaceId);
      var k := |id| - |ns| - |partitionId| - 1;
      assert OccursAt(id, ns, k) by {
        assert id[k..k + |ns|] == id[k..|id| - 1][..|ns|];
      }
      ParseInt(id[..LastIndexOf(id, ns)])
  }

  lemma MintedInNamespaceOne(check: string -> char)
    ensures Sctid(5, 1, "10", check) == "5110" + [check("5110")]
  {
    assert Decimal(5) == "5" && NamespaceDigits(1) == "1";
    assert Numeral(5, 1, "10") == "5110";
  }

  lemma LastOneIn(c: char)
    requires IsDigit(c)
    ensures LastIndexOf("5110" + [c], "1") == if c == '1' then 4 else 2
  {
    var id := "5110" + [c];
    assert OccursAt(id, "1", 2) && !OccursAt(id, "1", 3);
    if c == '1' {
      assert OccursAt(id, "1", 4);
    } else {
      assert !OccursAt(id, "1", 4);
    }
  }

  lemma ParseIntSamples()
    ensures ParseInt("51") == Ok(51) && ParseInt("5110") == Ok(5110)
  {
    assert "51"[..1] == "5" && "5"[..0] == "";
    assert "5110"[..3] == "511" && "511"[..2] == "51";
  }

  /**
   * With namespace 1 and partition 10, the identifier minted for sequence 5
   * reads back as 51 (or 5110), because the partition (or check digit)
   * repeats the namespace digit; the intended parse reads 5.
   */
  lemma AsWrittenParseMisreadsSequence(check: string -> char)
    requires DigitValued(check)
    ensures var id := Sctid(5, 1, "10", check);
      && MatchesPattern(id, 1, "10")
      && ParseSequence(id, 1) == Ok(5)
      && ParseSequenceAsWritten(id, 1, "10") != Ok(5)
      && ParseSequenceAsWritten(id, 1, "10") in {Ok(51), Ok(5110)}
  {
    var id := Sctid(5, 1, "10", check);
    var c := check("5110");
    assert IsDigit(c);
    MintedInNamespaceOne(check);
    SctidMatchesPattern(5, 1, "10", check);
    ParseSequenceOfSctid(5, 1, "10", check);
    LastOneIn(c);
    ParseIntSamples();
    assert Decimal(1) == "1";
    if c == '1' {
      assert id[..4] == "5110";
    } else {
      assert id[..2] == "51";
    }
  }
}
