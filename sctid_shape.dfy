/**
 * The shape of a minted identifier: the sequence, then the namespace digits
 * (none for the international namespace 0), then the two-digit partition,
 * then one check digit computed over everything before it.
 */
module SctidShape {
  import opened Numerals

  /**
   * The check-digit calculator (VerhoeffCheck.calculateChecksum with offset 0
   * in generate mode) is a parameter of the model; all it is assumed to
   * promise is a decimal digit.
   */
  ghost predicate DigitValued(check: string -> char)
  {
    forall s :: IsDigit(check(s))
  }

  /** The namespace text inserted between sequence and partition. */
  function NamespaceDigits(namespaceId: nat): (s: string)
    ensures AllDigits(s)
    ensures namespaceId == 0 <==> s == ""
  {
    if namespaceId == 0 then "" else Decimal(namespaceId)
  }

  /** The identifier text before its check digit. */
  function Numeral(sequence: nat, namespaceId: nat, partitionId: string): string
  {
    Decimal(sequence) + NamespaceDigits(namespaceId) + partitionId
  }

  /** The full identifier text, check digit included. */
  function Sctid(sequence: nat, namespaceId: nat, partitionId: string, check: string -> char): (r: string)
    ensures |r| > 0 && r[..|r| - 1] == Numeral(sequence, namespaceId, partitionId)
    ensures r[|r| - 1] == check(r[..|r| - 1])
  {
    var n := Numeral(sequence, namespaceId, partitionId);
    assert (n + [check(n)])[..|n|] == n;
    n + [check(n)]
  }

  /** Everything after the sequence digits. */
  function Tail(sequence: nat, namespaceId: nat, partitionId: string, check: string -> char): string
  {
    NamespaceDigits(namespaceId) + partitionId + [check(Numeral(sequence, namespaceId, partitionId))]
  }

  lemma SctidSplits(sequence: nat, namespaceId: nat, partitionId: string, check: string -> char)
    ensures Sctid(sequence, namespaceId, partitionId, check)
      == Decimal(sequence) + Tail(sequence, namespaceId, partitionId, check)
    ensures |Sctid(sequence, namespaceId, partitionId, check)|
      == |Decimal(sequence)| + |NamespaceDigits(namespaceId)| + |partitionId| + 1
  {
  }

  lemma SctidDigits(sequence: nat, namespaceId: nat, partitionId: string, check: string -> char)
    requires AllDigits(partitionId) && DigitValued(check)
    ensures AllDigits(Tail(sequence, namespaceId, partitionId, check))
    ensures AllDigits(Sctid(sequence, namespaceId, partitionId, check))
    ensures sequence > 0 ==> Canonical(Sctid(sequence, namespaceId, partitionId, check))
  {
    var c := check(Numeral(sequence, namespaceId, partitionId));
    assert IsDigit(c);
    AllDigitsConcat(NamespaceDigits(namespaceId), partitionId);
    AllDigitsConcat(NamespaceDigits(namespaceId) + partitionId, [c]);
    SctidSplits(sequence, namespaceId, partitionId, check);
    AllDigitsConcat(Decimal(sequence), Tail(sequence, namespaceId, partitionId, check));
  }

  /** The number Long.parseLong reads from the identifier text. */
  function SctidValue(sequence: nat, namespaceId: nat, partitionId: string, check: string -> char): nat
    requires AllDigits(partitionId) && DigitValued(check)
  {
    SctidDigits(sequence, namespaceId, partitionId, check);
    Value(Sctid(sequence, namespaceId, partitionId, check))
  }

  /** The number shifted by the tail's length, plus the tail. */
  lemma SctidValueSplits(sequence: nat, namespaceId: nat, partitionId: string, check: string -> char)
    requires AllDigits(partitionId) && DigitValued(check)
    ensures var t := Tail(sequence, namespaceId, partitionId, check);
      |t| == |NamespaceDigits(namespaceId)| + |partitionId| + 1 &&
      AllDigits(t) && Value(t) < Pow10(|t|) &&
      SctidValue(sequence, namespaceId, partitionId, check) == sequence * Pow10(|t|) + Value(t)
  {
    var t := Tail(sequence, namespaceId, partitionId, check);
    SctidDigits(sequence, namespaceId, partitionId, check);
    SctidSplits(sequence, namespaceId, partitionId, check);
    ValueConcat(Decimal(sequence), t);
    ValueOfDecimal(sequence);
    ValueBounds(t);
  }

  /** Identifiers grow strictly with their sequence, whatever their check digits. */
  lemma SctidValueIncreasing(s: nat, u: nat, namespaceId: nat, partitionId: string, check: string -> char)
    requires s < u
    requires AllDigits(partitionId) && DigitValued(check)
    ensures SctidValue(s, namespaceId, partitionId, check) < SctidValue(u, namespaceId, partitionId, check)
  {
    SctidValueSplits(s, namespaceId, partitionId, check);
    SctidValueSplits(u, namespaceId, partitionId, check);
    var t := Tail(s, namespaceId, partitionId, check);
    ShiftDominates(s, u, Pow10(|t|), Value(t), Value(Tail(u, namespaceId, partitionId, check)));
  }

  /**
   * The number returned to the caller, written out in decimal as the store
   * keeps it, is the identifier text again.
   */
  lemma SctidRendersBack(sequence: nat, namespaceId: nat, partitionId: string, check: string -> char)
    requires sequence > 0
    requires AllDigits(partitionId) && DigitValued(check)
    ensures Decimal(SctidValue(sequence, namespaceId, partitionId, check))
      == Sctid(sequence, namespaceId, partitionId, check)
  {
    SctidDigits(sequence, namespaceId, partitionId, check);
    DecimalOfValue(Sctid(sequence, namespaceId, partitionId, check));
  }
}
