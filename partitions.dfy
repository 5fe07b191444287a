/**
 * The partition table of the local identifier generator: which component
 * kind, and which identifier field of it, a two-digit partition code governs.
 */
module Partitions {
  import opened Results
  import opened Numerals

  datatype ComponentKind = Concept | Description | Relationship | ReferenceSetMember

  /** The stored field that holds the identifiers of a partition. */
  datatype IdField = ConceptId | DescriptionId | RelationshipId | ReferencedComponentId

  datatype Target = Target(kind: ComponentKind, idField: IdField)

  /** The component kind whose documents carry a field. */
  function FieldOwner(f: IdField): ComponentKind
  {
    match f
    case ConceptId => Concept
    case DescriptionId => Description
    case RelationshipId => Relationship
    case ReferencedComponentId => ReferenceSetMember
  }

  /**
   * The switch on the partition code; None stands for the
   * IllegalStateException thrown for a code it does not handle.
   */
  function Resolve(partitionId: string): (r: Option<Target>)
    ensures r.Some? ==> |partitionId| == 2 && AllDigits(partitionId)
    ensures r.Some? ==> FieldOwner(r.value.idField) == r.value.kind
  {
    if partitionId == "00" || partitionId == "10" then Some(Target(Concept, ConceptId))
    else if partitionId == "01" || partitionId == "11" then Some(Target(Description, DescriptionId))
    else if partitionId == "02" || partitionId == "12" then Some(Target(Relationship, RelationshipId))
    else if partitionId == "16" then Some(Target(ReferenceSetMember, ReferencedComponentId))
    else None
  }

  /** The component kind the second digit of a short- or long-format partition names. */
  function KindOfDigit(c: char): ComponentKind
    requires c in "012"
  {
    if c == '0' then Concept else if c == '1' then Description else Relationship
  }

  /**
   * The table read by digits: the first digit selects the international (0)
   * or extension (1) form, the second digit the component kind, and the two
   * forms of one kind resolve alike; "16" is the only other code handled,
   * and the only one that searches reference set members by the component
   * they reference.
   */
  lemma ResolveFollowsPartitionDigits(p: string)
    requires |p| == 2
    ensures Resolve(p).Some? <==> p == "16" || (p[0] in "01" && p[1] in "012")
    ensures p[0] in "01" && p[1] in "012" ==>
      Resolve(p) == Resolve(['0', p[1]]) == Resolve(['1', p[1]]) &&
      Resolve(p).value.kind == KindOfDigit(p[1]) &&
      Resolve(p).value.idField != ReferencedComponentId
    ensures p == "16" ==> Resolve(p) == Some(Target(ReferenceSetMember, ReferencedComponentId))
    ensures Resolve(p).Some? ==> (Resolve(p).value.kind == ReferenceSetMember <==> p == "16")
  {
    if p[0] in "01" && p[1] in "012" {
      assert p == [p[0], p[1]];
    }
  }
}
