# Local sequential SCTID allocator, modelled in Dafny

This project models the component-identifier allocator of a SNOMED CT
terminology server: `LocalSequentialIdentifierSource`. It mints identifiers
in the SNOMED CT identifier (SCTID) shape. An SCTID is written as:

- the item sequence;
- the namespace digits (absent for the international namespace 0);
- a two-digit partition code;
- one Verhoeff check digit.

The model has three parts:

- **Partition resolver** (`partitions.dfy`, module `Partitions`): the fixed
  switch from partition code to component kind and identifier field. It
  returns `None` for an unhandled code, which is where the source throws
  `IllegalStateException`.
- **Highest-sequence finder** (`sequence_finder.dfy`, module
  `SequenceFinder`). The document store is a value: one sequence of
  identifier strings per identifier field. The regular expression becomes the
  predicate `MatchesPattern`. The sorted, one-hit query becomes `HighestRanked`,
  a maximum under "length first, then characters" (`Numerals.RankLe`).
  `Integer.parseInt` becomes `ParseInt`, whose error path is the
  `NumberFormatException` (empty text or a value above 2^31-1).
- **Allocator** (`identifier_source.dfy`, module `IdentifierSource`): class
  `LocalSequentialIdentifierSource`. Its field `cache: map<string, int>`
  stands for `namespaceAndPartitionHighestSequenceCache`. The cache is keyed
  by `CacheKey`, which is `namespaceId + "_" + partitionId` exactly as in the
  source. `ReserveIds` reads the store's high-water mark, takes the cache's
  value when that is strictly greater, and mints the identifiers in a loop
  (`MintIdentifiers`). It then writes the last sequence back to the cache.

Supporting modules:

- `numerals.dfy` (module `Numerals`): decimal text and its value.
  `Decimal` renders a number the way Java's `n + ""` does. `Value` is what
  `parseInt` and `parseLong` read from digit text. The module also defines
  lexicographic order and the ranking order. Its key lemma is
  `RankIsNumericOrder`: on digit strings without leading zeros, the ranking
  order is numeric order. The comment at lines 114-115 of the source relies
  on this.
- `sctid_shape.dfy` (module `SctidShape`): how an identifier is composed.
  The check-digit calculator, `VerhoeffCheck.calculateChecksum`, is not part
  of this model. It appears as a parameter `check: string -> char`; all the
  model assumes is `DigitValued(check)`, i.e. every result is a digit.
- `results.dfy` (module `Results`): `Option`, `Result`, and the two
  exceptions the source can raise.

Where descriptions of this subsystem and the code disagree, the model follows
the code: `reserveIds` accepts any `int` quantity, and for a quantity of 0 or
less it returns an empty list and still writes the cache.

One deliberate departure: for a non-zero namespace, line 138 reads the
sequence as the text before the *last* occurrence of the namespace digits
(`lastIndexOf`). That is a defect (see Findings). `FindHighestSequence`, and
therefore `ReserveIds`, instead drops the last |namespace digits| + 3
characters, the offsets the identifier format intends. The source's own
parse is modelled separately as `ParseSequenceAsWritten`, and the two are
proved to agree for namespace 0.

## Model

| member | source | states |
|---|---|---|
| `Partitions.Resolve` | src/main/java/org/snomed/snowstorm/core/data/services/identifier/LocalSequentialIdentifierSource.java:70-97 | only two-digit digit codes are handled, and the resolved field belongs to the resolved component kind; the full table is stated by the next row |
| `Partitions.ResolveFollowsPartitionDigits` | src/main/java/org/snomed/snowstorm/core/data/services/identifier/LocalSequentialIdentifierSource.java:70-94 | a two-digit code is handled exactly when it is 16, or it starts with 0 or 1 and ends with 0, 1 or 2; the 0x and 1x forms of one kind resolve alike; the second digit picks concept, description or relationship, never the referenced-component field; 16 resolves to reference set members searched by referenced component id, and is the only code that resolves to reference set members |
| `Numerals.ValueOfDecimal` | src/main/java/org/snomed/snowstorm/core/data/services/identifier/LocalSequentialIdentifierSource.java:49-51 | parsing the decimal text of n gives back n |
| `Numerals.DecimalOfValue` | src/main/java/org/snomed/snowstorm/core/data/services/identifier/LocalSequentialIdentifierSource.java:51 | a digit string without leading zeros is the decimal text of its value |
| `Numerals.LexIsNumericOnEqualLength` | src/main/java/org/snomed/snowstorm/core/data/services/identifier/LocalSequentialIdentifierSource.java:117-118 | on digit strings of one length, the character sort agrees with numeric order in both directions |
| `Numerals.RankIsNumericOrder` | src/main/java/org/snomed/snowstorm/core/data/services/identifier/LocalSequentialIdentifierSource.java:114-118 | on canonical numerals, the length-then-characters ranking holds exactly when the first value is at most the second |
| `Numerals.LexLe` | src/main/java/org/snomed/snowstorm/core/data/services/identifier/LocalSequentialIdentifierSource.java:118 | the character sort puts a prefix first, and a string that ranks at or below its own prefix is that prefix |
| `Numerals.RankTotal` | src/main/java/org/snomed/snowstorm/core/data/services/identifier/LocalSequentialIdentifierSource.java:114-118 | any two values are comparable under the two-key sort |
| `Numerals.RankTransitive` | src/main/java/org/snomed/snowstorm/core/data/services/identifier/LocalSequentialIdentifierSource.java:114-118 | the two-key ranking is transitive, so a highest-ranked hit is well defined |
| `SctidShape.NamespaceDigits` | src/main/java/org/snomed/snowstorm/core/data/services/identifier/LocalSequentialIdentifierSource.java:48 | the namespace text is all digits, and empty exactly for namespace 0 |
| `SctidShape.Sctid` | src/main/java/org/snomed/snowstorm/core/data/services/identifier/LocalSequentialIdentifierSource.java:49-50 | the identifier text is the unchecked numeral followed by one character, and that character is the check digit computed over everything before it |
| `SctidShape.SctidValueSplits` | src/main/java/org/snomed/snowstorm/core/data/services/identifier/LocalSequentialIdentifierSource.java:51 | the number Long.parseLong reads is the sequence shifted left by the tail's length, plus the tail's value |
| `SctidShape.SctidValueIncreasing` | src/main/java/org/snomed/snowstorm/core/data/services/identifier/LocalSequentialIdentifierSource.java:46-51 | a larger sequence always gives a larger identifier, whatever the check digits |
| `SctidShape.SctidRendersBack` | src/main/java/org/snomed/snowstorm/core/data/services/identifier/LocalSequentialIdentifierSource.java:48-51 | the returned number, written in decimal, is exactly sequence, namespace digits, partition and check digit |
| `SequenceFinder.Matching` | src/main/java/org/snomed/snowstorm/core/data/services/identifier/LocalSequentialIdentifierSource.java:99-112 | the query selects exactly the stored values that match the namespace/partition pattern |
| `SequenceFinder.Candidates` | src/main/java/org/snomed/snowstorm/core/data/services/identifier/LocalSequentialIdentifierSource.java:109-134 | only the field of the resolved kind is searched, and exactly its values that match the pattern; for partition 16 these are the referenced component ids of reference set members |
| `SequenceFinder.MatchedIdentifierSplits` | src/main/java/org/snomed/snowstorm/core/data/services/identifier/LocalSequentialIdentifierSource.java:99-107 | whatever the pattern admits is a digit run (at most 11 digits for namespace 0), then the namespace digits and partition, then one digit; the run is the sequence text, and the id is all digits when the partition is |
| `SequenceFinder.PatternOfParts` | src/main/java/org/snomed/snowstorm/core/data/services/identifier/LocalSequentialIdentifierSource.java:99-107 | conversely, any digit run followed by the namespace digits, the partition and one digit matches, subject only to the 11-digit bound for namespace 0 |
| `SequenceFinder.HighestRanked` | src/main/java/org/snomed/snowstorm/core/data/services/identifier/LocalSequentialIdentifierSource.java:114-121 | no hit exactly when nothing matched; otherwise the hit is a candidate that ranks at or above every other candidate |
| `SequenceFinder.HighestRankedUnique` | src/main/java/org/snomed/snowstorm/core/data/services/identifier/LocalSequentialIdentifierSource.java:114-121 | any candidate that ranks at or above all others is the hit, so the single hit does not depend on the order of the store |
| `SequenceFinder.ParseInt` | src/main/java/org/snomed/snowstorm/core/data/services/identifier/LocalSequentialIdentifierSource.java:136 | a successful parse yields a value from 0 to Integer.MAX_VALUE |
| `SequenceFinder.ParseSequenceOutcome` | src/main/java/org/snomed/snowstorm/core/data/services/identifier/LocalSequentialIdentifierSource.java:135-138 | on a matched identifier, parsing the sequence text (intended offsets) throws NumberFormatException exactly when that text is empty or above Integer.MAX_VALUE, and otherwise returns its value |
| `SequenceFinder.FindHighestSequence` | src/main/java/org/snomed/snowstorm/core/data/services/identifier/LocalSequentialIdentifierSource.java:65-142 | an unknown partition fails with the unknown-partition failure; a result is from 0 to Integer.MAX_VALUE and needs a known partition; no matching identifier gives 0. The top hit is parsed with the intended offsets, not line 138's `lastIndexOf` (see Left out) |
| `SequenceFinder.FindHighestParsesTopHit` | src/main/java/org/snomed/snowstorm/core/data/services/identifier/LocalSequentialIdentifierSource.java:125-141 | the answer is the parse of the top-ranked hit; it is a NumberFormat failure carrying the hit's sequence text exactly when that text is empty or above Integer.MAX_VALUE |
| `SequenceFinder.EmptySequenceTextFails` | src/main/java/org/snomed/snowstorm/core/data/services/identifier/LocalSequentialIdentifierSource.java:136 | a store whose only international concept id is 001 makes the finder fail with NumberFormat on the empty text |
| `SequenceFinder.SequenceMonotoneInRank` | src/main/java/org/snomed/snowstorm/core/data/services/identifier/LocalSequentialIdentifierSource.java:114-138 | for identifiers of one key with canonical sequences, ranking higher never means a lower parsed sequence |
| `SequenceFinder.FindHighestIsMaxSequence` | src/main/java/org/snomed/snowstorm/core/data/services/identifier/LocalSequentialIdentifierSource.java:61-64 | when all matching identifiers are well formed, the finder succeeds with the largest sequence among them; that sequence belongs to a matching identifier, or is 0 when nothing matches |
| `SequenceFinder.SctidMatchesPattern` | src/main/java/org/snomed/snowstorm/core/data/services/identifier/LocalSequentialIdentifierSource.java:99-107 | a minted identifier always matches its own key's pattern for a non-zero namespace; for namespace 0 it matches exactly when the sequence is below 10^11 |
| `SequenceFinder.DecimalLengthBound` | src/main/java/org/snomed/snowstorm/core/data/services/identifier/LocalSequentialIdentifierSource.java:103 | a number has at most k digits exactly when it is below 10^k |
| `SequenceFinder.InternationalPatternSkipsLongIdentifiers` | src/main/java/org/snomed/snowstorm/core/data/services/identifier/LocalSequentialIdentifierSource.java:102-103 | the model identifier 900000000000550004 does not match the international pattern for partition 00 |
| `SequenceFinder.ParseSequenceOfSctid` | src/main/java/org/snomed/snowstorm/core/data/services/identifier/LocalSequentialIdentifierSource.java:135-138 | parsing a minted identifier's sequence (intended offsets) returns the sequence it was minted with |
| `SequenceFinder.FinderSeesStoredSctid` | src/main/java/org/snomed/snowstorm/core/data/services/identifier/LocalSequentialIdentifierSource.java:18-22 | once a minted identifier is stored (other matches well formed), the finder reports at least its sequence, so the allocator does not reissue it from the store |
| `SequenceFinder.LastIndexOf` | src/main/java/org/snomed/snowstorm/core/data/services/identifier/LocalSequentialIdentifierSource.java:138 | the result is -1 or an occurrence of the searched text, and no occurrence starts after it |
| `SequenceFinder.ParseSequenceAsWritten` | src/main/java/org/snomed/snowstorm/core/data/services/identifier/LocalSequentialIdentifierSource.java:135-138 | the source's parse; for namespace 0 it agrees with the intended parse |
| `SequenceFinder.AsWrittenParseMisreadsSequence` | src/main/java/org/snomed/snowstorm/core/data/services/identifier/LocalSequentialIdentifierSource.java:138 | for namespace 1, partition 10 and sequence 5, the source's parse gives 51 or 5110 where the intended parse gives 5 |
| `IdentifierSource.CacheKey` | src/main/java/org/snomed/snowstorm/core/data/services/identifier/LocalSequentialIdentifierSource.java:39 | the international namespace keys as 0_ followed by the partition, although its identifiers carry no namespace digits |
| `IdentifierSource.CacheKeyInjective` | src/main/java/org/snomed/snowstorm/core/data/services/identifier/LocalSequentialIdentifierSource.java:39 | two namespace/partition pairs share a cache key only if they are equal |
| `IdentifierSource.OtherKeysDiffer` | src/main/java/org/snomed/snowstorm/core/data/services/identifier/LocalSequentialIdentifierSource.java:39-55 | the key written back differs from the key of every other namespace/partition pair |
| `IdentifierSource.StartSequence` | src/main/java/org/snomed/snowstorm/core/data/services/identifier/LocalSequentialIdentifierSource.java:40-43 | the start is at least the store's and the cache's value and equals one of them; it is the cache's value only when the cache is not behind |
| `IdentifierSource.Identifiers` | src/main/java/org/snomed/snowstorm/core/data/services/identifier/LocalSequentialIdentifierSource.java:34-53 | a reservation returns Count(quantity) identifiers, i.e. quantity for a positive quantity and none otherwise |
| `IdentifierSource.IdentifiersIncreasing` | src/main/java/org/snomed/snowstorm/core/data/services/identifier/LocalSequentialIdentifierSource.java:45-52 | identifiers of one reservation strictly increase, hence are pairwise distinct |
| `IdentifierSource.IdentifiersHaveShape` | src/main/java/org/snomed/snowstorm/core/data/services/identifier/LocalSequentialIdentifierSource.java:45-52 | the i-th identifier reads as the decimal of start+i+1, the namespace digits, the partition and a final digit that is the checksum of everything before it |
| `IdentifierSource.SuccessiveReservationsDisjoint` | src/main/java/org/snomed/snowstorm/core/data/services/identifier/LocalSequentialIdentifierSource.java:40-55 | the second reservation for a key starts no earlier than where the first stopped, whatever the store reports in between, so each of its identifiers exceeds each identifier of the first; if the store's value has not grown, it starts exactly there |
| `IdentifierSource.LocalSequentialIdentifierSource.constructor` | src/main/java/org/snomed/snowstorm/core/data/services/identifier/LocalSequentialIdentifierSource.java:26-30 | a new source starts with an empty cache |
| `IdentifierSource.LocalSequentialIdentifierSource.CachedSequence` | src/main/java/org/snomed/snowstorm/core/data/services/identifier/LocalSequentialIdentifierSource.java:40 | the cached sequence, 0 by default, is never negative |
| `IdentifierSource.LocalSequentialIdentifierSource.ReserveIds` | src/main/java/org/snomed/snowstorm/core/data/services/identifier/LocalSequentialIdentifierSource.java:33-59 | a finder failure (including an unknown partition) propagates with the cache unchanged; otherwise the result is the identifiers after max(store, cache), the key's cache entry becomes start plus the count, and no other key changes |
| `IdentifierSource.LocalSequentialIdentifierSource.MintIdentifiers` | src/main/java/org/snomed/snowstorm/core/data/services/identifier/LocalSequentialIdentifierSource.java:45-53 | the loop returns exactly the specified identifiers and ends at start plus Count(quantity), the number of times `for (i = 0; i < quantity; i++)` runs |
| `IdentifierSource.LocalSequentialIdentifierSource.RegisterIds` | src/main/java/org/snomed/snowstorm/core/data/services/identifier/LocalSequentialIdentifierSource.java:144-147 | registering identifiers leaves the cache unchanged |
| `IdentifierSource.EmptyStoreScenario` | src/main/java/org/snomed/snowstorm/core/data/services/identifier/LocalSequentialIdentifierSource.java:33-59 | with an empty store, reserving 3 and then 2 international concept ids yields sequences 1, 2, 3 and then 4, 5 |
| `IdentifierSource.StoreAtFortyOne` | src/main/java/org/snomed/snowstorm/core/data/services/identifier/LocalSequentialIdentifierSource.java:125-141 | a store holding only the identifier of sequence 41 gives 41 |
| `IdentifierSource.CacheAheadOfStoreScenario` | src/main/java/org/snomed/snowstorm/core/data/services/identifier/LocalSequentialIdentifierSource.java:38-43 | with the store at 41 and not updated, reserving 5 starts at 42; the next reservation starts at 47, because the cache is ahead |

## Findings

| source | as written | input that shows it | evidently intended | confidence | as-written member | corrected member |
|---|---|---|---|---|---|---|
| src/main/java/org/snomed/snowstorm/core/data/services/identifier/LocalSequentialIdentifierSource.java:138 | for a non-zero namespace, the sequence is the text before the last occurrence of the namespace digits anywhere in the id, and that occurrence can overlap the partition or the check digit | namespace 1, partition 10, id minted for sequence 5 (text 5110 plus its check digit): read back as 51, or as 5110 when the check digit is 1 | the sequence is the id without its last (namespace length + 3) characters, which read back 5 | high that the code reads as stated; not executed | `SequenceFinder.AsWrittenParseMisreadsSequence` | `SequenceFinder.ParseSequenceOfSctid` |

The misread needs namespace digits that recur in the partition or the check
digit, e.g. a namespace made of the digit 1 with a partition starting with 1.
A misread sequence is longer than the true one. Usually the allocator then
skips sequences rather than reissuing them; but when the longer text exceeds
Integer.MAX_VALUE (for instance sequence 21474837 in namespace 1, partition
10, check digit 1, read as 21474837110) `Integer.parseInt` throws and every
later reservation for that key fails. `FindHighestSequence` uses the corrected parse (`ParseSequence`),
so the finder's lemmas describe the intended behaviour. The source's parse is
kept as `ParseSequenceAsWritten`.

## Left out

- Elasticsearch query construction, the script and field sort builders, and `SearchHits` handling (lines 109-123): the store is a value of type `Store`. The query becomes `Matching` followed by `HighestRanked`.
- The store is passed to `ReserveIds` as its state at the time of the call. The Java class holds the client instead. Store failures (connectivity, timeouts) are not modelled.
- Lines 130-134 read `getReferencedComponentId()` for reference set members and `getId()` otherwise. The model stores, for each field, the values that this read returns.
- The Lucene regular expression engine is not modelled. `MatchesPattern` states the full-string match directly. This is exact here because the partition code and the namespace digits are plain digits.
- `synchronized` and `Collections.synchronizedMap` (lines 26, 37): calls are modelled as sequential.
- The internals of `VerhoeffCheck`: it is a parameter with digit-valued results, so its tables and validate mode are not modelled.
- FindHighestSequence: for a non-zero namespace it parses the top hit with the intended offsets (drop the last |namespace digits| + 3 characters), not with line 138's `lastIndexOf`, so it and `ReserveIds` do not reproduce the misread described under Findings; `ParseSequenceAsWritten` models line 138 as written.
- `MintIdentifiers`: does not model 32-bit wrap-around of `sequence++` or the 64-bit range of `Long.parseLong`; sequences and identifiers are unbounded.
- `ReserveIds`: takes the namespace as a natural number. A negative `int` namespace would put a minus sign into the text, and `parseLong` would throw; this path is not modelled.
- `ParseInt`: models only what `Integer.parseInt` does with unsigned digit text. No other text reaches it here: the pattern admits digits only.
- The `ElasticsearchRestTemplate` constructor argument is not modelled; the constructor takes the check-digit function instead.
- FHIRCodeSystemService.java, TraceabilityConsumer.java, SEffectiveTimeFilter.java, DroolValidationServiceTest.java and TestConfig.java are not part of this model: none of them refers to the allocator.
