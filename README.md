# Merging polling-station votes with station locations

This project models `merge_voting_data` of `merge-voting-stations.py`, the
part of the repository that does the work. The function takes two tables:

- a table of per-station vote counts for the two candidates (Simion and Dan);
- a table of station locations.

It does the following, in order:

1. It brings the county names of both tables to one spelling. The vote side
   is upper-cased. The location side has the "JUDEŢUL " / "JUDEȚUL " prefix
   removed and is then upper-cased. Both sides then go through an ordered
   16-entry table of unaccented variants and their accented spellings.
2. It left-joins the votes with the locations on
   (station number, county).
3. It gives every station its Simion share.
4. It groups the stations by (county, UAT), sums each group's votes and
   computes the group's share. It merges that share back onto every
   station and takes each station's difference from it.
5. It selects the eleven output columns.

The modules follow those steps:

| module | contents |
|---|---|
| `Text` | upper-casing, substring occurrence, the case-insensitive `contains` and the literal `str.replace` |
| `Counties` | the mapping table, the in-order loop over one cell (`ApplyInOrder`), the "first matching variant wins" lookup (`Normalise`), and the facts about the source's table |
| `Joins` | a generic left join with pandas' row order and multiplicity; both merges of the function are instances of it |
| `Frames` | the three row types and the station join |
| `Stats` | the station share, the UAT group-by and merge-back, and the difference column |
| `Pipeline` | the whole function. The column assignments and the mapping loop are methods over arrays, as the source does them in place. `MergeVotingData` runs the steps in the source's order and is proved equal to the function `MergeResult`. The lemmas about the output are stated about `MergeResult`. `MergeFrameRows` and `ResultDeviationsCancel` are stated about `MergeFrame`, the frame just before the column selection, because the difference column they read is the same there. |

Modelling conventions:

- **Shares** are exact reals. pandas' NaN is `None`, which is what 0 / 0
  gives.
- **`uat_name`** is an `Option`, because it can be missing.
- **The mapping table** is a parameter of the pipeline. `CountyMapping` is
  the source's table, and `CorrectedCountyMapping` is the version described
  under Findings.

**Where the code departs from what one might expect.** One might expect a
vote county "JUDETUL BRASOV" to meet a location county "Județul Brașov".
The code does not do that:

- The prefix removal is case-sensitive and runs before upper-casing.
- So "Județul Brașov" keeps its prefix and becomes "JUDEȚUL BRAȘOV".
- That name does not contain the variant "BRASOV", so it stays as it is.
- Meanwhile "JUDETUL BRASOV" becomes "BRAȘOV".

The model follows the code. `Counties.VoteSidePrefixedBrasov` and
`Counties.LocationSideTitleCaseBrasov` state the two sides.

One might also expect the result to have one row per vote row. It has
that exactly when each cleaned vote row matches at most one cleaned
location row on (station number, county). That holds in particular when no
two cleaned location rows share a key. Otherwise a vote row gets one row
per matching location. `Pipeline.ResultSize` states the if-and-only-if and
the unique-key case.

## Model

| member | source | states |
|---|---|---|
| Text.Upper | merge-voting-stations.py:49-56 | definition of `str.upper()` on the modelled letters; its properties are stated by `Text.UpperLeavesNoLowerCase` and `Text.UpperIdempotent` |
| Text.ContainsCI | merge-voting-stations.py:80-81 | definition of `str.contains(variant, case=False)`; its properties are stated by `Text.ContainsCIOfUpper` and `Text.ContainsCITransitive` |
| Text.RemoveAll | merge-voting-stations.py:54-55 | definition of the literal `str.replace(prefix, '')`; its properties are stated by `Text.RemoveAllAbsent`, `Text.RemoveAllShrinks`, `Text.RemoveAllKeepsClearPrefix` and `Text.RemoveAllLeading` |
| Text.UpperLeavesNoLowerCase | merge-voting-stations.py:49 | upper-casing keeps the length, leaves no lower-case letter, changes every lower-case letter and keeps every other character |
| Text.UpperIdempotent | merge-voting-stations.py:56 | upper-casing twice is upper-casing once |
| Text.ContainsCIOfUpper | merge-voting-stations.py:80-81 | a case-insensitive `contains` gives the same answer before and after the column is upper-cased |
| Text.ContainsCITransitive | merge-voting-stations.py:80-81 | if s contains q and q contains p, ignoring case, then s contains p |
| Text.RemoveAllAbsent | merge-voting-stations.py:54-55 | `str.replace` of a literal that does not occur leaves the name unchanged |
| Text.RemoveAllShrinks | merge-voting-stations.py:54-55 | `str.replace` never lengthens a name, and shortens it exactly when the literal occurs |
| Text.RemoveAllKeepsClearPrefix | merge-voting-stations.py:54-55 | a leading part in which no occurrence starts is kept as it is |
| Text.RemoveAllLeading | merge-voting-stations.py:54-55 | a leading occurrence of the literal is removed |
| Counties.CountyMapping | merge-voting-stations.py:59-76 | definition of the 16-entry table, in its listed order; its properties are stated by `Counties.TableIsUpperCase` and `Counties.CountyMappingSettled` |
| Counties.VoteCounty | merge-voting-stations.py:49 | definition of the vote-side clean-up, upper-casing only; see `Counties.PrefixOnlyStrippedOnLocationSide` |
| Counties.LocationCounty | merge-voting-stations.py:54-56 | definition of the location-side clean-up, the two prefix removals and then upper-casing; its properties are stated by `Counties.LocationCountyStripsPrefix` and `Counties.PrefixMatchIsCaseSensitive` |
| Counties.LocationCountyStripsPrefix | merge-voting-stations.py:54-56 | a location county with either prefix, or none, becomes the upper-cased rest |
| Counties.CommaPrefixedHasNoCedilla | merge-voting-stations.py:54-55 | removing the cedilla prefix cannot touch a comma-prefixed name |
| Counties.RemoveAllSplice | merge-voting-stations.py:55 | removing the prefix between two parts it does not occur in leaves their concatenation |
| Counties.RemovalIsSinglePass | merge-voting-stations.py:55 | the removal is a single pass: a prefix spliced into a second copy leaves one copy behind |
| Counties.PrefixMatchIsCaseSensitive | merge-voting-stations.py:54-56 | "Județul Brașov" keeps its prefix, because the prefix is matched before upper-casing |
| Counties.PrefixOnlyStrippedOnLocationSide | merge-voting-stations.py:49-56 | "JUDEȚUL BRAȘOV" loses its prefix on the location side and keeps it on the vote side |
| Counties.Step | merge-voting-stations.py:80-81 | definition of one `.loc` assignment on one cell; see `Counties.ApplyInOrderSnoc` |
| Counties.ApplyInOrder | merge-voting-stations.py:79-81 | definition of the whole loop on one cell; its properties are stated by `Counties.ApplyInOrderSnoc`, `Counties.ApplyInOrderNoMatch`, `Counties.LoopIsFirstMatch` and `Counties.LoopTwiceIsLoopOnce` |
| Counties.ApplyInOrderSnoc | merge-voting-stations.py:79-81 | one more table entry is one more step on the value the loop reached so far |
| Counties.FirstMatch | merge-voting-stations.py:79-81 | the first entry whose variant the name contains, ignoring case, or none exactly when no variant matches |
| Counties.ApplyInOrderNoMatch | merge-voting-stations.py:79-81 | a name that matches no variant goes through the loop unchanged |
| Counties.LoopIsFirstMatch | merge-voting-stations.py:79-81 | when no canonical spelling contains a later variant, the in-place loop equals the first-match lookup |
| Counties.NoOtherImpliesNoLater | merge-voting-stations.py:59-81 | a table where no canonical spelling contains another entry's variant also meets the loop's condition |
| Counties.CanonicalIsFixed | merge-voting-stations.py:59-81 | in such a table every canonical spelling maps to itself |
| Counties.NormaliseIdempotent | merge-voting-stations.py:79-81 | in such a table the lookup is idempotent |
| Counties.LoopTwiceIsLoopOnce | merge-voting-stations.py:79-81 | in such a table running the loop twice is the same as once |
| Counties.TableIsUpperCase | merge-voting-stations.py:59-76 | every variant and every canonical spelling of the table is already upper case |
| Counties.OnlyOwnVariantBrasov | merge-voting-stations.py:59-76 | "BRAȘOV" contains no variant of the table except its own |
| Counties.CountyMappingSettled | merge-voting-stations.py:59-76 | no canonical spelling of the source's table contains, ignoring case, the variant of any other entry |
| Counties.MuresWins | merge-voting-stations.py:59-81 | a name containing "MURES" but neither "ILFOV" nor "BRASOV" becomes "MUREȘ" |
| Counties.MaramuresContainsMures | merge-voting-stations.py:62-70 | "MARAMURES" contains "MURES" |
| Counties.MaramuresBecomesMures | merge-voting-stations.py:59-81 | with the source's table, every name containing "MARAMURES" but neither "ILFOV" nor "BRASOV" becomes "MUREȘ" |
| Counties.MaramuresEntryUnreachable | merge-voting-stations.py:59-81 | the MARAMURES entry is never the first match, for any name |
| Counties.MaramuresFixed | merge-voting-stations.py:70 | the canonical "MARAMUREȘ" maps to itself |
| Counties.MaramuresOnlyFromItself | merge-voting-stations.py:59-81 | with the source's table a county becomes "MARAMUREȘ" if and only if it already is "MARAMUREȘ" |
| Counties.CorrectedIsReordering | merge-voting-stations.py:59-76 | the corrected table holds the same 16 entries, with MARAMURES moved ahead of MURES |
| Counties.NoOtherVariantReordered | merge-voting-stations.py:59-76 | reordering the entries of a table keeps the condition that no canonical spelling contains another entry's variant |
| Counties.CorrectedSettled | merge-voting-stations.py:59-76 | the corrected table meets that condition, so its loop is its first-match lookup |
| Counties.NormaliseSkipsUnmatched | merge-voting-stations.py:79-81 | an entry whose variant the name does not contain does not affect the lookup |
| Counties.CorrectedMapsMaramures | merge-voting-stations.py:59-81 | with the corrected table a name containing "MARAMURES" but neither "ILFOV" nor "BRASOV" becomes "MARAMUREȘ" |
| Counties.CorrectedAgreesElsewhere | merge-voting-stations.py:59-81 | for every name not containing "MARAMURES" the corrected table agrees with the source's |
| Counties.BrasovWins | merge-voting-stations.py:59-81 | a name containing "BRASOV" but not "ILFOV" becomes "BRAȘOV" |
| Counties.BrasovSpellingsMeet | merge-voting-stations.py:49-81 | vote-side "BRASOV" and location-side "JUDEȚUL BRAȘOV" both end as "BRAȘOV" |
| Counties.VoteSidePrefixedBrasov | merge-voting-stations.py:49-81 | vote-side "JUDETUL BRASOV" ends as "BRAȘOV" |
| Counties.TitleCaseBrasovMissesVariant | merge-voting-stations.py:80-81 | "JUDEȚUL BRAȘOV" does not contain "BRASOV", ignoring case |
| Counties.NeverBrasovWithoutVariant | merge-voting-stations.py:59-81 | only a name containing "BRASOV", or "BRAȘOV" itself, ends as "BRAȘOV" |
| Counties.LocationSideTitleCaseBrasov | merge-voting-stations.py:54-81 | location-side "Județul Brașov" does not end as "BRAȘOV", so it cannot meet vote-side "JUDETUL BRASOV" |
| Joins.Matching | merge-voting-stations.py:89-95 | a right row is among the matches if and only if it is in the table and has the key; there are no more matches than rows, and none exactly when no row has the key |
| Joins.MatchingCounts | merge-voting-stations.py:89-95 | each right row with the key appears among the matches as often as in the table, and a row without the key never does: duplicates are kept |
| Joins.MatchingAppend | merge-voting-stations.py:89-95 | the matches of two concatenated tables are the first table's matches followed by the second's, so table order is kept |
| Joins.JoinRow | merge-voting-stations.py:89-95 | a left row yields one output row per matching right row, or exactly one row when nothing matches |
| Joins.LeftJoin | merge-voting-stations.py:89-95 | a left join has at least as many rows as its left table |
| Joins.LeftJoinAppend | merge-voting-stations.py:89-95 | the join of a concatenation is the concatenation of the joins, so the left order is kept |
| Joins.LeftJoinSingle | merge-voting-stations.py:89-95 | a single left row contributes exactly its block |
| Joins.Lookup | merge-voting-stations.py:121-126 | a found row has the key and is in the table; none is found exactly when no row has the key |
| Joins.MatchingUnique | merge-voting-stations.py:121-126 | with unique right keys at most one right row matches |
| Joins.LeftJoinKeepsLength | merge-voting-stations.py:89-95 | the join has exactly as many rows as the left table if and only if every left row matches at most one right row |
| Joins.LeftJoinUniqueKeys | merge-voting-stations.py:121-126 | with unique right keys the join keeps the left length, and row i is left row i completed by its lookup |
| Joins.JoinRowMembers | merge-voting-stations.py:89-95 | an output row of a block is the left row with a matching right row, or alone when none matches, and each such row is present |
| Joins.LeftJoinMembers | merge-voting-stations.py:89-95 | a row is in the join if and only if it is in the block of some left row |
| Frames.Located | merge-voting-stations.py:89-95 | definition of a vote row joined with one location row; see `Frames.JoinStationsOneVote` and `Frames.JoinStationsMembers` |
| Frames.Unlocated | merge-voting-stations.py:89-95 | definition of a vote row left without coordinates by the left join; see `Frames.JoinStationsOneVote` and `Frames.JoinStationsMembers` |
| Frames.JoinStations | merge-voting-stations.py:89-95 | the station join has at least one row per vote row |
| Frames.JoinStationsOneVote | merge-voting-stations.py:89-95 | a vote row gets one located row per location with its key, in location order, or one row without coordinates |
| Frames.LocationsOfCounts | merge-voting-stations.py:89-95 | the locations a vote row is joined with are its same-key location rows, each as often as the location table lists it, in table order |
| Frames.JoinStationsAppend | merge-voting-stations.py:89-95 | the station join keeps the order of the vote rows |
| Frames.JoinStationsKeepsLength | merge-voting-stations.py:89-95 | the station join has one row per vote row if and only if no vote row shares its key with two location rows |
| Frames.JoinStationsUnique | merge-voting-stations.py:89-95 | with unique location keys, row i of the join is vote row i with the coordinates of the location sharing its key |
| Frames.JoinStationsMembers | merge-voting-stations.py:89-95 | a row is in the join if and only if it is a vote row completed by a location with its key, or left without coordinates when there is none |
| Frames.PaddedStationNumberDoesNotJoin | merge-voting-stations.py:89-95 | station numbers are compared as text: "007" does not meet "7" |
| Frames.DuplicateLocationDuplicatesVote | merge-voting-stations.py:89-95 | two locations with one key give their vote row two rows, in location order |
| Stats.WithTotal | merge-voting-stations.py:103 | definition of `total_votes` on one row; see `Stats.StationShare` |
| Stats.WithPercentage | merge-voting-stations.py:104 | definition of `simion_percentage` on one row; see `Stats.StationShare` and `Stats.PercentagesComplement` |
| Stats.Percentage | merge-voting-stations.py:104 | the share is NaN exactly when the total is zero, and lies in [0, 100] when the part is at most the total |
| Stats.PercentageScales | merge-voting-stations.py:104 | a defined share times the total is 100 times the part |
| Stats.PercentagesComplement | merge-voting-stations.py:104 | when there are votes, the two candidates' shares add up to 100 |
| Stats.StationShare | merge-voting-stations.py:103-104 | a station's share is NaN exactly when it has no votes, otherwise it lies in [0, 100], and its total is the sum of its two counts |
| Stats.UatStats | merge-voting-stations.py:108-111 | definition of `uat_stats`, one row per group with its two sums; its properties are stated by `Stats.GroupKeys`, `Stats.UatAverageKeyAt` and `Stats.UatAverageAt` |
| Stats.UatAverages | merge-voting-stations.py:114-118 | definition of `uat_averages`, each group's key and share; its properties are stated by `Stats.UatAveragesUnique` and `Stats.UatAverageAt` |
| Stats.MergeUatAverages | merge-voting-stations.py:121-126 | definition of the merge-back left join; its properties are stated by `Stats.MergeUatAveragesRows` and `Stats.LookupIsGroupAverage` |
| Stats.GroupKeys | merge-voting-stations.py:108-111 | the groups are distinct and are exactly the (county, UAT) pairs of rows that have a UAT name |
| Stats.UatAveragesUnique | merge-voting-stations.py:108-118 | `uat_averages` has one row per (county, UAT) key |
| Stats.UatAverageKeyAt | merge-voting-stations.py:108-118 | row i of `uat_averages` carries the key of group i |
| Stats.UatAverageAt | merge-voting-stations.py:114-118 | row i of `uat_averages` carries the share of group i's summed votes |
| Stats.LookupNamed | merge-voting-stations.py:121-126 | the merge-back finds, for a row with a UAT name, the average row of its group |
| Stats.LookupIsGroupAverage | merge-voting-stations.py:121-126 | the merge-back gives every row the share of its own group, and NaN to a row without a UAT name |
| Stats.MergeUatAveragesRows | merge-voting-stations.py:108-126 | the merge-back keeps rows, their order and their other columns, and sets each row's UAT share to its group's share |
| Stats.GroupAverageBounds | merge-voting-stations.py:114-115 | a group's share is NaN exactly when the group has no votes, otherwise in [0, 100] |
| Stats.GroupAverageOfMember | merge-voting-stations.py:108-126 | every row of a group receives that group's share |
| Stats.NoUatNoAverage | merge-voting-stations.py:108-126 | a row without a UAT name belongs to no group and gets a NaN UAT share |
| Stats.WithDeviation | merge-voting-stations.py:130 | definition of `simion_vs_uat_diff` on one row; see `Stats.Deviation` and `Stats.WeightedDeviationsCancel` |
| Stats.Deviation | merge-voting-stations.py:130 | the difference is defined exactly when both shares are |
| Stats.Deviations | merge-voting-stations.py:130 | the difference column keeps the number of rows |
| Stats.MergedDiffersOnlyInAverage | merge-voting-stations.py:121-130 | after the merge-back and the difference column, each row equals its input row on every column except the UAT share and the difference, and group k's rows carry k's share and their difference from it |
| Stats.DeviationsKeepRows | merge-voting-stations.py:121-130 | giving each row its group share and then its difference changes no other column, and gives group k's rows k's share and their difference from it |
| Stats.WeightedDeviationsAgainst | merge-voting-stations.py:130 | the turnout-weighted `simion_vs_uat_diff` column of a group equals the weighted differences of its station shares from the group's share |
| Stats.WeightedAgainstLinear | merge-voting-stations.py:130 | the weighted differences from a share p are 100 times the group's Simion votes minus p times its turnout |
| Stats.ScaledTurnoutFormula | merge-voting-stations.py:103 | the scaled turnout of a group is p times the summed turnout |
| Stats.TurnoutIsVotes | merge-voting-stations.py:103 | a group's summed turnout is its summed Simion and Dan votes |
| Stats.WeightedAgainstNone | merge-voting-stations.py:130 | NaN differences contribute nothing |
| Stats.ShareCancels | merge-voting-stations.py:114-115 | 100 times a group's Simion votes equals its share times its turnout |
| Stats.WeightedAgainstShare | merge-voting-stations.py:114-130 | the weighted differences from the group's own share sum to zero |
| Stats.WeightedDeviationsCancel | merge-voting-stations.py:103-130 | in every UAT the `simion_vs_uat_diff` column computed at line 130, weighted by each station's turnout, sums to zero |
| Stats.GroupOfTwo | merge-voting-stations.py:108-111 | the sums of a group of two rows are the sums of their counts |
| Stats.SumsOfThree | merge-voting-stations.py:108-111 | the sums of a group of three rows are the sums of their counts |
| Stats.UatAverageExample | merge-voting-stations.py:103-130 | stations of 60/40 and 30/70 in one UAT have shares 60 and 30, a UAT share of 45, and differences of +15 and -15 |
| Stats.UatAverageIsNotMeanOfShares | merge-voting-stations.py:108-115 | the UAT share is computed from the summed votes, not as the mean of the station shares: 1/0 and 0/3 give 25, not 50 |
| Pipeline.UpperVoteCounties | merge-voting-stations.py:49 | in place, every vote-side county becomes its upper-cased form and nothing else changes |
| Pipeline.CleanLocationCounties | merge-voting-stations.py:54-56 | in place, every location-side county has both prefixes removed and is upper-cased, and nothing else changes |
| Pipeline.NormaliseCounties | merge-voting-stations.py:79-81 | in place, every county of both tables becomes the result of running the whole table over it in order |
| Pipeline.AddTotalVotes | merge-voting-stations.py:103 | in place, every row gets its total votes |
| Pipeline.AddSimionPercentage | merge-voting-stations.py:104 | in place, every row gets its Simion share |
| Pipeline.AddDeviation | merge-voting-stations.py:130 | in place, every row gets its difference from its UAT share |
| Pipeline.PreparedVotes | merge-voting-stations.py:49-81 | the vote table keeps its length through the county clean-up |
| Pipeline.PreparedLocations | merge-voting-stations.py:54-81 | the location table keeps its length through the county clean-up |
| Pipeline.Scored | merge-voting-stations.py:103-104 | adding the two columns keeps the number of rows |
| Pipeline.Project | merge-voting-stations.py:133-145 | definition of the eleven-column selection, in its order; see `Pipeline.ResultRowsWithUniqueLocations` |
| Pipeline.MergeFrame | merge-voting-stations.py:89-130 | definition of `merged_data` just before the selection; its properties are stated by `Pipeline.MergeFrameRows` and `Pipeline.ResultDeviationsCancel` |
| Pipeline.MergeResult | merge-voting-stations.py:89-145 | definition of `result`; its properties are stated by `Pipeline.MergeVotingData`, `Pipeline.ResultSize`, `Pipeline.ResultRowsWithUniqueLocations` and `Pipeline.ResultSharesBounded` |
| Pipeline.PrepareCounties | merge-voting-stations.py:49-81 | the in-place steps on both tables compute the cleaned vote and location tables |
| Pipeline.ScoreStations | merge-voting-stations.py:103-104 | the in-place steps compute the frame with totals and shares |
| Pipeline.ScoreDeviations | merge-voting-stations.py:130 | the in-place step computes the difference column |
| Pipeline.MergeVotingData | merge-voting-stations.py:41-145 | the step-by-step pipeline computes exactly `MergeResult` |
| Pipeline.PreparedCountiesAreLookups | merge-voting-stations.py:49-81 | with a table that meets the loop's condition, every prepared county is the first-match lookup of its cleaned name |
| Pipeline.SourceTableCountiesAreLookups | merge-voting-stations.py:49-81 | with the source's table, both county columns become the first-match lookup of their cleaned names |
| Pipeline.CorrectedTableKeepsMaramures | merge-voting-stations.py:49-81 | vote-side "MARAMURES" becomes "MUREȘ" with the source's table and "MARAMUREȘ" with the corrected one |
| Pipeline.MergeFrameRows | merge-voting-stations.py:89-130 | the final frame is the scored join, row for row, with each row's group share and difference |
| Pipeline.ResultSize | merge-voting-stations.py:89-145 | the result has at least one row per vote row; it has exactly one per vote row if and only if every cleaned vote row matches at most one cleaned location row, which holds when the cleaned location keys are unique |
| Pipeline.ResultRowsWithUniqueLocations | merge-voting-stations.py:89-145 | with unique location keys, result row i is vote row i with its location, its share, its UAT share and their difference, projected to the eleven columns |
| Pipeline.ResultSharesBounded | merge-voting-stations.py:103-145 | about the output shares: see the list below the table |
| Pipeline.ResultDeviationsCancel | merge-voting-stations.py:103-130 | in every UAT of the final frame, the `simion_vs_uat_diff` column, weighted by each station's turnout, sums to zero |
| Pipeline.JoinWithDuplicate | merge-voting-stations.py:89-95 | two vote rows with two and one matching locations give three rows in order |
| Pipeline.TwoLocationsFirst | merge-voting-stations.py:89-95 | a vote row matching the first two of three locations gets those two rows |
| Pipeline.OneLocationLast | merge-voting-stations.py:89-95 | a vote row matching only the last of three locations gets one row |
| Pipeline.DuplicatedLocationWeighsTwice | merge-voting-stations.py:89-126 | a station duplicated by the join counts twice in its UAT's sums: the UAT share is 50, not 45 |

`Pipeline.ResultSharesBounded` states, for every output row:

- the station share is NaN exactly when the station has no votes;
- both shares lie in [0, 100];
- the difference is defined exactly when both shares are, and then lies in
  [-100, 100].

## Left out

**Reduced to values or parameters**

- **Reading and writing.** Reading the two CSV files, writing the result,
  every `print`, and the `__main__` block are I/O. The tables are
  parameters and the result is the return value.
- **The column selection and renaming** at lines 28-37 and 45 are
  represented by the row types: `VoteRow` and `LocationRow` hold exactly
  the selected columns.
- **The `astype(str)` of the station numbers** at lines 41-42 is not
  modelled. The station numbers are already strings in the model.
- **The `'county' in columns` test** at line 52 always holds for the
  selected location columns, so the model always runs the block.

**Floating-point and NaN behaviour**

- **`.round(2)`** at lines 104, 115 and 130 is left out. Shares and
  differences are exact reals. The difference is taken between the
  unrounded shares, whereas the source subtracts the rounded ones.
- **Stats.PercentagesComplement** states exact equality to 100. The
  rounded source values add up to 100 only within rounding.
- **A missing share** is `None` where pandas has NaN. A non-zero count
  over zero votes, which pandas would turn into infinity, cannot arise,
  because counts are natural numbers.
- **NaN counts, coordinates and county names** are out of scope. Vote
  counts are natural numbers, coordinates are reals and county names are
  strings. Only `uat_name` is optional.

**Text handling**

- **Upper-casing** covers ASCII letters and the Romanian lower-case
  letters ă, â, î, ș, ş, ț and ţ. Other Unicode case mappings are not
  modelled.
- **The case-insensitive `contains`** is a substring test on the
  upper-cased name and variant. Regular-expression syntax does not arise,
  because no variant contains a special character.

**Ordering**

- **The group-by order.** The model lists groups in order of first
  appearance, where pandas sorts them. The order never reaches the output,
  because the merge-back is a left join on unique keys and keeps the
  order of `merged_data`.

## Findings

| source | as written | input that shows it | evidently intended | confidence | as-written member | corrected member |
|---|---|---|---|---|---|---|
| merge-voting-stations.py:62-81 | the MURES entry comes before the MARAMURES entry, and entries match any name that contains the variant. A name containing "MARAMURES" is therefore rewritten to "MUREȘ" on the MURES step, and no longer matches the MARAMURES entry. | vote-side county "Maramures" ends as "MUREȘ" | such a name should end as "MARAMUREȘ": the MARAMURES entry is checked before MURES, and every other name keeps its mapping | not executed | Counties.MaramuresEntryUnreachable | Counties.CorrectedMapsMaramures |

A second as-written member, `Counties.MaramuresBecomesMures`, shows the
same finding. The corrected side is backed by three more members:

- `Counties.CorrectedSettled`: the corrected table meets the condition
  under which its in-place loop is its first-match lookup.
- `Counties.CorrectedAgreesElsewhere`: for every name not containing
  "MARAMURES", the corrected table gives the same result as the source's.
- `Pipeline.CorrectedTableKeepsMaramures`: the pipeline produces both
  results for the input above, one per table.
