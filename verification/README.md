# LORA over-representation analysis, modelled in Dafny

LORA (Lipid Over-Representation Analysis) compares a query list of lipids with a
reference list (the universe). It does this for every category, class and structural
level of the lipid nomenclature, using Fisher's exact test or the hypergeometric test.
It then corrects the p-values for multiple testing and draws the significant terms as
an UpSet diagram and as a circular phylogenetic tree. This project models the core of
that pipeline as pure Dafny functions over immutable data, and proves what each step
guarantees:

- the preparation of names and tables (`LipidNames`, `Columns`, `Acyls`, `Correction`);
- the three enrichment analyses of `statistics_fisher.py`:
  - general and acyl (`Enrichment`);
  - within subsets (`SubsetEnrichment`);
  - carbon and double-bond bins (`AdvancedEnrichment`);
- the statistics callback that dispatches and post-processes them (`Dispatch`);
- the mapping of significant terms back to lipids (`UniqueNames`, `TermMapper`);
- the UpSet intersections (`Combinations`, `Intersection`);
- the phylogenetic trie with its annotation and colours (`Phylo`).

`Wrappers`, `Seqs`, `Strings` and `Tables` hold the general pieces:
- `Result` and `Option`;
- masks, deduplication and a stable sort;
- `split`, `find` and `replace`;
- rows as maps from column name to `Value`.

The pipeline's Python exceptions are `Failure` values. Examples are `KeyError` on a
missing column, `IndexError`, `NameError` on an unbound variable, and `ValueError`
from `pd.concat([])`.

The statistical tests and the multiple-testing correction are parameters. The
contracts state what the pipeline does with their results.

## Model

| member | source | states |
|---|---|---|
| LipidNames.CharacterExchange | src/utils/common_functions.py:66-73 | `character_exchange` as written: a name without a `;<digits>O` suffix is returned unchanged, and the rewrite never changes a name's length (what it writes is pinned down by the two lemmas below) |
| LipidNames.CharacterExchangeIntended | src/utils/common_functions.py:49-52 | the documented intent `;2O -> ;O2`: a name without the suffix is unchanged; otherwise the same characters, rearranged, in a name of the same length |
| LipidNames.CharacterExchangeIntendedIdempotent | src/utils/common_functions.py:49-52 | the intended rewrite is idempotent: a second pass changes nothing |
| LipidNames.CharacterExchangeOneDigit | src/utils/common_functions.py:66-73 | on a one-digit oxygen count the code as written agrees with the intent |
| LipidNames.CharacterExchangeMultiDigit | src/utils/common_functions.py:67-70 | with two or more digits the code as written differs from the intent (`;12O` gives `;212`, not `;O12`) |
| LipidNames.OxygenSuffixOf | src/utils/common_functions.py:67 | a `;<digits>O` suffix appended to a name is found exactly where it was appended |
| LipidNames.SeparateLipids | src/utils/common_functions.py:109-115 | the result never holds a `\|`; a text without `\|` is returned unchanged |
| LipidNames.SeparateLipidsPair | src/utils/common_functions.py:109-115 | an `original\|normalized` pair gives back its normalized half |
| LipidNames.PrepareForParsing | src/utils/common_functions.py:133-141 | fails exactly when some cell is neither text nor missing; otherwise never longer than the column, every entry non-empty, not `Original name` and free of `\|`, and every qualifying separated text cell is kept |
| LipidNames.PrepareForParsingInOrder | src/utils/common_functions.py:133-141 | the kept entries are the separated text cells that are non-empty and not `Original name`, each once and in column order, and nothing else |
| LipidNames.FindEthers | src/utils/common_functions.py:189-198 | true exactly when the name holds one ether tag (` O-` or ` P-`); a non-text name raises |
| LipidNames.EtherScanCountsPositions | src/utils/common_functions.py:190 | the tag scan finds every tag position, because tags cannot overlap |
| LipidNames.FindMatches | src/utils/common_functions.py:221-257 | fails exactly when a table lacks the normalized-name column; row counts are kept; a row is flagged `True` exactly when its normalized name is in the other table and is neither `UNDEFINED` nor empty; nothing but the flag changes |
| LipidNames.GetPreparedTableData | src/utils/common_functions.py:277-284 | the normalized rows first, ordered by match flag and then name; the unnormalized rows after them, ordered by original name; no row lost or added |
| Columns.FloatToInt | src/utils/common_functions.py:670-673 | a float is truncated toward zero; NaN fails; any other value is returned unchanged |
| Columns.FloatToIntIdempotent | src/utils/common_functions.py:670-673 | converting twice is converting once |
| Columns.RenameColumns | src/utils/common_functions.py:629-646 | a name with no extension prefix is returned unchanged; only a name of one of the extensions can fail (the rewritten names are pinned down by the two lemmas below) |
| Columns.RenameTotal | src/utils/common_functions.py:641-643 | a `Total …: <n>` name gains ` within <category>` right before its `: <n>` |
| Columns.RenameEthers | src/utils/common_functions.py:633-636 | `Ethers: True` becomes `Ethers within <category>: True` |
| Columns.RenameAcyls | src/utils/common_functions.py:637-640 | an `Acyls …[…]…` name gains `within <category>` right before its first bracket, and loses a trailing `_y` |
| Columns.GetDbPositionGeometry | src/utils/common_functions.py:793-820 | a non-list cell gives None; a list cell that converts gives a text holding the comma between positions and geometries (the parts are pinned down by the lemma below) |
| Columns.DbPositionGeometrySplits | src/utils/common_functions.py:797-818 | well-formed positions split into their numbers and geometries in order (`["4Z","7Z","15"]` gives `4\|7\|15,Z\|Z`) |
| Columns.AppendPart | src/utils/common_functions.py:803-815 | appending one part and stripping leading bars gives the longer join |
| Acyls.GetFA | src/utils/common_functions.py:505-519 | NaN exactly when both counts are missing; a chain with a missing count never gets a descriptor; a descriptor is only given for the three known bond types |
| Acyls.EsterDescriptorRoundTrip | src/utils/common_functions.py:507-508 | an ester descriptor parses back to its carbon and double-bond counts |
| Acyls.PlasmanylDescriptor | src/utils/common_functions.py:509-511 | a name with one ` O-` tag gives the descriptor `O-<c>:<db>` |
| Acyls.PlasmenylDescriptor | src/utils/common_functions.py:512-513 | a name with one ` P-` tag gives the descriptor `P-<c>:<db>` |
| Acyls.HalfMissingChainIsNone | src/utils/common_functions.py:506-508 | a chain with only one of its two counts fails the integer conversion |
| Acyls.GetFAOptions | src/utils/common_functions.py:477-481 | the first word of each column containing `FA`, each once, and nothing else |
| Acyls.Melt | src/utils/common_functions.py:545 | one row per value column and input row |
| Acyls.MeltAt | src/utils/common_functions.py:545 | row `i` of block `j` is row `i` melted on value column `j` |
| Acyls.GetFADf | src/utils/common_functions.py:538-547 | fails exactly when some chain lacks one of its input columns: on a table with rows, the KeyError names the first lookup that misses, chain by chain, each chain read as `#C`, `#DB`, `Bond Type`, `Normalized Name`; on a table without rows with the ValueError of storing a frame into one column; otherwise the last two columns are `FAs` and `Acyls` and the table is the chains' melt |
| Acyls.AllInputsMissing | src/utils/common_functions.py:541-542 | the first missing input in reading order exists exactly when some chain lacks an input |
| Acyls.AllInputsFirst | src/utils/common_functions.py:541-542 | the first missing input in reading order is input `j` of chain `k`, after every input of the earlier chains and the earlier inputs of chain `k` were found |
| Acyls.GetFADfSecondLookup | src/utils/common_functions.py:542 | a one-row table with the names and `FA1 #C` only fails with the KeyError `FA1 #DB` |
| Acyls.MeltChainsShape | src/utils/common_functions.py:544-545 | with fresh chain names the melted table keeps the original columns as identifiers, then `FAs`, `Acyls` |
| Acyls.GetFADfBlocks | src/utils/common_functions.py:538-547 | block `j`, row `i` of the melted table is lipid `i` with every original cell, chain `j` in `FAs` and its descriptor in `Acyls` |
| Correction.Fdr | src/utils/common_functions.py:41-45 | the `N.D.` sentinel exactly when there is nothing to correct; otherwise the corrected p-values, one per input, or a failure for an unknown method |
| Correction.HypothesisCorrection | src/utils/hypothesis_correction.py:23-38 | an empty input gives `False` without reaching the correction; a method other than the three known ones leaves `array_out` unbound and fails; otherwise one reject flag per p-value |
| Tables.GroupKeys | src/utils/statistics_fisher.py:51-61 | the groups of a column: its non-missing values, each once, in sorted order |
| Enrichment.RemoveUndefined | src/utils/statistics_fisher.py:37-38 | rows of the undefined category are dropped and nothing else; a table without the category column raises KeyError |
| Enrichment.ClearRow | src/utils/statistics_fisher.py:40-41 | a `0:0` cell becomes missing and every other cell is kept |
| Enrichment.PreparedClean | src/utils/statistics_fisher.py:37-41 | after preparation no row is of the undefined category and no cell is `0:0` |
| Enrichment.QueryLacksCategory | src/utils/statistics_fisher.py:66-71 | a category the query has no group for counts zero query members |
| Enrichment.Tested | src/utils/statistics_fisher.py:61-73 | each category once; a category is tested exactly when the universe has a group for it, it is not a null-like value, and both counts pass `filter_count` |
| Enrichment.QueryOnlyNeverTested | src/utils/statistics_fisher.py:61 | a category only the query has is never tested |
| Enrichment.GroupCountBounded | src/utils/statistics_fisher.py:57-64 | a group never counts more names than the whole table |
| Enrichment.TallyNonNegative | src/utils/statistics_fisher.py:74 | the contingency table handed to the test has no negative entry |
| Enrichment.AtLevelsCountBounded | src/utils/statistics_fisher.py:127-149 | restricting rows to some rungs never raises a category's count, which never exceeds its rows |
| Enrichment.CompleteIff | src/utils/statistics_fisher.py:168-179 | the 'Missing … Val' flag is `False` exactly when every row of the category is on an open rung and has a name |
| Enrichment.LevelLabels | src/utils/statistics_fisher.py:80-95 | a label is given exactly when one of the rules that applies to the level carries it |
| Enrichment.LabelStreamCycles | src/utils/statistics_fisher.py:77-104 | row `i` of a block is labelled with label `i mod k` of its level's `k` labels, because the list is zipped |
| Enrichment.ZipStream | src/utils/statistics_fisher.py:103 | zipping against repeated labels gives nothing for an empty label list, else one item per element with label `i mod k` |
| Enrichment.PlainLevelTests | src/utils/statistics_fisher.py:60-104 | one test per tested category while the zipped labels last, carrying that category's counts and outcome |
| Enrichment.PlainTestIs | src/utils/statistics_fisher.py:73-100 | the test for a category and label carries both, with that category's counts and test outcome |
| Enrichment.SortByP | src/utils/statistics_fisher.py:108 | sorted by p-value and a permutation of its input |
| Enrichment.CorrectBlock | src/utils/statistics_fisher.py:108-115 | sorted by p-value, then FDR and rejection from the correction of the sorted p-values; an empty block gets none; an unknown method fails |
| Enrichment.CorrectBlockKeeps | src/utils/statistics_fisher.py:108-115 | correction only reorders: a property of every test holds of every term |
| Enrichment.CorrectBlockHas | src/utils/statistics_fisher.py:108-115 | no test is lost by the correction |
| Enrichment.PlainKept | src/utils/statistics_fisher.py:106 | the tests that survive the `False` drop are tests of the level |
| Enrichment.PlainBlockTerms | src/utils/statistics_fisher.py:60-115 | every term of a level's block is a test of that level that survived the drop |
| Enrichment.PlainBlockComplete | src/utils/statistics_fisher.py:60-115 | every tested category of a labelled level, not `False`-like, appears in the block |
| Enrichment.PlainLevels | src/utils/statistics_fisher.py:43-117 | no columns exactly when no level is in both tables; every term is a plain test of one of the levels; the only failures are a missing normalized name and an unknown correction method; and every block of a level in both tables is kept whole in the result |
| Enrichment.PlainLevelsComplete | src/utils/statistics_fisher.py:47-117 | every category tested at a level both tables have and not `False`-like gets a term in the result, grouped by that level |
| Enrichment.AcylLevelTests | src/utils/statistics_fisher.py:127-180 | one test per tested category on the kept rungs, named by the first open rung; with no rung open but something to test, an index error |
| Enrichment.AcylLevel | src/utils/statistics_fisher.py:130-194 | a level missing from either table fails; every term of the block is a test of the level on the kept rungs, named by the first open rung, whose category is not `False`-like; conversely every tested category that is not `False`-like has a term |
| Enrichment.AcylBlockFirst | src/utils/statistics_fisher.py:160-194 | the corrected block of a level holds only that level's tests that survived the drop of `False`-like categories, named by the first open rung |
| Enrichment.AcylBlockComplete | src/utils/statistics_fisher.py:185-194 | every category tested on the kept rungs that is not `False`-like appears in the level's block |
| Enrichment.AcylRoundTerms | src/utils/statistics_fisher.py:130-198 | every term of a round is a test of one of its levels whose category is not `False`-like, named by the rung open when the level is reached (one rung dropped per level) |
| Enrichment.AcylRounds | src/utils/statistics_fisher.py:123-198 | a successful round with rungs left found the level column in both tables; every term is a test of one of the levels whose category is not `False`-like, named by the rung open when that level is reached |
| Enrichment.AcylRoundBlocksIn | src/utils/statistics_fisher.py:130-198 | every level block of one round is kept whole in that round's terms, level `j` computed with rung `j` open |
| Enrichment.RoundStart | src/utils/statistics_fisher.py:125-198 | round `i` starts with the first `i * n` rungs dropped, `n` the number of levels |
| Enrichment.AcylRoundsBlocksIn | src/utils/statistics_fisher.py:125-198 | for every round that starts with rungs left, all its level blocks are kept whole in the result |
| Enrichment.AcylRoundsComplete | src/utils/statistics_fisher.py:125-198 | every category tested at level `j` in round `i` (rows filtered to that round's rungs) and not `False`-like gets a term in the result, grouped by that level and named by rung `i * n + j` |
| Enrichment.Enrich | src/utils/statistics_fisher.py:11-200 | a missing category column fails; with `Acyls` a level, every term is an acyl test on the prepared tables whose category is not `False`-like; otherwise no columns exactly when no level is in both tables, and every term is a plain test on the prepared tables |
| Enrichment.EnrichPlainBlocksIn | src/utils/statistics_fisher.py:43-117 | without `Acyls`, every block of a level both prepared tables have is kept whole in the result |
| Enrichment.EnrichPlainComplete | src/utils/statistics_fisher.py:43-117 | without `Acyls`, every category tested at a level both prepared tables have and not `False`-like gets a term in the result |
| Enrichment.EnrichRoundsIn | src/utils/statistics_fisher.py:119-198 | with `Acyls`, every level block of every round of the ladder is kept whole in the result |
| Enrichment.EnrichAcylComplete | src/utils/statistics_fisher.py:119-198 | with `Acyls`, every category tested at level `j` in round `i` and not `False`-like gets a term in the result, named by ladder rung `i * n + j` |
| Enrichment.AcylsLadder | src/utils/statistics_fisher.py:123-185 | with `Acyls` as the only level, a term named by rung `m` counts exactly the records on rung `m` or a finer one, and its category is not `False`-like |
| SubsetEnrichment.UsableSubsets | src/utils/statistics_fisher.py:231-235 | `Total #O` and `Ethers` are dropped unless both tables carry them; nothing else changes |
| SubsetEnrichment.QueryGroup | src/utils/statistics_fisher.py:250-253 | the query's records of the category when the query has that group, else the universe's group; every row is of that category |
| SubsetEnrichment.StripWithinInverse | src/utils/statistics_fisher.py:257 | renaming a group with ` within <c>` and stripping that ending again are inverse |
| SubsetEnrichment.CategoryBlock | src/utils/statistics_fisher.py:249-257 | fails exactly when the analysis of the category's records fails or has no columns (the latter a missing-column error); otherwise its terms one for one, each renamed with ` within <category>` |
| SubsetEnrichment.CategoryBlocks | src/utils/statistics_fisher.py:248-259 | no columns exactly when there is no category; every term is a renamed term of one of the categories' blocks; and every category's block is kept whole in the result |
| SubsetEnrichment.WithinLevels | src/utils/statistics_fisher.py:240-259 | a first level either table lacks raises KeyError; every term comes from a category the universe has at one of the levels; and every level's category blocks are kept whole in the result |
| SubsetEnrichment.WithinLevelsComplete | src/utils/statistics_fisher.py:240-259 | every term of the analysis of a universe category's records, at any level, appears in the result renamed ` within <category>` |
| SubsetEnrichment.WithinSubset | src/utils/statistics_fisher.py:204-262 | a first level either table lacks raises KeyError; every term is a renamed term of the analysis, on the usable subsets, of one category's records, for a category the universe has at one of the levels |
| SubsetEnrichment.WithinSubsetBlocksIn | src/utils/statistics_fisher.py:231-262 | every level's category blocks, on the usable subsets, are kept whole in the result |
| SubsetEnrichment.WithinSubsetComplete | src/utils/statistics_fisher.py:231-262 | every term of the analysis, on the usable subsets, of a universe category's records appears in the result renamed ` within <category>` |
| SubsetEnrichment.FallbackMirrors | src/utils/statistics_fisher.py:250-255 | a category the query lacks is compared with itself: query count and total equal the reference ones in each of its terms |
| SubsetEnrichment.MirroredTerms | src/utils/statistics_fisher.py:255 | analysing a table against itself reports equal query and reference counts |
| AdvancedEnrichment.BinOf | src/utils/statistics_fisher.py:345-370 | any bin a filter text selects has that text as its option text (with the lemma below: exactly the option texts select a bin) |
| AdvancedEnrichment.BinOfText | src/utils/statistics_fisher.py:345-370 | every option text selects its own bin |
| AdvancedEnrichment.MatchColumns | src/utils/statistics_fisher.py:325-331 | leaves `matches` unbound exactly when the option is neither the carbon nor the double-bond option; every match is a chain column of the option's kind |
| AdvancedEnrichment.FindAllFinds | src/utils/statistics_fisher.py:329-331 | every occurrence of the pattern in the joined names is found |
| AdvancedEnrichment.ChainColumnFound | src/utils/statistics_fisher.py:325-331 | every column named exactly like a chain column is among the matches |
| AdvancedEnrichment.BinAfterNullKeeps | src/utils/statistics_fisher.py:338-370 | clearing then binning keeps exactly the rows, unchanged, whose key is not zero and whose cell is in the bin |
| AdvancedEnrichment.SaturatedBinAlwaysEmpty | src/utils/statistics_fisher.py:340-362 | as written the saturated bin is empty for any records |
| AdvancedEnrichment.BinRowsMembers | src/utils/statistics_fisher.py:338-370 | corrected: a record is in a bin exactly when its chain is present (non-zero carbons) and the chain's cell is in the bin |
| AdvancedEnrichment.BinRowsOfCarbons | src/utils/statistics_fisher.py:340-356 | for carbon columns the corrected binning equals the code as written |
| AdvancedEnrichment.SaturatedChainLost | src/utils/statistics_fisher.py:340-362 | a 16-carbon saturated chain is lost as written and counted by the corrected binning |
| AdvancedEnrichment.BinRowsAsWrittenMembers | src/utils/statistics_fisher.py:338-362 | as written, a record is in a chain's bin exactly when its chain cell is not zero and is in the bin |
| AdvancedEnrichment.BinnedMembers | src/utils/statistics_fisher.py:338-377 | as written, a record is binned exactly when, for one of the chain columns, its cell is not zero and is in the bin |
| AdvancedEnrichment.SaturatedNeverBinned | src/utils/statistics_fisher.py:340-362 | as written, no record is ever binned as saturated |
| AdvancedEnrichment.BinTotalBounded | src/utils/statistics_fisher.py:379-387 | the bin never counts more named records than the category has |
| AdvancedEnrichment.Totals | src/utils/statistics_fisher.py:321-387 | counts exist exactly when the option finds chain columns and the filter text selects a bin; the bin's counts, from the binning as written, never exceed the category's |
| AdvancedEnrichment.CheckMatches | src/utils/statistics_fisher.py:338-370 | passing with chain columns means the filter selected a bin; passing means every chain column is in both tables; with every column present and no bin selected, `universe_filtered` is unbound |
| AdvancedEnrichment.AbbreviationOfBracketed | src/utils/statistics_fisher.py:394-399 | a category with a bracket is abbreviated by its bracketed text |
| AdvancedEnrichment.AbbreviationNone | src/utils/statistics_fisher.py:394-399 | a category without a bracket has no abbreviation |
| AdvancedEnrichment.CategoryTest | src/utils/statistics_fisher.py:311-412 | a missing name column fails first, then an unknown option leaves `matches` unbound; a success has counts, and gives a test exactly when both bin counts exceed `filter_count`, with the outcome computed from those counts |
| AdvancedEnrichment.CategoryTests | src/utils/statistics_fisher.py:311-412 | every test is for one of the categories and is that category's test at the level |
| AdvancedEnrichment.CategoryTestsComplete | src/utils/statistics_fisher.py:311-412 | on success, every category's test succeeded and, when it produced one, it is among the tests |
| AdvancedEnrichment.AdvancedLevel | src/utils/statistics_fisher.py:302-427 | a level either table lacks raises KeyError; every term is the test of a non-null universe category at that level |
| AdvancedEnrichment.AdvancedLevelComplete | src/utils/statistics_fisher.py:302-427 | every non-null universe category at the level has a successful test, and a test it produces is one of the level's terms |
| AdvancedEnrichment.AdvancedLevels | src/utils/statistics_fisher.py:302-427 | no columns exactly when there is no level; every term is a test at one of the levels; and every level's block is kept whole in the result |
| AdvancedEnrichment.Advanced | src/utils/statistics_fisher.py:297-429 | a missing category column raises KeyError; no columns exactly when there is no level; every term is a test at one of the levels on the tables without the undefined category |
| AdvancedEnrichment.AdvancedBlocksIn | src/utils/statistics_fisher.py:297-429 | every level's block on the tables without the undefined category is kept whole in the result |
| AdvancedEnrichment.AdvancedComplete | src/utils/statistics_fisher.py:297-429 | every non-null category at a level of the tables without the undefined category has a successful test, and a test it produces is a term of the result |
| AdvancedEnrichment.AdvancedNonNegative | src/utils/statistics_fisher.py:391 | every contingency table has no negative entry |
| AdvancedEnrichment.SaturatedTotalsZero | src/utils/statistics_fisher.py:360-392 | as written, the saturated option's query and reference bin counts are zero |
| AdvancedEnrichment.AdvancedNeverSaturated | src/utils/statistics_fisher.py:297-429 | as written, the saturated analysis reports no term at all |
| AdvancedEnrichment.SaturatedNeverCounted | src/utils/statistics_fisher.py:360-392 | as written, the saturated option's bin totals are zero for every chain column |
| Dispatch.ParamChecklist | src/index.py:2108-2111 | the columns from the eleventh on, then `Acyls`, as both options and values |
| Dispatch.GeneralPlanSound | src/index.py:2161-2172 | the general plan analyses every checklist level and nothing else, `Acyls` only on the melted tables |
| Dispatch.AdvancedJobsSound | src/index.py:2236-2258 | carbon bins exactly when `Total #C` is chosen, double-bond bins exactly when `Total #DB` is, carbons first |
| Dispatch.WithinPlanSound | src/index.py:2229-2285 | corrected: the within-subset plan analyses every parameter and nothing else, `Acyls` only on the melted tables |
| Dispatch.WithinPlanBins | src/index.py:2236-2283 | corrected: the within-subset plan runs the bins last, exactly for the chosen totals, carbons before double bonds |
| Dispatch.RunJobs | src/index.py:2236-2258 | the jobs in order: all succeed exactly when each one does, one frame per job |
| Dispatch.Concat | src/index.py:2260 | `pd.concat`: an empty list raises; the result has no columns exactly when no frame has |
| Dispatch.ConcatOne | src/index.py:2260 | concatenating one frame gives that frame |
| Dispatch.Execute | src/index.py:2229-2285 | a plan only returns a frame when it has a job and raises nothing |
| Dispatch.ExecuteOne | src/index.py:2265-2266 | a one-job plan that raises nothing gives that job's frame |
| Dispatch.WithinAsWrittenDiscards | src/index.py:2262-2285 | as written, without `Acyls`, `Total #C` and `Total #DB` the computed frame is followed by `concat([])`, which raises |
| Dispatch.WithinPlanKeepsFrame | src/index.py:2265-2266 | as intended, such a run returns the within-subset analysis itself |
| Dispatch.HyperCombinedUnbound | src/index.py:2690-2712 | as written, the hypergeometric combined analysis without `Acyls` always raises; with a total chosen, the error is the unbound list |
| Dispatch.HyperCombinedMixesAcyls | src/index.py:2667-2668 | as written, with `Acyls` and `Total #DB` but not `Total #C`, `Acyls` is also analysed on the unmelted tables; the intended plan keeps it melted |
| Dispatch.DesignOf | src/index.py:2155 | the general-only branch is taken exactly on the enrichment button, a known test, a non-empty checklist and empty subsets and parameters |
| Dispatch.PreselectedParamsBlockGeneral | src/index.py:2108-2155 | with the pre-selected parameters and no subsets, the general analysis matches no branch |
| Dispatch.ClassifierText | src/index.py:2176-2177 | a classifier becomes its text; NaN has no integer and fails; nothing else changes |
| Dispatch.ClassifiersText | src/index.py:2176-2177 | every row converted; fails exactly when some classifier is NaN |
| Dispatch.LimMax | src/index.py:2191 | the largest p-value of the significant rows, absent exactly when there is none |
| Dispatch.Present | src/index.py:2175-2214 | no columns raises KeyError on `p-value`; the shown rows are among all rows; the diagram is drawn exactly for two or more rows |
| Dispatch.SignificantOnlyShown | src/index.py:2181-2191 | with the filter on, the shown rows are exactly the rejected ones and the limit is their largest p-value |
| Dispatch.NothingSignificantFails | src/index.py:2188-2207 | two or more rows, none significant, no filter: drawing the diagram fails on the missing `Names` column |
| Dispatch.CreateTableStatistics | src/index.py:2149-2155 | no click prevents the update; a new query clears the outputs; a request matching no branch returns nothing; statistics are only computed on the enrichment button for a request of one of the three designs |
| Dispatch.ComputedFromPlans | src/index.py:2155-2412 | computed statistics are what the presentation makes of the branch's analysis: the general plan, the within-subset plan as written, or the two concatenated |
| Dispatch.PlainSubsetNeverComputed | src/index.py:2262-2285 | as written, a within-subset or combined request without `Acyls`, `Total #C` and `Total #DB` always fails |
| Dispatch.HyperCombinedNeedsAcyls | src/index.py:2690-2714 | as written, a hypergeometric combined request without `Acyls` always fails |
| UniqueNames.OccurrenceGrows | src/utils/reverse_table_upset.py:22-24 | a later copy of a name has seen more copies before it |
| UniqueNames.UniqueNames | src/utils/reverse_table_upset.py:22-24 | fails with IndexError exactly when some name has 26 earlier copies; otherwise one name per row, the normalized name followed by the letter of its copy's rank |
| UniqueNames.UniqueNameShape | src/utils/reverse_table_upset.py:22-24 | a name's first occurrence keeps the name; later ones get the letter of their rank |
| UniqueNames.LetteredInjective | src/utils/reverse_table_upset.py:22-24 | a name without `(` and its letter determine each other |
| UniqueNames.UniqueNamesDistinct | src/utils/reverse_table_upset.py:22-24 | over text names without `(` the unique names are pairwise different |
| UniqueNames.TooManyCopies | src/utils/reverse_table_upset.py:22-24 | a name repeated 27 times cannot be renamed |
| UniqueNames.AddUniqueNames | src/utils/reverse_table_upset.py:26 | the unique names inserted as the second column, every row kept; a missing name column raises |
| UniqueNames.Counted | src/utils/reverse_table_upset.py:57-58 | one counted name per member name (what the counters are is pinned down by the three lemmas below) |
| UniqueNames.CountedInjective | src/utils/reverse_table_upset.py:57-58 | a name without `(` and its counter determine each other |
| UniqueNames.CountedDistinct | src/utils/reverse_table_upset.py:57-58 | every copy of a repeated member gets its own row |
| UniqueNames.StripCounters | src/utils/reverse_table_upset.py:208 | never longer than its input (what it removes is pinned down by the lemmas below) |
| UniqueNames.StripCounter | src/utils/reverse_table_upset.py:208 | a counter is removed completely |
| UniqueNames.StripLetter | src/utils/reverse_table_upset.py:208 | a letter suffix is not a counter and survives |
| UniqueNames.StripCounted | src/utils/reverse_table_upset.py:57-58 | the clean-up undoes the counters: a counted member becomes its unique name again |
| UniqueNames.StripKeepsLetters | src/utils/reverse_table_upset.py:22-24 | the clean-up keeps the letter suffix, so copies of one lipid stay apart |
| TermMapper.DedupOn | src/utils/reverse_table_upset.py:52 | fails exactly when a key column is missing; otherwise the columns are kept, every surviving row is an input row, never more rows, and no key is lost |
| TermMapper.NamesAfterDedup | src/utils/reverse_table_upset.py:35-37 | after deduplicating on the unique name, the names present are exactly the input rows' names |
| TermMapper.IndexIn | src/utils/reverse_table_upset.py:46 | `list.index`: the first position of a present value; ValueError when absent |
| TermMapper.Condition | src/utils/reverse_table_upset.py:70-78 | a digit string compares as its number; other text as itself; a non-text classifier fails |
| TermMapper.SubsetRows | src/utils/reverse_table_upset.py:69-81 | the subset's rows from the category column, overridden by the class column; otherwise the stale `filtered_df` or a NameError |
| TermMapper.CategoryStep | src/utils/reverse_table_upset.py:32-41 | a group column the query lacks raises KeyError; otherwise exactly one block is appended, headed by the group and classifier, and the rest of the scan is unchanged (its members are stated by the lemma below) |
| TermMapper.AcylStep | src/utils/reverse_table_upset.py:43-62 | exactly one block is appended, headed by the group, level and classifier, and the rest of the scan is unchanged |
| TermMapper.TotalStep | src/utils/reverse_table_upset.py:65-87 | a group without ` within ` raises IndexError; otherwise exactly one block is appended, headed by the group and classifier, and the rest of the scan is unchanged |
| TermMapper.AcylWithinStep | src/utils/reverse_table_upset.py:89-114 | a group without ` within ` raises IndexError; otherwise exactly one block is appended, headed by the group, level and classifier, and the rest of the scan is unchanged |
| TermMapper.ChainMatches | src/utils/reverse_table_upset.py:123-126 | the chain columns a filter asks for; double bonds override carbons; neither keeps the last |
| TermMapper.ClearZeros | src/utils/reverse_table_upset.py:130 | the chain's zero cells become missing in the query, every other cell kept |
| TermMapper.BinSelect | src/utils/reverse_table_upset.py:133-168 | a filter text that is no bin keeps the stale `filtered_df`; otherwise the subset's rows, by class when the class column has the subset and by category otherwise, whose chain is in the bin |
| TermMapper.ChainLoop | src/utils/reverse_table_upset.py:129-172 | with no chain the pass is unchanged; with chains a success has a collected and a filtered table; the query's columns are kept |
| TermMapper.BinStep | src/utils/reverse_table_upset.py:116-179 | a missing category column raises KeyError; the query's columns are kept and at most one block is appended after the earlier ones |
| TermMapper.FaStep | src/utils/reverse_table_upset.py:181-202 | a group without ` within ` raises IndexError; otherwise exactly one block is appended, headed by the group and classifier, and the rest of the scan is unchanged |
| TermMapper.Step | src/utils/reverse_table_upset.py:28-202 | a non-text group fails (the branch a text group takes is stated by the per-branch members and lemmas) |
| TermMapper.Assemble | src/utils/reverse_table_upset.py:204-212 | no block gives the frame with only `index`; otherwise `Names` then one column per block header, and one row per distinct member |
| TermMapper.TableForUpset | src/utils/reverse_table_upset.py:5-219 | a missing name column raises KeyError; no terms give the frame with only `index` |
| TermMapper.CategoryMembers | src/utils/reverse_table_upset.py:32-41 | a category column holds exactly the unique names of the query rows of that category |
| TermMapper.CountersRemoved | src/utils/reverse_table_upset.py:57-58 | the final `re.sub` removes exactly the counters the acyl branches add |
| TermMapper.TotalWithoutSubset | src/utils/reverse_table_upset.py:65-68 | a `Total` group naming no subset raises IndexError |
| TermMapper.TotalCTermFails | src/utils/reverse_table_upset.py:65-68 | the general analysis' `Total #C` term cannot be mapped: the loop raises |
| TermMapper.TotalOutsideQuery | src/utils/reverse_table_upset.py:70-87 | a subset absent from the query selects nothing of its own: NameError with no earlier table, else the stale table's names |
| TermMapper.ClearKeeps | src/utils/reverse_table_upset.py:130 | clearing a chain leaves every other column unchanged |
| TermMapper.SaturatedSelectsNothing | src/utils/reverse_table_upset.py:130-150 | once a chain's zeros are cleared no row is saturated |
| TermMapper.SaturatedLoopEmpty | src/utils/reverse_table_upset.py:129-172 | the loop of a saturated term collects no lipid |
| TermMapper.SaturatedTermEmpty | src/utils/reverse_table_upset.py:116-179 | as written, a saturated term's column is always empty |
| TermMapper.AssembledRows | src/utils/reverse_table_upset.py:204-212 | a name has a row exactly when some term holds it; no name has two |
| TermMapper.AssembledMembership | src/utils/reverse_table_upset.py:204-212 | with distinct headers and p-values below a limit under 1, cell `(i, j)` counts as a member exactly when lipid `i` is in term `j`; the `Names` cell has its counters removed |
| TermMapper.AssembledTerms | src/utils/reverse_table_upset.py:204-212 | the diagram reads the terms back in the order the loop added them |
| Combinations.Choose | src/utils/upset_chart.py:62 | `itertools.combinations`: every listed combination has exactly `k` terms (their number and identity are stated by the lemmas below) |
| Combinations.ChooseCount | src/utils/upset_chart.py:62 | there are `C(d, k)` combinations of size `k` |
| Combinations.ChooseIsFilter | src/utils/upset_chart.py:62 | over distinct terms a combination is the terms masked by membership in it |
| Combinations.ChooseDistinct | src/utils/upset_chart.py:62 | over distinct terms no combination is listed twice |
| Combinations.SubsetsCount | src/utils/upset_chart.py:59-62 | there are exactly `2^d − 1` listed subsets |
| Combinations.ChooseUpToSorted | src/utils/upset_chart.py:59-62 | subsets are listed by non-decreasing size |
| Combinations.SubsetsComplete | src/utils/upset_chart.py:59-62 | a masked copy of the terms is listed exactly when it is not empty |
| Combinations.SubsetIsFilter | src/utils/upset_chart.py:59-62 | over distinct terms each listed subset is the terms masked by membership in it, and is not empty |
| Combinations.ChooseUpToDistinct | src/utils/upset_chart.py:59-62 | no subset is listed twice |
| Intersection.DictIntersectMulti | src/utils/upset_chart.py:13-19 | the items in every dictionary of `inside` and in none of `outside` |
| Intersection.MemberMap | src/utils/upset_chart.py:53-57 | a row index is a key exactly when that lipid is a member of the term, and every value is 1 |
| Intersection.KeptTerms | src/utils/upset_chart.py:45-50 | exactly `min(13, number of terms)` columns are kept (which ones is stated by the two lemmas below) |
| Intersection.KeptTermsMembers | src/utils/upset_chart.py:45-50 | kept columns are table columns, each once if named once |
| Intersection.KeptPrefersNonMembers | src/utils/upset_chart.py:45-48 | an all-member column is kept only when no column holding a non-member was dropped |
| Intersection.ExactMembers | src/utils/upset_chart.py:63-74 | a pair is in a subset's exact intersection exactly when its lipid is in every term of it and in no other kept term |
| Intersection.ExactDisjoint | src/utils/upset_chart.py:63-74 | over distinct terms a lipid is in the exact intersection of one listed subset only |
| Intersection.ExactCovers | src/utils/upset_chart.py:59-74 | a lipid in some kept term is in the exact intersection of the subset of exactly its terms |
| Intersection.ExactWithinTerms | src/utils/upset_chart.py:63-74 | every lipid of an exact intersection is in a kept term |
| Intersection.DrawnBarSound | src/utils/upset_chart.py:76-86 | every drawn bar is a listed subset of two or more kept terms, sized by its non-empty exact intersection |
| Intersection.DrawnBarComplete | src/utils/upset_chart.py:76-86 | every such subset with a non-empty exact intersection is drawn |
| Intersection.UpsetPivot | src/utils/upset_chart.py:40-87 | fails exactly on a missing `Names` (KeyError) or when no bar is drawn (`max` of nothing); otherwise the kept terms and their drawn bars, sorted by term count then size, every one shown |
| Intersection.VilIndex | src/utils/upset_chart.py:97-123 | a found index names a bar that produced a table; a key that names no produced table fails with KeyError |
| Intersection.VilIsLargest | src/utils/upset_chart.py:82-123 | when every bar produced a table the VIL is the last bar's: most terms, then largest size |
| Intersection.VilMissing | src/utils/upset_chart.py:100-123 | when a bar produced no table, the key read can name a bar without one (KeyError) |
| Intersection.StripTrailingGroup | src/utils/upset_chart.py:118 | never longer than the name; on a name without newlines either the name itself or a prefix cut at a `(` of a name ending in `)` |
| Intersection.StripIdempotent | src/utils/upset_chart.py:118 | stripping twice is stripping once, for names without newlines |
| Intersection.StripSuffixed | src/utils/upset_chart.py:118 | a ` (tag)` suffix is removed but the space before it stays |
| Intersection.FinalizeTable | src/utils/upset_chart.py:112-118 | fails exactly when `Names` or a term column is missing, naming the first missing one; otherwise the columns are `Names` then the terms and rows are never added |
| Intersection.FinalizeTableSound | src/utils/upset_chart.py:112-118 | every clean row comes from a complete input row; its term cells are neither missing nor one |
| Intersection.FinalizeTableComplete | src/utils/upset_chart.py:112-118 | every complete input row is represented: no lipid is lost |
| Intersection.UpsetFilterDf | src/utils/upset_chart.py:31-38 | no filter (or an empty one) gives the table; a missing filtered column raises KeyError; otherwise the columns are kept and a row survives exactly when it matches every filtered column |
| Intersection.UpsetFilterIdempotent | src/utils/upset_chart.py:31-38 | filtering again with the same targets changes nothing |
| Phylo.Insert | src/utils/phylo_tree.py:33-36 | `defaultdict` walk: an empty path changes nothing; otherwise the top-level keys are kept, with the path's first key appended after them when it was missing |
| Phylo.InsertContains | src/utils/phylo_tree.py:33-36 | after an insertion the path is present |
| Phylo.InsertExisting | src/utils/phylo_tree.py:33-36 | re-inserting a present path adds no node |
| Phylo.InsertIdempotent | src/utils/phylo_tree.py:33-36 | inserting a path twice is inserting it once |
| Phylo.InsertKeeps | src/utils/phylo_tree.py:33-36 | inserting a path keeps every path already present |
| Phylo.InsertWellFormed | src/utils/phylo_tree.py:12-13 | insertion keeps every level free of duplicate keys |
| Phylo.RowPath | src/utils/phylo_tree.py:33-36 | a row's keys: its category first, at most eight keys, none after the category a float |
| Phylo.RowPathKeys | src/utils/phylo_tree.py:33-36 | after the category, the path holds the cells of the finer levels that are not floats, each once, in column order, and nothing else |
| Phylo.BuildTrieKeys | src/utils/phylo_tree.py:32-39 | the first level lists the categories in first-seen order |
| Phylo.BuildTrieSound | src/utils/phylo_tree.py:28-36 | the trie holds the path of every row, earlier rows' paths surviving later insertions, and never duplicates a key |
| Phylo.BuildTrieDepth | src/utils/phylo_tree.py:30-36 | the tree is at most eight deep |
| Phylo.Annotate | src/utils/phylo_tree.py:44-103 | a clade carries its node's key and one clade per child (the annotation is stated by the two lemmas below) |
| Phylo.LipidomeTree | src/utils/phylo_tree.py:37-47 | root `Lipidome` without annotation, with one clade per category in first-seen order |
| Phylo.CreatePhyloTree | src/utils/phylo_tree.py:21-47 | fails exactly when the table has rows and lacks one of the shorthand columns; otherwise the lipidome tree of its rows |
| Phylo.LipidomeTreeAnnotated | src/utils/phylo_tree.py:44-103 | under category `i` every clade has its depth's branch length, the category's name and confidence `i + 1` |
| Phylo.DeepestAnnotated | src/utils/phylo_tree.py:44-103 | no clade is left unannotated, since no lipid has more than eight levels |
| Phylo.StagePaints | src/utils/phylo_tree.py:249-258 | colour names hold no digit, so each digit is coloured on its own |
| Phylo.NumberToColorPaints | src/utils/phylo_tree.py:247-260 | a number's colour string is its digits' colour names in order; the `10` rule never fires |
| Phylo.DigitColour | src/utils/phylo_tree.py:249-258 | a single digit gets its own colour |
| Phylo.TenIsRedBlack | src/utils/phylo_tree.py:249-259 | as written, ten comes out as `redblack` |
| Phylo.IntendedDigitColour | src/utils/phylo_tree.py:249-259 | the intended order keeps every single digit's colour |
| Phylo.IntendedTenIsYellow | src/utils/phylo_tree.py:259 | the intended order makes ten `yellow` |

## Left out

- The web layer: Dash callbacks other than the two modelled, the layout, sessions, caching, XML text, plotting, the report and file I/O.
- `edit_pval` (the p-value display rounding) is left out: the model keeps p-values as reals.
- Dispatch.CreateTableStatistics: the hypergeometric branches run the Fisher analyses with the hypergeometric test's settings, because the hypergeometric analysis module is not part of this model.
- Dispatch.CreateTableStatistics: `separate_db_position_geometry` is not applied to the uploaded tables; the analyses receive them as given.
- Dispatch.Concat: the union of columns and the renumbered index of `pd.concat` are not modelled; only the rows in order and the frame without columns are.
- Dispatch.Present: the table rendering, figure and VIL outputs are not modelled beyond the pivot.
- Dispatch.ClassifierText: only NaN is a float classifier that fails; pandas' `None` and infinite values are not distinguished.
- TermMapper.Condition: `isdigit`/`isnumeric` are modelled for ASCII digits only.
- TermMapper.ClearZeros follows line 130 of reverse_table_upset.py as written, as the analysis does: a saturated term is never reported (AdvancedEnrichment.AdvancedNeverSaturated), and its column would stay empty (TermMapper.SaturatedTermEmpty).
- TermMapper: once a chain search leaves `matches` unset, the mapping does not model how the `matches` of an earlier term carries over beyond the last list found.
- The statistical tests, `multipletests` and the correction methods are oracle parameters; floating-point rounding (`round(x, 4)`) is not modelled.
- Enrichment.SortByP: pandas' default sort is not stable. The model sorts stably and claims only sortedness and permutation.
- Intersection.UpsetPivot: the materialisation of each bar's table is an oracle; duplicate column names and `fillna` on mixed dtypes are not modelled.
- Phylo.CreatePhyloTree: the dict-to-XML conversion and the SVG layout (`phylo_get_circular_tree_data`, `phylo_create_circular_phylogram`) are left out as rendering.
- `get_message`, `table_update_query_and_universe_output`, `table_create_table_statistics`, `vil_table`, `create_upset_figure`, `gen_table_demo` and `has_header` build display tables or read files, and are left out.
- `prepare_for_storing` and `character_exchange_df` only apply modelled functions column-wise, and are left out.
- Acyls.Melt: its contract gives only the number of rows; the rows themselves are stated by Acyls.MeltAt.
- UniqueNames.Counted: its contract gives only the length; the counters are stated by UniqueNames.CountedDistinct, UniqueNames.StripCounted and TermMapper.CountersRemoved.
- UniqueNames.StripCounters: its contract gives only a length bound; what it removes and keeps is stated by the Strip lemmas.
- TermMapper.Step: its contract states only the non-text failure; the branches are stated by the step members and lemmas it dispatches to.
- Columns.RenameColumns: its contract states only which names pass through unchanged and which can fail; the rewrites are stated by Columns.RenameTotal, Columns.RenameEthers and Columns.RenameAcyls.
- Phylo.Annotate: its contract states only the clade's name and shape; branch lengths, names and confidences are stated by Phylo.LipidomeTreeAnnotated and Phylo.DeepestAnnotated.
- Negative `filter_count` thresholds are not modelled (the count is a natural number).
- Correction.Fdr: for a non-empty list the source compares `p_vals != []`; for a numpy array of one p-value that comparison is an empty array, which is falsy, so the source gives `'N.D.'` where the model corrects the single value. The model follows the list reading: nothing to correct exactly when the list is empty.
- Correction.HypothesisCorrection: the same `pvals != []` comparison makes a single p-value give `False` in the source; the model corrects it.
- Enrichment.CorrectBlock: a block of one test gets its FDR and rejection from the correction; the source's one-element comparison gives `'N.D.'` and `False` instead.
- Intersection.KeptTerms: `sort_values` is an unstable quicksort, so which of several equally ranked columns survive the cut of 13 is not determined by the source; the model keeps them by a stable partition and promises only the count, the membership and the preference for columns holding a non-member.
- Regular expressions: `\d` is modelled as an ASCII digit and `$` as the very end of the text, not also before a final newline (LipidNames.OxygenSuffixOf, the digit tests of UniqueNames).
- Acyls.GetFADf: pandas stores a one-column frame into a column without error, so on a table without rows and with exactly one column the source does not raise; the model fails whenever an input column is missing.
- Tables.GroupKeys: groups are sorted by the model's value order (text, then numbers, then booleans); pandas raises TypeError on keys of mixed kinds instead.

## Findings

| source | as written | input that shows it | evidently intended | confidence | as-written member | corrected member |
|---|---|---|---|---|---|---|
| src/utils/common_functions.py:70 | copies the character at `p + 2` after `;`, which is the `O` only for a one-digit number | `PC 34:1;12O` gives `PC 34:1;212` | `;O12`, as the docstring's `;2O -> ;O2` | not executed | LipidNames.CharacterExchangeMultiDigit | LipidNames.CharacterExchangeIntended |
| src/utils/phylo_tree.py:249-259 | the `10` rule runs after the single digits are replaced, so it never matches | confidence `10` becomes `redblack` | the tenth category coloured `yellow` | not executed | Phylo.TenIsRedBlack | Phylo.IntendedTenIsYellow |
| src/utils/statistics_fisher.py:340-362 | the double-bond cells that are zero are cleared before the saturated bin compares them with zero (the same happens at reverse_table_upset.py:130) | a lipid with `FA1 #C` 16 and `FA1 #DB` 0 is never counted as saturated, so the saturated analysis reports nothing | clear a chain only when its carbon count is zero | not executed | AdvancedEnrichment.AdvancedNeverSaturated | AdvancedEnrichment.BinRowsMembers |
| src/index.py:2265-2285 | without `Acyls`, `Total #C` and `Total #DB`, the computed frame is replaced by `pd.concat([])` | within-subset parameters `['Total #O']` raise ValueError | return the computed frame | not executed | Dispatch.WithinAsWrittenDiscards | Dispatch.WithinPlanKeepsFrame |
| src/index.py:2690-2712 | `dfs_subset_to_concat` is never assigned in the branch without `Acyls` | hypergeometric, all three checklists set, parameters `['Total #C']`: UnboundLocalError | the same plan as the Fisher branch | not executed | Dispatch.HyperCombinedUnbound | Dispatch.WithinPlanSound |
| src/index.py:2668 | passes `param_checklist`, `Acyls` included, instead of `excluded_list` | hypergeometric, parameters `['Total #DB', 'Acyls']`: `Acyls` is analysed on the unmelted tables too | pass `excluded_list`, as the other cases | not executed | Dispatch.HyperCombinedMixesAcyls | Dispatch.WithinPlanSound |

The analyses and the statistics callback follow the code as written: the saturated bin
clears its own double bonds (AdvancedEnrichment.Binned), and the within-subset and
hypergeometric combined branches run the plans as written (Dispatch.Analyse,
Dispatch.ComputedFromPlans). The corrected definitions in the last column are kept
beside them as the reference for what was evidently intended.
