# Sigma-Stream core in Dafny

Sigma-Stream is a design-of-experiments (DOE) and Design-for-Six-Sigma
workbench. The user builds a list of factors and their levels. The
application generates a full-factorial design matrix, collects one measured
output per run, and estimates main effects from those outputs. It fits a
linear transfer function and propagates input variation through it with a
Monte Carlo simulation, which yields process-capability statistics. This
project models the computational core of that workbench and proves its
properties. The modelled parts are:

- **The engine** (`services/mathUtils.ts`). It covers the Cartesian product
  and the full-factorial design, the histogram of simulated outputs, the
  main effects and the dependence of their sort, the regression formula, and
  the simulation loop with its aggregate statistics.
- **The blog index** (`services/blogUtils.ts`). It turns the compiled
  article modules into a slug-keyed dictionary. The title comes from the
  first level-one heading, or from the slug when there is none.
- **The output views**:
  - the interaction plot's cell means and the default selection
    (`InteractionEffects`);
  - the run table of both output tabs: typing one output, pasting a column
    of outputs, the optimizer defaults, and the simulation inputs that the
    optimizer derives.
- **The factor editors**: adding, removing and renaming factors, editing,
  adding and removing levels, and generating the design. Both level-edit
  rules are modelled.
- **The tab bar**: which tab is highlighted for a path.

Module layout: `Wrappers` (Option), `Numbers` (host numbers, IEEE special
values, `Math.round`) and `Lists` in `numbers.dfy`, `Text` (trim, split,
line splitting, number-to-text), `Doe` (the shared records), `Sorting`,
`Design`, `Histogram`, `MainEffects`, `Regression`, `Simulation`, `Blog`,
`Interaction`, `RunTable` (shared by both output tabs), `OutputTab`,
`EmpiricalTab`, `FactorEditor`, `Navigation`.

Host numbers are modelled as mathematical reals. `None` stands for NaN,
`undefined` and `null`. The simulator's statistics use the `Ext` type
(−∞, finite, +∞, NaN). The following are parameters of the model:

- `parseFloat`;
- the formula evaluator, which returns `None` when it throws;
- the standard-normal draw;
- `Math.sqrt`;
- `toFixed(4)` and number-to-text;
- the clock.

Wherever a parameter's behaviour matters, the model states it as a
precondition.

## Model

| member | source | states |
|---|---|---|
| Numbers.Round | src/components/output/OutputTab.tsx:49 | `Math.round` lands within half a unit of its argument, and halves round up. |
| Numbers.Min | services/mathUtils.ts:65 | `Math.min` is NaN iff either side is NaN; otherwise it is one of the two and neither is below it. |
| Numbers.Sub | services/mathUtils.ts:62-64 | IEEE subtraction is NaN exactly for a NaN argument or ∞ − ∞ of one sign. |
| Lists.SeqMin | services/mathUtils.ts:74 | `Math.min(...data)` is an element that is at most every element. |
| Lists.SeqMax | services/mathUtils.ts:75 | `Math.max(...data)` is an element that is at least every element. |
| Text.Trim | services/blogUtils.ts:51 | `trim` removes exactly the white space at both ends, and the result neither starts nor ends with white space. |
| Text.TrimIdempotent | services/blogUtils.ts:51 | Trimming twice is the same as trimming once. |
| Text.BlankIffAllWhitespace | src/components/output/OutputTab.tsx:71 | A line is blank after `trim` iff all its characters are white space. |
| Text.IndexOf | services/blogUtils.ts:24 | `indexOf` finds an occurrence, and no occurrence starts earlier. |
| Text.JoinSplit | services/blogUtils.ts:24 | `split` then `join` with the same separator gives back the original string. |
| Text.SplitPiecesFree | services/blogUtils.ts:24 | No piece of a split contains the separator. |
| Text.SplitLines | src/components/output/OutputTab.tsx:71 | `split(/\r?\n/)` splits at every line feed and drops one carriage return before it. |
| Text.NatToStringRoundTrip | src/components/input/InputTab.tsx:53 | The decimal text of a count reads back as the same count. |
| Doe.Setting | services/mathUtils.ts:181 | `r.factors[name]` is defined iff the run has that name, and then it is the stored setting. |
| Doe.ValidRuns | services/mathUtils.ts:167 | A run is kept iff it has an output, no run is added, and the result is no longer than the input. |
| Doe.ValidRunsConcat | services/mathUtils.ts:167 | The filter distributes over concatenation and keeps a single run iff it has an output, so the kept runs stay in their order, with their multiplicities. |
| Doe.ValidRunsIdempotent | services/mathUtils.ts:203-207 | Filtering the valid runs again, as the nested `calculateEffects` call does, changes nothing. |
| Doe.RunsAt | services/mathUtils.ts:181-182 | The runs at a level are exactly the runs whose setting of the factor is that level. |
| Doe.MeanYConstant | services/mathUtils.ts:185-186 | The mean output of runs that all have output `c` is `c`. |
| Sorting.SortAsc | services/mathUtils.ts:177 | The ascending level sort returns an ascending permutation of the levels. |
| Sorting.SortAscEnds | services/mathUtils.ts:177-179 | After the sort, the first level is the least level and the last is the greatest. |
| Sorting.SortByEffect | services/mathUtils.ts:199 | The effect sort returns a permutation of the effects in non-increasing order. |
| Sorting.SortByEffectStable | services/mathUtils.ts:199 | The effect sort is stable: entries with equal effect keep their relative order. |
| Design.ProductLength | services/mathUtils.ts:116-131 | The Cartesian product has as many combinations as the product of the list lengths. |
| Design.ProductIndex | services/mathUtils.ts:119-127 | Combination `j·M + k` pairs level `j` of the first list with combination `k` of the rest, so the last factor varies fastest. |
| Design.ProductMember | services/mathUtils.ts:116-131 | A sequence is a combination iff it picks, at every position, one of that position's levels (sound and complete). |
| Design.Helper | services/mathUtils.ts:119-128 | The recursive helper appends the extensions of `arr` by every combination of the remaining lists. |
| Design.Cartesian | services/mathUtils.ts:116-131 | `cartesian` returns exactly the Cartesian product. |
| Design.Settings | services/mathUtils.ts:144-147 | The run's setting map has exactly the factor names as keys. |
| Design.SettingsLookup | services/mathUtils.ts:145-146 | With distinct names, each factor maps to its own entry of the combination. |
| Design.GenerateFullFactorialDesign | services/mathUtils.ts:134-157 | No factors give no runs. Otherwise there is one run per combination, numbered from 1, with no output yet. |
| Design.RunsUseDeclaredLevels | services/mathUtils.ts:143-154 | Every run sets every factor to one of that factor's own levels. |
| Design.DesignComplete | services/mathUtils.ts:134-157 | Every combination of levels occurs as some run. |
| Design.PressureTemperatureExample | services/mathUtils.ts:134-157 | Pressure {40, 60} × Temp {200, 250} gives the four runs in order, with Temp varying fastest. |
| Histogram.BinSize | services/mathUtils.ts:93 | The bin width is positive. `bins` widths span the range, and the width is 1 when all values are equal. |
| Histogram.BinIndex | services/mathUtils.ts:106-108 | The clamped bin index is always a valid bin. |
| Histogram.Counts | services/mathUtils.ts:105-110 | One count per bin. |
| Histogram.CountsInBin | services/mathUtils.ts:105-110 | Bin `b` counts exactly the positions of the values whose bin index is `b`. |
| Histogram.GreatestInLastBin | services/mathUtils.ts:93-108 | When the range is not empty, the greatest value falls in the last bin: the clamp sends the top edge to bin `bins - 1`. |
| Histogram.CreateHistogramData | services/mathUtils.ts:87-113 | The loop computes the histogram specification, including the empty result and the no-bins failure. |
| Histogram.Histogram | services/mathUtils.ts:87-113 | No data gives no bins; data with zero bins is the error case; otherwise there are exactly `bins` bins. |
| Histogram.HistogramShape | services/mathUtils.ts:95-103 | The bins are contiguous from the least value, and with any spread the last one ends at the greatest value. |
| Histogram.HistogramTotal | services/mathUtils.ts:105-110 | The counts add up to the number of values. |
| Histogram.HistogramBinCount | services/mathUtils.ts:105-110 | Each value is counted exactly once: the count of bin `b` is the number of values whose bin index from the data minimum and the bin width is `b`. |
| Histogram.ValueInItsBin | services/mathUtils.ts:105-110 | Each value lies within the edges of the bin it is counted in. Only the greatest value can sit on an upper edge. |
| MainEffects.Span | services/mathUtils.ts:189 | The divisor `maxLvl - minLvl \|\| 1` is never 0. It is the span when that is non-zero and defined, else 1. |
| MainEffects.FactorEffect | services/mathUtils.ts:177-196 | A reported entry carries the factor's name and a non-negative effect. |
| MainEffects.Effects | services/mathUtils.ts:166-200 | At most one entry per factor; no entries without a run that has an output. |
| MainEffects.FactorEntry | services/mathUtils.ts:177-196 | The per-factor body returns the factor's entry and its levels sorted. |
| MainEffects.CalculateEffects | services/mathUtils.ts:166-200 | `calculateEffects` returns the effects specification, and the factors as the in-place sort leaves them. |
| MainEffects.RawEffectsNonNegative | services/mathUtils.ts:193 | No reported effect is negative. |
| MainEffects.RawEffectsMember | services/mathUtils.ts:172-197 | An entry is reported iff it is the entry of one of the factors. |
| MainEffects.EffectsSorted | services/mathUtils.ts:199 | The result is in non-increasing order and is a permutation of the factor entries. No entry is negative, and equal effects keep factor order. |
| MainEffects.ReportedIff | services/mathUtils.ts:181-184 | A factor is reported iff a valid run sits at its lowest level and a valid run sits at its highest. Those levels are the least and greatest. |
| MainEffects.LinearResponse | services/mathUtils.ts:184-195 | For a linear response `c + b·x`, the slope is `b` and the effect is `\|b\|` times the level span. |
| MainEffects.EffectIsSlopeTimesSpan | services/mathUtils.ts:185-195 | A reported entry carries the factor's name, its span is positive, and its effect is `\|slope\|` times the span. The effect is 0 iff the slope is 0 iff the mean outputs at the lowest and highest level are equal. |
| MainEffects.FactorsAfterSorted | services/mathUtils.ts:177 | After the call, every factor keeps its id and name, and its levels are an ascending permutation of the old ones. |
| MainEffects.EffectsAfterSortUnchanged | services/mathUtils.ts:177 | The in-place level sort does not change what a later call computes. |
| MainEffects.SortedEnds | services/mathUtils.ts:177 | After the call, a factor's levels are its own levels sorted: same count, the first is the least level and the last the greatest. |
| MainEffects.SortAscIdempotent | services/mathUtils.ts:177 | Sorting sorted levels again changes nothing. |
| Regression.SumSetting | services/mathUtils.ts:221 | The sum of settings is NaN iff some run lacks the factor. |
| Regression.FindEffect | services/mathUtils.ts:219 | `find` returns an entry of that name, and none exists when it returns nothing. |
| Regression.Weighted | services/mathUtils.ts:222 | `sumSlopeTimesMeanX` is defined iff every term's mean setting is. |
| Regression.AccumulateTerms | services/mathUtils.ts:215-225 | The loop's sum and rendered parts are those of the term list. |
| Regression.GenerateRegressionFormula | services/mathUtils.ts:202-230 | The method returns the as-written formula, and the factors as the inner `calculateEffects` leaves them. |
| Regression.Fit | services/mathUtils.ts:202-230 | A model exists exactly when some run has an output; at most one term per factor; the intercept is a number exactly when every term's mean setting is. |
| Regression.RegressionFormula | services/mathUtils.ts:202-230 | The empty text without a run that has an output; otherwise a text of at least three characters. |
| Regression.FormulaEmptyIff | services/mathUtils.ts:203-204 | The formula is empty iff no run has an output, under both renderings. |
| Regression.FindOwnEffect | services/mathUtils.ts:219 | With distinct names, the entry `find` picks is the factor's own main effect. |
| Regression.TermsAreReference | services/mathUtils.ts:218-225 | The terms are exactly one per reported factor, in factor order, each with its own slope. |
| Regression.PassesThroughMeans | services/mathUtils.ts:213-227 | The fitted plane passes through the centroid. The intercept is NaN iff some term's mean setting is. |
| Regression.MeanSettingNaN | services/mathUtils.ts:221 | A mean setting is NaN iff some valid run lacks the factor. |
| Regression.DanglingPlus | services/mathUtils.ts:229 | As written: valid runs without any term give a formula that ends in `" + "`. |
| Regression.DanglingPlusExample | services/mathUtils.ts:229 | As written: one factor whose high level has no output gives `"5.0000 + "`. |
| Regression.RenderFixed | services/mathUtils.ts:229 | Corrected: with no terms the formula is the intercept alone. With terms it is the source's text. |
| Regression.FixedExample | services/mathUtils.ts:229 | Corrected, on the same input: the formula is `"5.0000"`. |
| Simulation.Inputs | services/mathUtils.ts:41-45 | One iteration's inputs have exactly the variable names as keys. |
| Simulation.InputsLastWins | services/mathUtils.ts:43-45 | A name holds the draw of the last variable carrying it. |
| Simulation.DrawInputs | services/mathUtils.ts:41-45 | The draw loop builds the inputs map of the specification. |
| Simulation.Iterations | services/mathUtils.ts:40 | The loop runs `iterations` times, or not at all when that is not positive. |
| Simulation.CountDefects | services/mathUtils.ts:50-52 | There are never more defects than outputs. |
| Simulation.Defective | services/mathUtils.ts:50-52 | An output is a defect exactly when it lies below a finite lower limit or above a finite upper limit; an infinite limit never rejects. |
| Simulation.RunSimulation | services/mathUtils.ts:33-85 | The simulation loop computes the specification, failing iff the evaluator throws. |
| Simulation.Simulate | services/mathUtils.ts:33-85 | Zero iterations give no outputs and no defects; every result carries the given timestamp and the defect count of its own outputs. |
| Simulation.Aggregate | services/mathUtils.ts:56-84 | The result keeps the outputs, defect count and timestamp; the mean is a number exactly when there is at least one output. |
| Simulation.Variance | services/mathUtils.ts:58 | The sample variance of two or more outputs is a non-negative number. |
| Simulation.Dpmo | services/mathUtils.ts:68 | With at least one iteration the defects per million are a non-negative number; zero defects in zero iterations give NaN. |
| Simulation.OutputsCharacterised | services/mathUtils.ts:40-53 | The outputs fail iff some iteration throws. Otherwise output `i` is the evaluator's value in iteration `i`. |
| Simulation.SimulateShape | services/mathUtils.ts:33-85 | A completed run records one output per iteration, at most that many defects, and the clock's timestamp. |
| Simulation.NoDefectsIff | services/mathUtils.ts:50-52 | No defect is counted iff every output is within the limits. |
| Simulation.AllDefectsIff | services/mathUtils.ts:50-52 | Every output is counted iff every output is outside the limits. |
| Simulation.UnboundedNoDefects | services/mathUtils.ts:50 | With limits −∞ and +∞ nothing is a defect. |
| Simulation.DpmoBounds | services/mathUtils.ts:68 | DPMO lies between 0 and 1,000,000, and is 0 iff there is no defect. |
| Simulation.NoIterations | services/mathUtils.ts:56-68 | With no iterations: no outputs, no defects, +∞ minimum, −∞ maximum, and NaN mean, DPMO, Cpu, Cpl, Cpk and sigma level. |
| Simulation.SingleOutputNaN | services/mathUtils.ts:58-67 | One output gives variance 0/0, so the standard deviation and every capability index are NaN. |
| Simulation.TwoOutputsVariance | services/mathUtils.ts:58 | With the n − 1 denominator, two outputs have variance half their squared difference. |
| Simulation.MeanBetweenExtremes | services/mathUtils.ts:57-75 | The mean lies between the minimum and the maximum. |
| Simulation.CpkAtMostCp | services/mathUtils.ts:62-67 | Cpk ≤ Cp, with equality iff the mean is centred between the limits, and the sigma level is 3·Cpk. |
| Simulation.UnboundedCapability | services/mathUtils.ts:62-67 | With no limits and a positive spread, every capability index is +∞. |
| Simulation.ZeroSpreadInputs | services/mathUtils.ts:4-10 | A zero-spread variable draws its mean, whatever the random source gives. |
| Simulation.DegenerateScenario | services/mathUtils.ts:33-85 | A zero-spread scenario: formula `x` with `x` fixed at 10 and limits 5 to 15 gives 100 outputs of 10, no defect, DPMO 0, and Cp = Cpk = +∞. |
| Simulation.SpreadScenario | tests/mathUtils.test.ts:76-92 | Formula `x` with `x` at mean 10 and standard deviation 5, limits 5 to 15: 100 outputs, and when some draw lies beyond one standard deviation, at least one defect and a positive DPMO. |
| Blog.LastSegment | services/blogUtils.ts:24 | `split('/').pop()` is free of `/`. |
| Blog.Slug | services/blogUtils.ts:24 | The last path segment, with `.mdx` removed when it occurs there (four characters shorter). |
| Blog.SlugHasNoSlash | services/blogUtils.ts:24 | A slug never contains `/`. |
| Blog.SlugOfPost | services/blogUtils.ts:24 | The slug of `<dir>/<name>.mdx` is `name`. |
| Blog.WhitespaceEnd | services/blogUtils.ts:50 | `\s+` consumes a maximal run of white space. |
| Blog.Backtrack | services/blogUtils.ts:50 | The greedy `\s+` backs off to the last position where `.+` can start. |
| Blog.MatchAt | services/blogUtils.ts:50 | At a position, the match picks the greatest possible group start. |
| Blog.FirstMatch | services/blogUtils.ts:50 | The match found is the leftmost one. |
| Blog.LineEnd | services/blogUtils.ts:50 | `.+$` runs to the end of the line. |
| Blog.Heading | services/blogUtils.ts:50 | The heading pattern matches iff some position admits a match. |
| Blog.HeadingIsOneLine | services/blogUtils.ts:50-51 | The captured heading is non-empty and free of line terminators. |
| Blog.Title | services/blogUtils.ts:50-51 | Without a heading the title is the slug; with one it is no longer than the heading line and has no white space at either end. |
| Blog.RawContent | services/blogUtils.ts:39-47 | A path without a raw module has empty raw content. |
| Blog.ProcessArticles | services/blogUtils.ts:16-62 | The loop builds the index specification. |
| Blog.Articles | services/blogUtils.ts:16-62 | Every article sits under its own slug. |
| Blog.PresentIffContributed | services/blogUtils.ts:29-59 | A slug is present iff some path with a component yields that non-empty slug. |
| Blog.LastContributorWins | services/blogUtils.ts:53-59 | A slug holds the article of the last path yielding it. |
| Blog.KeysAreSlugs | services/blogUtils.ts:53-59 | Every article carries its key as slug, and keys are non-empty and free of `/`. |
| Blog.AtMostOneArticlePerPath | services/blogUtils.ts:22-60 | There are never more articles than paths. |
| Blog.SkipsMissingComponent | services/blogUtils.ts:32-35 | A path with no default component adds nothing. |
| Blog.TitleOfHeadingLine | services/blogUtils.ts:50-51 | A text opening with `# title` is titled by the trimmed title line. |
| Blog.NoHashMeansSlugTitle | services/blogUtils.ts:51 | A text without `#` is titled by its slug. |
| Blog.HeadingTitleExample | tests/blogUtils.test.ts:9-23 | `./posts/test.mdx` with heading "My Great Post" is indexed under `test` with that title. |
| Blog.SlugTitleExample | tests/blogUtils.test.ts:25-36 | A post without a heading is titled `no-title`, its slug. |
| Blog.RawTextExample | tests/blogUtils.test.ts:38-50 | A raw module that is the string itself is read directly. |
| Blog.MissingComponentExample | tests/blogUtils.test.ts:52-63 | A module without a default export yields no article. |
| Interaction.FindFactor | src/components/output/InteractionEffects.tsx:31-32 | `find` succeeds iff some factor has the name, and returns such a factor. |
| Interaction.Cell | src/components/output/InteractionEffects.tsx:44-47 | A cell holds exactly the valid runs at both levels. |
| Interaction.PlotFor | src/components/output/InteractionEffects.tsx:27-66 | A plot names its two factors and has two points, one per extreme level of the first factor; each point has a series for both extreme levels of the second. |
| Interaction.InteractionPlot | src/components/output/InteractionEffects.tsx:27-66 | A plot exists only for a non-empty selection, and plots the two factors the selection names. |
| Interaction.PlotIff | src/components/output/InteractionEffects.tsx:27-66 | There is a plot iff there is a selection, both names match factors, and all four corners hold a run with an output. |
| Interaction.CellNonEmpty | src/components/output/InteractionEffects.tsx:49 | A cell is non-empty iff some valid run sits at that corner. |
| Interaction.PlotLevels | src/components/output/InteractionEffects.tsx:36-42 | The two points sit at the first factor's least and greatest level. |
| Interaction.AdditiveMeansParallel | src/components/output/InteractionEffects.tsx:51-65 | If the response is additive in the two factors, the two lines are parallel. |
| Interaction.CornerMean | src/components/output/InteractionEffects.tsx:51-54 | Under an additive response, a corner's mean is the sum of the two parts. |
| Interaction.DefaultSelection | src/components/output/InteractionEffects.tsx:19-23 | Without pairs the selection is kept; otherwise it is the first pair's names joined by ` * `. |
| Interaction.DefaultSelectionRoundTrip | src/components/output/InteractionEffects.tsx:19-23 | The default selection splits back into the first pair's two names. |
| RunTable.ParseFloat | src/components/output/OutputTab.tsx:82 | Blank text parses to NaN. |
| RunTable.FindIndex | src/components/output/OutputTab.tsx:75 | `findIndex` returns a run with the id, with no earlier one; `-1` means no run has it. |
| RunTable.WriteValues | src/components/output/OutputTab.tsx:78-87 | The copy-and-overwrite loop produces the written table. |
| RunTable.WrittenKeepsRuns | src/components/output/OutputTab.tsx:78-87 | Writing keeps every run's id and settings, clears no output, and never shrinks the valid runs. |
| RunTable.WrittenAt | src/components/output/OutputTab.tsx:79-86 | Run `start + k` takes value `k` when it is a number, and is left as it was otherwise. |
| RunTable.WrittenIdempotent | src/components/output/OutputTab.tsx:78-87 | Writing the same column twice is writing it once. |
| RunTable.WrittenDropsOverflow | src/components/output/OutputTab.tsx:81 | Values past the last run are discarded. |
| RunTable.YChange | src/components/output/OutputTab.tsx:91-94 | Typing an output keeps the number of runs. |
| RunTable.YChangeOnlyThatRun | src/components/output/OutputTab.tsx:91-94 | Typing changes only the output of the runs with that id, to null for empty or non-numeric text. |
| RunTable.YChangeClears | src/components/output/OutputTab.tsx:91-94 | Clearing takes the run out of the valid runs, and typing the same text twice is typing it once. |
| RunTable.SpecLimit | src/components/output/OutputTab.tsx:108-109 | An empty limit is −∞ (lower) or +∞ (upper). Typed text is never infinite. |
| RunTable.Mid | src/components/output/OutputTab.tsx:48 | The midpoint is NaN iff there are no levels; otherwise it lies between the first and last level. |
| RunTable.NoLimitNoDefect | src/components/output/OutputTab.tsx:108-109 | An empty or unparseable limit flags no output on its side. |
| OutputTab.NonBlank | src/components/output/OutputTab.tsx:71 | A line is kept iff it is non-blank, and nothing is added. |
| OutputTab.NonBlankConcat | src/components/output/OutputTab.tsx:71 | The filter distributes over concatenation, so the kept lines stay in their order, with their multiplicities. |
| OutputTab.PasteValues | src/components/output/OutputTab.tsx:71-82 | There is one value per non-blank line. |
| OutputTab.Pasted | src/components/output/OutputTab.tsx:67-89 | A paste keeps the number of runs, and a paste at an unknown run changes nothing. |
| OutputTab.HandlePaste | src/components/output/OutputTab.tsx:67-89 | The paste handler returns the pasted table. |
| OutputTab.PasteNoOp | src/components/output/OutputTab.tsx:73-76 | A paste into an unknown run, or of blank lines only, changes nothing. |
| OutputTab.AllBlank | src/components/output/OutputTab.tsx:71-73 | Only blank lines leave no values. |
| OutputTab.PasteKeepsRuns | src/components/output/OutputTab.tsx:78-88 | A paste keeps ids and settings and clears no output. |
| OutputTab.PasteWindow | src/components/output/OutputTab.tsx:79-86 | The `k`-th non-blank line lands in the `k`-th run from the start. |
| OutputTab.InitialiseDefaults | src/components/output/OutputTab.tsx:44-53 | Defaults are produced iff there is a formula, no inputs yet and data. They are then the defaults of the factors as `calculateEffects` leaves them, with sorted levels. |
| OutputTab.DefaultInput | src/components/output/OutputTab.tsx:46-50 | The target is the factor's midpoint; the limits exist exactly when the midpoint does, and both are whole numbers. |
| OutputTab.FillDefaults | src/components/output/OutputTab.tsx:46-50 | The loop over the factors builds the defaults specification. |
| OutputTab.SortedMid | src/components/output/OutputTab.tsx:48 | On sorted levels, the midpoint is the mean of the least and greatest level. |
| OutputTab.Defaults | src/components/output/OutputTab.tsx:46-50 | The defaults have exactly the factor names as keys. |
| OutputTab.DefaultsLastWins | src/components/output/OutputTab.tsx:47-50 | A name holds the default of the last factor carrying it. |
| OutputTab.DefaultsBracketTarget | src/components/output/OutputTab.tsx:48-49 | The rounded limits are within half a unit of 90% and 110% of the midpoint, and they bracket it when \|mid\| ≥ 5. |
| OutputTab.Limit | src/components/output/OutputTab.tsx:99-100 | `?.limit \|\| 0`: a missing entry, NaN and 0 all read as 0. |
| OutputTab.Variable | src/components/output/OutputTab.tsx:98-106 | The variable's mean ∓ 3σ are exactly the two limits. |
| OutputTab.VariableUnique | src/components/output/OutputTab.tsx:103-104 | Only that mean and σ put the limits at 3σ. |
| OutputTab.DefaultVariable | src/components/output/OutputTab.tsx:44-53 | From the defaults, the mean is within half a unit of the midpoint; no levels give a point mass at 0. |
| OutputTab.OptimizerRun | src/components/output/OutputTab.tsx:96-114 | Nothing is run without a formula. Otherwise there is one variable per factor and the limits as typed, with 5000 iterations. |
| EmpiricalTab.PasteLines | components/TabEmpirical.tsx:53-54 | The lines are the trimmed lines of the trimmed text. None is dropped, and there is always at least one. |
| EmpiricalTab.PasteValues | components/TabEmpirical.tsx:62-69 | There is one value per line, and blank lines are NaN. |
| EmpiricalTab.Pasted | components/TabEmpirical.tsx:51-73 | A paste keeps the number of runs, and a paste at an unknown run changes nothing. |
| EmpiricalTab.HandlePaste | components/TabEmpirical.tsx:51-73 | The paste handler returns the pasted table. |
| EmpiricalTab.PasteKeepsRuns | components/TabEmpirical.tsx:58-70 | An unknown run makes the paste a no-op. A paste keeps ids and settings and clears no output. |
| EmpiricalTab.PasteWindow | components/TabEmpirical.tsx:62-69 | Line `k` lands in run `start + k`, and a blank line leaves its run unchanged. |
| EmpiricalTab.BlankLineExample | components/TabEmpirical.tsx:53-54 | A blank middle line skips a run here, but not in the output tab: `a⏎⏎b` fills runs 0 and 2 here and runs 0 and 1 there. |
| EmpiricalTab.InitializeOptimizer | components/TabEmpirical.tsx:134-142 | Each factor gets target = midpoint and tolerance = a tenth of it, and the last factor of a name wins. |
| EmpiricalTab.InitialiseDefaults | components/TabEmpirical.tsx:145-149 | Initialises iff there is a formula, no inputs yet and data, and then from the factors as `calculateEffects` leaves them, with sorted levels. |
| EmpiricalTab.InitialInput | components/TabEmpirical.tsx:137-139 | The target is the factor's midpoint, and the tolerance, present exactly when the midpoint is, is a tenth of it. |
| EmpiricalTab.Initials | components/TabEmpirical.tsx:135-140 | The initial entries have exactly the factor names as keys. |
| EmpiricalTab.InitialsLastWins | components/TabEmpirical.tsx:136-139 | A name holds the entry of the last factor carrying it. |
| EmpiricalTab.Variable | components/TabEmpirical.tsx:155-165 | The mean is the target and 3σ is the tolerance; NaN settings give no variable. |
| EmpiricalTab.UnsetVariable | components/TabEmpirical.tsx:156 | A factor without an entry becomes a point mass at 0. |
| EmpiricalTab.Settings | components/TabEmpirical.tsx:156 | A factor with an entry gets that entry; one without gets target 0 and tolerance 0. |
| EmpiricalTab.DefaultVariable | components/TabEmpirical.tsx:134-165 | From the defaults, the mean is the midpoint and mean ∓ 3σ are 90% and 110% of it. The output tab's defaults are those values rounded. |
| EmpiricalTab.OptimizerRun | components/TabEmpirical.tsx:152-180 | Nothing is run without a formula. Otherwise there is one variable per factor and the limits as typed, with 5000 iterations. |
| FactorEditor.NewFactor | src/components/input/InputTab.tsx:51-54 | A new factor has levels 0 and 10. |
| FactorEditor.AddFactor | src/components/input/InputTab.tsx:51-56 | Adding appends `Factor <n+1>` after the unchanged factors and clears the generated flag. |
| FactorEditor.Without | src/components/input/InputTab.tsx:59 | A factor is kept iff its id differs, and nothing is added. |
| FactorEditor.WithoutConcat | src/components/input/InputTab.tsx:59 | The filter distributes over concatenation and keeps a single factor iff its id differs, so order and multiplicities are kept. |
| FactorEditor.RemoveFactor | src/components/input/InputTab.tsx:58-61 | Removing leaves the factors with a different id and no other. |
| FactorEditor.RemoveFactorKeepsOrder | src/components/input/InputTab.tsx:58-61 | Removing from a split list removes from each part and keeps the parts in order. |
| FactorEditor.WithoutKeeps | src/components/input/InputTab.tsx:59 | Removing an absent id leaves the list as it is, keeping its order. |
| FactorEditor.RemoveUndoesAdd | src/components/input/InputTab.tsx:51-61 | Removing a factor just added under a fresh id restores the list. |
| FactorEditor.RemoveIdempotent | src/components/input/InputTab.tsx:59 | Removing twice is removing once. |
| FactorEditor.Rename | src/components/input/InputTab.tsx:63-66 | Only the factors with the id change, and only in name. |
| FactorEditor.RenameTwice | src/components/input/InputTab.tsx:63-66 | The last rename wins. |
| FactorEditor.WriteLevel | src/components/input/InputTab.tsx:71-75 | An array write sets that index, keeps the others, and pads with holes past the end. |
| FactorEditor.WriteFactorLevel | src/components/input/InputTab.tsx:69-78 | The write applies to the factors with the id only. |
| FactorEditor.UpdateLevel | src/components/input/InputTab.tsx:68-80 | Editing a level clears the generated flag, keeps every factor's id and name, and leaves factors with another id unchanged. |
| FactorEditor.UpdateLevelBackground | components/TabBackground.tsx:38-56 | The same frame as `UpdateLevel` under the background tab's rule. |
| FactorEditor.UpdateLevelCases | src/components/input/InputTab.tsx:68-80 | Input tab: empty text writes NaN, a number is written, and other text writes nothing. |
| FactorEditor.UpdateLevelBackgroundCases | components/TabBackground.tsx:38-56 | Background tab: empty text writes nothing; any other text is written, NaN included. |
| FactorEditor.LevelRulesDiffer | components/TabBackground.tsx:46-51 | The two rules are opposite on empty and on non-numeric text, and agree on numbers. |
| FactorEditor.AddLevel | src/components/input/InputTab.tsx:82-85 | A 0 level is appended to the factors with the id while they have fewer than 4 levels. |
| FactorEditor.RemoveLevel | src/components/input/InputTab.tsx:87-97 | The last level of the factors with the id is dropped while they have more than 2. |
| FactorEditor.FactorEditsKeepLevelCounts | src/components/input/InputTab.tsx:51-66 | Adding, removing and renaming factors keep every level count between 2 and 4. |
| FactorEditor.LevelEditsKeepLevelCounts | src/components/input/InputTab.tsx:82-97 | Adding and removing levels keep every level count between 2 and 4. |
| FactorEditor.UpdateKeepsLevelCounts | src/components/input/InputTab.tsx:68-80 | Editing an existing level keeps the level count. |
| FactorEditor.WritePastEnd | src/components/input/InputTab.tsx:75 | A write past the end leaves holes, and generation drops them. |
| FactorEditor.RemoveLevelUndoesAdd | src/components/input/InputTab.tsx:82-97 | Adding a level and removing one restores the factor when it had 2 or 3 levels. |
| FactorEditor.Numeric | src/components/input/InputTab.tsx:100 | The filter keeps exactly the numeric levels. |
| FactorEditor.Generate | src/components/input/InputTab.tsx:99-103 | Generating sets the flag and passes each factor on with its numeric levels, in their order. |
| FactorEditor.NumericKeeps | src/components/input/InputTab.tsx:100 | Without NaN levels, cleaning changes nothing. |
| FactorEditor.NumericOfNumeric | src/components/input/InputTab.tsx:100 | Cleaning twice is cleaning once. |
| FactorEditor.PreviewCount | src/components/input/InputTab.tsx:251 | The previewed run count is zero exactly when some factor has no levels. |
| FactorEditor.PreviewMatchesDesign | src/components/input/InputTab.tsx:251 | The preview count equals the size of the generated design when there are factors and no NaN levels. |
| Navigation.Tabs | src/components/layout/Navigation.tsx:8-14 | Five tabs. |
| Navigation.ActiveIndex | src/components/layout/Navigation.tsx:17-25 | The highlighted index is one of the tabs. |
| Navigation.ActiveIndexFor | src/components/layout/Navigation.tsx:17-25 | Tab 0 is chosen iff the path is `/` or `/inputs` or matches no prefix. Otherwise the chosen prefix is the first that matches. |
| Navigation.ExactlyOneHighlighted | src/components/layout/Navigation.tsx:53-60 | Exactly one tab is highlighted for any path. |
| Navigation.PrefixesDisjoint | src/components/layout/Navigation.tsx:8-14 | No tab path starts with another tab's path. |
| Navigation.PagesUnderTabHighlightTab | src/components/layout/Navigation.tsx:17-25 | Every page under a tab's own path highlights that tab. |
| Navigation.OutputPageHighlightsInput | src/router.tsx:26-27 | As written: the routed page `/output` highlights the Input tab, not the tab titled Output. |
| Navigation.TabsFixed | src/router.tsx:26-27 | Corrected: the Output tab points at the routed `/output`; ids, titles and the other tabs are unchanged. |
| Navigation.FixedHighlightsRoutes | tests/Navigation.test.tsx:42-47 | Corrected (output tab at `/output`): `/` and `/inputs` highlight Input, and every page under a tab's path highlights that tab. |

## Left out

- The formula evaluator (`evaluateFormula`): it compiles text with `new Function`, so it is a parameter that returns `None` where the source throws.
- Box–Muller (`generateNormalRandom`): `Math.random` is replaced by the parameter `draw(i, j)`, the standard normal draw. The statistical tests on the random source are not modelled.
- `Math.sqrt`, `toFixed`, number-to-text, `Date.now` and `parseFloat` are parameters. Only `parseFloat`'s NaN for blank text is stated.
- Floating point: numbers are exact reals. Rounding error, signed zero, overflow to infinity and non-finite formula outputs are not modelled. `parseFloat("Infinity")` is not distinguished from other numbers.
- Simulation.RunSimulation: fractional iteration counts are not modelled (the count is an integer).
- Key order of `for … in` over the modules and of `Object.keys` is taken as the order of the entries given.
- MainEffects.CalculateEffects: the in-place sort of each factor's levels is modelled as a returned factor list (`FactorsAfter`), not as aliasing of the caller's arrays.
- Interaction: `calculateInteractionEffects` and `formatUtils` in src/services are not part of this model. The list of interaction pairs is taken as given.
- Interaction.PlotIff: a selection with a single name (no `" * "`) has the second name `undefined`, and the model gives no plot.
- EmpiricalTab.Variable: a NaN target or tolerance gives no variable, where the source passes NaN to the simulator.
- EmpiricalTab: the `values.length === 0` guard in `handlePaste` is unreachable (a split always yields one piece). The statistics summary of that tab is not modelled.
- OutputTab.OptimizerRun and EmpiricalTab.OptimizerRun give the simulator's inputs rather than composing the simulator run.
- Histogram.CreateHistogramData: the `bins = 20` default argument is not modelled (the caller passes the count), nor are negative or fractional bin counts.
- Blog.ProcessArticles: the `console.warn` for a path without a component is console output and is not modelled; the path is skipped as in the source.
- FactorEditor: a negative `levelIndex` is not modelled (the index is a natural number). The new factor's id comes from the clock and is a parameter.
- FactorEditor: `components/input/InputTab.tsx` (lines 17-69) is identical to `src/components/input/InputTab.tsx`. `components/TabBackground.tsx` differs only in `updateFactorLevel`, modelled as `UpdateLevelBackground`. One model covers all three editors.
- User interface rendering, PDF export, the Gemini analysis, authentication, snapshots, the history store and the demo timers are not modelled.

## Findings

| source | as written | input that shows it | evidently intended | confidence | as-written member | corrected member |
|---|---|---|---|---|---|---|
| services/mathUtils.ts:229 | the formula is `${intercept} + ${parts.join(' + ')}`, so with no terms it ends in a dangling `" + "` that the evaluator cannot parse | factor A levels [0, 10]; runs {A=0, y=5} and {A=10, y=null} give `"5.0000 + "` | the intercept alone when no factor has an effect | not executed | Regression.DanglingPlusExample | Regression.FixedExample |
| src/components/layout/Navigation.tsx:10 | the Output tab's path and prefix are `/results`, but the router serves the output page at `/output` | path `/output` highlights tab 0 (Input) | `/output` highlights the Output tab, as tests/Navigation.test.tsx:42-47 expects | not executed | Navigation.OutputPageHighlightsInput | Navigation.FixedHighlightsRoutes |
