# Hotel controls, verified

This project models the parts of the hotel-controls engine that turn incomplete evidence about a hotel into
PASS, FAIL, UNKNOWN or EXCLUDED, keep what follows from a FAIL in a findings queue, and compile the restricted
English the rules are written in. Every row of the table is a lemma or a contract, proved for everything it
quantifies over: all inputs, all runs or all interleavings. The few rows that give one concrete input say so, and
stand beside the exact condition they are an instance of.

Six cores, each in its own modules:

1. **The evaluator over partial evidence** (`Values`, `Rules`, `Bundles`, `Predicates`, `Operators`, `Judgements`,
   `Records`, `Collections`, `World`, `Population`, `PopulationTheorems`, `PopulationFinality`). A value is known or unknown; evidence is
   refined when unknowns become known. Each operator and each outcome has its exact condition over the fields
   (`Operators`, `Judgements`). Conclusive verdicts survive refinement, a group's PASS exactly when it stands
   with every unread key counted in, and a PASS over a collection fetched for one window of dates speaks for the
   records nobody fetched.
2. **The findings queue and the sent marker** (`Runs`, `Queue`, `Recordings`, `QueueHistory`, `Codec`,
   `Store`, `StoreTheorems`, `Tenancy`, `Dispatch`). The tables are fields of a class, each write a method proved against a
   function of the tables; histories are sequences of writes, and dispatchers and people interleave at every call.
3. **The compiler** (`Tokens`, `Keywords`, `Grammar`, `WellFormed`, `Printer`, `Parser`, `Checks`, `Compiler`,
   `Absences`, `Spellings`, `Readings`, `Rewordings`, `Finish`).
   `Grammar` says what the parser means, `Parser` is the cursor parser proved to do that, `Printer` writes rules
   down, and parsing undoes printing. `Spellings` lists every way a sentence can be said, as syntax trees with their
   meanings; `Readings` proves that the parser reads exactly those, and `Rewordings` which sentences are one rule.
4. **Cache, budget and join index** (`Cache`, `References`, `Gather`, `GatheredEvidence`), each proved equal to the simple thing it
   speeds up; `Verdicts` carries a response through gathering and evaluation to what its verdict is worth.
5. **The late-checkout table and fee** (`LateCheckout`).
6. **The record of rule versions** (`SpecLock`).

`Basics` and `Texts` hold small datatypes, text order and number texts.

Conventions of the model. An exception of the source is a value: `Raises`/`RAISED` in the evaluator, `Refused`,
`Ambiguous`, `Crashed`, `Unreadable` and the like elsewhere. Texts are ordered as Python orders them and dates are
ISO texts, so a day is a text's first ten characters. Instants are integers, amounts of a fee whole minor units.
Digests are injective, so a queue entry is identified by its natural key and a run by what identifies it. A
provider answers one request the same way all run long.

The code is followed where it differs from its own words, or from what one of its parts would lead a reader of
another to expect. Each such difference has an input that shows it and the exact condition under which there is none:

| the promise that fails | on this input | exactly when |
|---|---|---|
| a population's verdicts survive completion | `PopulationTheorems.UnreadKeyEscapes` | `PopulationFinality.PassIsFinalIff`, `PopulationFinality.PassIsFinalIffKeyless`, `PopulationFinality.FinalIffKeys` |
| scope settles a record as the record evaluator does | `Population.ScopeDrifts` | `Population.ScopeDriftIff` |
| a lookup's answer is final | `References.LookupMisleads`, `References.LookupMoves` | `References.LookupFieldIsFinalIff`, `References.LookupIsFinalIff`, `References.AbsenceIsFinalIff` |
| a window covers every date a rule may ask about | `World.OtherDatesEscape` | `World.PassIsSoundIff` |
| an absence on the right of an ordering has no answer | `Records.AbsentRightSide` | `Records.AbsentRightSide` |
| check 9 has nothing to say of a sentence the parser accepts | `Absences.SaidAbsent`, `Absences.AbsentAnywhere` | `Absences.AbsenceIsPlacedIff`, `Absences.AcceptedPassesIff` |
| an entry says when it passed after its newest failure | `QueueHistory.LateFailureLosesPass`, `QueueHistory.EarlyPassIsLost` | `QueueHistory.NextKeepsExactIff`, `QueueHistory.ExactThroughoutIff` |
| what is stored comes back | `Codec.NestedTupleFlattens` | `Codec.CodecRoundTrip`, `StoreTheorems.SaveThenReload` |
| a closed entry is not emailed | `Dispatch.ClosedAfterReadIsEmailed` | `Dispatch.ClosedCanBeEmailedIff` |
| one recorded version stands for one content | `SpecLock.DroppedControlEscapes` | `SpecLock.OneContentIff` |
| a recorded control stays recorded | `SpecLock.DroppedControlEscapes` | `SpecLock.RecordHoldsIff`, `SpecLock.RelockKeepsIff` |

Check everything with `dafny verify dfyconfig.toml`.

## Model

| member | source | states |
|---|---|---|
| Predicates.EvaluateStable | hotelcontrols/evaluator/predicates.py:61-354 | A predicate that answered yes or no answers the same on every refinement of the evidence, the joins and the decided settings, through every operator, declared absence, refused currency comparison and undecided setting. |
| Predicates.ApplyStable | hotelcontrols/kernel/value.py:147-191 | A comparison that was possible stays possible and keeps its answer when the values it compares are read further; an unknown side never compares. |
| Predicates.EvaluateReads | hotelcontrols/evaluator/predicates.py:61-131 | A predicate depends on the fields, the joins and which collections there are, and on nothing else of the bundle. |
| Operators.EqualityMeans | hotelcontrols/kernel/value.py:139-191 | `equals` and `not_equals`: told exactly when both sides can be had and may be compared - one currency or a bare zero, one unit or a unitless zero - and then yes or no by whether the values are the same. |
| Operators.PresenceMeans | hotelcontrols/evaluator/predicates.py:288-297 | `exists` is Yes exactly when the known subject is neither False, nor not applicable, nor a blank text; `not_exists` exactly when it is one of these. |
| Operators.MembershipMeans | hotelcontrols/evaluator/predicates.py:307-348 | `in` is Yes if and only if an item of the known collection equals the known subject and No if and only if none does; `not_in` if and only if none does, or one; else nobody can tell. |
| Operators.MatchingMeans | hotelcontrols/evaluator/predicates.py:337-339 | `matches_ignore_case` is told exactly when the two sides may be compared, and is Yes exactly when they read the same in lower case. |
| Operators.OrderingMeans | hotelcontrols/evaluator/predicates.py:300-304 | The four orderings on numbers and amounts of one currency are those of their sizes, on texts those of their letters; anything else that may be compared raises, and what may not be compared cannot be told. |
| Operators.AbsentSubjectMeans | hotelcontrols/evaluator/predicates.py:173-198 | An ordering of an absent subject answers what its clause says of an absence, and cannot tell where it says nothing. |
| Operators.ReferenceMeans | hotelcontrols/evaluator/predicates.py:229-249 | `reference_exists` is Yes exactly when the join of the field's entity is known and matched, `reference_missing` exactly when it is known and did not. |
| Operators.WithinMeans | hotelcontrols/evaluator/predicates.py:252-285 | `within` and `not_within`: told exactly when the subject is a date and both bounds are known, inclusive at both ends, an empty bound open and two empty bounds nothing. |
| Operators.WithoutASideNobodyCanTell | hotelcontrols/evaluator/predicates.py:61-131 | Where the subject or the right-hand side cannot be had nothing can be told. |
| Texts.LtMeans | hotelcontrols/evaluator/intervals.py:40-64 | Dates and other texts are compared letter by letter: one is less exactly where, at the first place they differ, its letter is, or there is only more of the other. |
| Texts.PointDivides | hotelcontrols/kernel/value.py:147-191 | A decimal text denotes what its digits without the point do, divided by ten for each digit after it. |
| Judgements.ReadsMeans | hotelcontrols/evaluator/predicates.py:200-225 | A predicate reads an entity exactly when its subject, the field it compares with or an end of its interval is named under it, up to the first dot. |
| Records.EvaluateRecord | hotelcontrols/evaluator/record.py:51-117 | The loop over scope, exceptions and assertion, by the answers of the clauses: any unmatched scope clause excludes, then any unsure one is UNKNOWN, then a matching exception excludes, then an unsure one is UNKNOWN, then each mode has its own exact conditions; a comparison that raises is RAISED where it is reached. |
| Records.RecordMeans | hotelcontrols/evaluator/record.py:51-158 | For every rule, record and settings, in every mode, each outcome has its exact condition over the answers of the clauses. |
| Records.First | hotelcontrols/evaluator/record.py:121-125 | The first result with a given answer is found exactly when some result has it. |
| Records.RecordStable | hotelcontrols/evaluator/record.py:51-158 | A PASS, FAIL or EXCLUDED on a bundle and settings is the answer on every refinement of both, in all modes, unless an ill-typed later value makes a comparison raise. |
| Records.TypedNeverRaises | hotelcontrols/evaluator/predicates.py:300-354 | Where each ordering compares operands of one family, evaluating the rule never raises. |
| Records.TypedRecordStable | hotelcontrols/evaluator/record.py:51-158 | With well-typed evidence a conclusive answer survives every refinement exactly, with no exception left to allow for. |
| Records.AbsentRightSide | hotelcontrols/evaluator/predicates.py:173-196 | A result about the code: an absence has an answer of its own only on the left of an ordering. On the right, for every ordering and both absences, a known left side has an answer exactly when it is a number and the absence is a False, which counts as zero; it cannot tell exactly when the left is an amount, or a bare number of another unit; everything else raises. |
| Collections.EachRecord | hotelcontrols/evaluator/collections.py:123-152 | One result for each related record, and for each unplaced one that could matter: what is found is exactly what the declarative reading of a predicate over a collection yields. |
| Collections.FirstFound | hotelcontrols/evaluator/collections.py:97-118 | The first result with a given answer is found exactly when some result has it. |
| Collections.Coverage | hotelcontrols/evaluator/collections.py:180-219 | The loop over spans decides whether the fetched window contains every day from the asking day on that any predicate can be satisfied on. |
| Collections.EdgesAreEnough | hotelcontrols/evaluator/collections.py:200-219 | Comparing the earliest start and the latest end with the window suffices for every single span to lie inside it. |
| Collections.EdgesAreNeeded | hotelcontrols/evaluator/collections.py:200-219 | And it is necessary: a window that contains every span contains those edges. |
| Collections.JudgeCollection | hotelcontrols/evaluator/collections.py:74-119 | Mode `none` over collections, in terms of the fields: RAISED if and only if some evaluation raises; else FAIL if and only if some predicate holds of this record, or of a view of a related record whose join is known, whatever the windows and whatever else is unsure; else UNKNOWN if and only if something is unsure or a collection read was not fetched for every day asked about; else PASS. The record a FAIL names is one that satisfies it. |
| Collections.JudgedMeans | hotelcontrols/evaluator/collections.py:74-119 | Each outcome of the declarative judgement has these same exact conditions, so every law about it speaks of the fields. |
| Collections.CoveredMeans | hotelcontrols/evaluator/collections.py:180-219 | A window covers its spans exactly when, for the days the predicates ask about, it holds every one from the asking day on. |
| Collections.JudgedStable | hotelcontrols/evaluator/collections.py:74-248 | A PASS survives every refinement, also one in which unplaced records turn out to be this record's own; a FAIL survives unless a later value makes another predicate raise. |
| Collections.FailIgnoresUnplaced | hotelcontrols/evaluator/collections.py:123-152 | A FAIL never rests on a record whose key could not be read: emptying the unplaced records neither removes a FAIL nor makes one. |
| Collections.PassSays | hotelcontrols/evaluator/collections.py:74-119 | What a PASS establishes of each predicate over its collection: the join is known, every record answers no, and the window is complete. |
| World.PassHoldsOfTheWorld | hotelcontrols/evaluator/collections.py:74-248 | If the response holds every record touching the window and the rule reads only the dates the window bounds, a PASS means that no record of the whole unfetched world that belongs to this one, however its unread key and values turn out, satisfies any predicate on a day from the asking day on. |
| World.FailHoldsOfTheWorld | hotelcontrols/evaluator/collections.py:97-118 | However many collections the rule has, each gathered from its own response: a FAIL names a predicate and, if it reads a collection, a record of that collection's response that is this record's under every completion and satisfies it under every completion. |
| World.GatheredRefines | hotelcontrols/evidence/gather.py:209-269 | Reading more of one response refines every collection gathered from it: a record whose key becomes readable joins the record it names, or leaves. |
| World.OtherDatesEscape | hotelcontrols/evidence/reference.py:195-204 | Why the hypothesis about dates is needed: for any predicate a window can bound and any dates leaving out one it reads, a bundle that passes, asked for its own dates, and an unfetched record of its own that satisfies the predicate on the very day of asking. |
| World.PassIsSoundIff | hotelcontrols/evaluator/collections.py:180-248 | A one-predicate rule's PASS speaks for every unfetched record, in every world and completion, if and only if every date of the collection the window can be bounded by is one the provider filters on. |
| References.BuildIndex | hotelcontrols/evidence/reference.py:160-181 | The join index of a response maps each key to exactly the records a linear scan for it finds, in response order, and keeps exactly the unreadable ones as unplaced. |
| References.AddRecord | hotelcontrols/evidence/reference.py:166-177 | Indexing one more record keeps the index equal to the scan of all records so far. |
| References.IndexedOnce | hotelcontrols/evidence/reference.py:160-181 | Every remote record is indexed under its own key, or unplaced, or absent-keyed: exactly one of the three, and under no other key. |
| References.MatchIsScan | hotelcontrols/evidence/reference.py:93-114 | `match` returns precisely the scan's records in response order and never matches an absent or unknown key. |
| References.JoinIsScan | hotelcontrols/evidence/gather.py:209-231 | A join is known true, known false or unknown exactly as the scan finds a record, finds none, or cannot look. |
| References.AbsenceIsFinalIff | hotelcontrols/evidence/gather.py:228-231 | "Matched nothing" holds under every further reading of the response if and only if no remote key was unreadable: a lookup's known-false join is final only then. |
| References.MatchIsFinal | hotelcontrols/evidence/gather.py:209-231 | A key that matched still matches however the rest of the response reads. |
| References.LookupIsFinalIff | hotelcontrols/evidence/gather.py:138-163 | What a lookup found - a match or none, and each field of the record it reads - holds under every further reading of the response if and only if no record with an unread key stands before the first that has the key: a lookup takes the first match. |
| References.LookupFieldIsFinalIff | hotelcontrols/evidence/gather.py:138-163 | Field by field: what a lookup says of a field holds under every further reading of the response if and only if each record with an unread key that stands before the first match already says the same. |
| References.LookupMisleads | hotelcontrols/evidence/gather.py:163-163 | The input, of any response where that fails: the earlier record's key reads as this one, and the field reads as that record's own, different, value. |
| Population.EvaluatePopulation | hotelcontrols/evaluator/population.py:50-117 | One verdict per bundle, in input order, for every population, and each said of the bundles' fields: what scope and exceptions settle, UNKNOWN without a readable key, and otherwise what the records counted under the same key text come to, with a PASS withheld where an unsettled record may belong. |
| Population.MemberMeans | hotelcontrols/evaluator/population.py:99-273 | What an aggregate tells each record over the fields alone: in an overlap question a counted record whose id and interval ends can be read FAILs if and only if some readable record counted under its key, with another id text, has its start before this one's end and this one's start before its end. |
| Population.SettlesMeans | hotelcontrols/evaluator/population.py:121-142 | The exact condition of each way the first clause that does not let a record through settles it. |
| Population.CountMeans | hotelcontrols/evaluator/population.py:164-218 | A count question over the fields: FAIL exactly when more id texts can be read under the key than the limit, PASS exactly when those and one more for each unreadable id stay within it and nobody unsettled may belong. |
| Population.RaisesMeans | hotelcontrols/evaluator/population.py:60-80 | An aggregate rule raises if and only if a clause that settles some record raises. |
| Population.ScopeAndExceptions | hotelcontrols/evaluator/population.py:121-142 | A record is settled by the first clause that does not let it through. |
| Population.ScopeDriftIff | hotelcontrols/evaluator/population.py:121-142 | A result about the code: this step and the record evaluator settle a record differently if and only if an unsure clause stands before an excluding one, although the comment says they apply the same clauses the same way. |
| Population.ScopeDrifts | hotelcontrols/evaluator/population.py:121-142 | The input, under any assertion and so under any aggregate: a record that fails the second scope clause and leaves the first unanswered is UNKNOWN here and EXCLUDED by the record evaluator. |
| Population.CountLte | hotelcontrols/evaluator/population.py:164-218 | A group is PASS, FAIL or UNKNOWN as the range from readable to readable-plus-unreadable identifiers lies within, beyond, or across the limit. |
| Population.Tally | hotelcontrols/evaluator/population.py:172-184 | The distinct readable identifiers and the number of unreadable ones. |
| Population.Conflicts | hotelcontrols/evaluator/population.py:243-256 | Comparing each pair once marks exactly the segments that overlap one with a different id. |
| Population.NoOverlaps | hotelcontrols/evaluator/population.py:221-273 | A readable member FAILs if and only if some readable member with a different id overlaps it; otherwise it is UNKNOWN when any member is unreadable or it is one, else PASS. |
| Population.ClashIsSymmetric | hotelcontrols/evaluator/intervals.py:56-64 | Overlap with a different id is mutual. |
| Population.SettlesStable | hotelcontrols/evaluator/population.py:121-142 | A record settled as EXCLUDED stays so under every refinement, and one that reached its group still does. |
| Population.Sort | hotelcontrols/evaluator/population.py:60-97 | Who is still in play, in order, and which keys an unsettled record holds. |
| Population.GroupUp | hotelcontrols/evaluator/population.py:82-97 | Survivors are grouped by exactly their own readable key; the others are those without one. |
| Population.JudgeGroups | hotelcontrols/evaluator/population.py:99-117 | Every record in play gets its group's verdict, or UNKNOWN without a readable key. |
| PopulationTheorems.PopulationStable | hotelcontrols/evaluator/population.py:50-273 | What the groups tell a record - FAIL and EXCLUDED - survives every refinement of scope, exceptions, ids, interval ends and keys. A PASS survives every refinement in which no record with an unreadable key turns out to share its key. |
| PopulationTheorems.UnreadKeyEscapes | hotelcontrols/evaluator/population.py:82-97 | The input on which a PASS does not survive: two reservations, one with an unreadable key, PASS as alone; reading the key makes both FAIL. |
| PopulationFinality.PassIsFinalIff | hotelcontrols/evaluator/population.py:50-117 | The exact condition: a PASS stands in every refinement of the evidence and settings if and only if it stands in one, with every unread key read as its own; for every population where reading that key settles nobody. |
| PopulationFinality.PassIsFinalIffKeyless | hotelcontrols/evaluator/population.py:82-117 | The same without reading anything, where the grouping key only groups: a PASS is final if and only if no record that may belong has an unread key and the group still passes with every keyless record counted in. |
| PopulationFinality.FinalIffKeys | hotelcontrols/evaluator/population.py:50-117 | Over all populations, also where a clause reads the grouping key: a PASS is final if and only if it stands however some of the unread keys, and nothing else, are read as values that name its key. |
| PopulationFinality.RaisingStays | hotelcontrols/evaluator/population.py:60-80 | Where evaluating a population raises, it raises on every refinement. |
| PopulationFinality.PopulationVerdictsStable | hotelcontrols/evaluator/population.py:50-117 | The verdicts of a whole evaluation, of either kind of rule, survive every refinement or evaluating the refined population raises: FAIL and EXCLUDED always, a group's PASS while no unread key turns out to be its own. |
| PopulationFinality.TypedPopulationStable | hotelcontrols/evaluator/population.py:50-117 | With well-typed later evidence the verdicts survive exactly, and nothing raises. |
| PopulationTheorems.CountBrackets | hotelcontrols/evaluator/population.py:164-218 | The counted range brackets the number of distinct identifiers in every completion. |
| PopulationTheorems.CountIsExact | hotelcontrols/evaluator/population.py:186-218 | PASS exactly when every completion stays within the limit, FAIL exactly when every one exceeds it, so UNKNOWN exactly when completions differ. |
| PopulationTheorems.FewestCompletion | hotelcontrols/evaluator/population.py:164-218 | The lower end of the range is attained by a completion. |
| PopulationTheorems.MostCompletion | hotelcontrols/evaluator/population.py:164-218 | The upper end of the range is attained by a completion. |
| PopulationTheorems.OverlapIffNight | hotelcontrols/evaluator/intervals.py:56-64 | Two half-open stays overlap if and only if they share a night, or one holds no night and lies strictly inside the other. |
| PopulationTheorems.MeetsIffNight | hotelcontrols/evaluator/intervals.py:56-64 | Said of the fields: two records of different ids clash if and only if some night is held by both interval texts, or one holds no night and lies strictly inside the other. |
| PopulationTheorems.ClearGroupHasOneIdPerNight | hotelcontrols/evaluator/population.py:221-273 | If every member of a group PASSes, each night is held by at most one distinct id. |
| PopulationTheorems.PassingKeepsNightsApart | hotelcontrols/evaluator/population.py:221-273 | Said of the fields: where every record counted under a key is told PASS, no night is held by two of them with different id texts. |
| PopulationTheorems.AccusationIsMutual | hotelcontrols/evaluator/population.py:221-273 | Whoever a FAILing record overlaps FAILs too. |
| Tokens.Tokenize | hotelcontrols/compiler/grammar.py:629-636 | The in-place tokenizer gives quoted literals and runs of non-space, with one final full stop removed. |
| Tokens.TokensOfSentence | hotelcontrols/compiler/grammar.py:629-636 | Tokens written down with spaces and a full stop are tokenized back exactly; without the full stop exactly when the last token does not end in one. |
| Keywords.Spelled | hotelcontrols/compiler/grammar.py:60-93 | Every word of the language is read as itself, in the case-insensitive comparison the parser uses. |
| Keywords.KeywordIsSpelling | hotelcontrols/compiler/grammar.py:253-268 | A token read as a word is that word's spelling, whatever its case. |
| Parser.RowIsPhrase | hotelcontrols/compiler/grammar.py:78-93 | A row of the operator table that matches is the one phrase the grammar reads there: no two rows match the same words, so search order cannot change a meaning. |
| Parser.NoRowNoPhrase | hotelcontrols/compiler/grammar.py:78-93 | Where no row matches the grammar reads no phrase. |
| Parser.Cursor.TakeToken | hotelcontrols/compiler/grammar.py:257-262 | Takes the next token and moves the cursor past it, or refuses at the end. |
| Parser.Cursor.Accept | hotelcontrols/compiler/grammar.py:264-268 | Moves past a word exactly when it stands here. |
| Parser.Cursor.Expect | hotelcontrols/compiler/grammar.py:270-272 | Moves past a word or refuses. |
| Parser.Cursor.TakeOperatorPhrase | hotelcontrols/compiler/grammar.py:568-575 | The table search finds exactly the grammar's phrase and moves past its words. |
| Parser.Cursor.TakeOperand | hotelcontrols/compiler/grammar.py:577-607 | One right-hand side: quoted text, number, truth value, setting or field, and otherwise the report of two readings. |
| Parser.Cursor.TakeAbsence | hotelcontrols/compiler/grammar.py:547-566 | `or absent`, `if present` or neither; any other `or` is refused. |
| Parser.Cursor.TakeCondition | hotelcontrols/compiler/grammar.py:493-545 | One condition, agreeing with the grammar on value, cursor, refusal and ambiguity. |
| Parser.Cursor.TakeConditions | hotelcontrols/compiler/grammar.py:393-398 | The `and` loop agrees with the grammar's list of conditions. |
| Parser.Cursor.TakeJoin | hotelcontrols/compiler/grammar.py:331-360 | A set join or a keyed join, agreeing with the grammar. |
| Parser.Cursor.TakeJoins | hotelcontrols/compiler/grammar.py:315-378 | The nested join loops and the refusal of a population phrase agree with the grammar. |
| Parser.Cursor.TakeExceptions | hotelcontrols/compiler/grammar.py:380-387 | `except where` and `unless` agree with the grammar. |
| Parser.Cursor.TakeShowing | hotelcontrols/compiler/grammar.py:400-412 | The `showing` list agrees with the grammar. |
| Parser.Cursor.TakeModal | hotelcontrols/compiler/grammar.py:423-449 | The modal gives its mode and whether it negates, or refuses, agreeing with the grammar. |
| Parser.Cursor.TakeAggregate | hotelcontrols/compiler/grammar.py:451-491 | One aggregate question under its grouping key, and nothing joined to it. |
| Parser.Cursor.TakeAssertion | hotelcontrols/compiler/grammar.py:415-421 | The modal and what it introduces agree with the grammar. |
| Parser.Cursor.ParseSentence | hotelcontrols/compiler/grammar.py:282-295 | The cursor parser as a whole: the rule, refusal or ambiguity the grammar prescribes for these tokens, with every token used. |
| Readings.TreeIsParsed | hotelcontrols/compiler/grammar.py:282-625 | Every sentence that has a syntax tree with a meaning is taken, and read as exactly that meaning. |
| Readings.ParsedIsTree | hotelcontrols/compiler/grammar.py:282-625 | Every sentence that is taken has a syntax tree of exactly its tokens, and its rule is what the tree means. |
| Rewordings.TakenIff | hotelcontrols/compiler/grammar.py:282-625 | Over all token sequences: a sentence is read as a rule if and only if the concrete grammar, whose trees list every spelling, says that rule with it; and a taken sentence uses every token. |
| Rewordings.OneReading | hotelcontrols/compiler/grammar.py:547-566 | No sentence has two readings. |
| Rewordings.MayHaveForbids | hotelcontrols/compiler/grammar.py:423-449 | Over all token sequences, with any words between and after: `no ... may have ...` and `every ... must not have ...` are both refused, or are both taken as the very same rule. |
| Rewordings.MayNeedsNo | hotelcontrols/compiler/grammar.py:439-446 | `may have` anywhere in a sentence that does not start with `no` is refused. |
| Rewordings.QuantifiersAreOne | hotelcontrols/compiler/grammar.py:298-305 | Over all token sequences `every`, `each` and `all` are one word: refused alike or read as the same rule. |
| Rewordings.RewordedIsTaken | hotelcontrols/compiler/grammar.py:282-625 | A taken sentence with another quantifier and modal of the same sense, `except where` for `unless` or the other way about, and any other words for any of its operators is taken, as the very same rule. |
| Rewordings.IsIsOptional | hotelcontrols/compiler/grammar.py:493-507 | `is` before an operator's words changes nothing. |
| Rewordings.WaysToSayPresent | hotelcontrols/compiler/grammar.py:78-93 | `exists` says what `present` says. |
| Rewordings.WaysToSayMissing | hotelcontrols/compiler/grammar.py:78-93 | `missing`, `not exists` and `not present` say one thing. |
| Rewordings.WaysToSayMoreThan | hotelcontrols/compiler/grammar.py:78-93 | `greater than` says what `more than` says. |
| Rewordings.WaysToSayMatching | hotelcontrols/compiler/grammar.py:78-93 | `matches` says what `matching` says. |
| Rewordings.WaysToSayUnresolved | hotelcontrols/compiler/grammar.py:78-93 | `unresolved` says what `not resolved` says. |
| Printer.ParsePrinted | hotelcontrols/compiler/grammar.py:282-625 | For every well-formed rule - mixed joins, scope, exceptions, all four modes, every operator, absences, showing - parsing its printed tokens gives back exactly that rule and uses every token. |
| Printer.ConditionPrinted | hotelcontrols/compiler/grammar.py:493-607 | Every operator with its operand and absence is parsed back as printed. |
| Printer.JoinPrinted | hotelcontrols/compiler/grammar.py:315-360 | Every reference is parsed back as printed. |
| Printer.AssertionPrinted | hotelcontrols/compiler/grammar.py:415-491 | Every assertion is parsed back as printed. |
| Compiler.CompileUndoesWrite | hotelcontrols/compiler/grammar.py:238-636 | Round trip on text: tokenizing and parsing the written sentence of any well-formed rule gives back that rule, always with its full stop, and without it when the last word has none. |
| Compiler.WriteIsInjective | hotelcontrols/compiler/grammar.py:238-636 | Two different well-formed rules are never written as the same sentence. |
| Compiler.NormalForm | hotelcontrols/compiler/grammar.py:238-636 | Every accepted sentence of writable tokens has a written form that compiles to the same rule. |
| Compiler.CompileSentence | hotelcontrols/compiler/grammar.py:130-141 | The sentence's half of compiling: the parsed rule with the evidence derived from it, or the refusal or ambiguity of the grammar. |
| Compiler.DeriveEvidence | hotelcontrols/compiler/grammar.py:149-174 | The loop gives one entry for each named field, in order, with its source and the registry's mark. |
| Compiler.EvidenceSays | hotelcontrols/compiler/grammar.py:149-174 | What the declaration says: each field the rule needs once and no other, the hotel's exactly when a reference from the hotel joins its entity, unresolvable exactly when the registry says so. |
| Finish.CompileDocument | hotelcontrols/compiler/grammar.py:127-147 | The whole of compiling: a validated document exactly when the sentence parses, the deployment is whole and the validator finds nothing; two readings exactly when the grammar reports them; else every reason, with the rule that was understood. |
| Finish.CheckDeployment | hotelcontrols/compiler/grammar.py:200-217 | A complaint of its own kind for exactly each key given that is the sentence's half, each that is no part of a control, and each of the nine a deployment must give that is not there. |
| Finish.Validate | hotelcontrols/spec/ir.py:199-234 | The schema alone where it is broken; otherwise nothing is found exactly when the structural checks and the others find nothing. |
| Finish.FinishIt | hotelcontrols/compiler/grammar.py:186-234 | The halves joined under the sentence, validated only when the deployment is whole; no document whenever anything is wrong, and the reasons of one gate only. |
| Finish.AcceptsIff | hotelcontrols/compiler/grammar.py:127-234 | Over all sentences and deployments: a document comes of it if and only if the sentence parses, the deployment is whole, each absence phrase stands after an ordering, of a field whose absence is a fact, and the unmodelled checks find nothing: of the structural checks only the ninth can refuse what parses. |
| Finish.CompilesAgain | hotelcontrols/compiler/problems.py:110-119 | A filed control taken apart and compiled again gives the very same document. |
| Finish.CompilesFromItsWords | hotelcontrols/compiler/grammar.py:127-234 | And so does its rule written out and compiled under the same deployment, but for the words of the sentence. |
| WellFormed.AcceptedIsWellFormed | hotelcontrols/compiler/grammar.py:282-625 | Over all token sequences, whatever the parser accepts has the shape the printer covers. |
| Checks.AcceptedPassesChecks | hotelcontrols/spec/ir.py:249-328 | Every accepted sentence passes checks 2 to 5: derived evidence covers every field referenced, it groups if and only if it aggregates, each predicate has exactly the right-hand side its operator needs, and aggregate operators stand only in aggregates. |
| Checks.FieldsInOrder | hotelcontrols/compiler/grammar.py:644-676 | The evidence loop gives each non-empty named field once, where it first stands. |
| Checks.OnceMeans | hotelcontrols/compiler/grammar.py:644-655 | Each name once: no repeats, nothing lost, nothing added. |
| Checks.NamesMean | hotelcontrols/compiler/grammar.py:644-676 | A sentence names a field exactly as a key or set of a reference, as subject, compared field or interval end of a condition, as the grouping key or among the fields to show. |
| Checks.ReferencedMeans | hotelcontrols/spec/ir.py:139-163 | A rule references exactly what its conditions name and, where not empty, the keys and sets of its references and the key an aggregate groups by. |
| Checks.DerivedEvidenceCovers | hotelcontrols/spec/ir.py:139-163 | Derived evidence covers all fields the rule references. |
| Checks.CheckEvidenceDeclared | hotelcontrols/spec/ir.py:249-257 | A problem for exactly each referenced field that is not declared. |
| Checks.CheckAssertionShape | hotelcontrols/spec/ir.py:260-276 | No problem if and only if grouping and aggregation go together. |
| Checks.CheckPredicate | hotelcontrols/spec/ir.py:288-328 | No problem if and only if the predicate has the one right-hand side and interval its operator needs, in a clause where the operator may stand. |
| Checks.CheckPredicates | hotelcontrols/spec/ir.py:279-328 | No problem if and only if every predicate of every clause is sound. |
| Checks.CheckAbsent | hotelcontrols/spec/ir.py:431-455 | A problem of its own kind for exactly each predicate that says what an absence answers without being an ordering, and each ordering that does so of a field whose absence is a gap. |
| Checks.CheckStructure | hotelcontrols/spec/ir.py:223-229 | Checks 2 to 5 and 9 together find nothing if and only if evidence is declared, grouping goes with aggregation, every predicate is sound and every absence is an ordering's, of a field whose absence is a fact. |
| Absences.AbsenceIsPlacedIff | hotelcontrols/compiler/grammar.py:547-566 | Over all token sequences: of an accepted sentence check 9 has nothing to say about operators if and only if `or absent` and `if present` stand only after an ordering phrase and its operand. |
| Absences.AcceptedPassesIff | hotelcontrols/spec/ir.py:223-229 | A sentence the parser accepts, with the evidence derived from it, passes checks 2 to 5 and 9 if and only if its absences are so placed, of fields whose absence is a fact. |
| Absences.AbsentAnywhere | hotelcontrols/compiler/grammar.py:538-566 | A result about the code: every well-formed rule that says what an absence answers on another operator has a sentence that the parser reads as exactly it and that check 9 refuses. |
| Absences.SaidAbsent | hotelcontrols/spec/ir.py:431-455 | The input: the parser takes "every stay must have stay.amount is 0 or absent.", and check 9 refuses it. |
| Cache.CallBudget.Spend | hotelcontrols/evidence/budget.py:41-49 | A call is counted and remembered if and only if it fits the limit. |
| Cache.ResponseCache.Get | hotelcontrols/evidence/cache.py:37-58 | The answer and the calls made are those of the simple account: a remembered or one direct answer, or a stop; at most one call for each distinct request. |
| Cache.ResponseCache.CallCount | hotelcontrols/evidence/cache.py:60-62 | Responses and failures remembered are exactly the calls made. |
| Cache.EachAnswerIsDirect | hotelcontrols/evidence/cache.py:37-58 | Over every request sequence each answer or failure equals the direct one, or is a stop, which it is exactly for a new request when the budget is used up. |
| Cache.CallsAreFirst | hotelcontrols/evidence/budget.py:41-49 | The calls a budget allows are the first of those an unlimited run makes, never more than the limit. |
| Cache.DistinctMeans | hotelcontrols/evidence/cache.py:37-58 | Each distinct request is called once, and no other. |
| Cache.AllAnsweredIff | hotelcontrols/evidence/budget.py:41-49 | Every request is answered if and only if the distinct requests fit the budget. |
| Gather.Run.GatherAll | hotelcontrols/evidence/gather.py:92-119 | A run's evidence through cache, budget and join index is exactly what gathering directly by scans gives, or a stop, which it is if and only if its distinct requests exceed the budget: it stops rather than truncates. |
| GatheredEvidence.GatheredMeans | hotelcontrols/evidence/gather.py:92-269 | A run's evidence read off the provider's own responses: blocked if and only if the population cannot be had; otherwise, for each of its records in order, who it is, each field from the response it lives in - for a lookup the first record whose key is this one's -, each join, each collection's own and unplaced records as far as the rule names their fields, and each window. |
| GatheredEvidence.AskedIff | hotelcontrols/evidence/gather.py:92-206 | A run asks for its population and, where that can be had, for each reference the provider offers and each field of each record that lives in a response of its own, and for nothing else. |
| Gather.Run.BuildReferences | hotelcontrols/evidence/reference.py:117-182 | Each reference is unavailable, listed or indexed as its one response says, at one call each. |
| Gather.Run.Assemble | hotelcontrols/evidence/gather.py:123-135 | The fields of one record, each from the response it lives in. |
| Gather.Run.ReadThrough | hotelcontrols/evidence/gather.py:138-163 | A referenced field read through the index is the one read by scanning. |
| Gather.Run.Relate | hotelcontrols/evidence/gather.py:209-269 | Related records, joins, unplaced records and windows filled entity by entity equal their declarative description. |
| Gather.AsksAreFew | hotelcontrols/evidence/gather.py:92-206 | A whole run needs at most one call for the population, one for each reference and one for each distinct follow-up. |
| Gather.GatherFillsCollections | hotelcontrols/evidence/gather.py:234-269 | Every collection of every gathered bundle meets the premises of the theorems about the unfetched world. |
| Verdicts.GatheredAgainRefines | hotelcontrols/evidence/gather.py:92-269 | Ask the provider again and read more of every response - the population's record, follow-ups, collections and lookups that were final: the bundle gathered refines the one gathered before. |
| Verdicts.VerdictKept | hotelcontrols/evaluator/record.py:51-158 | From a response read further to a kept verdict: PASS, FAIL and EXCLUDED survive gathering the record again, unless evaluating it then raises. |
| Verdicts.RunVerdictKept | hotelcontrols/evidence/gather.py:92-119 | Over two whole runs: when the provider reads further and what the references came to was final for a record, the second run has its evidence too, and a conclusive verdict of the first is the verdict of the second, unless evaluating it raises. |
| Verdicts.RunPassHoldsOfTheWorld | hotelcontrols/evaluator/collections.py:74-248 | Gathering and evaluating composed: if a record of a run's own evidence PASSes a rule about its related records, then whatever record of the whole unfetched world is its own and satisfies the rule, however the record's evidence and the settings turn out to read, does so before the day of asking and outside the window. |
| Queue.FindingsFrom | hotelcontrols/actions/records.py:205-263 | Findings of a run under its own rule, refused by name otherwise; each field of each finding is that of the run, the rule or the verdict it is of, and the findings are of exactly the FAILs, the passes exactly the named PASSes. |
| Queue.BatchMeans | hotelcontrols/actions/records.py:236-258 | Each field of each finding, from the run, the rule and the verdict. |
| Recordings.RecordedMeans | hotelcontrols/store/sqlite.py:332-382 | What recording a run's findings does to every entry, read off the entry and the run: a new one is pending, unmarked, uncleared and about the first finding of its key, with this run's receipts; an old one keeps what it says, its mover and its marker, takes a failure no older as its newest with that run, loses a clearance no later than the failure, and is cleared by a pass later than its newest failure. |
| Recordings.RefusedIff | hotelcontrols/store/sqlite.py:332-347 | A batch is refused if and only if a finding names another property. |
| Queue.FindingsSay | hotelcontrols/actions/records.py:236-258 | The findings are exactly the FAILs and the passes exactly the named PASSes; UNKNOWN and EXCLUDED say nothing. |
| Queue.TasksAreIndependent | hotelcontrols/store/sqlite.py:332-486 | After any sequence of writes each queue entry is what the events about its own key made of it. |
| Queue.WritesAreLocal | hotelcontrols/store/sqlite.py:332-382 | What one write does to one key depends on that key's entry and what the write says about it; a run's own batch is never refused or undone. |
| QueueHistory.AlwaysSound | hotelcontrols/store/sqlite.py:348-382 | Over every history in any order, a set clearance is strictly later than the newest failure, and a person's stamp is there exactly when the entry is closed. |
| QueueHistory.ClosedStaysClosed | hotelcontrols/actions/records.py:53-83 | Over every history an entry never vanishes, never changes what it is about, and once closed keeps its state and stamp. |
| QueueHistory.OneMoveAtMost | hotelcontrols/actions/records.py:53-83 | Over every history at most one move is allowed, and one exactly when the entry has left pending. |
| QueueHistory.HappensFollows | hotelcontrols/store/sqlite.py:332-486 | Recording never changes a state, people never change receipts, notifications change neither. |
| QueueHistory.NewestFailureIsMaximum | hotelcontrols/store/sqlite.py:356-371 | The newest failure is the maximum of all failing instants told, whatever their order. |
| QueueHistory.AnnotationWasTold | hotelcontrols/store/sqlite.py:372-382 | An annotation quotes a pass that was really recorded, later than every failure. |
| QueueHistory.ChronologicalIsExact | hotelcontrols/store/sqlite.py:348-382 | For histories told in order an entry is annotated if and only if a pass strictly later than its newest failure was recorded; a tie counts as failing. |
| QueueHistory.FailKeepsExactIff | hotelcontrols/store/sqlite.py:356-371 | For any history that has an entry, one more failure keeps the annotation exact if and only if it does not both leave the entry unannotated and come while a pass later than the newest failure is already recorded. |
| QueueHistory.OthersKeepExact | hotelcontrols/store/sqlite.py:372-382 | Passes, people and notifiers always keep an entry's annotation exact. |
| QueueHistory.RaisingKeepsExactIff | hotelcontrols/store/sqlite.py:348-355 | The event that raises the entry, a failure or a decision, leaves it exact if and only if no pass later than it was told before. |
| QueueHistory.NextKeepsExactIff | hotelcontrols/store/sqlite.py:348-382 | Both cases joined, over all histories: one more event of any kind keeps an exact annotation exact if and only if it is neither of the two late failures. |
| QueueHistory.ExactThroughoutIff | hotelcontrols/store/sqlite.py:348-382 | Lifted over whole histories: the annotation is exact after every event if and only if no event was such a late failure. |
| QueueHistory.ReplayIsSafeIff | hotelcontrols/store/sqlite.py:332-382 | Telling every failure and pass of a history again changes nothing but which of several tied runs is quoted, if and only if its annotation was exact. |
| QueueHistory.RecordingAgainIsSafe | hotelcontrols/store/sqlite.py:332-382 | Re-recording any earlier batch of a history told in order creates nothing and changes nothing but the quoted run among ties. |
| QueueHistory.CreatedAreNewKeys | hotelcontrols/store/sqlite.py:332-396 | One entry per natural key: a batch adds exactly its failing keys that had none, and counts exactly those as created. |
| QueueHistory.LateFailureLosesPass | hotelcontrols/store/sqlite.py:372-376 | A result about the code: fail at 1, pass at 5, pass at 10, then a failure of 7 told late leaves the entry unannotated although a pass at 10 is later than every failure. |
| QueueHistory.EarlyPassIsLost | hotelcontrols/store/sqlite.py:348-355 | The second failing input: a pass at 10, then the failure of 7 that raises the entry, which is never annotated with it. |
| Codec.CodecRoundTrip | hotelcontrols/store/sqlite.py:105-136 | Decoding undoes encoding if and only if the payload is tagged at its top, a tuple of plain JSON, or plain JSON that does not look tagged. |
| Codec.DumpThenLoad | hotelcontrols/store/sqlite.py:105-136 | A payload survives plain JSON if and only if nothing inside it is a tuple, amount, decimal or sentinel. |
| Codec.EncodeFailsIff | hotelcontrols/store/sqlite.py:105-120 | Writing fails exactly when something inside is not JSON. |
| Codec.NestedTupleFlattens | hotelcontrols/store/sqlite.py:105-136 | A result about the code: a tuple inside a tuple comes back as a list. |
| Store.RunStore.SaveRun | hotelcontrols/store/sqlite.py:202-248 | The upsert, the deletes and the inserts replace exactly this run's rows; another property's id or an unwritable payload changes nothing. |
| Store.RunStore.LoadRun | hotelcontrols/store/sqlite.py:251-295 | A run with its verdicts and evidence, for its own property only. |
| Store.RunStore.RecordFindings | hotelcontrols/store/sqlite.py:332-382 | The loops over failures and passes have the specified effect on the queue; a foreign finding is refused and an error undoes the batch. |
| Store.RunStore.Action | hotelcontrols/store/sqlite.py:419-425 | Another property's entry reads as missing. |
| Store.RunStore.TransitionTask | hotelcontrols/store/sqlite.py:427-455 | A person's move: allowed exactly from pending with a named actor; the stamp is theirs, and nothing else changes. |
| Store.RunStore.ClaimNotification | hotelcontrols/store/sqlite.py:461-470 | Marks as being sent, for exactly the caller that finds no marker. |
| Store.RunStore.ReleaseNotification | hotelcontrols/store/sqlite.py:472-478 | Frees the marker with a reason. |
| Store.RunStore.NoteNotification | hotelcontrols/store/sqlite.py:480-486 | Says why an unsent entry is unsent, never on one with a marker. |
| Store.RunStore.KeepDecision | hotelcontrols/store/sqlite.py:490-519 | A decision and its queue entry together, once; a repeat is answered with the first, a colliding id or mismatched entry is refused with no change. |
| StoreTheorems.SaveThenReload | hotelcontrols/store/sqlite.py:202-295 | `load` after `save` gives back the same run, verdicts and evidence, over every store, if and only if every payload is one the codec gives back and each verdict names the run's control. |
| StoreTheorems.ReloadAfterSave | hotelcontrols/store/sqlite.py:202-295 | What `load` gives after any accepted `save`, also for payloads that do not come back. |
| StoreTheorems.RowsStayOrdered | hotelcontrols/store/sqlite.py:229-283 | Over every sequence of writes the rows of each run stand in the order of their positions and lines, each place once, so ordering them on reading changes nothing. |
| Tenancy.OthersSeeNothing | hotelcontrols/store/sqlite.py:202-519 | In every store a write for one property leaves every read of every other property unchanged. |
| Tenancy.AsIfAlone | hotelcontrols/store/sqlite.py:202-519 | Over every sequence of writes in which no two properties use one run or decision id, a property reads exactly what it would read if it had the store to itself. |
| Tenancy.CollidingIdIsRefused | hotelcontrols/store/sqlite.py:213-231 | Another property's run id or decision id, or a mismatched entry, is refused with no row changed. |
| Tenancy.DecidedOnce | hotelcontrols/store/sqlite.py:490-519 | The same decision twice returns the first unchanged and raises no second entry. |
| Dispatch.Deliver | hotelcontrols/actions/notify.py:162-198 | One delivery over the task's own fields: Sent if and only if the task read is unmarked, pending, of kind "notify", addressed to a routed audience, the stored entry is unmarked and the message goes out; each other answer has its own exact condition, and the queue afterwards is said field by field. |
| Dispatch.DispatchFindings | hotelcontrols/actions/notify.py:144-159 | Each finding's entry read and delivered in order. |
| Dispatch.DeliveredOnce | hotelcontrols/actions/notify.py:162-198 | An undisturbed delivery sets the marker exactly when it sends, and a later one then sends nothing. |
| Dispatch.DispatchSendsOnce | hotelcontrols/actions/notify.py:144-198 | Over any sequence of dispatches, through any backends, an entry is sent at most once, exactly when its marker becomes set. |
| Dispatch.AtMostOneEmail | hotelcontrols/actions/notify.py:162-198 | Over every interleaving of any number of dispatchers, people and recorded runs at every store call: at most one email per entry, and its marker is set if and only if one dispatcher owns the claim or that email went out, never both. |
| Dispatch.OnlyMailableAreEmailed | hotelcontrols/actions/notify.py:162-198 | Over every interleaving a message goes out only about an entry some dispatcher read as unmarked, pending, of kind "notify" and addressed, and then found a route for. |
| Dispatch.JudgeOwnsIff | hotelcontrols/actions/notify.py:165-179 | A dispatcher owns the claim if and only if what it read is such an entry, its audience is routed and the stored entry is unmarked. |
| Dispatch.RaceHasOneWinner | hotelcontrols/store/sqlite.py:427-455 | Over every interleaving, once any person has been answered about an entry that was open, exactly one moved it and every other was refused. |
| Dispatch.CrashedClaimIsNeverSent | hotelcontrols/actions/notify.py:179-198 | A dispatcher that stops between claim and send leaves the marker set for ever and no email about that entry ever goes out. |
| Dispatch.ClosedBeforeReadIsNeverEmailed | hotelcontrols/actions/notify.py:165-198 | Over every interleaving: an entry closed at any moment of the run, by anyone, at which no dispatcher owns its claim or has read it as claimable, is never emailed after that moment. |
| Dispatch.ClosedCanBeEmailedIff | hotelcontrols/actions/notify.py:162-198 | The exact condition, over every reachable state: a closed entry not yet emailed can still be emailed if and only if some dispatcher owns its claim or has read it as claimable, and none has stopped with the claim. |
| Dispatch.ClosedAfterReadIsEmailed | hotelcontrols/store/sqlite.py:461-470 | A result about the code, and its input: the claim does not ask for pending, so an entry closed between the read and the claim is emailed. |
| LateCheckout.FeeFor | hotelcontrols/guest/fee.py:46-57 | Repeated addition gives exactly hours times the rate in the rate's currency, and nothing for no hours. |
| LateCheckout.HoursAreExact | hotelcontrols/guest/fee.py:32-43 | For positive elapsed time started hours are the exact ceiling and completed hours the exact floor of minutes over 60. |
| LateCheckout.FirstMatchDecides | hotelcontrols/guest/decision.py:116-185 | The rule that decides is the first of the eleven whose own condition holds, and it decides what the table says. |
| LateCheckout.GapsNeverDecide | hotelcontrols/guest/decision.py:119-124 | Any gap, and only a gap, is left to a person by the first rule, which lists every gap. |
| LateCheckout.EveryGapIsListed | hotelcontrols/guest/decision.py:119-124 | Each gap is listed under its own name exactly when it is there: no reservation, a status that is none of the six, no departure, and each undecided part of the policy. |
| LateCheckout.GrantedIff | hotelcontrols/guest/decision.py:116-185 | A late checkout is granted if and only if everything is established, the guest is checked in and leaves today, and the time is free or needs nobody's approval. |
| LateCheckout.DeniedIff | hotelcontrols/guest/decision.py:116-185 | A late checkout is denied if and only if everything is established and the stay is cancelled, checked out or past its last day without a check-in, or the guest is checked in, leaves today and asks for a time past both the free time and the latest. |
| LateCheckout.LaterIsNeverKinder | hotelcontrols/guest/decision.py:157-185 | Asking for a later time never gets a kinder answer (approved, with fee, staff review, denied), for every policy, ordered or not. |
| LateCheckout.FeeIsHoursTimesRate | hotelcontrols/guest/decision.py:167-185 | A fee is applied exactly with APPROVED_WITH_FEE, for at least one hour, as charged hours times the rate; UNAVAILABLE is never answered. |
| LateCheckout.LaterNeverCostsLess | hotelcontrols/guest/decision.py:167-185 | With a non-negative rate a later time's fee is never lower and keeps its currency. |
| LateCheckout.FeeNeverFallsIff | hotelcontrols/guest/fee.py:46-57 | One more hour costs no less if and only if the rate is not negative. |
| SpecLock.LockProblems | hotelcontrols/spec/lock.py:91-118 | A problem of its own kind for exactly each recorded control whose version went backwards, and each whose digest changed under its version. |
| SpecLock.BuildLock | hotelcontrols/spec/lock.py:128-145 | Accepted if and only if every control on file and recorded has a higher version or the same version and digest; then the record is what is on file, and otherwise each such control is named. |
| SpecLock.RecordNeverLies | hotelcontrols/spec/lock.py:91-145 | Over every history of edits and re-locks in which a control stays present, its recorded version never decreases and keeps its digest while unchanged. |
| SpecLock.OneVersionOneContent | hotelcontrols/spec/lock.py:91-145 | Any two moments of such a history that record one version record one digest. |
| SpecLock.RelockSettles | hotelcontrols/spec/lock.py:121-145 | A refused re-lock changes nothing; an accepted one leaves nothing unrecorded and is accepted again. |
| SpecLock.CurrentIff | hotelcontrols/spec/lock.py:121-125 | Nothing is wrong and nothing waits if and only if every control on file is recorded as it stands. |
| SpecLock.RelockKeepsIff | hotelcontrols/spec/lock.py:128-145 | One re-lock keeps every recorded control, with what it truthfully says, if and only if it is refused or drops no recorded control. |
| SpecLock.RecordHoldsIff | hotelcontrols/spec/lock.py:91-145 | Over every history of edits and re-locks: what is recorded of a control at one moment is recorded, truthfully, at every later one if and only if no accepted re-lock found it recorded and off file. |
| SpecLock.OneContentIff | hotelcontrols/spec/lock.py:91-145 | Over every history, through any removals and returns: the recorded version of a control never decreases and one version stands for one content, at any two moments that record it, if and only if no accepted re-lock recorded of it, while it was off the record, what contradicts the last that was recorded. |
| SpecLock.DroppedControlEscapes | hotelcontrols/spec/lock.py:143-144 | A result about the code: from any record, whenever an accepted re-lock drops a control, it may come back under its old version with any other content. |

## Left out

- RecordStable: allows for an exception, because a value that is read later may be ill-typed for an ordering; `Records.TypedRecordStable` is the exact form for well-typed evidence.
- PopulationStable: a PASS is kept only while no record with an unreadable key turns out to share its key, because the code does not count such records against any group; `PopulationFinality` says exactly when that can happen.
- PassIsFinalIff: one reading decides only where reading the key settles nobody whose place was unsure; `PopulationFinality.FinalIffKeys` needs no such hypothesis and quantifies over the readings of the keys.
- GatheredAgainRefines: the listed values of a set reference, and a set or windowed collection that was unavailable, are taken to be the same when asked again; a lookup is taken to be final in the sense of `References.LookupIsFinalIff`.
- Decode: a dictionary that carries one of the tags with something other than the text or list the encoder writes is unreadable here, where the source may make another value of it; what was written comes back in neither case.
- CompileSentence: ends where the sentence's own half ends; `Finish.CompileDocument` is the whole.
- CompileDocument: the schema and the checks not in `Checks` are functions of the document that it is given, and the deployment's values are opaque.
- PassHoldsOfTheWorld: assumes that the provider's response holds every record touching the window and that the rule reads the dates the window bounds; the provider itself is foreign code.
- DispatchFindings: assumes each finding's entry is in the queue, as it is after the findings were recorded; the source would raise on a missing one.
- NormalForm: covers sentences whose tokens can all be written down; a token that opens a double quote and never closes it cannot.
- RecordingAgainIsSafe: covers batches as `findings_from` makes them, told in the order of their instants; out of order, `QueueHistory.ReplayIsSafeIff` says exactly when.
- AsIfAlone: asks that no two properties use one id, which holds of ids that are digests including the property; otherwise the second user of an id is refused.
- Reason sentences, the order of evidence lines in a verdict, and which missing field is named first: the outcome and the deciding record are kept.
- Floating-point literals of a rule are kept as their digits; Decimal context rounding and non-finite decimals are not modelled.
- Unicode: white space, digits and case folding are those of ASCII.
- Ordering tuples, and the text of a tuple or dictionary inside a key, are modelled as raising and as an opaque text.
- The text form of JSON, and a digest whose joined parts contain the separator.
- The validator's other checks (the schema, vocabulary, references, interval operands, collections, windows, relative values, tenant settings).
- Relative dates: a plan's windows and a rule's values are taken as already resolved by the property's clock.
- The columns of a decision beyond its id and property are one opaque text; the order in which the queue, the decisions and a history are listed is left out.
- The schema's migration, transactions that fail inside SQLite, and connections: each `with` block is one atomic step.
- An instant without its timezone, a state that is not one of the three and an unknown hour rounding are excluded by types.
- Rendering of messages and links, routing tables and SMTP: whether an audience has a route and what becomes of a message are parameters.
- The runner, readiness, freshness, schedules, the web surface and the proposers.
