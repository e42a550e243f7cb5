# Playbook engine: a verified Dafny model

This project models the playbook engine of a medical-intake chat assistant. It has four layers:

- **The playbook.** This is a store of learned *bullets* (short strategy texts). Each bullet carries:
  - an id, a section and timestamps;
  - a helpful and a harmful vote counter;
  - a derived confidence score.
- **The store operations.** The playbook supports add, remove, modify, confidence-ranked retrieval, prompt rendering and statistics.
- **The curator's operation executor.** It applies a batch of model-proposed delta operations (`add`, `remove`, `modify`, `mark_helpful`, `mark_harmful`) to the playbook and produces one result per operation. It also sums those results into the curator's report.
- **The deduplication pass.** It scans a confidence-ranked snapshot of the bullets pair by pair, within a section. It asks an external judge whether two texts are duplicates, and merges the loser into the keeper.

## Files

| File | Contents |
|---|---|
| `wrappers.dfy` | The `Option` and `Result` datatypes. |
| `seqs.dfy` | Sequence helpers: first index of a value, picking positions, Python-style `s[:stop]`. |
| `ranking.dfy` | A stable insertion sort of positions by decreasing key. It models Python's `sorted(..., reverse=True)`. |
| `bullet.dfy` | The confidence score, the value record of a bullet, and the dictionary form with its round trip. Also the `Bullet` class, whose counters and content are updated in place. |
| `store_spec.dfy` | Value-level functions for every store operation (remove, edit, modify, ranking, selection, grouping, rendering, statistics, seeding, loading), with lemmas about them. |
| `store.dfy` | The `Playbook` class: a list of `Bullet` objects plus the version. Every method is proved against the functions of `store_spec.dfy`. |
| `curator_spec.dfy` | Operations, results and the executor as functions; the report; the executor as written, with the finding below. |
| `dedup_spec.dfy` | The deduplication pass as functions over *tags* (positions at the start of the pass), with the lemmas about merges. |
| `curator.dfy` | The executor and the deduplication pass as imperative loops over the `Playbook` object. These are proved equal to the functions above. |

How the model is set up:

- **Time and ids are parameters.** The clock readings become string parameters: `stamp` is the text of a new id's timestamp, and `now` is the time written into `created_at`/`last_updated`.
- **Batches take clock functions.** A batch gets `ids(k)` and `clock(k)` for its k-th operation.
- **The file is a ghost value.** Saving writes a ghost `durable` value, the file contents that `save` would write, and bumps a ghost `saves` counter. `StoreSpec.FileFollows` names the relation every curator routine keeps: with no new save the file is as before, and after any save it holds the current store.
- **Ids need not be unique.** The docstring of `_generate_id` (playbook.py:22) calls the ids unique, but no code enforces it: `from_dict` accepts any non-empty id, and two bullets created in the same microsecond collide. So the model does not assume uniqueness:
  - `remove_bullet` drops every bullet with the id;
  - `modify_bullet` edits the first one;
  - `StoreSpec.UniqueIdsPreserved` shows that the operations keep uniqueness when it holds.
- **The judge is an oracle.** The deduplication judge is a function `(content1, content2) -> Option<JudgeReply>`. `None` stands for a failed call or a reply that does not parse.
- **The snapshot is modelled by tags.** The deduplication loop works on a snapshot that is never refreshed. Tags let the model keep the objects alive after they leave the store, while they are still shared with it. The imperative `Curator.SemanticDeduplication` runs on the real `Bullet` objects and is proved to agree with the tag model.

## Model

| member | source | states |
|---|---|---|
| Bullets.ConfidenceScore | playbook.py:57-62 | The score lies in [0, 1]. It is exactly 0.5 with no votes; otherwise score × (helpful + harmful) = helpful. |
| Bullets.MarkHelpfulNeverLowers | playbook.py:47-62 | A helpful vote never lowers the confidence. |
| Bullets.MarkHarmfulNeverRaises | playbook.py:52-62 | A harmful vote never raises the confidence. |
| Bullets.CompareByCrossMultiplication | playbook.py:57-62 | Comparing two confidences with votes is comparing the cross-multiplied counters. |
| Bullets.NewRecord | playbook.py:12-23 | A new bullet has id `bullet_<stamp>` (never empty), zero counters, confidence 0.5, and `last_updated == created_at`. |
| Bullets.DictOf | playbook.py:25-35 | `to_dict` fills every key. |
| Bullets.FromDict | playbook.py:37-45 | `from_dict` fails exactly when `content`, `section` or `id` is missing, naming the first missing key in that order. On success the id is the given one, or a generated `bullet_<stamp>` when the given one is empty; it is never empty. |
| Bullets.DictRoundTrip | playbook.py:25-45 | `from_dict(to_dict(b))` gives back every field of `b`. |
| Bullets.FromDictDefaults | playbook.py:40-44 | Missing counters default to 0; missing timestamps default to the creation time. |
| Bullets.Bullet.constructor | playbook.py:12-19 | A new bullet object holds the record `NewRecord` describes. |
| Bullets.Bullet.FromRecord | playbook.py:37-45 | The object `from_dict` builds holds exactly the checked record. |
| Bullets.Bullet.ToDict | playbook.py:25-35 | `to_dict` of an object is the dictionary `DictOf` gives for its current fields. |
| Bullets.Bullet.Confidence | playbook.py:57-62 | The score of the object's counters lies in [0, 1], and is 0.5 with no votes. |
| Bullets.Bullet.MarkHelpful | playbook.py:47-50 | Raises the helpful count by 1 and stamps `last_updated`; changes nothing else. |
| Bullets.Bullet.MarkHarmful | playbook.py:52-55 | Raises the harmful count by 1 and stamps `last_updated`; changes nothing else. |
| Seqs.FirstIndex | playbook.py:173-174 | The first position holding the value, or none exactly when the value is absent. |
| Seqs.SliceTo | playbook.py:207-208 | Python's `s[:k]`, including a negative `k`: always a prefix, of the length Python gives. |
| Ranking.Rank | playbook.py:192 | A ranking of all positions by non-increasing key, ties in original order. |
| Ranking.RankPermutes | playbook.py:192 | Picking by the ranking is a permutation of the list. |
| Ranking.RankSortedStable | playbook.py:192 | The keys are non-increasing along the ranking, and equal keys keep their original order. |
| StoreSpec.Removed | playbook.py:164 | No record with the id survives, and the list never grows. |
| StoreSpec.RemovedMembers | playbook.py:164 | Exactly the records with other ids survive. |
| StoreSpec.RemovedDistributes | playbook.py:164 | Filtering distributes over concatenation, so the relative order of the survivors is kept. |
| StoreSpec.RemovedShrinksIffPresent | playbook.py:161-168 | The list shrinks if and only if some record had the id; otherwise it is unchanged. |
| StoreSpec.RemoveTwice | playbook.py:161-168 | A second removal of the same id finds nothing and changes nothing. |
| StoreSpec.Edited | playbook.py:175-181 | Content is replaced if and only if the new content is non-empty. Helpful and harmful each rise by 1 exactly when asked. `last_updated` changes exactly when some effect was asked for. Id, section and creation time are kept. |
| StoreSpec.Modified | playbook.py:173-184 | Modifying keeps the length and every id. |
| StoreSpec.ModifiedTouchesFirstMatchOnly | playbook.py:173-184 | An absent id changes nothing. A present id edits exactly the first record that has it. |
| StoreSpec.UniqueIdsPreserved | playbook.py:154-184 | With unique ids, an add with a fresh id, any removal and any modify keep the ids unique. |
| StoreSpec.ByConfidence | playbook.py:190-192 | The confidence ranking is a permutation of the records. |
| StoreSpec.ByConfidenceSortedStable | playbook.py:190-192 | The ranked records are a permutation, with non-increasing confidence and ties in list order. |
| StoreSpec.InSections | playbook.py:202-203 | Every kept record has a listed section. |
| StoreSpec.InSectionsMembers | playbook.py:202-203 | Exactly the records of the listed sections are kept. |
| StoreSpec.Selected | playbook.py:199-208 | Never more records than the store holds. With `top_k` None or 0, every pooled record is kept. |
| StoreSpec.SelectedProperties | playbook.py:199-208 | Every chosen record comes from the store. With sections given, each has one of them. With a positive `top_k`, there are at most `top_k`; with none or 0, all are kept. The choice is a prefix of the ranked pool, and no dropped record outranks a chosen one. |
| StoreSpec.SingleBestOfSection | playbook.py:199-208 | With one section and `top_k = 1`, the one chosen record is a best-confidence record of that section. |
| StoreSpec.GroupBySection | playbook.py:210-215 | There are never more groups than records. |
| StoreSpec.GroupBySectionGroups | playbook.py:210-215 | The groups have distinct sections, covering exactly the sections present. Each holds that section's records in order. Groups appear in order of first appearance. |
| StoreSpec.AddToGroupsKeeps | playbook.py:212-215 | One step of the grouping loop preserves that invariant. |
| StoreSpec.PromptText | playbook.py:194-228 | The text always starts with the preamble. An empty store renders the preamble alone. |
| StoreSpec.Stats | playbook.py:230-239 | Reports the version and the bullet count, and an average confidence in [0, 1]. An empty store has no sections, no helpful feedback and average 0. |
| StoreSpec.AverageConfidence | playbook.py:238 | The mean of the confidences, so it lies in [0, 1]; it is 0 for an empty store. |
| StoreSpec.StatsAfterAdd | playbook.py:230-239 | An add raises the total by one, adds its section, and leaves the feedback totals unchanged. |
| StoreSpec.StatsAfterMarkHelpful | playbook.py:230-239 | A helpful mark on a present id keeps the bullet total and the harmful total, and raises the helpful total by exactly one. |
| StoreSpec.StatsAfterAbsentModify | playbook.py:230-239 | A modify of an absent id leaves the statistics unchanged. |
| StoreSpec.SeedRecords | playbook.py:81-128 | The seed is nine new bullets with the given sections and texts. |
| StoreSpec.SeedSectionSet | playbook.py:81-128 | The seed covers exactly the four baseline sections. |
| StoreSpec.SeedStats | playbook.py:81-128 | The seed has nine bullets, no feedback, and average confidence 0.5. |
| StoreSpec.LoadOrInitialize | playbook.py:73-139 | The store is saved if and only if there was no file. Every bullet it ends with has a non-empty id. |
| StoreSpec.LoadRecords | playbook.py:136 | Loading keeps one record per dictionary, each with a non-empty id. |
| StoreSpec.LoadSavedRecords | playbook.py:136-146 | Loading the dictionaries that saving writes gives back the records. |
| StoreSpec.SaveLoadRoundTrip | playbook.py:130-152 | Loading a saved file restores its version and records without saving again. |
| StoreSpec.CorruptFileReseeds | playbook.py:130-139 | An unreadable file, or one with a bad bullet, falls back to the seed without saving. |
| Store.MakeBullets | playbook.py:136 | One fresh, distinct object per record, holding that record, in order. |
| Store.EditBullet | playbook.py:175-181 | The bullet's record becomes `Edited` of its old record. |
| Store.AppendToSection | playbook.py:212-215 | One step of the grouping loop is exactly `AddToGroups`. |
| Store.AppendItems | playbook.py:224-226 | The item loop appends one item line per member, in order. |
| Store.WithoutIdRecords | playbook.py:164 | Filtering the objects by id filters their records by id. |
| Store.OfSectionRecords | playbook.py:186-188 | The section's objects have exactly the records of that section, in order. |
| Store.GroupInOrder | playbook.py:210-215 | The grouping loop builds exactly the grouping of the chosen records. |
| Store.RenderLines | playbook.py:217-228 | The rendering loop emits the preamble, then per group a heading, its items and a blank line. |
| Store.Playbook.constructor | playbook.py:68-71 | A new playbook starts at the default version, then loads or seeds. |
| Store.Playbook.LoadOrInitialize | playbook.py:73-79 | An existing file is loaded. With no file, the store is seeded and saved once. |
| Store.Playbook.InitializeDefaultPlaybook | playbook.py:81-128 | The bullets become fresh objects holding the seed records. |
| Store.Playbook.Load | playbook.py:130-139 | Takes the file's version (default `1.1`) and its bullets. If the bullets do not load, it falls back to the seed and keeps the version already read. |
| Store.Playbook.Save | playbook.py:141-152 | The file holds the version and every bullet's dictionary; one more save. |
| Store.Playbook.AddBullet | playbook.py:154-159 | Appends one fresh object holding `NewRecord`. Every earlier bullet is unchanged. Saves once. |
| Store.Playbook.RemoveBullet | playbook.py:161-168 | The list becomes the objects with other ids, in order. Returns true if and only if some bullet had the id, and saves only then. |
| Store.Playbook.ModifyBullet | playbook.py:170-184 | The records become `Modified` of the old ones and the list of objects is kept. Returns true if and only if the id is present, and saves once only then, even when no effect was asked for. |
| Store.Playbook.EditAt | playbook.py:173-181 | The bullet at the position gets `Edited`; every other bullet keeps its record. |
| Store.Playbook.GetBulletsBySection | playbook.py:186-188 | Only bullets of the section are returned (with `OfSectionRecords`: all of them, in order). |
| Store.Playbook.GetAllBullets | playbook.py:190-192 | The same objects, permuted, with non-increasing confidence. |
| Store.Playbook.AllBulletsRanked | playbook.py:190-192 | The records of the result are the stable confidence ranking of the store's records. |
| Store.Playbook.ToPromptText | playbook.py:194-228 | The lines are the rendering of the grouped, selected records. The store is read only. |
| Store.Playbook.GetStatistics | playbook.py:230-239 | Reports the total, the version and the set of sections, and the helpful and harmful totals as sums of the counters. The average confidence is the mean confidence, or 0 when empty. |
| CuratorSpec.MissingKey | curator_agent.py:158-215 | The first missing required key: `content` then `section` for an add, `bullet_id` for the other known types. |
| CuratorSpec.ExecuteOne | curator_agent.py:153-231 | One operation adds at most one bullet. A success always names a bullet id. A non-object entry fails and leaves the store unchanged. |
| CuratorSpec.ExecuteAll | curator_agent.py:151-155 | Exactly one result per operation. |
| CuratorSpec.ExecuteAllPrefix | curator_agent.py:151-233 | The results of a prefix of the batch are a prefix of the results. |
| CuratorSpec.ResultsInOrder | curator_agent.py:153-233 | Result k is operation k applied to the store left by the operations before it. |
| CuratorSpec.FailureLeavesStore | curator_agent.py:157-231 | A failed operation of any kind leaves the store unchanged. |
| CuratorSpec.UnknownTypeFails | curator_agent.py:217-223 | An unknown type fails with "Unknown operation type: …", with no bullet id and no change to the store. |
| CuratorSpec.MissingKeyFails | curator_agent.py:225-231 | A missing required key fails with the `KeyError` text and leaves the store as it was. |
| CuratorSpec.AddAppends | curator_agent.py:158-166 | A complete add succeeds, reports the new id and appends exactly the new record. |
| CuratorSpec.SuccessIffPresent | curator_agent.py:169-215 | For remove, modify and both marks, success holds if and only if a bullet had the id. |
| CuratorSpec.MarkHelpfulRaisesByOne | curator_agent.py:193-203 | `mark_helpful` raises the first matching bullet's helpful count by exactly 1 and stamps it. Nothing else changes. |
| CuratorSpec.CountIsSuccessPositions | curator_agent.py:129 | The success count is the number of results with `success` set. |
| CuratorSpec.Report | curator_agent.py:123-130 | The aggregation is the normal report form, and counts at most one success per result. |
| CuratorSpec.RunCurator | curator_agent.py:123-130 | The report lists the proposed operations and one result per operation. The total is their number; the successes are at most the total. |
| CuratorSpec.ReportCountsSuccesses | curator_agent.py:125-130 | `successful_operations` is the number of results with `success` true. |
| CuratorSpec.ExecuteAllAsWritten | curator_agent.py:151-233 | As written, when the loop finishes, its store and results are exactly the corrected `ExecuteAll`'s. |
| CuratorSpec.RunCuratorAsWritten | curator_agent.py:117-137 | As written, a normal report is exactly the corrected `RunCurator`'s. The error form appears if and only if some entry is not an object. |
| CuratorSpec.AsWrittenFinishesIffObjects | curator_agent.py:153-155 | As written, the loop runs to the end if and only if every entry is an object. |
| CuratorSpec.AsWrittenLosesAppliedResults | curator_agent.py:117-137 | As written, an add followed by a string leaves the add applied, but the report is an error with no results. |
| CuratorSpec.CorrectedReportsEveryOperation | curator_agent.py:123-130 | Corrected, the same batch reports both results: the add succeeds and the string fails. |
| CuratorSpec.ExampleBatch | curator_agent.py:151-233 | Add, remove of an unknown id, then mark the new bullet: success, failure, success, and one helpful vote. |
| DedupSpec.ModifyLive | curator_agent.py:293-296 | A modify during the pass keeps every object's identity and only raises helpful counts. |
| DedupSpec.ModifyLiveView | curator_agent.py:293-296 | Seen through the store's list it is `modify_bullet`. Objects no longer in the store do not change. |
| DedupSpec.KeepLive | curator_agent.py:297 | A removal during the pass drops exactly the store entries with the loser's id. |
| DedupSpec.Merge | curator_agent.py:290-315 | A merge appends the record (kept id, removed id, reasoning) and the pair, and keeps the checked set. |
| DedupSpec.PairStep | curator_agent.py:268-320 | One pair: a step without a merge changes only the checked set; a merge adds exactly one record. |
| DedupSpec.Inner | curator_agent.py:267-320 | The inner loop adds at most one merge record (it stops at the first merge). |
| DedupSpec.Outer | curator_agent.py:266-320 | The outer loop adds at most one merge record per snapshot position. |
| DedupSpec.Start | curator_agent.py:248 | The pass starts from the store's list, every object in the store. |
| DedupSpec.Dedup | curator_agent.py:248-325 | The store never grows and there are at most as many merges as bullets. With fewer than two bullets nothing changes and no merge is reported. |
| DedupSpec.KeepsAtMost | curator_agent.py:266-320 | The pass never adds a bullet to the store. |
| DedupSpec.OuterEvolves | curator_agent.py:266-320 | Across the pass, ids, sections, contents and harmful counts persist. Helpful counts never drop, the checked set and the merge list only grow, and the store only shrinks. |
| DedupSpec.OtherSectionNeverJudged | curator_agent.py:275-277 | Bullets of different sections never reach the judge and never merge. |
| DedupSpec.MergeRule | curator_agent.py:284-316 | A pair merges if and only if its key is new, the sections agree and the judge says duplicate at the threshold. bullet1 is kept if and only if its confidence is at least bullet2's. The record names the kept and removed ids. |
| DedupSpec.JudgeFailureContinues | curator_agent.py:318-320 | A judge failure is no merge; the scan goes on with only the key recorded. |
| DedupSpec.MergeEffect | curator_agent.py:290-303 | When the store's ids are unique, the keeper is still in the store and the two ids differ: the keeper gains exactly one helpful vote if and only if the loser had any, and no other object changes. The keeper stays and the loser's id leaves the store. |
| DedupSpec.StaleKeeperStillRecorded | curator_agent.py:248-316 | A keeper already removed earlier in the pass is not revived, yet the loser is removed and a merge record is still added. |
| DedupSpec.DedupMergesJustified | curator_agent.py:266-316 | Every reported merge names two different bullets of the starting store, both in one section, that the judge called duplicates at the threshold (in one order of the pair or the other). |
| Curator.ExecuteStep | curator_agent.py:153-231 | One loop body on the playbook object gives exactly `ExecuteOne`'s result and new store. A success saves once and leaves the file holding the new store. A failure saves nothing and leaves the file as it was. |
| Curator.ExecuteOperations | curator_agent.py:140-233 | The loop on the playbook object gives exactly `ExecuteAll`'s results and final store. The save count rises by the number of successes. The file is untouched when nothing succeeded, and holds the final store otherwise. |
| Curator.ExecuteNext | curator_agent.py:153-231 | One more operation extends the results of the earlier ones as `ExecuteAll` does, and keeps the save-count and file facts, measured from the start of the batch. |
| Curator.ApplyProposal | curator_agent.py:123-130 | The store and the report are exactly `RunCurator`'s. The save count rises by the reported successes; the file is untouched when there are none, and holds the final store otherwise. |
| Curator.ModifyKeepingCorr | curator_agent.py:293-296 | `modify_bullet` during the pass moves the objects as `ModifyLive` moves the tags' records. It returns true and saves once exactly when the id is in the store. |
| Curator.ModifyTracked | curator_agent.py:293-296 | The same, stated on the tag view. The ids never change. If the id is in the store, one save, and the file holds the new store. Otherwise no save, the file is as before, and so are the records. |
| Curator.RemoveTracked | curator_agent.py:297 | `remove_bullet` during the pass shrinks the list as `KeepLive` shrinks the tags. If the id is in the store, one save, and the file holds the new store. Otherwise no save, the file is as before, and so are the records. |
| Curator.MergeTracked | curator_agent.py:290-315 | A merge on the objects moves them exactly as `Merge`, and its record names the keeper's and the loser's ids. There is one save for each of the two ids that is still in the store. The file then holds the new store, or is as before when nothing was saved. |
| Curator.ComparePair | curator_agent.py:268-320 | One pair on the objects has exactly the outcome of `PairStep`. Without a merge: no save, the file is as before, and the store's records are unchanged. With a merge: one new record, one save per id still in the store, and the file holds the new store whenever something was saved. |
| Curator.CompareWithLater | curator_agent.py:267-320 | The inner loop, with its `break`, ends exactly as `Inner`. It saves at most twice per merge. The file is as before if nothing was saved, and otherwise holds the current store. |
| Curator.CompareAll | curator_agent.py:266-320 | The outer loop ends exactly as `Outer`, with at most two saves per merge and the same file relation. |
| Curator.SemanticDeduplication | curator_agent.py:236-325 | The final store and the merge records are exactly `Dedup`'s. With fewer than two bullets the playbook is untouched. There are at most two saves per merge. The file is untouched when nothing was saved, and holds the final store otherwise. |

## Left out

- File I/O is left out: opening, reading, writing and `os.path.exists`. The file is a ghost value (`PlaybookFile`), and a save always succeeds. A failing save, which the code only logs, is not modelled.
- The clock: `datetime.now()` readings become the `stamp` and `now` parameters. Operation k of a batch uses `ids(k)` and `clock(k)`. `modify_bullet` stamps content, helpful and harmful edits with one `now` where the code reads the clock up to three times.
- The LLM calls are left out. The curator call and its JSON parsing in `run_curator` (curator_agent.py:87-121, 132-137 apart from the error form modelled next to the finding) are not modelled; the model starts from the parsed operation list. The deduplication judge is an oracle that either returns a reply or fails. It is a fixed function of the two texts, so two pairs with equal contents always get the same verdict. The LLM call at curator_agent.py:285 need not be that consistent.
- Loose JSON typing: operation fields are strings or absent. A field present with a non-string value (a number, `null`) is not modelled.
- Bullet values in the file are typed too. `content`, `section` and `id` are strings or absent, and the counters are natural numbers. A file holding `"id": null`, `"content": null`, `"helpful_count": "3"` or a negative count is not modelled. `from_dict` would accept such values and `get_confidence_score` would then misbehave.
- The judge reply: a `similarity_score` that is missing counts as 0. A reply whose score is not a number, which raises in the comparison, is folded into judge failure (`None`).
- Floating point: confidences and the average are exact reals. For ratios of small counts, Python's float division keeps both equality and order, so the model stays faithful.
- Rendering: `to_prompt_text` is modelled as structured lines (preamble, section heading, item, blank). The `.title()` casing, the `:.2f` formatting and the exact greeting text are left out.
- The wording of the nine seed bullets is kept only as short labels. Their count and sections are exact.
- The `print` diagnostics are left out, as are the curator and deduplication prompt texts.
- `app.py`, `reflector_agent.py` and `summarizer_agent.py` are not part of this model.
- Store.Playbook.GetBulletsBySection: its own contract states only that every returned bullet has the section. That all of them are returned, in order, is stated by `Store.OfSectionRecords` and `Store.OfSectionMembers` about the function it returns.

## Findings

| source | as written | input that shows it | evidently intended | confidence | as-written member | corrected member |
|---|---|---|---|---|---|---|
| curator_agent.py:153-155 | `op.get("type")` and `op.get("reasoning", …)` run before the per-operation `try`. An entry that is not an object raises `AttributeError` out of the loop. `run_curator` then reports `Curator failed: …` with no results, although the earlier operations were already applied and saved. | The operation list `[{"type": "add", "content": "…", "section": "questioning"}, "str"]` | Every entry yields a result: a non-object entry becomes a failure result, and the batch goes on. Every other failure is already handled this way, by the per-operation `try`/`except` (curator_agent.py:157, 225-231) that turns it into a failure result. | not executed | CuratorSpec.RunCuratorAsWritten (lemma CuratorSpec.AsWrittenLosesAppliedResults) | CuratorSpec.RunCurator (lemma CuratorSpec.CorrectedReportsEveryOperation) |

The rest of the model uses the corrected executor. `CuratorSpec.ExecuteOne` turns a non-object entry into a failure result whose message is `Error executing operation: '<type>' object has no attribute 'get'`.
