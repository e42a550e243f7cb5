/**
 * The curator's two routines that change the playbook object: the delta-operation executor
 * and the deduplication pass. Each is an imperative loop over the `Playbook` methods, proved
 * against the value-level functions of `CuratorSpec` and `DedupSpec`.
 */
module Curator {
  import opened Wrappers
  import opened Seqs
  import opened Ranking
  import opened Bullets
  import opened StoreSpec
  import opened Store
  import opened CuratorSpec
  import opened DedupSpec

  // ---------------------------------------------------------------- execute_operations

  /** One pass of the loop body of `execute_operations`, on the playbook object. */
  method ExecuteStep(pb: Playbook, op: Operation, stamp: string, now: string) returns (r: OpResult)
    requires pb.Valid()
    modifies pb`bullets, pb`durable, pb`saves, pb.bullets
    ensures pb.Valid()
    ensures Step(pb.Records(), r) == ExecuteOne(old(pb.Records()), op, stamp, now)
    ensures r.success ==> pb.saves == old(pb.saves) + 1 && pb.durable == SavedFile(pb.version, pb.Records())
    ensures !r.success ==> pb.saves == old(pb.saves) && pb.durable == old(pb.durable)
    ensures forall k :: 0 <= k < |pb.bullets| ==> pb.bullets[k] in old(pb.bullets) || fresh(pb.bullets[k])
  {
    if op.NotAnObject? {
      return OpResult(None, false, None, NoReasoning, ErrorPrefix + AttributeErrorText(op.typeName));
    }
    var opType := op.opType;
    var reasoning := op.reasoning.GetOr(NoReasoning);
    if opType == Some("add") {
      if op.content.None? {
        return OpResult(opType, false, None, reasoning, ErrorPrefix + KeyErrorText("content"));
      }
      if op.section.None? {
        return OpResult(opType, false, None, reasoning, ErrorPrefix + KeyErrorText("section"));
      }
      var b := pb.AddBullet(op.content.value, op.section.value, stamp, now);
      assert b.Record() == pb.Records()[|pb.Records()| - 1];
      r := OpResult(Some("add"), true, Some(b.id), reasoning, "Added new bullet to section '" + op.section.value + "'");
    } else if opType == Some("remove") {
      if op.bulletId.None? {
        return OpResult(opType, false, None, reasoning, ErrorPrefix + KeyErrorText("bullet_id"));
      }
      ghost var before := pb.Records();
      ghost var objs := pb.bullets;
      var success := pb.RemoveBullet(op.bulletId.value);
      RemovedShrinksIffPresent(before, op.bulletId.value);
      WithoutIdMembers(objs, op.bulletId.value);
      r := OpResult(Some("remove"), success, op.bulletId, reasoning, if success then "Removed bullet" else "Bullet not found");
    } else if opType == Some("modify") || opType == Some("mark_helpful") || opType == Some("mark_harmful") {
      if op.bulletId.None? {
        return OpResult(opType, false, None, reasoning, ErrorPrefix + KeyErrorText("bullet_id"));
      }
      var success: bool;
      if opType == Some("modify") {
        success := pb.ModifyBullet(op.bulletId.value, op.newContent, false, false, now);
        r := OpResult(Some("modify"), success, op.bulletId, reasoning, if success then "Modified bullet" else "Bullet not found");
      } else if opType == Some("mark_helpful") {
        success := pb.ModifyBullet(op.bulletId.value, None, true, false, now);
        r := OpResult(Some("mark_helpful"), success, op.bulletId, reasoning, if success then "Marked as helpful" else "Bullet not found");
      } else {
        success := pb.ModifyBullet(op.bulletId.value, None, false, true, now);
        r := OpResult(Some("mark_harmful"), success, op.bulletId, reasoning, if success then "Marked as harmful" else "Bullet not found");
      }
    } else {
      r := OpResult(opType, false, None, reasoning, UnknownPrefix + TypeText(opType));
    }
  }

  /**
   * `execute_operations`: every operation runs, in order, on the playbook object; the store
   * and the results end as `ExecuteAll` says (one result per operation, never aborting).
   * Operation k reads the clock as `ids(k)` for a new id and `clock(k)` for timestamps.
   * Every successful operation saves once and no failed one saves, so the file is untouched
   * when nothing succeeded and otherwise holds the final store.
   */
  method ExecuteOperations(pb: Playbook, ops: seq<Operation>, ids: nat -> string, clock: nat -> string)
    returns (results: seq<OpResult>)
    requires pb.Valid()
    modifies pb`bullets, pb`durable, pb`saves, pb.bullets
    ensures pb.Valid()
    ensures Batch(pb.Records(), results) == ExecuteAll(old(pb.Records()), ops, ids, clock)
    ensures pb.saves == old(pb.saves) + CountSuccessful(results)
    ensures CountSuccessful(results) == 0 ==> pb.durable == old(pb.durable)
    ensures CountSuccessful(results) > 0 ==> pb.durable == SavedFile(pb.version, pb.Records())
  {
    ghost var recs := pb.Records();
    results := [];
    var i := 0;
    while i < |ops|
      invariant 0 <= i <= |ops| && pb.Valid()
      invariant Batch(pb.Records(), results) == ExecuteAll(recs, ops[..i], ids, clock)
      invariant pb.saves == old(pb.saves) + CountSuccessful(results)
      invariant CountSuccessful(results) == 0 ==> pb.durable == old(pb.durable)
      invariant CountSuccessful(results) > 0 ==> pb.durable == SavedFile(pb.version, pb.Records())
      invariant forall k :: 0 <= k < |pb.bullets| ==> pb.bullets[k] in old(pb.bullets) || fresh(pb.bullets[k])
    {
      results := ExecuteNext(pb, ops, ids, clock, i, recs, results, old(pb.durable), old(pb.saves));
      i := i + 1;
    }
    assert ops[..i] == ops;
  }

  /**
   * Operation `i` of `execute_operations`, appended to the results of the first `i`; `d0` and
   * `s0` are the file and the save count before the first operation.
   */
  method ExecuteNext(pb: Playbook, ops: seq<Operation>, ids: nat -> string, clock: nat -> string, i: nat,
                     ghost recs: seq<BulletRecord>, results: seq<OpResult>, ghost d0: PlaybookFile, ghost s0: nat)
    returns (results': seq<OpResult>)
    requires i < |ops| && pb.Valid()
    requires Batch(pb.Records(), results) == ExecuteAll(recs, ops[..i], ids, clock)
    requires pb.saves == s0 + CountSuccessful(results)
    requires CountSuccessful(results) == 0 ==> pb.durable == d0
    requires CountSuccessful(results) > 0 ==> pb.durable == SavedFile(pb.version, pb.Records())
    modifies pb`bullets, pb`durable, pb`saves, pb.bullets
    ensures pb.Valid()
    ensures Batch(pb.Records(), results') == ExecuteAll(recs, ops[..i + 1], ids, clock)
    ensures pb.saves == s0 + CountSuccessful(results')
    ensures CountSuccessful(results') == 0 ==> pb.durable == d0
    ensures CountSuccessful(results') > 0 ==> pb.durable == SavedFile(pb.version, pb.Records())
    ensures forall k :: 0 <= k < |pb.bullets| ==> pb.bullets[k] in old(pb.bullets) || fresh(pb.bullets[k])
  {
    FailureLeavesStore(pb.Records(), ops[i], ids(i), clock(i));
    var r := ExecuteStep(pb, ops[i], ids(i), clock(i));
    ExecuteAllSnoc(recs, ops, ids, clock, i);
    assert (results + [r])[..|results|] == results;
    results' := results + [r];
  }

  /**
   * The part of `run_curator` after the reply is parsed: run the proposed operations and
   * summarise them: all proposed operations, their results, the total and the successes.
   */
  method ApplyProposal(pb: Playbook, ops: seq<Operation>, ids: nat -> string, clock: nat -> string)
    returns (report: CuratorReport)
    requires pb.Valid()
    modifies pb`bullets, pb`durable, pb`saves, pb.bullets
    ensures pb.Valid()
    ensures (pb.Records(), report) == RunCurator(old(pb.Records()), ops, ids, clock)
    ensures pb.saves == old(pb.saves) + report.successfulOperations
    ensures report.successfulOperations == 0 ==> pb.durable == old(pb.durable)
    ensures report.successfulOperations > 0 ==> pb.durable == SavedFile(pb.version, pb.Records())
  {
    var results := ExecuteOperations(pb, ops, ids, clock);
    report := Report(ops, results);
  }

  // ---------------------------------------------------------------- semantic_deduplication

  /** Picking objects and then reading their records is reading the records and then picking. */
  lemma RecordsOfPick(bs: seq<Bullet>, p: seq<nat>)
    requires AllBelow(p, |bs|)
    ensures RecordsOf(Pick(bs, p)) == Pick(RecordsOf(bs), p)
  {
  }

  /** Removing by id from the objects of the list is filtering its tags by id. */
  lemma {:induction false} WithoutIdPick(bs: seq<Bullet>, live: seq<nat>, id: string)
    requires AllBelow(live, |bs|)
    ensures WithoutId(Pick(bs, live), id) == Pick(bs, KeepLive(RecordsOf(bs), live, id))
  {
    if live != [] {
      var x := bs[live[0]];
      var head := if x.id == id then [] else [live[0]];
      var rest := KeepLive(RecordsOf(bs), live[1..], id);
      assert Pick(bs, live) == [x] + Pick(bs, live[1..]) by {
        assert live == [live[0]] + live[1..];
        PickConcat(bs, [live[0]], live[1..]);
      }
      assert WithoutId(Pick(bs, live), id) == (if x.id == id then [] else [x]) + WithoutId(Pick(bs, live[1..]), id) by {
        assert Pick(bs, live)[0] == x && Pick(bs, live)[1..] == Pick(bs, live[1..]);
      }
      assert KeepLive(RecordsOf(bs), live, id) == head + rest by {
        assert RecordsOf(bs)[live[0]].id == x.id;
      }
      assert WithoutId(Pick(bs, live[1..]), id) == Pick(bs, rest) by {
        WithoutIdPick(bs, live[1..], id);
      }
      assert Pick(bs, head + rest) == (if x.id == id then [] else [x]) + Pick(bs, rest) by {
        PickConcat(bs, head, rest);
      }
    }
  }

  /**
   * How the playbook object stands to the value-level state of the pass: `objs0` are the
   * bullet objects at the start (tag t is `objs0[t]`), their records are `st.objs`, and the
   * store's list is the objects of the tags in `st.live`.
   */
  ghost predicate Corr(pb: Playbook, objs0: seq<Bullet>, st: Scan)
    reads pb, objs0
  {
    pb.Valid() && Distinct(objs0) && WellFormed(st) && |objs0| == |st.objs| &&
    RecordsOf(objs0) == st.objs && pb.bullets == Pick(objs0, st.live)
  }

  /** Under the correspondence, the store's records are the view of the value-level state. */
  lemma CorrRecords(pb: Playbook, objs0: seq<Bullet>, st: Scan)
    requires Corr(pb, objs0, st)
    ensures pb.Records() == View(st)
  {
    RecordsOfPick(objs0, st.live);
  }

  /** `modify_bullet(id, mark_helpful=...)` on the store, keeping the correspondence. */
  method ModifyKeepingCorr(pb: Playbook, ghost objs0: seq<Bullet>, ghost st: Scan, id: string, markHelpful: bool, now: string)
    returns (found: bool)
    requires Corr(pb, objs0, st)
    modifies pb`durable, pb`saves, objs0
    ensures Corr(pb, objs0, st.(objs := ModifyLive(st.objs, st.live, id, markHelpful, now)))
    ensures found <==> id in Ids(old(pb.Records()))
    ensures found ==> pb.saves == old(pb.saves) + 1 && pb.durable == SavedFile(pb.version, pb.Records())
    ensures !found ==> pb.saves == old(pb.saves) && pb.durable == old(pb.durable)
  {
    ghost var objs' := ModifyLive(st.objs, st.live, id, markHelpful, now);
    ghost var records := RecordsOf(objs0);
    RecordsOfPick(objs0, st.live);
    ModifyLiveView(st.objs, st.live, id, markHelpful, now);
    assert forall k :: 0 <= k < |pb.bullets| ==> pb.bullets[k] == objs0[st.live[k]];
    found := pb.ModifyBullet(id, None, markHelpful, false, now);
    assert pb.Records() == Pick(objs', st.live);
    forall t | 0 <= t < |objs0| ensures objs0[t].Record() == objs'[t] {
      if t in st.live {
        var k :| 0 <= k < |st.live| && st.live[k] == t;
        assert objs0[t] == pb.bullets[k];
        assert pb.Records()[k] == objs'[t];
      } else {
        forall k | 0 <= k < |pb.bullets| ensures pb.bullets[k] != objs0[t] {
          assert pb.bullets[k] == objs0[st.live[k]];
        }
        assert records[t] == st.objs[t];
      }
    }
  }

  /**
   * `modify_bullet(id, mark_helpful=...)` during the pass, followed in the value-level state: the
   * store saves exactly when `id` is in it, and the ids are unchanged either way.
   */
  method ModifyTracked(pb: Playbook, ghost objs0: seq<Bullet>, ghost st: Scan, id: string, markHelpful: bool, now: string)
    requires Corr(pb, objs0, st)
    modifies pb`durable, pb`saves, objs0
    ensures Corr(pb, objs0, st.(objs := ModifyLive(st.objs, st.live, id, markHelpful, now)))
    ensures Ids(View(st.(objs := ModifyLive(st.objs, st.live, id, markHelpful, now)))) == Ids(View(st))
    ensures id in Ids(View(st)) ==> pb.saves == old(pb.saves) + 1
    ensures id in Ids(View(st)) ==>
      pb.durable == SavedFile(pb.version, View(st.(objs := ModifyLive(st.objs, st.live, id, markHelpful, now))))
    ensures id !in Ids(View(st)) ==> pb.saves == old(pb.saves) && pb.durable == old(pb.durable)
    ensures id !in Ids(View(st)) ==> View(st.(objs := ModifyLive(st.objs, st.live, id, markHelpful, now))) == View(st)
  {
    ghost var st' := st.(objs := ModifyLive(st.objs, st.live, id, markHelpful, now));
    CorrRecords(pb, objs0, st);
    ModifyLiveView(st.objs, st.live, id, markHelpful, now);
    var found := ModifyKeepingCorr(pb, objs0, st, id, markHelpful, now);
    CorrRecords(pb, objs0, st');
  }

  /**
   * `remove_bullet(id)` during the pass, followed in the value-level state: the store saves
   * exactly when `id` is in it.
   */
  method RemoveTracked(pb: Playbook, ghost objs0: seq<Bullet>, ghost st: Scan, id: string)
    requires Corr(pb, objs0, st)
    modifies pb`bullets, pb`durable, pb`saves
    ensures Corr(pb, objs0, st.(live := KeepLive(st.objs, st.live, id)))
    ensures id in Ids(View(st)) ==> pb.saves == old(pb.saves) + 1
    ensures id in Ids(View(st)) ==> pb.durable == SavedFile(pb.version, View(st.(live := KeepLive(st.objs, st.live, id))))
    ensures id !in Ids(View(st)) ==> pb.saves == old(pb.saves) && pb.durable == old(pb.durable)
    ensures id !in Ids(View(st)) ==> View(st.(live := KeepLive(st.objs, st.live, id))) == View(st)
  {
    CorrRecords(pb, objs0, st);
    var removed := pb.RemoveBullet(id);
    RemovedShrinksIffPresent(View(st), id);
    WithoutIdPick(objs0, st.live, id);
    KeepLiveNoRepeats(st.objs, st.live, id);
    CorrRecords(pb, objs0, st.(live := KeepLive(st.objs, st.live, id)));
  }

  /**
   * A merge of `loser` into `keeper` during the pass: `modify_bullet` on the keeper's id (one
   * helpful vote if the loser has any), then `remove_bullet` on the loser's id. Each of the two
   * saves exactly when its id is still in the store.
   */
  method MergeTracked(pb: Playbook, keeper: Bullet, loser: Bullet, reasoning: Option<string>, now: string,
                      ghost objs0: seq<Bullet>, ghost s: Scan, ghost keep: nat, ghost lose: nat)
    returns (record: MergeRecord, ghost s': Scan)
    requires Corr(pb, objs0, s) && keep < |objs0| && lose < |objs0| && objs0[keep] == keeper && objs0[lose] == loser
    modifies pb`bullets, pb`durable, pb`saves, objs0
    ensures s' == Merge(s, keep, lose, reasoning, now) && Corr(pb, objs0, s')
    ensures record == MergeRecord(s.objs[keep].id, s.objs[lose].id, reasoning)
    ensures pb.saves == old(pb.saves) + (if record.kept in Ids(View(s)) then 1 else 0)
                                      + (if record.removed in Ids(View(s)) then 1 else 0)
    ensures FileFollows(old(pb.durable), old(pb.saves), View(s), pb.durable, pb.saves, View(s'), pb.version)
  {
    assert keeper.Record() == s.objs[keep] && loser.Record() == s.objs[lose];
    CorrRecords(pb, objs0, s);
    var keptId, removedId := keeper.id, loser.id;
    var helpful := loser.helpfulCount > 0;
    ModifyTracked(pb, objs0, s, keptId, helpful, now);
    ghost var s2 := s.(objs := ModifyLive(s.objs, s.live, keptId, helpful, now));
    RemoveTracked(pb, objs0, s2, removedId);
    record := MergeRecord(keptId, removedId, reasoning);
    s' := Merge(s, keep, lose, reasoning, now);
    assert View(s') == View(s2.(live := KeepLive(s2.objs, s2.live, removedId)));
  }

  /**
   * The body of the inner loop for bullet1 = `objs0[a]` and bullet2 = `objs0[b]`: the checked
   * key, the section test, the judge, and the merge into the bullet with the higher (or equal)
   * confidence; `merged` tells the caller to break. Only a merge saves: once for the keeper
   * and once for the loser, each only if that id is still in the store.
   */
  method ComparePair(pb: Playbook, bullet1: Bullet, bullet2: Bullet, checked: set<string>, merges: seq<MergeRecord>,
                     judge: Judge, threshold: real, now: string,
                     ghost objs0: seq<Bullet>, ghost st: Scan, ghost a: nat, ghost b: nat,
                     ghost d0: PlaybookFile, ghost s0: nat, ghost r0: seq<BulletRecord>)
    returns (checked': set<string>, merges': seq<MergeRecord>, merged: bool, ghost st': Scan)
    requires Corr(pb, objs0, st) && checked == st.checked && merges == st.merges
    requires FileFollows(d0, s0, r0, pb.durable, pb.saves, View(st), pb.version)
    requires a < |objs0| && b < |objs0| && objs0[a] == bullet1 && objs0[b] == bullet2
    modifies pb`bullets, pb`durable, pb`saves, objs0
    ensures PairStep(st, a, b, judge, threshold, now) == PairOutcome(st', merged)
    ensures Corr(pb, objs0, st') && checked' == st'.checked && merges' == st'.merges
    ensures !merged ==> pb.saves == old(pb.saves) && pb.durable == old(pb.durable) && View(st') == View(st)
    ensures merged ==> |merges'| == |merges| + 1
    ensures merged ==> pb.saves == old(pb.saves) + (if merges'[|merges|].kept in Ids(View(st)) then 1 else 0)
                                                  + (if merges'[|merges|].removed in Ids(View(st)) then 1 else 0)
    ensures FileFollows(old(pb.durable), old(pb.saves), View(st), pb.durable, pb.saves, View(st'), pb.version)
    ensures FileFollows(d0, s0, r0, pb.durable, pb.saves, View(st'), pb.version)
  {
    assert bullet1.Record() == st.objs[a] && bullet2.Record() == st.objs[b];
    checked', merges', merged, st' := checked, merges, false, st;
    var key := PairKey(bullet1.id, bullet2.id);
    if key in checked {
      return;
    }
    checked' := checked + {key};
    st' := st.(checked := checked');
    if bullet1.section != bullet2.section {
      return;
    }
    var reply := judge(bullet1.content, bullet2.content);
    if reply.Some? && reply.value.areDuplicates && reply.value.similarityScore.GetOr(0.0) >= threshold {
      var keeper, loser;
      ghost var keep, lose;
      if bullet1.Confidence() >= bullet2.Confidence() {
        keeper, loser, keep, lose := bullet1, bullet2, a, b;
      } else {
        keeper, loser, keep, lose := bullet2, bullet1, b, a;
      }
      var record;
      ghost var s1 := st';
      record, st' := MergeTracked(pb, keeper, loser, reply.value.reasoning, now, objs0, st', keep, lose);
      FileFollowsTrans(d0, s0, r0, old(pb.durable), old(pb.saves), View(s1), pb.durable, pb.saves, View(st'), pb.version);
      merges' := merges + [record];
      merged := true;
    }
  }

  /**
   * The inner loop of `semantic_deduplication` for snapshot position i: bullet i is compared
   * with every later bullet of the snapshot until the first merge.
   */
  method CompareWithLater(pb: Playbook, bullets: seq<Bullet>, i: nat, checked: set<string>, merges: seq<MergeRecord>,
                          judge: Judge, threshold: real, now: string,
                          ghost objs0: seq<Bullet>, ghost snap: seq<nat>, ghost st: Scan,
                          ghost d0: PlaybookFile, ghost s0: nat, ghost r0: seq<BulletRecord>)
    returns (checked': set<string>, merges': seq<MergeRecord>, ghost st': Scan)
    requires i < |bullets| == |snap| && AllBelow(snap, |objs0|)
    requires forall k :: 0 <= k < |snap| ==> bullets[k] == objs0[snap[k]]
    requires Corr(pb, objs0, st) && checked == st.checked && merges == st.merges
    requires FileFollows(d0, s0, r0, pb.durable, pb.saves, View(st), pb.version)
    modifies pb`bullets, pb`durable, pb`saves, objs0
    ensures Corr(pb, objs0, st') && checked' == st'.checked && merges' == st'.merges
    ensures st' == Inner(st, snap, i, i + 1, judge, threshold, now)
    ensures FileFollows(old(pb.durable), old(pb.saves), View(st), pb.durable, pb.saves, View(st'), pb.version)
    ensures pb.saves <= old(pb.saves) + 2 * (|merges'| - |merges|)
    ensures FileFollows(d0, s0, r0, pb.durable, pb.saves, View(st'), pb.version)
  {
    checked', merges', st' := checked, merges, st;
    var j := i + 1;
    while j < |bullets|
      invariant i + 1 <= j <= |bullets|
      invariant Corr(pb, objs0, st') && checked' == st'.checked && merges' == st'.merges
      invariant FileFollows(old(pb.durable), old(pb.saves), View(st), pb.durable, pb.saves, View(st'), pb.version)
      invariant |merges| <= |merges'| && pb.saves <= old(pb.saves) + 2 * (|merges'| - |merges|)
      invariant FileFollows(d0, s0, r0, pb.durable, pb.saves, View(st'), pb.version)
      invariant Inner(st', snap, i, j, judge, threshold, now) == Inner(st, snap, i, i + 1, judge, threshold, now)
    {
      var merged: bool;
      checked', merges', merged, st' := ComparePair(pb, bullets[i], bullets[j], checked', merges', judge, threshold, now,
                                                    objs0, st', snap[i], snap[j], d0, s0, r0);
      if merged {
        return;
      }
      j := j + 1;
    }
  }

  /** The outer loop of `semantic_deduplication`: every snapshot position in turn. */
  method CompareAll(pb: Playbook, bullets: seq<Bullet>, judge: Judge, threshold: real, now: string,
                    ghost objs0: seq<Bullet>, ghost snap: seq<nat>, ghost st: Scan)
    returns (merges: seq<MergeRecord>, ghost st': Scan)
    requires |bullets| == |snap| && AllBelow(snap, |objs0|)
    requires forall k :: 0 <= k < |snap| ==> bullets[k] == objs0[snap[k]]
    requires Corr(pb, objs0, st) && st.checked == {} && st.merges == []
    modifies pb`bullets, pb`durable, pb`saves, objs0
    ensures Corr(pb, objs0, st') && merges == st'.merges
    ensures st' == Outer(st, snap, 0, judge, threshold, now)
    ensures FileFollows(old(pb.durable), old(pb.saves), View(st), pb.durable, pb.saves, View(st'), pb.version)
    ensures pb.saves <= old(pb.saves) + 2 * |merges|
  {
    var checked: set<string> := {};
    merges := [];
    st' := st;
    var i := 0;
    while i < |bullets|
      invariant 0 <= i <= |bullets|
      invariant Corr(pb, objs0, st') && checked == st'.checked && merges == st'.merges
      invariant Outer(st', snap, i, judge, threshold, now) == Outer(st, snap, 0, judge, threshold, now)
      invariant FileFollows(old(pb.durable), old(pb.saves), View(st), pb.durable, pb.saves, View(st'), pb.version)
      invariant pb.saves <= old(pb.saves) + 2 * |merges|
    {
      checked, merges, st' := CompareWithLater(pb, bullets, i, checked, merges, judge, threshold, now, objs0, snap, st',
                                               old(pb.durable), old(pb.saves), View(st));
      i := i + 1;
    }
  }

  /**
   * `semantic_deduplication`: a snapshot of the bullets ranked by confidence, taken once, is
   * scanned pair by pair; the store and the merge records end as `Dedup` says. At most two
   * saves per merge; the file is untouched when nothing was saved and otherwise holds the
   * final store.
   */
  method SemanticDeduplication(pb: Playbook, judge: Judge, threshold: real, now: string)
    returns (merges: seq<MergeRecord>)
    requires pb.Valid()
    modifies pb`bullets, pb`durable, pb`saves, pb.bullets
    ensures pb.Valid()
    ensures DedupResult(pb.Records(), merges) == Dedup(old(pb.Records()), judge, threshold, now)
    ensures |old(pb.bullets)| < 2 ==> unchanged(pb) && merges == []
    ensures FileFollows(old(pb.durable), old(pb.saves), old(pb.Records()), pb.durable, pb.saves, pb.Records(), pb.version)
    ensures pb.saves <= old(pb.saves) + 2 * |merges|
  {
    var bullets := pb.GetAllBullets();
    if |bullets| < 2 {
      return [];
    }
    ghost var objs0 := pb.bullets;
    ghost var recs := pb.Records();
    ghost var snap := Rank(Keys(recs));
    ghost var st := Start(recs);
    assert pb.bullets == Pick(objs0, st.live);
    RankNoRepeats(Keys(recs));
    ghost var st';
    CorrRecords(pb, objs0, st);
    merges, st' := CompareAll(pb, bullets, judge, threshold, now, objs0, snap, st);
    CorrRecords(pb, objs0, st');
  }
}
