/**
 * The `Playbook` object: an ordered list of bullet objects, a version tag, and — as ghost
 * state — the last file written and the number of saves. Every method is proved against the
 * value-level functions of `StoreSpec`.
 */
module Store {
  import opened Wrappers
  import opened Seqs
  import opened Bullets
  import opened StoreSpec

  /** The current records of a list of bullet objects, in order. */
  function RecordsOf(bs: seq<Bullet>): (r: seq<BulletRecord>)
    reads bs
    ensures |r| == |bs| && forall k :: 0 <= k < |bs| ==> r[k] == bs[k].Record()
  {
    seq(|bs|, k requires 0 <= k < |bs| reads bs => bs[k].Record())
  }

  /** No bullet object appears twice in the list. */
  predicate Distinct(bs: seq<Bullet>) {
    forall i, j :: 0 <= i < j < |bs| ==> bs[i] != bs[j]
  }

  /** The objects `remove_bullet` keeps: those whose id differs, in order. */
  function WithoutId(bs: seq<Bullet>, id: string): (r: seq<Bullet>)
    ensures forall k :: 0 <= k < |r| ==> r[k].id != id
  {
    if bs == [] then []
    else (if bs[0].id == id then [] else [bs[0]]) + WithoutId(bs[1..], id)
  }

  /** The objects `get_bullets_by_section` returns: those of one section, in order. */
  function OfSection(bs: seq<Bullet>, section: string): (r: seq<Bullet>)
    ensures forall k :: 0 <= k < |r| ==> r[k].section == section
    decreases |bs|
  {
    if bs == [] then []
    else OfSection(bs[..|bs| - 1], section) + (if bs[|bs| - 1].section == section then [bs[|bs| - 1]] else [])
  }

  lemma RecordsOfConcat(a: seq<Bullet>, b: seq<Bullet>)
    ensures RecordsOf(a + b) == RecordsOf(a) + RecordsOf(b)
  {
  }

  /** The filter keeps exactly the objects with another id. */
  lemma {:induction false} WithoutIdMembers(bs: seq<Bullet>, id: string)
    ensures forall k :: 0 <= k < |WithoutId(bs, id)| ==> WithoutId(bs, id)[k] in bs
    ensures forall k :: 0 <= k < |bs| && bs[k].id != id ==> bs[k] in WithoutId(bs, id)
  {
    if bs != [] {
      WithoutIdMembers(bs[1..], id);
      assert bs == [bs[0]] + bs[1..];
    }
  }

  /** The filter keeps exactly the objects of the section. */
  lemma {:induction false} OfSectionMembers(bs: seq<Bullet>, section: string)
    ensures forall k :: 0 <= k < |OfSection(bs, section)| ==> OfSection(bs, section)[k] in bs
    ensures forall k :: 0 <= k < |bs| && bs[k].section == section ==> bs[k] in OfSection(bs, section)
    decreases |bs|
  {
    if bs != [] {
      OfSectionMembers(bs[..|bs| - 1], section);
      assert bs == bs[..|bs| - 1] + [bs[|bs| - 1]];
    }
  }

  /** Filtering the objects by id filters their records the same way. */
  lemma {:induction false} WithoutIdRecords(bs: seq<Bullet>, id: string)
    ensures RecordsOf(WithoutId(bs, id)) == Removed(RecordsOf(bs), id)
  {
    if bs != [] {
      var head := if bs[0].id == id then [] else [bs[0]];
      var rs := RecordsOf(bs);
      assert RecordsOf(WithoutId(bs, id)) == RecordsOf(head) + RecordsOf(WithoutId(bs[1..], id)) by {
        RecordsOfConcat(head, WithoutId(bs[1..], id));
      }
      assert RecordsOf(WithoutId(bs[1..], id)) == Removed(rs[1..], id) by {
        WithoutIdRecords(bs[1..], id);
        assert rs[1..] == RecordsOf(bs[1..]);
      }
      assert RecordsOf(head) == if rs[0].id == id then [] else [rs[0]];
    }
  }

  /** Filtering keeps the objects distinct and their ids non-empty. */
  lemma {:induction false} WithoutIdDistinct(bs: seq<Bullet>, id: string)
    requires Distinct(bs) && forall k :: 0 <= k < |bs| ==> bs[k].id != ""
    ensures Distinct(WithoutId(bs, id)) && forall k :: 0 <= k < |WithoutId(bs, id)| ==> WithoutId(bs, id)[k].id != ""
  {
    if bs != [] {
      WithoutIdDistinct(bs[1..], id);
      WithoutIdMembers(bs[1..], id);
      var rest := WithoutId(bs[1..], id);
      forall k | 0 <= k < |rest| ensures rest[k] != bs[0] {
        assert rest[k] in bs[1..];
      }
    }
  }

  /** The bullets of one section are exactly the records the prompt groups under that section. */
  lemma {:induction false} OfSectionRecords(bs: seq<Bullet>, section: string)
    ensures RecordsOf(OfSection(bs, section)) == WithSection(RecordsOf(bs), section)
    decreases |bs|
  {
    if bs != [] {
      var init := bs[..|bs| - 1];
      OfSectionRecords(init, section);
      assert RecordsOf(bs)[..|bs| - 1] == RecordsOf(init);
    }
  }

  /** Allocates one bullet object per record, in order: the objects `from_dict` builds. */
  method MakeBullets(recs: seq<BulletRecord>) returns (bs: seq<Bullet>)
    ensures RecordsOf(bs) == recs && Distinct(bs)
    ensures forall b :: b in bs ==> fresh(b)
  {
    bs := [];
    var i := 0;
    while i < |recs|
      invariant 0 <= i <= |recs|
      invariant RecordsOf(bs) == recs[..i] && Distinct(bs)
      invariant forall b :: b in bs ==> fresh(b)
    {
      var b := new Bullet.FromRecord(recs[i]);
      bs := bs + [b];
      i := i + 1;
    }
  }

  /** The edits `modify_bullet` makes to the bullet it found, in the order it makes them. */
  method EditBullet(b: Bullet, newContent: Option<string>, markHelpful: bool, markHarmful: bool, now: string)
    modifies b
    ensures b.Record() == Edited(old(b.Record()), newContent, markHelpful, markHarmful, now)
  {
    if newContent.Some? && newContent.value != "" {
      b.content := newContent.value;
      b.lastUpdated := now;
    }
    if markHelpful {
      b.MarkHelpful(now);
    }
    if markHarmful {
      b.MarkHarmful(now);
    }
  }

  /** The grouping loop of `to_prompt_text`: `sections_dict` built one bullet at a time. */
  method GroupInOrder(chosen: seq<BulletRecord>) returns (groups: seq<Group>)
    ensures groups == GroupBySection(chosen)
  {
    groups := [];
    var i := 0;
    while i < |chosen|
      invariant 0 <= i <= |chosen|
      invariant groups == GroupBySection(chosen[..i])
    {
      groups := AppendToSection(groups, chosen[i]);
      assert chosen[..i + 1][..i] == chosen[..i] && chosen[..i + 1][i] == chosen[i];
      i := i + 1;
    }
    assert chosen[..i] == chosen;
  }

  /** The loop body of the grouping: create the section's list when it is missing, then append. */
  method AppendToSection(groups: seq<Group>, bullet: BulletRecord) returns (groups': seq<Group>)
    ensures groups' == AddToGroups(groups, bullet)
  {
    match FirstIndex(GroupSections(groups), bullet.section) {
      case None =>
        groups' := groups + [Group(bullet.section, [])];
        var k := |groups|;
        groups' := groups'[k := groups'[k].(members := groups'[k].members + [bullet])];
        assert groups'[k] == Group(bullet.section, [bullet]);
        assert groups' == groups + [Group(bullet.section, [bullet])];
      case Some(p) =>
        groups' := groups[p := groups[p].(members := groups[p].members + [bullet])];
    }
  }

  /** The formatting loops of `to_prompt_text`: preamble, then heading, items and a blank line per group. */
  method RenderLines(groups: seq<Group>) returns (lines: seq<PromptLine>)
    ensures lines == [Preamble] + RenderGroups(groups)
  {
    lines := [Preamble];
    var g := 0;
    while g < |groups|
      invariant 0 <= g <= |groups|
      invariant lines == [Preamble] + RenderGroups(groups[..g])
    {
      lines := lines + [SectionHeading(groups[g].section)];
      lines := AppendItems(lines, groups[g].members);
      lines := lines + [Blank];
      assert groups[..g + 1][..g] == groups[..g] && groups[..g + 1][g] == groups[g];
      g := g + 1;
    }
    assert groups[..g] == groups;
  }

  /** The inner loop of the formatting: one item line per member, appended in order. */
  method AppendItems(lines: seq<PromptLine>, members: seq<BulletRecord>) returns (lines': seq<PromptLine>)
    ensures lines' == lines + ItemLines(members)
  {
    lines' := lines;
    var m := 0;
    while m < |members|
      invariant 0 <= m <= |members|
      invariant lines' == lines + ItemLines(members[..m])
    {
      lines' := lines' + [Item(members[m].content, members[m].Confidence())];
      assert members[..m + 1][..m] == members[..m] && members[..m + 1][m] == members[m];
      m := m + 1;
    }
    assert members[..m] == members;
  }

  class Playbook {
    var bullets: seq<Bullet>
    var version: string
    /** The contents of the playbook file as last written or found. */
    ghost var durable: PlaybookFile
    /** How many times `save` has run. */
    ghost var saves: nat

    /** Each object appears once and every id is non-empty. */
    ghost predicate Valid()
      reads this
    {
      Distinct(bullets) && forall k :: 0 <= k < |bullets| ==> bullets[k].id != ""
    }

    /** The records of the bullets, in list order. */
    function Records(): seq<BulletRecord>
      reads this, bullets
    {
      RecordsOf(bullets)
    }

    /** `Playbook()`: start at the default version, then load or seed. */
    constructor (file: PlaybookFile, stamp: nat -> string, now: string)
      ensures Valid() && forall b :: b in bullets ==> fresh(b)
      ensures version == StoreSpec.LoadOrInitialize(file, stamp, now).version
      ensures Records() == StoreSpec.LoadOrInitialize(file, stamp, now).records
      ensures saves == if StoreSpec.LoadOrInitialize(file, stamp, now).saved then 1 else 0
      ensures durable == if file.NoFile? then SavedFile(version, Records()) else file
    {
      bullets := [];
      version := DefaultVersion;
      durable := file;
      saves := 0;
      new;
      LoadOrInitialize(file, stamp, now);
    }

    /** `load_or_initialize`: load an existing file, or seed and save when there is none. */
    method LoadOrInitialize(file: PlaybookFile, stamp: nat -> string, now: string)
      requires durable == file
      modifies this
      ensures Valid() && forall b :: b in bullets ==> fresh(b)
      ensures version == if file.Parsed? then file.version.GetOr(DefaultVersion) else old(version)
      ensures Records() == StoreSpec.LoadOrInitialize(file, stamp, now).records
      ensures saves == old(saves) + if file.NoFile? then 1 else 0
      ensures durable == if file.NoFile? then SavedFile(version, Records()) else file
    {
      if file.NoFile? {
        InitializeDefaultPlaybook(stamp, now);
        Save();
      } else {
        Load(file, stamp, now);
      }
    }

    /** `_initialize_default_playbook`: replace the bullets by the nine baseline ones. */
    method InitializeDefaultPlaybook(stamp: nat -> string, now: string)
      modifies this`bullets
      ensures Valid() && forall b :: b in bullets ==> fresh(b)
      ensures Records() == SeedRecords(stamp, now)
    {
      bullets := MakeBullets(SeedRecords(stamp, now));
    }

    /**
     * `load`: take the version and the bullets from the file; any failure (no file, unreadable
     * JSON, a bullet without a required key) falls back to the baseline bullets, keeping a
     * version that was already read.
     */
    method Load(file: PlaybookFile, stamp: nat -> string, now: string)
      modifies this`bullets, this`version
      ensures Valid() && forall b :: b in bullets ==> fresh(b)
      ensures version == if file.Parsed? then file.version.GetOr(DefaultVersion) else old(version)
      ensures file.Parsed? && LoadRecords(file.bullets.GetOr([]), stamp, now).Ok? ==>
        Records() == LoadRecords(file.bullets.GetOr([]), stamp, now).value
      ensures !(file.Parsed? && LoadRecords(file.bullets.GetOr([]), stamp, now).Ok?) ==>
        Records() == SeedRecords(stamp, now)
    {
      match file
      case Parsed(v, bs) =>
        version := v.GetOr(DefaultVersion);
        var loaded := LoadRecords(bs.GetOr([]), stamp, now);
        if loaded.Ok? {
          bullets := MakeBullets(loaded.value);
        } else {
          InitializeDefaultPlaybook(stamp, now);
        }
      case _ =>
        InitializeDefaultPlaybook(stamp, now);
    }

    /** `save`: the file now holds the version and every bullet's dictionary. */
    method Save()
      modifies this`durable, this`saves
      ensures durable == SavedFile(version, Records()) && saves == old(saves) + 1
    {
      durable := SavedFile(version, Records());
      saves := saves + 1;
    }

    /** `add_bullet`: append a new bullet, save, and return the new object. */
    method AddBullet(content: string, section: string, stamp: string, now: string) returns (b: Bullet)
      requires Valid()
      modifies this`bullets, this`durable, this`saves
      ensures Valid() && fresh(b) && bullets == old(bullets) + [b]
      ensures Records() == old(Records()) + [NewRecord(content, section, stamp, now)]
      ensures saves == old(saves) + 1 && durable == SavedFile(version, Records())
    {
      b := new Bullet(content, section, stamp, now);
      bullets := bullets + [b];
      assert Records() == old(Records()) + [b.Record()];
      Save();
    }

    /** `remove_bullet`: drop every bullet with the id; save and report true only if one was dropped. */
    method RemoveBullet(id: string) returns (removed: bool)
      requires Valid()
      modifies this`bullets, this`durable, this`saves
      ensures Valid() && bullets == WithoutId(old(bullets), id)
      ensures Records() == Removed(old(Records()), id)
      ensures removed <==> id in Ids(old(Records()))
      ensures removed ==> saves == old(saves) + 1 && durable == SavedFile(version, Records())
      ensures !removed ==> saves == old(saves) && durable == old(durable)
    {
      var originalLength := |bullets|;
      WithoutIdRecords(bullets, id);
      WithoutIdDistinct(bullets, id);
      RemovedShrinksIffPresent(Records(), id);
      bullets := WithoutId(bullets, id);
      if |bullets| < originalLength {
        Save();
        return true;
      }
      return false;
    }

    /**
     * `modify_bullet`: edit the first bullet with the id (content if the new one is non-empty,
     * then the helpful and harmful marks), save, and report true; report false when there is none.
     */
    method ModifyBullet(id: string, newContent: Option<string>, markHelpful: bool, markHarmful: bool, now: string)
      returns (found: bool)
      requires Valid()
      modifies this`durable, this`saves, bullets
      ensures Valid() && bullets == old(bullets)
      ensures Records() == Modified(old(Records()), id, newContent, markHelpful, markHarmful, now)
      ensures found <==> id in Ids(old(Records()))
      ensures found ==> saves == old(saves) + 1 && durable == SavedFile(version, Records())
      ensures !found ==> saves == old(saves) && durable == old(durable)
    {
      ghost var before := Records();
      var i := 0;
      while i < |bullets| && bullets[i].id != id
        invariant 0 <= i <= |bullets|
        invariant forall j :: 0 <= j < i ==> bullets[j].id != id
      {
        i := i + 1;
      }
      if i == |bullets| {
        forall k | 0 <= k < |before| ensures Ids(before)[k] != id {
          assert before[k] == bullets[k].Record();
        }
        return false;
      }
      FirstIndexIs(Ids(before), id, i);
      EditAt(i, newContent, markHelpful, markHarmful, now);
      Save();
      return true;
    }

    /** Edits the bullet at position `i` in place; every other bullet keeps its record. */
    method EditAt(i: nat, newContent: Option<string>, markHelpful: bool, markHarmful: bool, now: string)
      requires Valid() && i < |bullets|
      modifies bullets[i]
      ensures Records() == old(Records())[i := Edited(old(Records())[i], newContent, markHelpful, markHarmful, now)]
    {
      ghost var before := Records();
      var b := bullets[i];
      EditBullet(b, newContent, markHelpful, markHarmful, now);
      forall k | 0 <= k < |bullets| && k != i ensures bullets[k].Record() == before[k] {
        assert bullets[k] != b;
      }
      assert Records() == before[i := b.Record()];
    }

    /** `get_bullets_by_section`: the bullets of one section, in list order. */
    function GetBulletsBySection(section: string): (r: seq<Bullet>)
      reads this
      ensures forall k :: 0 <= k < |r| ==> r[k].section == section
    {
      OfSection(bullets, section)
    }

    /** `get_all_bullets`: the same objects, ordered by decreasing confidence, ties in list order. */
    function GetAllBullets(): (r: seq<Bullet>)
      reads this, bullets
      ensures multiset(r) == multiset(bullets)
      ensures forall a, b :: 0 <= a < b < |r| ==> r[a].Confidence() >= r[b].Confidence()
    {
      AllBulletsRanked();
      Pick(bullets, Ranking.Rank(Keys(Records())))
    }

    lemma AllBulletsRanked()
      ensures var r := Pick(bullets, Ranking.Rank(Keys(Records())));
        multiset(r) == multiset(bullets) && RecordsOf(r) == ByConfidence(Records())
    {
      Ranking.RankPermutes(bullets, Keys(Records()));
      ByConfidenceSortedStable(Records());
    }

    /**
     * `to_prompt_text`: filter, rank and cut the bullets, group them by section in a dictionary
     * that remembers insertion order, then emit a heading, the items and a blank line per group.
     */
    method ToPromptText(sections: seq<string>, topK: Option<int>) returns (lines: seq<PromptLine>)
      ensures lines == PromptText(Records(), sections, topK)
    {
      var chosen := Selected(Records(), sections, topK);
      var groups := GroupInOrder(chosen);
      lines := RenderLines(groups);
      assert lines == [Preamble] + RenderGroups(GroupBySection(chosen));
    }

    /** `get_statistics`, computed from the current bullets. */
    function GetStatistics(): (st: Statistics)
      reads this, bullets
      ensures st.totalBullets == |bullets| && st.version == version
      ensures st.sections == SectionSet(Records())
      ensures st.totalHelpfulFeedback == SumHelpful(Records()) && st.totalHarmfulFeedback == SumHarmful(Records())
      ensures 0.0 <= st.averageConfidence <= 1.0
      ensures bullets == [] ==> st.averageConfidence == 0.0
      ensures bullets != [] ==> st.averageConfidence * |bullets| as real == SumConfidence(Records())
    {
      Stats(version, Records())
    }
  }
}
