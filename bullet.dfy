/**
 * One learned strategy of the playbook (`PlaybookBullet`): its record and dictionary
 * forms, the derived confidence score, and the object whose counters are bumped in place.
 */
module Bullets {
  import opened Wrappers

  /** Prefix of every generated id; the rest is a timestamp stamp supplied by the caller. */
  const IdPrefix: string := "bullet_"

  /**
   * Confidence from the two feedback counters: the helpful share of all feedback,
   * or the neutral 0.5 while there is none. It is derived on every read, never stored.
   */
  function ConfidenceScore(helpful: nat, harmful: nat): (c: real)
    ensures 0.0 <= c <= 1.0
    ensures helpful + harmful == 0 ==> c == 0.5
    ensures helpful + harmful > 0 ==> c * (helpful + harmful) as real == helpful as real
  {
    if helpful + harmful == 0 then 0.5
    else
      var total := (helpful + harmful) as real;
      assert helpful as real <= total;
      helpful as real / total
  }

  /** Extra helpful feedback never lowers the confidence. */
  lemma MarkHelpfulNeverLowers(helpful: nat, harmful: nat)
    ensures ConfidenceScore(helpful + 1, harmful) >= ConfidenceScore(helpful, harmful)
  {
    var c, c' := ConfidenceScore(helpful, harmful), ConfidenceScore(helpful + 1, harmful);
    var t := (helpful + harmful) as real;
    if helpful + harmful > 0 {
      assert c' * (t + 1.0) == helpful as real + 1.0;
      assert c * t == helpful as real;
      assert (c' - c) * t * (t + 1.0) == harmful as real * 1.0 by {
        assert (c' - c) * t * (t + 1.0) == c' * (t + 1.0) * t - c * t * (t + 1.0);
      }
    }
  }

  /** Extra harmful feedback never raises the confidence. */
  lemma MarkHarmfulNeverRaises(helpful: nat, harmful: nat)
    ensures ConfidenceScore(helpful, harmful + 1) <= ConfidenceScore(helpful, harmful)
  {
    var c, c' := ConfidenceScore(helpful, harmful), ConfidenceScore(helpful, harmful + 1);
    var t := (helpful + harmful) as real;
    if helpful + harmful > 0 {
      assert c' * (t + 1.0) == helpful as real;
      assert c * t == helpful as real;
      assert (c - c') * t * (t + 1.0) == helpful as real by {
        assert (c - c') * t * (t + 1.0) == c * t * (t + 1.0) - c' * (t + 1.0) * t;
      }
    }
  }

  /**
   * Two scores with feedback compare as their cross products do, which is why an exact
   * rational model orders bullets as the floating-point quotients do.
   */
  lemma CompareByCrossMultiplication(h1: nat, m1: nat, h2: nat, m2: nat)
    requires h1 + m1 > 0 && h2 + m2 > 0
    ensures ConfidenceScore(h1, m1) >= ConfidenceScore(h2, m2) <==> h1 * (h2 + m2) >= h2 * (h1 + m1)
  {
    var c1, c2 := ConfidenceScore(h1, m1), ConfidenceScore(h2, m2);
    var t1, t2 := (h1 + m1) as real, (h2 + m2) as real;
    var p := t1 * t2;
    assert p > 0.0 by {
      PositiveProduct(t1, t2);
    }
    assert (c1 - c2) * p == h1 as real * t2 - h2 as real * t1 by {
      assert c1 * t1 == h1 as real && c2 * t2 == h2 as real;
      assert (c1 - c2) * (t1 * t2) == (c1 * t1) * t2 - (c2 * t2) * t1;
    }
    assert (h1 * (h2 + m2)) as real == h1 as real * t2;
    assert (h2 * (h1 + m1)) as real == h2 as real * t1;
    SignOfScaled(c1 - c2, p);
  }

  lemma PositiveProduct(a: real, b: real)
    requires a > 0.0 && b > 0.0
    ensures a * b > 0.0
  {
  }

  /** Scaling by a positive factor keeps the sign. */
  lemma SignOfScaled(d: real, p: real)
    requires p > 0.0
    ensures d >= 0.0 <==> d * p >= 0.0
  {
    if d < 0.0 {
      assert (-d) * p > 0.0 by {
        PositiveProduct(-d, p);
      }
    } else if d > 0.0 {
      PositiveProduct(d, p);
    }
  }

  /** Every field of a bullet, as `to_dict` lists them. */
  datatype BulletRecord = BulletRecord(
    id: string, content: string, helpfulCount: nat, harmfulCount: nat,
    section: string, createdAt: string, lastUpdated: string)
  {
    function Confidence(): real {
      ConfidenceScore(helpfulCount, harmfulCount)
    }
  }

  /** A freshly created bullet: generated id, no feedback, `last_updated == created_at`. */
  function NewRecord(content: string, section: string, stamp: string, now: string): (r: BulletRecord)
    ensures r.id == IdPrefix + stamp && r.id != ""
    ensures r.content == content && r.section == section
    ensures r.helpfulCount == 0 && r.harmfulCount == 0 && r.Confidence() == 0.5
    ensures r.createdAt == now && r.lastUpdated == r.createdAt
  {
    BulletRecord(IdPrefix + stamp, content, 0, 0, section, now, now)
  }

  /** A stored bullet as JSON: any key may be missing. */
  datatype BulletDict = BulletDict(
    id: Option<string>, content: Option<string>, helpfulCount: Option<nat>, harmfulCount: Option<nat>,
    section: Option<string>, createdAt: Option<string>, lastUpdated: Option<string>)

  /** `to_dict`: every key present. */
  function DictOf(r: BulletRecord): (d: BulletDict)
    ensures d.id.Some? && d.content.Some? && d.helpfulCount.Some? && d.harmfulCount.Some?
    ensures d.section.Some? && d.createdAt.Some? && d.lastUpdated.Some?
  {
    BulletDict(Some(r.id), Some(r.content), Some(r.helpfulCount), Some(r.harmfulCount),
               Some(r.section), Some(r.createdAt), Some(r.lastUpdated))
  }

  /**
   * `from_dict`: `content`, `section` and `id` are required (looked up in that order, the
   * first missing one raising `KeyError`); an empty id is replaced by a generated one; the
   * counters default to 0 and both timestamps to the construction time `now` (the default
   * for `last_updated` is the constructor's own stamp, not the loaded `created_at`).
   */
  function FromDict(d: BulletDict, stamp: string, now: string): (r: Result<BulletRecord, string>)
    ensures r.Ok? <==> d.content.Some? && d.section.Some? && d.id.Some?
    ensures r.Err? ==> r.error == (if d.content.None? then "content" else if d.section.None? then "section" else "id")
    ensures r.Ok? ==> r.value.id == (if d.id.value == "" then IdPrefix + stamp else d.id.value) && r.value.id != ""
  {
    if d.content.None? then Err("content")
    else if d.section.None? then Err("section")
    else if d.id.None? then Err("id")
    else
      var id := if d.id.value == "" then IdPrefix + stamp else d.id.value;
      Ok(BulletRecord(id, d.content.value, d.helpfulCount.GetOr(0), d.harmfulCount.GetOr(0),
                      d.section.value, d.createdAt.GetOr(now), d.lastUpdated.GetOr(now)))
  }

  /** Serialising then deserialising a bullet reproduces every field. */
  lemma DictRoundTrip(r: BulletRecord, stamp: string, now: string)
    requires r.id != ""
    ensures FromDict(DictOf(r), stamp, now) == Ok(r)
  {
  }

  /** Missing optional keys take their defaults: zero counters, timestamps `now`. */
  lemma FromDictDefaults(id: string, content: string, section: string, stamp: string, now: string)
    requires id != ""
    ensures FromDict(BulletDict(Some(id), Some(content), None, None, Some(section), None, None), stamp, now)
         == Ok(BulletRecord(id, content, 0, 0, section, now, now))
  {
  }

  /** A bullet object; `id`, `section` and `created_at` never change after construction. */
  class Bullet {
    const id: string
    var content: string
    var helpfulCount: nat
    var harmfulCount: nat
    const section: string
    const createdAt: string
    var lastUpdated: string

    /** `PlaybookBullet(content, section)`: a new bullet with a generated id. */
    constructor (content: string, section: string, stamp: string, now: string)
      ensures Record() == NewRecord(content, section, stamp, now)
    {
      this.id := IdPrefix + stamp;
      this.content := content;
      this.helpfulCount := 0;
      this.harmfulCount := 0;
      this.section := section;
      this.createdAt := now;
      this.lastUpdated := now;
    }

    /** The object `from_dict` builds from an already checked record. */
    constructor FromRecord(r: BulletRecord)
      ensures Record() == r
    {
      id, content, helpfulCount, harmfulCount := r.id, r.content, r.helpfulCount, r.harmfulCount;
      section, createdAt, lastUpdated := r.section, r.createdAt, r.lastUpdated;
    }

    /** The current field values. */
    function Record(): BulletRecord
      reads this
    {
      BulletRecord(id, content, helpfulCount, harmfulCount, section, createdAt, lastUpdated)
    }

    /** `to_dict`. */
    function ToDict(): BulletDict
      reads this
    {
      DictOf(Record())
    }

    /** `get_confidence_score`, recomputed from the counters on every call. */
    function Confidence(): (c: real)
      reads this
      ensures 0.0 <= c <= 1.0
      ensures helpfulCount + harmfulCount == 0 ==> c == 0.5
    {
      ConfidenceScore(helpfulCount, harmfulCount)
    }

    /** `mark_helpful`: one more helpful vote, `last_updated` advanced. */
    method MarkHelpful(now: string)
      modifies this
      ensures Record() == old(Record()).(helpfulCount := old(helpfulCount) + 1, lastUpdated := now)
    {
      helpfulCount := helpfulCount + 1;
      lastUpdated := now;
    }

    /** `mark_harmful`: one more harmful vote, `last_updated` advanced. */
    method MarkHarmful(now: string)
      modifies this
      ensures Record() == old(Record()).(harmfulCount := old(harmfulCount) + 1, lastUpdated := now)
    {
      harmfulCount := harmfulCount + 1;
      lastUpdated := now;
    }
  }
}
