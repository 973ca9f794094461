/**
 * The pure part of the tag handling in lib/supabase/services/queries.ts: the check that a list of
 * tag ids is well formed and names existing tags (`validateTagIds`), and the list differences
 * `xs.filter(x => !ys.includes(x))` that `syncCharacterTags` and `modifyCharacterTags` compute.
 */
module TagLogic {
  import opened Wrappers
  import opened Errors
  import opened Relational
  import opened Records
  import opened Text

  /** `id && typeof id === 'string' && id.trim().length > 0`: a non-blank id. */
  predicate WellFormedTagId(id: string)
  {
    Trim(id) != ""
  }

  function IsWellFormed(): string -> bool
  {
    (id: string) => WellFormedTagId(id)
  }

  /** `.in('id', ids)` on the tags table. */
  function TagIn(ids: seq<string>): Tag -> bool
  {
    (t: Tag) => t.id in ids
  }

  function FoundTags(tags: seq<Tag>, ids: seq<string>): seq<Tag>
  {
    Filter(tags, TagIn(ids))
  }

  /** `xs.filter((x) => !ys.includes(x))`. */
  function Without(xs: seq<string>, ys: seq<string>): (r: seq<string>)
    ensures forall i :: 0 <= i < |r| ==> r[i] in xs && r[i] !in ys
    ensures forall i :: 0 <= i < |xs| && xs[i] !in ys ==> xs[i] in r
  {
    Filter(xs, (x: string) => x !in ys)
  }

  /**
   * `validateTagIds`: an empty list passes; a blank id fails with "Invalid tag ID format
   * detected"; otherwise the ids are looked up and, when fewer tags come back than ids were
   * given, the check fails naming the ids that were not found.
   */
  function ValidateTagIds(tagIds: seq<string>, tags: seq<Tag>): (r: Outcome<ChatSdkError>)
    ensures r.Fail? ==> r.error.code == BadRequestDatabase
  {
    if |tagIds| == 0 then Pass
    else
      var validTagIds := Filter(tagIds, IsWellFormed());
      if |validTagIds| != |tagIds| then
        Fail(DatabaseError("Invalid tag ID format detected"))
      else
        var existingTags := FoundTags(tags, validTagIds);
        if |existingTags| != |validTagIds| then
          var foundTagIds := Map(existingTags, TagKey);
          Fail(DatabaseError("Tags not found: " + Join(Without(validTagIds, foundTagIds), ", ")))
        else
          Pass
  }

  /** The set of the ids in a list. */
  function IdSet(ids: seq<string>): set<string>
  {
    set i | 0 <= i < |ids| :: ids[i]
  }

  /** The ids of the list that name a tag of the table. */
  function ExistingIds(tags: seq<Tag>, ids: seq<string>): set<string>
  {
    set i | 0 <= i < |ids| && HasKey(tags, TagKey, ids[i]) :: ids[i]
  }

  /** A list has at least as many entries as distinct ids, and exactly as many when it repeats none. */
  lemma {:induction false} IdSetCard(ids: seq<string>)
    ensures |IdSet(ids)| <= |ids|
    ensures |IdSet(ids)| == |ids| <==> Distinct(ids)
  {
    if ids != [] {
      var t := ids[1..];
      IdSetCard(t);
      assert IdSet(ids) == {ids[0]} + IdSet(t) by {
        forall x | x in IdSet(ids) ensures x in {ids[0]} + IdSet(t) {
          var i :| 0 <= i < |ids| && ids[i] == x;
          if i > 0 {
            assert t[i - 1] == x;
          }
        }
        forall x | x in IdSet(t) ensures x in IdSet(ids) {
          var i :| 0 <= i < |t| && t[i] == x;
          assert ids[i + 1] == x;
        }
      }
      if ids[0] in IdSet(t) {
        var k :| 0 <= k < |t| && t[k] == ids[0];
        assert ids[k + 1] == ids[0];
      } else {
        if Distinct(t) {
          forall i, j | 0 <= i < j < |ids| ensures ids[i] != ids[j] {
            if i == 0 {
              assert ids[j] == t[j - 1];
            } else {
              assert ids[i] == t[i - 1] && ids[j] == t[j - 1];
            }
          }
        }
        if Distinct(ids) {
          forall i, j | 0 <= i < j < |t| ensures t[i] != t[j] {
            assert t[i] == ids[i + 1] && t[j] == ids[j + 1];
          }
        }
      }
    }
  }

  /** A subset is no larger, and one as large is the whole set. */
  lemma {:induction false} SubsetCard(a: set<string>, b: set<string>)
    requires a <= b
    ensures |a| <= |b|
    ensures |a| == |b| ==> a == b
    decreases |b|
  {
    if b != {} {
      var x :| x in b;
      SubsetCard(a - {x}, b - {x});
      assert |b - {x}| == |b| - 1;
      if x in a {
        assert |a - {x}| == |a| - 1;
        assert a == (a - {x}) + {x};
        assert b == (b - {x}) + {x};
      } else {
        assert a - {x} == a;
      }
    }
  }

  /** With tag ids unique, the lookup returns one tag per distinct existing id. */
  lemma FoundCount(tags: seq<Tag>, ids: seq<string>)
    requires DistinctBy(tags, TagKey)
    ensures |FoundTags(tags, ids)| == |ExistingIds(tags, ids)|
  {
    var f := FoundTags(tags, ids);
    FilterKeepsDistinct(tags, TagIn(ids), TagKey);
    var keys := Map(f, TagKey);
    assert Distinct(keys) by {
      forall i, j | 0 <= i < j < |keys| ensures keys[i] != keys[j] {
        assert TagKey(f[i]) != TagKey(f[j]);
      }
    }
    IdSetCard(keys);
    assert IdSet(keys) == ExistingIds(tags, ids) by {
      forall x | x in IdSet(keys) ensures x in ExistingIds(tags, ids) {
        var i :| 0 <= i < |keys| && keys[i] == x;
        assert f[i] in tags && f[i].id in ids;
        var j :| 0 <= j < |tags| && tags[j] == f[i];
        assert TagKey(tags[j]) == x;
        var k :| 0 <= k < |ids| && ids[k] == x;
      }
      forall x | x in ExistingIds(tags, ids) ensures x in IdSet(keys) {
        var k :| 0 <= k < |ids| && ids[k] == x && HasKey(tags, TagKey, ids[k]);
        var j :| 0 <= j < |tags| && TagKey(tags[j]) == x;
        assert TagIn(ids)(tags[j]);
        assert tags[j] in f;
        var i :| 0 <= i < |f| && f[i] == tags[j];
        assert keys[i] == x;
      }
    }
  }

  /** The lookup finds as many tags as ids were given exactly when the ids are distinct and all exist. */
  lemma FoundAllIff(tags: seq<Tag>, ids: seq<string>)
    requires DistinctBy(tags, TagKey)
    ensures |FoundTags(tags, ids)| == |ids| <==>
      Distinct(ids) && forall i :: 0 <= i < |ids| ==> HasKey(tags, TagKey, ids[i])
  {
    FoundCount(tags, ids);
    IdSetCard(ids);
    var e := ExistingIds(tags, ids);
    assert e <= IdSet(ids);
    SubsetCard(e, IdSet(ids));
    if e == IdSet(ids) {
      forall i | 0 <= i < |ids| ensures HasKey(tags, TagKey, ids[i]) {
        assert ids[i] in e;
        var k :| 0 <= k < |ids| && ids[k] == ids[i] && HasKey(tags, TagKey, ids[k]);
      }
    }
    if forall i :: 0 <= i < |ids| ==> HasKey(tags, TagKey, ids[i]) {
      assert e == IdSet(ids);
    }
  }

  /**
   * `validateTagIds` passes exactly on an empty list or on a list of non-blank ids, each naming an
   * existing tag, none repeated (a repeated existing id is also rejected, as "Tags not found: "
   * followed by an empty list: the lookup returns fewer rows than ids were given).
   */
  lemma ValidateTagIdsAccepts(tagIds: seq<string>, tags: seq<Tag>)
    requires DistinctBy(tags, TagKey)
    ensures ValidateTagIds(tagIds, tags).Pass? <==>
      |tagIds| == 0 ||
      (Distinct(tagIds) &&
       forall i :: 0 <= i < |tagIds| ==> WellFormedTagId(tagIds[i]) && HasKey(tags, TagKey, tagIds[i]))
  {
    if |tagIds| > 0 {
      FilterKeepsAllIff(tagIds, IsWellFormed());
      if forall i :: 0 <= i < |tagIds| ==> WellFormedTagId(tagIds[i]) {
        FilterKeepsAll(tagIds, IsWellFormed());
        assert Filter(tagIds, IsWellFormed()) == tagIds;
        FoundAllIff(tags, tagIds);
      }
    }
  }

  /** A blank id is reported as such, whatever the other ids are. */
  lemma ValidateTagIdsFailures(tagIds: seq<string>, tags: seq<Tag>)
    ensures (exists i :: 0 <= i < |tagIds| && !WellFormedTagId(tagIds[i])) ==>
      ValidateTagIds(tagIds, tags) == Fail(DatabaseError("Invalid tag ID format detected"))
  {
    if i :| 0 <= i < |tagIds| && !WellFormedTagId(tagIds[i]) {
      assert !IsWellFormed()(tagIds[i]);
      FilterDropsOne(tagIds, IsWellFormed(), i);
      assert |Filter(tagIds, IsWellFormed())| != |tagIds|;
    }
  }

  /** Ids that passed validation are pairwise different and each names an existing tag. */
  lemma ValidatedIdsExist(tagIds: seq<string>, tags: seq<Tag>)
    requires DistinctBy(tags, TagKey)
    requires ValidateTagIds(tagIds, tags).Pass?
    ensures Distinct(tagIds)
    ensures forall x :: x in tagIds ==> HasKey(tags, TagKey, x)
  {
    ValidateTagIdsAccepts(tagIds, tags);
    forall x | x in tagIds ensures HasKey(tags, TagKey, x) {
      var i :| 0 <= i < |tagIds| && tagIds[i] == x;
    }
  }

  /** Leaving some ids out of a list without repeats leaves a list without repeats. */
  lemma WithoutKeepsDistinct(xs: seq<string>, ys: seq<string>)
    requires Distinct(xs)
    ensures Distinct(Without(xs, ys))
  {
    var same := (x: string) => x;
    assert DistinctBy(xs, same) by {
      forall i, j | 0 <= i < j < |xs| ensures same(xs[i]) != same(xs[j]) {
        assert xs[i] != xs[j];
      }
    }
    FilterKeepsDistinct(xs, (x: string) => x !in ys, same);
    var r := Without(xs, ys);
    forall i, j | 0 <= i < j < |r| ensures r[i] != r[j] {
      assert same(r[i]) != same(r[j]);
    }
  }

  /**
   * The two differences `syncCharacterTags` computes never share an id: what is added is wanted
   * and missing, what is removed is present and unwanted.
   */
  lemma SyncDiffsDisjoint(current: seq<string>, desired: seq<string>)
    ensures var toAdd := Without(desired, current);
            var toRemove := Without(current, desired);
      forall i, j :: 0 <= i < |toAdd| && 0 <= j < |toRemove| ==> toAdd[i] != toRemove[j]
  {
  }

  /** When the current ids already are the desired set, both differences are empty. */
  lemma SyncDiffsEmptyWhenSynced(current: seq<string>, desired: seq<string>)
    requires IdSet(current) == IdSet(desired)
    ensures Without(desired, current) == [] && Without(current, desired) == []
  {
    forall x | x in desired ensures x in current {
      var i :| 0 <= i < |desired| && desired[i] == x;
      assert x in IdSet(desired);
    }
    forall x | x in current ensures x in desired {
      var i :| 0 <= i < |current| && current[i] == x;
      assert x in IdSet(current);
    }
    FilterKeepsNone(desired, (x: string) => x !in current);
    FilterKeepsNone(current, (x: string) => x !in desired);
  }
}
