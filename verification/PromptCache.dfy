/** The system prompt cache: served as long as no tracked file seems to have changed since it was built. */
module PromptCache {
  import opened Text

  type Path = string

  datatype File = File(content: string, mtime: int)

  type Disk = map<Path, File>

  /**
   * The disk at successive instants; every stat and every read of the cache happens at an instant of its own, and
   * between two instants the disk may change arbitrarily.
   */
  type Timeline = nat -> Disk

  /** A file written after instant r has a later mtime than anything that was on the disk up to r. */
  ghost predicate WritesAdvance(at: Timeline) {
    forall i: nat, r: nat, j: nat, p, q :: i <= r <= j && Rewritten(at, r, j, p) && q in at(i) ==>
      at(i)[q].mtime < at(j)[p].mtime
  }

  predicate Rewritten(at: Timeline, r: nat, j: nat, p: Path) {
    p in at(j) && (p !in at(r) || at(r)[p] != at(j)[p])
  }

  /** What a reader of the path gets. */
  function View(disk: Disk, p: Path): Option<string> {
    if p in disk then Some(disk[p].content) else None
  }

  /** Stands in for the oldest time when no tracked file exists. */
  const EPOCH := 1

  /** The tracked files, in the order in which they are checked and read, and the skills directory. */
  datatype Layout = Layout(
    files: seq<Path>,
    skillsDir: Path,
    isSkill: Path -> bool,
    render: (seq<Option<string>>, string) -> string)
  {
    predicate Valid() {
      && |files| == 5 && skillsDir !in files
      && forall i, j :: 0 <= i < j < |files| ==> files[i] != files[j]
    }
  }

  /** fileChangedSince: created, deleted, or modified after the reference time. */
  predicate ChangedSince(existed: map<Path, bool>, cachedAt: int, disk: Disk, p: Path) {
    if (p in existed && existed[p]) != (p in disk) then true else p in disk && disk[p].mtime > cachedAt
  }

  predicate SkillsChangedSince(layout: Layout, cachedAt: int, disk: Disk) {
    exists p :: p in disk && layout.isSkill(p) && disk[p].mtime > cachedAt
  }

  /** The instants of a build that starts at t: files[k] is checked at t + k and read at ReadAt(t, k). */
  function ReadAt(t: nat, k: nat): nat {
    if k < 4 then t + 7 + k else t + 12
  }

  /** The file was missing when the build checked it, there when the build read it, and missing at instant c. */
  predicate Flickered(at: Timeline, built: nat, k: nat, c: nat, p: Path) {
    p !in at(built + k) && p in at(ReadAt(built, k)) && p !in at(c)
  }

  /** No tracked file flickered between a build and a check that began at instant c. */
  predicate NoFlicker(layout: Layout, at: Timeline, built: nat, c: nat)
    requires layout.Valid()
  {
    forall k :: 0 <= k < 5 ==> !Flickered(at, built, k, c + k, layout.files[k])
  }

  /** The baseline that began at t saw exactly these tracked files. */
  predicate Recorded(layout: Layout, at: Timeline, t: nat, existed: map<Path, bool>)
    requires layout.Valid()
  {
    forall k :: 0 <= k < 5 ==>
      layout.files[k] in existed && (existed[layout.files[k]] <==> layout.files[k] in at(t + k))
  }

  /** The reference time was on the disk while the baseline was taken, or no tracked file was and it is the oldest. */
  ghost predicate Observed(layout: Layout, at: Timeline, t: nat, mtime: int)
    requires layout.Valid()
  {
    || Seen(at, t, t + 7, mtime)
    || (mtime == EPOCH && forall k :: 0 <= k < 5 ==> layout.files[k] !in at(t + k))
  }

  class PromptCache {
    var prompt: string                      // "" when there is none
    var cachedAt: Option<int>               // latest mtime the baseline saw
    var existed: Option<map<Path, bool>>
    const layout: Layout
    ghost var built: nat                    // the instant at which the last build began
    ghost var other: string                 // what else that build put into the prompt

    constructor (layout: Layout)
      requires layout.Valid()
      ensures this.layout == layout && prompt == ""
      ensures forall at: Timeline, now: nat :: Valid(at, now)
    {
      this.layout := layout;
      prompt, cachedAt, existed := "", None, None;
    }

    function Views(at: Timeline, built: nat): seq<Option<string>>
      requires layout.Valid()
    {
      seq(5, k requires 0 <= k < 5 => View(at(ReadAt(built, k)), layout.files[k]))
    }

    ghost predicate Valid(at: Timeline, now: nat)
      reads this
    {
      && layout.Valid()
      && (cachedAt.Some? <==> existed.Some?)
      && (prompt != "" ==>
            && cachedAt.Some? && built + 13 <= now
            && prompt == layout.render(Views(at, built), other)
            && Recorded(layout, at, built, existed.value) && Observed(layout, at, built, cachedAt.value))
    }

    /** No tracked path seems to have changed, to a check that begins at instant c. */
    predicate Passes(at: Timeline, c: nat)
      requires layout.Valid() && (cachedAt.Some? <==> existed.Some?)
      reads this
    {
      && cachedAt.Some?
      && (forall k :: 0 <= k < 5 ==> !ChangedSince(existed.value, cachedAt.value, at(c + k), layout.files[k]))
      && !ChangedSince(existed.value, cachedAt.value, at(c + 5), layout.skillsDir)
      && !SkillsChangedSince(layout, cachedAt.value, at(c + 6))
    }

    /** sourceFilesChangedLocked: one stat per tracked path, and one walk of the skills directory. */
    method SourceFilesChanged(at: Timeline, now: nat) returns (changed: bool, now': nat)
      requires layout.Valid() && (cachedAt.Some? <==> existed.Some?)
      ensures now <= now' <= now + 7
      ensures !changed <==> Passes(at, now)
      ensures !changed ==> now' == now + 7
    {
      if cachedAt.None? {
        return true, now;
      }
      for k := 0 to 5
        invariant forall i :: 0 <= i < k ==>
                    !ChangedSince(existed.value, cachedAt.value, at(now + i), layout.files[i])
      {
        if ChangedSince(existed.value, cachedAt.value, at(now + k), layout.files[k]) {
          return true, now + k + 1;
        }
      }
      if ChangedSince(existed.value, cachedAt.value, at(now + 5), layout.skillsDir) {
        return true, now + 6;
      }
      changed := SkillsChangedSince(layout, cachedAt.value, at(now + 6));
      now' := now + 7;
    }

    /** The latest mtime, starting from `latest`, of the skill files that a walk at instant `now` meets. */
    method WalkSkills(at: Timeline, now: nat, latest: Option<int>, ghost began: nat) returns (r: Option<int>)
      requires began <= now && (latest.Some? ==> Seen(at, began, now, latest.value))
      ensures r.Some? ==> Seen(at, began, now + 1, r.value)
      ensures latest.Some? ==> r.Some? && latest.value <= r.value
      ensures if r.Some? then !SkillsChangedSince(layout, r.value, at(now)) else r == latest
      ensures r.None? ==> forall p :: p in at(now) ==> !layout.isSkill(p)
    {
      hide Seen;
      var walked := at(now);
      var todo := set p | p in walked && layout.isSkill(p);
      r := latest;
      if r.Some? {
        SeenLonger(at, began, now, now + 1, r.value);
      }
      while todo != {}
        invariant todo <= walked.Keys && (latest.Some? ==> r.Some? && latest.value <= r.value)
        invariant forall p :: p in walked && layout.isSkill(p) && p !in todo ==> r.Some? && walked[p].mtime <= r.value
        invariant r.Some? ==> Seen(at, began, now + 1, r.value)
        decreases todo
      {
        var p :| p in todo;
        todo := todo - {p};
        if r.None? || walked[p].mtime > r.value {
          r := Some(walked[p].mtime);
          SeenAt(at, began, now, p);
        }
      }
    }

    /** One stat per tracked path: what exists, and the latest mtime. */
    method StatPaths(at: Timeline, now: nat, all: seq<Path>) returns (existed: map<Path, bool>, latest: Option<int>)
      requires forall i, j :: 0 <= i < j < |all| ==> all[i] != all[j]
      ensures forall i :: 0 <= i < |all| ==> all[i] in existed && (existed[all[i]] <==> all[i] in at(now + i))
      ensures latest.Some? ==>
                Seen(at, now, now + |all|, latest.value) && Reached(at, now, all, |all|, latest.value)
      ensures latest.None? ==> forall i :: 0 <= i < |all| ==> all[i] !in at(now + i)
    {
      hide Seen;
      existed, latest := map[], None;
      for k := 0 to |all|
        invariant forall i :: 0 <= i < k ==> all[i] in existed && (existed[all[i]] <==> all[i] in at(now + i))
        invariant latest.Some? ==> Seen(at, now, now + k, latest.value) && Reached(at, now, all, k, latest.value)
        invariant latest.None? ==> forall i :: 0 <= i < k ==> all[i] !in at(now + i)
      {
        var disk := at(now + k);
        existed := existed[all[k] := all[k] in disk];
        if all[k] in disk && (latest.None? || disk[all[k]].mtime > latest.value) {
          latest := Some(disk[all[k]].mtime);
          SeenAt(at, now, now + k, all[k]);
        } else if latest.Some? {
          SeenLonger(at, now, now + k, now + k + 1, latest.value);
        }
      }
    }

    /** buildCacheBaseline: which tracked paths exist, and the latest mtime of them and of the skill files. */
    method BuildBaseline(at: Timeline, now: nat) returns (existed: map<Path, bool>, maxMtime: int)
      requires layout.Valid()
      ensures Recorded(layout, at, now, existed) && Observed(layout, at, now, maxMtime)
      ensures layout.skillsDir in existed && (existed[layout.skillsDir] <==> layout.skillsDir in at(now + 5))
      ensures Reached(at, now, layout.files + [layout.skillsDir], 6, maxMtime)
      ensures !SkillsChangedSince(layout, maxMtime, at(now + 6))
    {
      hide Seen;
      var all := layout.files + [layout.skillsDir];
      assert forall k :: 0 <= k < 5 ==> all[k] == layout.files[k];
      assert all[5] == layout.skillsDir;
      var latest;
      existed, latest := StatPaths(at, now, all);
      latest := WalkSkills(at, now + 6, latest, now);
      maxMtime := if latest.None? then EPOCH else latest.value;
    }

    /** BuildSystemPrompt: read the bootstrap files, the skills, and then the memory file. */
    method BuildSystemPrompt(at: Timeline, began: nat, other: string) returns (text: string)
      requires layout.Valid()
      ensures text == layout.render(Views(at, began), other)
    {
      var views: seq<Option<string>> := [];
      for k := 0 to 4
        invariant |views| == k && forall i :: 0 <= i < k ==> views[i] == View(at(ReadAt(began, i)), layout.files[i])
      {
        views := views + [View(at(ReadAt(began, k)), layout.files[k])];
      }
      views := views + [View(at(ReadAt(began, 4)), layout.files[4])];
      assert views == Views(at, began);
      text := layout.render(views, other);
    }

    predicate Serves(at: Timeline, c: nat)
      requires layout.Valid() && (cachedAt.Some? <==> existed.Some?)
      reads this
    {
      prompt != "" && Passes(at, c)
    }

    /** One check of the cache; the successful one finds every tracked file as the baseline left it. */
    method Check(at: Timeline, now: nat) returns (ok: bool, now': nat)
      requires Valid(at, now)
      ensures Valid(at, now') && now <= now' && (ok <==> Serves(at, now))
      ensures layout.Valid() && (ok ==> prompt != "" && cachedAt.Some? && built + 13 <= now && Unchanged(at, now))
      ensures ok ==> prompt == layout.render(Views(at, built), other)
    {
      hide WritesAdvance;
      if prompt == "" {
        return false, now;
      }
      var changed;
      changed, now' := SourceFilesChanged(at, now);
      ok := !changed;
    }

    /** The baseline is taken before the prompt is built. */
    method Rebuild(at: Timeline, now: nat, other: string) returns (now': nat)
      requires Valid(at, now)
      modifies this
      ensures Valid(at, now') && now <= now'
      ensures prompt == layout.render(Views(at, built), other) && built == now && this.other == other
      ensures forall c: nat :: now' <= c && Quiet(at, built, c + 7) ==> Passes(at, c)
    {
      hide Recorded, Observed, Views, Reached, SkillsChangedSince, WritesAdvance, Passes, Quiet;
      var existedNow, maxMtime := BuildBaseline(at, now);
      var text := BuildSystemPrompt(at, now, other);
      prompt, cachedAt, existed := text, Some(maxMtime), Some(existedNow);
      built, this.other := now, other;
      now' := now + 13;
      forall c: nat | now' <= c && Quiet(at, built, c + 7)
        ensures Passes(at, c)
      {
        QuietPasses(this, at, c);
      }
    }

    /**
     * BuildSystemPromptWithCache: serve the cached prompt if nothing seems to have changed, on either of two checks;
     * otherwise rebuild. `hit` says at which instant the successful check began.
     */
    method BuildSystemPromptWithCache(at: Timeline, now: nat, other: string)
      returns (text: string, now': nat, ghost hit: Option<nat>)
      requires Valid(at, now)
      modifies this
      ensures Valid(at, now') && now <= now' && text == prompt
      ensures hit == Some(now) <==> old(Serves(at, now))
      ensures hit.Some? ==>
                && now <= hit.value && text != "" && text == old(prompt)
                && built == old(built) && this.other == old(this.other)
                && built + 13 <= hit.value && Unchanged(at, hit.value)
      ensures hit.Some? && WritesAdvance(at) && NoFlicker(layout, at, built, hit.value) ==>
                text == layout.render(ViewsNow(layout, at, hit.value), this.other)
      ensures hit.Some? && WritesAdvance(at) ==> SkillsAreOld(layout, at, built, hit.value)
      ensures hit.None? ==>
                && text == layout.render(Views(at, built), other) && now <= built && this.other == other
                && forall c: nat :: now' <= c && Quiet(at, built, c + 7) ==> Passes(at, c)
    {
      hide Unchanged, Views, WritesAdvance, NoFlicker, Passes, Recorded, Observed, Quiet, SkillsAreOld;
      var ok;
      ok, now' := Check(at, now);
      if ok {
        HitServesCurrent(this, at, now);
        SkillsAreCurrent(this, at, now);
        return prompt, now', Some(now);
      }
      ghost var began := now';
      ok, now' := Check(at, now');
      if ok {
        HitServesCurrent(this, at, began);
        SkillsAreCurrent(this, at, began);
        return prompt, now', Some(began);
      }
      now' := Rebuild(at, now', other);
      return prompt, now', None;
    }

    /** What a successful check that began at instant c has found. */
    ghost predicate Unchanged(at: Timeline, c: nat)
      requires layout.Valid()
      reads this
    {
      && cachedAt.Some? && existed.Some?
      && Recorded(layout, at, built, existed.value) && Observed(layout, at, built, cachedAt.value)
      && (forall k :: 0 <= k < 5 ==>
            !ChangedSince(existed.value, cachedAt.value, at(c + k), layout.files[k]))
      && !ChangedSince(existed.value, cachedAt.value, at(c + 5), layout.skillsDir)
      && !SkillsChangedSince(layout, cachedAt.value, at(c + 6))
    }
  }

  /** The reference time is not before the mtime that any of the first n paths had when it was checked. */
  predicate Reached(at: Timeline, t: nat, paths: seq<Path>, n: nat, mtime: int)
    requires n <= |paths|
  {
    forall i :: 0 <= i < n && paths[i] in at(t + i) ==> at(t + i)[paths[i]].mtime <= mtime
  }

  /** An mtime that was on the disk at some instant in [from, until). */
  ghost predicate Seen(at: Timeline, from: nat, until: nat, mtime: int) {
    exists i: nat, q :: from <= i < until && q in at(i) && at(i)[q].mtime == mtime
  }

  lemma SeenAt(at: Timeline, from: nat, i: nat, q: Path)
    requires from <= i && q in at(i)
    ensures Seen(at, from, i + 1, at(i)[q].mtime)
  {
  }

  lemma SeenLonger(at: Timeline, from: nat, until: nat, later: nat, mtime: int)
    requires Seen(at, from, until, mtime) && until <= later
    ensures Seen(at, from, later, mtime)
  {
  }

  /** Nothing is written between the two instants. */
  predicate Quiet(at: Timeline, from: nat, until: nat) {
    forall i :: from <= i < until ==> at(i) == at(from)
  }

  /** On a disk that does not change, checks find no change. */
  lemma QuietPasses(cache: PromptCache, at: Timeline, c: nat)
    requires cache.layout.Valid() && cache.cachedAt.Some? && cache.existed.Some?
    requires cache.built <= c && Quiet(at, cache.built, c + 7)
    requires Recorded(cache.layout, at, cache.built, cache.existed.value)
    requires var dir := cache.layout.skillsDir;
             dir in cache.existed.value && (cache.existed.value[dir] <==> dir in at(cache.built + 5))
    requires Reached(at, cache.built, cache.layout.files + [cache.layout.skillsDir], 6, cache.cachedAt.value)
    requires !SkillsChangedSince(cache.layout, cache.cachedAt.value, at(cache.built + 6))
    ensures cache.Passes(at, c)
  {
    hide SkillsChangedSince;
    var all := cache.layout.files + [cache.layout.skillsDir];
    var disk := at(cache.built);
    assert forall i :: cache.built <= i < c + 7 ==> at(i) == disk;
    assert forall k :: 0 <= k < 5 ==> all[k] == cache.layout.files[k];
    assert all[5] == cache.layout.skillsDir;
  }

  // ----- what a hit is worth -----------------------------------------------------------------------------

  /** What a reader would get now, file by file, at the instants at which the check looked at them. */
  function ViewsNow(layout: Layout, at: Timeline, c: nat): seq<Option<string>>
    requires layout.Valid()
  {
    seq(5, k requires 0 <= k < 5 => View(at(c + k), layout.files[k]))
  }

  /** A file that is there now and not newer than the reference time has not been written since it was read. */
  lemma OldFileIsUnchanged(at: Timeline, i: nat, q: Path, r: nat, c: nat, p: Path)
    requires WritesAdvance(at) && i <= r <= c
    requires q in at(i) && p in at(c) && at(c)[p].mtime <= at(i)[q].mtime
    ensures p in at(r) && at(r)[p] == at(c)[p]
  {
    assert !Rewritten(at, r, c, p);
  }

  /** For one file: a check that finds no change is wrong exactly if the file flickered. */
  lemma FileIsCurrentIff(cache: PromptCache, at: Timeline, c: nat, k: nat)
    requires WritesAdvance(at) && cache.layout.Valid() && k < 5
    requires cache.cachedAt.Some? && cache.built + 13 <= c && cache.Unchanged(at, c)
    ensures var p := cache.layout.files[k];
            View(at(ReadAt(cache.built, k)), p) == View(at(c + k), p)
            <==> !Flickered(at, cache.built, k, c + k, p)
  {
    hide WritesAdvance;
    var p, r := cache.layout.files[k], ReadAt(cache.built, k);
    if p in at(c + k) {
      assert p in at(cache.built + k);
      var i: nat, q :| cache.built <= i < cache.built + 7 && q in at(i) && at(i)[q].mtime == cache.cachedAt.value;
      OldFileIsUnchanged(at, i, q, r, c + k, p);
    }
  }

  /**
   * A hit serves what a rebuild would read now, although files may have been written while the prompt was built, if
   * and only if no tracked file was missing at the baseline, there when it was read, and missing at the check.
   */
  lemma HitIsCurrentIff(cache: PromptCache, at: Timeline, c: nat)
    requires WritesAdvance(at) && cache.layout.Valid()
    requires cache.cachedAt.Some? && cache.built + 13 <= c && cache.Unchanged(at, c)
    ensures cache.Views(at, cache.built) == ViewsNow(cache.layout, at, c)
            <==> NoFlicker(cache.layout, at, cache.built, c)
  {
    hide WritesAdvance, Observed, PromptCache.Unchanged, Flickered;
    var read, current := cache.Views(at, cache.built), ViewsNow(cache.layout, at, c);
    forall k | 0 <= k < 5
      ensures read[k] == current[k] <==> !Flickered(at, cache.built, k, c + k, cache.layout.files[k])
    {
      FileIsCurrentIff(cache, at, c, k);
    }
  }

  /**
   * No skill file that the check met, nor the skills directory, has been written since the baseline walked the skills,
   * unless it is older than every reference time.
   */
  predicate SkillsAreOld(layout: Layout, at: Timeline, built: nat, c: nat) {
    && (forall p :: p in at(c + 6) && layout.isSkill(p) && at(c + 6)[p].mtime > EPOCH ==>
          !Rewritten(at, built + 6, c + 6, p))
    && (layout.skillsDir in at(c + 5) && at(c + 5)[layout.skillsDir].mtime > EPOCH ==>
          !Rewritten(at, built + 6, c + 5, layout.skillsDir))
  }

  lemma SkillsAreCurrent(cache: PromptCache, at: Timeline, c: nat)
    requires cache.layout.Valid() && cache.cachedAt.Some? && cache.built + 13 <= c && cache.Unchanged(at, c)
    ensures WritesAdvance(at) ==> SkillsAreOld(cache.layout, at, cache.built, c)
  {
    if WritesAdvance(at) && cache.cachedAt.value != EPOCH {
      var r := cache.built + 6;
      var i: nat, q :| cache.built <= i < cache.built + 7 && q in at(i) && at(i)[q].mtime == cache.cachedAt.value;
      hide WritesAdvance, Recorded, Rewritten;
      forall p | p in at(c + 6) && cache.layout.isSkill(p)
        ensures !Rewritten(at, r, c + 6, p)
      {
        NotWritten(at, i, q, r, c + 6, p);
      }
      if cache.layout.skillsDir in at(c + 5) {
        NotWritten(at, i, q, r, c + 5, cache.layout.skillsDir);
      }
    }
  }

  lemma NotWritten(at: Timeline, i: nat, q: Path, r: nat, c: nat, p: Path)
    requires WritesAdvance(at) && i <= r <= c
    requires q in at(i) && p in at(c) && at(c)[p].mtime <= at(i)[q].mtime
    ensures !Rewritten(at, r, c, p)
  {
  }

  lemma HitServesCurrent(cache: PromptCache, at: Timeline, c: nat)
    requires cache.layout.Valid() && cache.prompt == cache.layout.render(cache.Views(at, cache.built), cache.other)
    requires cache.cachedAt.Some? && cache.built + 13 <= c && cache.Unchanged(at, c)
    ensures WritesAdvance(at) && NoFlicker(cache.layout, at, cache.built, c) ==>
              cache.prompt == cache.layout.render(ViewsNow(cache.layout, at, c), cache.other)
  {
    hide WritesAdvance, NoFlicker, PromptCache.Views, ViewsNow, Observed, PromptCache.Unchanged;
    if WritesAdvance(at) && NoFlicker(cache.layout, at, cache.built, c) {
      HitIsCurrentIff(cache, at, c);
    }
  }

  /** A disk on which a file is created just before it is read and deleted right after. */
  function Flickering(p: Path): Timeline {
    i => if i == ReadAt(0, 0) then map[p := File("short-lived", 1)] else map[]
  }

  /** A baseline that saw none of the tracked paths. */
  predicate SawNothing(layout: Layout, existed: map<Path, bool>) {
    (forall k :: 0 <= k < |layout.files| ==> layout.files[k] in existed && !existed[layout.files[k]])
    && layout.skillsDir in existed && !existed[layout.skillsDir]
  }

  lemma NothingThere(layout: Layout, existed: map<Path, bool>)
    requires layout.Valid() && SawNothing(layout, existed)
    ensures var at := Flickering(layout.files[0]);
            && Recorded(layout, at, 0, existed) && Observed(layout, at, 0, EPOCH)
            && forall k :: 0 <= k < 5 ==> !ChangedSince(existed, EPOCH, at(13 + k), layout.files[k])
  {
  }

  /**
   * Hits can be stale: a prompt that was built on such a disk, from a baseline that saw no file, holds the file's
   * contents, and the next check finds nothing changed and serves it, although the file is gone.
   */
  lemma SomeHitsAreStale(cache: PromptCache, existed: map<Path, bool>)
    requires cache.layout.Valid() && cache.built == 0 && cache.prompt != ""
    requires cache.cachedAt == Some(EPOCH) && cache.existed == Some(existed) && SawNothing(cache.layout, existed)
    requires cache.prompt == cache.layout.render(cache.Views(Flickering(cache.layout.files[0]), 0), cache.other)
    ensures var at := Flickering(cache.layout.files[0]);
            && WritesAdvance(at) && cache.Valid(at, 13) && cache.Serves(at, 13)
            && cache.Views(at, 0)[0] == Some("short-lived") && ViewsNow(cache.layout, at, 13)[0] == None
  {
    var p := cache.layout.files[0];
    NothingThere(cache.layout, existed);
    assert View(Flickering(p)(ReadAt(0, 0)), p) == Some("short-lived");
    assert WritesAdvance(Flickering(p));
    hide WritesAdvance, Recorded, Observed;
  }
}
