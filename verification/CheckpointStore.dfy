/** CheckpointStore: one directory of checkpoint files per task, listed by time and pruned. */
module Checkpoints {
  import opened Sequences

  // ISO-8601 UTC timestamps compare as strings the way they compare in time, so a number stands for one.
  datatype Checkpoint = Checkpoint(id: string, taskId: string, timestamp: int)

  type Directory = map<string, Checkpoint>

  predicate Sorted(cps: seq<Checkpoint>) {
    forall i, j :: 0 <= i < j < |cps| ==> cps[i].timestamp <= cps[j].timestamp
  }

  function Insert(cps: seq<Checkpoint>, cp: Checkpoint): seq<Checkpoint> {
    if cps == [] || cps[|cps| - 1].timestamp <= cp.timestamp then cps + [cp]
    else Insert(cps[..|cps| - 1], cp) + [cps[|cps| - 1]]
  }

  // list.sort(key=timestamp): stable, ascending.
  function SortByTime(cps: seq<Checkpoint>): seq<Checkpoint> {
    if cps == [] then []
    else Insert(SortByTime(cps[..|cps| - 1]), cps[|cps| - 1])
  }

  lemma {:induction false} InsertPermutes(cps: seq<Checkpoint>, cp: Checkpoint)
    ensures multiset(Insert(cps, cp)) == multiset(cps + [cp])
  {
    if cps != [] {
      assert cps == cps[..|cps| - 1] + [cps[|cps| - 1]];
      InsertPermutes(cps[..|cps| - 1], cp);
    }
  }

  lemma {:induction false} InsertKeepsSorted(cps: seq<Checkpoint>, cp: Checkpoint)
    requires Sorted(cps)
    ensures Sorted(Insert(cps, cp))
  {
    if cps != [] && cps[|cps| - 1].timestamp > cp.timestamp {
      var front, last := cps[..|cps| - 1], cps[|cps| - 1];
      InsertKeepsSorted(front, cp);
      InsertPermutes(front, cp);
      var r := Insert(front, cp);
      PermutationSameElements(r, front + [cp]);
      forall i | 0 <= i < |r| ensures r[i].timestamp <= last.timestamp {
        assert r[i] in front + [cp];
      }
    }
  }

  lemma {:induction false} SortByTimeSorts(cps: seq<Checkpoint>)
    ensures Sorted(SortByTime(cps)) && multiset(SortByTime(cps)) == multiset(cps)
  {
    if cps != [] {
      var front, last := cps[..|cps| - 1], cps[|cps| - 1];
      assert cps == front + [last];
      SortByTimeSorts(front);
      InsertKeepsSorted(SortByTime(front), last);
      InsertPermutes(SortByTime(front), last);
    }
  }

  // The slice cps[:-keep] of the source, for any integer `keep`.
  function PrefixBefore(cps: seq<Checkpoint>, keep: int): (r: seq<Checkpoint>)
    ensures r <= cps
  {
    if keep > 0 then (if keep <= |cps| then cps[..|cps| - keep] else [])
    else (if -keep <= |cps| then cps[..-keep] else cps)
  }

  // How many files `cleanup` removes from a directory of n readable ones.
  function Pruned(n: nat, keep: int): nat {
    if n <= keep then 0
    else if keep > 0 then n - keep
    else if -keep <= n then -keep
    else n
  }

  // What a cleanup may leave behind, whatever order the file system lists the files in.
  ghost predicate CleanedUp(before: Directory, after: Directory, keep: int) {
    && after.Keys <= before.Keys
    && (forall id :: id in after ==> after[id] == before[id])
    && |after| == |before| - Pruned(|before|, keep)
    && (forall id, gone :: id in after && gone in before && gone !in after ==>
         before[gone].timestamp <= after[id].timestamp)
  }

  // "Only the last N are kept" holds of what a cleanup leaves behind exactly when N is positive, or
  // N is zero and there was nothing to begin with.
  lemma CleanupKeepsAtMost(before: Directory, after: Directory, keep: int)
    requires CleanedUp(before, after, keep)
    ensures |after| <= keep <==> keep >= 1 || |before| == keep == 0
  {
  }

  // Asking to keep nothing deletes nothing.
  lemma KeepingNoneKeepsAll(before: Directory, after: Directory)
    requires CleanedUp(before, after, 0) && before != map[]
    ensures after == before && |after| > 0
  {
    assert |after.Keys| == |before.Keys| && after.Keys <= before.Keys;
    SameSizeSubset(after.Keys, before.Keys);
    assert |before.Keys| == |before|;
  }

  // Not everything is pruned: the source's slice takes all files only when told to keep at most -n.
  predicate LeavesSome(n: nat, keep: int) {
    keep >= 1 || -keep < n
  }

  // Pruning never loses the newest timestamp, unless it takes everything.
  lemma CleanupKeepsNewest(before: Directory, after: Directory, keep: int, newest: string)
    requires CleanedUp(before, after, keep)
    requires newest in before && forall id :: id in before ==> before[id].timestamp <= before[newest].timestamp
    ensures (exists id :: id in after && after[id].timestamp == before[newest].timestamp) <==>
      LeavesSome(|before|, keep)
  {
    assert |before| > 0;
    if LeavesSome(|before|, keep) {
      assert |after| > 0;
      var id :| id in after;
      if newest in after {
        assert after[newest].timestamp == before[newest].timestamp;
      } else {
        assert after[id].timestamp == before[newest].timestamp;
      }
    } else {
      assert |after| == 0;
    }
  }

  // ----- saving with a cleanup after every tenth checkpoint -----

  const CLEANUP_EVERY := 10
  const KEEP_LAST := 5

  // One save, the `count`-th after `count` earlier ones.
  ghost predicate SavedBy(before: Directory, count: nat, cp: Checkpoint, after: Directory) {
    var written := before[cp.id := cp];
    if (count + 1) % CLEANUP_EVERY == 0 then CleanedUp(written, after, KEEP_LAST) else after == written
  }

  ghost predicate IsSaveRun(dirs: seq<Directory>, cps: seq<Checkpoint>) {
    && |dirs| == |cps| + 1 && dirs[0] == map[]
    && forall i :: 0 <= i < |cps| ==> SavedBy(dirs[i], i, cps[i], dirs[i + 1])
  }

  function FilesHeld(n: nat): nat {
    if n < 10 then n else 5 + n % 10
  }

  predicate DistinctIds(cps: seq<Checkpoint>) {
    forall i, j :: 0 <= i < j < |cps| ==> cps[i].id != cps[j].id
  }

  ghost predicate IsSave(cps: seq<Checkpoint>, cp: Checkpoint) {
    exists i :: 0 <= i < |cps| && cps[i] == cp
  }

  ghost predicate OnlySaves(dir: Directory, cps: seq<Checkpoint>) {
    forall id :: id in dir ==> IsSave(cps, dir[id]) && dir[id].id == id
  }

  // A save adds nothing but its own file.
  lemma SaveAddsOne(before: Directory, count: nat, cp: Checkpoint, after: Directory)
    requires SavedBy(before, count, cp, after)
    ensures forall id :: id in after ==> (id == cp.id && after[id] == cp) || (id in before && after[id] == before[id])
  {
  }

  lemma {:induction false} FilesComeFromSaves(dirs: seq<Directory>, cps: seq<Checkpoint>, n: nat)
    requires IsSaveRun(dirs, cps) && n <= |cps|
    ensures OnlySaves(dirs[n], cps[..n])
  {
    hide SavedBy;
    if n > 0 {
      FilesComeFromSaves(dirs, cps, n - 1);
      assert SavedBy(dirs[n - 1], n - 1, cps[n - 1], dirs[n]);
      SaveAddsOne(dirs[n - 1], n - 1, cps[n - 1], dirs[n]);
      var earlier, now := cps[..n - 1], cps[..n];
      forall cp | IsSave(earlier, cp) ensures IsSave(now, cp) {
        var i :| 0 <= i < |earlier| && earlier[i] == cp;
        assert now[i] == cp;
      }
      assert now[n - 1] == cps[n - 1];
    }
  }

  lemma NewIdIsFresh(dir: Directory, cps: seq<Checkpoint>, n: nat)
    requires n < |cps| && DistinctIds(cps) && OnlySaves(dir, cps[..n])
    ensures cps[n].id !in dir
  {
    forall id | id in dir ensures id != cps[n].id {
      assert IsSave(cps[..n], dir[id]);
      var i :| 0 <= i < n && cps[i] == dir[id];
    }
  }

  lemma SaveCounts(before: Directory, count: nat, cp: Checkpoint, after: Directory)
    requires SavedBy(before, count, cp, after) && cp.id !in before && |before| == FilesHeld(count)
    ensures |after| == FilesHeld(count + 1)
  {
    assert |before[cp.id := cp]| == |before| + 1;
  }

  lemma {:induction false} SavesHold(dirs: seq<Directory>, cps: seq<Checkpoint>, n: nat)
    requires IsSaveRun(dirs, cps) && n <= |cps| && DistinctIds(cps)
    ensures |dirs[n]| == FilesHeld(n)
  {
    if n > 0 {
      SavesHold(dirs, cps, n - 1);
      assert cps[n - 1].id !in dirs[n - 1] by {
        FilesComeFromSaves(dirs, cps, n - 1);
        NewIdIsFresh(dirs[n - 1], cps, n - 1);
      }
      SaveCounts(dirs[n - 1], n - 1, cps[n - 1], dirs[n]);
    }
  }

  lemma NoneNewer(dirs: seq<Directory>, cps: seq<Checkpoint>, n: nat, last: nat)
    requires IsSaveRun(dirs, cps) && n <= last + 1 && last < |cps| && Sorted(cps)
    ensures forall id :: id in dirs[n] ==> dirs[n][id].timestamp <= cps[last].timestamp
  {
    FilesComeFromSaves(dirs, cps, n);
  }

  // Under a clock that does not go back, the newest file is always as new as the last save.
  lemma NewestSurvives(dirs: seq<Directory>, cps: seq<Checkpoint>, n: nat)
    requires IsSaveRun(dirs, cps) && 0 < n <= |cps| && Sorted(cps)
    ensures exists id :: id in dirs[n] && dirs[n][id].timestamp == cps[n - 1].timestamp
    ensures forall id :: id in dirs[n] ==> dirs[n][id].timestamp <= cps[n - 1].timestamp
  {
    NoneNewer(dirs, cps, n, n - 1);
    NoneNewer(dirs, cps, n - 1, n - 1);
    assert SavedBy(dirs[n - 1], n - 1, cps[n - 1], dirs[n]);
    var newest := cps[n - 1].id;
    var written := dirs[n - 1][newest := cps[n - 1]];
    if n % CLEANUP_EVERY == 0 {
      CleanupKeepsNewest(written, dirs[n], KEEP_LAST, newest);
    } else {
      assert dirs[n][newest].timestamp == cps[n - 1].timestamp;
    }
  }

  predicate IsListed(dir: Directory, unreadable: set<string>, cp: Checkpoint) {
    cp.id in dir && cp.id !in unreadable && dir[cp.id] == cp
  }

  // The checkpoints of a directory, apart from the skipped ids.
  ghost predicate Lists(dir: Directory, skipped: set<string>, cps: seq<Checkpoint>) {
    forall cp :: cp in cps <==> IsListed(dir, skipped, cp)
  }

  lemma ListOneMore(dir: Directory, skipped: set<string>, skipped': set<string>, cps: seq<Checkpoint>, id: string)
    requires Lists(dir, skipped, cps) && Distinct(cps)
    requires id in dir && id in skipped && skipped' == skipped - {id} && dir[id].id == id
    ensures Lists(dir, skipped', cps + [dir[id]]) && Distinct(cps + [dir[id]])
  {
    assert dir[id] !in cps;
    forall cp ensures cp in cps + [dir[id]] <==> IsListed(dir, skipped', cp) {
      assert cp in cps + [dir[id]] <==> cp in cps || cp == dir[id];
    }
  }

  // A readable checkpoint with the greatest timestamp, as `load_latest` returns it.
  predicate IsLatest(dir: Directory, unreadable: set<string>, cp: Checkpoint) {
    && IsListed(dir, unreadable, cp)
    && forall id :: id in dir && id !in unreadable ==> dir[id].timestamp <= cp.timestamp
  }

  // What a cleanup makes of the directory when some files cannot be read and some not deleted.
  ghost predicate CleanedWith(before: Directory, after: Directory, keep: int, unreadable: set<string>,
                              stuck: set<string>, chosen: set<string>)
  {
    && chosen <= before.Keys - unreadable
    && CleanedUp(before - unreadable, before - unreadable - chosen, keep)
    && after == before - (chosen - stuck)
  }

  // A cleanup leaves the latest checkpoint as late as it was exactly when it does not take every
  // readable file, or one just as late could not be deleted.
  lemma LatestSurvivesIff(before: Directory, after: Directory, keep: int, unreadable: set<string>,
                          stuck: set<string>, chosen: set<string>, latest: Checkpoint)
    requires CleanedWith(before, after, keep, unreadable, stuck, chosen)
    requires forall id :: id in before ==> before[id].id == id
    ensures IsLatest(before, unreadable, latest) ==>
      ((exists cp :: IsLatest(after, unreadable, cp) && cp.timestamp == latest.timestamp) <==>
        || LeavesSome(|before - unreadable|, keep)
        || exists id :: id in stuck && id in before && id !in unreadable && before[id].timestamp == latest.timestamp)
  {
    hide LeavesSome, CleanedUp;
    if IsLatest(before, unreadable, latest) {
      var readable := before - unreadable;
      CleanupKeepsNewest(readable, readable - chosen, keep, latest.id);
      if id :| id in readable - chosen && readable[id].timestamp == latest.timestamp {
        assert IsLatest(after, unreadable, before[id]);
      } else if id :| id in stuck && id in readable && before[id].timestamp == latest.timestamp {
        assert IsLatest(after, unreadable, before[id]);
      } else {
        forall cp | IsLatest(after, unreadable, cp) ensures cp.timestamp != latest.timestamp {
          assert cp.id in readable && before[cp.id] == cp;
        }
      }
    }
  }

  class CheckpointStore {
    var dirs: map<string, Directory>

    constructor ()
      ensures dirs == map[]
    {
      dirs := map[];
    }

    ghost predicate Valid()
      reads this
    {
      forall task, id :: task in dirs && id in dirs[task] ==> dirs[task][id].id == id && dirs[task][id].taskId == task
    }

    function TaskDir(task: string): Directory
      reads this
    {
      if task in dirs then dirs[task] else map[]
    }

    method Save(cp: Checkpoint)
      requires Valid()
      modifies this
      ensures Valid()
      ensures TaskDir(cp.taskId) == old(TaskDir(cp.taskId))[cp.id := cp]
      ensures dirs - {cp.taskId} == old(dirs) - {cp.taskId}
    {
      dirs := dirs[cp.taskId := TaskDir(cp.taskId)[cp.id := cp]];
    }

    // glob() lists the files in no particular order; files that do not parse are skipped.
    method ReadFiles(task: string, unreadable: set<string>) returns (found: seq<Checkpoint>)
      requires Valid()
      ensures Distinct(found)
      ensures Lists(TaskDir(task), unreadable, found)
      ensures |found| == |TaskDir(task).Keys - unreadable|
    {
      var dir := TaskDir(task);
      var left := dir.Keys - unreadable;
      found := [];
      while left != {}
        invariant left <= dir.Keys && left !! unreadable
        invariant |found| + |left| == |dir.Keys - unreadable|
        invariant Lists(dir, unreadable + left, found) && Distinct(found)
      {
        var id :| id in left;
        ListOneMore(dir, unreadable + left, unreadable + (left - {id}), found, id);
        left := left - {id};
        found := found + [dir[id]];
      }
      assert unreadable + {} == unreadable;
    }

    method ListCheckpoints(task: string, unreadable: set<string>) returns (cps: seq<Checkpoint>)
      requires Valid()
      ensures Sorted(cps) && Distinct(cps)
      ensures Lists(TaskDir(task), unreadable, cps)
      ensures |cps| == |TaskDir(task).Keys - unreadable|
    {
      var found := ReadFiles(task, unreadable);
      cps := SortByTime(found);
      SortByTimeSorts(found);
      PermutationStaysDistinct(found, cps);
      PermutationSameElements(found, cps);
    }

    method LoadLatest(task: string, unreadable: set<string>) returns (found: bool, latest: Checkpoint)
      requires Valid()
      ensures found <==> TaskDir(task).Keys - unreadable != {}
      ensures found ==> IsLatest(TaskDir(task), unreadable, latest)
    {
      var cps := ListCheckpoints(task, unreadable);
      found := cps != [];
      latest := Checkpoint("", task, 0);
      if found {
        // Sorting the ascending list in descending order, stably, puts the first of the newest in front.
        var k := |cps| - 1;
        while k > 0 && cps[k - 1].timestamp == cps[k].timestamp
          invariant 0 <= k < |cps| && cps[k].timestamp == cps[|cps| - 1].timestamp
        {
          k := k - 1;
        }
        latest := cps[k];
        assert latest in cps;
        forall id | id in TaskDir(task) && id !in unreadable ensures TaskDir(task)[id].timestamp <= latest.timestamp {
          assert TaskDir(task)[id] in cps;
        }
      } else {
        assert |TaskDir(task).Keys - unreadable| == 0;
      }
    }

    method Unlink(task: string, id: string, stuck: set<string>) returns (ok: bool)
      requires Valid() && id in TaskDir(task)
      modifies this
      ensures Valid() && ok == (id !in stuck)
      ensures dirs - {task} == old(dirs) - {task}
      ensures TaskDir(task) == if ok then old(TaskDir(task)) - {id} else old(TaskDir(task))
    {
      ok := id !in stuck;
      if ok {
        dirs := dirs[task := TaskDir(task) - {id}];
      }
    }

    method Delete(task: string, cps: seq<Checkpoint>, stuck: set<string>)
        returns (deleted: nat, ghost gone: set<string>)
      requires Valid()
      requires Deletable(TaskDir(task), cps)
      modifies this
      ensures Valid()
      ensures dirs - {task} == old(dirs) - {task}
      ensures gone == IdsOf(cps) - stuck && TaskDir(task) == old(TaskDir(task)) - gone
      ensures deleted == |gone|
    {
      deleted, gone := 0, {};
      ghost var before := TaskDir(task);
      assert before - {} == before;
      for i := 0 to |cps|
        invariant Valid()
        invariant dirs - {task} == old(dirs) - {task}
        invariant gone == IdsOf(cps[..i]) - stuck && TaskDir(task) == before - gone
        invariant deleted == |gone|
      {
        var id := cps[i].id;
        assert cps[..i + 1][..i] == cps[..i];
        var ok := Unlink(task, id, stuck);
        if ok {
          RemoveOneMore(before, gone, id);
          gone := gone + {id};
          deleted := deleted + 1;
        }
      }
      assert cps[..|cps|] == cps;
    }

    // Deletes the oldest files; those in `stuck` cannot be deleted and are left alone.
    // `chosen` are the files picked for deletion: the oldest of the readable ones. Those among them
    // that cannot be unlinked stay.
    method Cleanup(task: string, keep: int, unreadable: set<string>, stuck: set<string>)
        returns (deleted: nat, ghost chosen: set<string>)
      requires Valid()
      modifies this
      ensures Valid()
      ensures dirs - {task} == old(dirs) - {task}
      ensures CleanedWith(old(TaskDir(task)), TaskDir(task), keep, unreadable, stuck, chosen)
      ensures deleted == |chosen - stuck|
    {
      var cps := ListCheckpoints(task, unreadable);
      ghost var before := TaskDir(task);
      if |cps| <= keep {
        NothingToPick(before, unreadable, cps, keep);
        return 0, {};
      }
      var toDelete := PrefixBefore(cps, keep);
      PickOldest(before, unreadable, cps, keep);
      chosen := IdsOf(toDelete);
      ghost var gone;
      deleted, gone := Delete(task, toDelete, stuck);
    }
  }

  lemma NothingToPick(before: Directory, unreadable: set<string>, cps: seq<Checkpoint>, keep: int)
    requires Lists(before, unreadable, cps) && |cps| == |before.Keys - unreadable| && |cps| <= keep
    ensures CleanedUp(before - unreadable, before - unreadable - {}, keep)
    ensures forall stuck: set<string> :: before == before - ({} - stuck)
  {
    hide Lists;
    ReadablePart(before, unreadable, cps);
    assert before - unreadable - {} == before - unreadable;
  }

  // The slice of the sorted list picks readable files of the directory, each once, the oldest first.
  lemma PickOldest(before: Directory, unreadable: set<string>, cps: seq<Checkpoint>, keep: int)
    requires Sorted(cps) && Distinct(cps) && keep < |cps| == |before.Keys - unreadable|
    requires Lists(before, unreadable, cps)
    requires forall id :: id in before ==> before[id].id == id
    ensures
      var oldest := PrefixBefore(cps, keep);
      && Deletable(before, oldest)
      && IdsOf(oldest) <= before.Keys - unreadable
      && CleanedUp(before - unreadable, before - unreadable - IdsOf(oldest), keep)
  {
    var oldest := PrefixBefore(cps, keep);
    forall i | 0 <= i < |oldest| ensures oldest[i].id in before && IsNew(oldest, i) {
      assert oldest[i] == cps[i] && cps[i] in cps;
      ListedIdsDiffer(before, unreadable, cps, i);
      assert oldest[..i] == cps[..i];
    }
    forall id | id in IdsOf(oldest) ensures id in before.Keys - unreadable {
      IdsOfAre(oldest, id);
      var i :| 0 <= i < |oldest| && oldest[i].id == id;
      assert cps[i] in cps;
    }
    ReadablePart(before, unreadable, cps);
    PrefixIsOldest(before - unreadable, cps, keep, before - unreadable - IdsOf(oldest));
  }

  // With every file readable and every deletion working, the directory itself is pruned.
  lemma NothingWithheld(before: Directory, chosen: set<string>, after: Directory, keep: int)
    requires CleanedWith(before, after, keep, {}, {}, chosen)
    ensures CleanedUp(before, after, keep)
  {
    hide CleanedUp;
    assert before - {} == before && chosen - {} == chosen;
    assert after == before - {} - chosen;
  }

  lemma SaveIsDone(before: Directory, count: nat, cp: Checkpoint, after: Directory)
    requires
      if (count + 1) % CLEANUP_EVERY == 0 then CleanedUp(before[cp.id := cp], after, KEEP_LAST)
      else after == before[cp.id := cp]
    ensures SavedBy(before, count, cp, after)
  {
  }

  lemma ReadablePart(dir: Directory, unreadable: set<string>, cps: seq<Checkpoint>)
    requires Lists(dir, unreadable, cps) && |cps| == |dir.Keys - unreadable|
    ensures Lists(dir - unreadable, {}, cps) && |cps| == |dir - unreadable|
  {
    forall cp ensures cp in cps <==> IsListed(dir - unreadable, {}, cp) {
      assert cp in cps <==> IsListed(dir, unreadable, cp);
    }
    assert (dir - unreadable).Keys == dir.Keys - unreadable;
    assert |dir - unreadable| == |(dir - unreadable).Keys|;
  }

  predicate IsNew(cps: seq<Checkpoint>, i: nat)
    requires i < |cps|
  {
    cps[i].id !in IdsOf(cps[..i])
  }

  ghost predicate Deletable(dir: Directory, cps: seq<Checkpoint>) {
    forall i :: 0 <= i < |cps| ==> cps[i].id in dir && IsNew(cps, i)
  }

  lemma RemoveOneMore(dir: Directory, gone: set<string>, id: string)
    ensures dir - gone - {id} == dir - (gone + {id})
  {
  }

  // The ids of a list of checkpoints.
  function IdsOf(cps: seq<Checkpoint>): set<string> {
    if cps == [] then {} else IdsOf(cps[..|cps| - 1]) + {cps[|cps| - 1].id}
  }

  lemma {:induction false} IdsOfAre(cps: seq<Checkpoint>, id: string)
    ensures id in IdsOf(cps) <==> exists i :: 0 <= i < |cps| && cps[i].id == id
  {
    if cps != [] {
      IdsOfAre(cps[..|cps| - 1], id);
    }
  }

  lemma ListedIdsDiffer(dir: Directory, unreadable: set<string>, cps: seq<Checkpoint>, i: nat)
    requires Distinct(cps) && i < |cps|
    requires Lists(dir, unreadable, cps)
    ensures cps[i].id !in IdsOf(cps[..i])
  {
    forall j | 0 <= j < i ensures cps[j].id != cps[i].id {
      assert cps[j] in cps && cps[i] in cps;
    }
    IdsOfAre(cps[..i], cps[i].id);
  }

  lemma OlderThanKept(before: Directory, cps: seq<Checkpoint>, n: nat, id: string, lost: string)
    requires Sorted(cps) && n <= |cps| && Lists(before, {}, cps)
    requires forall id :: id in before ==> before[id].id == id
    requires id in before && lost in before && id !in IdsOf(cps[..n]) && lost in IdsOf(cps[..n])
    ensures before[lost].timestamp <= before[id].timestamp
  {
    IdsOfAre(cps[..n], lost);
    var i :| 0 <= i < n && cps[..n][i].id == lost;
    assert before[id] in cps && cps[i] in cps;
    var j :| 0 <= j < |cps| && cps[j] == before[id];
    IdsOfAre(cps[..n], id);
    assert forall k :: 0 <= k < n ==> cps[..n][k].id != id;
    assert j >= n;
  }

  lemma OldestAreListed(dir: Directory, cps: seq<Checkpoint>, n: nat)
    requires n <= |cps| && Lists(dir, {}, cps)
    ensures IdsOf(cps[..n]) <= dir.Keys
  {
    forall id | id in IdsOf(cps[..n]) ensures id in dir {
      IdsOfAre(cps[..n], id);
      var i :| 0 <= i < n && cps[..n][i].id == id;
      assert cps[i] in cps;
    }
  }

  lemma PrefixIsOldest(before: Directory, cps: seq<Checkpoint>, keep: int, after: Directory)
    requires Sorted(cps) && Distinct(cps) && keep < |cps| == |before|
    requires Lists(before, {}, cps)
    requires forall id :: id in before ==> before[id].id == id
    requires after == before - IdsOf(PrefixBefore(cps, keep))
    ensures CleanedUp(before, after, keep)
  {
    hide Lists, Sorted, Distinct, IdsOf;
    var oldest := PrefixBefore(cps, keep);
    var gone := IdsOf(oldest);
    OldestAreListed(before, cps, |oldest|);
    OneIdEach(before, cps, |oldest|);
    assert cps[..|oldest|] == oldest;
    assert after.Keys == before.Keys - gone;
    assert |after.Keys| == |before.Keys| - |gone|;
    forall id, lost | id in after && lost in before && lost !in after
      ensures before[lost].timestamp <= after[id].timestamp
    {
      OlderThanKept(before, cps, |oldest|, id, lost);
    }
  }

  lemma {:induction false} OneIdEach(dir: Directory, cps: seq<Checkpoint>, n: nat)
    requires Distinct(cps) && n <= |cps|
    requires Lists(dir, {}, cps)
    ensures |IdsOf(cps[..n])| == n
  {
    if n > 0 {
      OneIdEach(dir, cps, n - 1);
      ListedIdsDiffer(dir, {}, cps, n - 1);
      assert cps[..n][..n - 1] == cps[..n - 1];
    }
  }
}
