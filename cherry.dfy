/**
 * `git cherry` as the program runs it: object flags updated in place, a
 * pending list per revision walk, and the loops that collect patch IDs,
 * reverse the walk and print the report.  Each method is proved against the
 * functions of CherrySpec.
 */
module Cherry {
  import opened CherrySpec

  /** The object store: the names that resolve to a commit, and every commit's flags. */
  class Repository {
    const names: map<string, ObjectId>
    var flags: map<ObjectId, Flags>

    ghost predicate Valid()
      reads this
    {
      forall n :: n in names ==> names[n] in flags
    }

    /** A repository as a new process sees it: no object carries a flag. */
    constructor (names: map<string, ObjectId>, commits: set<ObjectId>)
      requires forall n :: n in names ==> names[n] in commits
      ensures Valid() && this.names == names
      ensures flags.Keys == commits && Clean(flags)
    {
      this.names := names;
      flags := map o | o in commits :: {};
    }
  }

  /** The part of a `struct rev_info` the command uses: its pending objects. */
  class RevInfo {
    var pending: seq<ObjectId>

    constructor ()
      ensures pending == []
    {
      pending := [];
    }
  }

  /** `add_pending_object`: queue `o` as a starting point of the walk. */
  method AddPendingObject(revs: RevInfo, o: ObjectId)
    modifies revs
    ensures revs.pending == old(revs.pending) + [o]
  {
    revs.pending := revs.pending + [o];
  }

  /**
   * Resolves `arg` to a commit, ORs `flags` into that commit's flags and
   * queues it; false, changing nothing, when `arg` names no commit.
   */
  method AddPendingCommit(arg: string, revs: RevInfo, repo: Repository, flags: Flags) returns (ok: bool)
    requires repo.Valid()
    modifies revs, repo
    ensures repo.Valid()
    ensures ok <==> arg in repo.names
    ensures ok ==> && revs.pending == old(revs.pending) + [repo.names[arg]]
                   && repo.flags == old(repo.flags)[repo.names[arg] := old(repo.flags)[repo.names[arg]] + flags]
    ensures !ok ==> revs.pending == old(revs.pending) && repo.flags == old(repo.flags)
  {
    if arg !in repo.names {
      return false;
    }
    var commit := repo.names[arg];
    repo.flags := repo.flags[commit := repo.flags[commit] + flags];
    AddPendingObject(revs, commit);
    return true;
  }

  /**
   * `prepare_revision_walk` and the `get_revision` calls that drain it: the
   * walk from the pending objects' boundaries, which marks the commits it
   * touches.  None when the walk cannot be set up.
   */
  method RevisionWalk(revs: RevInfo, repo: Repository, env: Env) returns (w: Option<Walk>)
    requires forall o :: o in revs.pending ==> o in repo.flags
    requires Unmarked(repo.flags, revs.pending)
    modifies repo
    ensures w == env.walk(Boundaries(revs.pending, old(repo.flags)).included,
                          Boundaries(revs.pending, old(repo.flags)).excluded)
    ensures repo.flags == if w.Some? then MarkWalk(old(repo.flags), w.value) else old(repo.flags)
  {
    var range := Boundaries(revs.pending, repo.flags);
    w := env.walk(range.included, range.excluded);
    if w.Some? {
      repo.flags := MarkWalk(repo.flags, w.value);
    }
  }

  /** `clear_commit_marks` from both endpoints: clears `mask` on the commits they reach. */
  method ClearCommitMarks(repo: Repository, region: set<ObjectId>, mask: Flags)
    modifies repo
    ensures repo.flags == ClearMarks(old(repo.flags), region, mask)
  {
    repo.flags := ClearMarks(repo.flags, region, mask);
  }

  /** The `add_commit_patch_id` loop over the walk. */
  method CollectPatchIds(commits: seq<ObjectId>, patchId: ObjectId -> Option<PatchId>) returns (ids: set<PatchId>)
    ensures ids == PatchIdSet(commits, patchId)
  {
    ids := {};
    var i := 0;
    while i < |commits|
      invariant 0 <= i <= |commits|
      invariant ids == PatchIdSet(commits[..i], patchId)
    {
      var commit := commits[i];
      assert commits[..i + 1][..i] == commits[..i];
      if patchId(commit).Some? {
        ids := ids + {patchId(commit).value};
      }
      i := i + 1;
    }
    assert commits[..i] == commits;
  }

  /**
   * `get_patch_ids`: checks that the pending objects form one range, walks
   * the opposite range with both ends' UNINTERESTING bits flipped, collects
   * the patch IDs of what it walked, then clears the walk's marks and puts
   * both ends' flags back.
   */
  method GetPatchIds(revs: RevInfo, repo: Repository, env: Env) returns (r: Result<set<PatchId>>)
    requires forall o :: o in revs.pending ==> o in repo.flags
    requires Unmarked(repo.flags, revs.pending)
    modifies repo
    ensures r == PatchIds(revs.pending, old(repo.flags), env)
    ensures r == Err(NeedExactlyOneRange) || r == Err(NotARange) ==> repo.flags == old(repo.flags)
    ensures r == Err(WalkSetupFailed) ==>
      repo.flags == Toggle(Toggle(old(repo.flags), revs.pending[0]), revs.pending[1])
    ensures r.Ok? ==>
      && OppositeWalk(revs.pending, old(repo.flags), env).Some?
      && repo.flags == FlagsAfterPatchIds(old(repo.flags), revs.pending[0], revs.pending[1],
                                          OppositeWalk(revs.pending, old(repo.flags), env).value)
    ensures r.Ok? ==> repo.flags == old(repo.flags)
  {
    if |revs.pending| != 2 {
      return Err(NeedExactlyOneRange);
    }
    var o1, o2 := revs.pending[0], revs.pending[1];
    var flags1, flags2 := repo.flags[o1], repo.flags[o2];
    if (UNINTERESTING in flags1) == (UNINTERESTING in flags2) {
      return Err(NotARange);
    }
    ghost var before := repo.flags;
    ghost var toggled := Toggle(Toggle(before, o1), o2);
    assert revs.pending == [o1, o2];

    // Swap the two ends' sides and walk the opposite range.
    var checkRev := new RevInfo();
    repo.flags := Toggle(repo.flags, o1);
    repo.flags := Toggle(repo.flags, o2);
    AddPendingObject(checkRev, o1);
    AddPendingObject(checkRev, o2);
    assert checkRev.pending == revs.pending && repo.flags == toggled;
    var walk := RevisionWalk(checkRev, repo, env);
    PatchIdsOutcome(revs.pending, before, env);
    ToggleSwapsRange(before, o1, o2);
    assert walk == OppositeWalk(revs.pending, before, env);
    if walk.None? {
      return Err(WalkSetupFailed);
    }
    ghost var walked := MarkWalk(toggled, walk.value);
    assert repo.flags == walked;
    var ids := CollectPatchIds(walk.value.commits, env.patchId);

    // Undo the walk's marks and the swap before the caller walks again.
    ClearCommitMarks(repo, Footprint(walk.value, o1, o2), RESET_MASK);
    repo.flags := repo.flags[o1 := flags1][o2 := flags2];
    assert repo.flags == ClearMarks(walked, Footprint(walk.value, o1, o2), RESET_MASK)[o1 := before[o1]][o2 := before[o2]];
    UnmarkedBeyondEnds(before, o1, o2);
    FlagsRestored(before, o1, o2, walk.value);
    return Ok(ids);
  }

  /** The `commit_list_insert` loop: each walked commit becomes the new head of the list. */
  method ReverseCommits(commits: seq<ObjectId>) returns (list: seq<ObjectId>)
    ensures list == Reversed(commits)
  {
    list := [];
    var i := 0;
    while i < |commits|
      invariant 0 <= i <= |commits|
      invariant list == Reversed(commits[..i])
    {
      assert commits[..i + 1][..i] == commits[..i];
      list := [commits[i]] + list;
      i := i + 1;
    }
    assert commits[..i] == commits;
  }

  /** The output loop: one `print_commit` line per list entry, in list order. */
  method PrintCommits(list: seq<ObjectId>, ids: set<PatchId>, env: Env, verbose: bool, abbrev: int)
    returns (out: seq<string>)
    ensures out == Lines(Classify(list, ids, env.patchId), env, verbose, abbrev)
  {
    out := [];
    var rest := list;
    while rest != []
      invariant |rest| <= |list| && rest == list[|list| - |rest|..]
      invariant |out| == |list| - |rest|
      invariant forall j :: 0 <= j < |out| ==>
        out[j] == Line(Mark(Sign(list[j], ids, env.patchId), list[j]), env, verbose, abbrev)
    {
      var commit := rest[0];
      var sign := '+';
      if env.patchId(commit).Some? && env.patchId(commit).value in ids {
        sign := '-';
      }
      out := out + [Line(Mark(sign, commit), env, verbose, abbrev)];
      rest := rest[1..];
    }
  }

  /**
   * `cmd_cherry`: the lines printed, or the error the command dies with.
   * Starts from a repository in which no object carries a flag.
   */
  method CmdCherry(repo: Repository, env: Env, args: seq<string>, verbose: bool, abbrev: int)
    returns (r: Result<seq<string>>)
    requires repo.Valid() && Clean(repo.flags)
    modifies repo
    ensures r == CherryOutput(env, repo.names, args, verbose, abbrev)
  {
    var endpoints := ArgsToEndpoints(args, env.trackedUpstream);
    if endpoints.Err? {
      return Err(endpoints.error);
    }
    var ep := endpoints.value;
    ghost var clean := repo.flags;
    var revs := new RevInfo();
    var ok := AddPendingCommit(ep.head, revs, repo, {});
    if !ok {
      return Err(UnknownCommit(ep.head));
    }
    ok := AddPendingCommit(ep.upstream, revs, repo, {UNINTERESTING});
    if !ok {
      return Err(UnknownCommit(ep.upstream));
    }
    var head, upstream := repo.names[ep.head], repo.names[ep.upstream];
    assert revs.pending == [head, upstream];

    // Equal endpoints: an empty report, before any walk.
    if |revs.pending| == 2 && revs.pending[0] == revs.pending[1] {
      assert Lines([], env, verbose, abbrev) == [];
      return Ok([]);
    }
    r := ListRange(repo, revs, env, clean, head, upstream, ep.limit, verbose, abbrev);
  }

  /**
   * The rest of `cmd_cherry` once head and upstream are queued and differ:
   * the patch IDs of upstream..head's opposite, then the walk from head with
   * upstream and the limit excluded, reversed and printed.
   */
  method ListRange(repo: Repository, revs: RevInfo, env: Env, ghost clean: map<ObjectId, Flags>,
                   head: ObjectId, upstream: ObjectId, limit: Option<string>, verbose: bool, abbrev: int)
    returns (r: Result<seq<string>>)
    requires repo.Valid() && Clean(clean) && head in clean && upstream in clean && head != upstream
    requires revs.pending == [head, upstream] && repo.flags == Queued(clean, head, upstream)
    modifies repo, revs
    ensures r == Report(Classification(env, repo.names, head, upstream, limit), env, verbose, abbrev)
  {
    ghost var flags0 := repo.flags;
    FirstWalk(clean, head, upstream, env);
    var ids := GetPatchIds(revs, repo, env);
    if ids.Err? {
      return Err(ids.error);
    }
    assert repo.flags == flags0;

    var ok := QueueLimit(repo, revs, clean, head, upstream, limit);
    if !ok {
      return Err(UnknownCommit(limit.value));
    }

    // Second walk; prepending each commit puts the oldest first.
    var walk := RevisionWalk(revs, repo, env);
    if walk.None? {
      return Err(WalkSetupFailed);
    }
    var list := ReverseCommits(walk.value.commits);
    var lines := PrintCommits(list, ids.value, env, verbose, abbrev);
    return Ok(lines);
  }

  /**
   * Queues the limit, if one is given, with UNINTERESTING, so that the walk
   * runs from head with upstream and the limit excluded.
   */
  method QueueLimit(repo: Repository, revs: RevInfo, ghost clean: map<ObjectId, Flags>,
                    head: ObjectId, upstream: ObjectId, limit: Option<string>) returns (ok: bool)
    requires repo.Valid() && Clean(clean) && head in clean && upstream in clean && head != upstream
    requires revs.pending == [head, upstream] && repo.flags == Queued(clean, head, upstream)
    modifies repo, revs
    ensures repo.Valid()
    ensures ok <==> limit.None? || limit.value in repo.names
    ensures ok ==>
      && (forall o :: o in revs.pending ==> o in repo.flags)
      && Unmarked(repo.flags, revs.pending)
      && Boundaries(revs.pending, repo.flags)
         == Range({head} - LimitSet(repo.names, limit), {upstream} + LimitSet(repo.names, limit))
  {
    ghost var limitIds: seq<ObjectId> :=
      if limit.Some? && limit.value in repo.names then [repo.names[limit.value]] else [];
    CommandRanges(clean, head, upstream, limitIds);
    ok := true;
    if limit.Some? {
      ok := AddPendingCommit(limit.value, revs, repo, {UNINTERESTING});
    }
    if ok {
      assert revs.pending == [head, upstream] + limitIds;
    }
  }
}
