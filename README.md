# git cherry and git ignore, modelled in Dafny

This project models two git builtins.

**`git cherry [-v] [<upstream> [<head> [<limit>]]]`** lists the commits of
`upstream..head`, oldest first, each marked `-` when a commit with the same
patch ID is already in `head..upstream`, and `+` otherwise. The model covers:

- turning the positional arguments into endpoints;
- queueing the endpoints with their object flags (`add_pending_commit`);
- the early exit when head and upstream are the same commit;
- `get_patch_ids`, which checks that the pending objects form one range, flips both ends' UNINTERESTING bit, walks the opposite range, collects patch IDs, then clears the walk's marks and restores both ends' flags;
- queueing the limit only after that;
- reversing the walk by prepending;
- the `print_commit` line.

**`git ignore`** is modelled only at its decision layer:

- the usage check on the raw arguments;
- the option conflicts;
- the defaults (track, and the project's `.gitignore`);
- the choice of one action, track over untrack over edit;
- the order in which the three ignore files are visited.

Layout:

- `cherry_spec.dfy`, module `CherrySpec`, holds the values and the specification:
  - the object flags as the set of their bit positions;
  - `Env`, the rest of git as the command sees it: the revision walk, patch IDs, abbreviations, one-line summaries, the tracked upstream;
  - the functions that say what the command computes and reports, and the lemmas about them.
- `cherry.dfy`, module `Cherry`, is the command as it runs:
  - a `Repository` whose `flags` map the methods update in place, and a `RevInfo` pending list;
  - the three loops (patch-ID collection, prepend-reversal, output);
  - `GetPatchIds` and `CmdCherry`.

  Each method is proved against the functions of `CherrySpec`.
- `ignore.dfy`, module `Ignore`, holds the pure decision functions of `cmd_ignore` over its two bit masks, and lemmas about them.

## Model

| member | source | states |
|---|---|---|
| CherrySpec.Boundaries | builtin/cherry.c:41-43 | a walk's boundaries split the pending objects: those without UNINTERESTING are included, those with it excluded; the two sides are disjoint and cover the pending objects |
| CherrySpec.Toggle | builtin/cherry.c:39-40 | `flags ^= UNINTERESTING` flips that bit of one object, keeps its other bits and leaves the set of objects alone |
| CherrySpec.ToggleTwice | builtin/cherry.c:39-40 | flipping the bit twice gives the original flags back |
| CherrySpec.ToggleSwapsRange | builtin/cherry.c:36-43 | flipping both ends of a range a..b makes the walk cover b..a: included and excluded swap |
| CherrySpec.WalkMarks | builtin/cherry.c:43-47 | the walk marks only with SEEN, UNINTERESTING, SHOWN and ADDED; every returned commit is SHOWN, every parsed commit SEEN, and an untouched commit gets nothing |
| CherrySpec.ClearMarks | builtin/cherry.c:50-51 | the cleared commits lose exactly the mask's bits; every other commit keeps its flags |
| CherrySpec.FlagsAfterPatchIds | builtin/cherry.c:39-53 | the flags `get_patch_ids` leaves: both ends toggled, the walk's marks added, the four marks cleared on every commit the walk reached, then both ends' saved flags written back; ObjectRestored and FlagsRestored state what this comes to |
| CherrySpec.FlagsRestored | builtin/cherry.c:26-53 | when no other object carried a walk mark, the flags after `get_patch_ids` equal the flags before it, for every object and not only the two ends |
| CherrySpec.ObjectRestored | builtin/cherry.c:49-53 | each end gets its saved flags back, and any other object that carried no walk mark is back to its old flags once the marks are cleared |
| CherrySpec.PatchIdSetMembers | builtin/cherry.c:46-47 | a patch ID is in the set exactly when some walked commit has it as its defined patch ID |
| CherrySpec.PatchIds | builtin/cherry.c:21-47 | the result of `get_patch_ids` as a value: the two range errors, the walk-setup error, or the patch-ID set of the opposite walk; PatchIdsOutcome states its cases |
| CherrySpec.PatchIdsOutcome | builtin/cherry.c:21-47 | "need exactly one range" exactly when there are not two pending objects; "not a range" exactly when both ends have the same UNINTERESTING bit; the walk-setup error exactly when both checks pass and the opposite walk cannot be set up; otherwise the patch IDs of the opposite walk |
| CherrySpec.CommandRanges | builtin/cherry.c:129-148 | with clean flags, head and upstream form the range upstream..head; a queued limit joins the excluded side and leaves the included side as head minus the limit |
| CherrySpec.FirstWalk | builtin/cherry.c:129-141 | once head and upstream are queued on clean flags no walk mark is left over, and the command's `get_patch_ids` walks head..upstream and yields that walk's patch IDs, or the walk-setup error |
| CherrySpec.Reversed | builtin/cherry.c:146-150 | prepending each walked commit yields the walk back to front: same length, entry k is the walk's entry n-1-k |
| CherrySpec.ReversedKeepsCommits | builtin/cherry.c:146-152 | reversal keeps the same commits with the same multiplicities: each walked commit is listed exactly once |
| CherrySpec.Line | builtin/cherry.c:71-85 | a line is the sign, a space and the abbreviated name, then a space and the one-line summary only when verbose, then a newline |
| CherrySpec.ArgsToEndpoints | builtin/cherry.c:95-124 | three arguments name upstream, head and limit, two upstream and head, one upstream; head defaults to "HEAD"; any other count takes the tracked upstream, with a usage error when there is none |
| CherrySpec.ExtraArgumentsIgnored | builtin/cherry.c:106-124 | more than three arguments are treated as none |
| CherrySpec.Sign | builtin/cherry.c:153-157 | '-' when the commit has a defined patch ID that is in the set, '+' otherwise; CherryReport states what this means for the report |
| CherrySpec.CherryMarks | builtin/cherry.c:106-161 | the report of `cmd_cherry` as signed commits, with its errors in the source's order: no upstream, unknown head, unknown upstream; empty when head and upstream are the same commit |
| CherrySpec.Classification | builtin/cherry.c:141-161 | the two walks: the patch IDs of head..upstream, then the walk from head with upstream and the limit excluded, reversed and signed; a failed walk setup or an unknown limit is an error, in the source's order |
| CherrySpec.CherryOutput | builtin/cherry.c:106-161 | the printed lines of the report, or its error; CmdCherry is proved to compute it |
| CherrySpec.CherryReport | builtin/cherry.c:141-161 | the report lists the second walk's commits in reverse order, each once; each is '-' exactly when a commit of head..upstream has the same defined patch ID, and '+' otherwise |
| CherrySpec.SameCommitReportsNothing | builtin/cherry.c:134-139 | when head and upstream are the same commit nothing is printed, and no walk or patch ID is consulted |
| CherrySpec.LimitKeepsSigns | builtin/cherry.c:141-144 | a limit narrows the listed commits but not the upstream side: a commit listed with and without a limit gets the same sign |
| Cherry.RevInfo.constructor | builtin/cherry.c:37-37 | a new walk has nothing pending |
| Cherry.AddPendingObject | builtin/cherry.c:41-42 | the object is appended to the pending list |
| Cherry.AddPendingCommit | builtin/cherry.c:56-69 | an unknown name fails and changes nothing; a known commit gets the flags ORed in and is appended to the pending list |
| Cherry.RevisionWalk | builtin/cherry.c:147-149 | starting from flags with no leftover walk mark (none outside the pending objects, at most UNINTERESTING on them), the walk is the one the pending objects' boundaries determine, and it leaves its marks on the flags |
| Cherry.ClearCommitMarks | builtin/cherry.c:50-51 | the flags become the old flags with the mask cleared on the reached commits |
| Cherry.CollectPatchIds | builtin/cherry.c:46-47 | the loop collects exactly the patch-ID set of the walked commits |
| Cherry.GetPatchIds | builtin/cherry.c:14-54 | the result is the range check's error or the opposite walk's patch IDs; the flags are unchanged on a range error, toggled on a failed walk, and otherwise equal to FlagsAfterPatchIds, which is every object's flags on entry, so the next walk again meets no stale mark |
| Cherry.ReverseCommits | builtin/cherry.c:149-150 | the prepend loop builds the walk back to front |
| Cherry.PrintCommits | builtin/cherry.c:152-161 | one line per list entry, in list order, with the sign the patch-ID set gives it |
| Cherry.CmdCherry | builtin/cherry.c:87-165 | from clean flags, the printed lines or the error are exactly those of the report specification |
| Cherry.ListRange | builtin/cherry.c:141-161 | once head and upstream are queued and differ, the result is the classification of the second walk by the first walk's patch IDs, printed |
| Cherry.QueueLimit | builtin/cherry.c:143-144 | an unknown limit fails; otherwise the walk runs from head with upstream and the limit excluded, and no leftover walk mark remains |
| Ignore.UsageRequested | builtin/ignore.c:149-150 | the raw arguments ask for the usage text: fewer than two of them, or "-h" as the first after the command name |
| Ignore.Validate | builtin/ignore.c:154-164 | the options pass exactly when `--edit` comes without `--track` and `--untrack`, or, without `--edit`, `--track` and `--untrack` are not both given and there is a pattern; validation never asks for the usage text |
| Ignore.Dispatch | builtin/ignore.c:171-178 | the action run is the first set of track, untrack, edit; the final `return 1` is taken exactly when none of the three bits is set; adding and editing use the targets of the scope |
| Ignore.CmdIgnore | builtin/ignore.c:132-179 | the usage error happens exactly when the raw arguments ask for it, whatever the options; after that the command fails exactly when validation does; adding and removing get the patterns the parser left |
| Ignore.Targets | builtin/ignore.c:61-130 | a file is visited exactly when its scope bit is set, in the order share, local, system, each at most once |
| Ignore.DefaultAction | builtin/ignore.c:166-167 | with no action given the action is track alone; otherwise it is kept |
| Ignore.DefaultScope | builtin/ignore.c:168-169 | with no scope given only the project's `.gitignore` is used; otherwise the scope is kept |
| Ignore.EditConflicts | builtin/ignore.c:154-158 | `--edit` with `--track` or with `--untrack` is refused, and `--edit` alone passes the checks |
| Ignore.TrackUntrackConflict | builtin/ignore.c:159-161 | without `--edit`, `--track` and `--untrack` together are refused, and that error comes from nothing else |
| Ignore.PatternsRequiredUnlessEditing | builtin/ignore.c:154-164 | with no pattern the command fails for lack of one exactly when it is not editing and no conflict came first; `--edit` alone accepts zero patterns |
| Ignore.DefaultsTrackToShare | builtin/ignore.c:166-172 | with no options the patterns are added to `.gitignore` only |
| Ignore.OneActionRuns | builtin/ignore.c:171-178 | with the option table's bits, a command that passes the checks runs exactly one action, track over untrack over edit, and never reaches `return 1` |
| Ignore.UnknownActionBitFallsThrough | builtin/ignore.c:171-178 | an action bit outside the option table's, on its own, reaches `return 1`, so the unreachability needs the masks the table can produce |
| Ignore.TargetsInOrder | builtin/ignore.c:61-178 | adding or editing visits the chosen files in the fixed order, each once, and `.gitignore` alone when no scope was given |

## Left out

- The flag bit values SEEN, UNINTERESTING, SHOWN and ADDED come from revision.h and object.h, which are not part of this model. Flags are sets of bit positions, so `^=`, `|=` and `&= ~` become set operations.
- The revision walk is left out: `prepare_revision_walk`, `get_revision`, commit parsing, date order and `max_parents = 1`. The walk is a function `Env.walk` from the included and excluded boundaries to the commits it returns and the commits it marked. `None` stands for a walk that cannot be set up.
- `clear_commit_marks` is not modelled as a graph traversal. It clears the four marks on every commit the walk marked, plus both ends.
- The patch-ID computation (diff and hash) is an uninterpreted partial function `Env.patchId`. A commit without a patch ID is never collected and is always '+'.
- `find_unique_abbrev`, `pp_commit_easy`, `branch_get`/`branch_get_upstream` and the `get_oid`/`lookup_commit_reference` lookups are given as inputs. These are `Env.abbrev`, `Env.oneline`, `Env.trackedUpstream`, and the repository's `names` map.
- `die` and `usage_with_options` become `Err` and `Failed` values. Exit codes and messages are left out.
- `parse_options` is left out for both commands. For `git cherry`, `-v` and `--abbrev` arrive as parameters. For `git ignore`, the two masks and the remaining patterns arrive as parameters.
- Output goes to a sequence of lines instead of a file.
- Cherry.CmdCherry: requires that no object carries a flag on entry, as in a fresh process. The flag-restoration result of get_patch_ids depends on this.
- Cherry.RevisionWalk: requires `Unmarked`. Under it, no object outside the pending list carries any of SEEN, UNINTERESTING, SHOWN or ADDED, and a pending object carries at most UNINTERESTING. `Env.walk` reads only the boundaries. git's walk also reads leftover marks: it skips an inner commit marked SEEN or UNINTERESTING, and a pending commit marked SEEN, SHOWN or ADDED. The model leaves out walks that start from such marks. Every call in the command meets the precondition, and the second walk meets it only because `get_patch_ids` cleared the first walk's marks.
- Cherry.GetPatchIds: requires `Unmarked` of the repository's flags and its pending list, for the same reason.
- In builtin/ignore.c, the file I/O of `add_file_ignore_patterns` is left out. It is unfinished and does not compile.
- The `remove_ignore_patterns` stub is left out. It only traces.
- `edit_file` is left out: the editor launch and the error when editing fails.
- The `core.excludesfile`/XDG lookup is left out. The system target is only named.
- Ignore: the two `|=` defaulting updates are modelled as the pure functions DefaultAction and DefaultScope.
