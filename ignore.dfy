/**
 * The decision layer of `git ignore`: which options conflict, which
 * defaults fill in, which one action runs and which ignore files it touches,
 * in which order.  The option parser's result (the scope and action masks
 * and the remaining patterns) is an input; what the chosen action then does
 * to the files is not modelled.
 */
module Ignore {

  /** An `int` option word that `OPT_BIT` sets bits in. */
  type Mask = bv32

  const SCOPE_SHARE: Mask := 1
  const SCOPE_LOCAL: Mask := 2
  const SCOPE_SYSTEM: Mask := 4

  const ACTION_TRACK: Mask := 1
  const ACTION_UNTRACK: Mask := 2
  const ACTION_EDIT: Mask := 4

  /** Every bit the option table can set in either mask. */
  const KNOWN_BITS: Mask := 7

  /** The three ignore files: `.gitignore`, `info/exclude` and the user-wide file. */
  datatype Target = Share | Local | System

  /** Why the command stops before doing anything. */
  datatype Failure =
    | Usage
    | TrackWithEdit
    | UntrackWithEdit
    | TrackAndUntrack
    | NoPattern

  datatype Option<T> = None | Some(value: T)

  /** What the command ends in. `Unhandled` is the final `return 1`. */
  datatype Outcome =
    | Failed(failure: Failure)
    | AddPatterns(targets: seq<Target>, patterns: seq<string>)
    | RemovePatterns(scope: Mask, patterns: seq<string>)
    | EditFiles(targets: seq<Target>)
    | Unhandled

  predicate Has(mask: Mask, bit: Mask)
  {
    mask & bit != 0
  }

  /** The scope bit that selects a target. */
  function ScopeBit(t: Target): Mask
  {
    match t
    case Share => SCOPE_SHARE
    case Local => SCOPE_LOCAL
    case System => SCOPE_SYSTEM
  }

  /** Position of a target in the order the files are handled. */
  function Rank(t: Target): nat
  {
    match t
    case Share => 0
    case Local => 1
    case System => 2
  }

  /**
   * The files `add_ignore_patterns` and `edit_ignore_file` visit for
   * `scope`: share, local, system, each only when its bit is set.
   */
  function Targets(scope: Mask): (ts: seq<Target>)
    ensures forall t :: t in ts <==> Has(scope, ScopeBit(t))
    ensures forall i, j :: 0 <= i < j < |ts| ==> Rank(ts[i]) < Rank(ts[j])
  {
    (if Has(scope, SCOPE_SHARE) then [Share] else [])
    + (if Has(scope, SCOPE_LOCAL) then [Local] else [])
    + (if Has(scope, SCOPE_SYSTEM) then [System] else [])
  }

  /** The raw arguments ask for the usage text: too few of them, or `-h` first. */
  predicate UsageRequested(argv: seq<string>)
  {
    |argv| < 2 || argv[1] == "-h"
  }

  /** The option checks after parsing; None when the options are acceptable. */
  function Validate(action: Mask, patterns: seq<string>): (r: Option<Failure>)
    ensures r != Some(Usage)
    ensures r.None? <==> (&& (Has(action, ACTION_EDIT) ==> !Has(action, ACTION_TRACK) && !Has(action, ACTION_UNTRACK))
                          && (!Has(action, ACTION_EDIT) ==>
                                !(Has(action, ACTION_TRACK) && Has(action, ACTION_UNTRACK)) && |patterns| >= 1))
  {
    if Has(action, ACTION_EDIT) then
      if Has(action, ACTION_TRACK) then Some(TrackWithEdit)
      else if Has(action, ACTION_UNTRACK) then Some(UntrackWithEdit)
      else None
    else if Has(action, ACTION_TRACK) && Has(action, ACTION_UNTRACK) then Some(TrackAndUntrack)
    else if |patterns| < 1 then Some(NoPattern)
    else None
  }

  /** `action |= ACTION_TRACK` when no action was given. */
  function DefaultAction(action: Mask): (a: Mask)
    ensures action != 0 ==> a == action
    ensures action == 0 ==> Has(a, ACTION_TRACK) && !Has(a, ACTION_UNTRACK) && !Has(a, ACTION_EDIT)
  {
    if action == 0 then action | ACTION_TRACK else action
  }

  /** `scope |= SCOPE_SHARE` when no scope was given. */
  function DefaultScope(scope: Mask): (s: Mask)
    ensures scope != 0 ==> s == scope
    ensures scope == 0 ==> Targets(s) == [Share]
  {
    if scope == 0 then scope | SCOPE_SHARE else scope
  }

  /** The first action bit that is set, in the order track, untrack, edit. */
  function Dispatch(scope: Mask, action: Mask, patterns: seq<string>): (r: Outcome)
    ensures !r.Failed?
    ensures r == Unhandled <==> action & KNOWN_BITS == 0
    ensures r.AddPatterns? <==> Has(action, ACTION_TRACK)
    ensures r.RemovePatterns? <==> !Has(action, ACTION_TRACK) && Has(action, ACTION_UNTRACK)
    ensures r.AddPatterns? || r.EditFiles? ==> r.targets == Targets(scope)
  {
    if Has(action, ACTION_TRACK) then AddPatterns(Targets(scope), patterns)
    else if Has(action, ACTION_UNTRACK) then RemovePatterns(scope, patterns)
    else if Has(action, ACTION_EDIT) then EditFiles(Targets(scope))
    else Unhandled
  }

  /**
   * `cmd_ignore`, given the raw arguments and what the option parser made
   * of them: the two masks and the arguments left over as patterns.
   */
  function CmdIgnore(argv: seq<string>, scope: Mask, action: Mask, patterns: seq<string>): (r: Outcome)
    ensures r == Failed(Usage) <==> UsageRequested(argv)
    ensures !UsageRequested(argv) ==> (r.Failed? <==> Validate(action, patterns).Some?)
    ensures r.AddPatterns? || r.RemovePatterns? ==> r.patterns == patterns
  {
    if UsageRequested(argv) then Failed(Usage)
    else match Validate(action, patterns)
      case Some(f) => Failed(f)
      case None => Dispatch(DefaultScope(scope), DefaultAction(action), patterns)
  }

  // ---------------------------------------------------------------------
  // Properties of the decision

  /** `--edit` with `--track`, or with `--untrack`, is refused. */
  lemma EditConflicts(argv: seq<string>, scope: Mask, action: Mask, patterns: seq<string>)
    requires !UsageRequested(argv) && Has(action, ACTION_EDIT)
    ensures Has(action, ACTION_TRACK) ==> CmdIgnore(argv, scope, action, patterns) == Failed(TrackWithEdit)
    ensures !Has(action, ACTION_TRACK) && Has(action, ACTION_UNTRACK) ==>
      CmdIgnore(argv, scope, action, patterns) == Failed(UntrackWithEdit)
    ensures CmdIgnore(argv, scope, action, patterns).Failed? <==>
      Has(action, ACTION_TRACK) || Has(action, ACTION_UNTRACK)
  {
  }

  /** Without `--edit`, `--track` and `--untrack` together are refused. */
  lemma TrackUntrackConflict(argv: seq<string>, scope: Mask, action: Mask, patterns: seq<string>)
    requires !UsageRequested(argv) && !Has(action, ACTION_EDIT)
    ensures CmdIgnore(argv, scope, action, patterns) == Failed(TrackAndUntrack)
        <==> Has(action, ACTION_TRACK) && Has(action, ACTION_UNTRACK)
  {
  }

  /** Missing patterns are an error exactly when the command is not editing. */
  lemma PatternsRequiredUnlessEditing(argv: seq<string>, scope: Mask, action: Mask)
    requires !UsageRequested(argv)
    ensures CmdIgnore(argv, scope, action, []) == Failed(NoPattern)
        <==> !Has(action, ACTION_EDIT) && !(Has(action, ACTION_TRACK) && Has(action, ACTION_UNTRACK))
    ensures action == ACTION_EDIT ==> CmdIgnore(argv, scope, action, []) == EditFiles(Targets(DefaultScope(scope)))
  {
  }

  /** With neither a scope nor an action given, the patterns go to `.gitignore`. */
  lemma DefaultsTrackToShare(argv: seq<string>, patterns: seq<string>)
    requires !UsageRequested(argv) && |patterns| >= 1
    ensures CmdIgnore(argv, 0, 0, patterns) == AddPatterns([Share], patterns)
  {
  }

  /**
   * With the masks the option table can produce, a command that passes the
   * checks runs exactly one action, the first of track, untrack, edit that
   * is set, and never reaches the final `return 1`.
   */
  lemma OneActionRuns(argv: seq<string>, scope: Mask, action: Mask, patterns: seq<string>)
    requires !UsageRequested(argv) && Validate(action, patterns).None?
    requires action & !KNOWN_BITS == 0
    ensures CmdIgnore(argv, scope, action, patterns) != Unhandled
    ensures CmdIgnore(argv, scope, action, patterns).AddPatterns? <==> action == 0 || Has(action, ACTION_TRACK)
    ensures CmdIgnore(argv, scope, action, patterns).RemovePatterns? <==> Has(action, ACTION_UNTRACK)
    ensures CmdIgnore(argv, scope, action, patterns).EditFiles? <==> action == ACTION_EDIT
  {
  }

  /** A bit outside the option table's, alone, reaches the final `return 1`. */
  lemma UnknownActionBitFallsThrough(argv: seq<string>, scope: Mask, patterns: seq<string>)
    requires !UsageRequested(argv) && |patterns| >= 1
    ensures CmdIgnore(argv, scope, 8, patterns) == Unhandled
  {
  }

  /** Whatever the scope, the files are visited in a fixed order, each once, and only the chosen ones. */
  lemma TargetsInOrder(argv: seq<string>, scope: Mask, action: Mask, patterns: seq<string>)
    requires CmdIgnore(argv, scope, action, patterns).AddPatterns? || CmdIgnore(argv, scope, action, patterns).EditFiles?
    ensures var ts := CmdIgnore(argv, scope, action, patterns).targets;
      && (scope == 0 ==> ts == [Share])
      && (scope != 0 ==> forall t :: t in ts <==> Has(scope, ScopeBit(t)))
      && (forall i, j :: 0 <= i < j < |ts| ==> Rank(ts[i]) < Rank(ts[j]))
  {
  }
}
