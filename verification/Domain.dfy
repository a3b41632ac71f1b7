/** Upload lifecycle states shared by every part of the control plane. */
module Domain {
  import opened Basics

  datatype MediaKind = Image | Video

  datatype UploadState =
    Created | Uploaded | Quarantined | Processing | Ready | Rejected | Failed | Deleted
  {
    predicate CanTransitionTo(target: UploadState) {
      match (this, target)
      case (Created, Uploaded) => true
      case (Uploaded, Quarantined) => true
      case (Quarantined, Processing) => true
      case (Quarantined, Rejected) => true
      case (Quarantined, Failed) => true
      case (Processing, Ready) => true
      case (Processing, Rejected) => true
      case (Processing, Failed) => true
      case (Deleted, _) => false
      case (_, Deleted) => true
      case _ => false
    }

    /** An outcome that no worker may change any more. */
    predicate Decided() {
      Ready? || Rejected? || Failed? || Deleted?
    }
  }

  datatype StateTransitionError = StateTransitionError(from: UploadState, to: UploadState)

  /** The mutable state cell behind `transition_to`. */
  class Lifecycle {
    var state: UploadState

    constructor ()
      ensures state == Created
    {
      state := Created;
    }

    method TransitionTo(target: UploadState) returns (r: Result<(), StateTransitionError>)
      modifies this
      ensures r.Ok? <==> old(state).CanTransitionTo(target)
      ensures r.Ok? <==> || (old(state) == Created && target == Uploaded)
                         || (old(state) == Uploaded && target == Quarantined)
                         || (old(state) == Quarantined && target in {Processing, Rejected, Failed})
                         || (old(state) == Processing && target in {Ready, Rejected, Failed})
                         || (old(state) != Deleted && target == Deleted)
      ensures r.Ok? ==> state == target
      ensures r.Err? ==> state == old(state) && r.error == StateTransitionError(old(state), target)
    {
      if !state.CanTransitionTo(target) {
        return Err(StateTransitionError(state, target));
      }
      state := target;
      return Ok(());
    }
  }

  /** A history in which every step is a permitted transition. */
  ghost predicate History(path: seq<UploadState>) {
    forall i :: 0 <= i < |path| - 1 ==> path[i].CanTransitionTo(path[i + 1])
  }

  /** Progress through the lifecycle; every permitted transition increases it. */
  function Rank(s: UploadState): nat {
    match s
    case Created => 0
    case Uploaded => 1
    case Quarantined => 2
    case Processing => 3
    case Ready => 4
    case Rejected => 4
    case Failed => 4
    case Deleted => 5
  }

  lemma {:induction false} HistoryClimbs(path: seq<UploadState>)
    requires path != [] && History(path)
    ensures Rank(path[|path| - 1]) >= Rank(path[0]) + |path| - 1
  {
    if |path| > 1 {
      HistoryClimbs(path[1..]);
    }
  }

  /**
   * Whatever happens to an upload, an outcome is decided once: after Ready, Rejected or Failed the
   * only other state is Deleted, and no lifecycle visits more than six states.
   */
  lemma OutcomeDecidedOnce(path: seq<UploadState>, i: nat, j: nat)
    requires History(path) && i < j < |path| && path[i].Decided()
    ensures path[j] == Deleted && !path[i].Deleted?
    ensures j == i + 1 && |path| <= 6
  {
    HistoryClimbs(path[i..j + 1]);
    HistoryClimbs(path);
    assert path[i].CanTransitionTo(path[i + 1]);
  }
}
