/** The review manager (`pyword/pyword/features/review.py`): the review
    mode, the markup flags it implies, and the hand-over of those flags to
    the attached track-changes and comments managers. A manager that is not
    attached is `null`. */
module Review {
  import opened Common
  import TrackChanges
  import Comments

  const EditMode: string := "Edit Mode"
  const ReviewMode: string := "Review Mode"
  const FinalMode: string := "Final Mode"

  /** The dictionary `get_review_summary` returns. */
  datatype Summary = Summary(mode: string, trackChangesEnabled: bool, reviewer: string,
                             pendingChanges: nat, activeComments: nat, resolvedComments: nat)

  /** The markup flag a mode sets, or `None` for a mode `set_mode` does
      not recognise (the flag is then left as it was). */
  function MarkupFor(mode: string): (r: Option<bool>)
    ensures mode == EditMode || mode == ReviewMode ==> r == Some(true)
    ensures mode == FinalMode ==> r == Some(false)
    ensures mode != EditMode && mode != ReviewMode && mode != FinalMode ==> r == None
  {
    if mode == EditMode || mode == ReviewMode then Some(true)
    else if mode == FinalMode then Some(false)
    else None
  }

  class ReviewManager {
    var mode: string
    var trackChangesEnabled: bool
    var showComments: bool
    var showMarkup: bool
    var reviewerName: string
    var trackChangesManager: TrackChanges.TrackChangesManager?
    var commentsManager: Comments.CommentsManager?

    /** The attached track-changes manager, as a set of at most one. */
    function TrackChangesFrame(): set<TrackChanges.TrackChangesManager>
      reads this
    {
      if trackChangesManager == null then {} else {trackChangesManager}
    }

    /** The attached comments manager, as a set of at most one. */
    function CommentsFrame(): set<Comments.CommentsManager>
      reads this
    {
      if commentsManager == null then {} else {commentsManager}
    }

    constructor ()
      ensures mode == EditMode && !trackChangesEnabled && showComments && showMarkup
      ensures reviewerName == "Reviewer" && trackChangesManager == null && commentsManager == null
    {
      mode := EditMode;
      trackChangesEnabled := false;
      showComments := true;
      showMarkup := true;
      reviewerName := "Reviewer";
      trackChangesManager := null;
      commentsManager := null;
    }

    /** Attaching the managers, as the caller does by assigning the two
        attributes. */
    method Attach(t: TrackChanges.TrackChangesManager?, c: Comments.CommentsManager?)
      modifies this
      ensures trackChangesManager == t && commentsManager == c
      ensures mode == old(mode) && trackChangesEnabled == old(trackChangesEnabled)
      ensures showComments == old(showComments) && showMarkup == old(showMarkup)
      ensures reviewerName == old(reviewerName)
    {
      trackChangesManager := t;
      commentsManager := c;
    }

    /** `_apply_mode_settings`: the markup flag goes to the track-changes
        manager's `show_changes`, the comments flag to the comments
        manager's `show_comments`, for whichever is attached. */
    method ApplyModeSettings()
      modifies TrackChangesFrame()`showChanges, CommentsFrame()`showComments
      ensures trackChangesManager != null ==> trackChangesManager.showChanges == showMarkup
      ensures commentsManager != null ==> commentsManager.showComments == showComments
    {
      if trackChangesManager != null {
        trackChangesManager.showChanges := showMarkup;
      }
      if commentsManager != null {
        commentsManager.showComments := showComments;
      }
    }

    /** `set_mode`: the mode is always stored; Edit and Review show markup
        and comments, Final hides both, any other mode keeps the flags. */
    method SetMode(m: string)
      modifies this`mode, this`showMarkup, this`showComments
      modifies TrackChangesFrame()`showChanges, CommentsFrame()`showComments
      ensures mode == m
      ensures MarkupFor(m).Some? ==> showMarkup == MarkupFor(m).value && showComments == MarkupFor(m).value
      ensures MarkupFor(m).None? ==> showMarkup == old(showMarkup) && showComments == old(showComments)
      ensures trackChangesManager != null ==> trackChangesManager.showChanges == showMarkup
      ensures commentsManager != null ==> commentsManager.showComments == showComments
    {
      mode := m;
      if m == EditMode {
        showMarkup := true;
        showComments := true;
      } else if m == ReviewMode {
        showMarkup := true;
        showComments := true;
      } else if m == FinalMode {
        showMarkup := false;
        showComments := false;
      }
      ApplyModeSettings();
    }

    /** `enable_track_changes`: only with a track-changes manager, which
        starts tracking under the reviewer's name (`prompted` answers the
        author prompt it shows when that name is empty). */
    method EnableTrackChanges(prompted: Option<string>)
      modifies this`trackChangesEnabled, trackChangesManager
      ensures trackChangesManager == null ==> trackChangesEnabled == old(trackChangesEnabled)
      ensures trackChangesManager != null ==> trackChangesEnabled && trackChangesManager.enabled
      ensures trackChangesManager != null ==> trackChangesManager.changes == old(trackChangesManager.changes)
      ensures trackChangesManager != null && reviewerName != "" ==> trackChangesManager.currentAuthor == reviewerName
    {
      if trackChangesManager != null {
        trackChangesManager.EnableTracking(reviewerName, prompted);
        trackChangesEnabled := true;
      }
    }

    /** `disable_track_changes`. */
    method DisableTrackChanges()
      modifies this`trackChangesEnabled, trackChangesManager
      ensures trackChangesManager == null ==> trackChangesEnabled == old(trackChangesEnabled)
      ensures trackChangesManager != null ==> !trackChangesEnabled && !trackChangesManager.enabled
      ensures trackChangesManager != null ==> trackChangesManager.changes == old(trackChangesManager.changes)
    {
      if trackChangesManager != null {
        trackChangesManager.DisableTracking();
        trackChangesEnabled := false;
      }
    }

    /** `toggle_track_changes`: flips the flag when a manager is attached,
        and does nothing otherwise. */
    method ToggleTrackChanges(prompted: Option<string>)
      modifies this`trackChangesEnabled, trackChangesManager
      ensures trackChangesManager == null ==> trackChangesEnabled == old(trackChangesEnabled)
      ensures trackChangesManager != null ==> trackChangesEnabled == !old(trackChangesEnabled)
      ensures trackChangesManager != null ==> trackChangesManager.enabled == trackChangesEnabled
    {
      if trackChangesEnabled {
        DisableTrackChanges();
      } else {
        EnableTrackChanges(prompted);
      }
    }

    /** `accept_all_changes`: False without a manager; with one, the
        manager's own `accept_all_changes` runs (each pending change is
        accepted in list order, the records its edits append included, and
        the decided ones are kept) and its result,
        `None`, is passed on. `here` is the editor's cursor and `reports`
        what it reports at each `textChanged` on the way. */
    method AcceptAllChanges(here: TrackChanges.Cursor, reports: seq<TrackChanges.Report>) returns (r: Option<bool>)
      modifies trackChangesManager
      ensures trackChangesManager == null ==> r == Some(false)
      ensures trackChangesManager != null ==> r == None
      ensures trackChangesManager != null ==>
        var s := TrackChanges.SettleAll(TrackChanges.Accept, TrackChanges.Run(old(trackChangesManager.text), old(trackChangesManager.changes), reports),
                                        0, here, trackChangesManager.enabled, trackChangesManager.currentAuthor);
        trackChangesManager.text == s.text && trackChangesManager.changes == s.changes
      ensures trackChangesManager != null ==>
        |old(trackChangesManager.changes)| <= |trackChangesManager.changes| <= |old(trackChangesManager.changes)| + |reports|
      ensures trackChangesManager != null ==> forall j :: 0 <= j < |old(trackChangesManager.changes)| ==>
        trackChangesManager.changes[j] == TrackChanges.MarkAccepted(old(trackChangesManager.changes)[j])
      ensures trackChangesManager != null ==> TrackChanges.PendingChanges(trackChangesManager.changes) == []
      ensures trackChangesManager != null && !trackChangesManager.enabled ==>
        |trackChangesManager.changes| == |old(trackChangesManager.changes)| &&
        trackChangesManager.text == TrackChanges.AcceptAllText(old(trackChangesManager.text), here, old(trackChangesManager.changes))
      ensures trackChangesManager != null ==>
        trackChangesManager.enabled == old(trackChangesManager.enabled) &&
        trackChangesManager.currentAuthor == old(trackChangesManager.currentAuthor) &&
        trackChangesManager.showChanges == old(trackChangesManager.showChanges)
    {
      if trackChangesManager != null {
        trackChangesManager.AcceptAllChanges(here, reports);
        r := None;
      } else {
        r := Some(false);
      }
    }

    /** `reject_all_changes`: each pending change is rejected in list
        order and the decided ones are kept. */
    method RejectAllChanges(here: TrackChanges.Cursor, reports: seq<TrackChanges.Report>) returns (r: Option<bool>)
      modifies trackChangesManager
      ensures trackChangesManager == null ==> r == Some(false)
      ensures trackChangesManager != null ==> r == None
      ensures trackChangesManager != null ==>
        var s := TrackChanges.SettleAll(TrackChanges.Reject, TrackChanges.Run(old(trackChangesManager.text), old(trackChangesManager.changes), reports),
                                        0, here, trackChangesManager.enabled, trackChangesManager.currentAuthor);
        trackChangesManager.text == s.text && trackChangesManager.changes == s.changes
      ensures trackChangesManager != null ==>
        |old(trackChangesManager.changes)| <= |trackChangesManager.changes| <= |old(trackChangesManager.changes)| + |reports|
      ensures trackChangesManager != null ==> forall j :: 0 <= j < |old(trackChangesManager.changes)| ==>
        trackChangesManager.changes[j] == TrackChanges.MarkRejected(old(trackChangesManager.changes)[j])
      ensures trackChangesManager != null ==> TrackChanges.PendingChanges(trackChangesManager.changes) == []
      ensures trackChangesManager != null && !trackChangesManager.enabled ==>
        |trackChangesManager.changes| == |old(trackChangesManager.changes)| &&
        trackChangesManager.text == TrackChanges.RejectAllText(old(trackChangesManager.text), here, old(trackChangesManager.changes))
      ensures trackChangesManager != null ==>
        trackChangesManager.enabled == old(trackChangesManager.enabled) &&
        trackChangesManager.currentAuthor == old(trackChangesManager.currentAuthor) &&
        trackChangesManager.showChanges == old(trackChangesManager.showChanges)
    {
      if trackChangesManager != null {
        trackChangesManager.RejectAllChanges(here, reports);
        r := None;
      } else {
        r := Some(false);
      }
    }

    /** `get_review_summary`: zero counts for a missing manager, otherwise
        the lengths of the pending, active and resolved lists. */
    function GetReviewSummary(): (s: Summary)
      reads this, trackChangesManager, commentsManager
      ensures s.mode == mode && s.trackChangesEnabled == trackChangesEnabled && s.reviewer == reviewerName
      ensures trackChangesManager == null ==> s.pendingChanges == 0
      ensures trackChangesManager != null ==> s.pendingChanges == |TrackChanges.PendingChanges(trackChangesManager.changes)|
      ensures trackChangesManager != null ==> s.pendingChanges <= |trackChangesManager.changes|
      ensures commentsManager == null ==> s.activeComments == 0 && s.resolvedComments == 0
      ensures commentsManager != null ==>
        s.activeComments == |Comments.ActiveComments(commentsManager.comments)| &&
        s.resolvedComments == |Comments.ResolvedComments(commentsManager.comments)|
      ensures commentsManager != null ==>
        s.activeComments + s.resolvedComments == |Comments.RootComments(commentsManager.comments)|
    {
      var pending := if trackChangesManager != null then |TrackChanges.PendingChanges(trackChangesManager.changes)| else 0;
      var active := if commentsManager != null then |Comments.ActiveComments(commentsManager.comments)| else 0;
      var resolved := if commentsManager != null then |Comments.ResolvedComments(commentsManager.comments)| else 0;
      if commentsManager != null then
        Comments.ActiveResolvedPartition(commentsManager.comments);
        Summary(mode, trackChangesEnabled, reviewerName, pending, active, resolved)
      else
        Summary(mode, trackChangesEnabled, reviewerName, pending, active, resolved)
    }
  }
}
