/**
 * Access gating in the course player: who counts as enrolled, which of
 * the four blocks the video area shows, and which parts of the page are
 * gated on the locally computed access and which on the LMS's own
 * `$data['has_access']`.
 */
module Access {
  import opened Php

  /**
   * The enrollment check as the template runs it: a guest (user id 0) is
   * never enrolled; otherwise the LMS's primary check decides, and only
   * when it says no and `stm_lms_has_course_access` exists is that
   * alternate check asked.  `primary` and `alternate` are the two LMS
   * calls; `alternateConsulted` reports whether the alternate was called.
   */
  method ResolveEnrollment(userId: nat, coursePostId: int, itemId: int,
                           primary: (int, int, nat) -> bool,
                           alternateExists: bool, alternate: (int, nat) -> bool)
    returns (isEnrolled: bool, alternateConsulted: bool)
    ensures userId == 0 ==> !isEnrolled && !alternateConsulted
    ensures alternateConsulted <==> userId != 0 && !primary(coursePostId, itemId, userId) && alternateExists
    ensures isEnrolled <==> Enrolled(userId, primary(coursePostId, itemId, userId),
                                     alternateExists && alternate(coursePostId, userId))
  {
    isEnrolled := false;
    alternateConsulted := false;
    if userId != 0 {
      isEnrolled := primary(coursePostId, itemId, userId);
      if !isEnrolled && alternateExists {
        alternateConsulted := true;
        isEnrolled := alternate(coursePostId, userId);
      }
    }
  }

  /**
   * Enrollment as a relation on the answers of the two checks: a signed-in
   * user whom either check admits.  The alternate answer is taken as false
   * when the alternate function does not exist.
   */
  predicate Enrolled(userId: nat, primaryAnswer: bool, alternateAnswer: bool)
  {
    userId != 0 && (primaryAnswer || alternateAnswer)
  }

  /** `$has_access = $is_enrolled`: no guest or trial access is ever added. */
  function LocalAccess(isEnrolled: bool): bool
  {
    isEnrolled
  }

  /** The per-item fields of `$data` the video area looks at. */
  datatype ItemGate = ItemGate(
    hasPreview: bool,              // $data['has_preview']
    lockBeforeStart: bool,         // $data['lesson_lock_before_start']
    lockedByDrip: bool,            // $data['lesson_locked_by_drip']
    lockMessage: Option<string>,   // $data['lesson_lock_message'], None when null or unset
    itemId: int                    // $data['item_id']
  )

  const DefaultLockMessage: string := "This lesson is not available yet."

  /** The four blocks the video area can show. */
  datatype VideoBlock =
    | AccessRestricted             // "Access Restricted" and the enroll prompt
    | LessonLocked(message: string)
    | LessonContent                // the LMS's content template for the item
    | Inspirational                // the fallback headline

  /** The lock message after `?? 'This lesson is not available yet.'`: only null falls back. */
  function LockMessage(item: ItemGate): (m: string)
    ensures item.lockMessage.Some? ==> m == item.lockMessage.value
    ensures item.lockMessage.None? ==> m == DefaultLockMessage
  {
    if item.lockMessage.Some? then item.lockMessage.value else DefaultLockMessage
  }

  /**
   * The video-area decision.  `showContent` is the result of the
   * `stm_lms_show_item_content` filter.
   */
  function ClassifyVideo(hasAccess: bool, item: ItemGate, showContent: bool): (v: VideoBlock)
    ensures v == AccessRestricted <==> !hasAccess && !item.hasPreview
    ensures v.LessonLocked? <==> (hasAccess || item.hasPreview) && (item.lockBeforeStart || item.lockedByDrip)
    ensures v.LessonLocked? ==> v.message == LockMessage(item)
    ensures v == LessonContent <==>
              && (hasAccess || item.hasPreview)
              && !item.lockBeforeStart && !item.lockedByDrip
              && showContent && item.itemId != 0
    ensures v == Inspirational <==>
              && (hasAccess || item.hasPreview)
              && !item.lockBeforeStart && !item.lockedByDrip
              && !(showContent && item.itemId != 0)
  {
    if hasAccess || item.hasPreview then
      if !item.lockBeforeStart && !item.lockedByDrip then
        if showContent && item.itemId != 0 then LessonContent else Inspirational
      else LessonLocked(LockMessage(item))
    else AccessRestricted
  }

  /** What the rest of the page shows, and on which access flag each part depends. */
  datatype PageGates = PageGates(
    enrolledActions: bool,         // continue button and progress instead of the purchase button
    lessonsTab: bool,
    resourcesTab: bool,
    discussionsTab: bool,
    discussionsTemplate: bool      // the LMS's course-player/discussions template
  )

  /**
   * The tabs and actions follow the locally computed access; the
   * discussions template follows the LMS's own `$data['has_access']`.
   * Resources exist when `course_materials` or `course_files` is non-empty.
   */
  function Gates(localAccess: bool, hostAccess: bool, courseMaterials: MetaValue, courseFiles: MetaValue): (g: PageGates)
    ensures g.enrolledActions == localAccess && g.lessonsTab == localAccess && g.discussionsTab == localAccess
    ensures g.resourcesTab <==> localAccess && (!IsEmpty(courseMaterials) || !IsEmpty(courseFiles))
    ensures g.discussionsTemplate == hostAccess
  {
    var hasResources := !IsEmpty(courseMaterials) || !IsEmpty(courseFiles);
    PageGates(localAccess, localAccess, localAccess && hasResources, localAccess, hostAccess)
  }

  // ---------------------------------------------------------------------
  // Properties of the access decision
  // ---------------------------------------------------------------------

  /** A guest on a preview item sees content (or the fallback), never "Access Restricted". */
  lemma GuestPreviewNotRestricted(item: ItemGate, showContent: bool, primaryAnswer: bool, alternateAnswer: bool)
    requires item.hasPreview && !item.lockBeforeStart && !item.lockedByDrip
    requires showContent && item.itemId != 0
    ensures !LocalAccess(Enrolled(0, primaryAnswer, alternateAnswer))
    ensures ClassifyVideo(LocalAccess(Enrolled(0, primaryAnswer, alternateAnswer)), item, showContent) == LessonContent
  {
  }

  /** A lock wins over access: an enrolled user on a drip-locked item sees the lock. */
  lemma LockBeatsEnrollment(item: ItemGate, showContent: bool)
    requires item.lockedByDrip && item.lockMessage.None?
    ensures ClassifyVideo(true, item, showContent) == LessonLocked("This lesson is not available yet.")
  {
  }

  /**
   * The two access flags are independent inputs: a visitor without local
   * access can still be shown the discussions template when the LMS grants
   * access, while every enrolled-only tab stays hidden.
   */
  lemma DiscussionsFollowHostAccess(courseMaterials: MetaValue, courseFiles: MetaValue)
    ensures var g := Gates(LocalAccess(Enrolled(0, true, true)), true, courseMaterials, courseFiles);
            g.discussionsTemplate && !g.lessonsTab && !g.resourcesTab && !g.discussionsTab
  {
  }
}
