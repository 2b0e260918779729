/**
 * The course-player page once the entry guard has let it through: the
 * access decision is made first, and everything gated on it (video area,
 * continue or purchase actions, tabs, lessons listing) follows from it,
 * while the discussions template follows the LMS's own access flag.
 */
module CoursePlayer {
  import opened Php
  import opened Curriculum
  import opened Navigation
  import opened Access
  import opened Thumbnail
  import opened Listing
  import opened Purchase
  import opened Branding

  /** The parts of the LMS's `$data` the page decides on. */
  datatype PlayerData = PlayerData(
    postId: int,                    // $data['post_id'], the course
    item: ItemGate,                 // preview, locks, lock message and $data['item_id']
    curriculum: seq<Section>,       // $data['curriculum']
    hostHasAccess: bool,            // $data['has_access'], computed by the LMS
    courseTitle: string             // $data['course_title']
  )

  /** The LMS and WordPress calls the page makes, and the course's meta values. */
  datatype Lms = Lms(
    primaryAccess: (int, int, nat) -> bool,   // STM_LMS_User::has_course_access( course, item, user )
    alternateExists: bool,                    // function_exists( 'stm_lms_has_course_access' )
    alternateAccess: (int, nat) -> bool,      // stm_lms_has_course_access( course, user )
    showItemContent: (int, int) -> bool,      // the stm_lms_show_item_content filter
    lessonUrl: (int, int) -> string,          // STM_LMS_Lesson::get_lesson_url( course, lesson )
    media: Media,
    postTypeOf: int -> string,                // get_post_type
    price: string,                            // the course's `price` meta
    salePrice: string,                        // the course's `sale_price` meta
    saleActive: bool,                         // STM_LMS_Helpers::is_sale_price_active
    guestCheckout: bool,                      // the `guest_checkout` option
    isNumericZero: string -> bool,
    courseMaterials: MetaValue,               // the course's `course_materials` meta
    courseFiles: MetaValue                    // the course's `course_files` meta
  )

  /** The course-actions block: continue for enrolled users, purchase otherwise. */
  datatype Actions = EnrolledActions(continueButton: ContinueButton) | PurchaseActions(offer: Offer)

  datatype PlayerView = PlayerView(
    video: VideoBlock,
    logo: string,
    actions: Actions,
    gates: PageGates,
    lessons: Option<LessonsTab>     // None when the lessons tab is not rendered
  )

  /** The locally computed `$has_access` for a user: their enrollment, and nothing else. */
  predicate HasAccess(data: PlayerData, userId: nat, lms: Lms)
  {
    LocalAccess(Enrolled(userId, lms.primaryAccess(data.postId, data.item.itemId, userId),
                         lms.alternateExists && lms.alternateAccess(data.postId, userId)))
  }

  /** The page, as a function of the request. */
  function ViewOf(data: PlayerData, userId: nat, lms: Lms): PlayerView
  {
    var access := HasAccess(data, userId, lms);
    PlayerView(
      ClassifyVideo(access, data.item, lms.showItemContent(data.postId, data.item.itemId)),
      CourseInitials(data.courseTitle),
      if access then EnrolledActions(ContinueAction(NextMaterial(data.curriculum, data.item.itemId), data.postId, lms.lessonUrl))
      else PurchaseActions(PurchaseOffer(data.postId, lms.price, lms.salePrice, lms.saleActive,
                                         userId != 0, lms.guestCheckout, lms.isNumericZero)),
      Gates(access, data.hostHasAccess, lms.courseMaterials, lms.courseFiles),
      if access then Some(LessonsTabOf(data.curriculum, data.postId, lms.media, lms.postTypeOf)) else None)
  }

  /**
   * The template from the access check to the discussions: the enrollment
   * check runs once, and the next-lesson scan runs only for users with access.
   */
  method ResolvePlayer(data: PlayerData, userId: nat, lms: Lms) returns (view: PlayerView)
    ensures view == ViewOf(data, userId, lms)
    ensures view.video == AccessRestricted <==> !HasAccess(data, userId, lms) && !data.item.hasPreview
    ensures view.actions.EnrolledActions? <==> HasAccess(data, userId, lms)
    ensures view.gates.discussionsTemplate == data.hostHasAccess
  {
    var isEnrolled, _ := ResolveEnrollment(userId, data.postId, data.item.itemId,
                                           lms.primaryAccess, lms.alternateExists, lms.alternateAccess);
    var hasAccess := LocalAccess(isEnrolled);
    var video := ClassifyVideo(hasAccess, data.item, lms.showItemContent(data.postId, data.item.itemId));
    var actions;
    if hasAccess {
      var next := ScanNextLesson(data.curriculum, data.item.itemId);
      actions := EnrolledActions(ContinueAction(next, data.postId, lms.lessonUrl));
    } else {
      actions := PurchaseActions(PurchaseOffer(data.postId, lms.price, lms.salePrice, lms.saleActive,
                                               userId != 0, lms.guestCheckout, lms.isNumericZero));
    }
    var lessons := if hasAccess then Some(LessonsTabOf(data.curriculum, data.postId, lms.media, lms.postTypeOf)) else None;
    view := PlayerView(video, CourseInitials(data.courseTitle), actions,
                       Gates(hasAccess, data.hostHasAccess, lms.courseMaterials, lms.courseFiles), lessons);
  }

  // ---------------------------------------------------------------------
  // Properties of the page
  // ---------------------------------------------------------------------

  /**
   * Access on the page is exactly enrollment: a signed-in user whom the
   * primary check, or the alternate one when it exists, admits.  A guest
   * has no access whatever the checks would answer, and no trial or
   * preview access is ever added.
   */
  lemma AccessIsEnrollment(data: PlayerData, userId: nat, lms: Lms)
    ensures HasAccess(data, userId, lms) <==>
              userId != 0 && (lms.primaryAccess(data.postId, data.item.itemId, userId)
                              || (lms.alternateExists && lms.alternateAccess(data.postId, userId)))
    ensures !HasAccess(data, 0, lms)
    ensures HasAccess(data, userId, lms.(alternateExists := false)) ==> HasAccess(data, userId, lms)
  {
  }

  /**
   * A guest never gets the enrolled view: no lessons tab, and a purchase
   * button that checks out as a guest or opens the login modal.
   */
  lemma GuestGetsPurchaseView(data: PlayerData, lms: Lms)
    ensures var v := ViewOf(data, 0, lms);
            && v.lessons.None?
            && v.actions.PurchaseActions?
            && (v.actions.offer.action == GuestCheckout(data.postId) || v.actions.offer.action == LoginModal)
  {
  }

  /** A signed-in user without access is offered a purchase of this course. */
  lemma SignedInNonEnrolledPurchases(data: PlayerData, userId: nat, lms: Lms)
    requires userId != 0 && !HasAccess(data, userId, lms)
    ensures ViewOf(data, userId, lms).actions == PurchaseActions(PurchaseOffer(data.postId, lms.price, lms.salePrice,
              lms.saleActive, true, lms.guestCheckout, lms.isNumericZero))
    ensures ViewOf(data, userId, lms).actions.offer.action == PurchasedCourse(data.postId)
  {
  }

  /** An enrolled user on the last material is shown "Course Complete". */
  lemma LastMaterialCompletesCourse(data: PlayerData, userId: nat, lms: Lms)
    requires HasAccess(data, userId, lms)
    requires Flatten(data.curriculum) != []
    requires Flatten(data.curriculum)[|Flatten(data.curriculum)| - 1].postId == data.item.itemId
    requires forall j :: 0 <= j < |Flatten(data.curriculum)| - 1 ==> Flatten(data.curriculum)[j].postId != data.item.itemId
    ensures ViewOf(data, userId, lms).actions == EnrolledActions(CourseComplete)
  {
    NextOfLastItem(data.curriculum, Flatten(data.curriculum)[|Flatten(data.curriculum)| - 1]);
  }
}
