/**
 * Navigation in the course player: the "Continue - Next Lesson" scan over
 * the curriculum and the entry redirect taken when the LMS router did not
 * supply `$lesson_id` / `$lms_page_path`.  `get_lesson_url` is the
 * `lessonUrl` parameter.
 */
module Navigation {
  import opened Php
  import opened Curriculum

  /** Index of the first material whose post id equals `id` (PHP `==` on ids). */
  function FirstIndexOf(flat: seq<Material>, id: int): (r: Option<nat>)
    ensures r.Some? ==> r.value < |flat| && flat[r.value].postId == id
    ensures r.Some? ==> forall j :: 0 <= j < r.value ==> flat[j].postId != id
    ensures r.None? ==> forall j :: 0 <= j < |flat| ==> flat[j].postId != id
  {
    if flat == [] then None
    else if flat[0].postId == id then Some(0)
    else match FirstIndexOf(flat[1..], id)
      case None => None
      case Some(k) => Some(k + 1)
  }

  /** The material right after the first occurrence of `id` in a flat list, if any. */
  function NextInOrder(flat: seq<Material>, id: int): (r: Option<Material>)
    ensures r.Some? ==> r.value in flat
  {
    match FirstIndexOf(flat, id)
    case None => None
    case Some(i) => if i + 1 < |flat| then Some(flat[i + 1]) else None
  }

  /** The "continue" target: the material after the current item in curriculum order. */
  function NextMaterial(c: seq<Section>, itemId: int): Option<Material>
  {
    NextInOrder(Flatten(c), itemId)
  }

  /**
   * The state of the scan after it has visited `visited`: `found` is set
   * exactly when the current item occurs in it, and then its first
   * occurrence is the last material visited (the scan stops one step later).
   */
  ghost predicate Scanned(found: bool, visited: seq<Material>, id: int)
  {
    && (!found ==> forall j :: 0 <= j < |visited| ==> visited[j].postId != id)
    && (found ==> |visited| > 0 && visited[|visited| - 1].postId == id
                  && forall j :: 0 <= j < |visited| - 1 ==> visited[j].postId != id)
  }

  /** What a completed scan of the whole list tells about `NextInOrder`. */
  lemma ScanExhausted(flat: seq<Material>, found: bool, id: int)
    requires Scanned(found, flat, id)
    ensures NextInOrder(flat, id) == None
  {
    if found {
      var r := FirstIndexOf(flat, id);
      assert r.Some?;
      assert r.value == |flat| - 1;
    }
  }

  /** What a scan that has just found the item, with material `k` next, tells. */
  lemma ScanStopsAt(flat: seq<Material>, k: nat, id: int)
    requires k < |flat| && Scanned(true, flat[..k], id)
    ensures NextInOrder(flat, id) == Some(flat[k])
  {
    assert flat[..k][k - 1] == flat[k - 1];
    forall j | 0 <= j < k - 1
      ensures flat[j].postId != id
    {
      assert flat[..k][j] == flat[j];
    }
    assert FirstIndexOf(flat, id) == Some(k - 1);
  }

  /** The material after the current one, when nothing before the current one shares its id. */
  lemma NextAfterPrefix(prefix: seq<Material>, current: Material, m: Material, tail: seq<Material>)
    requires forall x :: x in prefix ==> x.postId != current.postId
    ensures NextInOrder(prefix + [current] + [m] + tail, current.postId) == Some(m)
  {
    var flat := prefix + [current] + [m] + tail;
    var k := |prefix| + 1;
    assert flat[..k] == prefix + [current];
    forall j | 0 <= j < |prefix|
      ensures flat[..k][j].postId != current.postId
    {
      assert flat[..k][j] == prefix[j];
      assert prefix[j] in prefix;
    }
    ScanStopsAt(flat, k, current.postId);
  }

  /** One step of the inner loop before the item has been found. */
  lemma ScanStep(visited: seq<Material>, m: Material, id: int)
    requires Scanned(false, visited, id)
    ensures Scanned(m.postId == id, visited + [m], id)
  {
  }

  /** The scan that has found the item with material `mi` of section `si` next. */
  lemma ScanStopsInSection(c: seq<Section>, si: nat, mi: nat, id: int)
    requires si < |c| && mi < |Materials(c[si])|
    requires Scanned(true, Flatten(c[..si]) + Materials(c[si])[..mi], id)
    ensures NextMaterial(c, id) == Some(Materials(c[si])[mi])
  {
    var mats := Materials(c[si]);
    var flat := Flatten(c);
    var k := |Flatten(c[..si])| + mi;
    FlattenAround(c, si);
    assert flat == Flatten(c[..si]) + mats[..mi] + mats[mi..] + Flatten(c[si + 1..]);
    assert flat[..k] == Flatten(c[..si]) + mats[..mi];
    assert flat[k] == mats[mi];
    ScanStopsAt(flat, k, id);
  }

  /** A section scanned to its end extends the scanned prefix by its materials. */
  lemma ScanSectionDone(c: seq<Section>, si: nat, found: bool, id: int)
    requires si < |c|
    requires Scanned(found, Flatten(c[..si]) + Materials(c[si])[..|Materials(c[si])|], id)
    ensures Scanned(found, Flatten(c[..si + 1]), id)
  {
    FlattenAround(c, si);
    assert Materials(c[si])[..|Materials(c[si])|] == Materials(c[si]);
  }

  /**
   * The inner `foreach` over the materials of section `si`, entered with
   * the flag `found` left by the earlier sections.  It either stops at the
   * material after the item (the `break 2`) or leaves the flag for the next
   * section.
   */
  method ScanSection(curriculum: seq<Section>, si: nat, itemId: int, found0: bool)
    returns (found: bool, next: Option<Material>)
    requires si < |curriculum|
    requires Scanned(found0, Flatten(curriculum[..si]), itemId)
    ensures next.Some? ==> next == NextMaterial(curriculum, itemId)
    ensures next.None? ==> Scanned(found, Flatten(curriculum[..si + 1]), itemId)
  {
    var mats := Materials(curriculum[si]);
    found := found0;
    next := None;
    var mi := 0;
    while mi < |mats|
      invariant 0 <= mi <= |mats|
      invariant Scanned(found, Flatten(curriculum[..si]) + mats[..mi], itemId)
    {
      var material := mats[mi];
      if found {
        ScanStopsInSection(curriculum, si, mi, itemId);
        next := Some(material);
        return;
      }
      ScanStep(Flatten(curriculum[..si]) + mats[..mi], material, itemId);
      assert Flatten(curriculum[..si]) + mats[..mi + 1] == Flatten(curriculum[..si]) + mats[..mi] + [material];
      if material.postId == itemId {
        found := true;
      }
      mi := mi + 1;
    }
    ScanSectionDone(curriculum, si, found, itemId);
  }

  /**
   * The nested `foreach` over sections and materials with the
   * `$current_lesson_found` flag and `break 2`; sections without a
   * `materials` key are passed over.
   */
  method ScanNextLesson(curriculum: seq<Section>, itemId: int) returns (next: Option<Material>)
    ensures next == NextMaterial(curriculum, itemId)
  {
    next := None;
    var found := false;
    if curriculum != [] {
      var si := 0;
      while si < |curriculum|
        invariant 0 <= si <= |curriculum|
        invariant next == None
        invariant Scanned(found, Flatten(curriculum[..si]), itemId)
      {
        if curriculum[si].materials.Some? {
          found, next := ScanSection(curriculum, si, itemId, found);
          if next.Some? {
            return;
          }
        } else {
          FlattenAround(curriculum, si);
        }
        si := si + 1;
      }
      assert curriculum[..si] == curriculum;
      ScanExhausted(Flatten(curriculum), found, itemId);
    }
  }

  /** The continue button: a link to the next lesson, or the disabled "Course Complete". */
  datatype ContinueButton = ContinueTo(url: string) | CourseComplete

  /** `if ( $next_lesson_url )`: an empty URL from the LMS also shows "Course Complete". */
  function ContinueAction(next: Option<Material>, coursePostId: int, lessonUrl: (int, int) -> string): (b: ContinueButton)
    ensures b.ContinueTo? <==> next.Some? && Truthy(lessonUrl(coursePostId, next.value.postId))
    ensures b.ContinueTo? ==> b.url == lessonUrl(coursePostId, next.value.postId)
  {
    if next.Some? && Truthy(lessonUrl(coursePostId, next.value.postId))
    then ContinueTo(lessonUrl(coursePostId, next.value.postId))
    else CourseComplete
  }

  // ---------------------------------------------------------------------
  // Properties of the next-lesson scan
  // ---------------------------------------------------------------------

  /** An item that is not in the curriculum has no next lesson. */
  lemma NextOfAbsentItem(c: seq<Section>, itemId: int)
    requires forall m :: m in Flatten(c) ==> m.postId != itemId
    ensures NextMaterial(c, itemId) == None
  {
    var flat := Flatten(c);
    assert forall j :: 0 <= j < |flat| ==> flat[j] in flat;
    assert FirstIndexOf(flat, itemId) == None;
  }

  /** The last material of the curriculum has no next lesson. */
  lemma NextOfLastItem(c: seq<Section>, m: Material)
    requires Flatten(c) != [] && Flatten(c)[|Flatten(c)| - 1] == m
    requires forall j :: 0 <= j < |Flatten(c)| - 1 ==> Flatten(c)[j].postId != m.postId
    ensures NextMaterial(c, m.postId) == None
  {
    var r := FirstIndexOf(Flatten(c), m.postId);
    assert r.Some? && r.value == |Flatten(c)| - 1;
  }

  /**
   * The scan crosses section boundaries and skips sections with no
   * materials: after the last material of one section comes the first
   * material of the next section that has any.
   */
  lemma {:induction false} NextCrossesSections(
    before: seq<Section>, t1: string, items: seq<Material>, current: Material,
    gap: seq<Section>, t2: string, m: Material, rest: seq<Material>, after: seq<Section>)
    requires forall x :: x in Flatten(before) + items ==> x.postId != current.postId
    requires forall s :: s in gap ==> Materials(s) == []
    ensures NextMaterial(before + [Section(t1, Some(items + [current]))] + gap
                         + [Section(t2, Some([m] + rest))] + after, current.postId) == Some(m)
  {
    var s1 := Section(t1, Some(items + [current]));
    var s2 := Section(t2, Some([m] + rest));
    var a := before + [s1];
    var b := a + gap;
    var d := b + [s2];
    FlattenAppend(before, [s1]);
    FlattenSingle(s1);
    EmptySectionsFlattenToNothing(gap);
    FlattenAppend(a, gap);
    FlattenAppend(b, [s2]);
    FlattenSingle(s2);
    FlattenAppend(d, after);
    assert Flatten(d + after) == (Flatten(before) + items) + [current] + [m] + (rest + Flatten(after));
    NextAfterPrefix(Flatten(before) + items, current, m, rest + Flatten(after));
  }

  /** Sections whose materials are all missing contribute nothing to the order. */
  lemma {:induction false} EmptySectionsFlattenToNothing(gap: seq<Section>)
    requires forall s :: s in gap ==> Materials(s) == []
    ensures Flatten(gap) == []
  {
    if gap != [] {
      assert gap[0] in gap;
      assert forall s :: s in gap[1..] ==> s in gap;
      EmptySectionsFlattenToNothing(gap[1..]);
    }
  }

  /** Removing a section without a `materials` key does not change the continue target. */
  lemma {:induction false} SectionWithoutMaterialsIgnored(a: seq<Section>, title: string, b: seq<Section>, itemId: int)
    ensures NextMaterial(a + [Section(title, None)] + b, itemId) == NextMaterial(a + b, itemId)
  {
    var e := [Section(title, None)];
    FlattenSingle(Section(title, None));
    FlattenAppend(a, e);
    FlattenAppend(a + e, b);
    FlattenAppend(a, b);
    assert Flatten(a + e) == Flatten(a);
    assert Flatten(a + e + b) == Flatten(a + b);
  }

  /** The follower is returned even when it carries the same id as the current item. */
  lemma DuplicateFollowerReturned(t: string, x: Material, y: Material)
    requires y.postId == x.postId
    ensures NextMaterial([Section(t, Some([x, y]))], x.postId) == Some(y)
  {
    FlattenSingle(Section(t, Some([x, y])));
    NextAfterPrefix([], x, y, []);
    assert [] + [x] + [y] + [] == [x, y];
  }

  /** One section [A, B, C]: B continues to C, and C is the end of the course. */
  lemma SingleSectionScenario(t: string, a: Material, b: Material, c: Material)
    requires a.postId != b.postId && a.postId != c.postId && b.postId != c.postId
    ensures NextMaterial([Section(t, Some([a, b, c]))], b.postId) == Some(c)
    ensures NextMaterial([Section(t, Some([a, b, c]))], c.postId) == None
  {
    FlattenSingle(Section(t, Some([a, b, c])));
    var flat := [a, b, c];
    assert FirstIndexOf(flat, b.postId) == Some(1) by {
      assert flat[1..] == [b, c];
    }
    assert FirstIndexOf(flat, c.postId) == Some(2) by {
      assert [b, c][1..] == [c];
      assert FirstIndexOf([c], c.postId) == Some(0);
      assert FirstIndexOf([b, c], c.postId) == Some(1);
      assert flat[1..] == [b, c];
    }
  }

  // ---------------------------------------------------------------------
  // Entry redirect
  // ---------------------------------------------------------------------

  /** What the template does before rendering anything. */
  datatype EntryRoute =
    | RenderPlayer                   // $lesson_id and $lms_page_path are both set
    | StartFirstLesson(url: string)  // "Starting Course..." page that forwards to the first lesson
    | RedirectHome                   // wp_redirect( home_url() )

  /** The first material of the first section, when that section has materials. */
  function FirstLessonOf(c: seq<Section>): (r: Option<Material>)
    ensures r.Some? ==> c != [] && Materials(c[0]) != [] && r.value == Flatten(c)[0]
    ensures r.None? ==> c == [] || Materials(c[0]) == []
  {
    if c != [] && Materials(c[0]) != [] then Some(Materials(c[0])[0]) else None
  }

  /**
   * The entry guard of the template.  `curriculum` is what the LMS returns
   * for the queried course; it is only consulted on a singular course page.
   */
  function Entry(lessonIdSet: bool, pagePathSet: bool, singularCourse: bool, courseId: int,
                 curriculum: seq<Section>, lessonUrl: (int, int) -> string): (route: EntryRoute)
    ensures route == RenderPlayer <==> lessonIdSet && pagePathSet
    ensures route == RedirectHome <==>
              !(lessonIdSet && pagePathSet) && !(singularCourse && FirstLessonOf(curriculum).Some?)
    ensures route.StartFirstLesson? <==>
              !(lessonIdSet && pagePathSet) && singularCourse && FirstLessonOf(curriculum).Some?
    ensures route.StartFirstLesson? ==>
              route.url == lessonUrl(courseId, FirstLessonOf(curriculum).value.postId)
  {
    if lessonIdSet && pagePathSet then RenderPlayer
    else if singularCourse && FirstLessonOf(curriculum).Some? then
      StartFirstLesson(lessonUrl(courseId, FirstLessonOf(curriculum).value.postId))
    else RedirectHome
  }

  /** A first section without materials sends the visitor home even if later sections have lessons. */
  lemma EmptyFirstSectionGoesHome(first: Section, later: seq<Section>, courseId: int, lessonUrl: (int, int) -> string)
    requires Materials(first) == [] && Flatten(later) != []
    ensures Flatten([first] + later) != []
    ensures Entry(false, false, true, courseId, [first] + later, lessonUrl) == RedirectHome
  {
    assert ([first] + later)[1..] == later;
  }
}
