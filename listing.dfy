/**
 * The lessons tab: one row per material, numbered from 1 within its own
 * section, labelled by the material's post type, with the thumbnail chain
 * or a numbered placeholder.  `postTypeOf` is `get_post_type`.
 */
module Listing {
  import opened Php
  import opened Curriculum
  import opened Navigation
  import opened Thumbnail

  /** The `switch` on the material's post type. */
  function TypeLabel(postType: string): (typeLabel: string)
    ensures typeLabel == "LESSON" <==> postType == "stm-lessons"
    ensures typeLabel == "QUIZ" <==> postType == "stm-quizzes"
    ensures typeLabel == "ASSIGNMENT" <==> postType == "stm-assignments"
    ensures typeLabel == "LESSON" || typeLabel == "QUIZ" || typeLabel == "ASSIGNMENT" || typeLabel == "INTRO"
  {
    match postType
    case "stm-lessons" => "LESSON"
    case "stm-quizzes" => "QUIZ"
    case "stm-assignments" => "ASSIGNMENT"
    case _ => "INTRO"
  }

  /** The thumbnail area of a row: an image, or a placeholder showing the lesson number. */
  datatype LessonThumb = Image(url: string) | Placeholder(number: nat)

  datatype LessonRow = LessonRow(postId: int, title: string, number: nat, typeLabel: string, thumb: LessonThumb)

  /** The row of the material at `lessonIndex` in its section. */
  function RowFor(m: Material, lessonIndex: nat, coursePostId: int, media: Media, postTypeOf: int -> string): LessonRow
  {
    var number := lessonIndex + 1;
    var thumb := LessonThumbnail(m.postId, coursePostId, media);
    LessonRow(m.postId, m.title, number, TypeLabel(postTypeOf(m.postId)),
              if thumb.Some? then Image(thumb.value) else Placeholder(number))
  }

  /** The rows of one section; a section without `materials` has none. */
  function SectionRows(s: Section, coursePostId: int, media: Media, postTypeOf: int -> string): (rows: seq<LessonRow>)
    ensures |rows| == |Materials(s)|
    ensures forall j :: 0 <= j < |rows| ==>
              && rows[j].postId == Materials(s)[j].postId
              && rows[j].number == j + 1
              && rows[j].typeLabel == TypeLabel(postTypeOf(Materials(s)[j].postId))
    ensures forall j :: 0 <= j < |rows| ==>
              rows[j].thumb == if LessonThumbnail(Materials(s)[j].postId, coursePostId, media).Some?
                               then Image(LessonThumbnail(Materials(s)[j].postId, coursePostId, media).value)
                               else Placeholder(j + 1)
  {
    var mats := Materials(s);
    seq(|mats|, j requires 0 <= j < |mats| => RowFor(mats[j], j, coursePostId, media, postTypeOf))
  }

  /** The lessons tab: a message when the curriculum is empty, otherwise the rows of each section. */
  datatype LessonsTab = NoLessonsYet | SectionsOf(rows: seq<seq<LessonRow>>)

  function LessonsTabOf(c: seq<Section>, coursePostId: int, media: Media, postTypeOf: int -> string): (tab: LessonsTab)
    ensures tab.NoLessonsYet? <==> c == []
    ensures tab.SectionsOf? ==> |tab.rows| == |c|
    ensures tab.SectionsOf? ==> forall i :: 0 <= i < |c| ==> tab.rows[i] == SectionRows(c[i], coursePostId, media, postTypeOf)
  {
    if c == [] then NoLessonsYet
    else SectionsOf(seq(|c|, i requires 0 <= i < |c| => SectionRows(c[i], coursePostId, media, postTypeOf)))
  }

  // ---------------------------------------------------------------------
  // Properties of the numbering
  // ---------------------------------------------------------------------

  /** Numbering restarts at 1 in every section that has materials. */
  lemma NumberingRestartsPerSection(c: seq<Section>, i: nat, coursePostId: int, media: Media, postTypeOf: int -> string)
    requires i < |c| && Materials(c[i]) != []
    ensures LessonsTabOf(c, coursePostId, media, postTypeOf).rows[i][0].number == 1
  {
  }

  /** The first material of a non-empty curriculum sits in the first section that has materials. */
  lemma {:induction false} FirstOfFlatten(d: seq<Section>)
    requires Flatten(d) != []
    ensures exists t :: 0 <= t < |d| && Materials(d[t]) != [] && Flatten(d)[0] == Materials(d[t])[0]
                        && forall u :: 0 <= u < t ==> Materials(d[u]) == []
  {
    if Materials(d[0]) != [] {
      assert Flatten(d)[0] == Materials(d[0])[0];
    } else {
      assert Flatten(d) == Flatten(d[1..]);
      FirstOfFlatten(d[1..]);
      var t :| 0 <= t < |d[1..]| && Materials(d[1..][t]) != [] && Flatten(d[1..])[0] == Materials(d[1..][t])[0]
               && forall u :: 0 <= u < t ==> Materials(d[1..][u]) == [];
      assert d[1..][t] == d[t + 1];
      forall u | 0 <= u < t + 1
        ensures Materials(d[u]) == []
      {
        if u > 0 {
          assert d[1..][u - 1] == d[u];
        }
      }
    }
  }

  /**
   * Numbering and the continue target follow the same order.  For the
   * first occurrence of the current item, at position `j` of section `si`
   * (row number `j + 1`), the continue target is the material of row
   * `j + 2` in the same section; after the last row of a section it is the
   * material of row 1 of the next section that has materials, and there is
   * none when no later section has any.
   */
  lemma {:induction false} ContinueTargetIsNextRow(c: seq<Section>, si: nat, j: nat, id: int)
    requires si < |c| && j < |Materials(c[si])| && Materials(c[si])[j].postId == id
    requires forall x :: x in Flatten(c[..si]) + Materials(c[si])[..j] ==> x.postId != id
    ensures j + 1 < |Materials(c[si])| ==> NextMaterial(c, id) == Some(Materials(c[si])[j + 1])
    ensures j + 1 == |Materials(c[si])| && Flatten(c[si + 1..]) != [] ==>
              NextMaterial(c, id).Some? &&
              exists t :: si < t < |c| && Materials(c[t]) != [] && NextMaterial(c, id) == Some(Materials(c[t])[0])
                          && forall u :: si < u < t ==> Materials(c[u]) == []
    ensures j + 1 == |Materials(c[si])| && Flatten(c[si + 1..]) == [] ==> NextMaterial(c, id) == None
  {
    var mats := Materials(c[si]);
    var pre := Flatten(c[..si]) + mats[..j];
    var flat := Flatten(c);
    var k := |pre| + 1;
    FlattenAround(c, si);
    assert flat == pre + [mats[j]] + mats[j + 1..] + Flatten(c[si + 1..]);
    assert flat[..k] == pre + [mats[j]];
    forall x | 0 <= x < k - 1
      ensures flat[..k][x].postId != id
    {
      assert flat[..k][x] == pre[x];
      assert pre[x] in pre;
    }
    assert Scanned(true, flat[..k], id);
    if j + 1 < |mats| {
      assert flat[k] == mats[j + 1];
      ScanStopsAt(flat, k, id);
    } else if Flatten(c[si + 1..]) == [] {
      assert flat == flat[..k];
      ScanExhausted(flat, true, id);
    } else {
      var rest := c[si + 1..];
      assert flat[k] == Flatten(rest)[0];
      ScanStopsAt(flat, k, id);
      FirstOfFlatten(rest);
      var t :| 0 <= t < |rest| && Materials(rest[t]) != [] && Flatten(rest)[0] == Materials(rest[t])[0]
               && forall u :: 0 <= u < t ==> Materials(rest[u]) == [];
      assert rest[t] == c[si + 1 + t];
      forall u | si < u < si + 1 + t
        ensures Materials(c[u]) == []
      {
        assert rest[u - si - 1] == c[u];
      }
    }
  }

  /** A placeholder always shows its own row's number. */
  lemma PlaceholderShowsRowNumber(s: Section, j: nat, coursePostId: int, media: Media, postTypeOf: int -> string)
    requires j < |Materials(s)|
    ensures var row := SectionRows(s, coursePostId, media, postTypeOf)[j];
            row.thumb.Placeholder? ==> row.thumb.number == row.number
  {
  }
}
