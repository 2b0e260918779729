/**
 * The lesson thumbnail of the lessons tab: an ordered fallback chain over
 * the lesson's featured image, its `lesson_banner` meta, five alternate
 * meta fields and the course's featured image.  The WordPress lookups are
 * the fields of `Media`.
 */
module Thumbnail {
  import opened Php

  /** The WordPress calls the chain makes. */
  datatype Media = Media(
    featuredImage: int -> string,        // get_the_post_thumbnail_url( $id, 'medium' ), "" for false
    meta: (int, string) -> MetaValue,    // get_post_meta( $id, $key, true )
    attachmentUrl: MetaValue -> string,  // wp_get_attachment_image_url( $value, 'medium' ), "" for false
    isUrl: string -> bool,               // filter_var( $s, FILTER_VALIDATE_URL ) succeeds
    isNumeric: string -> bool            // is_numeric on a string
  )

  const BannerField: string := "lesson_banner"

  /** The alternate meta fields, in the order they are tried. */
  const MetaFields: seq<string> :=
    ["lesson_video_poster", "video_poster", "lesson_image", "stm_lesson_banner", "lesson_thumbnail"]

  /** `is_numeric( $value )` on a meta value. */
  predicate IsNumeric(v: MetaValue, media: Media)
  {
    v.Int? || (v.Str? && media.isNumeric(v.s))
  }

  /**
   * What one meta value yields: `Some(url)` when it is accepted (an array
   * with a `url` entry, whatever that entry holds; a string that validates
   * as a URL; a numeric attachment id whose URL lookup is truthy), `None`
   * when it is skipped.
   */
  function Accepted(v: MetaValue, media: Media): (r: Option<string>)
    ensures IsEmpty(v) ==> r.None?
    ensures r.Some? ==> (v.Arr? && v.url == r)
                        || (v.Str? && media.isUrl(v.s) && r.value == v.s)
                        || (IsNumeric(v, media) && Truthy(media.attachmentUrl(v)) && r.value == media.attachmentUrl(v))
    ensures v.Arr? && v.url.Some? ==> r == v.url
    ensures !IsEmpty(v) && v.Str? && media.isUrl(v.s) ==> r == Some(v.s)
    ensures (!IsEmpty(v) && !v.Arr? && !(v.Str? && media.isUrl(v.s)) && IsNumeric(v, media)
             && Truthy(media.attachmentUrl(v))) ==> r == Some(media.attachmentUrl(v))
  {
    if IsEmpty(v) then None
    else if v.Arr? && v.url.Some? then v.url
    else if v.Str? && media.isUrl(v.s) then Some(v.s)
    else if IsNumeric(v, media) && Truthy(media.attachmentUrl(v)) then Some(media.attachmentUrl(v))
    else None
  }

  /** The url the alternate-field loop leaves behind: that of the first accepted field, if any. */
  function FirstAccepted(values: seq<MetaValue>, media: Media): (r: Option<string>)
    ensures r.None? <==> forall i :: 0 <= i < |values| ==> Accepted(values[i], media).None?
    ensures r.Some? ==> exists i :: 0 <= i < |values| && Accepted(values[i], media) == r
                          && forall j :: 0 <= j < i ==> Accepted(values[j], media).None?
  {
    if values == [] then None
    else if Accepted(values[0], media).Some? then Accepted(values[0], media)
    else
      var r := FirstAccepted(values[1..], media);
      assert forall i :: 1 <= i < |values| ==> values[i] == values[1..][i - 1];
      r
  }

  /** The first truthy string of a list of candidates. */
  function FirstTruthy(candidates: seq<string>): (r: Option<string>)
    ensures r.Some? ==> Truthy(r.value)
    ensures r.Some? <==> exists i :: 0 <= i < |candidates| && Truthy(candidates[i])
    ensures r.Some? ==> exists i :: 0 <= i < |candidates| && candidates[i] == r.value
                          && forall j :: 0 <= j < i ==> !Truthy(candidates[j])
  {
    if candidates == [] then None
    else if Truthy(candidates[0]) then Some(candidates[0])
    else
      var r := FirstTruthy(candidates[1..]);
      assert forall i :: 1 <= i < |candidates| ==> candidates[i] == candidates[1..][i - 1];
      r
  }

  function OrEmpty(o: Option<string>): string
  {
    if o.Some? then o.value else ""
  }

  /**
   * The chain on given inputs: the first truthy among the featured image,
   * the banner, the first accepted alternate field and the course image.
   * `None` means the placeholder with the lesson number is shown.
   */
  function ChainOf(featured: string, banner: MetaValue, fields: seq<MetaValue>, courseImage: string, media: Media): Option<string>
  {
    FirstTruthy([featured, OrEmpty(Accepted(banner, media)), OrEmpty(FirstAccepted(fields, media)), courseImage])
  }

  /** The chain read as the template's sequence of "if still falsy" steps. */
  lemma ChainSteps(featured: string, banner: MetaValue, fields: seq<MetaValue>, courseImage: string, media: Media)
    ensures var b := OrEmpty(Accepted(banner, media));
            var f := OrEmpty(FirstAccepted(fields, media));
            ChainOf(featured, banner, fields, courseImage, media)
            == if Truthy(featured) then Some(featured)
               else if Truthy(b) then Some(b)
               else if Truthy(f) then Some(f)
               else if Truthy(courseImage) then Some(courseImage)
               else None
  {
    var b := OrEmpty(Accepted(banner, media));
    var f := OrEmpty(FirstAccepted(fields, media));
    assert [courseImage][1..] == [];
    assert FirstTruthy([courseImage]) == if Truthy(courseImage) then Some(courseImage) else None;
    assert [f, courseImage][1..] == [courseImage];
    assert FirstTruthy([f, courseImage]) == if Truthy(f) then Some(f) else FirstTruthy([courseImage]);
    assert [b, f, courseImage][1..] == [f, courseImage];
    assert FirstTruthy([b, f, courseImage]) == if Truthy(b) then Some(b) else FirstTruthy([f, courseImage]);
    assert [featured, b, f, courseImage][1..] == [b, f, courseImage];
  }

  /** The values of the alternate fields of a lesson, in order. */
  function FieldValues(lessonId: int, media: Media): (values: seq<MetaValue>)
    ensures |values| == |MetaFields|
    ensures forall i :: 0 <= i < |MetaFields| ==> values[i] == media.meta(lessonId, MetaFields[i])
  {
    seq(|MetaFields|, i requires 0 <= i < |MetaFields| => media.meta(lessonId, MetaFields[i]))
  }

  /** The thumbnail of a lesson of a course. */
  function LessonThumbnail(lessonId: int, coursePostId: int, media: Media): Option<string>
  {
    ChainOf(media.featuredImage(lessonId), media.meta(lessonId, BannerField),
            FieldValues(lessonId, media), media.featuredImage(coursePostId), media)
  }

  /**
   * The `foreach` over the alternate meta fields: it leaves the url of the
   * first accepted field, or the url it was entered with when none is.
   */
  method ScanMetaFields(lessonId: int, media: Media, url0: string) returns (url: string)
    ensures FirstAccepted(FieldValues(lessonId, media), media).Some? ==>
              url == FirstAccepted(FieldValues(lessonId, media), media).value
    ensures FirstAccepted(FieldValues(lessonId, media), media).None? ==> url == url0
  {
    url := url0;
    ghost var values := FieldValues(lessonId, media);
    var i := 0;
    while i < |MetaFields|
      invariant 0 <= i <= |MetaFields|
      invariant url == url0
      invariant FirstAccepted(values[i..], media) == FirstAccepted(values, media)
    {
      var value := media.meta(lessonId, MetaFields[i]);
      assert value == values[i];
      if !IsEmpty(value) {
        if value.Arr? && value.url.Some? {
          url := value.url.value;
          return;
        } else if value.Str? && media.isUrl(value.s) {
          url := value.s;
          return;
        } else if IsNumeric(value, media) {
          var attachmentUrl := media.attachmentUrl(value);
          if Truthy(attachmentUrl) {
            url := attachmentUrl;
            return;
          }
        }
      }
      assert values[i..][1..] == values[i + 1..];
      i := i + 1;
    }
    assert values[i..] == [];
  }

  /**
   * The template's step-by-step computation: `$thumbnail_url` is reassigned
   * by each method in turn while it is still falsy, and the alternate fields
   * are tried in a loop that stops at the first accepted one.
   */
  method ResolveThumbnail(lessonId: int, coursePostId: int, media: Media) returns (thumb: Option<string>)
    ensures thumb == LessonThumbnail(lessonId, coursePostId, media)
  {
    var thumbnailUrl := "";
    // Method 1: the lesson's featured image
    var featuredImg := media.featuredImage(lessonId);
    if Truthy(featuredImg) {
      thumbnailUrl := featuredImg;
    }
    // Method 2: the lesson_banner meta
    if !Truthy(thumbnailUrl) {
      var banner := media.meta(lessonId, BannerField);
      if !IsEmpty(banner) {
        if banner.Arr? && banner.url.Some? {
          thumbnailUrl := banner.url.value;
        } else if banner.Str? && media.isUrl(banner.s) {
          thumbnailUrl := banner.s;
        } else if IsNumeric(banner, media) {
          var attachmentUrl := media.attachmentUrl(banner);
          if Truthy(attachmentUrl) {
            thumbnailUrl := attachmentUrl;
          }
        }
      }
    }
    // Method 3: the alternate meta fields
    if !Truthy(thumbnailUrl) {
      thumbnailUrl := ScanMetaFields(lessonId, media, thumbnailUrl);
    }
    // Method 4: the course's featured image
    if !Truthy(thumbnailUrl) {
      var courseThumb := media.featuredImage(coursePostId);
      if Truthy(courseThumb) {
        thumbnailUrl := courseThumb;
      }
    }
    thumb := if Truthy(thumbnailUrl) then Some(thumbnailUrl) else None;
    ChainSteps(featuredImg, media.meta(lessonId, BannerField), FieldValues(lessonId, media),
               media.featuredImage(coursePostId), media);
  }

  // ---------------------------------------------------------------------
  // Properties of the chain
  // ---------------------------------------------------------------------

  /** A truthy featured image always wins. */
  lemma FeaturedImageWins(featured: string, banner: MetaValue, fields: seq<MetaValue>, courseImage: string, media: Media)
    requires Truthy(featured)
    ensures ChainOf(featured, banner, fields, courseImage, media) == Some(featured)
  {
  }

  /** With nothing usable on the lesson, the course image is the thumbnail (if it is truthy). */
  lemma CourseImageLastResort(featured: string, banner: MetaValue, fields: seq<MetaValue>, courseImage: string, media: Media)
    requires !Truthy(featured) && Accepted(banner, media).None?
    requires forall i :: 0 <= i < |fields| ==> Accepted(fields[i], media).None?
    ensures ChainOf(featured, banner, fields, courseImage, media)
            == if Truthy(courseImage) then Some(courseImage) else None
  {
    NoneAccepted(fields, media);
    ChainSteps(featured, banner, fields, courseImage, media);
  }

  /** No accepted field means the loop leaves nothing behind. */
  lemma {:induction false} NoneAccepted(fields: seq<MetaValue>, media: Media)
    requires forall i :: 0 <= i < |fields| ==> Accepted(fields[i], media).None?
    ensures FirstAccepted(fields, media).None?
  {
    if fields != [] {
      assert Accepted(fields[0], media).None?;
      NoneAccepted(fields[1..], media);
    }
  }

  /**
   * The loop stops at the first accepted field: later fields are never
   * looked at, even when the accepted value is an array whose `url` is empty.
   */
  lemma {:induction false} FirstAcceptedStopsAt(fields: seq<MetaValue>, i: nat, media: Media)
    requires i < |fields| && Accepted(fields[i], media).Some?
    requires forall j :: 0 <= j < i ==> Accepted(fields[j], media).None?
    ensures FirstAccepted(fields, media) == Accepted(fields[i], media)
  {
    if i > 0 {
      assert Accepted(fields[0], media).None?;
      assert forall j :: 0 <= j < i - 1 ==> fields[1..][j] == fields[j + 1];
      FirstAcceptedStopsAt(fields[1..], i - 1, media);
    }
  }

  /**
   * An array with an empty `url` in an alternate field ends the field loop:
   * whatever the later fields hold, the course image is used next.
   */
  lemma EmptyArrayUrlJumpsToCourseImage(featured: string, banner: MetaValue, fields: seq<MetaValue>, i: nat,
                                        courseImage: string, media: Media)
    requires !Truthy(featured) && Accepted(banner, media).None?
    requires i < |fields| && fields[i] == Arr(Some(""), 0)
    requires forall j :: 0 <= j < i ==> Accepted(fields[j], media).None?
    ensures ChainOf(featured, banner, fields, courseImage, media)
            == if Truthy(courseImage) then Some(courseImage) else None
  {
    FirstAcceptedStopsAt(fields, i, media);
    ChainSteps(featured, banner, fields, courseImage, media);
  }

  /** A numeric banner whose attachment has no URL is skipped like a missing one. */
  lemma UnresolvedAttachmentFallsThrough(featured: string, n: int, fields: seq<MetaValue>, courseImage: string, media: Media)
    requires n != 0 && !Truthy(media.attachmentUrl(Int(n)))
    ensures ChainOf(featured, Int(n), fields, courseImage, media) == ChainOf(featured, Null, fields, courseImage, media)
  {
  }

  /** A string that is neither a URL nor numeric is skipped like a missing one. */
  lemma NonUrlStringSkipped(s: string, media: Media)
    requires !media.isUrl(s) && !media.isNumeric(s)
    ensures Accepted(Str(s), media) == Accepted(Null, media)
  {
  }

  /** PHP's empty values "", "0" and 0 are never accepted. */
  lemma EmptyValuesSkipped(media: Media)
    ensures Accepted(Str(""), media).None?
    ensures Accepted(Str("0"), media).None?
    ensures Accepted(Int(0), media).None?
  {
  }

  /** The thumbnail is one of the candidates, never invented. */
  lemma ThumbnailIsACandidate(featured: string, banner: MetaValue, fields: seq<MetaValue>, courseImage: string, media: Media)
    ensures var r := ChainOf(featured, banner, fields, courseImage, media);
            r.Some? ==> r.value in [featured, OrEmpty(Accepted(banner, media)), OrEmpty(FirstAccepted(fields, media)), courseImage]
  {
  }
}
