/**
 * The template router of the plugin: which page template WordPress renders
 * for a request.  Every WordPress query the plugin makes (`is_singular`,
 * `get_post_type`, `get_query_var`, `$_GET`, `is_page`, `function_exists`)
 * is a field of `Request`; the plugin directory and `file_exists` are the
 * `Site`.  The hook registrations themselves are host plumbing; only the
 * decisions the registered callbacks make are modelled.
 */
module TemplateRouter {
  import opened Php

  /** What the router can observe about the current request. */
  datatype Request = Request(
    enabledFlag: Option<bool>,     // MASTERSTUDY_CUSTOM_LAYOUT_ENABLED; None when undefined
    singularType: Option<string>,  // post type of the queried object when is_singular() holds
    isPage: bool,                  // is_page()
    postType: Option<string>,      // get_post_type(); None when it returns false
    courseIdVar: string,           // get_query_var( 'course_id' ); "" when unset
    lessonIdVar: string,           // get_query_var( 'lesson_id' ); "" when unset
    getKeys: set<string>,          // keys present in $_GET
    courseFunctionExists: bool     // function_exists( 'STM_LMS_Course' )
  )

  /** The plugin's installation: its directory (with trailing slash) and the file system. */
  datatype Site = Site(pluginDir: string, fileExists: string -> bool)

  /** The four MasterStudy post types that carry a course player page. */
  const PlayerPostTypes: seq<string> := ["stm-courses", "stm-lessons", "stm-quizzes", "stm-assignments"]

  /** The three item post types the late override reacts to (no course pages). */
  const ItemPostTypes: seq<string> := ["stm-lessons", "stm-quizzes", "stm-assignments"]

  const StmPrefix: string := "stm-"

  /** `is_singular( $types )`. */
  predicate IsSingularOf(r: Request, types: seq<string>)
  {
    r.singularType.Some? && r.singularType.value in types
  }

  /** `strpos( $haystack, $needle ) === 0`. */
  predicate StartsWith(haystack: string, needle: string)
  {
    |needle| <= |haystack| && haystack[..|needle|] == needle
  }

  /** `! defined( 'MASTERSTUDY_CUSTOM_LAYOUT_ENABLED' ) || ! MASTERSTUDY_CUSTOM_LAYOUT_ENABLED` negated. */
  predicate OverrideEnabled(r: Request)
  {
    r.enabledFlag == Some(true)
  }

  /** The six-way disjunction that sets `$is_masterstudy_page`. */
  predicate IsMasterStudyPage(r: Request)
  {
    || IsSingularOf(r, PlayerPostTypes)
    || (r.postType.Some? && StartsWith(r.postType.value, StmPrefix))
    || Truthy(r.courseIdVar)
    || Truthy(r.lessonIdVar)
    || "course_id" in r.getKeys
    || "lesson_id" in r.getKeys
  }

  /** `plugin_dir_path( __FILE__ ) . 'templates/' . $name`. */
  function CustomTemplatePath(site: Site, name: string): (p: string)
    ensures |p| == |site.pluginDir| + 10 + |name|
    ensures p[..|site.pluginDir|] == site.pluginDir && p[|p| - |name|..] == name
    ensures p[|site.pluginDir|..|site.pluginDir| + 10] == "templates/"
  {
    site.pluginDir + "templates/" + name
  }

  function PlayerTemplatePath(site: Site): string
  {
    CustomTemplatePath(site, "course-player.php")
  }

  /** The `template_include` filter at priority 99. */
  function TemplateInclude(r: Request, site: Site, template: string): (result: string)
    ensures result == template || result == PlayerTemplatePath(site)
    ensures !OverrideEnabled(r) ==> result == template
    ensures !IsMasterStudyPage(r) ==> result == template
    ensures !site.fileExists(PlayerTemplatePath(site)) ==> result == template
    ensures (OverrideEnabled(r) && IsMasterStudyPage(r) && site.fileExists(PlayerTemplatePath(site)))
            ==> result == PlayerTemplatePath(site)
  {
    if !OverrideEnabled(r) then template
    else if IsMasterStudyPage(r) && site.fileExists(PlayerTemplatePath(site)) then PlayerTemplatePath(site)
    else template
  }

  /** The callback registered on the four MasterStudy template hooks. */
  function OverrideTemplates(site: Site, template: string, templateName: string): (result: string)
    ensures site.fileExists(CustomTemplatePath(site, templateName)) ==> result == CustomTemplatePath(site, templateName)
    ensures !site.fileExists(CustomTemplatePath(site, templateName)) ==> result == template
  {
    var custom := CustomTemplatePath(site, templateName);
    if site.fileExists(custom) then custom else template
  }

  /** The `stm_lms_template_path` callback, which agrees with `OverrideTemplates` on every input. */
  function StmTemplatePath(site: Site, templatePath: string, templateName: string): (result: string)
    ensures result == OverrideTemplates(site, templatePath, templateName)
    ensures result == templatePath || result == CustomTemplatePath(site, templateName)
  {
    var custom := CustomTemplatePath(site, templateName);
    if site.fileExists(custom) then custom else templatePath
  }

  /** Whether `check_course_player` registers its extra `template_include` filter. */
  predicate LateOverrideRegistered(r: Request)
  {
    && r.courseFunctionExists
    && (IsSingularOf(r, ItemPostTypes) || (Truthy(r.courseIdVar) && Truthy(r.lessonIdVar)))
  }

  /** The anonymous filter registered at priority 999 by `check_course_player`. */
  function LateOverride(site: Site, template: string): (result: string)
    ensures site.fileExists(PlayerTemplatePath(site)) ==> result == PlayerTemplatePath(site)
    ensures !site.fileExists(PlayerTemplatePath(site)) ==> result == template
  {
    if site.fileExists(PlayerTemplatePath(site)) then PlayerTemplatePath(site) else template
  }

  /**
   * The template WordPress finally renders as the plugin is written: the
   * priority-99 filter, then (if registered) the priority-999 one, which does
   * not look at the enable flag.
   */
  function FinalTemplateAsWritten(r: Request, site: Site, template: string): (result: string)
    ensures result == template || result == PlayerTemplatePath(site)
    ensures LateOverrideRegistered(r) && site.fileExists(PlayerTemplatePath(site)) ==> result == PlayerTemplatePath(site)
    ensures !LateOverrideRegistered(r) ==> result == TemplateInclude(r, site, template)
    ensures !site.fileExists(PlayerTemplatePath(site)) ==> result == template
  {
    var early := TemplateInclude(r, site, template);
    if LateOverrideRegistered(r) then LateOverride(site, early) else early
  }

  /**
   * The template finally rendered when the late filter, like the early one,
   * is switched off by the enable flag.
   */
  function FinalTemplate(r: Request, site: Site, template: string): (result: string)
    ensures result == template || result == PlayerTemplatePath(site)
    ensures !OverrideEnabled(r) ==> result == template
    ensures OverrideEnabled(r) ==> result == TemplateInclude(r, site, template)
  {
    var early := TemplateInclude(r, site, template);
    if OverrideEnabled(r) && LateOverrideRegistered(r) then
      LateOverrideImpliesMasterStudyPage(r);
      LateOverride(site, early)
    else early
  }

  /** `masterstudy_custom_layout_enqueue_styles`: `A || B && C` groups as `A || (B && C)`. */
  predicate EnqueueAssets(r: Request)
  {
    IsSingularOf(r, PlayerPostTypes) || (r.isPage && Truthy(r.courseIdVar))
  }

  // ---------------------------------------------------------------------
  // Properties of the router
  // ---------------------------------------------------------------------

  /** With the flag undefined or false the early filter hands back its input. */
  lemma DisabledKeepsTemplate(r: Request, site: Site, template: string)
    requires r.enabledFlag != Some(true)
    ensures TemplateInclude(r, site, template) == template
  {
  }

  /** A `course_id` or `lesson_id` key in the query string is enough, whatever its value. */
  lemma QueryKeyAloneMarksPage(r: Request)
    requires "course_id" in r.getKeys || "lesson_id" in r.getKeys
    ensures IsMasterStudyPage(r)
  {
  }

  /** Any post type beginning with `stm-` is a MasterStudy page, not only the four player types. */
  lemma StmPrefixMarksPage(r: Request, suffix: string)
    requires r.postType == Some(StmPrefix + suffix)
    ensures IsMasterStudyPage(r)
  {
    assert (StmPrefix + suffix)[..|StmPrefix|] == StmPrefix;
  }

  /** Applying the early filter to its own output changes nothing. */
  lemma TemplateIncludeIdempotent(r: Request, site: Site, template: string)
    ensures TemplateInclude(r, site, TemplateInclude(r, site, template)) == TemplateInclude(r, site, template)
  {
  }

  /** The override hooks return one of exactly two values, whatever the inputs. */
  lemma OverrideHasTwoOutcomes(site: Site, template: string, templateName: string)
    ensures var res := OverrideTemplates(site, template, templateName);
            res == template || res == site.pluginDir + "templates/" + templateName
  {
  }

  /**
   * The late override needs both query variables (or a singular item page);
   * a course page alone, which the early predicate accepts, does not trigger it.
   */
  lemma CoursePageAloneNoLateOverride(r: Request)
    requires r.singularType == Some("stm-courses") && !Truthy(r.lessonIdVar)
    ensures IsMasterStudyPage(r)
    ensures !LateOverrideRegistered(r)
  {
    assert r.singularType.value !in ItemPostTypes;
  }

  /** Every request the late override fires on is one the early predicate already accepts. */
  lemma {:induction false} LateOverrideImpliesMasterStudyPage(r: Request)
    requires LateOverrideRegistered(r)
    ensures IsMasterStudyPage(r)
  {
    if IsSingularOf(r, ItemPostTypes) {
      var t := r.singularType.value;
      assert t in ItemPostTypes;
      assert t == ItemPostTypes[0] || t == ItemPostTypes[1] || t == ItemPostTypes[2];
      assert t in PlayerPostTypes;
    }
  }

  /**
   * While the flag is on, the late filter never changes what the early one
   * chose, so the guarded and the as-written pipelines agree.
   */
  lemma {:induction false} EnabledLateOverrideRedundant(r: Request, site: Site, template: string)
    requires OverrideEnabled(r)
    ensures FinalTemplateAsWritten(r, site, template) == TemplateInclude(r, site, template)
    ensures FinalTemplate(r, site, template) == TemplateInclude(r, site, template)
  {
    if LateOverrideRegistered(r) {
      LateOverrideImpliesMasterStudyPage(r);
    }
  }

  /**
   * As written, switching the flag off does not switch the override off: on a
   * lesson request the late filter still substitutes the player template.
   */
  lemma DisabledFlagBypassedByLateOverride(site: Site, template: string)
    requires site.fileExists(PlayerTemplatePath(site)) && template != PlayerTemplatePath(site)
    ensures var r := Request(Some(false), Some("stm-lessons"), false, Some("stm-lessons"), "", "", {}, true);
            FinalTemplateAsWritten(r, site, template) == PlayerTemplatePath(site) != template
  {
    var r := Request(Some(false), Some("stm-lessons"), false, Some("stm-lessons"), "", "", {}, true);
    assert r.singularType.value == ItemPostTypes[0];
  }

  /** Styles are enqueued only on requests the router recognises as MasterStudy pages. */
  lemma EnqueueImpliesMasterStudyPage(r: Request)
    requires EnqueueAssets(r)
    ensures IsMasterStudyPage(r)
  {
  }

  /** A request carrying only `lesson_id` gets the player template but not the plugin's assets. */
  lemma LessonQueryOnlyNoAssets(r: Request, site: Site, template: string)
    requires OverrideEnabled(r) && site.fileExists(PlayerTemplatePath(site))
    requires r.singularType.None? && r.postType.None? && r.getKeys == {}
    requires r.courseIdVar == "" && r.lessonIdVar == "42"
    ensures TemplateInclude(r, site, template) == PlayerTemplatePath(site)
    ensures !EnqueueAssets(r)
  {
  }
}
