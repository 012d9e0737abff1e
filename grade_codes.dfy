/**
 * The two closed string enums of the Moodle grade_update call
 * (apps/sms-api/internal/mdlapi/gradesrc.go and gradecomp.go): a GradeSource is
 * "mod/<module>", a GradeComponent is "mod_<module>". Both live in one module
 * because each type's conversion names the other's constants.
 */
module GradeCodes {
  import opened Wrappers
  import opened MdlJson

  type GradeSource = string
  type GradeComponent = string

  /** The 22 module names, in declaration order. */
  const ModuleNames: seq<string> := ["assign", "book", "choice", "data", "feedback", "folder", "forum", "glossary", "h5pactivity", "imscp", "label", "lesson", "lti", "page", "qbank", "quiz", "resource", "scorm", "subsection", "url", "wiki", "workshop"]

  const SourceAssign: GradeSource := "mod/assign"
  const SourceBook: GradeSource := "mod/book"
  const SourceChoice: GradeSource := "mod/choice"
  const SourceData: GradeSource := "mod/data"
  const SourceFeedback: GradeSource := "mod/feedback"
  const SourceFolder: GradeSource := "mod/folder"
  const SourceForum: GradeSource := "mod/forum"
  const SourceGlossary: GradeSource := "mod/glossary"
  const SourceH5PActivity: GradeSource := "mod/h5pactivity"
  const SourceIMSCP: GradeSource := "mod/imscp"
  const SourceLabel: GradeSource := "mod/label"
  const SourceLesson: GradeSource := "mod/lesson"
  const SourceLTI: GradeSource := "mod/lti"
  const SourcePage: GradeSource := "mod/page"
  const SourceQBank: GradeSource := "mod/qbank"
  const SourceQuiz: GradeSource := "mod/quiz"
  const SourceResource: GradeSource := "mod/resource"
  const SourceSCORM: GradeSource := "mod/scorm"
  const SourceSubsection: GradeSource := "mod/subsection"
  const SourceURL: GradeSource := "mod/url"
  const SourceWiki: GradeSource := "mod/wiki"
  const SourceWorkshop: GradeSource := "mod/workshop"

  const ComponentAssign: GradeComponent := "mod_assign"
  const ComponentBook: GradeComponent := "mod_book"
  const ComponentChoice: GradeComponent := "mod_choice"
  const ComponentData: GradeComponent := "mod_data"
  const ComponentFeedback: GradeComponent := "mod_feedback"
  const ComponentFolder: GradeComponent := "mod_folder"
  const ComponentForum: GradeComponent := "mod_forum"
  const ComponentGlossary: GradeComponent := "mod_glossary"
  const ComponentH5PActivity: GradeComponent := "mod_h5pactivity"
  const ComponentIMSCP: GradeComponent := "mod_imscp"
  const ComponentLabel: GradeComponent := "mod_label"
  const ComponentLesson: GradeComponent := "mod_lesson"
  const ComponentLTI: GradeComponent := "mod_lti"
  const ComponentPage: GradeComponent := "mod_page"
  const ComponentQBank: GradeComponent := "mod_qbank"
  const ComponentQuiz: GradeComponent := "mod_quiz"
  const ComponentResource: GradeComponent := "mod_resource"
  const ComponentSCORM: GradeComponent := "mod_scorm"
  const ComponentSubsection: GradeComponent := "mod_subsection"
  const ComponentURL: GradeComponent := "mod_url"
  const ComponentWiki: GradeComponent := "mod_wiki"
  const ComponentWorkshop: GradeComponent := "mod_workshop"

  /** The declared GradeSource constants, in declaration order. */
  const AllSources: seq<GradeSource> := [SourceAssign, SourceBook, SourceChoice, SourceData, SourceFeedback, SourceFolder, SourceForum, SourceGlossary, SourceH5PActivity, SourceIMSCP, SourceLabel, SourceLesson, SourceLTI, SourcePage, SourceQBank, SourceQuiz, SourceResource, SourceSCORM, SourceSubsection, SourceURL, SourceWiki, SourceWorkshop]

  /** The declared GradeComponent constants, in declaration order. */
  const AllComponents: seq<GradeComponent> := [ComponentAssign, ComponentBook, ComponentChoice, ComponentData, ComponentFeedback, ComponentFolder, ComponentForum, ComponentGlossary, ComponentH5PActivity, ComponentIMSCP, ComponentLabel, ComponentLesson, ComponentLTI, ComponentPage, ComponentQBank, ComponentQuiz, ComponentResource, ComponentSCORM, ComponentSubsection, ComponentURL, ComponentWiki, ComponentWorkshop]

  /** GradeSource.IsValid: the switch over the 22 constants. */
  predicate IsValidSource(s: GradeSource)
  {
    match s
    case "mod/assign" => true
    case "mod/book" => true
    case "mod/choice" => true
    case "mod/data" => true
    case "mod/feedback" => true
    case "mod/folder" => true
    case "mod/forum" => true
    case "mod/glossary" => true
    case "mod/h5pactivity" => true
    case "mod/imscp" => true
    case "mod/label" => true
    case "mod/lesson" => true
    case "mod/lti" => true
    case "mod/page" => true
    case "mod/qbank" => true
    case "mod/quiz" => true
    case "mod/resource" => true
    case "mod/scorm" => true
    case "mod/subsection" => true
    case "mod/url" => true
    case "mod/wiki" => true
    case "mod/workshop" => true
    case _ => false
  }

  /** GradeComponent.IsValid: the switch over the 22 constants. */
  predicate IsValidComponent(c: GradeComponent)
  {
    match c
    case "mod_assign" => true
    case "mod_book" => true
    case "mod_choice" => true
    case "mod_data" => true
    case "mod_feedback" => true
    case "mod_folder" => true
    case "mod_forum" => true
    case "mod_glossary" => true
    case "mod_h5pactivity" => true
    case "mod_imscp" => true
    case "mod_label" => true
    case "mod_lesson" => true
    case "mod_lti" => true
    case "mod_page" => true
    case "mod_qbank" => true
    case "mod_quiz" => true
    case "mod_resource" => true
    case "mod_scorm" => true
    case "mod_subsection" => true
    case "mod_url" => true
    case "mod_wiki" => true
    case "mod_workshop" => true
    case _ => false
  }

  /** GradeSource.ToComponent; an unknown source maps to "". */
  function ToComponent(s: GradeSource): (c: GradeComponent)
    ensures IsValidSource(s) <==> IsValidComponent(c)
    ensures !IsValidSource(s) ==> c == ""
  {
    match s
    case "mod/assign" => ComponentAssign
    case "mod/book" => ComponentBook
    case "mod/choice" => ComponentChoice
    case "mod/data" => ComponentData
    case "mod/feedback" => ComponentFeedback
    case "mod/folder" => ComponentFolder
    case "mod/forum" => ComponentForum
    case "mod/glossary" => ComponentGlossary
    case "mod/h5pactivity" => ComponentH5PActivity
    case "mod/imscp" => ComponentIMSCP
    case "mod/label" => ComponentLabel
    case "mod/lesson" => ComponentLesson
    case "mod/lti" => ComponentLTI
    case "mod/page" => ComponentPage
    case "mod/qbank" => ComponentQBank
    case "mod/quiz" => ComponentQuiz
    case "mod/resource" => ComponentResource
    case "mod/scorm" => ComponentSCORM
    case "mod/subsection" => ComponentSubsection
    case "mod/url" => ComponentURL
    case "mod/wiki" => ComponentWiki
    case "mod/workshop" => ComponentWorkshop
    case _ => ""
  }

  /** GradeComponent.ToSource; an unknown component maps to "". */
  function ToSource(c: GradeComponent): (s: GradeSource)
    ensures IsValidComponent(c) <==> IsValidSource(s)
    ensures !IsValidComponent(c) ==> s == ""
  {
    match c
    case "mod_assign" => SourceAssign
    case "mod_book" => SourceBook
    case "mod_choice" => SourceChoice
    case "mod_data" => SourceData
    case "mod_feedback" => SourceFeedback
    case "mod_folder" => SourceFolder
    case "mod_forum" => SourceForum
    case "mod_glossary" => SourceGlossary
    case "mod_h5pactivity" => SourceH5PActivity
    case "mod_imscp" => SourceIMSCP
    case "mod_label" => SourceLabel
    case "mod_lesson" => SourceLesson
    case "mod_lti" => SourceLTI
    case "mod_page" => SourcePage
    case "mod_qbank" => SourceQBank
    case "mod_quiz" => SourceQuiz
    case "mod_resource" => SourceResource
    case "mod_scorm" => SourceSCORM
    case "mod_subsection" => SourceSubsection
    case "mod_url" => SourceURL
    case "mod_wiki" => SourceWiki
    case "mod_workshop" => SourceWorkshop
    case _ => ""
  }
  /** IsValid holds exactly for the declared constants. */
  lemma IsValidSourceExactly(s: GradeSource)
    ensures IsValidSource(s) <==> s in AllSources
  {
  }

  lemma IsValidComponentExactly(c: GradeComponent)
    ensures IsValidComponent(c) <==> c in AllComponents
  {
  }

  /** Constant i of each enum is built from module name i. */
  lemma NamingScheme(i: nat)
    requires i < |ModuleNames|
    ensures |AllSources| == |AllComponents| == |ModuleNames| == 22
    ensures AllSources[i] == "mod/" + ModuleNames[i]
    ensures AllComponents[i] == "mod_" + ModuleNames[i]
  {
    if i < 3 {
      NamingGroup0(i);
    } else if i < 6 {
      NamingGroup1(i);
    } else if i < 9 {
      NamingGroup2(i);
    } else if i < 12 {
      NamingGroup3(i);
    } else if i < 15 {
      NamingGroup4(i);
    } else if i < 18 {
      NamingGroup5(i);
    } else {
      NamingGroup6(i);
    }
  }

  lemma NamingGroup0(i: nat)
    requires 0 <= i < 3
    ensures AllSources[i] == "mod/" + ModuleNames[i]
    ensures AllComponents[i] == "mod_" + ModuleNames[i]
  {
    if i == 0 {
      assert AllSources[0] == "mod/" + ModuleNames[0];
      assert AllComponents[0] == "mod_" + ModuleNames[0];
    } else if i == 1 {
      assert AllSources[1] == "mod/" + ModuleNames[1];
      assert AllComponents[1] == "mod_" + ModuleNames[1];
    } else {
      assert AllSources[2] == "mod/" + ModuleNames[2];
      assert AllComponents[2] == "mod_" + ModuleNames[2];
    }
  }

  lemma NamingGroup1(i: nat)
    requires 3 <= i < 6
    ensures AllSources[i] == "mod/" + ModuleNames[i]
    ensures AllComponents[i] == "mod_" + ModuleNames[i]
  {
    if i == 3 {
      assert AllSources[3] == "mod/" + ModuleNames[3];
      assert AllComponents[3] == "mod_" + ModuleNames[3];
    } else if i == 4 {
      assert AllSources[4] == "mod/" + ModuleNames[4];
      assert AllComponents[4] == "mod_" + ModuleNames[4];
    } else {
      assert AllSources[5] == "mod/" + ModuleNames[5];
      assert AllComponents[5] == "mod_" + ModuleNames[5];
    }
  }

  lemma NamingGroup2(i: nat)
    requires 6 <= i < 9
    ensures AllSources[i] == "mod/" + ModuleNames[i]
    ensures AllComponents[i] == "mod_" + ModuleNames[i]
  {
    if i == 6 {
      assert AllSources[6] == "mod/" + ModuleNames[6];
      assert AllComponents[6] == "mod_" + ModuleNames[6];
    } else if i == 7 {
      assert AllSources[7] == "mod/" + ModuleNames[7];
      assert AllComponents[7] == "mod_" + ModuleNames[7];
    } else {
      assert AllSources[8] == "mod/" + ModuleNames[8];
      assert AllComponents[8] == "mod_" + ModuleNames[8];
    }
  }

  lemma NamingGroup3(i: nat)
    requires 9 <= i < 12
    ensures AllSources[i] == "mod/" + ModuleNames[i]
    ensures AllComponents[i] == "mod_" + ModuleNames[i]
  {
    if i == 9 {
      assert AllSources[9] == "mod/" + ModuleNames[9];
      assert AllComponents[9] == "mod_" + ModuleNames[9];
    } else if i == 10 {
      assert AllSources[10] == "mod/" + ModuleNames[10];
      assert AllComponents[10] == "mod_" + ModuleNames[10];
    } else {
      assert AllSources[11] == "mod/" + ModuleNames[11];
      assert AllComponents[11] == "mod_" + ModuleNames[11];
    }
  }

  lemma NamingGroup4(i: nat)
    requires 12 <= i < 15
    ensures AllSources[i] == "mod/" + ModuleNames[i]
    ensures AllComponents[i] == "mod_" + ModuleNames[i]
  {
    if i == 12 {
      assert AllSources[12] == "mod/" + ModuleNames[12];
      assert AllComponents[12] == "mod_" + ModuleNames[12];
    } else if i == 13 {
      assert AllSources[13] == "mod/" + ModuleNames[13];
      assert AllComponents[13] == "mod_" + ModuleNames[13];
    } else {
      assert AllSources[14] == "mod/" + ModuleNames[14];
      assert AllComponents[14] == "mod_" + ModuleNames[14];
    }
  }

  lemma NamingGroup5(i: nat)
    requires 15 <= i < 18
    ensures AllSources[i] == "mod/" + ModuleNames[i]
    ensures AllComponents[i] == "mod_" + ModuleNames[i]
  {
    if i == 15 {
      assert AllSources[15] == "mod/" + ModuleNames[15];
      assert AllComponents[15] == "mod_" + ModuleNames[15];
    } else if i == 16 {
      assert AllSources[16] == "mod/" + ModuleNames[16];
      assert AllComponents[16] == "mod_" + ModuleNames[16];
    } else {
      assert AllSources[17] == "mod/" + ModuleNames[17];
      assert AllComponents[17] == "mod_" + ModuleNames[17];
    }
  }

  lemma NamingGroup6(i: nat)
    requires 18 <= i < 22
    ensures AllSources[i] == "mod/" + ModuleNames[i]
    ensures AllComponents[i] == "mod_" + ModuleNames[i]
  {
    if i == 18 {
      assert AllSources[18] == "mod/" + ModuleNames[18];
      assert AllComponents[18] == "mod_" + ModuleNames[18];
    } else if i == 19 {
      assert AllSources[19] == "mod/" + ModuleNames[19];
      assert AllComponents[19] == "mod_" + ModuleNames[19];
    } else if i == 20 {
      assert AllSources[20] == "mod/" + ModuleNames[20];
      assert AllComponents[20] == "mod_" + ModuleNames[20];
    } else {
      assert AllSources[21] == "mod/" + ModuleNames[21];
      assert AllComponents[21] == "mod_" + ModuleNames[21];
    }
  }

  /** ToComponent maps the i-th source constant to the i-th component constant. */
  lemma ToComponentPairsConstants(i: nat)
    requires i < |AllSources|
    ensures ToComponent(AllSources[i]) == AllComponents[i]
  {
    if i < 3 {
    } else if i < 6 {
    } else if i < 9 {
    } else if i < 12 {
    } else if i < 15 {
    } else if i < 18 {
    } else {
    }
  }

  /** ToSource maps the i-th component constant to the i-th source constant. */
  lemma ToSourcePairsConstants(i: nat)
    requires i < |AllComponents|
    ensures ToSource(AllComponents[i]) == AllSources[i]
  {
    if i < 3 {
    } else if i < 6 {
    } else if i < 9 {
    } else if i < 12 {
    } else if i < 15 {
    } else if i < 18 {
    } else {
    }
  }

  /** ToComponent followed by ToSource gives back every valid source. */
  lemma SourceRoundTrip(s: GradeSource)
    requires IsValidSource(s)
    ensures IsValidComponent(ToComponent(s))
    ensures ToSource(ToComponent(s)) == s
  {
  }

  /** ToSource followed by ToComponent gives back every valid component. */
  lemma ComponentRoundTrip(c: GradeComponent)
    requires IsValidComponent(c)
    ensures IsValidSource(ToSource(c))
    ensures ToComponent(ToSource(c)) == c
  {
  }

  /**
   * GradeSource.UnmarshalJSON: nil data is accepted and changes nothing; a decoding
   * error or a string outside the enum is returned and leaves the receiver as it was;
   * a valid string is stored as-is.
   */
  function UnmarshalSource(receiver: GradeSource, data: JsonInput): (r: Decoded<GradeSource>)
    ensures data.NilData? ==> r == Decoded(receiver, None)
    ensures r.error.Some? ==> r.value == receiver
    ensures data.JString? ==>
      (if IsValidSource(data.s) then r == Decoded(data.s, None)
       else r == Decoded(receiver, Some("invalid GradeSource value: " + data.s)))
    ensures r.error.None? ==> r.value == receiver || IsValidSource(r.value)
  {
    if data.NilData? then Decoded(receiver, None)
    else
      match AsString(data)
      case Err(e) => Decoded(receiver, Some(e))
      case Ok(str) =>
        if !IsValidSource(str) then Decoded(receiver, Some("invalid GradeSource value: " + str))
        else Decoded(str, None)
  }

  /** GradeComponent.UnmarshalJSON, with the same shape as UnmarshalSource. */
  function UnmarshalComponent(receiver: GradeComponent, data: JsonInput): (r: Decoded<GradeComponent>)
    ensures data.NilData? ==> r == Decoded(receiver, None)
    ensures r.error.Some? ==> r.value == receiver
    ensures data.JString? ==>
      (if IsValidComponent(data.s) then r == Decoded(data.s, None)
       else r == Decoded(receiver, Some("invalid GradeComponent value: " + data.s)))
    ensures r.error.None? ==> r.value == receiver || IsValidComponent(r.value)
  {
    if data.NilData? then Decoded(receiver, None)
    else
      match AsString(data)
      case Err(e) => Decoded(receiver, Some(e))
      case Ok(str) =>
        if !IsValidComponent(str) then Decoded(receiver, Some("invalid GradeComponent value: " + str))
        else Decoded(str, None)
  }

  /** JSON null decodes to "" which is not a valid source, so it is rejected. */
  lemma UnmarshalSourceRejectsNull(receiver: GradeSource)
    ensures UnmarshalSource(receiver, JNull).error.Some?
    ensures UnmarshalSource(receiver, JNull).value == receiver
  {
  }

  /** The modules that typically support grading. */
  function GradableModules(): (r: seq<GradeSource>)
    ensures |r| == 11
    ensures forall i :: 0 <= i < |r| ==> IsValidSource(r[i])
    ensures forall i, j :: 0 <= i < j < |r| ==> r[i] != r[j]
  {
    [SourceAssign, SourceQuiz, SourceLesson, SourceWorkshop, SourceSCORM, SourceForum,
     SourceGlossary, SourceH5PActivity, SourceData, SourceChoice, SourceLTI]
  }
}
