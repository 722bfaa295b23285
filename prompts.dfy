/** The record schemas (pydantic_models_prompts.py) that replies of the
    language model are validated against, as field declarations, with the
    validation pydantic (version 1) performs when a schema is built from a
    dict, and the plain prompt templates whose answers the parser reads. */
module Prompts {

  import opened Text
  import opened Values

  // ----------------------------------------------------------------------
  // Schemas

  /** How a model field is declared. */
  datatype FieldKind =
    | Str              // `str`: required
    | OptionalStr      // `Optional[str]`: may be absent or None
    | StrList          // `List[str]`: required
    | OptionalStrList  // `Optional[List[str]]`: may be absent or None

  datatype Field = Field(name: string, kind: FieldKind)

  /** A model: its fields in declaration order. */
  type Schema = seq<Field>

  const BasicInfo: Schema := [
    Field("name", Str), Field("bio", Str), Field("job_title", Str),
    Field("location", OptionalStr), Field("phone", OptionalStr)]

  const WorkExperience: Schema := [
    Field("company_name", Str), Field("job_title", Str), Field("start_date", Str),
    Field("end_date", Str), Field("description", OptionalStr)]

  const SingleWorkExperience: Schema := [
    Field("company_name", Str), Field("job_title", Str), Field("start_date", Str),
    Field("end_date", Str), Field("description", OptionalStr)]

  const WorkExperienceV2: Schema := [
    Field("company_name", Str), Field("job_title", Str), Field("start_date", Str),
    Field("end_date", Str), Field("description", OptionalStr)]

  const Skills: Schema := [
    Field("skills", StrList), Field("professional_development", OptionalStrList),
    Field("other", OptionalStrList)]

  const Education: Schema := [
    Field("qualification", Str), Field("establishment", OptionalStr),
    Field("country", OptionalStr), Field("year", OptionalStr)]

  const EducationV2: Schema := [
    Field("qualification", Str), Field("establishment", OptionalStr),
    Field("country", OptionalStr), Field("year", OptionalStr)]

  function FieldNames(schema: Schema): (r: seq<string>)
    ensures |r| == |schema| && forall i :: 0 <= i < |schema| ==> r[i] == schema[i].name
  {
    seq(|schema|, i requires 0 <= i < |schema| => schema[i].name)
  }

  // ----------------------------------------------------------------------
  // Validation

  function DigitChar(d: int): char
    requires 0 <= d < 10
  {
    ('0' as int + d) as char
  }

  /** The decimal digits of `n`. */
  function NatToString(n: nat): (r: string)
    ensures r != [] && forall i :: 0 <= i < |r| ==> IsDigit(r[i])
    ensures |r| > 1 ==> r[0] != '0'
    decreases n
  {
    if n < 10 then [DigitChar(n)] else NatToString(n / 10) + [DigitChar(n % 10)]
  }

  /** `str(i)` */
  function IntToString(i: int): string {
    if i < 0 then "-" + NatToString(-i) else NatToString(i)
  }

  /** A value a `str` field accepts: a string, or a number, which is
      converted with `str` (booleans are numbers in Python). */
  predicate IsStrLike(v: Value) {
    v.VStr? || v.VInt? || v.VBool?
  }

  /** The string a `str` field makes of a value, if it accepts it. */
  function CoerceStr(v: Value): (r: Option<string>)
    ensures r.Some? <==> IsStrLike(v)
    ensures v.VStr? ==> r == Some(v.s)
  {
    match v
    case VStr(s) => Some(s)
    case VInt(i) => Some(IntToString(i))
    case VBool(b) => Some(if b then "True" else "False")
    case _ => None
  }

  /** The elements of a list for a `List[str]` field, each made a string;
      nothing if one of them is not accepted. */
  function CoerceStrs(items: seq<Value>): (r: Option<seq<Value>>)
    ensures r.Some? <==> forall i :: 0 <= i < |items| ==> IsStrLike(items[i])
    ensures r.Some? ==> |r.value| == |items|
                        && forall i :: 0 <= i < |items| ==> r.value[i] == VStr(CoerceStr(items[i]).value)
    decreases |items|
  {
    if items == [] then Some([])
    else
      var init := items[..|items| - 1];
      var last := items[|items| - 1];
      match CoerceStrs(init)
      case None => None
      case Some(front) =>
        match CoerceStr(last)
        case None => None
        case Some(s) => Some(front + [VStr(s)])
  }

  /** The value of field `f` given the entry `given` of the input dict
      (None when the key is absent); nothing when pydantic rejects it. */
  function ValidateField(f: Field, given: Option<Value>): Option<Value> {
    var missing := given.None? || given.value == VNull;
    match f.kind
    case Str =>
      if missing then None
      else (match CoerceStr(given.value) case Some(s) => Some(VStr(s)) case None => None)
    case OptionalStr =>
      if missing then Some(VNull)
      else (match CoerceStr(given.value) case Some(s) => Some(VStr(s)) case None => None)
    case StrList =>
      if missing || !given.value.VList? then None
      else (match CoerceStrs(given.value.items) case Some(xs) => Some(VList(xs)) case None => None)
    case OptionalStrList =>
      if missing then Some(VNull)
      else if !given.value.VList? then None
      else (match CoerceStrs(given.value.items) case Some(xs) => Some(VList(xs)) case None => None)
  }

  /** What field `f` accepts. */
  predicate Accepts(f: Field, given: Option<Value>) {
    var missing := given.None? || given.value == VNull;
    match f.kind
    case Str => !missing && IsStrLike(given.value)
    case OptionalStr => missing || IsStrLike(given.value)
    case StrList =>
      !missing && given.value.VList? && forall i :: 0 <= i < |given.value.items| ==> IsStrLike(given.value.items[i])
    case OptionalStrList =>
      missing || (given.value.VList? && forall i :: 0 <= i < |given.value.items| ==> IsStrLike(given.value.items[i]))
  }

  /** The fields of the schema built from the dict `d`: validated one by
      one, in declaration order; keys of `d` the schema does not declare
      are ignored. */
  function ValidateFields(schema: Schema, d: Dict): Option<Dict>
    decreases |schema|
  {
    if schema == [] then Some([])
    else
      var f := schema[|schema| - 1];
      match ValidateFields(schema[..|schema| - 1], d)
      case None => None
      case Some(front) =>
        match ValidateField(f, Get(d, f.name))
        case None => None
        case Some(v) => Some(front + [(f.name, v)])
  }

  /** `json.loads(schema(**item).json())`, or nothing when building the
      model raises: `**item` needs a dict, and every field must validate. */
  function Validate(schema: Schema, item: Value): Option<Value> {
    match item
    case VDict(d) =>
      (match ValidateFields(schema, d)
       case Some(r) => Some(VDict(r))
       case None => None)
    case _ => None
  }

  lemma ValidateFieldAccepts(f: Field, given: Option<Value>)
    ensures ValidateField(f, given).Some? <==> Accepts(f, given)
  {
  }

  /** A dict builds a model exactly when every declared field accepts its
      entry; the result has the declared fields in order, a string field
      keeps a string it is given, a required field is never None, and an
      optional field that is absent is None. */
  lemma {:induction false} ValidateFieldsIff(schema: Schema, d: Dict)
    ensures ValidateFields(schema, d).Some? <==> forall i :: 0 <= i < |schema| ==> Accepts(schema[i], Get(d, schema[i].name))
    ensures var r := ValidateFields(schema, d);
      r.Some? ==>
        && KeysOf(r.value) == FieldNames(schema)
        && (forall i :: 0 <= i < |schema| ==> r.value[i].1 == ValidateField(schema[i], Get(d, schema[i].name)).value)
        && (forall i :: 0 <= i < |schema| && (schema[i].kind == Str || schema[i].kind == StrList) ==> r.value[i].1 != VNull)
        && (forall i :: 0 <= i < |schema| && Get(d, schema[i].name).None? ==> r.value[i].1 == VNull)
        && (forall i :: 0 <= i < |schema| && (schema[i].kind == Str || schema[i].kind == OptionalStr) && Get(d, schema[i].name).Some? && Get(d, schema[i].name).value.VStr? ==> r.value[i].1 == Get(d, schema[i].name).value)
    decreases |schema|
  {
    if schema != [] {
      var init := schema[..|schema| - 1];
      ValidateFieldsIff(init, d);
      var f := schema[|schema| - 1];
      ValidateFieldAccepts(f, Get(d, f.name));
      assert forall i :: 0 <= i < |init| ==> init[i] == schema[i];
      var r := ValidateFields(schema, d);
      if r.Some? {
        var front := ValidateFields(init, d).value;
        var v := ValidateField(f, Get(d, f.name)).value;
        assert r.value == front + [(f.name, v)];
        assert forall i :: 0 <= i < |init| ==> r.value[i] == front[i];
        assert r.value[|init|] == (f.name, v);
        assert FieldNames(schema) == FieldNames(init) + [f.name];
      }
    }
  }

  /** Keys a schema does not declare make no difference. */
  lemma ExtraKeysIgnored(schema: Schema, d: Dict, k: string, v: Value)
    requires forall i :: 0 <= i < |schema| ==> schema[i].name != k
    ensures Validate(schema, VDict(d + [(k, v)])) == Validate(schema, VDict(d))
  {
    GetAppendOther(d, k, v);
    ValidateFieldsSameEntries(schema, d + [(k, v)], d);
  }

  lemma {:induction false} GetAppendOther(d: Dict, k: string, v: Value)
    ensures forall k' :: k' != k ==> Get(d + [(k, v)], k') == Get(d, k')
    decreases |d|
  {
    if d != [] {
      GetAppendOther(d[1..], k, v);
      assert (d + [(k, v)])[1..] == d[1..] + [(k, v)];
    }
  }

  lemma {:induction false} ValidateFieldsSameEntries(schema: Schema, d1: Dict, d2: Dict)
    requires forall i :: 0 <= i < |schema| ==> Get(d1, schema[i].name) == Get(d2, schema[i].name)
    ensures ValidateFields(schema, d1) == ValidateFields(schema, d2)
    decreases |schema|
  {
    if schema != [] {
      ValidateFieldsSameEntries(schema[..|schema| - 1], d1, d2);
    }
  }

  /** The variant models declare the same fields as the originals. */
  lemma VariantsAgree()
    ensures SingleWorkExperience == WorkExperience && WorkExperienceV2 == WorkExperience
    ensures EducationV2 == Education
  {
  }

  /** `BasicInfo` needs name, bio and job_title as strings; location and
      phone may be missing or None. */
  lemma BasicInfoFields(d: Dict)
    ensures Validate(BasicInfo, VDict(d)).Some? <==>
      && Accepts(Field("name", Str), Get(d, "name"))
      && Accepts(Field("bio", Str), Get(d, "bio"))
      && Accepts(Field("job_title", Str), Get(d, "job_title"))
      && Accepts(Field("location", OptionalStr), Get(d, "location"))
      && Accepts(Field("phone", OptionalStr), Get(d, "phone"))
  {
    ValidateFieldsIff(BasicInfo, d);
    assert BasicInfo[0] == Field("name", Str) && BasicInfo[1] == Field("bio", Str);
    assert BasicInfo[2] == Field("job_title", Str) && BasicInfo[3] == Field("location", OptionalStr);
    assert BasicInfo[4] == Field("phone", OptionalStr);
  }

  /** `WorkExperience` needs company, title and both dates (a missing date
      is the string 'None' by the prompt's convention, not a null); the
      description may be missing. */
  lemma WorkExperienceFields(d: Dict)
    ensures Validate(WorkExperience, VDict(d)).Some? <==>
      && Accepts(Field("company_name", Str), Get(d, "company_name"))
      && Accepts(Field("job_title", Str), Get(d, "job_title"))
      && Accepts(Field("start_date", Str), Get(d, "start_date"))
      && Accepts(Field("end_date", Str), Get(d, "end_date"))
      && Accepts(Field("description", OptionalStr), Get(d, "description"))
  {
    ValidateFieldsIff(WorkExperience, d);
    assert WorkExperience[0] == Field("company_name", Str) && WorkExperience[1] == Field("job_title", Str);
    assert WorkExperience[2] == Field("start_date", Str) && WorkExperience[3] == Field("end_date", Str);
    assert WorkExperience[4] == Field("description", OptionalStr);
  }

  /** `Education` needs the qualification; the rest may be missing. */
  lemma EducationFields(d: Dict)
    ensures Validate(Education, VDict(d)).Some? <==>
      && Accepts(Field("qualification", Str), Get(d, "qualification"))
      && Accepts(Field("establishment", OptionalStr), Get(d, "establishment"))
      && Accepts(Field("country", OptionalStr), Get(d, "country"))
      && Accepts(Field("year", OptionalStr), Get(d, "year"))
  {
    ValidateFieldsIff(Education, d);
    assert Education[0].name == "qualification" && Education[3].name == "year";
  }

  /** `Skills` needs a list of strings under `skills`; the other two lists
      (the second under `other`, not `other_info`) may be missing. */
  lemma SkillsFields(d: Dict)
    ensures Validate(Skills, VDict(d)).Some? <==>
      && Accepts(Field("skills", StrList), Get(d, "skills"))
      && Accepts(Field("professional_development", OptionalStrList), Get(d, "professional_development"))
      && Accepts(Field("other", OptionalStrList), Get(d, "other"))
  {
    ValidateFieldsIff(Skills, d);
    assert Skills[0].name == "skills" && Skills[2].name == "other";
  }

  // ----------------------------------------------------------------------
  // Plain prompt templates

  /** A prompt is a header, the resume and a footer: each can be read back
      at its position. */
  lemma Layout(head: string, resume: string, tail: string)
    ensures var r := head + resume + tail;
      && |r| == |head| + |resume| + |tail|
      && r[..|head|] == head
      && r[|head|..|head| + |resume|] == resume
      && r[|head| + |resume|..] == tail
      && Contains(r, resume)
  {
    var r := head + resume + tail;
    assert r[|head|..|head| + |resume|] == resume;
    ContainsPiece(r, |head|, |head| + |resume|);
  }

  const FallbackBasicInfoHeader: string := "What is the "
  const ResumeHeader: string := "?\nRESUME:\n"
  const AnswerFooter: string := "\nANSWER:\n"

  /** `fallback_basic_info_prompt.format(query=query, resume=resume)` */
  function FallbackBasicInfoPrompt(query: string, resume: string): (r: string)
    ensures var start := |FallbackBasicInfoHeader + query + ResumeHeader|;
      && |r| == start + |resume| + |AnswerFooter|
      && r[..start] == FallbackBasicInfoHeader + query + ResumeHeader
      && r[start..start + |resume|] == resume
      && r[start + |resume|..] == AnswerFooter
    ensures Contains(r, resume)
  {
    Layout(FallbackBasicInfoHeader + query + ResumeHeader, resume, AnswerFooter);
    FallbackBasicInfoHeader + query + ResumeHeader + resume + AnswerFooter
  }

  /** The answer format `companies_prompt` asks for: one
      "company, job title" pair per line. */
  const CompaniesTemplateLines: seq<string> := [
    "company 1, job title 1", "company 2, job title 3", "company 3, job title 3"]

  const CompaniesHeader: string :=
    "What companies did this candidate work at and what was their job title ? Only use the resume to answer, "
    + "do not make up answers. Use the template to format the answer:\nTEMPLATE\n:"

  const CompaniesResumeHeader: string := "\n\nRESUME\n"

  /** The part of `companies_prompt` before the resume: the question, then
      the template lines. */
  function CompaniesPreamble(): (r: string)
    ensures |r| >= |CompaniesHeader| && r[..|CompaniesHeader|] == CompaniesHeader
    ensures |r| >= |CompaniesHeader| + |Join(CompaniesTemplateLines, '\n')|
    ensures r[|CompaniesHeader|..|CompaniesHeader| + |Join(CompaniesTemplateLines, '\n')|] == Join(CompaniesTemplateLines, '\n')
  {
    var template := Join(CompaniesTemplateLines, '\n');
    Layout(CompaniesHeader, template, CompaniesResumeHeader);
    CompaniesHeader + template + CompaniesResumeHeader
  }

  /** `companies_prompt.format(resume=resume)` */
  function CompaniesPrompt(resume: string): (r: string)
    ensures var start := |CompaniesPreamble()|;
      && |r| == start + |resume| + |AnswerFooter|
      && r[..start] == CompaniesPreamble()
      && r[start..start + |resume|] == resume
      && r[start + |resume|..] == AnswerFooter
    ensures Contains(r, resume)
  {
    Layout(CompaniesPreamble(), resume, AnswerFooter);
    CompaniesPreamble() + resume + AnswerFooter
  }
}
