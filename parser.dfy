/** The language-model resume parser (parser.py): a `ResumeManager` fills
    its output record group by group from the replies of the model, with a
    fallback for each group, and `get_resume_content` turns a decoded file
    into text. The replies of the service are inputs; the prompts that
    produce them are not modelled. */
module Parser {

  import opened Text
  import opened Values
  import opened Seqs
  import opened Utils
  import opened Prompts
  import opened Output

  // ----------------------------------------------------------------------
  // Replies of the service

  /** What one call to the chat service gives: an exception (network,
      timeout, authentication), or the message text together with what
      `json.loads` makes of it (None when it raises). */
  datatype Reply = Failed | Answered(content: string, parsed: Option<Value>)

  /** `query_model`: the text of the answer; when the call raises, "{}" in
      JSON mode and "" otherwise. It never raises. */
  function QueryModel(reply: Reply, jsonMode: bool): (r: string)
    ensures reply.Failed? && jsonMode ==> r == "{}"
    ensures reply.Failed? && !jsonMode ==> r == ""
    ensures reply.Answered? ==> r == reply.content
  {
    match reply
    case Failed => if jsonMode then "{}" else ""
    case Answered(content, _) => content
  }

  /** `json.loads(query_model(query)[0])` in JSON mode: a failed call
      yields the text "{}", which is the empty dict. */
  function LoadsReply(reply: Reply): (r: Option<Value>)
    ensures reply.Failed? ==> r == Some(VDict([]))
    ensures reply.Answered? ==> r == reply.parsed
  {
    match reply
    case Failed => Some(VDict([]))
    case Answered(_, parsed) => parsed
  }

  /** `x.strip() if x else ""` of a plain-mode answer `x`. */
  function StrippedAnswer(reply: Reply): string {
    var t := QueryModel(reply, false);
    if t != "" then Strip(t) else ""
  }

  // ----------------------------------------------------------------------
  // extract_pydantic

  /** The elements of every list value of `d`, in the dict's order. */
  function ListValues(d: Dict): seq<Value>
    decreases |d|
  {
    if d == [] then []
    else
      var init := ListValues(d[..|d| - 1]);
      match d[|d| - 1].1
      case VList(items) => init + items
      case _ => init
  }

  /** The items `extract_pydantic` tries to build the schema from: the
      `data` list when the reply has one, otherwise the elements of all its
      top-level lists. A reply that is not a dict has none: `in` or `[]`
      or `.items()` raises on it and the exception yields []. */
  function Candidates(parsed: Value): seq<Value> {
    match parsed
    case VDict(d) =>
      (match Get(d, "data")
       case Some(VList(items)) => items
       case _ => ListValues(d))
    case _ => []
  }

  /** The items that build the schema, as `json.loads(x.json())`; the rest
      are dropped one by one. */
  function ValidItems(schema: Schema, items: seq<Value>): seq<Value>
    decreases |items|
  {
    if items == [] then []
    else
      var init := ValidItems(schema, items[..|items| - 1]);
      match Validate(schema, items[|items| - 1])
      case Some(v) => init + [v]
      case None => init
  }

  /** What `extract_pydantic(schema)` returns for a reply, as the callers
      store it; any exception before the items are built yields []. */
  function Extracted(schema: Schema, reply: Reply): seq<Value> {
    match reply
    case Answered(_, Some(parsed)) => ValidItems(schema, Candidates(parsed))
    case _ => []
  }

  lemma {:induction false} ValidItemsAppend(schema: Schema, a: seq<Value>, b: seq<Value>)
    ensures ValidItems(schema, a + b) == ValidItems(schema, a) + ValidItems(schema, b)
    decreases |b|
  {
    if b == [] {
      assert a + b == a;
    } else {
      var b0 := b[..|b| - 1];
      assert (a + b)[..|a + b| - 1] == a + b0;
      assert (a + b)[|a + b| - 1] == b[|b| - 1];
      ValidItemsAppend(schema, a, b0);
    }
  }

  lemma {:induction false} ListValuesAppend(d1: Dict, d2: Dict)
    ensures ListValues(d1 + d2) == ListValues(d1) + ListValues(d2)
    decreases |d2|
  {
    if d2 == [] {
      assert d1 + d2 == d1;
    } else {
      var init := d2[..|d2| - 1];
      assert (d1 + d2)[..|d1 + d2| - 1] == d1 + init;
      assert (d1 + d2)[|d1 + d2| - 1] == d2[|d2| - 1];
      ListValuesAppend(d1, init);
    }
  }

  /** An item that does not build the schema is dropped and changes nothing
      about its siblings; one that does is kept in its place. */
  lemma ItemsIndependent(schema: Schema, a: seq<Value>, x: Value, b: seq<Value>)
    ensures Validate(schema, x).None? ==>
      ValidItems(schema, a + [x] + b) == ValidItems(schema, a) + ValidItems(schema, b)
    ensures Validate(schema, x).Some? ==>
      ValidItems(schema, a + [x] + b) == ValidItems(schema, a) + [Validate(schema, x).value] + ValidItems(schema, b)
  {
    ValidItemsAppend(schema, a + [x], b);
    ValidItemsAppend(schema, a, [x]);
    assert [x][..0] == [];
  }

  /** The kept items are the schema's records: dicts with the schema's
      fields in order, each built from one of the candidates; there are
      no more of them than candidates. */
  lemma {:induction false} ValidItemsShape(schema: Schema, items: seq<Value>)
    ensures var r := ValidItems(schema, items);
      && |r| <= |items|
      && forall i :: 0 <= i < |r| ==>
           r[i].VDict? && KeysOf(r[i].entries) == FieldNames(schema)
           && exists j :: 0 <= j < |items| && Validate(schema, items[j]) == Some(r[i])
    decreases |items|
  {
    if items != [] {
      var init := items[..|items| - 1];
      var x := items[|items| - 1];
      ValidItemsShape(schema, init);
      var r0 := ValidItems(schema, init);
      var r := ValidItems(schema, items);
      forall i | 0 <= i < |r|
        ensures r[i].VDict? && KeysOf(r[i].entries) == FieldNames(schema)
        ensures exists j :: 0 <= j < |items| && Validate(schema, items[j]) == Some(r[i])
      {
        if i < |r0| {
          assert r[i] == r0[i];
          var j :| 0 <= j < |init| && Validate(schema, init[j]) == Some(r0[i]);
          assert items[j] == init[j];
        } else {
          assert Validate(schema, x) == Some(r[i]);
          ValidateFieldsIff(schema, x.entries);
        }
      }
    }
  }

  /** With no `data` list every top-level list is scanned, in the dict's
      order, not only the first. */
  lemma AllListsScanned(schema: Schema, content: string, d1: Dict, k: string, items: seq<Value>, d2: Dict)
    requires var d := d1 + [(k, VList(items))] + d2;
      !(Get(d, "data").Some? && Get(d, "data").value.VList?)
    ensures Extracted(schema, Answered(content, Some(VDict(d1 + [(k, VList(items))] + d2))))
      == ValidItems(schema, ListValues(d1)) + ValidItems(schema, items) + ValidItems(schema, ListValues(d2))
  {
    var d := d1 + [(k, VList(items))] + d2;
    ListValuesAppend(d1 + [(k, VList(items))], d2);
    ListValuesAppend(d1, [(k, VList(items))]);
    assert [(k, VList(items))][..0] == [];
    ValidItemsAppend(schema, ListValues(d1) + items, ListValues(d2));
    ValidItemsAppend(schema, ListValues(d1), items);
  }

  /** A `data` list wins: the other lists of the reply are ignored. */
  lemma DataListOnly(schema: Schema, content: string, d: Dict, items: seq<Value>, extra: Dict)
    requires Get(d, "data") == Some(VList(items))
    ensures Extracted(schema, Answered(content, Some(VDict(d + extra)))) == ValidItems(schema, items)
  {
    GetPrefix(d, extra, "data");
  }

  lemma {:induction false} GetPrefix(d: Dict, extra: Dict, k: string)
    requires HasKey(d, k)
    ensures Get(d + extra, k) == Get(d, k)
    decreases |d|
  {
    if d[0].0 != k {
      assert (d + extra)[1..] == d[1..] + extra;
      GetPrefix(d[1..], extra, k);
    }
  }

  /** `for item in items: try: out.append(schema(**item)) except: pass` */
  method ValidateEach(schema: Schema, items: seq<Value>) returns (r: seq<Value>)
    ensures r == ValidItems(schema, items)
  {
    r := [];
    var i := 0;
    while i < |items|
      invariant 0 <= i <= |items|
      invariant r == ValidItems(schema, items[..i])
    {
      assert items[..i + 1][..i] == items[..i];
      var obj := Validate(schema, items[i]);
      if obj.Some? {
        r := r + [obj.value];
      }
      i := i + 1;
    }
    assert items[..i] == items;
  }

  /** `extract_pydantic(schema)` given the reply to its JSON-mode call. */
  method ExtractPydantic(schema: Schema, reply: Reply) returns (r: seq<Value>)
    ensures r == Extracted(schema, reply)
  {
    r := [];
    if reply.Failed? || reply.parsed.None? {
      return;
    }
    var parsed := reply.parsed.value;
    var hasData := PyIn("data", parsed);
    if hasData.Raised? {
      return;
    }
    if hasData.value {
      var data := PySubscript(parsed, "data");
      if data.Raised? {
        return;
      }
      if data.value.VList? {
        r := ValidateEach(schema, data.value.items);
        return;
      }
    }
    if !parsed.VDict? {
      return;  // `.items()` raises AttributeError
    }
    var d := parsed.entries;
    var i := 0;
    while i < |d|
      invariant 0 <= i <= |d|
      invariant r == ValidItems(schema, ListValues(d[..i]))
    {
      assert d[..i + 1][..i] == d[..i];
      if d[i].1.VList? {
        var kept := ValidateEach(schema, d[i].1.items);
        ValidItemsAppend(schema, ListValues(d[..i]), d[i].1.items);
        r := r + kept;
      }
      i := i + 1;
    }
    assert d[..i] == d;
  }

  // ----------------------------------------------------------------------
  // The output record

  /** The contact dict of an output record. */
  function ContactDict(out: Dict): Dict {
    match Get(out, "contact_info")
    case Some(VDict(c)) => c
    case _ => []
  }

  /** An output record as the manager keeps it: the template's keys, and a
      contact dict with the template's contact keys. */
  predicate Shaped(out: Dict) {
    && KeysOf(out) == OutputKeys
    && Get(out, "contact_info").Some? && Get(out, "contact_info").value.VDict?
    && KeysOf(ContactDict(out)) == ContactKeys
  }

  lemma TemplateShaped()
    ensures Shaped(OutputTemplate(PristineContact))
  {
    OutputTemplateFacts(PristineContact);
  }

  /** `self.output[k] = v` for a top-level key other than the contact. */
  function PutField(out: Dict, k: string, v: Value): (r: Dict)
    requires Shaped(out) && k in OutputKeys && k != "contact_info"
    ensures Shaped(r) && ContactDict(r) == ContactDict(out)
    ensures Get(r, k) == Some(v)
    ensures forall k' :: k' != k ==> Get(r, k') == Get(out, k')
  {
    KeysOfHasKey(out, k);
    PutOther(out, k, v, "contact_info");
    Put(out, k, v)
  }

  /** `self.output['contact_info'][k] = v` */
  function SetContact(out: Dict, k: string, v: Value): (r: Dict)
    requires Shaped(out) && k in ContactKeys
    ensures Shaped(r) && ContactDict(r) == Put(ContactDict(out), k, v)
    ensures forall k' :: k' != "contact_info" ==> Get(r, k') == Get(out, k')
  {
    KeysOfHasKey(out, "contact_info");
    KeysOfHasKey(ContactDict(out), k);
    Put(out, "contact_info", VDict(Put(ContactDict(out), k, v)))
  }

  /** Writing one contact entry leaves the other entries alone. */
  lemma SetContactOther(out: Dict, k: string, v: Value, k': string)
    requires Shaped(out) && k in ContactKeys && k' != k
    ensures Get(ContactDict(SetContact(out, k, v)), k') == Get(ContactDict(out), k')
  {
    var c := ContactDict(out);
    assert ContactDict(SetContact(out, k, v)) == Put(c, k, v);
    PutOther(c, k, v, k');
  }

  // ----------------------------------------------------------------------
  // The field groups, as functions of the record before and after

  /** The primary path of `extract_basic_info` once the reply is a dict. */
  function StoreBasicJson(out: Dict, j: Dict): (r: Dict)
    requires Shaped(out)
    ensures Shaped(r)
  {
    var o := PutField(PutField(PutField(out, "candidate_name", GetOr(j, "name", VStr(""))),
                               "job_title", GetOr(j, "job_title", VStr(""))),
                      "bio", GetOr(j, "bio", VStr("")));
    var o' := if HasKey(j, "location") then SetContact(o, "location", GetOr(j, "location", VNull)) else o;
    if HasKey(j, "phone") then SetContact(o', "phone_number", GetOr(j, "phone", VNull)) else o'
  }

  /** `fallback_basic_info` given the plain-mode answers for the name and
      for the job title. */
  function FallbackBasic(out: Dict, nameReply: Reply, titleReply: Reply): (r: Dict)
    requires Shaped(out)
    ensures Shaped(r)
    ensures Get(r, "candidate_name") == Some(VStr(StrippedAnswer(nameReply)))
    ensures Get(r, "job_title") == Some(VStr(StrippedAnswer(titleReply)))
  {
    var o := PutField(out, "candidate_name", VStr(StrippedAnswer(nameReply)));
    var r := PutField(o, "job_title", VStr(StrippedAnswer(titleReply)));
    assert Get(r, "candidate_name") == Get(o, "candidate_name");
    r
  }

  /** The basic fields after the primary or the fallback path: the reply
      fills them when it is a dict (reading `.get` of anything else raises
      and the fallback runs). */
  function BasicFilled(out: Dict, reply: Reply, nameReply: Reply, titleReply: Reply): (r: Dict)
    requires Shaped(out)
    ensures Shaped(r)
  {
    match LoadsReply(reply)
    case Some(VDict(j)) => StoreBasicJson(out, j)
    case _ => FallbackBasic(out, nameReply, titleReply)
  }

  /** The last two writes of `extract_basic_info`: the emails and the
      profile URLs found in the resume text. */
  function WriteProfiles(out: Dict, m: ContactMatches): (r: Dict)
    requires Shaped(out)
    ensures Shaped(r)
  {
    SetContact(SetContact(out, "email_address", VList(Strs(KeepFirst(m.emails, EmailKey)))),
               "personal_urls", VList(Strs(KeepFirst(m.github + m.linkedin, UrlKey))))
  }

  /** `extract_basic_info` */
  function BasicInfoStep(out: Dict, m: ContactMatches, reply: Reply, nameReply: Reply, titleReply: Reply): (r: Dict)
    requires Shaped(out)
    ensures Shaped(r)
  {
    WriteProfiles(BasicFilled(out, reply, nameReply, titleReply), m)
  }

  /** `[s.strip() for s in text.split(',') if s.strip()]`, over the pieces. */
  function NonEmptyStripped(pieces: seq<string>): seq<string>
    decreases |pieces|
  {
    if pieces == [] then []
    else
      var init := NonEmptyStripped(pieces[..|pieces| - 1]);
      var s := Strip(pieces[|pieces| - 1]);
      if s != "" then init + [s] else init
  }

  /** The skills of a comma-separated answer. */
  function CommaSkills(text: string): seq<string> {
    NonEmptyStripped(Split(text, ','))
  }

  /** `extract_skills`: the three lists come from the reply when it is a
      dict; otherwise the fallback answer, when not empty, replaces the
      skills by its comma-separated pieces. */
  function SkillsStep(out: Dict, reply: Reply, fallbackReply: Reply): (r: Dict)
    requires Shaped(out)
    ensures Shaped(r)
  {
    match LoadsReply(reply)
    case Some(VDict(j)) => SkillsFromJson(out, j)
    case _ => SkillsFromAnswer(out, QueryModel(fallbackReply, false))
  }

  /** The three lists of a dict reply, each [] when missing. */
  function SkillsFromJson(out: Dict, j: Dict): (r: Dict)
    requires Shaped(out)
    ensures Shaped(r)
    ensures Get(r, "skills") == Some(GetOr(j, "skills", VList([])))
    ensures Get(r, "professional_development") == Some(GetOr(j, "professional_development", VList([])))
    ensures Get(r, "other_info") == Some(GetOr(j, "other", VList([])))
    ensures forall k :: NotSkillsKey(k) ==> Get(r, k) == Get(out, k)
  {
    var o1 := PutField(out, "skills", GetOr(j, "skills", VList([])));
    var o2 := PutField(o1, "professional_development", GetOr(j, "professional_development", VList([])));
    var r := PutField(o2, "other_info", GetOr(j, "other", VList([])));
    assert Get(r, "skills") == Get(o2, "skills") == Get(o1, "skills");
    assert Get(r, "professional_development") == Get(o2, "professional_development");
    assert forall k :: NotSkillsKey(k) ==> k != "other_info" && k != "professional_development" && k != "skills";
    r
  }

  /** The skills of a non-empty plain answer; an empty one changes nothing. */
  function SkillsFromAnswer(out: Dict, t: string): (r: Dict)
    requires Shaped(out)
    ensures Shaped(r)
  {
    if t != "" then PutField(out, "skills", VList(Strs(CommaSkills(t)))) else out
  }

  /** `extract_education`: extract_pydantic never raises, so its fallback
      is never taken. */
  function EducationStep(out: Dict, reply: Reply): (r: Dict)
    requires Shaped(out)
    ensures Shaped(r)
  {
    PutField(out, "education", VList(Extracted(Education, reply)))
  }

  /** `extract_work_experience`: like education, the fallback is dead. */
  function WorkStep(out: Dict, reply: Reply): (r: Dict)
    requires Shaped(out)
    ensures Shaped(r)
  {
    PutField(out, "work_output", VList(Extracted(WorkExperience, reply)))
  }

  /** `get_intermediary_work_experience`: the parsed reply is appended to
      the work list; when parsing (or the append) raises, nothing changes. */
  function DrillStep(out: Dict, reply: Reply): (r: Dict)
    requires Shaped(out)
    ensures Shaped(r)
  {
    match LoadsReply(reply)
    case None => out
    case Some(v) =>
      match Get(out, "work_output")
      case Some(VList(items)) => PutField(out, "work_output", VList(items + [v]))
      case _ => out
  }

  // ----------------------------------------------------------------------
  // The company/role answer of the fallback work extraction

  /** The company and role one answer line names, if any: lines that are
      blank or mention "answer" in any case are skipped, the company is
      the text before the first comma and the role the text after it, up
      to a second comma, both stripped; a line without a company is
      skipped. */
  function LineCompany(line: string): Option<(string, string)> {
    if Contains(Lower(line), "answer") || Strip(line) == "" then None
    else
      var entry := Split(line, ',');
      var company := Strip(entry[0]);
      if company == "" then None
      else Some((company, if |entry| > 1 then Strip(entry[1]) else ""))
  }

  /** The pair a line names, read the way the extraction loop reads it. */
  lemma LineCompanyNamed(line: string, entry: seq<string>, company: string, role: string)
    requires !(Contains(Lower(line), "answer") || Strip(line) == "")
    requires entry == Split(line, ',') && company == Strip(entry[0]) && company != ""
    requires role == if |entry| > 1 then Strip(entry[1]) else ""
    ensures LineCompany(line) == Some((company, role))
  {
  }

  /** A line the extraction loop passes over names no company. */
  lemma LineCompanySkipped(line: string)
    requires Contains(Lower(line), "answer") || Strip(line) == ""
             || Strip(Split(line, ',')[0]) == ""
    ensures LineCompany(line).None?
  {
  }

  function CompaniesIn(lines: seq<string>): seq<(string, string)>
    decreases |lines|
  {
    if lines == [] then []
    else
      var init := CompaniesIn(lines[..|lines| - 1]);
      match LineCompany(lines[|lines| - 1])
      case Some(c) => init + [c]
      case None => init
  }

  /** The (company, role) pairs of the answer to `companies_prompt`. */
  function CompaniesOf(answer: string): seq<(string, string)> {
    CompaniesIn(Split(answer, '\n'))
  }

  /** The drill-downs for `companies`, one after the other: `drill` gives
      the reply for a company and role. */
  function DrillAll(out: Dict, companies: seq<(string, string)>, drill: (string, string) -> Reply): (r: Dict)
    requires Shaped(out)
    ensures Shaped(r)
    decreases |companies|
  {
    if companies == [] then out
    else
      var c := companies[|companies| - 1];
      DrillStep(DrillAll(out, companies[..|companies| - 1], drill), drill(c.0, c.1))
  }

  /** The drill-downs for one more company. */
  lemma DrillAllSnoc(out: Dict, cs: seq<(string, string)>, c: (string, string), drill: (string, string) -> Reply)
    requires Shaped(out)
    ensures DrillAll(out, cs + [c], drill) == DrillStep(DrillAll(out, cs, drill), drill(c.0, c.1))
  {
    assert (cs + [c])[..|cs|] == cs;
  }

  /** `fallback_extract_work_experience`. */
  function FallbackWorkStep(out: Dict, reply: Reply, drill: (string, string) -> Reply): (r: Dict)
    requires Shaped(out)
    ensures Shaped(r)
  {
    DrillAll(out, CompaniesOf(QueryModel(reply, false)), drill)
  }

  // ----------------------------------------------------------------------
  // What each group writes

  /** The top-level keys outside the basic-info group. */
  predicate NotBasicKey(k: string) {
    k != "candidate_name" && k != "job_title" && k != "bio" && k != "contact_info"
  }

  /** Whatever the replies, the last writes of `extract_basic_info` leave
      the resume's deduplicated emails and profile URLs in the contact. */
  lemma ProfilesWrittenLast(out: Dict, m: ContactMatches, reply: Reply, nameReply: Reply, titleReply: Reply)
    requires Shaped(out)
    ensures var c := ContactDict(BasicInfoStep(out, m, reply, nameReply, titleReply));
      && Get(c, "email_address") == Some(VList(Strs(KeepFirst(m.emails, EmailKey))))
      && Get(c, "personal_urls") == Some(VList(Strs(KeepFirst(m.github + m.linkedin, UrlKey))))
  {
    var filled := BasicFilled(out, reply, nameReply, titleReply);
    assert BasicInfoStep(out, m, reply, nameReply, titleReply) == WriteProfiles(filled, m);
    var e := VList(Strs(KeepFirst(m.emails, EmailKey)));
    var o := SetContact(filled, "email_address", e);
    var r := SetContact(o, "personal_urls", VList(Strs(KeepFirst(m.github + m.linkedin, UrlKey))));
    assert WriteProfiles(filled, m) == r;
    assert Get(ContactDict(o), "email_address") == Some(e);
    assert Get(ContactDict(r), "email_address") == Get(ContactDict(o), "email_address");
  }

  /** The contact after the profile writes keeps everything else. */
  lemma WriteProfilesKeeps(out: Dict, m: ContactMatches)
    requires Shaped(out)
    ensures var r := WriteProfiles(out, m);
      && (forall k :: k != "contact_info" ==> Get(r, k) == Get(out, k))
      && Get(ContactDict(r), "location") == Get(ContactDict(out), "location")
      && Get(ContactDict(r), "phone_number") == Get(ContactDict(out), "phone_number")
  {
    var o := SetContact(out, "email_address", VList(Strs(KeepFirst(m.emails, EmailKey))));
    var r := SetContact(o, "personal_urls", VList(Strs(KeepFirst(m.github + m.linkedin, UrlKey))));
    assert WriteProfiles(out, m) == r;
    forall k | k != "contact_info" ensures Get(r, k) == Get(out, k) {
      assert Get(r, k) == Get(o, k);
    }
    SetContactOther(out, "email_address", VList(Strs(KeepFirst(m.emails, EmailKey))), "location");
    SetContactOther(out, "email_address", VList(Strs(KeepFirst(m.emails, EmailKey))), "phone_number");
    SetContactOther(o, "personal_urls", VList(Strs(KeepFirst(m.github + m.linkedin, UrlKey))), "location");
    SetContactOther(o, "personal_urls", VList(Strs(KeepFirst(m.github + m.linkedin, UrlKey))), "phone_number");
  }

  /** The record after `extract_basic_info` agrees with the filled record
      everywhere but in the profile entries of the contact. */
  lemma Profiled(out: Dict, m: ContactMatches, reply: Reply, nameReply: Reply, titleReply: Reply)
    requires Shaped(out)
    ensures var filled := BasicFilled(out, reply, nameReply, titleReply);
      var r := BasicInfoStep(out, m, reply, nameReply, titleReply);
      && (forall k :: k != "contact_info" ==> Get(r, k) == Get(filled, k))
      && Get(ContactDict(r), "location") == Get(ContactDict(filled), "location")
      && Get(ContactDict(r), "phone_number") == Get(ContactDict(filled), "phone_number")
  {
    var filled := BasicFilled(out, reply, nameReply, titleReply);
    assert BasicInfoStep(out, m, reply, nameReply, titleReply) == WriteProfiles(filled, m);
    WriteProfilesKeeps(filled, m);
  }

  /** One key outside the contact, after `extract_basic_info`. */
  lemma ProfiledAt(out: Dict, m: ContactMatches, reply: Reply, nameReply: Reply, titleReply: Reply, k: string)
    requires Shaped(out) && k != "contact_info"
    ensures Get(BasicInfoStep(out, m, reply, nameReply, titleReply), k) == Get(BasicFilled(out, reply, nameReply, titleReply), k)
  {
    Profiled(out, m, reply, nameReply, titleReply);
  }

  /** What the primary path writes. */
  lemma StoreBasicJsonFacts(out: Dict, j: Dict)
    requires Shaped(out)
    ensures var r := StoreBasicJson(out, j);
      && Get(r, "candidate_name") == Some(GetOr(j, "name", VStr("")))
      && Get(r, "job_title") == Some(GetOr(j, "job_title", VStr("")))
      && Get(r, "bio") == Some(GetOr(j, "bio", VStr("")))
      && Get(ContactDict(r), "location") == (if HasKey(j, "location") then Get(j, "location") else Get(ContactDict(out), "location"))
      && Get(ContactDict(r), "phone_number") == (if HasKey(j, "phone") then Get(j, "phone") else Get(ContactDict(out), "phone_number"))
      && (forall k :: NotBasicKey(k) ==> Get(r, k) == Get(out, k))
  {
    var o := PutField(PutField(PutField(out, "candidate_name", GetOr(j, "name", VStr(""))),
                               "job_title", GetOr(j, "job_title", VStr(""))),
                      "bio", GetOr(j, "bio", VStr("")));
    assert ContactDict(o) == ContactDict(out);
    var o' := if HasKey(j, "location") then SetContact(o, "location", GetOr(j, "location", VNull)) else o;
    assert Get(ContactDict(o'), "location") == (if HasKey(j, "location") then Get(j, "location") else Get(ContactDict(out), "location"));
    assert Get(ContactDict(o'), "phone_number") == Get(ContactDict(out), "phone_number");
  }

  /** The basic text fields: each output field with the reply key it is
      read from. */
  predicate BasicField(field: string, key: string) {
    (field == "candidate_name" && key == "name") || (field == "job_title" && key == "job_title")
    || (field == "bio" && key == "bio")
  }

  /** A dict reply fills name, title and bio, each "" when missing. */
  lemma PrimaryField(out: Dict, m: ContactMatches, reply: Reply, nameReply: Reply, titleReply: Reply, j: Dict, field: string, key: string)
    requires Shaped(out) && LoadsReply(reply) == Some(VDict(j)) && BasicField(field, key)
    ensures Get(BasicInfoStep(out, m, reply, nameReply, titleReply), field) == Some(GetOr(j, key, VStr("")))
  {
    assert BasicFilled(out, reply, nameReply, titleReply) == StoreBasicJson(out, j);
    StoreBasicJsonFacts(out, j);
    Profiled(out, m, reply, nameReply, titleReply);
  }

  /** A dict reply writes location and phone only when it has those keys. */
  lemma PrimaryContact(out: Dict, m: ContactMatches, reply: Reply, nameReply: Reply, titleReply: Reply, j: Dict)
    requires Shaped(out) && LoadsReply(reply) == Some(VDict(j))
    ensures var r := BasicInfoStep(out, m, reply, nameReply, titleReply);
      && Get(ContactDict(r), "location") == (if HasKey(j, "location") then Get(j, "location") else Get(ContactDict(out), "location"))
      && Get(ContactDict(r), "phone_number") == (if HasKey(j, "phone") then Get(j, "phone") else Get(ContactDict(out), "phone_number"))
  {
    assert BasicFilled(out, reply, nameReply, titleReply) == StoreBasicJson(out, j);
    StoreBasicJsonFacts(out, j);
    Profiled(out, m, reply, nameReply, titleReply);
  }

  /** Nothing outside the group changes. */
  lemma PrimaryOutside(out: Dict, m: ContactMatches, reply: Reply, nameReply: Reply, titleReply: Reply, j: Dict)
    requires Shaped(out) && LoadsReply(reply) == Some(VDict(j))
    ensures var r := BasicInfoStep(out, m, reply, nameReply, titleReply);
      forall k :: NotBasicKey(k) ==> Get(r, k) == Get(out, k)
  {
    assert BasicFilled(out, reply, nameReply, titleReply) == StoreBasicJson(out, j);
    StoreBasicJsonFacts(out, j);
    Profiled(out, m, reply, nameReply, titleReply);
  }

  /** When the reply is a dict, the fallback answers play no part. */
  lemma FallbackAnswersUnused(out: Dict, m: ContactMatches, reply: Reply, n1: Reply, t1: Reply, n2: Reply, t2: Reply)
    requires Shaped(out) && LoadsReply(reply).Some? && LoadsReply(reply).value.VDict?
    ensures BasicInfoStep(out, m, reply, n1, t1) == BasicInfoStep(out, m, reply, n2, t2)
  {
  }

  /** A reply that is not a dict (invalid JSON included) takes the
      fallback: the name and the title are the stripped plain answers. */
  lemma FallbackName(out: Dict, m: ContactMatches, reply: Reply, nameReply: Reply, titleReply: Reply)
    requires Shaped(out) && !(LoadsReply(reply).Some? && LoadsReply(reply).value.VDict?)
    ensures Get(BasicInfoStep(out, m, reply, nameReply, titleReply), "candidate_name") == Some(VStr(StrippedAnswer(nameReply)))
  {
    assert BasicFilled(out, reply, nameReply, titleReply) == FallbackBasic(out, nameReply, titleReply);
    Profiled(out, m, reply, nameReply, titleReply);
  }

  lemma FallbackTitle(out: Dict, m: ContactMatches, reply: Reply, nameReply: Reply, titleReply: Reply)
    requires Shaped(out) && !(LoadsReply(reply).Some? && LoadsReply(reply).value.VDict?)
    ensures Get(BasicInfoStep(out, m, reply, nameReply, titleReply), "job_title") == Some(VStr(StrippedAnswer(titleReply)))
  {
    var filled := BasicFilled(out, reply, nameReply, titleReply);
    assert filled == FallbackBasic(out, nameReply, titleReply);
    ProfiledAt(out, m, reply, nameReply, titleReply, "job_title");
  }

  /** The fallback writes only name and title. */
  lemma FallbackBasicKeeps(out: Dict, nameReply: Reply, titleReply: Reply)
    requires Shaped(out)
    ensures var f := FallbackBasic(out, nameReply, titleReply);
      && ContactDict(f) == ContactDict(out)
      && forall k :: k != "candidate_name" && k != "job_title" ==> Get(f, k) == Get(out, k)
  {
    var o := PutField(out, "candidate_name", VStr(StrippedAnswer(nameReply)));
    var f := PutField(o, "job_title", VStr(StrippedAnswer(titleReply)));
    assert FallbackBasic(out, nameReply, titleReply) == f;
    forall k | k != "candidate_name" && k != "job_title" ensures Get(f, k) == Get(out, k) {
      assert Get(f, k) == Get(o, k);
    }
  }

  /** The fallback keeps bio, location, phone and everything outside the
      group. */
  lemma FallbackRest(out: Dict, m: ContactMatches, reply: Reply, nameReply: Reply, titleReply: Reply)
    requires Shaped(out) && !(LoadsReply(reply).Some? && LoadsReply(reply).value.VDict?)
    ensures var r := BasicInfoStep(out, m, reply, nameReply, titleReply);
      && Get(ContactDict(r), "location") == Get(ContactDict(out), "location")
      && Get(ContactDict(r), "phone_number") == Get(ContactDict(out), "phone_number")
      && (forall k :: k != "candidate_name" && k != "job_title" && k != "contact_info" ==> Get(r, k) == Get(out, k))
  {
    assert BasicFilled(out, reply, nameReply, titleReply) == FallbackBasic(out, nameReply, titleReply);
    FallbackBasicKeeps(out, nameReply, titleReply);
    Profiled(out, m, reply, nameReply, titleReply);
  }

  /** A failed call does not reach the fallback: its "{}" parses to an
      empty dict, which blanks name, title and bio. */
  lemma BasicInfoCallFailure(out: Dict, m: ContactMatches, nameReply: Reply, titleReply: Reply)
    requires Shaped(out)
    ensures var r := BasicInfoStep(out, m, Failed, nameReply, titleReply);
      && Get(r, "candidate_name") == Some(VStr(""))
      && Get(r, "job_title") == Some(VStr(""))
      && Get(r, "bio") == Some(VStr(""))
  {
    PrimaryField(out, m, Failed, nameReply, titleReply, [], "candidate_name", "name");
    PrimaryField(out, m, Failed, nameReply, titleReply, [], "job_title", "job_title");
    PrimaryField(out, m, Failed, nameReply, titleReply, [], "bio", "bio");
  }

  /** The keys outside the skills group. */
  predicate NotSkillsKey(k: string) {
    k != "skills" && k != "professional_development" && k != "other_info"
  }

  /** A dict reply sets the three lists from `skills`,
      `professional_development` and `other`, each [] when missing. */
  lemma SkillsPrimary(out: Dict, reply: Reply, fallbackReply: Reply, j: Dict)
    requires Shaped(out) && LoadsReply(reply) == Some(VDict(j))
    ensures var r := SkillsStep(out, reply, fallbackReply);
      && Get(r, "skills") == Some(GetOr(j, "skills", VList([])))
      && Get(r, "professional_development") == Some(GetOr(j, "professional_development", VList([])))
      && Get(r, "other_info") == Some(GetOr(j, "other", VList([])))
      && (forall k :: NotSkillsKey(k) ==> Get(r, k) == Get(out, k))
  {
    assert SkillsStep(out, reply, fallbackReply) == SkillsFromJson(out, j);
  }

  /** Otherwise only the skills can change: to the pieces of a non-empty
      fallback answer; an empty answer (or a failed call) changes nothing. */
  lemma SkillsFallback(out: Dict, reply: Reply, fallbackReply: Reply)
    requires Shaped(out) && !(LoadsReply(reply).Some? && LoadsReply(reply).value.VDict?)
    ensures var r := SkillsStep(out, reply, fallbackReply);
      var t := QueryModel(fallbackReply, false);
      && (t == "" ==> r == out)
      && (t != "" ==> Get(r, "skills") == Some(VList(Strs(CommaSkills(t)))))
      && (forall k :: k != "skills" ==> Get(r, k) == Get(out, k))
  {
    var t := QueryModel(fallbackReply, false);
    assert SkillsStep(out, reply, fallbackReply) == SkillsFromAnswer(out, t);
    if t != "" {
      var r := PutField(out, "skills", VList(Strs(CommaSkills(t))));
      assert SkillsFromAnswer(out, t) == r;
      forall k | k != "skills" ensures Get(r, k) == Get(out, k) {
      }
    }
  }

  /** Stripping ignores one more leading whitespace character. */
  lemma StripLeadingSpace(c: char, s: string)
    requires IsSpace(c)
    ensures Strip([c] + s) == Strip(s)
  {
    assert ([c] + s)[1..] == s;
  }

  /** Every skill of a fallback answer is a non-empty, stripped piece
      without a comma, and there are no more of them than pieces. */
  lemma {:induction false} NonEmptyStrippedFacts(pieces: seq<string>)
    requires forall i :: 0 <= i < |pieces| ==> ',' !in pieces[i]
    ensures var r := NonEmptyStripped(pieces);
      && |r| <= |pieces|
      && forall i :: 0 <= i < |r| ==> r[i] != "" && Strip(r[i]) == r[i] && ',' !in r[i]
    decreases |pieces|
  {
    if pieces != [] {
      var last := pieces[|pieces| - 1];
      NonEmptyStrippedFacts(pieces[..|pieces| - 1]);
      StripIsPiece(last);
      StripStripped(Strip(last));
    }
  }

  lemma CommaSkillsFacts(text: string)
    ensures var r := CommaSkills(text);
      forall i :: 0 <= i < |r| ==> r[i] != "" && Strip(r[i]) == r[i] && ',' !in r[i]
  {
    NonEmptyStrippedFacts(Split(text, ','));
  }

  /** The skills are exactly the pieces once stripped, when none of those
      is empty. */
  lemma {:induction false} NonEmptyStrippedExact(pieces: seq<string>, skills: seq<string>)
    requires |pieces| == |skills|
    requires forall i :: 0 <= i < |pieces| ==> Strip(pieces[i]) == skills[i] && skills[i] != ""
    ensures NonEmptyStripped(pieces) == skills
    decreases |pieces|
  {
    if pieces != [] {
      var p0, s0 := pieces[..|pieces| - 1], skills[..|skills| - 1];
      assert forall i :: 0 <= i < |p0| ==> p0[i] == pieces[i] && s0[i] == skills[i];
      NonEmptyStrippedExact(p0, s0);
      assert skills == s0 + [skills[|skills| - 1]];
    }
  }

  /** ", ".join(skills) */
  function CommaJoin(skills: seq<string>): string
    requires skills != []
  {
    Join([skills[0]] + seq(|skills| - 1, i requires 0 <= i < |skills| - 1 => " " + skills[i + 1]), ',')
  }

  /** An answer written as the skills separated by ", " gives back
      exactly those skills. */
  lemma CommaSkillsRoundTrip(skills: seq<string>)
    requires skills != []
    requires forall i :: 0 <= i < |skills| ==> skills[i] != "" && Strip(skills[i]) == skills[i] && ',' !in skills[i]
    ensures CommaSkills(CommaJoin(skills)) == skills
  {
    var pieces := [skills[0]] + seq(|skills| - 1, i requires 0 <= i < |skills| - 1 => " " + skills[i + 1]);
    assert forall i :: 0 <= i < |pieces| ==> ',' !in pieces[i] by {
      forall i | 0 <= i < |pieces| ensures ',' !in pieces[i] {
        if i > 0 {
          assert pieces[i] == " " + skills[i];
        }
      }
    }
    SplitJoin(pieces, ',');
    forall i | 0 <= i < |pieces| ensures Strip(pieces[i]) == skills[i] {
      if i > 0 {
        assert pieces[i] == [' '] + skills[i];
        StripLeadingSpace(' ', skills[i]);
      }
    }
    NonEmptyStrippedExact(pieces, skills);
  }

  /** A pair the companies template can carry on one line. */
  predicate Renderable(company: string, role: string) {
    && company != "" && Strip(company) == company && Strip(role) == role
    && ',' !in company && ',' !in role && '\n' !in company && '\n' !in role
    && !Contains(Lower(company + ", " + role), "answer")
  }

  /** The template's line for a pair: "company, job title". */
  function Render(c: (string, string)): string {
    c.0 + ", " + c.1
  }

  /** Any company and role read from a line are non-empty (the company),
      stripped and free of commas, and the line was neither blank nor an
      "answer" line. */
  lemma LineCompanyFacts(line: string)
    ensures var c := LineCompany(line);
      c.Some? ==>
        && c.value.0 != "" && Strip(c.value.0) == c.value.0 && Strip(c.value.1) == c.value.1
        && ',' !in c.value.0 && ',' !in c.value.1
        && !Contains(Lower(line), "answer") && Strip(line) != ""
  {
    var entry := Split(line, ',');
    StripIsPiece(entry[0]);
    StripStripped(Strip(entry[0]));
    if |entry| > 1 {
      StripIsPiece(entry[1]);
      StripStripped(Strip(entry[1]));
    }
  }

  /** A rendered line reads back as its pair. */
  lemma LineCompanyRender(company: string, role: string)
    requires Renderable(company, role)
    ensures LineCompany(Render((company, role))) == Some((company, role))
  {
    var line := Render((company, role));
    assert Join([company, " " + role], ',') == line;
    SplitJoin([company, " " + role], ',');
    assert ' ' in " " + role;
    assert (" " + role) == [' '] + role;
    StripLeadingSpace(' ', role);
    assert line[0] == company[0];
    StripIsPiece(line);
  }

  lemma {:induction false} CompaniesInAppend(a: seq<string>, b: seq<string>)
    ensures CompaniesIn(a + b) == CompaniesIn(a) + CompaniesIn(b)
    decreases |b|
  {
    if b == [] {
      assert a + b == a;
    } else {
      var b0 := b[..|b| - 1];
      assert (a + b)[..|a + b| - 1] == a + b0;
      assert (a + b)[|a + b| - 1] == b[|b| - 1];
      CompaniesInAppend(a, b0);
    }
  }

  /** The companies of one more line. */
  lemma CompaniesInPrefix(lines: seq<string>, i: int)
    requires 0 <= i < |lines|
    ensures CompaniesIn(lines[..i + 1])
         == match LineCompany(lines[i])
            case Some(c) => CompaniesIn(lines[..i]) + [c]
            case None => CompaniesIn(lines[..i])
  {
    assert lines[..i + 1][..i] == lines[..i];
  }

  /** The drill-downs after one more line of the companies answer. */
  lemma DrillAllLine(start: Dict, lines: seq<string>, i: int, drill: (string, string) -> Reply)
    requires Shaped(start) && 0 <= i < |lines|
    ensures DrillAll(start, CompaniesIn(lines[..i + 1]), drill)
         == match LineCompany(lines[i])
            case Some(c) => DrillStep(DrillAll(start, CompaniesIn(lines[..i]), drill), drill(c.0, c.1))
            case None => DrillAll(start, CompaniesIn(lines[..i]), drill)
  {
    CompaniesInPrefix(lines, i);
    match LineCompany(lines[i])
    case Some(c) => DrillAllSnoc(start, CompaniesIn(lines[..i]), c, drill);
    case None =>
  }

  /** A line that names no company (blank, an "answer" line, or one with
      nothing before its comma) is skipped without affecting the others. */
  lemma SkippedLine(a: seq<string>, line: string, b: seq<string>)
    requires LineCompany(line).None?
    ensures CompaniesIn(a + [line] + b) == CompaniesIn(a) + CompaniesIn(b)
  {
    CompaniesInAppend(a + [line], b);
    CompaniesInAppend(a, [line]);
    assert [line][..0] == [];
  }

  lemma {:induction false} CompaniesInEach(lines: seq<string>, cs: seq<(string, string)>)
    requires |lines| == |cs|
    requires forall i :: 0 <= i < |lines| ==> LineCompany(lines[i]) == Some(cs[i])
    ensures CompaniesIn(lines) == cs
    decreases |lines|
  {
    if lines != [] {
      var n := |lines| - 1;
      var l0, c0 := lines[..n], cs[..n];
      forall i | 0 <= i < n ensures LineCompany(l0[i]) == Some(c0[i]) {
        assert l0[i] == lines[i] && c0[i] == cs[i];
      }
      CompaniesInEach(l0, c0);
      assert LineCompany(lines[n]) == Some(cs[n]);
      assert CompaniesIn(lines) == CompaniesIn(l0) + [cs[n]];
      assert cs == c0 + [cs[n]];
    }
  }

  /** An answer in the template's format, one rendered pair per line,
      gives back exactly its pairs, in order. */
  lemma CompaniesRoundTrip(cs: seq<(string, string)>)
    requires cs != []
    requires forall i :: 0 <= i < |cs| ==> Renderable(cs[i].0, cs[i].1)
    ensures CompaniesOf(Join(seq(|cs|, i requires 0 <= i < |cs| => Render(cs[i])), '\n')) == cs
  {
    var lines := seq(|cs|, i requires 0 <= i < |cs| => Render(cs[i]));
    forall i | 0 <= i < |lines| ensures '\n' !in lines[i] && LineCompany(lines[i]) == Some(cs[i]) {
      LineCompanyRender(cs[i].0, cs[i].1);
    }
    SplitJoin(lines, '\n');
    CompaniesInEach(lines, cs);
  }

  /** The parsed replies of the drill-downs, in order; replies that do not
      parse leave no trace. */
  function ParsedReplies(companies: seq<(string, string)>, drill: (string, string) -> Reply): seq<Value>
    decreases |companies|
  {
    if companies == [] then []
    else
      var c := companies[|companies| - 1];
      var init := ParsedReplies(companies[..|companies| - 1], drill);
      match LoadsReply(drill(c.0, c.1))
      case Some(v) => init + [v]
      case None => init
  }

  /** A drill-down appends its parsed reply ({} after a failed call) to
      the work list and changes nothing else; an unparsable reply changes
      nothing. */
  lemma DrillAppends(out: Dict, reply: Reply, items: seq<Value>)
    requires Shaped(out) && Get(out, "work_output") == Some(VList(items))
    ensures var r := DrillStep(out, reply);
      && (LoadsReply(reply).Some? ==> Get(r, "work_output") == Some(VList(items + [LoadsReply(reply).value])))
      && (LoadsReply(reply).None? ==> r == out)
      && (reply.Failed? ==> Get(r, "work_output") == Some(VList(items + [VDict([])])))
      && (forall k :: k != "work_output" ==> Get(r, k) == Get(out, k))
  {
  }

  /** The fallback work list: what was there, then the parsed reply of
      each company's drill-down, in the order of the answer. */
  lemma {:induction false} DrillAllAppends(out: Dict, companies: seq<(string, string)>, drill: (string, string) -> Reply, items: seq<Value>)
    requires Shaped(out) && Get(out, "work_output") == Some(VList(items))
    ensures var r := DrillAll(out, companies, drill);
      && Get(r, "work_output") == Some(VList(items + ParsedReplies(companies, drill)))
      && (forall k :: k != "work_output" ==> Get(r, k) == Get(out, k))
    decreases |companies|
  {
    if companies != [] {
      var init, c := companies[..|companies| - 1], companies[|companies| - 1];
      var reply := drill(c.0, c.1);
      DrillAllAppends(out, init, drill, items);
      var mid := DrillAll(out, init, drill);
      var before := items + ParsedReplies(init, drill);
      DrillAppends(mid, reply, before);
      var parsed := LoadsReply(reply);
      if parsed.Some? {
        assert ParsedReplies(companies, drill) == ParsedReplies(init, drill) + [parsed.value];
        assert items + ParsedReplies(companies, drill) == before + [parsed.value];
      } else {
        assert ParsedReplies(companies, drill) == ParsedReplies(init, drill);
      }
    } else {
      assert items + [] == items;
    }
  }

  /** The records extract_pydantic yields are the schema's records. */
  lemma ExtractedShape(schema: Schema, reply: Reply)
    ensures var r := Extracted(schema, reply);
      forall i :: 0 <= i < |r| ==> r[i].VDict? && KeysOf(r[i].entries) == FieldNames(schema)
  {
    if reply.Answered? && reply.parsed.Some? {
      ValidItemsShape(schema, Candidates(reply.parsed.value));
    }
  }

  /** Education and work lists are replaced by the extracted records;
      nothing else changes. */
  lemma RecordGroups(out: Dict, educationReply: Reply, workReply: Reply)
    requires Shaped(out)
    ensures var r := EducationStep(out, educationReply);
      && Get(r, "education") == Some(VList(Extracted(Education, educationReply)))
      && (forall k :: k != "education" ==> Get(r, k) == Get(out, k))
    ensures var r := WorkStep(out, workReply);
      && Get(r, "work_output") == Some(VList(Extracted(WorkExperience, workReply)))
      && (forall k :: k != "work_output" ==> Get(r, k) == Get(out, k))
  {
  }

  // ----------------------------------------------------------------------
  // The manager

  /** `ResumeManager`: the output record it fills, the resume text and the
      matches of the contact patterns in it. */
  class ResumeManager {
    var output: Dict
    const resume: string
    const matches: ContactMatches

    predicate Valid()
      reads this
    {
      Shaped(output)
    }

    /** `ResumeManager(...)` once the file's text is read: a deep copy of
        the template, so the module's template is not shared. */
    constructor (resume: string, matches: ContactMatches)
      ensures Valid() && output == OutputTemplate(PristineContact)
      ensures this.resume == resume && this.matches == matches
    {
      TemplateShaped();
      output := OutputTemplate(PristineContact);
      this.resume := resume;
      this.matches := matches;
    }

    method FallbackBasicInfo(nameReply: Reply, titleReply: Reply)
      requires Valid()
      modifies this
      ensures Valid() && output == FallbackBasic(old(output), nameReply, titleReply)
    {
      var name := QueryModel(nameReply, false);
      output := PutField(output, "candidate_name", VStr(if name != "" then Strip(name) else ""));
      var title := QueryModel(titleReply, false);
      output := PutField(output, "job_title", VStr(if title != "" then Strip(title) else ""));
    }

    /** The primary path of `extract_basic_info` once the reply is a dict. */
    method StoreBasicInfo(j: Dict)
      requires Valid()
      modifies this
      ensures Valid() && output == StoreBasicJson(old(output), j)
    {
      output := PutField(output, "candidate_name", GetOr(j, "name", VStr("")));
      output := PutField(output, "job_title", GetOr(j, "job_title", VStr("")));
      output := PutField(output, "bio", GetOr(j, "bio", VStr("")));
      if HasKey(j, "location") {
        output := SetContact(output, "location", GetOr(j, "location", VNull));
      }
      if HasKey(j, "phone") {
        output := SetContact(output, "phone_number", GetOr(j, "phone", VNull));
      }
    }

    method ExtractBasicInfo(reply: Reply, nameReply: Reply, titleReply: Reply)
      requires Valid()
      modifies this
      ensures Valid() && output == BasicInfoStep(old(output), matches, reply, nameReply, titleReply)
    {
      ghost var expected := BasicFilled(output, reply, nameReply, titleReply);
      var parsed := LoadsReply(reply);
      if parsed.Some? && parsed.value.VDict? {
        assert expected == StoreBasicJson(output, parsed.value.entries);
        StoreBasicInfo(parsed.value.entries);
      } else {
        assert expected == FallbackBasic(output, nameReply, titleReply);
        FallbackBasicInfo(nameReply, titleReply);
      }
      var out := output;
      assert out == expected;
      var emails := ExtractEmails(matches.emails);
      out := SetContact(out, "email_address", VList(Strs(emails)));
      var urls := ExtractGithubAndLinkedinUrls(matches.github, matches.linkedin);
      out := SetContact(out, "personal_urls", VList(Strs(urls)));
      output := out;
    }

    method ExtractSkills(reply: Reply, fallbackReply: Reply)
      requires Valid()
      modifies this
      ensures Valid() && output == SkillsStep(old(output), reply, fallbackReply)
    {
      var out := output;
      ghost var expected := SkillsStep(out, reply, fallbackReply);
      var parsed := LoadsReply(reply);
      if parsed.Some? && parsed.value.VDict? {
        var j := parsed.value.entries;
        assert expected == SkillsFromJson(out, j);
        out := PutField(out, "skills", GetOr(j, "skills", VList([])));
        out := PutField(out, "professional_development", GetOr(j, "professional_development", VList([])));
        out := PutField(out, "other_info", GetOr(j, "other", VList([])));
      } else {
        var text := QueryModel(fallbackReply, false);
        assert expected == SkillsFromAnswer(out, text);
        if text != "" {
          out := PutField(out, "skills", VList(Strs(CommaSkills(text))));
        }
      }
      output := out;
    }

    method ExtractEducation(reply: Reply)
      requires Valid()
      modifies this
      ensures Valid() && output == EducationStep(old(output), reply)
    {
      var records := ExtractPydantic(Education, reply);
      output := PutField(output, "education", VList(records));
    }

    method ExtractWorkExperience(reply: Reply)
      requires Valid()
      modifies this
      ensures Valid() && output == WorkStep(old(output), reply)
    {
      var records := ExtractPydantic(WorkExperience, reply);
      output := PutField(output, "work_output", VList(records));
    }

    /** The company and role only shape the prompt, whose reply is given. */
    method GetIntermediaryWorkExperience(company: string, role: string, reply: Reply)
      requires Valid()
      modifies this
      ensures Valid() && output == DrillStep(old(output), reply)
    {
      var parsed := LoadsReply(reply);
      if parsed.Some? {
        var work := Get(output, "work_output");
        if work.Some? && work.value.VList? {
          output := PutField(output, "work_output", VList(work.value.items + [parsed.value]));
        }
      }
    }

    method FallbackExtractWorkExperience(reply: Reply, drill: (string, string) -> Reply)
      requires Valid()
      modifies this
      ensures Valid() && output == FallbackWorkStep(old(output), reply, drill)
    {
      ghost var start := output;
      var lines := Split(QueryModel(reply, false), '\n');
      var i := 0;
      while i < |lines|
        invariant 0 <= i <= |lines|
        invariant Valid()
        invariant output == DrillAll(start, CompaniesIn(lines[..i]), drill)
      {
        ghost var target := DrillAll(start, CompaniesIn(lines[..i + 1]), drill);
        DrillAllLine(start, lines, i, drill);
        var line := lines[i];
        if !(Contains(Lower(line), "answer") || Strip(line) == "") {
          var entry := Split(line, ',');
          var company := Strip(entry[0]);
          if company != "" {
            var role := if |entry| > 1 then Strip(entry[1]) else "";
            LineCompanyNamed(line, entry, company, role);
            assert target == DrillStep(output, drill(company, role));
            GetIntermediaryWorkExperience(company, role, drill(company, role));
            assert output == target;
          } else {
            LineCompanySkipped(line);
            assert output == target;
          }
        } else {
          LineCompanySkipped(line);
          assert output == target;
        }
        i := i + 1;
      }
      assert lines[..i] == lines;
    }

    /** `process_file`, with the four groups run one after the other. */
    method ProcessFile(workReply: Reply, basicReply: Reply, nameReply: Reply, titleReply: Reply,
                       educationReply: Reply, skillsReply: Reply, skillsFallbackReply: Reply)
      requires Valid()
      modifies this
      ensures Valid()
      ensures output == SkillsStep(EducationStep(BasicInfoStep(WorkStep(old(output), workReply),
                                    matches, basicReply, nameReply, titleReply), educationReply),
                                   skillsReply, skillsFallbackReply)
    {
      ExtractWorkExperience(workReply);
      ExtractBasicInfo(basicReply, nameReply, titleReply);
      ExtractEducation(educationReply);
      ExtractSkills(skillsReply, skillsFallbackReply);
    }
  }

  // ----------------------------------------------------------------------
  // get_resume_content

  /** The index of the last `c` in `s`, or -1. */
  function LastIndex(s: string, c: char): (r: int)
    ensures -1 <= r < |s|
    ensures r >= 0 ==> s[r] == c
    ensures forall j :: r < j < |s| ==> s[j] != c
    decreases |s|
  {
    if s == [] then -1
    else if s[|s| - 1] == c then |s| - 1
    else LastIndex(s[..|s| - 1], c)
  }

  /** `os.path.splitext(path)[1]` with the POSIX separator: the path from
      its last dot, when that dot is in the file name and something other
      than dots comes before it in the name; otherwise "". */
  function SplitExt(path: string): (ext: string)
    ensures ext == "" || (|ext| <= |path| && ext == path[|path| - |ext|..] && ext[0] == '.'
                          && '.' !in ext[1..] && '/' !in ext)
  {
    var slash := LastIndex(path, '/');
    var dot := LastIndex(path, '.');
    if dot > slash && exists i :: slash + 1 <= i < dot && path[i] != '.' then
      assert forall j :: 0 <= j < |path[dot..]| ==> path[dot..][j] == path[dot + j];
      path[dot..]
    else ""
  }

  lemma LastIndexAt(s: string, c: char, k: int)
    requires -1 <= k < |s| && (k >= 0 ==> s[k] == c)
    requires forall j :: k < j < |s| ==> s[j] != c
    ensures LastIndex(s, c) == k
  {
  }

  /** Appending an extension `ext` to `base` puts the path's last dot at
      the start of `ext` and leaves its last `/` where it was in `base`. */
  lemma ExtensionTail(base: string, ext: string)
    requires ext != [] && ext[0] == '.' && '.' !in ext[1..] && '/' !in ext
    ensures LastIndex(base + ext, '.') == |base|
    ensures LastIndex(base + ext, '/') == LastIndex(base, '/')
    ensures (base + ext)[|base|..] == ext
  {
    var path := base + ext;
    forall j | |base| < j < |path|
      ensures path[j] != '.' && path[j] != '/'
    {
      assert path[j] == ext[j - |base|] && ext[j - |base|] in ext;
      assert ext[j - |base|] == ext[1..][j - |base| - 1];
    }
    assert path[|base|] == '.' && path[|base|] != '/';
    LastIndexAt(path, '.', |base|);
    var slash := LastIndex(base, '/');
    assert slash >= 0 ==> path[slash] == '/';
    LastIndexAt(path, '/', slash);
    assert path[|base|..] == ext;
  }

  /** No `c` occurs from position `i` on exactly when the last `c` is
      before `i`. */
  lemma LastIndexBefore(s: string, c: char, i: int)
    requires 0 <= i <= |s|
    ensures c !in s[i..] <==> LastIndex(s, c) < i
  {
    forall j | i <= j < |s|
      ensures s[j] == s[i..][j - i]
    {
    }
    assert forall j :: 0 <= j < |s[i..]| ==> s[i..][j] == s[i + j];
  }

  /** For every path whose file name ends in `ext` (a dot followed by no
      dot and no `/`) after some character that is not a dot, the
      extension is `ext`. */
  lemma SplitExtOfName(base: string, ext: string)
    requires ext != [] && ext[0] == '.' && '.' !in ext[1..] && '/' !in ext
    requires exists i :: 0 <= i < |base| && base[i] != '.' && '/' !in base[i..]
    ensures SplitExt(base + ext) == ext
  {
    ExtensionTail(base, ext);
    var i :| 0 <= i < |base| && base[i] != '.' && '/' !in base[i..];
    LastIndexBefore(base, '/', i);
    assert (base + ext)[i] == base[i];
  }

  /** When the file name before `ext` is all dots (a dot-file such as
      `.docx`, or a bare extension), no extension is split off. */
  lemma SplitExtOfDotName(base: string, ext: string)
    requires ext != [] && ext[0] == '.' && '.' !in ext[1..] && '/' !in ext
    requires forall i :: 0 <= i < |base| && '/' !in base[i..] ==> base[i] == '.'
    ensures SplitExt(base + ext) == ""
  {
    ExtensionTail(base, ext);
    var slash := LastIndex(base, '/');
    forall i | slash + 1 <= i < |base|
      ensures (base + ext)[i] == '.'
    {
      LastIndexBefore(base, '/', i);
    }
  }

  /** A name's last dot starts its extension; a leading dot does not, nor
      does a dot in a directory name. */
  lemma SplitExtExamples()
    ensures SplitExt("resume.PDF") == ".PDF"
    ensures SplitExt("cv/.docx") == ""
    ensures SplitExt("v1.2/resume") == ""
  {
    var p1 := "resume.PDF";
    assert p1[7] != '.' && p1[8] != '.' && p1[9] != '.';
    LastIndexAt(p1, '.', 6);
    assert forall j :: 0 <= j < |p1| ==> p1[j] != '/';
    LastIndexAt(p1, '/', -1);
    assert p1[0] != '.';
    assert p1[6..] == ".PDF";
    var p2 := "cv/.docx";
    assert p2[4] != '.' && p2[5] != '.' && p2[6] != '.' && p2[7] != '.';
    LastIndexAt(p2, '.', 3);
    assert p2[3] != '/' && p2[4] != '/' && p2[5] != '/' && p2[6] != '/' && p2[7] != '/';
    LastIndexAt(p2, '/', 2);
    var p3 := "v1.2/resume";
    assert forall j :: 5 <= j < |p3| ==> p3[j] != '/' && p3[j] != '.';
    LastIndexAt(p3, '/', 4);
    assert p3[3] != '.' && p3[4] != '.';
    LastIndexAt(p3, '.', 2);
  }

  /** The extension `get_resume_content` dispatches on: the one given,
      unless it is missing or empty, else the path's. */
  function ExtensionOf(path: string, extension: Option<string>): string {
    if extension.None? || extension.value == "" then SplitExt(path) else extension.value
  }

  predicate HasText(t: string) { t != "" }

  predicate NotBlank(t: string) { Strip(t) != "" }

  /** Each text followed by a newline. */
  function Lines(texts: seq<string>): string
    decreases |texts|
  {
    if texts == [] then "" else Lines(texts[..|texts| - 1]) + texts[|texts| - 1] + "\n"
  }

  /** `get_resume_content(path, extension)` given what the reader for the
      extension yields: the texts of the PDF pages or of the DOCX
      paragraphs, or the exception the reader raises. Pages without text
      and blank paragraphs are skipped; the result is stripped. */
  function ResumeContent(path: string, extension: Option<string>, decoded: Result<seq<string>>): Result<string> {
    var ext := ExtensionOf(path, extension);
    var kind := Lower(ext);
    if kind == ".pdf" then
      match decoded
      case Raised(e) => Raised(e)
      case Ok(pages) => Ok(Strip(Lines(Filter(pages, HasText))))
    else if kind == ".docx" || kind == ".doc" then
      match decoded
      case Raised(e) => Raised(e)
      case Ok(paragraphs) => Ok(Strip(Lines(Filter(paragraphs, NotBlank))))
    else Raised(ValueError("Unsupported file type: " + ext))
  }

  lemma LinesAppend(texts: seq<string>, t: string)
    ensures Lines(texts + [t]) == Lines(texts) + t + "\n"
  {
    assert (texts + [t])[..|texts|] == texts;
  }

  /** The kept texts of one more element, each followed by a newline. */
  lemma LinesFilterStep(s: seq<string>, i: int, p: string -> bool)
    requires 0 <= i < |s|
    ensures Lines(Filter(s[..i + 1], p))
         == if p(s[i]) then Lines(Filter(s[..i], p)) + s[i] + "\n" else Lines(Filter(s[..i], p))
  {
    assert s[..i + 1][..i] == s[..i];
    if p(s[i]) {
      LinesAppend(Filter(s[..i], p), s[i]);
    }
  }

  method GetResumeContent(path: string, extension: Option<string>, decoded: Result<seq<string>>) returns (r: Result<string>)
    ensures r == ResumeContent(path, extension, decoded)
  {
    ghost var expected := ResumeContent(path, extension, decoded);
    var ext := if extension.None? || extension.value == "" then SplitExt(path) else extension.value;
    assert ext == ExtensionOf(path, extension);
    var kind := Lower(ext);
    var content := "";
    if kind == ".pdf" {
      if decoded.Raised? {
        return Raised(decoded.error);
      }
      var pages := decoded.value;
      assert expected == Ok(Strip(Lines(Filter(pages, HasText))));
      var i := 0;
      while i < |pages|
        invariant 0 <= i <= |pages|
        invariant content == Lines(Filter(pages[..i], HasText))
      {
        LinesFilterStep(pages, i, HasText);
        if pages[i] != "" {
          content := content + pages[i] + "\n";
        }
        i := i + 1;
      }
      assert pages[..i] == pages;
    } else if kind == ".docx" || kind == ".doc" {
      if decoded.Raised? {
        return Raised(decoded.error);
      }
      var paragraphs := decoded.value;
      assert expected == Ok(Strip(Lines(Filter(paragraphs, NotBlank))));
      var i := 0;
      while i < |paragraphs|
        invariant 0 <= i <= |paragraphs|
        invariant content == Lines(Filter(paragraphs[..i], NotBlank))
      {
        LinesFilterStep(paragraphs, i, NotBlank);
        if Strip(paragraphs[i]) != "" {
          content := content + paragraphs[i] + "\n";
        }
        i := i + 1;
      }
      assert paragraphs[..i] == paragraphs;
    } else {
      return Raised(ValueError("Unsupported file type: " + ext));
    }
    return Ok(Strip(content));
  }

  /** Only .pdf, .docx and .doc, in any case, are read; any other extension
      raises ValueError before the file is opened, and a reader's exception
      is raised again. A text that is read is stripped. */
  lemma ContentDispatch(path: string, extension: Option<string>, decoded: Result<seq<string>>)
    ensures var ext := ExtensionOf(path, extension);
      var kind := Lower(ext);
      var r := ResumeContent(path, extension, decoded);
      && (kind != ".pdf" && kind != ".docx" && kind != ".doc" ==> r == Raised(ValueError("Unsupported file type: " + ext)))
      && ((kind == ".pdf" || kind == ".docx" || kind == ".doc") && decoded.Raised? ==> r == Raised(decoded.error))
      && (r.Ok? ==> r.value == [] || (!IsSpace(r.value[0]) && !IsSpace(r.value[|r.value| - 1])))
  {
  }

  /** Extensions that differ only in case read the same text. */
  lemma ExtensionCaseInsensitive(path: string, e1: string, e2: string, decoded: Result<seq<string>>)
    requires e1 != "" && e2 != "" && Lower(e1) == Lower(e2)
    ensures ResumeContent(path, Some(e1), decoded).Ok? == ResumeContent(path, Some(e2), decoded).Ok?
    ensures ResumeContent(path, Some(e1), decoded).Ok? ==> ResumeContent(path, Some(e1), decoded) == ResumeContent(path, Some(e2), decoded)
  {
  }

  /** A blank paragraph of a Word file leaves no trace in the text. */
  lemma BlankParagraphSkipped(path: string, ext: string, a: seq<string>, p: string, b: seq<string>)
    requires ext != "" && (Lower(ext) == ".docx" || Lower(ext) == ".doc") && Strip(p) == ""
    ensures ResumeContent(path, Some(ext), Ok(a + [p] + b)) == ResumeContent(path, Some(ext), Ok(a + b))
  {
    FilterAppend(a + [p], b, NotBlank);
    FilterAppend(a, [p], NotBlank);
    FilterAppend(a, b, NotBlank);
    assert [p][..0] == [];
  }

  /** A PDF page without text leaves no trace either. */
  lemma EmptyPageSkipped(path: string, ext: string, a: seq<string>, b: seq<string>)
    requires ext != "" && Lower(ext) == ".pdf"
    ensures ResumeContent(path, Some(ext), Ok(a + [""] + b)) == ResumeContent(path, Some(ext), Ok(a + b))
  {
    FilterAppend(a + [""], b, HasText);
    FilterAppend(a, [""], HasText);
    FilterAppend(a, b, HasText);
    assert [""][..0] == [];
  }
}
