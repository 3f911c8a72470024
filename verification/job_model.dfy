/**
 * The `Job` document: enums, defaults, required fields and the upper-casing
 * the schema applies when a document is built from its input fields.
 */
module JobModel {
  import opened Wrappers

  datatype Priority = LOW | MEDIUM | HIGH
  datatype Status = NEW | ASSIGNED | FIXING | DONE | REWORK

  /** An entry of `parts`: a reference to a part request. */
  datatype PartRef = PartRef(prqid: Option<string>)
  /** An entry of `problems`. */
  datatype Problem = Problem(probid: Option<string>, probDesc: Option<string>)

  /** A `Job` document once built and validated. `approved` is tri-state: None is null. */
  datatype Job = Job(
    jobid: string,
    client: string,
    imei: string,
    jobno: string,
    brand: string,
    model: string,
    parts: seq<PartRef>,
    problems: seq<Problem>,
    priority: Priority,
    status: Status,
    billed: bool,
    approved: Option<bool>,
    credited: bool,
    cancelled: bool,
    assignee: Option<string>,
    createdBy: string,
    modifiedBy: string)

  /** The fields a `Job` is built from; a None field was not supplied. */
  datatype JobInput = JobInput(
    jobid: Option<string>,
    client: Option<string>,
    imei: Option<string>,
    jobno: Option<string>,
    brand: Option<string>,
    model: Option<string>,
    parts: seq<PartRef>,
    problems: seq<Problem>,
    priority: Option<string>,
    status: Option<string>,
    billed: Option<bool>,
    approved: Option<bool>,
    credited: Option<bool>,
    cancelled: Option<bool>,
    assignee: Option<string>,
    createdBy: Option<string>,
    modifiedBy: Option<string>)

  function UpperChar(c: char): char
  {
    if 'a' <= c <= 'z' then (c as int - 32) as char else c
  }

  /** `toUpperCase` on ASCII letters. */
  function Upper(s: string): (r: string)
    ensures |r| == |s| && forall i :: 0 <= i < |s| ==> r[i] == UpperChar(s[i])
    ensures IsUpper(r)
  {
    seq(|s|, i requires 0 <= i < |s| => UpperChar(s[i]))
  }

  /** No lower-case ASCII letter. */
  predicate IsUpper(s: string)
  {
    forall i :: 0 <= i < |s| ==> !('a' <= s[i] <= 'z')
  }

  /** Upper-casing leaves no lower-case letter and is idempotent. */
  lemma UpperIsUpper(s: string)
    ensures Upper(Upper(s)) == Upper(s)
    ensures IsUpper(s) ==> Upper(s) == s
  {
  }

  function PriorityName(p: Priority): string
  {
    match p
    case LOW => "LOW"
    case MEDIUM => "MEDIUM"
    case HIGH => "HIGH"
  }

  function StatusName(s: Status): string
  {
    match s
    case NEW => "NEW"
    case ASSIGNED => "ASSIGNED"
    case FIXING => "FIXING"
    case DONE => "DONE"
    case REWORK => "REWORK"
  }

  /** The enum check on an (already upper-cased) priority. */
  function ParsePriority(s: string): (p: Option<Priority>)
    ensures p.Some? ==> PriorityName(p.value) == s
    ensures p.None? ==> forall q: Priority :: PriorityName(q) != s
  {
    if s == "LOW" then Some(LOW)
    else if s == "MEDIUM" then Some(MEDIUM)
    else if s == "HIGH" then Some(HIGH)
    else None
  }

  /** The enum check on an (already upper-cased) status. */
  function ParseStatus(s: string): (st: Option<Status>)
    ensures st.Some? ==> StatusName(st.value) == s
    ensures st.None? ==> forall t: Status :: StatusName(t) != s
  {
    if s == "NEW" then Some(NEW)
    else if s == "ASSIGNED" then Some(ASSIGNED)
    else if s == "FIXING" then Some(FIXING)
    else if s == "DONE" then Some(DONE)
    else if s == "REWORK" then Some(REWORK)
    else None
  }

  /** `s` spells `name` up to the case of its ASCII letters. */
  predicate SameUpToCase(s: string, name: string)
  {
    |s| == |name| && forall i :: 0 <= i < |s| ==> UpperChar(s[i]) == name[i]
  }

  /**
   * Status input is case-insensitive: a string is accepted as status `t`
   * exactly when it spells the name of `t` in any mixture of cases.
   */
  lemma StatusCaseInsensitive(s: string, t: Status)
    ensures ParseStatus(Upper(s)) == Some(t) <==> SameUpToCase(s, StatusName(t))
  {
    if SameUpToCase(s, StatusName(t)) {
      assert Upper(s) == StatusName(t);
    }
  }

  /** Required strings fail validation when missing or empty. */
  predicate Missing(s: Option<string>)
  {
    s.None? || s.value == ""
  }

  /** An optional upper-cased string with a default. */
  function UpperOr(s: Option<string>, default: string): string
  {
    if s.Some? then Upper(s.value) else default
  }

  /** A supplied enum value that is not in the enum once upper-cased. */
  predicate BadPriority(s: Option<string>)
  {
    s.Some? && ParsePriority(Upper(s.value)).None?
  }

  predicate BadStatus(s: Option<string>)
  {
    s.Some? && ParseStatus(Upper(s.value)).None?
  }

  /** The input passes every validator of the schema. */
  predicate Accepted(input: JobInput)
  {
    && !Missing(input.jobid) && !Missing(input.client) && !Missing(input.brand) && !Missing(input.model)
    && !Missing(input.createdBy) && !Missing(input.modifiedBy)
    && !BadPriority(input.priority) && !BadStatus(input.status)
  }

  /** The paths whose validators fail for the input. */
  function Violations(input: JobInput): (errors: set<string>)
    ensures errors == {} <==> Accepted(input)
    ensures "status" in errors <==> BadStatus(input.status)
    ensures "priority" in errors <==> BadPriority(input.priority)
  {
    (if Missing(input.jobid) then {"jobid"} else {}) +
    (if Missing(input.client) then {"client"} else {}) +
    (if Missing(input.brand) then {"brand"} else {}) +
    (if Missing(input.model) then {"model"} else {}) +
    (if Missing(input.createdBy) then {"createdBy"} else {}) +
    (if Missing(input.modifiedBy) then {"modifiedBy"} else {}) +
    (if BadPriority(input.priority) then {"priority"} else {}) +
    (if BadStatus(input.status) then {"status"} else {})
  }

  /** What every stored job satisfies: required strings non-empty and the upper-cased fields upper case. */
  predicate Valid(j: Job)
  {
    && j.jobid != "" && j.client != "" && j.brand != "" && j.model != ""
    && j.createdBy != "" && j.modifiedBy != ""
    && IsUpper(j.client) && IsUpper(j.imei) && IsUpper(j.jobno) && IsUpper(j.brand) && IsUpper(j.model)
    && IsUpper(j.createdBy) && IsUpper(j.modifiedBy)
    && (j.assignee.Some? ==> IsUpper(j.assignee.value))
  }

  /** The document an accepted input becomes. */
  function Build(input: JobInput): Job
    requires Accepted(input)
  {
    Job(
      input.jobid.value,
      Upper(input.client.value),
      UpperOr(input.imei, ""),
      UpperOr(input.jobno, ""),
      Upper(input.brand.value),
      Upper(input.model.value),
      input.parts,
      input.problems,
      if input.priority.Some? then ParsePriority(Upper(input.priority.value)).value else MEDIUM,
      if input.status.Some? then ParseStatus(Upper(input.status.value)).value else NEW,
      if input.billed.Some? then input.billed.value else false,
      input.approved,
      if input.credited.Some? then input.credited.value else false,
      if input.cancelled.Some? then input.cancelled.value else false,
      if input.assignee.Some? then Some(Upper(input.assignee.value)) else None,
      Upper(input.createdBy.value),
      Upper(input.modifiedBy.value))
  }

  /**
   * Building and validating a `Job` from its input: upper-case the marked
   * strings, fill the defaults and reject with the failing paths.
   */
  function NewJob(input: JobInput): (r: Result<Job, set<string>>)
    ensures r.Err? <==> Violations(input) != {}
    ensures r.Err? ==> r.error == Violations(input)
    ensures r.Ok? ==> Valid(r.value)
    // `jobid` is stored as given; the other strings are upper-cased
    ensures r.Ok? ==>
      && r.value.jobid == input.jobid.value && r.value.client == Upper(input.client.value)
      && r.value.brand == Upper(input.brand.value) && r.value.model == Upper(input.model.value)
      && r.value.createdBy == Upper(input.createdBy.value) && r.value.modifiedBy == Upper(input.modifiedBy.value)
      && r.value.parts == input.parts && r.value.problems == input.problems
    ensures r.Ok? && input.imei.Some? ==> r.value.imei == Upper(input.imei.value)
    ensures r.Ok? && input.jobno.Some? ==> r.value.jobno == Upper(input.jobno.value)
    ensures r.Ok? ==> r.value.assignee == (if input.assignee.Some? then Some(Upper(input.assignee.value)) else None)
    ensures r.Ok? && input.billed.Some? ==> r.value.billed == input.billed.value
    ensures r.Ok? && input.credited.Some? ==> r.value.credited == input.credited.value
    ensures r.Ok? && input.cancelled.Some? ==> r.value.cancelled == input.cancelled.value
  {
    if !Accepted(input) then Err(Violations(input)) else Ok(Build(input))
  }

  /**
   * The schema's defaults: status NEW, priority MEDIUM, the three flags
   * false, approval null and empty imei and jobno; a supplied status or
   * priority is stored as its upper-cased name.
   */
  lemma NewJobDefaults(input: JobInput)
    requires NewJob(input).Ok?
    ensures var j := NewJob(input).value;
      && (input.status.None? ==> j.status == NEW)
      && (input.status.Some? ==> StatusName(j.status) == Upper(input.status.value))
      && (input.priority.None? ==> j.priority == MEDIUM)
      && (input.priority.Some? ==> PriorityName(j.priority) == Upper(input.priority.value))
      && j.approved == input.approved
      && (input.billed.None? ==> !j.billed)
      && (input.credited.None? ==> !j.credited)
      && (input.cancelled.None? ==> !j.cancelled)
      && (input.imei.None? ==> j.imei == "")
      && (input.jobno.None? ==> j.jobno == "")
  {
  }
}
