// The record model of src/entry.rs and the interval arithmetic of src/sqlite.rs.
module Records {

  datatype Option<+T> = None | Some(value: T)

  // Epoch milliseconds: a 64-bit signed integer. Nothing below adds or subtracts two of
  // them, so the range is all that matters; the largest value doubles as "open-ended".
  const MS_MAX := 0x7FFF_FFFF_FFFF_FFFF

  type Ms = x: int | -MS_MAX - 1 <= x <= MS_MAX

  datatype Kind =
    | Decision | Runbook | IncidentSummary | ServiceTopology | KnownFailureMode
    | RemediationPattern | ProjectConvention | AgentLesson | ResourceSummary | Persona
    | Protocol | Reminder | Memory | Skill | Chunk | Org | Engagement | Product
    | SolutionStack | Person | Framework | Site

  function AsStr(kind: Kind): string {
    match kind
    case Decision => "decision"
    case Runbook => "runbook"
    case IncidentSummary => "incident_summary"
    case ServiceTopology => "service_topology"
    case KnownFailureMode => "known_failure_mode"
    case RemediationPattern => "remediation_pattern"
    case ProjectConvention => "project_convention"
    case AgentLesson => "agent_lesson"
    case ResourceSummary => "resource_summary"
    case Persona => "persona"
    case Protocol => "protocol"
    case Reminder => "reminder"
    case Memory => "memory"
    case Skill => "skill"
    case Chunk => "chunk"
    case Org => "org"
    case Engagement => "engagement"
    case Product => "product"
    case SolutionStack => "solution_stack"
    case Person => "person"
    case Framework => "framework"
    case Site => "site"
  }

  // Three short names of older versions are read as the kinds they stood for.
  function FromStr(text: string): Option<Kind> {
    if text == "decision" then Some(Decision)
    else if text == "runbook" then Some(Runbook)
    else if text == "incident_summary" || text == "incident" then Some(IncidentSummary)
    else if text == "service_topology" then Some(ServiceTopology)
    else if text == "known_failure_mode" then Some(KnownFailureMode)
    else if text == "remediation_pattern" then Some(RemediationPattern)
    else if text == "project_convention" || text == "convention" then Some(ProjectConvention)
    else if text == "agent_lesson" || text == "lesson" then Some(AgentLesson)
    else if text == "resource_summary" then Some(ResourceSummary)
    else if text == "persona" then Some(Persona)
    else if text == "protocol" then Some(Protocol)
    else if text == "reminder" then Some(Reminder)
    else if text == "memory" then Some(Memory)
    else if text == "skill" then Some(Skill)
    else if text == "chunk" then Some(Chunk)
    else if text == "org" then Some(Org)
    else if text == "engagement" then Some(Engagement)
    else if text == "product" then Some(Product)
    else if text == "solution_stack" then Some(SolutionStack)
    else if text == "person" then Some(Person)
    else if text == "framework" then Some(Framework)
    else if text == "site" then Some(Site)
    else None
  }

  // A kind as this version reads it, and as it writes it back: one that it does not know comes
  // back as a plain memory.
  function Respelled(text: string): string {
    match FromStr(text)
    case Some(kind) => AsStr(kind)
    case None => AsStr(Memory)
  }

  predicate IsEntity(kind: Kind) {
    kind.Org? || kind.Engagement? || kind.Product? || kind.SolutionStack? || kind.Person? || kind.Framework?
      || kind.Site?
  }

  lemma EntityRoundTrip(kind: Kind)
    requires IsEntity(kind)
    ensures FromStr(AsStr(kind)) == Some(kind)
  {
  }

  lemma RecordRoundTrip(kind: Kind)
    requires !IsEntity(kind)
    ensures FromStr(AsStr(kind)) == Some(kind)
  {
  }

  // A kind survives being written and read.
  lemma KindRoundTrip(kind: Kind)
    ensures FromStr(AsStr(kind)) == Some(kind)
  {
    if IsEntity(kind) { EntityRoundTrip(kind); } else { RecordRoundTrip(kind); }
  }

  // The name of a kind this version has.
  predicate IsKindName(text: string) {
    exists kind :: AsStr(kind) == text
  }

  // A stored text is written back as it is exactly when it is such a name; an older alias and a
  // name only a newer version has are not.
  lemma RespelledIff(text: string)
    ensures Respelled(text) == text <==> IsKindName(text)
  {
    if IsKindName(text) {
      var kind :| AsStr(kind) == text;
      KindRoundTrip(kind);
    }
  }

  lemma IncidentIsRespelled()
    ensures Respelled("incident") == "incident_summary" && !IsKindName("incident")
  {
    assert |"incident"| != |"incident_summary"|;
    RespelledIff("incident");
  }

  lemma RespelledTwice(text: string)
    ensures Respelled(Respelled(text)) == Respelled(text)
  {
    KindRoundTrip(if FromStr(text).Some? then FromStr(text).value else Memory);
  }

  // One version of a record, on two time axes: valid time (true in the world) and system
  // time (believed by the store). Its kind is the text of the row's column; entries that callers
  // hand over carry the name of a kind.
  datatype Entry = Entry(
    uri: string, kind: string, namespace: string, title: string, body: string,
    tags: seq<string>, importance: int, dedupKey: string, createdMs: Ms,
    validFrom: Ms, validTo: Option<Ms>, systemFrom: Ms, systemTo: Option<Ms>,
    scope: string)

  datatype Edge = Edge(fromUri: string, toUri: string, rel: string)

  // Decoding a row: only the kind can come back different from what is stored.
  function ReadBack(e: Entry): Entry {
    e.(kind := Respelled(e.kind))
  }

  // A version's content: everything a reader gets except the four time fields.
  function Content(e: Entry): Entry {
    ReadBack(e).(validFrom := 0, validTo := None, systemFrom := 0, systemTo := None)
  }

  predicate Open(e: Entry) {
    e.systemTo.None?
  }

  // Interval arithmetic reads a missing end as the largest timestamp ...
  function Vto(v: Option<Ms>): Ms {
    if v.Some? then v.value else MS_MAX
  }

  predicate Overlap(a: Entry, b: Entry) {
    a.validFrom < Vto(b.validTo) && b.validFrom < Vto(a.validTo)
  }

  // ... whereas the slices of the SQL queries read it as unbounded.
  predicate Covers(e: Entry, v: Ms) {
    e.validFrom <= v && (e.validTo.None? || v < e.validTo.value)
  }

  predicate Believed(e: Entry, asOf: Ms) {
    e.systemFrom <= asOf && (e.systemTo.None? || asOf < e.systemTo.value)
  }

  predicate SameRecord(a: Entry, b: Entry) {
    a.dedupKey == b.dedupKey && a.scope == b.scope
  }

  // The interval check of `put`: a bounded interval must not be empty or inverted.
  predicate ValidInterval(e: Entry) {
    e.validTo.Some? ==> e.validFrom < e.validTo.value
  }

  // The text of a version that keyword search sees.
  function JoinTags(tags: seq<string>): string {
    if tags == [] then "" else if |tags| == 1 then tags[0] else tags[0] + " " + JoinTags(tags[1..])
  }

  function IndexedText(e: Entry): string {
    e.title + " " + e.body + " " + JoinTags(e.tags)
  }

  lemma SubsetSize<T>(a: set<T>, b: set<T>)
    requires a <= b
    ensures |a| <= |b|
  {
    assert b == a + (b - a);
  }
}
