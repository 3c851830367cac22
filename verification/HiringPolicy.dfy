// The hiring policy written as code: what one CV's printed symbols deserve, against the reference
// tables and the other CVs of the batch.

module HiringPolicy {
  import opened Options
  import opened RuleKit
  import opened Texts

  const REAPPLY_DAYS := 30 * 6
  const AVAILABILITY_DAYS := 90

  datatype Status = Open | Closed | OnHold

  /** A row of the positions sheet; `requiredSkills` is its printed cell. */
  datatype Position = Position(code: string, title: string, status: Status, minYears: int, salaryCap: int,
                               requiredSkills: string)

  /** A row of the applicant history; days are day numbers. */
  datatype HistoryRow = HistoryRow(email: string, lastApplied: int, doNotRehire: string)

  datatype Sources = Sources(positions: seq<Position>, history: seq<HistoryRow>, screening: int)

  /** One CV's values as the reader prints them; `availableFrom` is a day number. */
  datatype Symbols = Symbols(candidateId: string, fullName: string, email: Option<string>, positionCode: string,
                             yearsExperience: string, expectedSalary: string, skills: string,
                             availableFrom: int)

  datatype Reason =
    | MissingData | UnknownPosition | PositionClosed | PositionOnHold | BelowMinYears | SalaryOverCap
    | MissingSkill | DoNotRehire | RecentReapply | DuplicateCandidate | LateAvailability

  datatype Decision = Interview | Review | Reject

  const REVIEW: set<Reason> :=
    {MissingData, UnknownPosition, PositionOnHold, SalaryOverCap, RecentReapply, DuplicateCandidate,
     LateAvailability}

  /** The row a code finds: of rows with the same code, the last. */
  function ByCode(positions: seq<Position>, code: string): Option<Position> {
    if positions == [] then None
    else
      var row := positions[|positions| - 1];
      if row.code == code then Some(row) else ByCode(positions[..|positions| - 1], code)
  }

  function When(condition: bool, reason: Reason): seq<Reason> {
    if condition then [reason] else []
  }

  function Email(symbols: Symbols): string {
    match symbols.email
    case None => ""
    case Some(email) => Lower(email)
  }

  function Offered(symbols: Symbols): set<string> {
    var parts := Split(symbols.skills, ',');
    set i | 0 <= i < |parts| :: Lower(Strip(parts[i]))
  }

  function Required(position: Position): seq<string> {
    Stripped(Split(position.requiredSkills, ';'))
  }

  predicate LacksASkill(symbols: Symbols, position: Position) {
    exists i :: 0 <= i < |Required(position)| && Lower(Required(position)[i]) !in Offered(symbols)
  }

  /** int() of the two printed numbers does not raise. */
  predicate Readable(symbols: Symbols) {
    ReadsAsInt(symbols.yearsExperience) && ReadsAsInt(symbols.expectedSalary)
  }

  function PositionReasons(symbols: Symbols, position: Position): seq<Reason>
    requires Readable(symbols)
  {
    When(position.status == Closed, PositionClosed)
    + When(position.status == OnHold, PositionOnHold)
    + When(IntOf(symbols.yearsExperience) < position.minYears, BelowMinYears)
    + When(IntOf(symbols.expectedSalary) > position.salaryCap, SalaryOverCap)
    + When(LacksASkill(symbols, position), MissingSkill)
  }

  predicate InHistory(email: string, h: HistoryRow) {
    Lower(h.email) == email
  }

  predicate Barred(history: seq<HistoryRow>, email: string) {
    exists h :: h in history && InHistory(email, h) && h.doNotRehire == "yes"
  }

  predicate Recent(history: seq<HistoryRow>, email: string, limit: int) {
    exists h :: h in history && InHistory(email, h) && h.lastApplied >= limit
  }

  predicate Shared(batch: seq<Symbols>, email: string) {
    exists o :: o in batch && Email(o) == email
  }

  function EmailReasons(email: string, sources: Sources, batch: seq<Symbols>): seq<Reason> {
    if email == "" then []
    else
      When(Barred(sources.history, email), DoNotRehire)
      + When(Recent(sources.history, email, sources.screening - REAPPLY_DAYS), RecentReapply)
      + When(Shared(batch, email), DuplicateCandidate)
  }

  /** The reasons in the order the policy finds them. */
  function Reasons(symbols: Symbols, sources: Sources, batch: seq<Symbols>): seq<Reason>
    requires Readable(symbols)
  {
    var position := ByCode(sources.positions, symbols.positionCode);
    When(symbols.fullName == "" || symbols.email in {None, Some("")} || symbols.positionCode == "", MissingData)
    + When(symbols.positionCode != "" && position == None, UnknownPosition)
    + (match position case None => [] case Some(p) => PositionReasons(symbols, p))
    + EmailReasons(Email(symbols), sources, batch)
    + When(symbols.availableFrom > sources.screening + AVAILABILITY_DAYS, LateAvailability)
  }

  /** A person beats a refusal, and a refusal beats an interview. */
  function Decide(reasons: seq<Reason>): Decision {
    if exists r :: r in reasons && r in REVIEW then Review
    else if reasons != [] then Reject
    else Interview
  }

  function Outcome(symbols: Symbols, sources: Sources, batch: seq<Symbols>): Decision
    requires Readable(symbols)
  {
    Decide(Reasons(symbols, sources, batch))
  }
}
