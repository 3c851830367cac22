// The generator of mock CVs. Every candidate is built clean and then given its category's trap; the
// random stream is an oracle that may answer anything within the range it is asked for.

module HiringMock {
  import opened Options
  import opened RuleKit
  import opened Texts
  import opened HiringPolicy

  datatype Category =
    | CLEAN | MISSING_EMAIL | UNKNOWN_POSITION | POSITION_CLOSED | POSITION_ON_HOLD | BELOW_MIN_YEARS
    | SALARY_OVER_CAP | MISSING_SKILL | DO_NOT_REHIRE | RECENT_REAPPLY | DUPLICATE_CANDIDATE
    | LATE_AVAILABILITY | INJECTED_TEXT | SPANISH_LABELS | SCANNED

  /** One line of the category table: a trap, how many CVs carry it, what the policy owes them. */
  datatype Line = Line(category: Category, count: nat, expected: Decision)

  datatype Role = Role(company: string, title: string, from: int, to: int)

  datatype Candidate = Candidate(fileId: string, category: Category, fullName: string, email: Option<string>,
                                 positionCode: string, years: int, salary: int, skills: seq<string>,
                                 available: int, experience: seq<Role>)

  /** The generator's constant tables. */
  datatype Tables = Tables(positions: seq<Position>, extraSkills: map<string, seq<string>>,
                           unknownCodes: seq<string>, companies: seq<string>,
                           firstNames: seq<string>, lastNames: seq<string>,
                           screening: int, screeningYear: int)

  function SourcesOf(t: Tables, history: seq<HistoryRow>): Sources {
    Sources(t.positions, history, t.screening)
  }

  function SymbolsOf(c: Candidate): Symbols {
    Symbols(c.fileId, c.fullName, c.email, c.positionCode, Str(c.years), Str(c.salary), Join(c.skills, ','),
            c.available)
  }

  // ----- what the tables must be for the traps to work

  function SkillPool(t: Tables, p: Position): seq<string>
    requires p.code in t.extraSkills
  {
    Required(p) + t.extraSkills[p.code]
  }

  ghost predicate PositionOk(t: Tables, p: Position) {
    && p.code != "" && p.minYears >= 1
    && Required(p) != []
    && p.code in t.extraSkills && |t.extraSkills[p.code]| >= 3
    && AllItems(SkillPool(t, p), ',')
    && (forall e :: e in t.extraSkills[p.code] ==> e !in Required(p))
    && forall s, r :: s in SkillPool(t, p) && r in Required(p) && s != r ==> Lower(s) != Lower(r)
  }

  ghost predicate HasStatus(t: Tables, status: Status) {
    exists p :: p in t.positions && p.status == status
  }

  ghost predicate TablesOk(t: Tables) {
    && (forall p :: p in t.positions ==> PositionOk(t, p))
    && (forall p, q :: p in t.positions && q in t.positions && p.code == q.code ==> p == q)
    && HasStatus(t, Open) && HasStatus(t, Closed) && HasStatus(t, OnHold)
    && t.unknownCodes != []
    && (forall code :: code in t.unknownCodes ==> code != "" && forall p :: p in t.positions ==> p.code != code)
    && |t.companies| >= 3
    && |t.lastNames| >= 2
  }

  function Total(plan: seq<Line>): nat {
    if plan == [] then 0 else Total(plan[..|plan| - 1]) + plan[|plan| - 1].count
  }

  function Target(category: Category): Decision {
    match category
    case CLEAN => Interview
    case MISSING_EMAIL => Review
    case UNKNOWN_POSITION => Review
    case POSITION_CLOSED => Reject
    case POSITION_ON_HOLD => Review
    case BELOW_MIN_YEARS => Reject
    case SALARY_OVER_CAP => Review
    case MISSING_SKILL => Reject
    case DO_NOT_REHIRE => Reject
    case RECENT_REAPPLY => Review
    case DUPLICATE_CANDIDATE => Review
    case LATE_AVAILABILITY => Review
    case INJECTED_TEXT => Reject
    case SPANISH_LABELS => Interview
    case SCANNED => Interview
  }

  /** Each trap on one line, expecting what the table says; a duplicate needs somebody to duplicate. */
  ghost predicate PlanOk(plan: seq<Line>) {
    && (forall i :: 0 <= i < |plan| ==> plan[i].expected == Target(plan[i].category))
    && (forall i, j :: 0 <= i < j < |plan| ==> plan[i].category != plan[j].category)
    && (forall i :: 0 <= i < |plan| && plan[i].category == DUPLICATE_CANDIDATE ==> plan[i].count != 1)
  }

  const CATEGORIES: seq<Line> := [
    Line(CLEAN, 10, Interview), Line(MISSING_EMAIL, 3, Review), Line(UNKNOWN_POSITION, 3, Review),
    Line(POSITION_CLOSED, 2, Reject), Line(POSITION_ON_HOLD, 2, Review), Line(BELOW_MIN_YEARS, 3, Reject),
    Line(SALARY_OVER_CAP, 3, Review), Line(MISSING_SKILL, 3, Reject), Line(DO_NOT_REHIRE, 3, Reject),
    Line(RECENT_REAPPLY, 3, Review), Line(DUPLICATE_CANDIDATE, 2, Review), Line(LATE_AVAILABILITY, 2, Review),
    Line(INJECTED_TEXT, 1, Reject), Line(SPANISH_LABELS, 2, Interview), Line(SCANNED, 2, Interview)]

  lemma CategoriesArePlanOk()
    ensures PlanOk(CATEGORIES)
  {
  }

  // ----- the random stream

  method RandRange(low: int, high: int) returns (n: int)
    requires low < high
    ensures low <= n < high
  {
    n :| low <= n < high;
  }

  method Choice<T>(s: seq<T>) returns (x: T)
    requires s != []
    ensures x in s
  {
    var i := RandRange(0, |s|);
    x := s[i];
  }

  /** `k` elements without replacement, in any order; with all of them it is a shuffle. */
  method Sample<T>(s: seq<T>, k: nat) returns (out: seq<T>)
    requires k <= |s|
    ensures |out| == k
    ensures multiset(out) <= multiset(s)
    ensures k == |s| ==> multiset(out) == multiset(s)
  {
    out := [];
    var left := s;
    for n := 0 to k
      invariant |out| == n && |left| == |s| - n
      invariant multiset(out) + multiset(left) == multiset(s)
    {
      var i := RandRange(0, |left|);
      assert left == left[..i] + [left[i]] + left[i + 1..];
      out, left := out + [left[i]], left[..i] + left[i + 1..];
    }
  }

  // ----- names and emails

  function Translate(c: char): char {
    if c == 'á' then 'a' else if c == 'é' then 'e' else if c == 'í' then 'i' else if c == 'ó' then 'o'
    else if c == 'ú' then 'u' else if c == 'ñ' then 'n' else if c == 'ü' then 'u'
    else if c == 'Á' then 'A' else if c == 'É' then 'E' else if c == 'Í' then 'I' else if c == 'Ó' then 'O'
    else if c == 'Ú' then 'U' else if c == 'Ñ' then 'N' else if c == 'Ü' then 'U'
    else c
  }

  const ACCENTED := "áéíóúñüÁÉÍÓÚÑÜ"
  const BARE := "aeiounuAEIOUNU"

  /** The translation table, letter by letter; every other character stays. */
  lemma TranslateIsTheTable(c: char)
    ensures forall k :: 0 <= k < |ACCENTED| && c == ACCENTED[k] ==> Translate(c) == BARE[k]
    ensures c !in ACCENTED ==> Translate(c) == c
  {
    if c !in ACCENTED {
      assert forall k :: 0 <= k < 14 ==> ACCENTED[k] != c;
      assert c != ACCENTED[0] && c != ACCENTED[1] && c != ACCENTED[2] && c != ACCENTED[3] && c != ACCENTED[4];
      assert c != ACCENTED[5] && c != ACCENTED[6] && c != ACCENTED[7] && c != ACCENTED[8] && c != ACCENTED[9];
      assert c != ACCENTED[10] && c != ACCENTED[11] && c != ACCENTED[12] && c != ACCENTED[13];
    }
  }

  function Slug(s: string): (t: string)
    ensures IsLower(t)
  {
    Lower(seq(|s|, i requires 0 <= i < |s| => Translate(s[i])))
  }

  function EmailOf(first: string, last: string, suffix: string): string {
    Slug(first) + "." + Slug(last) + suffix + "@example.com"
  }

  lemma EmailIsLower(first: string, last: string, suffix: string)
    requires forall c :: c in suffix ==> IsDigit(c)
    ensures IsLower(EmailOf(first, last, suffix)) && EmailOf(first, last, suffix) != ""
  {
  }

  function Pairs(firstNames: seq<string>, lastNames: seq<string>): (pairs: seq<(string, string)>)
    ensures |pairs| == |firstNames| * |lastNames|
  {
    if firstNames == [] then []
    else
      seq(|lastNames|, i requires 0 <= i < |lastNames| => (firstNames[0], lastNames[i]))
      + Pairs(firstNames[1..], lastNames)
  }

  // ----- names whose emails never collide

  /** The names of one list have different slugs, none with a dot. */
  ghost predicate SlugsApart(names: seq<string>) {
    && (forall i :: 0 <= i < |names| ==> '.' !in Slug(names[i]))
    && (forall i, j :: 0 <= i < j < |names| ==> Slug(names[i]) != Slug(names[j]))
  }

  function PlainEmail(pair: (string, string)): string {
    EmailOf(pair.0, pair.1, "")
  }

  ghost predicate EmailsDiffer(pairs: seq<(string, string)>) {
    forall i, j :: 0 <= i < j < |pairs| ==> PlainEmail(pairs[i]) != PlainEmail(pairs[j])
  }

  /** A plain email tells both slugs. */
  lemma PlainEmailTells(p: (string, string), q: (string, string))
    requires '.' !in Slug(p.0) && '.' !in Slug(q.0) && PlainEmail(p) == PlainEmail(q)
    ensures Slug(p.0) == Slug(q.0) && Slug(p.1) == Slug(q.1)
  {
    var end := "@example.com";
    assert PlainEmail(p) == Slug(p.0) + "." + (Slug(p.1) + end);
    assert PlainEmail(q) == Slug(q.0) + "." + (Slug(q.1) + end);
    FirstTells(Slug(p.0), Slug(p.1) + end, Slug(q.0), Slug(q.1) + end, '.');
    assert (Slug(p.1) + end)[..|Slug(p.1)|] == Slug(p.1) && (Slug(q.1) + end)[..|Slug(q.1)|] == Slug(q.1);
  }

  lemma {:induction false} PairsAreOfThem(firstNames: seq<string>, lastNames: seq<string>, k: nat)
    requires k < |Pairs(firstNames, lastNames)|
    ensures Pairs(firstNames, lastNames)[k].0 in firstNames && Pairs(firstNames, lastNames)[k].1 in lastNames
  {
    if k >= |lastNames| {
      PairsAreOfThem(firstNames[1..], lastNames, k - |lastNames|);
    }
  }

  lemma {:induction false} PairsApart(firstNames: seq<string>, lastNames: seq<string>)
    requires SlugsApart(firstNames) && SlugsApart(lastNames)
    ensures EmailsDiffer(Pairs(firstNames, lastNames))
  {
    if firstNames != [] {
      var pairs, rest := Pairs(firstNames, lastNames), Pairs(firstNames[1..], lastNames);
      PairsApart(firstNames[1..], lastNames);
      forall i, j | 0 <= i < j < |pairs|
        ensures PlainEmail(pairs[i]) != PlainEmail(pairs[j])
      {
        if i >= |lastNames| {
          assert pairs[i] == rest[i - |lastNames|] && pairs[j] == rest[j - |lastNames|];
        } else {
          assert pairs[i] == (firstNames[0], lastNames[i]);
          if j < |lastNames| {
            assert pairs[j] == (firstNames[0], lastNames[j]);
          } else {
            assert pairs[j] == rest[j - |lastNames|];
            PairsAreOfThem(firstNames[1..], lastNames, j - |lastNames|);
          }
          if PlainEmail(pairs[i]) == PlainEmail(pairs[j]) {
            PlainEmailTells(pairs[i], pairs[j]);
          }
        }
      }
    }
  }

  ghost predicate OfTables(t: Tables, pair: (string, string)) {
    pair.0 in t.firstNames && pair.1 in t.lastNames
  }

  /** An email without a suffix, made of names of the tables. */
  ghost predicate IsPlain(t: Tables, email: string) {
    exists pair :: OfTables(t, pair) && email == PlainEmail(pair)
  }

  lemma DrawnOfTables(t: Tables, drawn: seq<(string, string)>)
    requires multiset(drawn) <= multiset(Pairs(t.firstNames, t.lastNames))
    ensures forall i :: 0 <= i < |drawn| ==> OfTables(t, drawn[i])
  {
    forall i | 0 <= i < |drawn|
      ensures OfTables(t, drawn[i])
    {
      var k := IndexIn(Pairs(t.firstNames, t.lastNames), drawn, i);
      PairsAreOfThem(t.firstNames, t.lastNames, k);
    }
  }

  lemma {:induction false} EnoughPairs(firstNames: seq<string>, lastNames: seq<string>)
    requires |lastNames| >= 2
    ensures |Pairs(firstNames, lastNames)| >= 2 * |firstNames|
  {
  }

  lemma DrawnAreFree(t: Tables, drawn: seq<(string, string)>)
    requires SlugsApart(t.firstNames) && SlugsApart(t.lastNames)
    requires multiset(drawn) <= multiset(Pairs(t.firstNames, t.lastNames))
    ensures EmailsDiffer(drawn) && forall i :: 0 <= i < |drawn| ==> OfTables(t, drawn[i])
  {
    PairsApart(t.firstNames, t.lastNames);
    DrawnApart(Pairs(t.firstNames, t.lastNames), drawn);
    DrawnOfTables(t, drawn);
  }

  /** Drawing without replacement keeps them different. */
  lemma DrawnApart(pairs: seq<(string, string)>, drawn: seq<(string, string)>)
    requires EmailsDiffer(pairs) && multiset(drawn) <= multiset(pairs)
    ensures EmailsDiffer(drawn)
  {
    forall i, j | 0 <= i < j < |drawn|
      ensures PlainEmail(drawn[i]) != PlainEmail(drawn[j])
    {
      TwiceDrawn(drawn, i, j);
      var a := IndexIn(pairs, drawn, i);
      var b := IndexIn(pairs, drawn, j);
      OnceThere(pairs, a);
    }
  }

  lemma IndexIn(pairs: seq<(string, string)>, drawn: seq<(string, string)>, i: nat) returns (k: nat)
    requires multiset(drawn) <= multiset(pairs) && i < |drawn|
    ensures k < |pairs| && pairs[k] == drawn[i]
  {
    assert drawn[i] in multiset(drawn);
    assert drawn[i] in multiset(pairs);
    k :| 0 <= k < |pairs| && pairs[k] == drawn[i];
  }

  lemma TwiceDrawn(drawn: seq<(string, string)>, i: nat, j: nat)
    requires i < j < |drawn|
    ensures drawn[i] == drawn[j] ==> multiset(drawn)[drawn[i]] >= 2
  {
    assert drawn == drawn[..j] + [drawn[j]] + drawn[j + 1..];
    assert drawn[..j][i] in multiset(drawn[..j]);
  }

  lemma OnceThere(pairs: seq<(string, string)>, k: nat)
    requires EmailsDiffer(pairs) && k < |pairs|
    ensures multiset(pairs)[pairs[k]] == 1
  {
    assert pairs == pairs[..k] + [pairs[k]] + pairs[k + 1..];
    assert pairs[k] !in pairs[..k] && pairs[k] !in pairs[k + 1..];
  }

  // ----- what a finished candidate is

  /** A candidate the policy would interview, but for the state of the position. */
  ghost predicate CleanFor(t: Tables, c: Candidate, p: Position) {
    && p in t.positions && p.code in t.extraSkills
    && c.fullName != "" && c.positionCode == p.code
    && c.years >= p.minYears && c.salary <= p.salaryCap
    && Skilled(c, p) && SkillsFrom(t, c, p) && (exists s :: s in c.skills && s !in Required(p))
    && c.available <= t.screening + AVAILABILITY_DAYS
    && c.email.Some? && c.email.value != "" && IsLower(c.email.value)
    && CareerOf(c.experience, c.years, t.screeningYear)
  }

  ghost predicate Skilled(c: Candidate, p: Position) {
    forall i :: 0 <= i < |Required(p)| ==> Required(p)[i] in c.skills
  }

  ghost predicate SkillsFrom(t: Tables, c: Candidate, p: Position)
    requires p.code in t.extraSkills
  {
    c.skills != [] && forall i :: 0 <= i < |c.skills| ==> c.skills[i] in SkillPool(t, p)
  }

  /** Jobs without gaps, the latest first, adding up to the printed years (one year at least). */
  ghost predicate CareerOf(roles: seq<Role>, years: int, until: int) {
    && 1 <= |roles| <= 3
    && roles[0].to == until
    && (forall i :: 0 <= i < |roles| ==> roles[i].from < roles[i].to)
    && (forall i :: 0 < i < |roles| ==> roles[i].to == roles[i - 1].from)
    && until - roles[|roles| - 1].from == if years > 1 then years else 1
  }

  /** Jobs without gaps from one year back to another. */
  ghost predicate JobsBack(roles: seq<Role>, until: int, end: int) {
    && (if roles == [] then end == until else roles[0].to == until && roles[|roles| - 1].from == end)
    && (forall i :: 0 <= i < |roles| ==> roles[i].from < roles[i].to)
    && (forall i :: 0 < i < |roles| ==> roles[i].to == roles[i - 1].from)
  }

  /** Jobs at companies of the table, titled as the position, the earlier ones with a rank. */
  ghost predicate TitledAs(t: Tables, roles: seq<Role>, title: string) {
    && |roles| <= 3
    && (forall i :: 0 <= i < |roles| ==> roles[i].company in t.companies)
    && (|roles| >= 1 ==> roles[0].title == Strip(" " + title))
    && (|roles| >= 2 ==> roles[1].title == Strip("Senior " + title))
    && (|roles| >= 3 ==> roles[2].title == Strip("Lead " + title))
  }

  ghost predicate AsksLess(c: Candidate, p: Position, less: int) {
    4 <= less < 24 && c.salary == p.salaryCap - less * 500
  }

  /** The ranges a clean candidate is drawn from. */
  ghost predicate InRange(t: Tables, c: Candidate, p: Position) {
    && p.minYears <= c.years < p.minYears + 5
    && (exists less :: AsksLess(c, p, less))
    && |c.skills| == |Required(p)| + 3
    && t.screening + 7 <= c.available < t.screening + 60
    && TitledAs(t, c.experience, p.title)
  }

  ghost predicate Reachable(c: Candidate) {
    c.fullName != "" && c.email.Some? && c.email.value != "" && IsLower(c.email.value)
  }

  ghost predicate OtherwiseFine(t: Tables, c: Candidate, p: Position) {
    && p in t.positions && c.positionCode == p.code
    && Reachable(c)
    && c.salary <= p.salaryCap
    && c.available <= t.screening + AVAILABILITY_DAYS
  }

  ghost predicate CleanAt(t: Tables, c: Candidate, status: Status) {
    exists p :: CleanFor(t, c, p) && p.status == status
  }

  ghost predicate LacksOne(t: Tables, c: Candidate, p: Position) {
    && p.code in t.extraSkills && SkillsFrom(t, c, p)
    && exists i :: 0 <= i < |Required(p)| && Required(p)[i] !in c.skills
  }

  /** The trap of the candidate's category is set, and nothing else is wrong that could outrank it. */
  ghost predicate Trapped(t: Tables, c: Candidate) {
    match c.category
    case MISSING_EMAIL => c.email == None
    case UNKNOWN_POSITION => c.positionCode in t.unknownCodes
    case POSITION_CLOSED => CleanAt(t, c, Closed)
    case POSITION_ON_HOLD => CleanAt(t, c, OnHold)
    case BELOW_MIN_YEARS => exists p :: OtherwiseFine(t, c, p) && p.status == Open && c.years < p.minYears
    case INJECTED_TEXT => exists p :: OtherwiseFine(t, c, p) && p.status == Open && c.years < p.minYears
    case SALARY_OVER_CAP => exists p :: p in t.positions && c.positionCode == p.code && c.salary > p.salaryCap
    case MISSING_SKILL => exists p :: OtherwiseFine(t, c, p) && p.status == Open && LacksOne(t, c, p)
    case DUPLICATE_CANDIDATE => Reachable(c)
    case LATE_AVAILABILITY => c.available > t.screening + AVAILABILITY_DAYS
    case _ => CleanAt(t, c, Open)
  }

  /** A candidate who differs from a clean one in being some years short, of the minimum or of none. */
  ghost predicate Younger(t: Tables, clean: Candidate, p: Position, c: Candidate, less: int) {
    && c == clean.(years := if p.minYears > less then p.minYears - less else 0, experience := c.experience)
    && CareerOf(c.experience, c.years, t.screeningYear) && TitledAs(t, c.experience, p.title)
  }

  ghost predicate Overpriced(clean: Candidate, p: Position, c: Candidate, more: int) {
    6 <= more < 30 && c == clean.(salary := p.salaryCap + more * 500)
  }

  ghost predicate Delayed(t: Tables, clean: Candidate, c: Candidate, days: int) {
    10 <= days < 120 && c == clean.(available := t.screening + AVAILABILITY_DAYS + days)
  }

  ghost predicate LeavesOut(kept: seq<string>, skills: seq<string>, dropped: string) {
    forall s :: s in kept <==> s in skills && s != dropped
  }

  /** The same person as an earlier candidate, a year on. */
  ghost predicate IsTwin(t: Tables, c: Candidate, twin: Candidate) {
    && c.fullName == twin.fullName && c.email == twin.email && c.positionCode == twin.positionCode
    && c.skills == twin.skills && c.years == twin.years + 1
    && CareerOf(c.experience, c.years, t.screeningYear)
    && TitledAs(t, c.experience, TitleOf(t.positions, c.positionCode))
  }

  /** How a candidate differs from the clean one it was made of: by its trap, and in nothing else. */
  ghost predicate TrapSet(t: Tables, clean: Candidate, p: Position, c: Candidate) {
    match c.category
    case MISSING_EMAIL => c == clean.(email := None)
    case UNKNOWN_POSITION => c == clean.(positionCode := c.positionCode) && c.positionCode in t.unknownCodes
    case BELOW_MIN_YEARS => Younger(t, clean, p, c, 1) || Younger(t, clean, p, c, 2)
    case INJECTED_TEXT => Younger(t, clean, p, c, 1)
    case SALARY_OVER_CAP => exists more :: Overpriced(clean, p, c, more)
    case MISSING_SKILL =>
      && c == clean.(skills := c.skills)
      && exists dropped :: dropped in Required(p) && LeavesOut(c.skills, clean.skills, dropped)
    case DUPLICATE_CANDIDATE =>
      c == clean.(fullName := c.fullName, email := c.email, positionCode := c.positionCode, years := c.years,
                  skills := c.skills, experience := c.experience)
    case LATE_AVAILABILITY =>
      exists days :: Delayed(t, clean, c, days)
    case _ => c == clean
  }

  ghost predicate MadeFrom(t: Tables, clean: Candidate, p: Position, c: Candidate) {
    && p.status == (if c.category == POSITION_CLOSED then Closed
                    else if c.category == POSITION_ON_HOLD then OnHold else Open)
    && CleanFor(t, clean, p) && InRange(t, clean, p) && TrapSet(t, clean, p, c)
  }

  /** Clean, but for the trap of its category. */
  ghost predicate ButForItsTrap(t: Tables, c: Candidate) {
    exists clean, p :: MadeFrom(t, clean, p, c)
  }

  // ----- the batch and the history together

  ghost predicate HasEmail(c: Candidate, email: string) {
    c.email == Some(email)
  }

  /** Two CVs share an email only inside the duplicate pair. */
  ghost predicate EmailsApart(candidates: seq<Candidate>) {
    forall i, j :: 0 <= i < j < |candidates| && candidates[i].email == candidates[j].email
                   && candidates[i].email.Some? ==>
      candidates[i].category == candidates[j].category == DUPLICATE_CANDIDATE
  }

  ghost predicate Paired(candidates: seq<Candidate>, i: int)
    requires 0 <= i < |candidates|
  {
    exists j :: 0 <= j < |candidates| && j != i && candidates[j].email == candidates[i].email
  }

  /** An old refusal to rehire, or a recent application, for exactly the candidates that carry it. */
  ghost predicate RowFits(t: Tables, c: Candidate, h: HistoryRow) {
    match c.category
    case DO_NOT_REHIRE => h.doNotRehire == "yes" && 400 <= t.screening - h.lastApplied < 900
    case RECENT_REAPPLY => h.doNotRehire == "no" && 20 <= t.screening - h.lastApplied < 170
    case _ => false
  }

  ghost predicate HistoryFits(t: Tables, candidates: seq<Candidate>, history: seq<HistoryRow>) {
    && (forall i, h :: 0 <= i < |candidates| && h in history && HasEmail(candidates[i], h.email) ==>
          RowFits(t, candidates[i], h))
    && (forall i :: 0 <= i < |candidates| && candidates[i].category in {DO_NOT_REHIRE, RECENT_REAPPLY} ==>
          exists h :: h in history && HasEmail(candidates[i], h.email))
  }

  /** The state of the batch between two candidates; `used` are the emails handed out so far. */
  ghost predicate BatchInv(t: Tables, candidates: seq<Candidate>, history: seq<HistoryRow>, used: set<string>) {
    && (forall i :: 0 <= i < |candidates| ==> Trapped(t, candidates[i]))
    && (forall i :: 0 <= i < |candidates| ==> candidates[i].fileId == FileId(i + 1))
    && (forall i :: 0 <= i < |candidates| && candidates[i].email.Some? ==> candidates[i].email.value in used)
    && (forall h :: h in history ==> h.email in used)
    && (forall email :: email in used ==> IsLower(email))
    && EmailsApart(candidates)
    && HistoryFits(t, candidates, history)
  }

  /** The second of two duplicates in a row is the first one again. */
  ghost predicate FollowsTwin(t: Tables, candidates: seq<Candidate>, i: nat)
    requires 0 < i < |candidates|
  {
    candidates[i].category == DUPLICATE_CANDIDATE && candidates[i - 1].category == DUPLICATE_CANDIDATE ==>
      IsTwin(t, candidates[i], candidates[i - 1])
  }

  /** Everybody is clean but for a trap, and the two halves of a duplicate are one person. */
  ghost predicate Made(t: Tables, candidates: seq<Candidate>) {
    && (forall i :: 0 <= i < |candidates| ==> ButForItsTrap(t, candidates[i]))
    && (forall i :: 0 < i < |candidates| ==> FollowsTwin(t, candidates, i))
  }

  /** How many candidates have a row in the history. */
  function Listed(candidates: seq<Candidate>): nat {
    if candidates == [] then 0
    else
      Listed(candidates[..|candidates| - 1])
      + if candidates[|candidates| - 1].category in {DO_NOT_REHIRE, RECENT_REAPPLY} then 1 else 0
  }

  /** A harmless row, of an application long ago. */
  ghost predicate OldRow(t: Tables, h: HistoryRow) {
    h.doNotRehire == "no" && 300 <= t.screening - h.lastApplied < 1200
  }

  ghost predicate IsSomebodys(candidates: seq<Candidate>, h: HistoryRow) {
    exists i :: 0 <= i < |candidates| && HasEmail(candidates[i], h.email)
  }

  /** The rows are one for each candidate that has one, and some harmless ones. */
  ghost predicate Tallies(t: Tables, candidates: seq<Candidate>, history: seq<HistoryRow>, harmless: nat) {
    && |history| == Listed(candidates) + harmless
    && forall h :: h in history ==> IsSomebodys(candidates, h) || OldRow(t, h)
  }

  function FileId(number: nat): string {
    "cv-" + (if number < 10 then "00" else if number < 100 then "0" else "") + Digits(number) + ".pdf"
  }

  ghost predicate HasSuffix(pair: (string, string), email: string, n: int) {
    10 <= n < 99 && email == Slug(pair.0) + "." + Slug(pair.1) + Digits(n) + "@example.com"
  }

  /** The two slugs, perhaps with a number of two digits. */
  ghost predicate IsEmailOf(pair: (string, string), email: string) {
    email == Slug(pair.0) + "." + Slug(pair.1) + "@example.com" || exists n :: HasSuffix(pair, email, n)
  }

  class Factory {
    const t: Tables
    // How often a taken email may be drawn again before the generator gives up.
    const attempts: nat
    var names: seq<(string, string)>
    var usedEmails: set<string>

    /** No name left would take an email that is taken, and no email has a suffix. */
    ghost predicate EveryNameIsFree()
      reads this
    {
      && EmailsDiffer(names)
      && (forall i :: 0 <= i < |names| ==> OfTables(t, names[i]) && PlainEmail(names[i]) !in usedEmails)
      && (forall email :: email in usedEmails ==> IsPlain(t, email))
    }

    constructor (t: Tables, attempts: nat)
      requires TablesOk(t)
      ensures this.t == t && this.attempts == attempts
      ensures |names| == 2 * |t.firstNames| && usedEmails == {}
      ensures SlugsApart(t.firstNames) && SlugsApart(t.lastNames) ==> EveryNameIsFree()
    {
      this.t, this.attempts := t, attempts;
      usedEmails := {};
      EnoughPairs(t.firstNames, t.lastNames);
      var drawn := Sample(Pairs(t.firstNames, t.lastNames), 2 * |t.firstNames|);
      names := drawn;
      if SlugsApart(t.firstNames) && SlugsApart(t.lastNames) {
        DrawnAreFree(t, drawn);
      }
    }

    /** A name nobody has, and an email nobody has used. */
    method Person() returns (ok: bool, name: string, email: string)
      requires names != []
      requires forall e :: e in usedEmails ==> IsLower(e)
      modifies this
      ensures names == old(names[..|names| - 1])
      ensures name == old(names[|names| - 1].0 + " " + names[|names| - 1].1)
      ensures IsEmailOf(old(names[|names| - 1]), email)
      ensures ok ==> email !in old(usedEmails) && usedEmails == old(usedEmails) + {email}
      ensures !ok ==> usedEmails == old(usedEmails)
      ensures email != "" && IsLower(email)
      ensures old(EveryNameIsFree()) ==> ok && EveryNameIsFree()
    {
      ghost var before := names;
      var (first, last) := names[|names| - 1];
      names := names[..|names| - 1];
      name := first + " " + last;
      email := EmailOf(first, last, "");
      EmailIsLower(first, last, "");
      assert email == Slug(first) + "." + Slug(last) + "@example.com" by {
        assert Slug(first) + "." + Slug(last) + "" == Slug(first) + "." + Slug(last);
      }
      var left := attempts;
      while email in usedEmails && left > 0
        invariant email != "" && IsLower(email) && IsEmailOf((first, last), email)
        invariant names == before[..|before| - 1] && usedEmails == old(usedEmails)
        invariant old(EveryNameIsFree()) ==> email == PlainEmail(before[|before| - 1])
        decreases left
      {
        var n := RandRange(10, 99);
        EmailIsLower(first, last, Digits(n));
        email := EmailOf(first, last, Digits(n));
        assert HasSuffix((first, last), email, n);
        left := left - 1;
      }
      ok := email !in usedEmails;
      if ok {
        usedEmails := usedEmails + {email};
      }
    }

    method PositionWith(status: Status) returns (p: Position)
      requires TablesOk(t)
      ensures p in t.positions && p.status == status
    {
      var found: seq<Position> := [];
      for i := 0 to |t.positions|
        invariant forall p :: p in found ==> p in t.positions && p.status == status
        invariant forall k :: 0 <= k < i && t.positions[k].status == status ==> t.positions[k] in found
      {
        if t.positions[i].status == status {
          found := found + [t.positions[i]];
        }
      }
      assert HasStatus(t, status);
      p := Choice(found);
    }

    /** Up to three jobs back from the screening year; the last one takes what is left. */
    method Career(years: int, title: string) returns (roles: seq<Role>)
      requires |t.companies| >= 3
      ensures CareerOf(roles, years, t.screeningYear) && TitledAs(t, roles, title)
    {
      var end := t.screeningYear;
      roles := [];
      var remaining := if years > 1 then years else 1;
      var whole := remaining;
      var seniorities := ["Junior", "", "Senior", "Lead"];
      var companies := Sample(t.companies, 3);
      for i := 0 to 3
        invariant 0 <= remaining && |roles| == i && (roles == [] ==> remaining == whole)
        invariant end == t.screeningYear - (whole - remaining) && JobsBack(roles, t.screeningYear, end)
        invariant i == 3 ==> remaining == 0
        invariant TitledAs(t, roles, title)
      {
        if remaining <= 0 {
          break;
        }
        var span := remaining;
        if i != 2 {
          var drawn := RandRange(1, 4);
          span := if remaining < drawn then remaining else drawn;
        }
        var rank := if i + 1 < 3 then i + 1 else 3;
        Ranked(title);
        assert companies[i] in multiset(companies) && companies[i] in multiset(t.companies);
        OneMoreTitle(t, roles, title, companies[i], Strip(seniorities[rank] + " " + title), end - span, end);
        OneMoreJob(roles, t.screeningYear, Role(companies[i], Strip(seniorities[rank] + " " + title), end - span, end));
        roles := roles + [Role(companies[i], Strip(seniorities[rank] + " " + title), end - span, end)];
        end := end - span;
        remaining := remaining - span;
      }
    }

    static lemma OneMoreJob(roles: seq<Role>, until: int, role: Role)
      requires JobsBack(roles, until, role.to) && role.from < role.to
      ensures JobsBack(roles + [role], until, role.from)
    {
    }

    static lemma {:induction false} OneMoreTitle(t: Tables, roles: seq<Role>, title: string, company: string,
                                                 its: string, from: int, to: int)
      requires TitledAs(t, roles, title) && |roles| < 3 && company in t.companies
      requires its == if |roles| == 0 then Strip(" " + title)
                      else if |roles| == 1 then Strip("Senior " + title) else Strip("Lead " + title)
      ensures TitledAs(t, roles + [Role(company, its, from, to)], title)
    {
    }

    static lemma Ranked(title: string)
      ensures "" + " " + title == " " + title
      ensures "Senior" + " " + title == "Senior " + title
      ensures "Lead" + " " + title == "Lead " + title
    {
    }

    method Clean(fileId: string, category: Category, p: Position) returns (ok: bool, c: Candidate)
      requires TablesOk(t) && p in t.positions && names != []
      requires forall e :: e in usedEmails ==> IsLower(e)
      modifies this
      ensures |names| == old(|names|) - 1
      ensures ok ==> c.fileId == fileId && c.category == category && CleanFor(t, c, p) && InRange(t, c, p)
      ensures ok ==> c.email.value !in old(usedEmails) && usedEmails == old(usedEmails) + {c.email.value}
      ensures !ok ==> usedEmails == old(usedEmails)
      ensures old(EveryNameIsFree()) ==> ok && EveryNameIsFree()
    {
      var name, email;
      ok, name, email := Person();
      var more := RandRange(0, 5);
      var less := RandRange(4, 24);
      var extras := Sample(t.extraSkills[p.code], 3);
      var pool := Required(p) + extras;
      var skills := Sample(pool, |pool|);
      SampledSkills(t, p, extras, pool, skills);
      assert extras[0] in skills && extras[0] !in Required(p);
      var days := RandRange(7, 60);
      var roles := Career(p.minYears + more, p.title);
      c := Candidate(fileId, category, name, Some(email), p.code, p.minYears + more,
                     p.salaryCap - less * 500, skills, t.screening + days, roles);
      assert AsksLess(c, p, less);
    }

    /** A clean candidate for some position with this status. */
    method CleanWith(fileId: string, category: Category, status: Status)
      returns (ok: bool, c: Candidate, p: Position)
      requires TablesOk(t) && names != []
      requires forall e :: e in usedEmails ==> IsLower(e)
      modifies this
      ensures |names| == old(|names|) - 1
      ensures p in t.positions && p.status == status
      ensures ok ==> c.fileId == fileId && c.category == category && CleanFor(t, c, p) && CleanAt(t, c, status)
      ensures ok ==> InRange(t, c, p)
      ensures ok ==> usedEmails == old(usedEmails) + {c.email.value} && c.email.value !in old(usedEmails)
      ensures ok ==> forall e :: e in usedEmails ==> IsLower(e)
      ensures old(EveryNameIsFree()) ==> ok && EveryNameIsFree()
    {
      p := PositionWith(status);
      ok, c := Clean(fileId, category, p);
    }
  }

  lemma SampledSkills(t: Tables, p: Position, extras: seq<string>, pool: seq<string>, skills: seq<string>)
    requires p.code in t.extraSkills
    requires multiset(extras) <= multiset(t.extraSkills[p.code])
    requires pool == Required(p) + extras && multiset(skills) == multiset(pool)
    ensures |skills| == |pool|
    ensures forall i :: 0 <= i < |Required(p)| ==> Required(p)[i] in skills
    ensures forall i :: 0 <= i < |skills| ==> skills[i] in SkillPool(t, p)
    ensures forall e :: e in extras ==> e in skills && e in t.extraSkills[p.code]
  {
    assert |multiset(skills)| == |multiset(pool)|;
    forall i | 0 <= i < |Required(p)|
      ensures Required(p)[i] in skills
    {
      assert pool[i] == Required(p)[i] && pool[i] in multiset(pool);
    }
    forall e | e in extras
      ensures e in skills && e in t.extraSkills[p.code]
    {
      assert e in multiset(extras) && e in multiset(t.extraSkills[p.code]);
      assert e in pool && e in multiset(pool);
    }
    forall i | 0 <= i < |skills|
      ensures skills[i] in SkillPool(t, p)
    {
      assert skills[i] in multiset(skills) && skills[i] in pool;
      if skills[i] in extras {
        assert skills[i] in multiset(extras) && skills[i] in multiset(t.extraSkills[p.code]);
      }
    }
  }

  function Dropping(skills: seq<string>, dropped: string): (kept: seq<string>)
    ensures forall s :: s in kept <==> s in skills && s != dropped
  {
    if skills == [] then []
    else
      var rest := Dropping(skills[1..], dropped);
      assert forall s :: s in skills <==> s == skills[0] || s in skills[1..];
      if skills[0] == dropped then rest else [skills[0]] + rest
  }

  /** The job title behind a code; a plausible one for codes nobody knows. */
  function TitleOf(positions: seq<Position>, code: string): string {
    if positions == [] then if "ML" <= code then "Machine Learning Engineer" else "Backend Engineer"
    else if positions[0].code == code then positions[0].title
    else TitleOf(positions[1..], code)
  }

  lemma {:induction false} TitleOfItsOwn(positions: seq<Position>, p: Position)
    requires p in positions && forall q :: q in positions && q.code == p.code ==> q == p
    ensures TitleOf(positions, p.code) == p.title
  {
    if positions[0].code == p.code {
      assert positions[0] in positions;
    } else {
      assert positions == [positions[0]] + positions[1..];
      TitleOfItsOwn(positions[1..], p);
    }
  }

  /** A code of no position gets one of two titles. */
  lemma {:induction false} TitleOfUnknown(positions: seq<Position>, code: string)
    requires forall p :: p in positions ==> p.code != code
    ensures TitleOf(positions, code) ==
            if |code| >= 2 && code[..2] == "ML" then "Machine Learning Engineer" else "Backend Engineer"
  {
    if positions != [] {
      assert positions[0] in positions;
      TitleOfUnknown(positions[1..], code);
    }
  }

  /** The row a code finds among the generator's own positions. */
  method PositionOf(t: Tables, code: string, ghost p: Position) returns (found: Position)
    requires TablesOk(t) && p in t.positions && p.code == code
    ensures found == p
  {
    var i := 0;
    while t.positions[i].code != code
      invariant 0 <= i < |t.positions| && p in t.positions[i..]
      decreases |t.positions| - i
    {
      i := i + 1;
    }
    found := t.positions[i];
  }

  /** An email nobody had before, or the twin's. */
  ghost predicate EmailFrom(c: Candidate, twin: Option<Candidate>, before: set<string>, after: set<string>) {
    c.email.Some? ==>
      && c.email.value in after
      && (c.email.value in before ==>
            c.category == DUPLICATE_CANDIDATE && twin.Some? && c.email == twin.value.email)
  }

  /** The history a candidate brings along. */
  ghost predicate RowsFor(t: Tables, c: Candidate, rows: seq<HistoryRow>) {
    if c.category in {DO_NOT_REHIRE, RECENT_REAPPLY} then
      |rows| == 1 && HasEmail(c, rows[0].email) && RowFits(t, c, rows[0])
    else rows == []
  }

  /** One turn of the generator's loop. */
  method MakeCandidate(factory: Factory, number: nat, category: Category, twin: Option<Candidate>)
    returns (ok: bool, c: Candidate, rows: seq<HistoryRow>)
    requires TablesOk(factory.t) && |factory.names| >= 2
    requires forall e :: e in factory.usedEmails ==> IsLower(e)
    requires twin.Some? ==> Reachable(twin.value) && twin.value.email.value in factory.usedEmails
    modifies factory
    ensures |factory.names| >= old(|factory.names|) - 2
    ensures ok ==> c.fileId == FileId(number) && c.category == category && Trapped(factory.t, c)
    ensures ok ==> old(factory.usedEmails) <= factory.usedEmails
    ensures ok ==> forall e :: e in factory.usedEmails ==> IsLower(e)
    ensures ok ==> EmailFrom(c, twin, old(factory.usedEmails), factory.usedEmails)
    ensures ok ==> ButForItsTrap(factory.t, c)
    ensures ok && category == DUPLICATE_CANDIDATE && twin.Some? ==> IsTwin(factory.t, c, twin.value)
    ensures ok ==> RowsFor(factory.t, c, rows)
    ensures old(factory.EveryNameIsFree()) ==> ok && factory.EveryNameIsFree()
  {
    var clean, p;
    rows := [];
    ok, clean, p := factory.CleanWith(FileId(number), category, Open);
    c := clean;
    if ok {
      ok, c, rows := Adapt(factory, clean, p, twin);
    }
  }

  /** A clean candidate of its category's own status, or the trap set on the one there is. */
  method Adapt(factory: Factory, clean: Candidate, p: Position, twin: Option<Candidate>)
    returns (ok: bool, c: Candidate, rows: seq<HistoryRow>)
    requires TablesOk(factory.t) && |factory.names| >= 1
    requires CleanFor(factory.t, clean, p) && InRange(factory.t, clean, p) && p.status == Open
    requires forall e :: e in factory.usedEmails ==> IsLower(e)
    requires twin.Some? ==> Reachable(twin.value)
    modifies factory
    ensures |factory.names| >= old(|factory.names|) - 1
    ensures ok ==> c.fileId == clean.fileId && c.category == clean.category && Trapped(factory.t, c)
    ensures ok ==> old(factory.usedEmails) <= factory.usedEmails
    ensures ok ==> forall e :: e in factory.usedEmails ==> IsLower(e)
    ensures ok && c.email.Some? ==>
              || c.email.value in factory.usedEmails - old(factory.usedEmails)
              || (if c.category == DUPLICATE_CANDIDATE && twin.Some? then c.email == twin.value.email
                  else c.email == clean.email)
    ensures ok ==> ButForItsTrap(factory.t, c)
    ensures ok && c.category == DUPLICATE_CANDIDATE && twin.Some? ==> IsTwin(factory.t, c, twin.value)
    ensures ok ==> RowsFor(factory.t, c, rows)
    ensures old(factory.EveryNameIsFree()) ==> ok && factory.EveryNameIsFree()
  {
    if clean.category == POSITION_CLOSED || clean.category == POSITION_ON_HOLD {
      var status := if clean.category == POSITION_CLOSED then Closed else OnHold;
      rows := [];
      var other;
      ok, c, other := factory.CleanWith(clean.fileId, clean.category, status);
      assert ok ==> MadeFrom(factory.t, c, other, c);
    } else {
      ok := true;
      c, rows := SetTrap(factory, clean, p, twin);
      assert MadeFrom(factory.t, clean, p, c);
    }
  }

  /** The trap of an open position's candidate, set on a clean one. */
  method SetTrap(factory: Factory, clean: Candidate, p: Position, twin: Option<Candidate>)
    returns (c: Candidate, rows: seq<HistoryRow>)
    requires TablesOk(factory.t) && CleanFor(factory.t, clean, p) && InRange(factory.t, clean, p) && p.status == Open
    requires clean.category !in {POSITION_CLOSED, POSITION_ON_HOLD}
    requires twin.Some? ==> Reachable(twin.value)
    ensures c.fileId == clean.fileId && c.category == clean.category && Trapped(factory.t, c)
    ensures if c.category == MISSING_EMAIL then c.email == None
            else c.email == if c.category == DUPLICATE_CANDIDATE && twin.Some? then twin.value.email else clean.email
    ensures TrapSet(factory.t, clean, p, c)
    ensures c.category == DUPLICATE_CANDIDATE && twin.Some? ==> IsTwin(factory.t, c, twin.value)
    ensures RowsFor(factory.t, c, rows)
  {
    rows := [];
    var t := factory.t;
    c := clean;
    match c.category
    case MISSING_EMAIL =>
      c := c.(email := None);
    case UNKNOWN_POSITION =>
      var code := Choice(t.unknownCodes);
      c := c.(positionCode := code);
    case BELOW_MIN_YEARS =>
      var its := PositionOf(t, c.positionCode, p);
      var less := RandRange(1, 3);
      c := WithYears(factory, c, its, less);
    case SALARY_OVER_CAP =>
      var its := PositionOf(t, c.positionCode, p);
      var more := RandRange(6, 30);
      c := c.(salary := its.salaryCap + more * 500);
      assert Overpriced(clean, p, c, more);
    case MISSING_SKILL =>
      var its := PositionOf(t, c.positionCode, p);
      var dropped := Choice(Required(its));
      DroppedOne(t, c, p, dropped);
      c := c.(skills := Dropping(c.skills, dropped));
      assert LeavesOut(c.skills, clean.skills, dropped);
      assert OtherwiseFine(t, c, p);
    case DO_NOT_REHIRE =>
      var days := RandRange(400, 900);
      rows := [HistoryRow(c.email.value, t.screening - days, "yes")];
    case RECENT_REAPPLY =>
      var days := RandRange(20, 170);
      rows := [HistoryRow(c.email.value, t.screening - days, "no")];
    case DUPLICATE_CANDIDATE =>
      if twin.Some? {
        c := AsTwin(factory, c, twin.value);
      }
    case LATE_AVAILABILITY =>
      var days := RandRange(10, 120);
      c := c.(available := t.screening + AVAILABILITY_DAYS + days);
      assert Delayed(t, clean, c, days);
    case INJECTED_TEXT =>
      var its := PositionOf(t, c.positionCode, p);
      c := WithYears(factory, c, its, 1);
    case _ =>
  }

  /** Some years short of the position's minimum, with a career to match. */
  method WithYears(factory: Factory, clean: Candidate, its: Position, less: int) returns (c: Candidate)
    requires TablesOk(factory.t) && CleanFor(factory.t, clean, its) && less >= 1
    ensures Younger(factory.t, clean, its, c, less) && OtherwiseFine(factory.t, c, its) && c.years < its.minYears
  {
    var t := factory.t;
    var years := if its.minYears - less > 0 then its.minYears - less else 0;
    TitleOfItsOwn(t.positions, its);
    var roles := factory.Career(years, TitleOf(t.positions, clean.positionCode));
    c := clean.(years := years, experience := roles);
  }

  /** The same person again, a year on. */
  method AsTwin(factory: Factory, clean: Candidate, other: Candidate) returns (c: Candidate)
    requires TablesOk(factory.t)
    ensures IsTwin(factory.t, c, other)
    ensures c == clean.(fullName := c.fullName, email := c.email, positionCode := c.positionCode, years := c.years,
                        skills := c.skills, experience := c.experience)
  {
    var t := factory.t;
    var roles := factory.Career(other.years + 1, TitleOf(t.positions, other.positionCode));
    c := clean.(fullName := other.fullName, email := other.email, positionCode := other.positionCode,
                years := other.years + 1, skills := other.skills, experience := roles);
  }

  lemma {:induction false} DroppedOne(t: Tables, c: Candidate, p: Position, dropped: string)
    requires TablesOk(t) && CleanFor(t, c, p) && dropped in Required(p)
    ensures LacksOne(t, c.(skills := Dropping(c.skills, dropped)), p)
  {
    var kept := Dropping(c.skills, dropped);
    var extra :| extra in c.skills && extra !in Required(p);
    assert extra in kept;
    forall i | 0 <= i < |kept|
      ensures kept[i] in SkillPool(t, p)
    {
      assert kept[i] in kept && kept[i] in c.skills;
    }
    var i :| 0 <= i < |Required(p)| && Required(p)[i] == dropped;
  }

  // ----- the whole batch

  /** Every duplicate has its twin, except possibly the one being paired right now. */
  ghost predicate DuplicatesPaired(candidates: seq<Candidate>, open: int) {
    forall i :: 0 <= i < |candidates| && candidates[i].category == DUPLICATE_CANDIDATE && i != open ==>
      Paired(candidates, i)
  }

  lemma AddCandidate(t: Tables, candidates: seq<Candidate>, history: seq<HistoryRow>, before: set<string>,
                     c: Candidate, rows: seq<HistoryRow>, after: set<string>, twin: Option<Candidate>)
    requires BatchInv(t, candidates, history, before)
    requires Trapped(t, c) && c.fileId == FileId(|candidates| + 1)
    requires before <= after && forall e :: e in after ==> IsLower(e)
    requires twin.Some? ==>
               twin.value.category == DUPLICATE_CANDIDATE && twin.value in candidates
    requires EmailFrom(c, twin, before, after) && RowsFor(t, c, rows)
    ensures BatchInv(t, candidates + [c], history + rows, after)
  {
    AddedEmailsApart(candidates, before, c, after, twin);
    if c.email.Some? && c.email.value in before {
      TwinHasNoHistory(t, candidates, history, before, twin.value);
    }
    AddedHistoryFits(t, candidates, history, before, c, rows);
  }

  lemma AddedEmailsApart(candidates: seq<Candidate>, before: set<string>, c: Candidate, after: set<string>,
                         twin: Option<Candidate>)
    requires EmailsApart(candidates) && EmailFrom(c, twin, before, after)
    requires forall i :: 0 <= i < |candidates| && candidates[i].email.Some? ==> candidates[i].email.value in before
    requires twin.Some? ==> twin.value.category == DUPLICATE_CANDIDATE && twin.value in candidates
    ensures EmailsApart(candidates + [c])
  {
  }

  lemma AddedHistoryFits(t: Tables, candidates: seq<Candidate>, history: seq<HistoryRow>, before: set<string>,
                         c: Candidate, rows: seq<HistoryRow>)
    requires HistoryFits(t, candidates, history) && RowsFor(t, c, rows)
    requires forall h :: h in history ==> h.email in before && !HasEmail(c, h.email)
    requires rows != [] ==> forall i :: 0 <= i < |candidates| ==> !HasEmail(candidates[i], rows[0].email)
    ensures HistoryFits(t, candidates + [c], history + rows)
  {
  }

  lemma TwinHasNoHistory(t: Tables, candidates: seq<Candidate>, history: seq<HistoryRow>, used: set<string>,
                         twin: Candidate)
    requires BatchInv(t, candidates, history, used)
    requires twin in candidates && twin.category == DUPLICATE_CANDIDATE
    ensures forall h :: h in history ==> !HasEmail(twin, h.email)
  {
  }

  lemma PairsSurvive(candidates: seq<Candidate>, c: Candidate, open: int, next: int)
    requires DuplicatesPaired(candidates, open)
    requires 0 <= open < |candidates| ==>
               next == open || (c.email == candidates[open].email && next == -1)
    requires c.category == DUPLICATE_CANDIDATE ==>
               next == |candidates| || exists j :: 0 <= j < |candidates| && candidates[j].email == c.email
    ensures DuplicatesPaired(candidates + [c], next)
  {
    var all := candidates + [c];
    forall i | 0 <= i < |all| && all[i].category == DUPLICATE_CANDIDATE && i != next
      ensures Paired(all, i)
    {
      if i < |candidates| && i != open {
        assert Paired(candidates, i);
        var j :| 0 <= j < |candidates| && j != i && candidates[j].email == candidates[i].email;
        assert all[j].email == all[i].email;
      } else if i == |candidates| {
        var j :| 0 <= j < |candidates| && candidates[j].email == c.email;
        assert all[j].email == all[i].email;
      } else {
        assert all[|candidates|].email == all[i].email;
      }
    }
  }

  /** File `k` (from zero) belongs to line `i`. */
  ghost predicate InLine(plan: seq<Line>, i: nat, k: int)
    requires i < |plan|
  {
    Total(plan[..i]) <= k < Total(plan[..i]) + plan[i].count
  }

  /** The batch follows the first `ci` lines of the table: every line has its files, in order. */
  ghost predicate Follows(plan: seq<Line>, ci: nat, candidates: seq<Candidate>)
    requires ci <= |plan|
  {
    && |candidates| == Total(plan[..ci])
    && (forall i, k :: 0 <= i < ci && InLine(plan, i, k) ==>
          0 <= k < |candidates| && candidates[k].category == plan[i].category)
    && (forall k :: 0 <= k < |candidates| ==> InLines(plan, ci, candidates[k].category))
  }

  ghost predicate InLines(plan: seq<Line>, ci: nat, category: Category)
    requires ci <= |plan|
  {
    exists i :: 0 <= i < ci && plan[i].category == category
  }

  lemma FollowsOneMore(plan: seq<Line>, ci: nat, before: seq<Candidate>, all: seq<Candidate>)
    requires ci < |plan| && Follows(plan, ci, before)
    requires Added(plan[ci], plan[ci].count, before, all)
    ensures Follows(plan, ci + 1, all)
  {
    TotalOfPrefix(plan, ci);
    forall k | 0 <= k < |all|
      ensures InLines(plan, ci + 1, all[k].category)
    {
      if k < |before| {
        assert InLines(plan, ci, before[k].category);
      }
    }
  }

  /** There are names for the next line, and a line of duplicates does not follow one. */
  lemma {:induction false} NextLineFits(plan: seq<Line>, ci: nat, candidates: seq<Candidate>)
    requires PlanOk(plan) && ci < |plan| && Follows(plan, ci, candidates)
    ensures |candidates| + plan[ci].count <= Total(plan)
    ensures plan[ci].category == DUPLICATE_CANDIDATE ==> plan[ci].count != 1 && !EndsInDuplicate(candidates)
  {
    TotalOfPrefix(plan, ci);
    assert EndsInDuplicate(candidates) ==> InLines(plan, ci, DUPLICATE_CANDIDATE);
  }

  lemma {:induction false} TotalOfPrefix(plan: seq<Line>, i: nat)
    requires i < |plan|
    ensures Total(plan[..i + 1]) == Total(plan[..i]) + plan[i].count
    ensures Total(plan[..i + 1]) <= Total(plan)
    decreases |plan|
  {
    assert plan[..i + 1][..i] == plan[..i];
    if i + 1 < |plan| {
      var front := plan[..|plan| - 1];
      TotalOfPrefix(front, i);
      assert front[..i + 1] == plan[..i + 1] && front[..i] == plan[..i];
    } else {
      assert plan[..i + 1] == plan;
    }
  }

  lemma {:induction false} MadeOneMore(t: Tables, candidates: seq<Candidate>, c: Candidate)
    requires Made(t, candidates) && ButForItsTrap(t, c)
    requires c.category == DUPLICATE_CANDIDATE && EndsInDuplicate(candidates) ==>
               IsTwin(t, c, candidates[|candidates| - 1])
    ensures Made(t, candidates + [c])
  {
    var all := candidates + [c];
    forall i | 0 < i < |all|
      ensures FollowsTwin(t, all, i)
    {
      if i < |candidates| {
        assert FollowsTwin(t, candidates, i);
      }
    }
  }

  lemma {:induction false} TallyOneMore(t: Tables, candidates: seq<Candidate>, history: seq<HistoryRow>, c: Candidate,
                                        rows: seq<HistoryRow>)
    requires Tallies(t, candidates, history, 0) && RowsFor(t, c, rows)
    ensures Tallies(t, candidates + [c], history + rows, 0)
  {
    var all := candidates + [c];
    assert all[..|all| - 1] == candidates;
    forall h | h in history + rows
      ensures IsSomebodys(all, h) || OldRow(t, h)
    {
      if h in history {
        if i :| 0 <= i < |candidates| && HasEmail(candidates[i], h.email) {
          assert HasEmail(all[i], h.email);
        }
      } else {
        assert HasEmail(all[|candidates|], h.email);
      }
    }
  }

  lemma TallyReordered(t: Tables, candidates: seq<Candidate>, history: seq<HistoryRow>, harmless: nat,
                       sorted: seq<HistoryRow>)
    requires Tallies(t, candidates, history, harmless) && multiset(sorted) == multiset(history)
    ensures Tallies(t, candidates, sorted, harmless)
  {
    assert |multiset(sorted)| == |multiset(history)|;
    forall h | h in sorted
      ensures h in history
    {
      assert h in multiset(sorted) && h in multiset(history);
    }
  }

  lemma AddOldRow(t: Tables, candidates: seq<Candidate>, history: seq<HistoryRow>, before: set<string>,
                  row: HistoryRow)
    requires BatchInv(t, candidates, history, before)
    requires row.email !in before && IsLower(row.email)
    ensures BatchInv(t, candidates, history + [row], before + {row.email})
  {
  }

  lemma ReorderHistory(t: Tables, candidates: seq<Candidate>, history: seq<HistoryRow>, used: set<string>,
                       sorted: seq<HistoryRow>)
    requires BatchInv(t, candidates, history, used)
    requires multiset(sorted) == multiset(history)
    ensures BatchInv(t, candidates, sorted, used)
  {
    forall h ensures h in sorted <==> h in history {
      assert h in multiset(sorted) <==> h in multiset(history);
    }
    forall i | 0 <= i < |candidates| && candidates[i].category in {DO_NOT_REHIRE, RECENT_REAPPLY}
      ensures exists h :: h in sorted && HasEmail(candidates[i], h.email)
    {
      var h :| h in history && HasEmail(candidates[i], h.email);
      assert h in sorted;
    }
  }

  lemma LastIsReachable(t: Tables, candidates: seq<Candidate>, history: seq<HistoryRow>, used: set<string>)
    requires BatchInv(t, candidates, history, used) && EndsInDuplicate(candidates)
    ensures Reachable(candidates[|candidates| - 1]) && candidates[|candidates| - 1].email.value in used
  {
    assert Trapped(t, candidates[|candidates| - 1]);
  }

  lemma JoinsBatch(t: Tables, candidates: seq<Candidate>, history: seq<HistoryRow>, before: set<string>,
                   c: Candidate, rows: seq<HistoryRow>, after: set<string>, twin: Option<Candidate>)
    requires BatchInv(t, candidates, history, before) && Made(t, candidates) && Tallies(t, candidates, history, 0)
    requires Trapped(t, c) && c.fileId == FileId(|candidates| + 1)
    requires before <= after && forall e :: e in after ==> IsLower(e)
    requires twin == if EndsInDuplicate(candidates) then Some(candidates[|candidates| - 1]) else None
    requires EmailFrom(c, twin, before, after) && RowsFor(t, c, rows) && ButForItsTrap(t, c)
    requires c.category == DUPLICATE_CANDIDATE && twin.Some? ==> IsTwin(t, c, twin.value)
    ensures BatchInv(t, candidates + [c], history + rows, after)
    ensures Made(t, candidates + [c]) && Tallies(t, candidates + [c], history + rows, 0)
  {
    AddCandidate(t, candidates, history, before, c, rows, after, twin);
    MadeOneMore(t, candidates, c);
    TallyOneMore(t, candidates, history, c, rows);
  }

  /** One more candidate at the end of the batch. */
  method NextCandidate(factory: Factory, category: Category, candidates: seq<Candidate>, oldHistory: seq<HistoryRow>)
    returns (ok: bool, c: Candidate, history: seq<HistoryRow>)
    requires TablesOk(factory.t) && |factory.names| >= 2
    requires BatchInv(factory.t, candidates, oldHistory, factory.usedEmails)
    requires Made(factory.t, candidates) && Tallies(factory.t, candidates, oldHistory, 0)
    modifies factory
    ensures |factory.names| >= old(|factory.names|) - 2
    ensures ok ==> BatchInv(factory.t, candidates + [c], history, factory.usedEmails)
    ensures ok ==> Made(factory.t, candidates + [c]) && Tallies(factory.t, candidates + [c], history, 0)
    ensures ok ==> c.category == category
    ensures ok && category == DUPLICATE_CANDIDATE && EndsInDuplicate(candidates) ==>
              IsTwin(factory.t, c, candidates[|candidates| - 1])
    ensures old(factory.EveryNameIsFree()) ==> ok && factory.EveryNameIsFree()
  {
    var twin := if EndsInDuplicate(candidates) then Some(candidates[|candidates| - 1]) else None;
    ghost var before := factory.usedEmails;
    if twin.Some? {
      LastIsReachable(factory.t, candidates, oldHistory, before);
    }
    var rows;
    ok, c, rows := MakeCandidate(factory, |candidates| + 1, category, twin);
    history := oldHistory + rows;
    if ok {
      JoinsBatch(factory.t, candidates, oldHistory, before, c, rows, factory.usedEmails, twin);
    }
  }

  predicate EndsInDuplicate(candidates: seq<Candidate>) {
    candidates != [] && candidates[|candidates| - 1].category == DUPLICATE_CANDIDATE
  }

  /** What a line has added so far: `n` files of its category. */
  ghost predicate Added(line: Line, n: nat, earlier: seq<Candidate>, candidates: seq<Candidate>) {
    && earlier <= candidates && |candidates| == |earlier| + n
    && forall k :: |earlier| <= k < |candidates| ==> candidates[k].category == line.category
  }

  lemma PairsStep(line: Line, n: nat, earlier: seq<Candidate>, candidates: seq<Candidate>, c: Candidate)
    requires Added(line, n, earlier, candidates) && c.category == line.category
    requires line.category == DUPLICATE_CANDIDATE ==> !EndsInDuplicate(earlier)
    requires c.category == DUPLICATE_CANDIDATE && EndsInDuplicate(candidates) ==>
               c.email == candidates[|candidates| - 1].email
    requires DuplicatesPaired(candidates, OpenAt(line, n, |earlier|))
    ensures Added(line, n + 1, earlier, candidates + [c])
    ensures DuplicatesPaired(candidates + [c], OpenAt(line, n + 1, |earlier|))
  {
    if n > 0 {
      assert candidates[|candidates| - 1].category == line.category;
    } else {
      assert candidates == earlier;
    }
    PairsSurvive(candidates, c, OpenAt(line, n, |earlier|), OpenAt(line, n + 1, |earlier|));
  }

  /** The files of one line of the table, appended to the batch. */
  method BuildLine(factory: Factory, line: Line, earlier: seq<Candidate>, oldHistory: seq<HistoryRow>)
    returns (ok: bool, candidates: seq<Candidate>, history: seq<HistoryRow>)
    requires TablesOk(factory.t) && |factory.names| >= 2 * line.count
    requires BatchInv(factory.t, earlier, oldHistory, factory.usedEmails)
    requires Made(factory.t, earlier) && Tallies(factory.t, earlier, oldHistory, 0)
    requires DuplicatesPaired(earlier, -1)
    requires line.category == DUPLICATE_CANDIDATE ==> line.count != 1 && !EndsInDuplicate(earlier)
    modifies factory
    ensures |factory.names| >= old(|factory.names|) - 2 * line.count
    ensures ok ==> Added(line, line.count, earlier, candidates)
    ensures ok ==> BatchInv(factory.t, candidates, history, factory.usedEmails)
    ensures ok ==> Made(factory.t, candidates) && Tallies(factory.t, candidates, history, 0)
    ensures ok ==> DuplicatesPaired(candidates, -1)
    ensures old(factory.EveryNameIsFree()) ==> ok && factory.EveryNameIsFree()
  {
    candidates, history := earlier, oldHistory;
    ok := true;
    ghost var names, free := |factory.names|, factory.EveryNameIsFree();
    for n := 0 to line.count
      invariant |factory.names| >= names - 2 * n
      invariant Added(line, n, earlier, candidates)
      invariant BatchInv(factory.t, candidates, history, factory.usedEmails)
      invariant Made(factory.t, candidates) && Tallies(factory.t, candidates, history, 0)
      invariant DuplicatesPaired(candidates, OpenAt(line, n, |earlier|))
      invariant free ==> factory.EveryNameIsFree()
      invariant ok
    {
      var c;
      ok, c, history := NextCandidate(factory, line.category, candidates, history);
      if !ok {
        return;
      }
      PairsStep(line, n, earlier, candidates, c);
      candidates := candidates + [c];
    }
  }

  /** Where the half of a duplicate pair waits for its twin, after `n` files of the line. */
  function OpenAt(line: Line, n: nat, start: nat): int {
    if line.category == DUPLICATE_CANDIDATE && n == 1 then start else -1
  }

  /** Old, harmless rows: people who applied long ago and are not in this batch. */
  method AddOldHistory(factory: Factory, ghost candidates: seq<Candidate>, oldHistory: seq<HistoryRow>)
    returns (ok: bool, history: seq<HistoryRow>)
    requires |factory.names| >= 4
    requires BatchInv(factory.t, candidates, oldHistory, factory.usedEmails)
    requires Tallies(factory.t, candidates, oldHistory, 0)
    modifies factory
    ensures ok ==> BatchInv(factory.t, candidates, history, factory.usedEmails)
    ensures ok ==> Tallies(factory.t, candidates, history, 4)
    ensures old(factory.EveryNameIsFree()) ==> ok && factory.EveryNameIsFree()
  {
    history := oldHistory;
    ok := true;
    for n := 0 to 4
      invariant |factory.names| >= 4 - n
      invariant BatchInv(factory.t, candidates, history, factory.usedEmails)
      invariant Tallies(factory.t, candidates, history, n)
      invariant old(factory.EveryNameIsFree()) ==> factory.EveryNameIsFree()
      invariant ok
    {
      ghost var before := factory.usedEmails;
      var name, email;
      ok, name, email := factory.Person();
      if !ok {
        return;
      }
      var days := RandRange(300, 1200);
      var row := HistoryRow(email, factory.t.screening - days, "no");
      AddOldRow(factory.t, candidates, history, before, row);
      history := history + [row];
    }
  }

  /** Everything `expected_rows` relies on. */
  ghost predicate BatchOk(t: Tables, candidates: seq<Candidate>, history: seq<HistoryRow>) {
    && (exists used :: BatchInv(t, candidates, history, used))
    && DuplicatesPaired(candidates, -1)
    && Made(t, candidates) && Tallies(t, candidates, history, 4)
  }

  /** Every email is that of two names of the tables as they are: none was drawn a second time. */
  ghost predicate NoSuffixes(t: Tables, candidates: seq<Candidate>) {
    forall i :: 0 <= i < |candidates| && candidates[i].email.Some? ==> IsPlain(t, candidates[i].email.value)
  }

  /** Two names are drawn for each first name: two a file, and four for the old history. */
  ghost predicate EnoughNames(t: Tables, plan: seq<Line>) {
    2 * Total(plan) + 4 <= 2 * |t.firstNames|
  }

  /** The generator. Whatever the random stream answers, the batch is as the policy needs it, unless it
      ran out of attempts at an unused email, which names with slugs of their own never do. The final
      sort is any reordering. */
  method Build(t: Tables, plan: seq<Line>, attempts: nat)
    returns (ok: bool, candidates: seq<Candidate>, history: seq<HistoryRow>)
    requires TablesOk(t) && PlanOk(plan)
    requires EnoughNames(t, plan)
    ensures ok ==> Follows(plan, |plan|, candidates) && BatchOk(t, candidates, history)
    ensures SlugsApart(t.firstNames) && SlugsApart(t.lastNames) ==> ok && NoSuffixes(t, candidates)
  {
    var factory := new Factory(t, attempts);
    ok, candidates, history := BuildLines(factory, plan);
    if !ok {
      return;
    }
    ok, history := AddOldHistory(factory, candidates, history);
    if !ok {
      return;
    }
    var sorted := Sample(history, |history|);
    ReorderHistory(t, candidates, history, factory.usedEmails, sorted);
    TallyReordered(t, candidates, history, 4, sorted);
    history := sorted;
  }

  /** The candidates, line by line of the table, and their rows. */
  method BuildLines(factory: Factory, plan: seq<Line>)
    returns (ok: bool, candidates: seq<Candidate>, history: seq<HistoryRow>)
    requires TablesOk(factory.t) && PlanOk(plan)
    requires |factory.names| >= 2 * Total(plan) + 4 && factory.usedEmails == {}
    modifies factory
    ensures ok ==> |factory.names| >= 4
    ensures ok ==> Follows(plan, |plan|, candidates) && DuplicatesPaired(candidates, -1)
    ensures ok ==> BatchInv(factory.t, candidates, history, factory.usedEmails)
    ensures ok ==> Made(factory.t, candidates) && Tallies(factory.t, candidates, history, 0)
    ensures old(factory.EveryNameIsFree()) ==> ok && factory.EveryNameIsFree()
  {
    candidates, history := [], [];
    ok := true;
    for ci := 0 to |plan|
      invariant |factory.names| >= 2 * (Total(plan) - |candidates|) + 4
      invariant Follows(plan, ci, candidates)
      invariant BatchInv(factory.t, candidates, history, factory.usedEmails)
      invariant Made(factory.t, candidates) && Tallies(factory.t, candidates, history, 0)
      invariant DuplicatesPaired(candidates, -1)
      invariant old(factory.EveryNameIsFree()) ==> factory.EveryNameIsFree()
      invariant ok
    {
      NextLineFits(plan, ci, candidates);
      ghost var before := candidates;
      ok, candidates, history := BuildLine(factory, plan[ci], candidates, history);
      if !ok {
        return;
      }
      FollowsOneMore(plan, ci, before, candidates);
    }
    assert plan[..|plan|] == plan;
  }
}
