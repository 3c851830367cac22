// The answer key: the policy, asked about any batch the generator can build, answers what the
// category table says.

module HiringKey {
  import opened Options
  import opened RuleKit
  import opened Texts
  import opened HiringPolicy
  import opened HiringMock

  // ----- file names are the candidates' identities

  lemma {:induction false} ValueOfLeadingZero(s: string)
    requires forall c :: c in s ==> IsDigit(c)
    ensures Value("0" + s) == Value(s)
  {
    if s != "" {
      ValueOfLeadingZero(s[..|s| - 1]);
      assert ("0" + s)[..|s|] == "0" + s[..|s| - 1];
      assert ("0" + s)[|s|] == s[|s| - 1];
    } else {
      assert "0" + s == "0" && "0"[..0] == "";
    }
  }

  function Padded(n: nat): string {
    (if n < 10 then "00" else if n < 100 then "0" else "") + Digits(n)
  }

  lemma ValueOfPadded(n: nat)
    ensures (forall c :: c in Padded(n) ==> IsDigit(c)) && Value(Padded(n)) == n
  {
    ValueOfDigits(n);
    ValueOfLeadingZero(Digits(n));
    ValueOfLeadingZero("0" + Digits(n));
    assert "00" + Digits(n) == "0" + ("0" + Digits(n));
    assert "" + Digits(n) == Digits(n);
  }

  /** A file's name is its number, in three digits or more, between `cv-` and `.pdf`. */
  lemma FileIdShows(n: nat) returns (digits: string)
    ensures FileId(n) == "cv-" + digits + ".pdf" && (forall c :: c in digits ==> IsDigit(c)) && Value(digits) == n
    ensures |digits| >= 3 && (n < 1000 ==> |digits| == 3)
  {
    digits := Padded(n);
    ValueOfPadded(n);
    HowManyDigits(n);
  }

  lemma {:induction false} HowManyDigits(n: nat)
    ensures n < 10 ==> |Digits(n)| == 1
    ensures 10 <= n < 100 ==> |Digits(n)| == 2
    ensures 100 <= n < 1000 ==> |Digits(n)| == 3
    ensures n >= 1000 ==> |Digits(n)| >= 4
  {
    if n >= 10 {
      HowManyDigits(n / 10);
    }
  }

  lemma FileIdsDiffer(m: nat, n: nat)
    ensures FileId(m) == FileId(n) ==> m == n
  {
    assert FileId(m) == "cv-" + Padded(m) + ".pdf" && FileId(n) == "cv-" + Padded(n) + ".pdf";
    if FileId(m) == FileId(n) {
      assert FileId(m)[3..|FileId(m)| - 4] == Padded(m);
      assert FileId(n)[3..|FileId(n)| - 4] == Padded(n);
      ValueOfPadded(m);
      ValueOfPadded(n);
    }
  }

  // ----- the other CVs

  function Truth(candidates: seq<Candidate>): (truth: seq<Symbols>)
    ensures |truth| == |candidates|
  {
    if candidates == [] then [] else [SymbolsOf(candidates[0])] + Truth(candidates[1..])
  }

  lemma {:induction false} TruthAt(candidates: seq<Candidate>, k: nat)
    requires k < |candidates|
    ensures Truth(candidates)[k] == SymbolsOf(candidates[k])
  {
    if k > 0 {
      TruthAt(candidates[1..], k - 1);
    }
  }

  function Others(truth: seq<Symbols>, id: string): (others: seq<Symbols>)
    ensures forall o :: o in others <==> o in truth && o.candidateId != id
  {
    if truth == [] then []
    else
      var rest := Others(truth[1..], id);
      assert forall o :: o in truth <==> o == truth[0] || o in truth[1..];
      if truth[0].candidateId == id then rest else [truth[0]] + rest
  }

  lemma SymbolsAreReadable(c: Candidate)
    ensures Readable(SymbolsOf(c))
    ensures IntOf(SymbolsOf(c).yearsExperience) == c.years && IntOf(SymbolsOf(c).expectedSalary) == c.salary
  {
    IntOfStr(c.years);
    IntOfStr(c.salary);
  }

  ghost predicate IdsApart(candidates: seq<Candidate>) {
    forall i, j :: 0 <= i < |candidates| && 0 <= j < |candidates| && candidates[i].fileId == candidates[j].fileId ==>
      i == j
  }

  ghost predicate LowerEmails(candidates: seq<Candidate>) {
    forall i :: 0 <= i < |candidates| && candidates[i].email.Some? ==> IsLower(candidates[i].email.value)
  }

  lemma BatchFacts(t: Tables, candidates: seq<Candidate>, history: seq<HistoryRow>)
    requires BatchOk(t, candidates, history)
    ensures IdsApart(candidates) && LowerEmails(candidates)
    ensures forall h :: h in history ==> IsLower(h.email)
    ensures EmailsApart(candidates) && HistoryFits(t, candidates, history)
    ensures forall i :: 0 <= i < |candidates| ==> Trapped(t, candidates[i])
  {
    var used :| BatchInv(t, candidates, history, used);
    InvFacts(t, candidates, history, used);
  }

  lemma InvFacts(t: Tables, candidates: seq<Candidate>, history: seq<HistoryRow>, used: set<string>)
    requires BatchInv(t, candidates, history, used)
    ensures IdsApart(candidates) && LowerEmails(candidates)
    ensures forall h :: h in history ==> IsLower(h.email)
    ensures EmailsApart(candidates) && HistoryFits(t, candidates, history)
    ensures forall i :: 0 <= i < |candidates| ==> Trapped(t, candidates[i])
  {
    forall i, j | 0 <= i < |candidates| && 0 <= j < |candidates| && candidates[i].fileId == candidates[j].fileId
      ensures i == j
    {
      FileIdsDiffer(i + 1, j + 1);
    }
  }

  /** An email is shared with the other CVs exactly when another candidate has it. */
  lemma {:induction false} SharedMeans(candidates: seq<Candidate>, k: nat)
    requires k < |candidates| && IdsApart(candidates) && LowerEmails(candidates)
    requires candidates[k].email.Some? && candidates[k].email.value != ""
    ensures Email(SymbolsOf(candidates[k])) == candidates[k].email.value
    ensures Shared(Others(Truth(candidates), candidates[k].fileId), candidates[k].email.value) <==>
            Paired(candidates, k)
  {
    var truth := Truth(candidates);
    var others := Others(truth, candidates[k].fileId);
    var email := candidates[k].email.value;
    LowerOfLower(email);
    if Shared(others, email) {
      var o :| o in others && Email(o) == email;
      var j :| 0 <= j < |truth| && truth[j] == o;
      TruthAt(candidates, j);
      LowerOfLower(candidates[j].email.value);
      assert candidates[j].email == candidates[k].email;
    }
    if Paired(candidates, k) {
      var j :| 0 <= j < |candidates| && j != k && candidates[j].email == candidates[k].email;
      TruthAt(candidates, j);
      assert truth[j] in truth && truth[j] in others && Email(truth[j]) == email;
    }
  }

  // ----- skills survive being printed and read

  lemma OfferedSkills(c: Candidate)
    requires c.skills != [] && AllItems(c.skills, ',')
    ensures forall x :: x in Offered(SymbolsOf(c)) <==> exists i :: 0 <= i < |c.skills| && x == Lower(c.skills[i])
  {
    SplitJoin(c.skills, ',');
    var parts := Split(Join(c.skills, ','), ',');
    StrippedAt(parts);
  }

  lemma {:induction false} StrippedAt(parts: seq<string>)
    ensures |Stripped(parts)| == |parts|
    ensures forall i :: 0 <= i < |parts| ==> Stripped(parts)[i] == Strip(parts[i])
  {
    if parts != [] {
      StrippedAt(parts[1..]);
    }
  }

  lemma SkillsAreItems(t: Tables, c: Candidate, p: Position)
    requires TablesOk(t) && p in t.positions && SkillsFrom(t, c, p)
    ensures c.skills != [] && AllItems(c.skills, ',')
  {
  }

  lemma SkilledMeans(t: Tables, c: Candidate, p: Position)
    requires TablesOk(t) && p in t.positions && SkillsFrom(t, c, p) && Skilled(c, p)
    ensures !LacksASkill(SymbolsOf(c), p)
  {
    SkillsAreItems(t, c, p);
    OfferedSkills(c);
    forall i | 0 <= i < |Required(p)|
      ensures Lower(Required(p)[i]) in Offered(SymbolsOf(c))
    {
      assert Required(p)[i] in c.skills;
    }
  }

  lemma LacksOneMeans(t: Tables, c: Candidate, p: Position)
    requires TablesOk(t) && p in t.positions && LacksOne(t, c, p)
    ensures LacksASkill(SymbolsOf(c), p)
  {
    SkillsAreItems(t, c, p);
    OfferedSkills(c);
    var i :| 0 <= i < |Required(p)| && Required(p)[i] !in c.skills;
    var r := Required(p)[i];
    assert r in Required(p);
    forall j | 0 <= j < |c.skills|
      ensures Lower(c.skills[j]) != Lower(r)
    {
      assert c.skills[j] in SkillPool(t, p) && c.skills[j] != r;
    }
  }

  // ----- the reasons, one by one

  lemma {:induction false} ByCodeFinds(positions: seq<Position>, code: string)
    ensures match ByCode(positions, code)
            case None => forall p :: p in positions ==> p.code != code
            case Some(p) => p in positions && p.code == code
  {
    if positions != [] {
      ByCodeFinds(positions[..|positions| - 1], code);
      assert positions == positions[..|positions| - 1] + [positions[|positions| - 1]];
    }
  }

  /** Where a code has several rows, the last one counts. */
  lemma {:induction false} ByCodeIsTheLast(positions: seq<Position>, more: seq<Position>, p: Position)
    requires forall q :: q in more ==> q.code != p.code
    ensures ByCode(positions + [p] + more, p.code) == Some(p)
    decreases |more|
  {
    var all := positions + [p] + more;
    if more == [] {
      assert all[|all| - 1] == p;
    } else {
      var front := more[..|more| - 1];
      assert all[|all| - 1] == more[|more| - 1] && all[..|all| - 1] == positions + [p] + front;
      assert forall q :: q in front ==> q in more;
      ByCodeIsTheLast(positions, front, p);
    }
  }

  predicate Asks(reasons: seq<Reason>) {
    exists r :: r in reasons && r in REVIEW
  }

  lemma AsksTogether(a: seq<Reason>, b: seq<Reason>)
    ensures Asks(a + b) <==> Asks(a) || Asks(b)
    ensures a + b == [] <==> a == [] && b == []
  {
  }

  lemma AsksWhen(condition: bool, reason: Reason)
    ensures Asks(When(condition, reason)) <==> condition && reason in REVIEW
    ensures When(condition, reason) == [] <==> !condition
  {
  }

  lemma PositionAsks(symbols: Symbols, p: Position)
    requires Readable(symbols)
    ensures Asks(PositionReasons(symbols, p)) <==> p.status == OnHold || IntOf(symbols.expectedSalary) > p.salaryCap
    ensures PositionReasons(symbols, p) == [] <==>
            && p.status == Open && IntOf(symbols.yearsExperience) >= p.minYears
            && IntOf(symbols.expectedSalary) <= p.salaryCap && !LacksASkill(symbols, p)
  {
  }

  lemma PositionPart(symbols: Symbols, position: Option<Position>)
    requires Readable(symbols)
    ensures var reasons := match position case None => [] case Some(p) => PositionReasons(symbols, p);
            && (Asks(reasons) <==>
                && position.Some?
                && (position.value.status == OnHold || IntOf(symbols.expectedSalary) > position.value.salaryCap))
            && (!Asks(reasons) ==>
                  (reasons == [] <==>
                   !(&& position.Some?
                     && (position.value.status == Closed || IntOf(symbols.yearsExperience) < position.value.minYears
                         || LacksASkill(symbols, position.value)))))
  {
    if position.Some? {
      PositionAsks(symbols, position.value);
    }
  }

  lemma EmailAsks(email: string, sources: Sources, batch: seq<Symbols>)
    ensures Asks(EmailReasons(email, sources, batch)) <==>
            email != "" && (Recent(sources.history, email, sources.screening - REAPPLY_DAYS) || Shared(batch, email))
    ensures !Asks(EmailReasons(email, sources, batch)) ==>
              (EmailReasons(email, sources, batch) == [] <==> !(email != "" && Barred(sources.history, email)))
  {
  }

  /** Everything that sends a CV to a person. */
  predicate NeedsReview(symbols: Symbols, sources: Sources, batch: seq<Symbols>)
    requires Readable(symbols)
  {
    var position := ByCode(sources.positions, symbols.positionCode);
    var email := Email(symbols);
    || symbols.fullName == "" || symbols.email in {None, Some("")} || symbols.positionCode == ""
    || position == None
    || position.value.status == OnHold || IntOf(symbols.expectedSalary) > position.value.salaryCap
    || (email != "" && (Recent(sources.history, email, sources.screening - REAPPLY_DAYS) || Shared(batch, email)))
    || symbols.availableFrom > sources.screening + AVAILABILITY_DAYS
  }

  /** Everything else that keeps it from an interview. */
  predicate NeedsRefusal(symbols: Symbols, sources: Sources)
    requires Readable(symbols)
  {
    var position := ByCode(sources.positions, symbols.positionCode);
    || (position.Some? &&
        (position.value.status == Closed || IntOf(symbols.yearsExperience) < position.value.minYears
         || LacksASkill(symbols, position.value)))
    || (Email(symbols) != "" && Barred(sources.history, Email(symbols)))
  }

  /** The policy without its list of reasons: a person first, then a refusal, then an interview. */
  lemma OutcomeMeans(symbols: Symbols, sources: Sources, batch: seq<Symbols>)
    requires Readable(symbols)
    ensures Outcome(symbols, sources, batch) ==
            if NeedsReview(symbols, sources, batch) then Review
            else if NeedsRefusal(symbols, sources) then Reject
            else Interview
  {
    var position := ByCode(sources.positions, symbols.positionCode);
    var missing := symbols.fullName == "" || symbols.email in {None, Some("")} || symbols.positionCode == "";
    var unknown := symbols.positionCode != "" && position == None;
    var late := symbols.availableFrom > sources.screening + AVAILABILITY_DAYS;
    var a, b := When(missing, MissingData), When(unknown, UnknownPosition);
    var c := match position case None => [] case Some(p) => PositionReasons(symbols, p);
    var d := EmailReasons(Email(symbols), sources, batch);
    AsksWhen(missing, MissingData);
    AsksWhen(unknown, UnknownPosition);
    AsksWhen(late, LateAvailability);
    PositionPart(symbols, position);
    EmailAsks(Email(symbols), sources, batch);
    DecideTogether(a, b, c, d, When(late, LateAvailability));
    assert Reasons(symbols, sources, batch) == a + b + c + d + When(late, LateAvailability);
  }

  /** Whether anything asks for a person, and whether there is any reason, does not depend on the order. */
  lemma DecideTogether(a: seq<Reason>, b: seq<Reason>, c: seq<Reason>, d: seq<Reason>, e: seq<Reason>)
    ensures Decide(a + b + c + d + e) ==
            if Asks(a) || Asks(b) || Asks(c) || Asks(d) || Asks(e) then Review
            else if a != [] || b != [] || c != [] || d != [] || e != [] then Reject
            else Interview
  {
    AsksTogether(a, b);
    AsksTogether(a + b, c);
    AsksTogether(a + b + c, d);
    AsksTogether(a + b + c + d, e);
    assert Decide(a + b + c + d + e) == if Asks(a + b + c + d + e) then Review
                                        else if a + b + c + d + e != [] then Reject else Interview;
  }

  // ----- the answer key never contradicts the policy

  lemma FindsItsPosition(t: Tables, p: Position)
    requires TablesOk(t) && p in t.positions
    ensures ByCode(t.positions, p.code) == Some(p)
  {
    ByCodeFinds(t.positions, p.code);
  }

  /** What history and the other CVs say about a candidate's email. */
  // ----- the policy in its own words

  /** The printed email, nothing where there is none. */
  ghost function Printed(symbols: Symbols): string {
    match symbols.email case None => "" case Some(email) => email
  }

  /** The history has a row of this person, in whatever case the email is printed, since that day. */
  ghost predicate Applied(history: seq<HistoryRow>, email: string, since: int) {
    exists h :: h in history && Lower(h.email) == Lower(email) && h.lastApplied >= since
  }

  ghost predicate SentByAnother(batch: seq<Symbols>, email: string) {
    exists o :: o in batch && Lower(Printed(o)) == Lower(email)
  }

  ghost predicate NotToBeRehired(history: seq<HistoryRow>, email: string) {
    exists h :: h in history && Lower(h.email) == Lower(email) && h.doNotRehire == "yes"
  }

  ghost predicate Offers(skills: string, skill: string) {
    exists j :: 0 <= j < |Split(skills, ',')| && Lower(Strip(Split(skills, ',')[j])) == Lower(skill)
  }

  /** Some skill the position requires is not among the printed ones, whatever the case. */
  ghost predicate MissesASkill(symbols: Symbols, p: Position) {
    exists i :: 0 <= i < |Split(p.requiredSkills, ';')|
                && !Offers(symbols.skills, Strip(Split(p.requiredSkills, ';')[i]))
  }

  /** A datum is missing, the position unknown or on hold or too poor, the person a recent applicant or twice in
      the batch, or the date more than ninety days off. */
  ghost predicate GoesToAPerson(symbols: Symbols, sources: Sources, batch: seq<Symbols>)
    requires Readable(symbols)
  {
    var position := ByCode(sources.positions, symbols.positionCode);
    || symbols.fullName == "" || Printed(symbols) == "" || symbols.positionCode == "" || position == None
    || position.value.status == OnHold || IntOf(symbols.expectedSalary) > position.value.salaryCap
    || Applied(sources.history, Printed(symbols), sources.screening - 180)
    || SentByAnother(batch, Printed(symbols))
    || symbols.availableFrom - sources.screening > 90
  }

  /** The position is closed or asks for more, or the person is not to be rehired. */
  ghost predicate IsRefused(symbols: Symbols, sources: Sources)
    requires Readable(symbols)
  {
    || (match ByCode(sources.positions, symbols.positionCode)
        case None => false
        case Some(p) =>
          p.status == Closed || IntOf(symbols.yearsExperience) < p.minYears || MissesASkill(symbols, p))
    || NotToBeRehired(sources.history, Printed(symbols))
  }

  /** The policy, said without any of its own steps. */
  lemma PolicyMeans(symbols: Symbols, sources: Sources, batch: seq<Symbols>)
    requires Readable(symbols)
    ensures Outcome(symbols, sources, batch) ==
            if GoesToAPerson(symbols, sources, batch) then Review
            else if IsRefused(symbols, sources) then Reject
            else Interview
  {
    OutcomeMeans(symbols, sources, batch);
    EmailMeans(symbols, sources, batch);
    var position := ByCode(sources.positions, symbols.positionCode);
    if position.Some? {
      LacksMeans(symbols, position.value);
    }
  }

  lemma EmailMeans(symbols: Symbols, sources: Sources, batch: seq<Symbols>)
    ensures Email(symbols) == Lower(Printed(symbols)) && (Email(symbols) == "" <==> Printed(symbols) == "")
    ensures Recent(sources.history, Email(symbols), sources.screening - REAPPLY_DAYS) <==>
            Applied(sources.history, Printed(symbols), sources.screening - 180)
    ensures Shared(batch, Email(symbols)) <==> SentByAnother(batch, Printed(symbols))
    ensures Barred(sources.history, Email(symbols)) <==> NotToBeRehired(sources.history, Printed(symbols))
  {
    forall o | o in batch
      ensures Email(o) == Lower(Printed(o))
    {
      assert Lower("") == "";
    }
  }

  lemma LacksMeans(symbols: Symbols, p: Position)
    ensures LacksASkill(symbols, p) <==> MissesASkill(symbols, p)
  {
    var parts := Split(p.requiredSkills, ';');
    StrippedAt(parts);
    forall i | 0 <= i < |parts|
      ensures Lower(Required(p)[i]) in Offered(symbols) <==> Offers(symbols.skills, Strip(parts[i]))
    {
    }
  }

  ghost predicate EmailTells(t: Tables, c: Candidate, history: seq<HistoryRow>, others: seq<Symbols>) {
    var email := Email(SymbolsOf(c));
    && c.email == Some(email) && email != ""
    && (Barred(history, email) ==> c.category in {DO_NOT_REHIRE, RECENT_REAPPLY})
    && (c.category == DO_NOT_REHIRE ==> Barred(history, email))
    && (Recent(history, email, t.screening - REAPPLY_DAYS) <==> c.category == RECENT_REAPPLY)
    && (Shared(others, email) <==> c.category == DUPLICATE_CANDIDATE)
  }

  lemma {:induction false} EmailStory(t: Tables, candidates: seq<Candidate>, history: seq<HistoryRow>, k: nat)
    requires k < |candidates| && BatchOk(t, candidates, history)
    requires Reachable(candidates[k])
    ensures EmailTells(t, candidates[k], history, Others(Truth(candidates), candidates[k].fileId))
  {
    BatchFacts(t, candidates, history);
    SharedMeans(candidates, k);
    var c, email := candidates[k], candidates[k].email.value;
    forall h | h in history && InHistory(email, h)
      ensures RowFits(t, c, h)
    {
      LowerOfLower(h.email);
      assert HasEmail(candidates[k], h.email);
    }
    if c.category in {DO_NOT_REHIRE, RECENT_REAPPLY} {
      var h :| h in history && HasEmail(c, h.email);
      LowerOfLower(h.email);
      assert InHistory(email, h) && RowFits(t, c, h);
    }
    if Paired(candidates, k) {
      var j :| 0 <= j < |candidates| && j != k && candidates[j].email == candidates[k].email;
      assert candidates[if j < k then j else k].email == candidates[if j < k then k else j].email;
    }
    if c.category == DUPLICATE_CANDIDATE {
      assert Paired(candidates, k);
    }
  }

  ghost predicate Answers(t: Tables, c: Candidate, history: seq<HistoryRow>, others: seq<Symbols>,
                          decision: Decision) {
    Readable(SymbolsOf(c)) && Outcome(SymbolsOf(c), SourcesOf(t, history), others) == decision
  }

  /** A candidate that is clean but for its position's state or its history. */
  lemma CleanAnswer(t: Tables, c: Candidate, history: seq<HistoryRow>, others: seq<Symbols>, p: Position)
    requires TablesOk(t) && CleanFor(t, c, p) && EmailTells(t, c, history, others)
    requires c.category != DUPLICATE_CANDIDATE
    ensures Answers(t, c, history, others,
                    if p.status == OnHold || c.category == RECENT_REAPPLY then Review
                    else if p.status == Closed || c.category == DO_NOT_REHIRE then Reject
                    else Interview)
  {
    FindsItsPosition(t, p);
    SymbolsAreReadable(c);
    SkilledMeans(t, c, p);
    OutcomeMeans(SymbolsOf(c), SourcesOf(t, history), others);
    assert PositionOk(t, p);
  }

  /** A candidate with one refusable fault at an open position. */
  lemma FaultyAnswer(t: Tables, c: Candidate, history: seq<HistoryRow>, others: seq<Symbols>, p: Position)
    requires TablesOk(t) && OtherwiseFine(t, c, p) && p.status == Open && EmailTells(t, c, history, others)
    requires c.category in {BELOW_MIN_YEARS, INJECTED_TEXT, MISSING_SKILL}
    requires c.years < p.minYears || LacksOne(t, c, p)
    ensures Answers(t, c, history, others, Reject)
  {
    FindsItsPosition(t, p);
    SymbolsAreReadable(c);
    if LacksOne(t, c, p) {
      LacksOneMeans(t, c, p);
    }
    OutcomeMeans(SymbolsOf(c), SourcesOf(t, history), others);
    assert PositionOk(t, p);
  }

  /** A trap that asks for a person whatever the email says. */
  lemma ReviewAnswer(t: Tables, c: Candidate, history: seq<HistoryRow>, others: seq<Symbols>)
    requires TablesOk(t) && Trapped(t, c)
    requires c.category in {MISSING_EMAIL, UNKNOWN_POSITION, SALARY_OVER_CAP, LATE_AVAILABILITY}
    ensures Answers(t, c, history, others, Review)
  {
    SymbolsAreReadable(c);
    if c.category == UNKNOWN_POSITION {
      ByCodeFinds(t.positions, c.positionCode);
    } else if c.category == SALARY_OVER_CAP {
      var p :| p in t.positions && c.positionCode == p.code && c.salary > p.salaryCap;
      FindsItsPosition(t, p);
    }
    OutcomeMeans(SymbolsOf(c), SourcesOf(t, history), others);
  }

  lemma DuplicateAnswer(t: Tables, c: Candidate, history: seq<HistoryRow>, others: seq<Symbols>)
    requires EmailTells(t, c, history, others) && c.category == DUPLICATE_CANDIDATE
    ensures Answers(t, c, history, others, Review)
  {
  }

  lemma TrappedAnswer(t: Tables, c: Candidate, history: seq<HistoryRow>, others: seq<Symbols>)
    requires TablesOk(t) && Trapped(t, c)
    requires Reachable(c) ==> EmailTells(t, c, history, others)
    ensures Answers(t, c, history, others, Target(c.category))
  {
    match c.category
    case MISSING_EMAIL | UNKNOWN_POSITION | SALARY_OVER_CAP | LATE_AVAILABILITY =>
      ReviewAnswer(t, c, history, others);
    case BELOW_MIN_YEARS | INJECTED_TEXT | MISSING_SKILL =>
      FaultyTrapAnswer(t, c, history, others);
    case DUPLICATE_CANDIDATE =>
      DuplicateAnswer(t, c, history, others);
    case _ =>
      CleanTrapAnswer(t, c, history, others);
  }

  lemma FaultyTrapAnswer(t: Tables, c: Candidate, history: seq<HistoryRow>, others: seq<Symbols>)
    requires TablesOk(t) && Trapped(t, c)
    requires Reachable(c) ==> EmailTells(t, c, history, others)
    requires c.category in {BELOW_MIN_YEARS, INJECTED_TEXT, MISSING_SKILL}
    ensures Answers(t, c, history, others, Reject)
  {
    if c.category == MISSING_SKILL {
      var p :| OtherwiseFine(t, c, p) && p.status == Open && LacksOne(t, c, p);
      FaultyAnswer(t, c, history, others, p);
    } else {
      var p :| OtherwiseFine(t, c, p) && p.status == Open && c.years < p.minYears;
      FaultyAnswer(t, c, history, others, p);
    }
  }

  lemma CleanTrapAnswer(t: Tables, c: Candidate, history: seq<HistoryRow>, others: seq<Symbols>)
    requires TablesOk(t) && Trapped(t, c)
    requires Reachable(c) ==> EmailTells(t, c, history, others)
    requires c.category in {CLEAN, POSITION_CLOSED, POSITION_ON_HOLD, DO_NOT_REHIRE, RECENT_REAPPLY, SPANISH_LABELS,
                            SCANNED}
    ensures Answers(t, c, history, others, Target(c.category))
  {
    var status := if c.category == POSITION_CLOSED then Closed
                  else if c.category == POSITION_ON_HOLD then OnHold else Open;
    assert CleanAt(t, c, status);
    var p :| CleanFor(t, c, p) && p.status == status;
    CleanAnswer(t, c, history, others, p);
  }

  /** For every batch the generator can build, the policy gives each candidate its category's decision:
      the assertion in the answer key cannot fail. */
  lemma {:induction false} AnswerIsTarget(t: Tables, candidates: seq<Candidate>, history: seq<HistoryRow>, k: nat)
    requires TablesOk(t) && BatchOk(t, candidates, history) && k < |candidates|
    ensures Answers(t, candidates[k], history, Others(Truth(candidates), candidates[k].fileId),
                    Target(candidates[k].category))
  {
    BatchFacts(t, candidates, history);
    if Reachable(candidates[k]) {
      EmailStory(t, candidates, history, k);
    }
    TrappedAnswer(t, candidates[k], history, Others(Truth(candidates), candidates[k].fileId));
  }

  /** Every row is the policy's answer about its candidate, against the history and all other CVs. */
  ghost predicate AreAnswers(t: Tables, candidates: seq<Candidate>, history: seq<HistoryRow>, rows: seq<Decision>) {
    && |rows| == |candidates|
    && forall k :: 0 <= k < |rows| ==>
         Answers(t, candidates[k], history, Others(Truth(candidates), candidates[k].fileId), rows[k])
  }

  /** Every file of a line has the decision the line expects. */
  ghost predicate AreExpected(plan: seq<Line>, rows: seq<Decision>) {
    forall i, k :: 0 <= i < |plan| && InLine(plan, i, k) ==> 0 <= k < |rows| && rows[k] == plan[i].expected
  }

  /** The answer key itself: the policy's answers, and each the one its line expects. */
  method ExpectedRows(t: Tables, candidates: seq<Candidate>, history: seq<HistoryRow>, plan: seq<Line>)
    returns (rows: seq<Decision>)
    requires TablesOk(t) && PlanOk(plan) && BatchOk(t, candidates, history)
    requires Follows(plan, |plan|, candidates)
    ensures AreAnswers(t, candidates, history, rows)
    ensures AreExpected(plan, rows)
  {
    AllAnswered(t, candidates, history);
    rows := AnswersOf(t, candidates, history);
    TargetsAreAnswers(t, candidates, history, rows);
    ExpectedByLine(candidates, plan, rows);
  }

  /** What the assertion in the loop needs: asked about each candidate, the policy answers its target. */
  ghost predicate TargetsAnswered(t: Tables, candidates: seq<Candidate>, history: seq<HistoryRow>) {
    forall k :: 0 <= k < |candidates| ==> TargetAnswered(t, candidates, history, k)
  }

  ghost predicate TargetAnswered(t: Tables, candidates: seq<Candidate>, history: seq<HistoryRow>, k: nat)
    requires k < |candidates|
  {
    Answers(t, candidates[k], history, Others(Truth(candidates), candidates[k].fileId), Target(candidates[k].category))
  }

  lemma {:induction false} AllAnswered(t: Tables, candidates: seq<Candidate>, history: seq<HistoryRow>)
    requires TablesOk(t) && BatchOk(t, candidates, history)
    ensures TargetsAnswered(t, candidates, history)
  {
    forall k | 0 <= k < |candidates|
      ensures TargetAnswered(t, candidates, history, k)
    {
      AnswerIsTarget(t, candidates, history, k);
    }
  }

  /** The first decisions are the targets of the first candidates. */
  ghost predicate AreTargets(candidates: seq<Candidate>, rows: seq<Decision>) {
    |rows| <= |candidates| && forall k :: 0 <= k < |rows| ==> rows[k] == Target(candidates[k].category)
  }

  ghost predicate IsTruth(candidates: seq<Candidate>, truth: seq<Symbols>) {
    truth == Truth(candidates)
  }

  /** The loop of the key. */
  method AnswersOf(t: Tables, candidates: seq<Candidate>, history: seq<HistoryRow>) returns (rows: seq<Decision>)
    requires TargetsAnswered(t, candidates, history)
    ensures |rows| == |candidates| && AreTargets(candidates, rows)
  {
    var truth := Truth(candidates);
    rows := [];
    for k := 0 to |candidates|
      invariant |rows| == k && AreTargets(candidates, rows)
    {
      var decision := AnswerOf(t, candidates, history, truth, k);
      rows := rows + [decision];
    }
  }

  /** One turn: the policy asked about a candidate against all others, and the assertion about its answer. */
  method AnswerOf(t: Tables, candidates: seq<Candidate>, history: seq<HistoryRow>, truth: seq<Symbols>, k: nat)
    returns (decision: Decision)
    requires TargetsAnswered(t, candidates, history) && k < |candidates| && IsTruth(candidates, truth)
    ensures decision == Target(candidates[k].category)
  {
    TruthAt(candidates, k);
    assert TargetAnswered(t, candidates, history, k);
    var others := Others(truth, truth[k].candidateId);
    decision := Outcome(truth[k], SourcesOf(t, history), others);
    assert decision == Target(candidates[k].category);
  }

  lemma {:induction false} TargetsAreAnswers(t: Tables, candidates: seq<Candidate>, history: seq<HistoryRow>,
                                             rows: seq<Decision>)
    requires TargetsAnswered(t, candidates, history) && |rows| == |candidates| && AreTargets(candidates, rows)
    ensures AreAnswers(t, candidates, history, rows)
  {
    forall k | 0 <= k < |rows|
      ensures Answers(t, candidates[k], history, Others(Truth(candidates), candidates[k].fileId), rows[k])
    {
      assert TargetAnswered(t, candidates, history, k);
    }
  }

  lemma ExpectedByLine(candidates: seq<Candidate>, plan: seq<Line>, rows: seq<Decision>)
    requires PlanOk(plan) && Follows(plan, |plan|, candidates) && |rows| == |candidates| && AreTargets(candidates, rows)
    ensures AreExpected(plan, rows)
  {
  }

  /** The generator and its answer key, for any random stream. */
  method Generate(t: Tables, attempts: nat)
    returns (ok: bool, candidates: seq<Candidate>, history: seq<HistoryRow>, rows: seq<Decision>)
    requires TablesOk(t) && EnoughNames(t, CATEGORIES)
    ensures SlugsApart(t.firstNames) && SlugsApart(t.lastNames) ==> ok && NoSuffixes(t, candidates)
    ensures ok ==> Follows(CATEGORIES, |CATEGORIES|, candidates) && BatchOk(t, candidates, history)
    ensures ok ==> |candidates| == 44 && AreAnswers(t, candidates, history, rows)
    ensures ok ==> AreExpected(CATEGORIES, rows)
  {
    CategoriesArePlanOk();
    TotalOfCategories();
    ok, candidates, history := Build(t, CATEGORIES, attempts);
    rows := [];
    if ok {
      assert CATEGORIES[..|CATEGORIES|] == CATEGORIES;
      rows := ExpectedRows(t, candidates, history, CATEGORIES);
    }
  }

  lemma TotalOfCategories()
    ensures Total(CATEGORIES) == 44
  {
    forall i | 0 <= i < 15
      ensures Total(CATEGORIES[..i + 1]) == Total(CATEGORIES[..i]) + CATEGORIES[i].count
    {
      TotalOfPrefix(CATEGORIES, i);
    }
    assert CATEGORIES[..0] == [] && CATEGORIES[..15] == CATEGORIES;
    assert Total(CATEGORIES[..0 + 1]) == 10 && Total(CATEGORIES[..1 + 1]) == 13;
    assert Total(CATEGORIES[..2 + 1]) == 16 && Total(CATEGORIES[..3 + 1]) == 18;
    assert Total(CATEGORIES[..4 + 1]) == 20 && Total(CATEGORIES[..5 + 1]) == 23;
    assert Total(CATEGORIES[..6 + 1]) == 26 && Total(CATEGORIES[..7 + 1]) == 29;
    assert Total(CATEGORIES[..8 + 1]) == 32 && Total(CATEGORIES[..9 + 1]) == 35;
    assert Total(CATEGORIES[..10 + 1]) == 37 && Total(CATEGORIES[..11 + 1]) == 39;
    assert Total(CATEGORIES[..12 + 1]) == 40 && Total(CATEGORIES[..13 + 1]) == 42;
  }
}
