// The tables the generator really uses, and that they are as its traps need them: its answer key
// holds for every random stream.

module HiringTables {
  import opened RuleKit
  import opened Texts
  import opened HiringPolicy
  import opened HiringMock
  import opened HiringNames
  import HiringKey

  const POSITIONS: seq<Position> := [
    Position("BE-2026-03", "Backend Engineer", Open, 4, 55000, "Python; PostgreSQL"),
    Position("FE-2026-02", "Frontend Engineer", Open, 3, 48000, "TypeScript; React"),
    Position("DA-2026-01", "Data Analyst", Open, 2, 40000, "SQL; Python"),
    Position("PM-2026-01", "Product Manager", Open, 5, 60000, "Roadmaps; Analytics"),
    Position("QA-2026-01", "QA Engineer", Closed, 2, 38000, "Testing; Python"),
    Position("DEVOPS-2026-01", "DevOps Engineer", OnHold, 4, 58000, "Kubernetes; Terraform"),
    Position("HR-2026-02", "People Partner", Open, 3, 42000, "Recruiting; Payroll"),
    Position("SEC-2026-01", "Security Engineer", Open, 5, 65000, "Security; Linux")]

  const EXTRA_SKILLS: map<string, seq<string>> := map[
    "BE-2026-03" := ["Docker", "FastAPI", "Redis", "Kafka", "AWS"],
    "FE-2026-02" := ["CSS", "Vite", "Testing Library", "GraphQL", "Figma"],
    "DA-2026-01" := ["dbt", "Power BI", "Excel", "Looker", "Airflow"],
    "PM-2026-01" := ["Jira", "SQL", "User research", "OKRs", "Figma"],
    "QA-2026-01" := ["Playwright", "Cypress", "Postman", "CI/CD", "Docker"],
    "DEVOPS-2026-01" := ["AWS", "Ansible", "Prometheus", "Linux", "Go"],
    "HR-2026-02" := ["Onboarding", "Workday", "Labour law", "Compensation", "Excel"],
    "SEC-2026-01" := ["SIEM", "Pentesting", "Python", "AWS", "Incident response"]]

  const COMPANIES: seq<string> := [
    "Andamio Software", "Bahía Analytics", "Cerro Digital", "Dársena Labs", "Estuario Tech",
    "Faro Systems", "Glaciar Cloud", "Huerta Data", "Isla Consulting", "Jara Networks", "Laguna Retail",
    "Meseta Fintech", "Nube Norte", "Océano Studio", "Páramo Security"]

  const TABLES := Tables(
    POSITIONS,
    EXTRA_SKILLS,
    ["BE-2025-09", "ML-2026-01", "OPS-2024-02"],
    COMPANIES, FIRST_NAMES, LAST_NAMES,
    0,  // days are counted from the screening date
    2026)

  /** Two texts that differ in length or in their first letter, whatever its case. */
  predicate Apart(a: string, b: string) {
    |a| != |b| || (a != "" && b != "" && LowerChar(a[0]) != LowerChar(b[0]))
  }

  lemma {:induction false} ApartInLowerCase(a: string, b: string)
    requires Apart(a, b)
    ensures Lower(a) != Lower(b)
  {
  }

  /** A skill can stand in both kinds of list. */
  predicate IsSkill(s: string) {
    s != "" && ',' !in s && ';' !in s && !IsSpace(s[0]) && !IsSpace(s[|s| - 1])
  }

  ghost predicate AreSkills(skills: seq<string>) {
    forall i :: 0 <= i < |skills| ==> IsSkill(skills[i])
  }

  ghost predicate AllApart(required: seq<string>, extras: seq<string>) {
    && (forall i, j :: 0 <= i < j < |required| ==> Apart(required[i], required[j]))
    && (forall i, j :: 0 <= i < |required| && 0 <= j < |extras| ==> Apart(required[i], extras[j]))
  }

  lemma SkillsAreItems(skills: seq<string>)
    requires AreSkills(skills)
    ensures AllItems(skills, ',') && AllItems(skills, ';')
  {
  }

  lemma {:induction false} PositionFrom(t: Tables, p: Position, required: seq<string>, extras: seq<string>)
    requires p.code != "" && p.minYears >= 1
    requires p.requiredSkills == Join(required, ';') && required != [] && |extras| >= 3
    requires AreSkills(required) && AreSkills(extras) && AllApart(required, extras)
    requires p.code in t.extraSkills && t.extraSkills[p.code] == extras
    ensures PositionOk(t, p)
  {
    SkillsAreItems(required);
    SkillsAreItems(extras);
    SplitJoin(required, ';');
    assert Required(p) == required;
    var pool := SkillPool(t, p);
    forall s, r | s in pool && r in Required(p) && s != r
      ensures Lower(s) != Lower(r)
    {
      var i :| 0 <= i < |required| && required[i] == r;
      var j :| 0 <= j < |pool| && pool[j] == s;
      if j < |required| {
        assert Apart(required[if i < j then i else j], required[if i < j then j else i]);
      } else {
        assert Apart(required[i], extras[j - |required|]);
      }
      assert Apart(s, r);
      ApartInLowerCase(s, r);
    }
    forall e | e in extras
      ensures e !in required
    {
      var j :| 0 <= j < |extras| && extras[j] == e;
      forall i | 0 <= i < |required|
        ensures required[i] != e
      {
        assert Apart(required[i], extras[j]);
      }
    }
  }

  lemma BackendSkills()
    ensures AreSkills(["Python", "PostgreSQL"])
    ensures AreSkills(["Docker", "FastAPI", "Redis", "Kafka", "AWS"])
  {
  }

  lemma BackendApart()
    ensures AllApart(["Python", "PostgreSQL"], ["Docker", "FastAPI", "Redis", "Kafka", "AWS"])
  {
  }

  lemma FrontendSkills()
    ensures AreSkills(["TypeScript", "React"])
    ensures AreSkills(["CSS", "Vite", "Testing Library", "GraphQL", "Figma"])
  {
  }

  lemma FrontendApart()
    ensures AllApart(["TypeScript", "React"], ["CSS", "Vite", "Testing Library", "GraphQL", "Figma"])
  {
  }

  lemma DataSkills()
    ensures AreSkills(["SQL", "Python"])
    ensures AreSkills(["dbt", "Power BI", "Excel", "Looker", "Airflow"])
  {
  }

  lemma DataApart()
    ensures AllApart(["SQL", "Python"], ["dbt", "Power BI", "Excel", "Looker", "Airflow"])
  {
  }

  lemma ProductSkills()
    ensures AreSkills(["Roadmaps", "Analytics"])
    ensures AreSkills(["Jira", "SQL", "User research", "OKRs", "Figma"])
  {
  }

  lemma ProductApart()
    ensures AllApart(["Roadmaps", "Analytics"], ["Jira", "SQL", "User research", "OKRs", "Figma"])
  {
  }

  lemma QualitySkills()
    ensures AreSkills(["Testing", "Python"])
    ensures AreSkills(["Playwright", "Cypress", "Postman", "CI/CD", "Docker"])
  {
  }

  lemma QualityApart()
    ensures AllApart(["Testing", "Python"], ["Playwright", "Cypress", "Postman", "CI/CD", "Docker"])
  {
  }

  lemma OperationsSkills()
    ensures AreSkills(["Kubernetes", "Terraform"])
    ensures AreSkills(["AWS", "Ansible", "Prometheus", "Linux", "Go"])
  {
  }

  lemma OperationsApart()
    ensures AllApart(["Kubernetes", "Terraform"], ["AWS", "Ansible", "Prometheus", "Linux", "Go"])
  {
  }

  lemma PeopleSkills()
    ensures AreSkills(["Recruiting", "Payroll"])
    ensures AreSkills(["Onboarding", "Workday", "Labour law", "Compensation", "Excel"])
  {
  }

  lemma PeopleApart()
    ensures AllApart(["Recruiting", "Payroll"], ["Onboarding", "Workday", "Labour law", "Compensation", "Excel"])
  {
  }

  lemma SecuritySkills()
    ensures AreSkills(["Security", "Linux"])
    ensures AreSkills(["SIEM", "Pentesting", "Python", "AWS", "Incident response"])
  {
  }

  lemma SecurityApart()
    ensures AllApart(["Security", "Linux"], ["SIEM", "Pentesting", "Python", "AWS", "Incident response"])
  {
  }

  lemma BackendOk()
    ensures PositionOk(TABLES, POSITIONS[0])
  {
    BackendSkills();
    BackendApart();
    assert "Python; PostgreSQL" == Join(["Python", "PostgreSQL"], ';');
    PositionFrom(TABLES, POSITIONS[0], ["Python", "PostgreSQL"], ["Docker", "FastAPI", "Redis", "Kafka", "AWS"]);
  }

  lemma FrontendOk()
    ensures PositionOk(TABLES, POSITIONS[1])
  {
    FrontendSkills();
    FrontendApart();
    assert "TypeScript; React" == Join(["TypeScript", "React"], ';');
    PositionFrom(TABLES, POSITIONS[1], ["TypeScript", "React"], ["CSS", "Vite", "Testing Library", "GraphQL", "Figma"]);
  }

  lemma DataOk()
    ensures PositionOk(TABLES, POSITIONS[2])
  {
    DataSkills();
    DataApart();
    assert "SQL; Python" == Join(["SQL", "Python"], ';');
    PositionFrom(TABLES, POSITIONS[2], ["SQL", "Python"], ["dbt", "Power BI", "Excel", "Looker", "Airflow"]);
  }

  lemma ProductOk()
    ensures PositionOk(TABLES, POSITIONS[3])
  {
    ProductSkills();
    ProductApart();
    assert "Roadmaps; Analytics" == Join(["Roadmaps", "Analytics"], ';');
    PositionFrom(TABLES, POSITIONS[3], ["Roadmaps", "Analytics"], ["Jira", "SQL", "User research", "OKRs", "Figma"]);
  }

  lemma QualityOk()
    ensures PositionOk(TABLES, POSITIONS[4])
  {
    QualitySkills();
    QualityApart();
    assert "Testing; Python" == Join(["Testing", "Python"], ';');
    PositionFrom(TABLES, POSITIONS[4], ["Testing", "Python"], ["Playwright", "Cypress", "Postman", "CI/CD", "Docker"]);
  }

  lemma OperationsOk()
    ensures PositionOk(TABLES, POSITIONS[5])
  {
    OperationsSkills();
    OperationsApart();
    assert "Kubernetes; Terraform" == Join(["Kubernetes", "Terraform"], ';');
    PositionFrom(TABLES, POSITIONS[5], ["Kubernetes", "Terraform"], ["AWS", "Ansible", "Prometheus", "Linux", "Go"]);
  }

  lemma PeopleOk()
    ensures PositionOk(TABLES, POSITIONS[6])
  {
    PeopleSkills();
    PeopleApart();
    assert "Recruiting; Payroll" == Join(["Recruiting", "Payroll"], ';');
    PositionFrom(TABLES, POSITIONS[6], ["Recruiting", "Payroll"],
                 ["Onboarding", "Workday", "Labour law", "Compensation", "Excel"]);
  }

  lemma SecurityOk()
    ensures PositionOk(TABLES, POSITIONS[7])
  {
    SecuritySkills();
    SecurityApart();
    assert "Security; Linux" == Join(["Security", "Linux"], ';');
    PositionFrom(TABLES, POSITIONS[7], ["Security", "Linux"],
                 ["SIEM", "Pentesting", "Python", "AWS", "Incident response"]);
  }

  lemma CodesApart(i: nat, j: nat)
    requires i < 8 && j < 8 && POSITIONS[i].code == POSITIONS[j].code
    ensures i == j
  {
  }

  lemma PositionOkAt(i: nat)
    requires i < 8
    ensures PositionOk(TABLES, POSITIONS[i])
  {
    match i
    case 0 => BackendOk();
    case 1 => FrontendOk();
    case 2 => DataOk();
    case 3 => ProductOk();
    case 4 => QualityOk();
    case 5 => OperationsOk();
    case 6 => PeopleOk();
    case _ => SecurityOk();
  }

  lemma CodesAreUnique()
    ensures forall p, q :: p in POSITIONS && q in POSITIONS && p.code == q.code ==> p == q
  {
    forall p, q | p in POSITIONS && q in POSITIONS && p.code == q.code
      ensures p == q
    {
      var i :| 0 <= i < |POSITIONS| && POSITIONS[i] == p;
      var j :| 0 <= j < |POSITIONS| && POSITIONS[j] == q;
      CodesApart(i, j);
    }
  }

  lemma UnknownCodesAreUnknown()
    ensures forall code :: code in TABLES.unknownCodes ==> code != "" && forall p :: p in POSITIONS ==> p.code != code
  {
  }

  lemma EveryStatus()
    ensures HasStatus(TABLES, Open) && HasStatus(TABLES, Closed) && HasStatus(TABLES, OnHold)
  {
    assert POSITIONS[0] in POSITIONS && POSITIONS[4] in POSITIONS && POSITIONS[5] in POSITIONS;
  }

  lemma EveryPosition()
    ensures forall p :: p in POSITIONS ==> PositionOk(TABLES, p)
  {
    forall p | p in POSITIONS
      ensures PositionOk(TABLES, p)
    {
      var i :| 0 <= i < |POSITIONS| && POSITIONS[i] == p;
      PositionOkAt(i);
    }
  }

  /** The real tables are as the traps need them. */
  lemma TablesAreOk()
    ensures TablesOk(TABLES) && |TABLES.firstNames| == 48
  {
    EveryPosition();
    CodesAreUnique();
    UnknownCodesAreUnknown();
    EveryStatus();
  }

  /** The real generator, for every random stream and however few attempts it may make at an email: it
      finishes, no email has a suffix, and each answer is the policy's and its category's. */
  method Generate(attempts: nat)
    returns (candidates: seq<Candidate>, history: seq<HistoryRow>, rows: seq<Decision>)
    ensures Follows(CATEGORIES, |CATEGORIES|, candidates) && |candidates| == 44
    ensures BatchOk(TABLES, candidates, history)
    ensures HiringKey.AreAnswers(TABLES, candidates, history, rows) && HiringKey.AreExpected(CATEGORIES, rows)
    ensures NoSuffixes(TABLES, candidates)
  {
    TablesAreOk();
    HiringKey.TotalOfCategories();
    FirstNamesApart();
    LastNamesApart();
    var ok;
    ok, candidates, history, rows := HiringKey.Generate(TABLES, attempts);
  }
}
