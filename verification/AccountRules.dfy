// R02, R03, R04 and R17: which supplier, which account, and whether a different account is a
// refusal or our own misreading of the approved one.

module AccountRules {
  import opened Options
  import opened RuleKit
  import opened EditDistance
  import opened Comparable

  const NEAR_MISS := 4

  /** The supplier rows of one normalised tax number, in table order. */
  function Theirs(py: Platform, nif: string, suppliers: seq<Supplier>): seq<Supplier> {
    if suppliers == [] then []
    else (if Key(py, suppliers[0].nif) == nif then [suppliers[0]] else [])
         + Theirs(py, nif, suppliers[1..])
  }

  lemma {:induction false} TheirsAreExactly(py: Platform, nif: string, suppliers: seq<Supplier>, r: Supplier)
    ensures r in Theirs(py, nif, suppliers) <==> r in suppliers && Key(py, r.nif) == nif
  {
    if suppliers != [] {
      TheirsAreExactly(py, nif, suppliers[1..], r);
      assert suppliers == [suppliers[0]] + suppliers[1..];
    }
  }

  function Ids(theirs: seq<Supplier>): set<string> {
    set r | r in theirs :: Text(r.id)
  }

  function Accounts(py: Platform, theirs: seq<Supplier>): set<string> {
    set r | r in theirs :: Iban(py, r.iban)
  }

  function Pairs(py: Platform, theirs: seq<Supplier>): set<(string, string)> {
    set r | r in theirs :: (Text(r.id), Iban(py, r.iban))
  }

  /** The one account the master approves, or None when the master cannot answer. */
  function ApprovedAccount(py: Platform, invoice: Invoice, suppliers: seq<Supplier>): Option<string> {
    var nif := Key(py, invoice.issuerNif);
    var theirs := Theirs(py, nif, suppliers);
    if nif == "" || Empty(invoice.iban) || theirs == [] then None
    else if |Ids(theirs)| > 1 || |Accounts(py, theirs)| > 1 then None
    else Some(Iban(py, theirs[0].iban))
  }

  // ----- the rules

  function R02(py: Platform, invoice: Invoice, suppliers: seq<Supplier>): Verdict {
    var nif := Key(py, invoice.issuerNif);
    if nif == "" then Passes
    else if exists r :: r in suppliers && Key(py, r.nif) == nif then Passes
    else Fires
  }

  function R04(py: Platform, invoice: Invoice, suppliers: seq<Supplier>): Verdict {
    var nif := Key(py, invoice.issuerNif);
    if nif == "" then Passes
    else if |Pairs(py, Theirs(py, nif, suppliers))| > 1 then Fires
    else Passes
  }

  function R03(py: Platform, invoice: Invoice, suppliers: seq<Supplier>): Verdict {
    match ApprovedAccount(py, invoice, suppliers)
    case None => Passes
    case Some(approved) =>
      var theirs := Iban(py, invoice.iban);
      if theirs == approved || Distance(theirs, approved) <= NEAR_MISS then Passes else Fires
  }

  function R17(py: Platform, invoice: Invoice, suppliers: seq<Supplier>): Verdict {
    match ApprovedAccount(py, invoice, suppliers)
    case None => Passes
    case Some(approved) =>
      var theirs := Iban(py, invoice.iban);
      if theirs == approved || Distance(theirs, approved) > NEAR_MISS then Passes else Fires
  }

  method EvaluateR03(py: Platform, invoice: Invoice, suppliers: seq<Supplier>) returns (verdict: Verdict)
    ensures verdict == R03(py, invoice, suppliers)
  {
    var approved := ApprovedAccount(py, invoice, suppliers);
    if approved == None {
      return Passes;
    }
    var theirs := Iban(py, invoice.iban);
    if theirs == approved.value {
      return Passes;
    }
    var edits := Differences(theirs, approved.value);
    return if edits <= NEAR_MISS then Passes else Fires;
  }

  /** R17 also prints the number of edits in its reason. */
  method EvaluateR17(py: Platform, invoice: Invoice, suppliers: seq<Supplier>)
    returns (verdict: Verdict, edits: nat)
    ensures verdict == R17(py, invoice, suppliers)
    ensures verdict == Fires ==>
              && 1 <= edits <= NEAR_MISS
              && ApprovedAccount(py, invoice, suppliers).Some?
              && IsCheapest(edits, Iban(py, invoice.iban), ApprovedAccount(py, invoice, suppliers).value)
  {
    edits := 0;
    var approved := ApprovedAccount(py, invoice, suppliers);
    if approved == None {
      return Passes, edits;
    }
    var theirs := Iban(py, invoice.iban);
    if theirs == approved.value {
      return Passes, edits;
    }
    edits := Differences(theirs, approved.value);
    ZeroOnlyWhenEqual(theirs, approved.value);
    DistanceIsCheapest(theirs, approved.value);
    return if edits > NEAR_MISS then Passes else Fires, edits;
  }

  // ----- the account is the table's, whichever row is asked

  lemma AtMostOneMeansEqual<T>(s: set<T>, x: T, y: T)
    requires x in s && y in s
    ensures |s| <= 1 ==> x == y
  {
    assert s - {x} + {x} == s;
    if x != y {
      assert y in s - {x};
    }
  }

  lemma AllEqualMeansAtMostOne<T>(s: set<T>)
    requires forall x, y :: x in s && y in s ==> x == y
    ensures |s| <= 1
  {
    if s != {} {
      var x :| x in s;
      assert s == {x};
    }
  }

  /** The approved account is that of every row of the supplier. */
  lemma ApprovedIsEveryRows(py: Platform, invoice: Invoice, suppliers: seq<Supplier>, r: Supplier)
    requires ApprovedAccount(py, invoice, suppliers).Some?
    requires r in suppliers && Key(py, r.nif) == Key(py, invoice.issuerNif)
    ensures Iban(py, r.iban) == ApprovedAccount(py, invoice, suppliers).value
  {
    var theirs := Theirs(py, Key(py, invoice.issuerNif), suppliers);
    TheirsAreExactly(py, Key(py, invoice.issuerNif), suppliers, r);
    assert Iban(py, theirs[0].iban) in Accounts(py, theirs);
    assert Iban(py, r.iban) in Accounts(py, theirs);
    AtMostOneMeansEqual(Accounts(py, theirs), Iban(py, r.iban), Iban(py, theirs[0].iban));
  }

  /** R04's one set of pairs is large exactly when one of the two sets `ApprovedAccount` builds is. */
  lemma DisagreementIsTheSame(py: Platform, theirs: seq<Supplier>)
    ensures |Pairs(py, theirs)| > 1 <==> |Ids(theirs)| > 1 || |Accounts(py, theirs)| > 1
  {
    if |Ids(theirs)| <= 1 && |Accounts(py, theirs)| <= 1 {
      forall x, y | x in Pairs(py, theirs) && y in Pairs(py, theirs)
        ensures x == y
      {
        AtMostOneMeansEqual(Ids(theirs), x.0, y.0);
        AtMostOneMeansEqual(Accounts(py, theirs), x.1, y.1);
      }
      AllEqualMeansAtMostOne(Pairs(py, theirs));
    }
    if |Pairs(py, theirs)| <= 1 {
      forall r, q | r in theirs && q in theirs
        ensures Text(r.id) == Text(q.id) && Iban(py, r.iban) == Iban(py, q.iban)
      {
        AtMostOneMeansEqual(Pairs(py, theirs), (Text(r.id), Iban(py, r.iban)), (Text(q.id), Iban(py, q.iban)));
      }
      AllEqualMeansAtMostOne(Ids(theirs));
      AllEqualMeansAtMostOne(Accounts(py, theirs));
    }
  }

  // ----- the four rules split every situation between them

  datatype Situation = UnknownSupplier | MasterDisagrees | AnotherAccount | Misread | Approved

  /** The table has rows of this tax number. */
  ghost predicate Known(py: Platform, nif: string, suppliers: seq<Supplier>) {
    exists r :: r in suppliers && Key(py, r.nif) == nif
  }

  /** Its rows name one supplier and one account. */
  ghost predicate Agreed(py: Platform, nif: string, suppliers: seq<Supplier>) {
    forall r, q | r in suppliers && q in suppliers && Key(py, r.nif) == nif && Key(py, q.nif) == nif ::
      Text(r.id) == Text(q.id) && Iban(py, r.iban) == Iban(py, q.iban)
  }

  predicate EditsFit(situation: Situation, edits: nat) {
    match situation
    case AnotherAccount => edits > NEAR_MISS
    case Misread => 1 <= edits <= NEAR_MISS
    case Approved => edits == 0
    case _ => false
  }

  /** Every row of this tax number is that many edits away from the invoice's account. */
  ghost predicate EveryRowFits(py: Platform, nif: string, suppliers: seq<Supplier>, mine: string,
                               situation: Situation) {
    forall r | r in suppliers && Key(py, r.nif) == nif :: EditsFit(situation, Distance(mine, Iban(py, r.iban)))
  }

  /** What the supplier table says about an invoice that names a supplier and an account. */
  ghost predicate Says(py: Platform, invoice: Invoice, suppliers: seq<Supplier>, situation: Situation) {
    var nif := Key(py, invoice.issuerNif);
    match situation
    case UnknownSupplier => !Known(py, nif, suppliers)
    case MasterDisagrees => !Agreed(py, nif, suppliers)
    case _ =>
      && Known(py, nif, suppliers)
      && Agreed(py, nif, suppliers)
      && EveryRowFits(py, nif, suppliers, Iban(py, invoice.iban), situation)
  }

  ghost predicate Names(py: Platform, invoice: Invoice) {
    Key(py, invoice.issuerNif) != "" && !Empty(invoice.iban)
  }

  lemma R04Means(py: Platform, invoice: Invoice, suppliers: seq<Supplier>)
    requires Names(py, invoice)
    ensures R04(py, invoice, suppliers) == Fires <==> !Agreed(py, Key(py, invoice.issuerNif), suppliers)
  {
    var nif := Key(py, invoice.issuerNif);
    var theirs := Theirs(py, nif, suppliers);
    forall r ensures r in theirs <==> r in suppliers && Key(py, r.nif) == nif {
      TheirsAreExactly(py, nif, suppliers, r);
    }
    if !Agreed(py, nif, suppliers) {
      var r, q :| r in theirs && q in theirs
                  && (Text(r.id) != Text(q.id) || Iban(py, r.iban) != Iban(py, q.iban));
      AtMostOneMeansEqual(Pairs(py, theirs), (Text(r.id), Iban(py, r.iban)), (Text(q.id), Iban(py, q.iban)));
    } else {
      AllEqualMeansAtMostOne(Pairs(py, theirs));
    }
  }

  lemma ApprovedMeans(py: Platform, invoice: Invoice, suppliers: seq<Supplier>)
    requires Names(py, invoice)
    ensures ApprovedAccount(py, invoice, suppliers).Some? <==>
            Known(py, Key(py, invoice.issuerNif), suppliers) && R04(py, invoice, suppliers) == Passes
  {
    var nif := Key(py, invoice.issuerNif);
    var theirs := Theirs(py, nif, suppliers);
    forall r ensures r in theirs <==> r in suppliers && Key(py, r.nif) == nif {
      TheirsAreExactly(py, nif, suppliers, r);
    }
    assert theirs != [] ==> theirs[0] in theirs;
    DisagreementIsTheSame(py, theirs);
  }

  lemma EveryRowFitsMeans(py: Platform, invoice: Invoice, suppliers: seq<Supplier>, situation: Situation)
    requires ApprovedAccount(py, invoice, suppliers).Some?
    requires Known(py, Key(py, invoice.issuerNif), suppliers)
    ensures EveryRowFits(py, Key(py, invoice.issuerNif), suppliers, Iban(py, invoice.iban), situation) <==>
            EditsFit(situation, Distance(Iban(py, invoice.iban), ApprovedAccount(py, invoice, suppliers).value))
  {
    var nif := Key(py, invoice.issuerNif);
    forall r | r in suppliers && Key(py, r.nif) == nif
      ensures Iban(py, r.iban) == ApprovedAccount(py, invoice, suppliers).value
    {
      ApprovedIsEveryRows(py, invoice, suppliers, r);
    }
    var r :| r in suppliers && Key(py, r.nif) == nif;
  }

  lemma OneAccountMeans(py: Platform, invoice: Invoice, suppliers: seq<Supplier>, situation: Situation)
    requires Names(py, invoice)
    requires situation.AnotherAccount? || situation.Misread? || situation.Approved?
    ensures Says(py, invoice, suppliers, situation) <==>
            var approved := ApprovedAccount(py, invoice, suppliers);
            approved.Some? && EditsFit(situation, Distance(Iban(py, invoice.iban), approved.value))
  {
    R04Means(py, invoice, suppliers);
    ApprovedMeans(py, invoice, suppliers);
    if ApprovedAccount(py, invoice, suppliers).Some? {
      EveryRowFitsMeans(py, invoice, suppliers, situation);
    }
  }

  /** Each rule fires on exactly its own situation. */
  lemma RulesMeanTheirSituation(py: Platform, invoice: Invoice, suppliers: seq<Supplier>)
    requires Names(py, invoice)
    ensures R02(py, invoice, suppliers) == Fires <==> Says(py, invoice, suppliers, UnknownSupplier)
    ensures R04(py, invoice, suppliers) == Fires <==> Says(py, invoice, suppliers, MasterDisagrees)
    ensures R03(py, invoice, suppliers) == Fires <==> Says(py, invoice, suppliers, AnotherAccount)
    ensures R17(py, invoice, suppliers) == Fires <==> Says(py, invoice, suppliers, Misread)
    ensures ApprovedAccount(py, invoice, suppliers) == Some(Iban(py, invoice.iban)) <==>
            Says(py, invoice, suppliers, Approved)
  {
    R04Means(py, invoice, suppliers);
    OneAccountMeans(py, invoice, suppliers, AnotherAccount);
    OneAccountMeans(py, invoice, suppliers, Misread);
    OneAccountMeans(py, invoice, suppliers, Approved);
    var approved := ApprovedAccount(py, invoice, suppliers);
    if approved.Some? {
      ZeroOnlyWhenEqual(Iban(py, invoice.iban), approved.value);
    }
  }

  /** The situation, read off the verdicts of the four rules. */
  function SituationOf(py: Platform, invoice: Invoice, suppliers: seq<Supplier>): Situation {
    if R02(py, invoice, suppliers) == Fires then UnknownSupplier
    else if R04(py, invoice, suppliers) == Fires then MasterDisagrees
    else if R03(py, invoice, suppliers) == Fires then AnotherAccount
    else if R17(py, invoice, suppliers) == Fires then Misread
    else Approved
  }

  /** Of the five situations exactly one is an invoice's, for any table: no invoice that names a
      supplier and an account falls between the rules, and none is caught by two of them. */
  lemma ExactlyOneSituation(py: Platform, invoice: Invoice, suppliers: seq<Supplier>)
    requires Names(py, invoice)
    ensures forall t :: Says(py, invoice, suppliers, t) <==> t == SituationOf(py, invoice, suppliers)
  {
    RulesMeanTheirSituation(py, invoice, suppliers);
    R04Means(py, invoice, suppliers);
    ApprovedMeans(py, invoice, suppliers);
    forall t: Situation ensures Says(py, invoice, suppliers, t) <==> t == SituationOf(py, invoice, suppliers) {
      if t.AnotherAccount? || t.Misread? || t.Approved? {
        OneAccountMeans(py, invoice, suppliers, t);
      }
    }
  }

  /** An invoice without a tax number is nobody's, and one without an account is not compared. */
  lemma NothingToCompare(py: Platform, invoice: Invoice, suppliers: seq<Supplier>)
    ensures Key(py, invoice.issuerNif) == "" ==>
              R02(py, invoice, suppliers) == R03(py, invoice, suppliers) == R04(py, invoice, suppliers)
              == R17(py, invoice, suppliers) == Passes
    ensures Strip(Raw(invoice.iban)) == "" ==>
              R03(py, invoice, suppliers) == R17(py, invoice, suppliers) == Passes
  {
  }

  // ----- separators change no verdict

  ghost predicate SameRow(r: Supplier, q: Supplier) {
    r.id == q.id && SeparatedAlike(r.nif, q.nif) && SpacedAlike(r.iban, q.iban)
  }

  /** The same rows, printed with other separators. */
  ghost predicate SameRows(suppliers: seq<Supplier>, others: seq<Supplier>) {
    |suppliers| == |others| && forall k :: 0 <= k < |suppliers| ==> SameRow(suppliers[k], others[k])
  }

  lemma SameRowMeans(py: Platform, r: Supplier, q: Supplier)
    requires KeepsSeparators(py) && SameRow(r, q)
    ensures Key(py, r.nif) == Key(py, q.nif) && Iban(py, r.iban) == Iban(py, q.iban)
  {
    SeparatorsDoNotCount(py, r.nif, q.nif);
    SpacesDoNotCount(py, r.iban, q.iban);
  }

  lemma {:induction false} SameTheirs(py: Platform, nif: string, suppliers: seq<Supplier>, others: seq<Supplier>)
    requires KeepsSeparators(py) && SameRows(suppliers, others)
    ensures SameRows(Theirs(py, nif, suppliers), Theirs(py, nif, others))
  {
    if suppliers != [] {
      SameRowMeans(py, suppliers[0], others[0]);
      SameTheirs(py, nif, suppliers[1..], others[1..]);
    }
  }

  lemma SameSets(py: Platform, theirs: seq<Supplier>, others: seq<Supplier>)
    requires KeepsSeparators(py) && SameRows(theirs, others)
    ensures Ids(theirs) == Ids(others) && Accounts(py, theirs) == Accounts(py, others)
    ensures Pairs(py, theirs) == Pairs(py, others)
  {
    forall k | 0 <= k < |theirs|
      ensures Text(theirs[k].id) == Text(others[k].id) && Iban(py, theirs[k].iban) == Iban(py, others[k].iban)
      ensures theirs[k] in theirs && others[k] in others
    {
      SameRowMeans(py, theirs[k], others[k]);
    }
    SetsWithin(py, theirs, others);
    SetsWithin(py, others, theirs);
  }

  lemma SetsWithin(py: Platform, theirs: seq<Supplier>, others: seq<Supplier>)
    requires |theirs| == |others|
    requires forall k :: 0 <= k < |theirs| ==>
               Text(theirs[k].id) == Text(others[k].id) && Iban(py, theirs[k].iban) == Iban(py, others[k].iban)
    ensures Ids(theirs) <= Ids(others) && Accounts(py, theirs) <= Accounts(py, others)
    ensures Pairs(py, theirs) <= Pairs(py, others)
  {
    forall r | r in theirs
      ensures exists q :: q in others && Text(q.id) == Text(r.id) && Iban(py, q.iban) == Iban(py, r.iban)
    {
      var k :| 0 <= k < |theirs| && theirs[k] == r;
      assert others[k] in others;
    }
  }

  lemma SameKnown(py: Platform, nif: string, suppliers: seq<Supplier>, others: seq<Supplier>)
    requires KeepsSeparators(py) && SameRows(suppliers, others)
    ensures Known(py, nif, suppliers) ==> Known(py, nif, others)
  {
    if Known(py, nif, suppliers) {
      var r :| r in suppliers && Key(py, r.nif) == nif;
      var k :| 0 <= k < |suppliers| && suppliers[k] == r;
      SameRowMeans(py, suppliers[k], others[k]);
      assert others[k] in others;
    }
  }

  /** The same invoice, printed with other separators. */
  ghost predicate SameInvoice(invoice: Invoice, other: Invoice) {
    SeparatedAlike(invoice.issuerNif, other.issuerNif) && SpacedAlike(invoice.iban, other.iban)
  }

  lemma SameInvoiceMeans(py: Platform, invoice: Invoice, other: Invoice)
    requires KeepsSeparators(py) && SameInvoice(invoice, other)
    ensures Key(py, invoice.issuerNif) == Key(py, other.issuerNif) && Iban(py, invoice.iban) == Iban(py, other.iban)
    ensures Empty(invoice.iban) <==> Empty(other.iban)
  {
    SeparatorsDoNotCount(py, invoice.issuerNif, other.issuerNif);
    SpacesDoNotCount(py, invoice.iban, other.iban);
    TextSpacedAlike(py, invoice.iban, other.iban);
  }

  lemma ApprovedIsTheSame(py: Platform, invoice: Invoice, other: Invoice, suppliers: seq<Supplier>,
                          others: seq<Supplier>)
    requires KeepsSeparators(py) && SameRows(suppliers, others) && SameInvoice(invoice, other)
    ensures ApprovedAccount(py, invoice, suppliers) == ApprovedAccount(py, other, others)
    ensures R04(py, invoice, suppliers) == R04(py, other, others)
  {
    var nif := Key(py, invoice.issuerNif);
    var theirs, same := Theirs(py, nif, suppliers), Theirs(py, nif, others);
    SameInvoiceMeans(py, invoice, other);
    SameTheirs(py, nif, suppliers, others);
    SameSets(py, theirs, same);
    if theirs != [] {
      SameRowMeans(py, theirs[0], same[0]);
    }
  }

  lemma R02IsTheSame(py: Platform, invoice: Invoice, other: Invoice, suppliers: seq<Supplier>, others: seq<Supplier>)
    requires KeepsSeparators(py) && SameRows(suppliers, others) && SameInvoice(invoice, other)
    ensures R02(py, invoice, suppliers) == R02(py, other, others)
  {
    var nif := Key(py, invoice.issuerNif);
    SameInvoiceMeans(py, invoice, other);
    Mirrored(suppliers, others);
    SameKnown(py, nif, suppliers, others);
    SameKnown(py, nif, others, suppliers);
    assert R02(py, invoice, suppliers) == if nif == "" || Known(py, nif, suppliers) then Passes else Fires;
    assert R02(py, other, others) == if nif == "" || Known(py, nif, others) then Passes else Fires;
  }

  /** Separators added to or taken out of tax numbers, and spaces of accounts, on the invoice or in the
      table, change neither the approved account nor any of the four verdicts. */
  lemma SeparatorsChangeNoVerdict(py: Platform, invoice: Invoice, other: Invoice, suppliers: seq<Supplier>,
                                  others: seq<Supplier>)
    requires KeepsSeparators(py) && SameRows(suppliers, others) && SameInvoice(invoice, other)
    ensures ApprovedAccount(py, invoice, suppliers) == ApprovedAccount(py, other, others)
    ensures R02(py, invoice, suppliers) == R02(py, other, others)
    ensures R03(py, invoice, suppliers) == R03(py, other, others)
    ensures R04(py, invoice, suppliers) == R04(py, other, others)
    ensures R17(py, invoice, suppliers) == R17(py, other, others)
  {
    SameInvoiceMeans(py, invoice, other);
    ApprovedIsTheSame(py, invoice, other, suppliers, others);
    R02IsTheSame(py, invoice, other, suppliers, others);
  }

  lemma Mirrored(suppliers: seq<Supplier>, others: seq<Supplier>)
    requires SameRows(suppliers, others)
    ensures SameRows(others, suppliers)
  {
  }
}
