/**
 The two-table payment ledger: adding a payment statement by statement with compensating
 deletes, guarded edits, reconciliation, and the balance they keep. Amounts are cents.
 */
module PaymentLedger {
  import opened Text

  datatype Main = Main(
    id: nat, regno: string, session: string, semester: string, transId: string, rrr: string, receipt: string,
    amount: int, desc: string, payItem: string, feeCode: string, status: string, response: string, rest: string)

  datatype Detail = Detail(
    id: nat, regno: string, session: string, transId: string, rrr: string, folio: string,
    amount: int, payItem: string, rest: string)

  /** What ties a detail line to its payment. */
  datatype Link = Link(regno: string, session: string, transId: string, rrr: string)

  datatype Ledger = Ledger(mains: seq<Main>, details: seq<Detail>)

  function MainLink(m: Main): Link {
    Link(m.regno, m.session, m.transId, m.rrr)
  }

  function DetailLink(d: Detail): Link {
    Link(d.regno, d.session, d.transId, d.rrr)
  }

  /** `SUM(amount)` over the detail lines with the given link. */
  function Total(details: seq<Detail>, link: Link): int {
    if details == [] then 0
    else
      var d := details[|details| - 1];
      Total(details[..|details| - 1], link) + (if DetailLink(d) == link then d.amount else 0)
  }

  ghost predicate Balanced(l: Ledger) {
    forall m :: m in l.mains ==> m.amount == Total(l.details, MainLink(m))
  }

  ghost predicate NoOrphanDetails(l: Ledger) {
    forall d :: d in l.details ==> exists m :: m in l.mains && MainLink(m) == DetailLink(d)
  }

  ghost predicate DistinctTransactions(l: Ledger) {
    forall i, j :: 0 <= i < j < |l.mains| ==> l.mains[i].transId != l.mains[j].transId
  }

  ghost predicate DistinctIds(l: Ledger) {
    && (forall i, j :: 0 <= i < j < |l.mains| ==> l.mains[i].id != l.mains[j].id)
    && (forall i, j :: 0 <= i < j < |l.details| ==> l.details[i].id != l.details[j].id)
  }

  /** Every main payment equals the sum of its lines; lines and payments belong together. */
  ghost predicate Sound(l: Ledger) {
    Balanced(l) && NoOrphanDetails(l) && DistinctTransactions(l) && DistinctIds(l)
  }

  lemma {:induction false} TotalConcat(a: seq<Detail>, b: seq<Detail>, link: Link)
    ensures Total(a + b, link) == Total(a, link) + Total(b, link)
  {
    if b == [] {
      assert a + b == a;
    } else {
      assert (a + b)[..|a + b| - 1] == a + b[..|b| - 1];
      TotalConcat(a, b[..|b| - 1], link);
    }
  }

  lemma {:induction false} TotalOfOthers(details: seq<Detail>, link: Link)
    requires forall d :: d in details ==> DetailLink(d) != link
    ensures Total(details, link) == 0
  {
    if details != [] {
      TotalOfOthers(details[..|details| - 1], link);
    }
  }

  lemma {:induction false} TotalAfterUpdate(details: seq<Detail>, i: nat, d: Detail, link: Link)
    requires i < |details| && DetailLink(d) == DetailLink(details[i])
    ensures Total(details[i := d], link) ==
            Total(details, link) + (if DetailLink(d) == link then d.amount - details[i].amount else 0)
  {
    var n := |details| - 1;
    if i < n {
      assert details[i := d][..n] == details[..n][i := d];
      TotalAfterUpdate(details[..n], i, d, link);
    } else {
      assert details[i := d][..n] == details[..n];
    }
  }

  // ----- Adding a payment -----

  datatype Line = Line(folio: string, amount: Option<int>)

  /** An add request; fields are as the code sees them, stripped. A value that is no decimal reads as None. */
  datatype AddRequest = AddRequest(
    regno: string, session: string, semester: string, transId: string, rrr: string, receipt: string,
    payItem: string, feeCode: string, prog: string, category: string, level: string, operator: string,
    verification: string, dates: string, amount: Option<int>, lines: seq<Line>)

  datatype Student = Student(prog: string, category: string)

  /** What the two lookups before the first insert give: either may be lost. */
  datatype Lookups = Lookups(student: Option<Student>, studentLost: bool, duplicatesLost: bool)

  const SCHOOL_CHARGES := "School Charges"

  datatype Error =
    | BadIdentity | BadAmount | MissingFields | PlaceholderFee | NoLines | BadLine | TotalMismatch
    | NoStudent | WrongProgramme | WrongCategory | Duplicate | GatewayFailed
    | BadRecordId | NotFound | NoChanges | NotEditable | NotConfirmed | AmountRefused | MissingReference | NotUnique
    | AmountsDiffer | NotApproved

  predicate ValidSemester(semester: string) {
    semester == "1st" || semester == "2nd" || semester == "3rd" || semester == "4th" || semester == "-"
  }

  predicate ValidLine(line: Line) {
    line.folio != "" && line.amount.Some? && line.amount.value >= 0
  }

  function LineTotal(lines: seq<Line>): int {
    if lines == [] then 0
    else
      var line := lines[|lines| - 1];
      LineTotal(lines[..|lines| - 1]) + (if line.amount.Some? then line.amount.value else 0)
  }

  predicate IsDuplicate(l: Ledger, req: AddRequest) {
    exists m :: m in l.mains && (m.transId == req.transId || m.rrr == req.rrr || m.receipt == req.receipt)
  }

  predicate AllFields(req: AddRequest) {
    && req.receipt != "" && req.rrr != "" && req.transId != "" && req.dates != "" && req.payItem != ""
    && req.feeCode != "" && req.prog != "" && req.level != "" && req.operator != "" && req.verification != ""
  }

  /** The first complaint about a request, if any, in the order the checks are made. */
  function AddProblem(l: Ledger, found: Lookups, req: AddRequest): Option<Error> {
    if req.regno == "" || req.session == "" || !ValidSemester(req.semester) then Some(BadIdentity)
    else if req.amount.None? || req.amount.value < 0 then Some(BadAmount)
    else if !AllFields(req) then Some(MissingFields)
    else if req.feeCode == "0" || req.feeCode == "9999999999" then Some(PlaceholderFee)
    else if req.lines == [] then Some(NoLines)
    else if exists i :: 0 <= i < |req.lines| && !ValidLine(req.lines[i]) then Some(BadLine)
    else if LineTotal(req.lines) != req.amount.value then Some(TotalMismatch)
    else LookupProblem(l, found, req)
  }

  function LookupProblem(l: Ledger, found: Lookups, req: AddRequest): Option<Error> {
    if found.studentLost then Some(GatewayFailed)
    else if found.student.None? then Some(NoStudent)
    else if found.student.value.prog != req.prog then Some(WrongProgramme)
    else if found.student.value.category != req.category then Some(WrongCategory)
    else if found.duplicatesLost then Some(GatewayFailed)
    else if IsDuplicate(l, req) then Some(Duplicate)
    else None
  }

  function NewMain(req: AddRequest, id: nat): Main
    requires req.amount.Some?
  {
    Main(id, req.regno, req.session, req.semester, req.transId, req.rrr, req.receipt, req.amount.value,
         SCHOOL_CHARGES, req.payItem, req.feeCode, "Full", "01", req.level)
  }

  function NewDetail(req: AddRequest, line: Line, id: nat): Detail {
    Detail(id, req.regno, req.session, req.transId, req.rrr, line.folio,
           if line.amount.Some? then line.amount.value else 0, req.payItem, req.level)
  }

  /** The first `k` detail rows of a request, with consecutive ids from `id`. */
  function NewDetails(req: AddRequest, k: nat, id: nat): (r: seq<Detail>)
    requires k <= |req.lines|
    ensures |r| == k
    ensures forall i :: 0 <= i < k ==> r[i] == NewDetail(req, req.lines[i], id + i)
  {
    seq(k, i requires 0 <= i < k => NewDetail(req, req.lines[i], id + i))
  }

  function Added(l: Ledger, req: AddRequest, mainId: nat, detailId: nat): Ledger
    requires req.amount.Some?
  {
    Ledger(l.mains + [NewMain(req, mainId)], l.details + NewDetails(req, |req.lines|, detailId))
  }

  /** What becomes of a statement: done, or lost with an error although it may have been applied. */
  datatype Fate = Done | Lost(applied: bool)

  function MainsWithout(mains: seq<Main>, transId: string, rrr: string): seq<Main> {
    if mains == [] then []
    else
      var kept := MainsWithout(mains[..|mains| - 1], transId, rrr);
      var m := mains[|mains| - 1];
      if m.transId == transId && m.rrr == rrr then kept else kept + [m]
  }

  function DetailsWithout(details: seq<Detail>, transId: string, rrr: string): seq<Detail> {
    if details == [] then []
    else
      var kept := DetailsWithout(details[..|details| - 1], transId, rrr);
      var d := details[|details| - 1];
      if d.transId == transId && d.rrr == rrr then kept else kept + [d]
  }

  /** The ledger after the two compensating deletes. */
  function Compensated(l: Ledger, req: AddRequest): Ledger {
    Ledger(MainsWithout(l.mains, req.transId, req.rrr), DetailsWithout(l.details, req.transId, req.rrr))
  }

  /** The first statement that is lost, counting the main row as 0 and the audit row as the last. */
  function FirstLost(fate: nat -> Fate, i: nat, n: nat): (r: nat)
    requires i <= n
    ensures i <= r <= n && (r < n ==> fate(r).Lost?)
    ensures forall k :: i <= k < r ==> fate(k).Done?
    decreases n - i
  {
    if i == n || fate(i).Lost? then i else FirstLost(fate, i + 1, n)
  }

  datatype Outcome = Outcome(ledger: Ledger, error: Option<Error>)

  function FailedIf(lost: bool): Option<Error> {
    if lost then Some(GatewayFailed) else None
  }

  /** Whether the main row, every line and the audit row of an add are reported written. */
  predicate WritesDone(req: AddRequest, fate: nat -> Fate) {
    FirstLost(fate, 0, |req.lines| + 2) == |req.lines| + 2
  }

  /** Whether one of the two reads that verify a written payment is lost; they come after the audit row. */
  predicate VerificationLost(req: AddRequest, fate: nat -> Fate) {
    fate(|req.lines| + 2).Lost? || fate(|req.lines| + 3).Lost?
  }

  /** What becomes of a checked request: lines and audit row are compensated, a lost main row is not. */
  function Written(l: Ledger, req: AddRequest, mainId: nat, detailId: nat, fate: nat -> Fate): Outcome
    requires req.amount.Some?
  {
    if WritesDone(req, fate) then Outcome(Added(l, req, mainId, detailId), FailedIf(VerificationLost(req, fate)))
    else if fate(0).Lost? then
      Outcome(if fate(0).applied then Ledger(l.mains + [NewMain(req, mainId)], l.details) else l, Some(GatewayFailed))
    else Outcome(Compensated(l, req), Some(GatewayFailed))
  }

  function AddOutcome(
      l: Ledger, found: Lookups, req: AddRequest, mainId: nat, detailId: nat, fate: nat -> Fate): Outcome {
    var problem := AddProblem(l, found, req);
    if problem.Some? then Outcome(l, problem) else Written(l, req, mainId, detailId, fate)
  }

  lemma {:induction false} MainsWithoutConcat(a: seq<Main>, b: seq<Main>, transId: string, rrr: string)
    ensures MainsWithout(a + b, transId, rrr) == MainsWithout(a, transId, rrr) + MainsWithout(b, transId, rrr)
  {
    if b == [] {
      assert a + b == a;
    } else {
      assert (a + b)[..|a + b| - 1] == a + b[..|b| - 1];
      MainsWithoutConcat(a, b[..|b| - 1], transId, rrr);
    }
  }

  lemma {:induction false} DetailsWithoutConcat(a: seq<Detail>, b: seq<Detail>, transId: string, rrr: string)
    ensures DetailsWithout(a + b, transId, rrr) == DetailsWithout(a, transId, rrr) + DetailsWithout(b, transId, rrr)
  {
    if b == [] {
      assert a + b == a;
    } else {
      assert (a + b)[..|a + b| - 1] == a + b[..|b| - 1];
      DetailsWithoutConcat(a, b[..|b| - 1], transId, rrr);
    }
  }

  lemma {:induction false} NewDetailsVanish(details: seq<Detail>, transId: string, rrr: string)
    requires forall d :: d in details ==> d.transId == transId && d.rrr == rrr
    ensures DetailsWithout(details, transId, rrr) == []
  {
    if details != [] {
      NewDetailsVanish(details[..|details| - 1], transId, rrr);
    }
  }

  /** Whatever part of the new rows was written, compensation leaves what it would have left before. */
  lemma PartialAddCompensates(l: Ledger, req: AddRequest, mainId: nat, detailId: nat, k: nat)
    requires req.amount.Some? && k <= |req.lines|
    ensures Compensated(Ledger(l.mains + [NewMain(req, mainId)], l.details + NewDetails(req, k, detailId)), req) ==
            Compensated(l, req)
  {
    var m := NewMain(req, mainId);
    MainsWithoutConcat(l.mains, [m], req.transId, req.rrr);
    assert MainsWithout([m], req.transId, req.rrr) == [] by {
      assert [m][..0] == [];
    }
    DetailsWithoutConcat(l.details, NewDetails(req, k, detailId), req.transId, req.rrr);
    NewDetailsVanish(NewDetails(req, k, detailId), req.transId, req.rrr);
  }

  lemma {:induction false} MainsWithoutNone(mains: seq<Main>, transId: string, rrr: string)
    ensures MainsWithout(mains, transId, rrr) == mains <==>
        !exists m :: m in mains && m.transId == transId && m.rrr == rrr
    ensures |MainsWithout(mains, transId, rrr)| <= |mains|
  {
    if mains != [] {
      MainsWithoutNone(mains[..|mains| - 1], transId, rrr);
      assert mains == mains[..|mains| - 1] + [mains[|mains| - 1]];
    }
  }

  lemma {:induction false} DetailsWithoutNone(details: seq<Detail>, transId: string, rrr: string)
    ensures DetailsWithout(details, transId, rrr) == details <==>
            !exists d :: d in details && d.transId == transId && d.rrr == rrr
    ensures |DetailsWithout(details, transId, rrr)| <= |details|
  {
    if details != [] {
      DetailsWithoutNone(details[..|details| - 1], transId, rrr);
      assert details == details[..|details| - 1] + [details[|details| - 1]];
    }
  }

  /**
   A failed add leaves the ledger exactly as it was, if and only if it was refused, or its main row was not
   written, or a later insert was lost and no old detail line without a payment carries the same references.
   When only a verification read is lost the rows stay.
   */
  lemma FailedAddRestoresIff(l: Ledger, found: Lookups, req: AddRequest, mainId: nat, detailId: nat, fate: nat -> Fate)
    requires AddOutcome(l, found, req, mainId, detailId, fate).error.Some?
    ensures AddOutcome(l, found, req, mainId, detailId, fate).ledger == l <==>
            || AddProblem(l, found, req).Some?
            || fate(0) == Lost(false)
            || (fate(0).Done? && !WritesDone(req, fate) &&
                !exists d :: d in l.details && d.transId == req.transId && d.rrr == req.rrr)
  {
    if AddProblem(l, found, req).None? {
      WrittenRestoresIff(l, req, mainId, detailId, fate);
    }
  }

  lemma WrittenRestoresIff(l: Ledger, req: AddRequest, mainId: nat, detailId: nat, fate: nat -> Fate)
    requires req.amount.Some? && !exists m :: m in l.mains && m.transId == req.transId && m.rrr == req.rrr
    requires Written(l, req, mainId, detailId, fate).error.Some?
    ensures Written(l, req, mainId, detailId, fate).ledger == l <==>
            || fate(0) == Lost(false)
            || (fate(0).Done? && !WritesDone(req, fate) &&
                !exists d :: d in l.details && d.transId == req.transId && d.rrr == req.rrr)
  {
    MainsWithoutNone(l.mains, req.transId, req.rrr);
    DetailsWithoutNone(l.details, req.transId, req.rrr);
    assert FirstLost(fate, 0, |req.lines| + 2) == 0 <==> fate(0).Lost?;
    if WritesDone(req, fate) || fate(0) == Lost(true) {
      assert |(l.mains + [NewMain(req, mainId)])| != |l.mains|;
    }
  }

  const ONE_LINE := AddRequest(
    "r", "2024", "1st", "t", "q", "n", "p", "f", "g", "ug", "100", "o", "v", "d", Some(5), [Line("x", Some(5))])

  const REGISTERED := Lookups(Some(Student("g", "ug")), false, false)

  /** A line of another student with the references of `ONE_LINE`, and no payment. */
  const OLD_LINE := Ledger([], [Detail(1, "other", "2020", "t", "q", "", 7, "", "")])

  lemma OneLinePasses(l: Ledger)
    requires l.mains == []
    ensures AddProblem(l, REGISTERED, ONE_LINE).None?
  {
    assert LineTotal(ONE_LINE.lines) == LineTotal(ONE_LINE.lines[..0]) + 5;
  }

  /** The two ways an add fails and leaves another ledger: its rows stay, or an old line goes with them. */
  lemma FailedAddCanChangeTheLedger()
    ensures var fate := k => if k == 3 then Lost(false) else Done;
            var out := AddOutcome(Ledger([], []), REGISTERED, ONE_LINE, 1, 2, fate);
            out.error.Some? && |out.ledger.mains| == 1 && |out.ledger.details| == 1
    ensures var fate := k => if k == 1 then Lost(false) else Done;
            var out := AddOutcome(OLD_LINE, REGISTERED, ONE_LINE, 1, 2, fate);
            out.error.Some? && out.ledger == Ledger([], [])
  {
    OneLinePasses(Ledger([], []));
    OneLinePasses(OLD_LINE);
    assert OLD_LINE.details[..0] == [];
  }

  lemma {:induction false} NewDetailsTotal(req: AddRequest, k: nat, id: nat)
    requires k <= |req.lines|
    ensures Total(NewDetails(req, k, id), Link(req.regno, req.session, req.transId, req.rrr)) ==
        LineTotal(req.lines[..k])
  {
    if k > 0 {
      NewDetailsTotal(req, k - 1, id);
      assert NewDetails(req, k, id)[..k - 1] == NewDetails(req, k - 1, id);
      assert req.lines[..k][..k - 1] == req.lines[..k - 1];
    }
  }

  ghost predicate FreshIds(l: Ledger, mainId: nat, detailId: nat) {
    && (forall m :: m in l.mains ==> m.id < mainId)
    && (forall d :: d in l.details ==> d.id < detailId)
  }

  lemma AddedIsBalanced(l: Ledger, found: Lookups, req: AddRequest, mainId: nat, detailId: nat)
    requires Sound(l) && AddProblem(l, found, req).None?
    ensures Balanced(Added(l, req, mainId, detailId))
  {
    var more := NewDetails(req, |req.lines|, detailId);
    var link := Link(req.regno, req.session, req.transId, req.rrr);
    assert req.lines[..|req.lines|] == req.lines;
    NewDetailsTotal(req, |req.lines|, detailId);
    forall m | m in l.mains + [NewMain(req, mainId)]
      ensures m.amount == Total(l.details + more, MainLink(m))
    {
      TotalConcat(l.details, more, MainLink(m));
      if m in l.mains {
        assert m.transId != req.transId;
        TotalOfOthers(more, MainLink(m));
      } else {
        forall d | d in l.details
          ensures DetailLink(d) != link
        {
          var owner :| owner in l.mains && MainLink(owner) == DetailLink(d);
        }
        TotalOfOthers(l.details, link);
      }
    }
  }

  function RequestLink(req: AddRequest): Link {
    Link(req.regno, req.session, req.transId, req.rrr)
  }

  /** A checked add adds its amount to its own link, where nothing was before, and to no other. */
  lemma AddedTotal(l: Ledger, found: Lookups, req: AddRequest, detailId: nat, link: Link)
    requires NoOrphanDetails(l) && AddProblem(l, found, req).None?
    ensures Total(l.details, RequestLink(req)) == 0
    ensures Total(NewDetails(req, |req.lines|, detailId), link) ==
            if link == RequestLink(req) then req.amount.value else 0
  {
    forall d | d in l.details
      ensures DetailLink(d) != RequestLink(req)
    {
      var owner :| owner in l.mains && MainLink(owner) == DetailLink(d);
    }
    TotalOfOthers(l.details, RequestLink(req));
    assert req.lines[..|req.lines|] == req.lines;
    NewDetailsTotal(req, |req.lines|, detailId);
    if link != RequestLink(req) {
      TotalOfOthers(NewDetails(req, |req.lines|, detailId), link);
    }
  }

  function BothAdded(l: Ledger, a: AddRequest, b: AddRequest, mainId: nat, detailId: nat): Ledger
    requires a.amount.Some? && b.amount.Some?
  {
    Added(Added(l, a, mainId, detailId), b, mainId + 1, detailId + |a.lines|)
  }

  function AmountUnder(req: AddRequest, link: Link): int
    requires req.amount.Some?
  {
    if link == RequestLink(req) then req.amount.value else 0
  }

  lemma BothAddedTotal(l: Ledger, foundA: Lookups, a: AddRequest, foundB: Lookups, b: AddRequest,
                       mainId: nat, detailId: nat, link: Link)
    requires NoOrphanDetails(l) && AddProblem(l, foundA, a).None? && AddProblem(l, foundB, b).None?
    ensures Total(BothAdded(l, a, b, mainId, detailId).details, link) ==
            Total(l.details, link) + AmountUnder(a, link) + AmountUnder(b, link)
    ensures Total(l.details, RequestLink(a)) == 0 && Total(l.details, RequestLink(b)) == 0
  {
    hide AddProblem, NoOrphanDetails, Total;
    AddedTotal(l, foundA, a, detailId, link);
    AddedTotal(l, foundB, b, detailId + |a.lines|, link);
    TotalConcat(l.details, NewDetails(a, |a.lines|, detailId), link);
    TotalConcat(l.details + NewDetails(a, |a.lines|, detailId), NewDetails(b, |b.lines|, detailId + |a.lines|), link);
  }

  lemma NotYetPaid(l: Ledger, found: Lookups, req: AddRequest)
    requires AddProblem(l, found, req).None?
    ensures forall m :: m in l.mains ==> MainLink(m) != RequestLink(req)
  {}

  /**
   Two adds whose checks all came before the first insert of either: the duplicate check stops neither, and
   the payments they leave equal their lines if and only if the links differ or no money is involved.
   */
  lemma RacingAddsBalanceIff(l: Ledger, foundA: Lookups, a: AddRequest, foundB: Lookups, b: AddRequest,
                             mainId: nat, detailId: nat)
    requires Sound(l) && AddProblem(l, foundA, a).None? && AddProblem(l, foundB, b).None?
    ensures Balanced(BothAdded(l, a, b, mainId, detailId)) <==>
            RequestLink(a) != RequestLink(b) || (a.amount.value == 0 && b.amount.value == 0)
  {
    var both := BothAdded(l, a, b, mainId, detailId);
    var m, n := NewMain(a, mainId), NewMain(b, mainId + 1);
    NotYetPaid(l, foundA, a);
    NotYetPaid(l, foundB, b);
    assert forall x :: x in both.mains <==> x in l.mains || x == m || x == n;
    hide AddProblem, NoOrphanDetails, Total, BothAdded;
    forall x | x in both.mains
      ensures Total(both.details, MainLink(x)) ==
              Total(l.details, MainLink(x)) + AmountUnder(a, MainLink(x)) + AmountUnder(b, MainLink(x))
    {
      BothAddedTotal(l, foundA, a, foundB, b, mainId, detailId, MainLink(x));
    }
    BothAddedTotal(l, foundA, a, foundB, b, mainId, detailId, MainLink(m));
  }

  lemma AddedHasDistinctIds(l: Ledger, found: Lookups, req: AddRequest, mainId: nat, detailId: nat)
    requires Sound(l) && FreshIds(l, mainId, detailId) && AddProblem(l, found, req).None?
    ensures DistinctIds(Added(l, req, mainId, detailId)) && DistinctTransactions(Added(l, req, mainId, detailId))
  {
    var after := Added(l, req, mainId, detailId);
    forall i, j | 0 <= i < j < |after.mains|
      ensures after.mains[i].id != after.mains[j].id && after.mains[i].transId != after.mains[j].transId
    {
      assert after.mains[i] in l.mains;
    }
    forall i, j | 0 <= i < j < |after.details|
      ensures after.details[i].id != after.details[j].id
    {
      assert i < |l.details| ==> after.details[i] in l.details;
    }
  }

  lemma AddedIsSound(l: Ledger, found: Lookups, req: AddRequest, mainId: nat, detailId: nat)
    requires Sound(l) && FreshIds(l, mainId, detailId) && AddProblem(l, found, req).None?
    ensures Sound(Added(l, req, mainId, detailId))
  {
    AddedIsBalanced(l, found, req, mainId, detailId);
    AddedHasDistinctIds(l, found, req, mainId, detailId);
    var m := NewMain(req, mainId);
    var after := Added(l, req, mainId, detailId);
    forall d | d in after.details
      ensures exists owner :: owner in after.mains && MainLink(owner) == DetailLink(d)
    {
      if d in l.details {
        var owner :| owner in l.mains && MainLink(owner) == DetailLink(d);
        assert owner in after.mains;
      } else {
        assert m in after.mains && MainLink(m) == DetailLink(d);
      }
    }
  }

  /**
   Adding keeps the ledger sound, whatever fails after the main row was written: the payment is there
   with all its lines when every insert is reported written, and the ledger is as it was otherwise.
   */
  lemma AddKeepsSound(l: Ledger, found: Lookups, req: AddRequest, mainId: nat, detailId: nat, fate: nat -> Fate)
    requires Sound(l) && FreshIds(l, mainId, detailId) && fate(0) != Lost(true)
    ensures Sound(AddOutcome(l, found, req, mainId, detailId, fate).ledger)
    ensures AddOutcome(l, found, req, mainId, detailId, fate).ledger ==
            if AddProblem(l, found, req).None? && WritesDone(req, fate) then Added(l, req, mainId, detailId) else l
  {
    if AddProblem(l, found, req).None? {
      if WritesDone(req, fate) {
        AddedIsSound(l, found, req, mainId, detailId);
      } else {
        FailedAddRestoresIff(l, found, req, mainId, detailId, fate);
        forall d | d in l.details
          ensures !(d.transId == req.transId && d.rrr == req.rrr)
        {
          var owner :| owner in l.mains && MainLink(owner) == DetailLink(d);
        }
      }
    }
  }

  // ----- What an accepted add writes -----

  /** The new payment, column by column. */
  ghost predicate IsPaymentFor(m: Main, req: AddRequest) {
    && m.regno == req.regno && m.session == req.session && m.semester == req.semester
    && m.transId == req.transId && m.rrr == req.rrr && m.receipt == req.receipt
    && req.amount == Some(m.amount) && m.desc == "School Charges"
    && m.payItem == req.payItem && m.feeCode == req.feeCode && m.rest == req.level
    && m.status == "Full" && m.response == "01"
  }

  /** A new line, column by column. */
  ghost predicate IsLineFor(d: Detail, req: AddRequest, line: Line) {
    && d.folio == line.folio && line.amount == Some(d.amount)
    && d.regno == req.regno && d.session == req.session && d.transId == req.transId && d.rrr == req.rrr
    && d.payItem == req.payItem && d.rest == req.level
  }

  ghost predicate HasPaymentAdded(mains: seq<Main>, req: AddRequest, after: seq<Main>) {
    |after| == |mains| + 1 && after[..|mains|] == mains && IsPaymentFor(after[|mains|], req)
  }

  /** The old rows, then the new payment and the new lines in order. */
  ghost predicate IsAddTo(l: Ledger, req: AddRequest, out: Ledger) {
    && HasPaymentAdded(l.mains, req, out.mains)
    && |out.details| == |l.details| + |req.lines| && out.details[..|l.details|] == l.details
    && forall j :: 0 <= j < |req.lines| ==> IsLineFor(out.details[|l.details| + j], req, req.lines[j])
  }

  /** An add without an error appends its payment and its lines in order, and changes no other row. */
  lemma AcceptedAddWritesTheRequest(
      l: Ledger, found: Lookups, req: AddRequest, mainId: nat, detailId: nat, fate: nat -> Fate)
    requires AddOutcome(l, found, req, mainId, detailId, fate).error.None?
    ensures IsAddTo(l, req, AddOutcome(l, found, req, mainId, detailId, fate).ledger)
  {}

  /** A request with every field set, lines that add up and a matching student. */
  ghost predicate IsCompleteRequest(found: Lookups, req: AddRequest) {
    && req.regno != "" && req.session != "" && req.semester in {"1st", "2nd", "3rd", "4th", "-"}
    && req.receipt != "" && req.rrr != "" && req.transId != "" && req.dates != "" && req.payItem != ""
    && req.feeCode !in {"", "0", "9999999999"} && req.prog != "" && req.level != "" && req.operator != ""
    && req.verification != ""
    && req.amount.Some? && req.amount.value >= 0 && req.amount.value == LineTotal(req.lines) && req.lines != []
    && (forall line :: line in req.lines ==> line.folio != "" && line.amount.Some? && line.amount.value >= 0)
    && found.student == Some(Student(req.prog, req.category)) && !found.studentLost && !found.duplicatesLost
  }

  ghost predicate SharesReferences(m: Main, req: AddRequest) {
    m.transId == req.transId || m.rrr == req.rrr || m.receipt == req.receipt
  }

  /**
   An add succeeds exactly when the request is complete, no payment shares its transaction, RRR or receipt,
   and every statement from the main insert to the second verification read is reported done.
   */
  lemma AddSucceedsIff(l: Ledger, found: Lookups, req: AddRequest, mainId: nat, detailId: nat, fate: nat -> Fate)
    ensures AddOutcome(l, found, req, mainId, detailId, fate).error.None? <==>
              && IsCompleteRequest(found, req)
              && (forall m :: m in l.mains ==> !SharesReferences(m, req))
              && (forall k: nat :: k < |req.lines| + 4 ==> fate(k).Done?)
    ensures IsCompleteRequest(found, req) && (exists m :: m in l.mains && SharesReferences(m, req)) ==>
              AddOutcome(l, found, req, mainId, detailId, fate).error == Some(Duplicate)
  {
    CheckedIff(l, found, req);
    assert WritesDone(req, fate) <==> forall k: nat :: k < |req.lines| + 2 ==> fate(k).Done?;
    hide AddProblem, IsCompleteRequest, WritesDone;
  }

  /**
   What a checked add leaves, whatever is lost: everything when all rows are reported written, even if a
   verification read is lost; at most the payment when its insert is lost; and when a later insert is lost
   the old payments and the old lines without its references.
   */
  lemma CheckedAddLeaves(l: Ledger, found: Lookups, req: AddRequest, mainId: nat, detailId: nat, fate: nat -> Fate)
    requires IsCompleteRequest(found, req) && forall m :: m in l.mains ==> !SharesReferences(m, req)
    ensures var out := AddOutcome(l, found, req, mainId, detailId, fate).ledger;
            && ((forall k: nat :: k < |req.lines| + 2 ==> fate(k).Done?) ==> IsAddTo(l, req, out))
            && (fate(0) == Lost(true) ==> HasPaymentAdded(l.mains, req, out.mains) && out.details == l.details)
            && (fate(0) == Lost(false) ==> out == l)
            && (fate(0).Done? && (exists k: nat :: k < |req.lines| + 2 && fate(k).Lost?) ==>
                  && out.mains == l.mains
                  && forall d :: d in out.details <==> d in l.details && (d.transId != req.transId || d.rrr != req.rrr))
  {
    CheckedIff(l, found, req);
    WrittenLeaves(l, req, mainId, detailId, fate);
    hide AddProblem, IsCompleteRequest, Written, IsAddTo, HasPaymentAdded;
  }

  lemma WrittenLeaves(l: Ledger, req: AddRequest, mainId: nat, detailId: nat, fate: nat -> Fate)
    requires req.amount.Some? && forall line :: line in req.lines ==> line.amount.Some?
    requires forall m :: m in l.mains ==> !SharesReferences(m, req)
    ensures var out := Written(l, req, mainId, detailId, fate).ledger;
            && ((forall k: nat :: k < |req.lines| + 2 ==> fate(k).Done?) ==> IsAddTo(l, req, out))
            && (fate(0) == Lost(true) ==> HasPaymentAdded(l.mains, req, out.mains) && out.details == l.details)
            && (fate(0) == Lost(false) ==> out == l)
            && (fate(0).Done? && (exists k: nat :: k < |req.lines| + 2 && fate(k).Lost?) ==>
                  && out.mains == l.mains
                  && forall d :: d in out.details <==> d in l.details && (d.transId != req.transId || d.rrr != req.rrr))
  {
    assert WritesDone(req, fate) <==> forall k: nat :: k < |req.lines| + 2 ==> fate(k).Done?;
    if WritesDone(req, fate) {
      AddedIsAddTo(l, req, mainId, detailId);
      hide IsAddTo, HasPaymentAdded, WritesDone, Added;
    } else if fate(0).Lost? {
      hide IsAddTo, WritesDone, Added;
    } else {
      hide IsAddTo, HasPaymentAdded, WritesDone, Added, MainsWithout, DetailsWithout;
      assert forall m :: m in l.mains && m.transId == req.transId && m.rrr == req.rrr ==> SharesReferences(m, req);
      MainsWithoutNone(l.mains, req.transId, req.rrr);
      DetailsWithoutMembers(l.details, req.transId, req.rrr);
    }
  }

  lemma AddedIsAddTo(l: Ledger, req: AddRequest, mainId: nat, detailId: nat)
    requires req.amount.Some? && forall line :: line in req.lines ==> line.amount.Some?
    ensures IsAddTo(l, req, Added(l, req, mainId, detailId))
  {}

  lemma {:induction false} DetailsWithoutMembers(details: seq<Detail>, transId: string, rrr: string)
    ensures forall d :: d in DetailsWithout(details, transId, rrr) <==>
                          d in details && (d.transId != transId || d.rrr != rrr)
  {
    if details != [] {
      SplitLast(details);
      DetailsWithoutMembers(details[..|details| - 1], transId, rrr);
    }
  }

  lemma CheckedIff(l: Ledger, found: Lookups, req: AddRequest)
    ensures AddProblem(l, found, req).None? <==>
              IsCompleteRequest(found, req) && forall m :: m in l.mains ==> !SharesReferences(m, req)
    ensures IsCompleteRequest(found, req) && (exists m :: m in l.mains && SharesReferences(m, req)) ==>
              AddProblem(l, found, req) == Some(Duplicate)
  {
    hide LineTotal;
    assert (exists i :: 0 <= i < |req.lines| && !ValidLine(req.lines[i])) <==>
           (exists line :: line in req.lines && !ValidLine(line));
  }

  /** While a new payment is in the ledger, no second add with its transaction, its RRR or its receipt succeeds. */
  lemma SecondAddIsRefused(
      l: Ledger, found: Lookups, req: AddRequest, mainId: nat, detailId: nat, fate: nat -> Fate,
      later: Ledger, found': Lookups, again: AddRequest, mainId': nat, detailId': nat, fate': nat -> Fate)
    requires var out := AddOutcome(l, found, req, mainId, detailId, fate);
             out.error.None? && forall m :: m in out.ledger.mains ==> m in later.mains
    requires again.transId == req.transId || again.rrr == req.rrr || again.receipt == req.receipt
    ensures AddOutcome(later, found', again, mainId', detailId', fate').error.Some?
    ensures AddOutcome(later, found', again, mainId', detailId', fate').ledger == later
    ensures IsCompleteRequest(found', again) ==>
              AddOutcome(later, found', again, mainId', detailId', fate').error == Some(Duplicate)
  {
    AcceptedAddWritesTheRequest(l, found, req, mainId, detailId, fate);
    var out := AddOutcome(l, found, req, mainId, detailId, fate).ledger;
    var m := out.mains[|l.mains|];
    assert m in later.mains && SharesReferences(m, again);
    CheckedIff(later, found', again);
    hide AddProblem, IsCompleteRequest;
  }

  // ----- Editing a row -----

  /** The new values of an edit; a None field is left alone. */
  datatype Changes = Changes(
    amount: Option<int>, session: Option<string>, semester: Option<string>, transId: Option<string>,
    rrr: Option<string>, receipt: Option<string>, desc: Option<string>, payItem: Option<string>,
    feeCode: Option<string>, status: Option<string>, response: Option<string>, folio: Option<string>)

  /** A record id that is no number reads as 0. */
  datatype EditRequest = EditRequest(
    isMain: bool, id: nat, changes: Changes, confirmed: bool, operator: string, verification: string)

  function Or<T>(change: Option<T>, old': T): T {
    if change.Some? then change.value else old'
  }

  function EditMain(m: Main, c: Changes): Main {
    m.(amount := Or(c.amount, m.amount), session := Or(c.session, m.session), semester := Or(c.semester, m.semester),
       rrr := Or(c.rrr, m.rrr), receipt := Or(c.receipt, m.receipt), desc := Or(c.desc, m.desc),
       payItem := Or(c.payItem, m.payItem), feeCode := Or(c.feeCode, m.feeCode), status := Or(c.status, m.status),
       response := Or(c.response, m.response))
  }

  function EditDetail(d: Detail, c: Changes): Detail {
    d.(amount := Or(c.amount, d.amount), session := Or(c.session, d.session), transId := Or(c.transId, d.transId),
       rrr := Or(c.rrr, d.rrr), payItem := Or(c.payItem, d.payItem), folio := Or(c.folio, d.folio))
  }

  predicate MainEditable(c: Changes) {
    c.transId.None? && c.folio.None?
  }

  predicate DetailEditable(c: Changes) {
    c.semester.None? && c.receipt.None? && c.desc.None? && c.feeCode.None? && c.status.None? && c.response.None?
  }

  predicate LeavesLinksAlone(c: Changes) {
    c.session.None? && c.transId.None? && c.rrr.None?
  }

  function MainIndex(mains: seq<Main>, id: nat): (i: Option<nat>)
    ensures i.Some? ==> i.value < |mains| && mains[i.value].id == id
    ensures i.None? ==> forall m :: m in mains ==> m.id != id
  {
    if mains == [] then None
    else if mains[|mains| - 1].id == id then Some(|mains| - 1)
    else MainIndex(mains[..|mains| - 1], id)
  }

  function DetailIndex(details: seq<Detail>, id: nat): (i: Option<nat>)
    ensures i.Some? ==> i.value < |details| && details[i.value].id == id
    ensures i.None? ==> forall d :: d in details ==> d.id != id
  {
    if details == [] then None
    else if details[|details| - 1].id == id then Some(|details| - 1)
    else DetailIndex(details[..|details| - 1], id)
  }

  /** The payment a detail edit is checked against: the first one with the same references, in any session. */
  function FirstPayment(mains: seq<Main>, transId: string, rrr: string): (m: Option<Main>)
    ensures m.Some? ==> m.value in mains && m.value.transId == transId && m.value.rrr == rrr
    ensures m.None? ==> forall x :: x in mains ==> !(x.transId == transId && x.rrr == rrr)
  {
    if mains == [] then None
    else if mains[0].transId == transId && mains[0].rrr == rrr then Some(mains[0])
    else FirstPayment(mains[1..], transId, rrr)
  }

  const MAX_RECORD_ID := 2_147_483_647

  function EditProblem(r: EditRequest): Option<Error> {
    if !(0 < r.id <= MAX_RECORD_ID) then Some(BadRecordId)
    else if r.operator == "" || |r.operator| > 64 || r.verification == "" || |r.verification| > 256
        then Some(MissingReference)
    else if r.changes == Changes(None, None, None, None, None, None, None, None, None, None, None, None)
        then Some(NoChanges)
    else if !(if r.isMain then MainEditable(r.changes) else DetailEditable(r.changes)) then Some(NotEditable)
    else if r.changes.amount.Some? && r.changes.amount.value < 0 then Some(BadAmount)
    else if r.changes.amount.Some? && !r.confirmed then Some(NotConfirmed)
    else None
  }

  /** `Decimal("-1")`, the total of a payment that is not there. */
  const NO_PAYMENT := -100

  function PaymentTotal(payment: Option<Main>): int {
    if payment.Some? then payment.value.amount else NO_PAYMENT
  }

  /** What an edit does when every statement is reported done. */
  function EditPlan(l: Ledger, r: EditRequest): Outcome {
    var problem := EditProblem(r);
    if problem.Some? then Outcome(l, problem)
    else if r.isMain then
      match MainIndex(l.mains, r.id)
      case None => Outcome(l, Some(NotFound))
      case Some(i) =>
        if r.changes.amount.Some? && r.changes.amount.value != Total(l.details, MainLink(l.mains[i])) then
          Outcome(l, Some(AmountRefused))
        else Outcome(Ledger(l.mains[i := EditMain(l.mains[i], r.changes)], l.details), None)
    else
      match DetailIndex(l.details, r.id)
      case None => Outcome(l, Some(NotFound))
      case Some(i) =>
        var before := l.details[i];
        var payment := FirstPayment(l.mains, before.transId, before.rrr);
        var mainTotal := PaymentTotal(payment);
        if r.changes.amount.Some? &&
           Total(l.details, DetailLink(before)) - before.amount + r.changes.amount.value != mainTotal then
          Outcome(l, Some(AmountRefused))
        else Outcome(Ledger(l.mains, l.details[i := EditDetail(before, r.changes)]), None)
  }

  /** The reads that check a new amount: the lines' total, and for a line first its payment. */
  function CheckReads(r: EditRequest): nat {
    if r.changes.amount.None? then 0 else if r.isMain then 1 else 2
  }

  /** Statement 0 looks the row up, 1 and 2 check an amount, 3 updates, 4 reads back and 5 writes the audit row. */
  function EditOutcome(l: Ledger, r: EditRequest, fate: nat -> Fate): Outcome {
    var plan := EditPlan(l, r);
    if EditProblem(r).Some? then plan
    else if fate(0).Lost? then Outcome(l, Some(GatewayFailed))
    else if plan.error == Some(NotFound) then plan
    else if exists k: nat :: 1 <= k <= CheckReads(r) && fate(k).Lost? then Outcome(l, Some(GatewayFailed))
    else if plan.error.Some? then plan
    else if fate(3).Lost? then Outcome(if fate(3).applied then plan.ledger else l, Some(GatewayFailed))
    else Outcome(plan.ledger, FailedIf(fate(4).Lost? || fate(5).Lost?))
  }

  ghost predicate IsSetTo<T>(change: Option<T>, before: T, after: T) {
    if change.Some? then after == change.value else after == before
  }

  ghost predicate IsEditedMain(c: Changes, before: Main, after: Main) {
    && after.id == before.id && after.regno == before.regno && after.transId == before.transId
    && after.rest == before.rest
    && IsSetTo(c.amount, before.amount, after.amount) && IsSetTo(c.session, before.session, after.session)
    && IsSetTo(c.semester, before.semester, after.semester) && IsSetTo(c.rrr, before.rrr, after.rrr)
    && IsSetTo(c.receipt, before.receipt, after.receipt) && IsSetTo(c.desc, before.desc, after.desc)
    && IsSetTo(c.payItem, before.payItem, after.payItem) && IsSetTo(c.feeCode, before.feeCode, after.feeCode)
    && IsSetTo(c.status, before.status, after.status) && IsSetTo(c.response, before.response, after.response)
  }

  ghost predicate IsEditedDetail(c: Changes, before: Detail, after: Detail) {
    && after.id == before.id && after.regno == before.regno && after.rest == before.rest
    && IsSetTo(c.amount, before.amount, after.amount) && IsSetTo(c.session, before.session, after.session)
    && IsSetTo(c.transId, before.transId, after.transId) && IsSetTo(c.rrr, before.rrr, after.rrr)
    && IsSetTo(c.payItem, before.payItem, after.payItem) && IsSetTo(c.folio, before.folio, after.folio)
  }

  /** An accepted edit sets the named columns of the one row with the id, and nothing else. */
  lemma AcceptedEditSetsItsColumns(l: Ledger, r: EditRequest, fate: nat -> Fate) returns (i: nat)
    requires EditOutcome(l, r, fate).error.None?
    ensures var out := EditOutcome(l, r, fate).ledger;
            if r.isMain then
              && out.details == l.details && i < |l.mains| == |out.mains| && l.mains[i].id == r.id
              && out.mains == l.mains[i := out.mains[i]] && IsEditedMain(r.changes, l.mains[i], out.mains[i])
            else
              && out.mains == l.mains && i < |l.details| == |out.details| && l.details[i].id == r.id
              && out.details == l.details[i := out.details[i]]
              && IsEditedDetail(r.changes, l.details[i], out.details[i])
  {
    i := if r.isMain then MainIndex(l.mains, r.id).value else DetailIndex(l.details, r.id).value;
    var out := EditPlan(l, r).ledger;
    if r.isMain {
      assert out.mains == l.mains[i := out.mains[i]];
    } else {
      assert out.details == l.details[i := out.details[i]];
    }
  }

  /** The requests that are refused before any statement is sent. */
  lemma EditIsRefusedIff(r: EditRequest)
    ensures EditProblem(r).None? <==>
              && 1 <= r.id <= 2_147_483_647
              && 1 <= |r.operator| <= 64 && 1 <= |r.verification| <= 256
              && r.changes != Changes(None, None, None, None, None, None, None, None, None, None, None, None)
              && (if r.isMain then r.changes.transId.None? && r.changes.folio.None?
                  else r.changes.semester.None? && r.changes.receipt.None? && r.changes.desc.None? &&
                       r.changes.feeCode.None? && r.changes.status.None? && r.changes.response.None?)
              && (r.changes.amount.Some? ==> r.changes.amount.value >= 0 && r.confirmed)
  {}

  ghost predicate MainEditFits(l: Ledger, r: EditRequest, i: nat) {
    && i < |l.mains| && l.mains[i].id == r.id
    && (r.changes.amount.Some? ==> r.changes.amount.value == Total(l.details, MainLink(l.mains[i])))
  }

  /** The new total of the line's group is the amount of the first payment with its references, or minus one. */
  ghost predicate DetailEditFits(l: Ledger, r: EditRequest, i: nat) {
    && i < |l.details| && l.details[i].id == r.id
    && (r.changes.amount.Some? ==>
          var d := l.details[i];
          var payment := FirstPayment(l.mains, d.transId, d.rrr);
          Total(l.details, DetailLink(d)) - d.amount + r.changes.amount.value ==
          if payment.Some? then payment.value.amount else -100)
  }

  /** The reads before the update: of the row, and for a new amount of the lines and, for a line, of a payment. */
  ghost predicate ReadsDone(r: EditRequest, fate: nat -> Fate) {
    && fate(0).Done?
    && (r.changes.amount.Some? ==> fate(1).Done? && (!r.isMain ==> fate(2).Done?))
  }

  lemma ReadsDoneIff(r: EditRequest, fate: nat -> Fate)
    ensures ReadsDone(r, fate) <==> fate(0).Done? && !exists k: nat :: 1 <= k <= CheckReads(r) && fate(k).Lost?
  {
  }

  /** An edit succeeds exactly when it is well formed, meets a row it fits, and every statement is reported done. */
  lemma EditSucceedsIff(l: Ledger, r: EditRequest, fate: nat -> Fate)
    requires DistinctIds(l)
    ensures EditOutcome(l, r, fate).error.None? <==>
              && EditProblem(r).None?
              && (if r.isMain then exists i: nat :: MainEditFits(l, r, i) else exists i: nat :: DetailEditFits(l, r, i))
              && ReadsDone(r, fate) && fate(3).Done? && fate(4).Done? && fate(5).Done?
  {
    PlanSucceedsIff(l, r);
    ReadsDoneIff(r, fate);
    hide EditPlan, EditProblem, MainEditFits, DetailEditFits, ReadsDone;
  }

  lemma PlanSucceedsIff(l: Ledger, r: EditRequest)
    requires DistinctIds(l)
    ensures EditPlan(l, r).error.None? <==>
              && EditProblem(r).None?
              && (if r.isMain then exists i: nat :: MainEditFits(l, r, i) else exists i: nat :: DetailEditFits(l, r, i))
  {
    hide EditProblem, Total;
    var i := if r.isMain then MainIndex(l.mains, r.id) else DetailIndex(l.details, r.id);
    if i.Some? {
      if r.isMain {
        assert forall k: nat :: k < |l.mains| && l.mains[k].id == r.id ==> k == i.value;
        assert EditPlan(l, r).error.None? && EditProblem(r).None? ==> MainEditFits(l, r, i.value);
      } else {
        assert forall k: nat :: k < |l.details| && l.details[k].id == r.id ==> k == i.value;
        assert EditPlan(l, r).error.None? && EditProblem(r).None? ==> DetailEditFits(l, r, i.value);
      }
    }
  }

  /** Statements that are all reported done. */
  function AllDone(): nat -> Fate {
    (k: nat) => Done
  }

  /**
   An edit that would be refused changes nothing. Any other changes nothing either when it gets no further
   than its reads or its update is not applied, and otherwise takes its full effect.
   */
  lemma EditLeaves(l: Ledger, r: EditRequest, fate: nat -> Fate)
    ensures var wanted, out := EditOutcome(l, r, AllDone()), EditOutcome(l, r, fate);
            out.ledger ==
            if wanted.error.Some? || !ReadsDone(r, fate) || fate(3) == Lost(false) then l else wanted.ledger
  {
    ReadsDoneIff(r, fate);
    ReadsDoneIff(r, AllDone());
    RefusedPlanChangesNothing(l, r);
    hide EditPlan, EditProblem, ReadsDone;
  }

  lemma RefusedPlanChangesNothing(l: Ledger, r: EditRequest)
    ensures EditPlan(l, r).error.Some? ==> EditPlan(l, r).ledger == l
    ensures EditProblem(r).Some? ==> EditPlan(l, r).error == EditProblem(r)
  {
    hide EditProblem, Total;
  }

  /** An accepted amount edit of a payment ends balanced with its lines, from any ledger. */
  lemma AcceptedMainEditBalances(l: Ledger, r: EditRequest, fate: nat -> Fate)
    requires r.isMain && r.changes.amount.Some? && LeavesLinksAlone(r.changes) && EditOutcome(l, r, fate).error.None?
    ensures var out := EditOutcome(l, r, fate).ledger;
            exists i :: 0 <= i < |out.mains| == |l.mains| && l.mains[i].id == r.id &&
              out.mains == l.mains[i := out.mains[i]] && out.mains[i].amount == r.changes.amount.value &&
              out.mains[i].amount == Total(out.details, MainLink(out.mains[i]))
  {
    var i := MainIndex(l.mains, r.id).value;
    var out := EditPlan(l, r).ledger;
    assert out.mains == l.mains[i := out.mains[i]];
  }

  /** The line an accepted edit changed, and what it became. */
  ghost predicate LineEdited(l: Ledger, r: EditRequest, out: Ledger, i: nat) {
    && i < |l.details| == |out.details| && l.details[i].id == r.id && out.mains == l.mains
    && out.details == l.details[i := out.details[i]] && DetailLink(out.details[i]) == DetailLink(l.details[i])
    && r.changes.amount == Some(out.details[i].amount)
  }

  /**
   An accepted amount edit of a line ends, from any ledger, with the lines of its group adding up to the
   first payment that carries its references, or to minus one when there is no such payment.
   */
  lemma AcceptedDetailEditMatches(l: Ledger, r: EditRequest, fate: nat -> Fate) returns (i: nat)
    requires !r.isMain && r.changes.amount.Some? && LeavesLinksAlone(r.changes) && EditOutcome(l, r, fate).error.None?
    ensures var out := EditOutcome(l, r, fate).ledger;
            && LineEdited(l, r, out, i)
            && Total(out.details, DetailLink(l.details[i])) ==
               PaymentTotal(FirstPayment(l.mains, l.details[i].transId, l.details[i].rrr))
  {
    i := DetailIndex(l.details, r.id).value;
    var before := l.details[i];
    TotalAfterUpdate(l.details, i, EditDetail(before, r.changes), DetailLink(before));
    var out := EditPlan(l, r).ledger;
    assert out.details == l.details[i := out.details[i]];
  }

  /**
   So a payment the line belongs to ends balanced if and only if its amount is that of the first payment
   with its references, whatever their registration number and session.
   */
  lemma AcceptedDetailEditBalancesIff(l: Ledger, r: EditRequest, fate: nat -> Fate, m: Main) returns (i: nat)
    requires !r.isMain && r.changes.amount.Some? && LeavesLinksAlone(r.changes) && EditOutcome(l, r, fate).error.None?
    ensures var out := EditOutcome(l, r, fate).ledger;
            && LineEdited(l, r, out, i)
            && (MainLink(m) == DetailLink(l.details[i]) ==>
                  (m.amount == Total(out.details, MainLink(m)) <==>
                     m.amount == PaymentTotal(FirstPayment(l.mains, m.transId, m.rrr))))
  {
    i := AcceptedDetailEditMatches(l, r, fate);
  }

  /** The payments with one pair of references have one amount. */
  predicate OneAmount(mains: seq<Main>, transId: string, rrr: string) {
    forall a, b :: a in mains && b in mains && a.transId == transId == b.transId && a.rrr == rrr == b.rrr ==>
        a.amount == b.amount
  }

  /** It is enough that the payments with the line's references have one amount. */
  lemma AcceptedDetailEditBalances(l: Ledger, r: EditRequest, fate: nat -> Fate, m: Main) returns (i: nat)
    requires !r.isMain && r.changes.amount.Some? && LeavesLinksAlone(r.changes) && EditOutcome(l, r, fate).error.None?
    requires m in l.mains && OneAmount(l.mains, m.transId, m.rrr)
    ensures var out := EditOutcome(l, r, fate).ledger;
            && LineEdited(l, r, out, i) && m in out.mains
            && (MainLink(m) == DetailLink(out.details[i]) ==> m.amount == Total(out.details, MainLink(m)))
  {
    i := AcceptedDetailEditBalancesIff(l, r, fate, m);
    assert FirstPayment(l.mains, m.transId, m.rrr).Some?;
  }

  /** A payment of one session, one of another with the same references, and the line of the latter. */
  const TWO_SESSIONS := Ledger(
    [Main(1, "r", "2023", "1st", "t", "q", "", 100, "", "", "", "", "", ""),
     Main(2, "r", "2024", "1st", "t", "q", "", 500, "", "", "", "", "", "")],
    [Detail(1, "r", "2024", "t", "q", "", 500, "", "")])

  const SET_TO_100 :=
    EditRequest(false, 1, Changes(Some(100), None, None, None, None, None, None, None, None, None, None, None), true,
                "o", "v")

  /**
   The check compares with the first payment in any session, so it can accept an edit that
   unbalances the line's own.
   */
  lemma AcceptedEditCanUnbalance()
    ensures var out := EditOutcome(TWO_SESSIONS, SET_TO_100, k => Done);
            var m := TWO_SESSIONS.mains[1];
            && out.error.None? && MainLink(m) == DetailLink(TWO_SESSIONS.details[0])
            && m.amount == Total(TWO_SESSIONS.details, MainLink(m))
            && m in out.ledger.mains && m.amount != Total(out.ledger.details, MainLink(m))
  {
    var before := TWO_SESSIONS.details[0];
    var m := TWO_SESSIONS.mains[1];
    assert TWO_SESSIONS.details == [before];
    assert [before][..0] == [];
    assert DetailIndex([before], 1) == Some(0);
    assert Total([before], DetailLink(before)) == 500;
    assert FirstPayment(TWO_SESSIONS.mains, "t", "q") == Some(TWO_SESSIONS.mains[0]);
    var after := EditDetail(before, SET_TO_100.changes);
    assert TWO_SESSIONS.details[0 := after] == [after];
    assert [after][..0] == [];
    assert Total([after], DetailLink(after)) == 100;
    assert MainLink(m) == DetailLink(after);
  }

  lemma SameTransactionSameRow(l: Ledger, a: Main, b: Main)
    requires DistinctTransactions(l) && a in l.mains && b in l.mains && a.transId == b.transId
    ensures a == b
  {
    var i :| 0 <= i < |l.mains| && l.mains[i] == a;
    var j :| 0 <= j < |l.mains| && l.mains[j] == b;
    assert i == j;
  }

  /** In a sound ledger an accepted amount edit can only repeat the amount that is already there. */
  lemma SoundEditsKeepAmounts(l: Ledger, r: EditRequest)
    requires Sound(l) && LeavesLinksAlone(r.changes) && EditPlan(l, r).error.None? && r.changes.amount.Some?
    ensures r.isMain ==> forall m :: m in l.mains && m.id == r.id ==> m.amount == r.changes.amount.value
    ensures !r.isMain ==> forall d :: d in l.details && d.id == r.id ==> d.amount == r.changes.amount.value
  {
    if r.isMain {
      var i := MainIndex(l.mains, r.id).value;
      assert l.mains[i] in l.mains;
    } else {
      var i := DetailIndex(l.details, r.id).value;
      var before := l.details[i];
      assert before in l.details;
      var owner :| owner in l.mains && MainLink(owner) == DetailLink(before);
      var payment := FirstPayment(l.mains, before.transId, before.rrr);
      SameTransactionSameRow(l, owner, payment.value);
    }
  }

  lemma MainEditKeepsSound(l: Ledger, i: nat, m: Main)
    requires Sound(l) && i < |l.mains|
    requires m.id == l.mains[i].id && m.amount == l.mains[i].amount && MainLink(m) == MainLink(l.mains[i])
    ensures Sound(Ledger(l.mains[i := m], l.details))
  {
    var after := Ledger(l.mains[i := m], l.details);
    assert l.mains[i] in l.mains;
    forall x | x in after.mains
      ensures x.amount == Total(l.details, MainLink(x))
    {
      assert x == m || x in l.mains;
    }
    forall d | d in after.details
      ensures exists owner :: owner in after.mains && MainLink(owner) == DetailLink(d)
    {
      var owner :| owner in l.mains && MainLink(owner) == DetailLink(d);
      var j :| 0 <= j < |l.mains| && l.mains[j] == owner;
      assert after.mains[j] in after.mains && MainLink(after.mains[j]) == DetailLink(d);
    }
  }

  lemma DetailEditKeepsSound(l: Ledger, i: nat, d: Detail)
    requires Sound(l) && i < |l.details|
    requires d.id == l.details[i].id && d.amount == l.details[i].amount && DetailLink(d) == DetailLink(l.details[i])
    ensures Sound(Ledger(l.mains, l.details[i := d]))
  {
    var after := Ledger(l.mains, l.details[i := d]);
    forall m | m in after.mains
      ensures m.amount == Total(after.details, MainLink(m))
    {
      TotalAfterUpdate(l.details, i, d, MainLink(m));
    }
    forall x | x in after.details
      ensures exists owner :: owner in after.mains && MainLink(owner) == DetailLink(x)
    {
      assert l.details[i] in l.details;
      var old' := if x == d then l.details[i] else x;
      assert old' in l.details;
      var owner :| owner in l.mains && MainLink(owner) == DetailLink(old');
    }
  }

  lemma EditPlanKeepsSound(l: Ledger, r: EditRequest)
    requires Sound(l) && LeavesLinksAlone(r.changes)
    ensures Sound(EditPlan(l, r).ledger)
  {
    if EditPlan(l, r).error.None? {
      if r.changes.amount.Some? {
        SoundEditsKeepAmounts(l, r);
      }
      if r.isMain {
        var i := MainIndex(l.mains, r.id).value;
        assert l.mains[i] in l.mains;
        MainEditKeepsSound(l, i, EditMain(l.mains[i], r.changes));
      } else {
        var i := DetailIndex(l.details, r.id).value;
        assert l.details[i] in l.details;
        DetailEditKeepsSound(l, i, EditDetail(l.details[i], r.changes));
      }
    }
  }

  /** Edits that leave session, rrr and trans_id alone keep the ledger sound, whatever statement is lost. */
  lemma EditKeepsSound(l: Ledger, r: EditRequest, fate: nat -> Fate)
    requires Sound(l) && LeavesLinksAlone(r.changes)
    ensures Sound(EditOutcome(l, r, fate).ledger)
  {
    EditPlanKeepsSound(l, r);
    assert EditOutcome(l, r, fate).ledger == l || EditOutcome(l, r, fate).ledger == EditPlan(l, r).ledger;
  }

  // ----- Reconciling -----

  datatype ReconcileRequest = ReconcileRequest(
    regno: string, session: string, semester: string, transId: string, modifier: string, verification: string)

  predicate Selects(r: ReconcileRequest, m: Main) {
    && m.regno == r.regno && m.session == r.session && m.semester == r.semester && m.desc == SCHOOL_CHARGES
    && (r.transId != "" ==> m.transId == r.transId)
  }

  /** The positions of the payments a request selects. */
  function Selected(mains: seq<Main>, r: ReconcileRequest): (s: seq<nat>)
    ensures forall k :: 0 <= k < |s| ==> s[k] < |mains| && Selects(r, mains[s[k]])
  {
    if mains == [] then []
    else
      var s := Selected(mains[..|mains| - 1], r);
      if Selects(r, mains[|mains| - 1]) then s + [|mains| - 1] else s
  }

  /** The lines of a payment take its pay item; all others stay. */
  function WithPayItem(details: seq<Detail>, link: Link, payItem: string): (r: seq<Detail>)
    ensures |r| == |details|
    ensures forall i :: 0 <= i < |r| ==>
              r[i] == if DetailLink(details[i]) == link then details[i].(payItem := payItem) else details[i]
  {
    seq(|details|, i requires 0 <= i < |details| =>
      if DetailLink(details[i]) == link then details[i].(payItem := payItem) else details[i])
  }

  /** The payment with its fee code set to its pay item: the first of the two updates. */
  function FeeCodeSet(l: Ledger, i: nat): Ledger
    requires i < |l.mains|
  {
    Ledger(l.mains[i := l.mains[i].(feeCode := l.mains[i].payItem)], l.details)
  }

  /** The lines of that payment with its pay item: the second. */
  function PayItemsSet(l: Ledger, i: nat): Ledger
    requires i < |l.mains|
  {
    Ledger(l.mains, WithPayItem(l.details, MainLink(l.mains[i]), l.mains[i].payItem))
  }

  function ReconcileProblem(l: Ledger, r: ReconcileRequest, m: Main): Option<Error> {
    if m.amount != Total(l.details, MainLink(m)) then Some(AmountsDiffer)
    else if m.status != "Full" || m.response != "01" then Some(NotApproved)
    else if r.modifier == "" || r.verification == "" then Some(MissingReference)
    else None
  }

  /**
   Statement 0 reads the payment, 1 its lines' total, 2 and 3 update the payment and the lines, 4 writes
   the audit row, 5 and 6 verify. Nothing undoes the first update when the second is lost.
   */
  function ReconcileOutcome(l: Ledger, r: ReconcileRequest, fate: nat -> Fate): Outcome {
    if r.regno == "" || r.session == "" || !ValidSemester(r.semester) then Outcome(l, Some(BadIdentity))
    else if fate(0).Lost? then Outcome(l, Some(GatewayFailed))
    else if |Selected(l.mains, r)| != 1 then Outcome(l, Some(NotUnique))
    else if fate(1).Lost? then Outcome(l, Some(GatewayFailed))
    else
      var i := Selected(l.mains, r)[0];
      var one := FeeCodeSet(l, i);
      var both := PayItemsSet(one, i);
      if ReconcileProblem(l, r, l.mains[i]).Some? then Outcome(l, ReconcileProblem(l, r, l.mains[i]))
      else if fate(2).Lost? then Outcome(if fate(2).applied then one else l, Some(GatewayFailed))
      else if fate(3).Lost? then Outcome(if fate(3).applied then both else one, Some(GatewayFailed))
      else Outcome(both, FailedIf(fate(4).Lost? || fate(5).Lost? || fate(6).Lost?))
  }

  lemma {:induction false} PayItemsKeepTotals(details: seq<Detail>, link: Link, payItem: string, other: Link)
    ensures Total(WithPayItem(details, link, payItem), other) == Total(details, other)
  {
    if details != [] {
      var init := details[..|details| - 1];
      PayItemsKeepTotals(init, link, payItem, other);
      assert WithPayItem(details, link, payItem)[..|init|] == WithPayItem(init, link, payItem);
    }
  }

  /** Reconciling keeps every amount and makes the payment and all its lines agree on the pay item. */
  lemma ReconcileAgrees(l: Ledger, r: ReconcileRequest, fate: nat -> Fate)
    requires ReconcileOutcome(l, r, fate).error.None?
    ensures var out := ReconcileOutcome(l, r, fate).ledger;
            var i := Selected(l.mains, r)[0];
            var m := out.mains[i];
            && |out.mains| == |l.mains| && |out.details| == |l.details|
            && m.feeCode == m.payItem && m.amount == Total(out.details, MainLink(m))
            && (forall d :: d in out.details && DetailLink(d) == MainLink(m) ==> d.payItem == m.payItem)
            && (forall k :: 0 <= k < |l.mains| && !Selects(r, l.mains[k]) ==> out.mains[k] == l.mains[k])
            && (forall k :: 0 <= k < |l.details| && DetailLink(l.details[k]) != MainLink(m) ==>
                  out.details[k] == l.details[k])
  {
    var m := l.mains[Selected(l.mains, r)[0]];
    PayItemsKeepTotals(l.details, MainLink(m), m.payItem, MainLink(m));
  }

  /** The one payment a request means, by its columns. */
  ghost predicate IsMeant(r: ReconcileRequest, m: Main) {
    && m.regno == r.regno && m.session == r.session && m.semester == r.semester && m.desc == "School Charges"
    && (r.transId == "" || m.transId == r.transId)
  }

  lemma {:induction false} SelectedAreMeant(mains: seq<Main>, r: ReconcileRequest)
    ensures forall i :: 0 <= i < |mains| ==> (i in Selected(mains, r) <==> IsMeant(r, mains[i]))
    ensures forall i :: 0 <= i < |Selected(mains, r)| ==> Selected(mains, r)[i] < |mains|
    ensures forall i, j :: 0 <= i < j < |Selected(mains, r)| ==> Selected(mains, r)[i] != Selected(mains, r)[j]
  {
    if mains != [] {
      SelectedAreMeant(mains[..|mains| - 1], r);
    }
  }

  ghost predicate MeansOnly(l: Ledger, r: ReconcileRequest, i: nat) {
    i < |l.mains| && IsMeant(r, l.mains[i]) && forall j :: 0 <= j < |l.mains| && j != i ==> !IsMeant(r, l.mains[j])
  }

  lemma OnlyElement(s: seq<nat>, x: nat)
    requires x in s && forall i, j :: 0 <= i < j < |s| ==> s[i] != s[j]
    ensures s == [x] || exists k :: 0 <= k < |s| && s[k] != x
  {
    if |s| == 1 {
      assert s == [x];
    } else {
      var k := if s[0] == x then 1 else 0;
      assert s[k] != x;
    }
  }

  lemma MeansOnlyIff(l: Ledger, r: ReconcileRequest, i: nat)
    ensures MeansOnly(l, r, i) <==> Selected(l.mains, r) == [i]
  {
    SelectedAreMeant(l.mains, r);
    var s := Selected(l.mains, r);
    if MeansOnly(l, r, i) {
      assert i in s;
      assert forall k :: 0 <= k < |s| ==> s[k] in s && s[k] == i;
      OnlyElement(s, i);
    }
    if s == [i] {
      assert s[0] == i && i in s;
      forall j | 0 <= j < |l.mains| && j != i
        ensures !IsMeant(r, l.mains[j])
      {
        assert j !in s;
      }
    }
  }

  /**
   Reconciling succeeds exactly when the request names one payment, full and approved with lines that add
   up, and an operator and a reference, and every statement is reported done.
   */
  lemma ReconcileSucceedsIff(l: Ledger, r: ReconcileRequest, fate: nat -> Fate)
    ensures ReconcileOutcome(l, r, fate).error.None? <==>
              && r.regno != "" && r.session != "" && r.semester in {"1st", "2nd", "3rd", "4th", "-"}
              && r.modifier != "" && r.verification != ""
              && (exists i: nat :: MeansOnly(l, r, i) && l.mains[i].status == "Full" && l.mains[i].response == "01" &&
                    l.mains[i].amount == Total(l.details, MainLink(l.mains[i])))
              && (forall k: nat :: k < 7 ==> fate(k).Done?)
  {
    forall i: nat
      ensures MeansOnly(l, r, i) <==> Selected(l.mains, r) == [i]
    {
      MeansOnlyIff(l, r, i);
    }
    hide MeansOnly, Total, Selected;
    var s := Selected(l.mains, r);
    if |s| == 1 {
      assert s == [s[0]];
    }
  }

  /**
   A reconciliation that would be refused changes nothing. Any other leaves the ledger alone, with the first
   of its updates, or with both, as far as its statements were applied.
   */
  lemma ReconcileLeaves(l: Ledger, r: ReconcileRequest, fate: nat -> Fate)
    ensures var wanted, out := ReconcileOutcome(l, r, AllDone()), ReconcileOutcome(l, r, fate);
            if wanted.error.Some? || fate(0).Lost? || fate(1).Lost? || fate(2) == Lost(false) then out.ledger == l
            else if fate(2).Lost? || fate(3) == Lost(false) then out.ledger == Ledger(wanted.ledger.mains, l.details)
            else out.ledger == wanted.ledger
  {
    hide ReconcileProblem, WithPayItem, Selected, Total, ValidSemester;
  }

  /** Whatever statement is lost, reconciling changes no amount and no link. */
  lemma ReconcileKeepsAmounts(l: Ledger, r: ReconcileRequest, fate: nat -> Fate)
    ensures var out := ReconcileOutcome(l, r, fate).ledger;
            && |out.mains| == |l.mains| && |out.details| == |l.details|
            && (forall k :: 0 <= k < |l.mains| ==> out.mains[k] == l.mains[k].(feeCode := out.mains[k].feeCode))
            && (forall k :: 0 <= k < |l.details| ==> out.details[k] == l.details[k].(payItem := out.details[k].payItem))
  {
  }

  lemma PayItemsKeepBalance(l: Ledger, link: Link, payItem: string)
    requires Balanced(l)
    ensures Balanced(Ledger(l.mains, WithPayItem(l.details, link, payItem)))
  {
    forall m | m in l.mains
      ensures m.amount == Total(WithPayItem(l.details, link, payItem), MainLink(m))
    {
      PayItemsKeepTotals(l.details, link, payItem, MainLink(m));
    }
  }

  lemma PayItemsKeepOwners(l: Ledger, link: Link, payItem: string)
    requires NoOrphanDetails(l)
    ensures NoOrphanDetails(Ledger(l.mains, WithPayItem(l.details, link, payItem)))
  {
    var after := WithPayItem(l.details, link, payItem);
    forall d | d in after
      ensures exists owner :: owner in l.mains && MainLink(owner) == DetailLink(d)
    {
      var k :| 0 <= k < |after| && after[k] == d;
      assert l.details[k] in l.details;
      var owner :| owner in l.mains && MainLink(owner) == DetailLink(l.details[k]);
    }
  }

  lemma PayItemsKeepSound(l: Ledger, link: Link, payItem: string)
    requires Sound(l)
    ensures Sound(Ledger(l.mains, WithPayItem(l.details, link, payItem)))
  {
    hide Balanced, NoOrphanDetails, Total;
    PayItemsKeepBalance(l, link, payItem);
    PayItemsKeepOwners(l, link, payItem);
  }

  /** The balance survives the first update alone, and both. */
  lemma UpdatesKeepSound(l: Ledger, i: nat)
    requires Sound(l) && i < |l.mains|
    ensures Sound(FeeCodeSet(l, i)) && Sound(PayItemsSet(FeeCodeSet(l, i), i))
  {
    var m := l.mains[i];
    MainEditKeepsSound(l, i, m.(feeCode := m.payItem));
    PayItemsKeepSound(FeeCodeSet(l, i), MainLink(m), m.payItem);
  }

  /** Reconciling keeps the ledger sound, whatever statement is lost. */
  lemma ReconcileKeepsSound(l: Ledger, r: ReconcileRequest, fate: nat -> Fate)
    requires Sound(l)
    ensures Sound(ReconcileOutcome(l, r, fate).ledger)
  {
    if |Selected(l.mains, r)| == 1 {
      UpdatesKeepSound(l, Selected(l.mains, r)[0]);
    }
  }

  lemma {:induction false} NoneSelected(mains: seq<Main>, r: ReconcileRequest)
    requires forall m :: m in mains ==> !Selects(r, m)
    ensures Selected(mains, r) == []
  {
    if mains != [] {
      NoneSelected(mains[..|mains| - 1], r);
    }
  }

  /** How the verification of a new payment looks it up. */
  function CheckRequest(req: AddRequest): ReconcileRequest {
    ReconcileRequest(req.regno, req.session, req.semester, req.transId, "", "")
  }

  /** The verification of a new payment finds exactly that payment, so it goes on to its second read. */
  lemma NewPaymentIsFound(l: Ledger, found: Lookups, req: AddRequest, mainId: nat, detailId: nat)
    requires AddProblem(l, found, req).None?
    ensures |Selected(Added(l, req, mainId, detailId).mains, CheckRequest(req))| == 1
  {
    var m := NewMain(req, mainId);
    NoneSelected(l.mains, CheckRequest(req));
    assert (l.mains + [m])[..|l.mains|] == l.mains;
  }

  lemma {:induction false} SelectedAgain(mains: seq<Main>, r: ReconcileRequest, i: nat, code: string)
    requires i < |mains|
    ensures Selected(mains[i := mains[i].(feeCode := code)], r) == Selected(mains, r)
  {
    var n := |mains| - 1;
    var after := mains[i := mains[i].(feeCode := code)];
    if i < n {
      assert after[..n] == mains[..n][i := mains[..n][i].(feeCode := code)];
      SelectedAgain(mains[..n], r, i, code);
    } else {
      assert after[..n] == mains[..n];
    }
  }

  // ----- Runs -----

  datatype Operation =
    | Add(found: Lookups, add: AddRequest, fate: nat -> Fate)
    | Edit(edit: EditRequest, fate: nat -> Fate)
    | Reconcile(reconcile: ReconcileRequest, fate: nat -> Fate)

  /** The tables with their auto-increment counters. */
  datatype State = State(ledger: Ledger, nextMain: nat, nextDetail: nat)

  /** How many main and detail rows an add writes before it ends, which is how far the counters move. */
  function RowsWritten(l: Ledger, found: Lookups, req: AddRequest, fate: nat -> Fate): (nat, nat) {
    var n := |req.lines|;
    var f := FirstLost(fate, 0, n + 2);
    if AddProblem(l, found, req).Some? then (0, 0)
    else if f == 0 then (if fate(0).applied then 1 else 0, 0)
    else if f <= n then (1, f - 1 + if fate(f).applied then 1 else 0)
    else (1, n)
  }

  function Step(s: State, op: Operation): State {
    match op
    case Add(found, req, fate) =>
      var rows := RowsWritten(s.ledger, found, req, fate);
      State(AddOutcome(s.ledger, found, req, s.nextMain, s.nextDetail, fate).ledger,
            s.nextMain + rows.0, s.nextDetail + rows.1)
    case Edit(r, fate) => s.(ledger := EditOutcome(s.ledger, r, fate).ledger)
    case Reconcile(r, fate) => s.(ledger := ReconcileOutcome(s.ledger, r, fate).ledger)
  }

  ghost predicate IsReached(fate: nat -> Fate, k: nat) {
    forall j: nat :: j < k ==> fate(j).Done?
  }

  /** How many of the first `n` line inserts are sent and applied. */
  ghost function LinesApplied(fate: nat -> Fate, n: nat): nat {
    if n == 0 then 0
    else LinesApplied(fate, n - 1) + (if IsReached(fate, n) && fate(n) != Lost(false) then 1 else 0)
  }

  /** The counters move once for each insert that is sent and applied, whatever it reports and is undone later. */
  lemma CountersFollowInserts(s: State, found: Lookups, req: AddRequest, fate: nat -> Fate)
    ensures var after := Step(s, Add(found, req, fate));
            var checked := AddProblem(s.ledger, found, req).None?;
            && after.nextMain == s.nextMain + (if checked && fate(0) != Lost(false) then 1 else 0)
            && after.nextDetail == s.nextDetail + (if checked then LinesApplied(fate, |req.lines|) else 0)
  {
    var n := |req.lines|;
    var f := FirstLost(fate, 0, n + 2);
    CountLines(fate, n, f);
    hide AddProblem, Written, LinesApplied;
  }

  lemma {:induction false} CountLines(fate: nat -> Fate, n: nat, f: nat)
    requires IsReached(fate, f) && (f <= n ==> fate(f).Lost?)
    ensures LinesApplied(fate, n) ==
            if f == 0 then 0 else if f <= n then f - 1 + (if fate(f) == Lost(false) then 0 else 1) else n
  {
    if n > 0 {
      if f < n {
        assert !IsReached(fate, n);
        CountLines(fate, n - 1, f);
      } else {
        CountLinesReached(fate, n - 1, f);
      }
    }
  }

  lemma {:induction false} CountLinesReached(fate: nat -> Fate, n: nat, f: nat)
    requires IsReached(fate, f) && n < f
    ensures LinesApplied(fate, n) == n
  {
    if n > 0 {
      CountLinesReached(fate, n - 1, f);
    }
  }

  /** An add may fail anywhere after its main row was written or refused; an edit leaves the links alone. */
  predicate Covered(op: Operation) {
    match op
    case Add(_, _, fate) => fate(0) != Lost(true)
    case Edit(r, _) => LeavesLinksAlone(r.changes)
    case Reconcile(_, _) => true
  }

  function Run(s: State, ops: seq<Operation>): State {
    if ops == [] then s else Step(Run(s, ops[..|ops| - 1]), ops[|ops| - 1])
  }

  /** What one operation does to the ledger; only an add moves the counters. */
  ghost predicate IsTaken(before: State, op: Operation, after: State) {
    match op
    case Add(found, req, fate) =>
      after.ledger == AddOutcome(before.ledger, found, req, before.nextMain, before.nextDetail, fate).ledger
    case Edit(r, fate) => after == before.(ledger := EditOutcome(before.ledger, r, fate).ledger)
    case Reconcile(r, fate) => after == before.(ledger := ReconcileOutcome(before.ledger, r, fate).ledger)
  }

  /** A run takes one operation after another, each on the ledger the one before left. */
  lemma RunTakesEachOperation(s: State, ops: seq<Operation>, op: Operation)
    ensures Run(s, []) == s && IsTaken(Run(s, ops), op, Run(s, ops + [op]))
  {
    hide AddOutcome, EditOutcome, ReconcileOutcome, RowsWritten;
    assert (ops + [op])[..|ops + [op]| - 1] == ops;
  }

  ghost predicate SoundState(s: State) {
    Sound(s.ledger) && FreshIds(s.ledger, s.nextMain, s.nextDetail)
  }

  lemma AddKeepsFreshIds(s: State, found: Lookups, req: AddRequest, fate: nat -> Fate)
    requires SoundState(s) && fate(0) != Lost(true)
    ensures var after := Step(s, Add(found, req, fate));
            FreshIds(after.ledger, after.nextMain, after.nextDetail)
  {
    AddKeepsSound(s.ledger, found, req, s.nextMain, s.nextDetail, fate);
  }

  lemma EditKeepsIds(l: Ledger, r: EditRequest, fate: nat -> Fate)
    ensures var out := EditOutcome(l, r, fate).ledger;
            && |out.mains| == |l.mains| && |out.details| == |l.details|
            && (forall k :: 0 <= k < |l.mains| ==> out.mains[k].id == l.mains[k].id)
            && (forall k :: 0 <= k < |l.details| ==> out.details[k].id == l.details[k].id)
  {
    hide EditProblem, Total, FirstPayment, CheckReads;
  }

  lemma EditKeepsFreshIds(s: State, r: EditRequest, fate: nat -> Fate)
    requires SoundState(s)
    ensures FreshIds(EditOutcome(s.ledger, r, fate).ledger, s.nextMain, s.nextDetail)
  {
    var l, out := s.ledger, EditOutcome(s.ledger, r, fate).ledger;
    EditKeepsIds(l, r, fate);
    hide EditOutcome;
    forall m | m in out.mains
      ensures m.id < s.nextMain
    {
      var k :| 0 <= k < |out.mains| && out.mains[k] == m;
      assert l.mains[k] in l.mains;
    }
    forall d | d in out.details
      ensures d.id < s.nextDetail
    {
      var k :| 0 <= k < |out.details| && out.details[k] == d;
      assert l.details[k] in l.details;
    }
  }

  lemma ReconcileKeepsFreshIds(s: State, r: ReconcileRequest, fate: nat -> Fate)
    requires SoundState(s)
    ensures FreshIds(ReconcileOutcome(s.ledger, r, fate).ledger, s.nextMain, s.nextDetail)
  {
    hide ReconcileOutcome;
    var l, out := s.ledger, ReconcileOutcome(s.ledger, r, fate).ledger;
    ReconcileKeepsAmounts(l, r, fate);
    forall m | m in out.mains
      ensures m.id < s.nextMain
    {
      var k :| 0 <= k < |out.mains| && out.mains[k] == m;
      assert l.mains[k] in l.mains;
    }
    forall d | d in out.details
      ensures d.id < s.nextDetail
    {
      var k :| 0 <= k < |out.details| && out.details[k] == d;
      assert l.details[k] in l.details;
    }
  }

  /** In every run every payment equals the sum of its lines. */
  lemma {:induction false} RunKeepsSound(s: State, ops: seq<Operation>)
    requires SoundState(s) && forall op :: op in ops ==> Covered(op)
    ensures SoundState(Run(s, ops))
  {
    if ops != [] {
      var before, op := Run(s, ops[..|ops| - 1]), ops[|ops| - 1];
      RunKeepsSound(s, ops[..|ops| - 1]);
      assert op in ops;
      match op
      case Add(found, req, fate) =>
        AddKeepsSound(before.ledger, found, req, before.nextMain, before.nextDetail, fate);
        AddKeepsFreshIds(before, found, req, fate);
      case Edit(r, fate) =>
        EditKeepsSound(before.ledger, r, fate);
        EditKeepsFreshIds(before, r, fate);
      case Reconcile(r, fate) =>
        ReconcileKeepsSound(before.ledger, r, fate);
        ReconcileKeepsFreshIds(before, r, fate);
    }
  }
}
