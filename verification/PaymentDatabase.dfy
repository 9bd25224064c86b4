/**
 The payment operations as the sequences of statements they send, each proved to have
 exactly the outcome the ledger model gives it.
 */
module PaymentDatabase {
  import opened Text
  import opened PaymentLedger

  class Database {
    var mains: seq<Main>
    var details: seq<Detail>
    var nextMain: nat
    var nextDetail: nat

    constructor ()
      ensures View() == State(Ledger([], []), 0, 0)
    {
      mains, details, nextMain, nextDetail := [], [], 0, 0;
    }

    ghost function View(): State
      reads this
    {
      State(Ledger(mains, details), nextMain, nextDetail)
    }

    /** Insert the main row; a lost statement may or may not have been applied. */
    method InsertMain(req: AddRequest, fate: Fate)
      requires req.amount.Some?
      modifies `mains, `nextMain
      ensures fate != Lost(false) ==>
          mains == old(mains) + [NewMain(req, old(nextMain))] && nextMain == old(nextMain) + 1
      ensures fate == Lost(false) ==> mains == old(mains) && nextMain == old(nextMain)
    {
      if fate != Lost(false) {
        mains := mains + [NewMain(req, nextMain)];
        nextMain := nextMain + 1;
      }
    }

    method InsertDetail(req: AddRequest, line: Line, fate: Fate)
      modifies `details, `nextDetail
      ensures fate != Lost(false) ==>
                details == old(details) + [NewDetail(req, line, old(nextDetail))] && nextDetail == old(nextDetail) + 1
      ensures fate == Lost(false) ==> details == old(details) && nextDetail == old(nextDetail)
    {
      if fate != Lost(false) {
        details := details + [NewDetail(req, line, nextDetail)];
        nextDetail := nextDetail + 1;
      }
    }

    /** Insert the detail rows one by one until a statement is lost. */
    method InsertDetails(req: AddRequest, fate: nat -> Fate) returns (lost: bool)
      modifies `details, `nextDetail
      ensures var f := FirstLost(fate, 1, |req.lines| + 1);
              && lost == (f <= |req.lines|)
              && nextDetail == old(nextDetail) + f - 1 + (if lost && fate(f).applied then 1 else 0)
              && details == old(details) + NewDetails(req, nextDetail - old(nextDetail), old(nextDetail))
    {
      lost := false;
      var i := 0;
      while i < |req.lines| && !lost
        invariant i <= |req.lines|
        invariant forall k :: 1 <= k < i ==> fate(k).Done?
        invariant lost ==> i > 0 && fate(i).Lost?
        invariant !lost && i > 0 ==> fate(i).Done?
        invariant nextDetail == old(nextDetail) + (if lost && !fate(i).applied then i - 1 else i)
        invariant details == old(details) + NewDetails(req, nextDetail - old(nextDetail), old(nextDetail))
      {
        InsertDetail(req, req.lines[i], fate(i + 1));
        lost := fate(i + 1).Lost?;
        i := i + 1;
      }
    }

    /** Send the inserts of a checked request, and undo them when a later one is lost. */
    method WritePayment(req: AddRequest, fate: nat -> Fate) returns (failed: bool)
      requires req.amount.Some?
      modifies this
      ensures var n := |req.lines|;
              var f := FirstLost(fate, 0, n + 2);
              && failed == (f < n + 2)
              && nextMain == old(nextMain) + (if fate(0) == Lost(false) then 0 else 1)
              && nextDetail == old(nextDetail) +
                   (if f == 0 then 0 else if f <= n then f - 1 + (if fate(f).applied then 1 else 0) else n)
              && Ledger(mains, details) ==
                   if f == n + 2 then Added(old(Ledger(mains, details)), req, old(nextMain), old(nextDetail))
                   else if f == 0 then
                     if fate(0).applied then Ledger(old(mains) + [NewMain(req, old(nextMain))], old(details))
                     else old(Ledger(mains, details))
                   else Compensated(old(Ledger(mains, details)), req)
    {
      hide MainsWithout, DetailsWithout, NewMain, NewDetail;
      ghost var before := Ledger(mains, details);
      ghost var mainId, detailId := nextMain, nextDetail;
      InsertMain(req, fate(0));
      if fate(0).Lost? {
        return true;
      }
      failed := InsertDetails(req, fate);
      if !failed {
        failed := fate(|req.lines| + 1).Lost?;
      }
      if failed {
        PartialAddCompensates(before, req, mainId, detailId, nextDetail - detailId);
        details := DetailsWithout(details, req.transId, req.rrr);
        mains := MainsWithout(mains, req.transId, req.rrr);
      }
    }

    /** Check the lines in order and add up their amounts. */
    static method CheckLines(lines: seq<Line>) returns (ok: bool, total: int)
      ensures ok <==> forall i :: 0 <= i < |lines| ==> ValidLine(lines[i])
      ensures ok ==> total == LineTotal(lines)
    {
      total := 0;
      for i := 0 to |lines|
        invariant forall k :: 0 <= k < i ==> ValidLine(lines[k])
        invariant total == LineTotal(lines[..i])
      {
        if !ValidLine(lines[i]) {
          return false, total;
        }
        assert lines[..i + 1][..i] == lines[..i];
        total := total + lines[i].amount.value;
      }
      assert lines[..|lines|] == lines;
      ok := true;
    }

    /**
     `payment_check` on the new payment: whether one of its reads is lost. The second is sent for a
     single row only.
     */
    method VerifyPayment(r: ReconcileRequest, fate: nat -> Fate, first: nat) returns (lost: bool)
      ensures lost <==> fate(first).Lost? || (|Selected(mains, r)| == 1 && fate(first + 1).Lost?)
    {
      if fate(first).Lost? {
        return true;
      }
      var rows := Selected(mains, r);
      if |rows| != 1 {
        return false;
      }
      return fate(first + 1).Lost?;
    }

    method PaymentAdd(found: Lookups, req: AddRequest, fate: nat -> Fate) returns (error: Option<Error>)
      modifies this
      ensures View() == Step(old(View()), Add(found, req, fate))
      ensures error == AddOutcome(old(View()).ledger, found, req, old(nextMain), old(nextDetail), fate).error
    {
      if req.regno == "" || req.session == "" || !ValidSemester(req.semester) {
        return Some(BadIdentity);
      }
      if req.amount.None? || req.amount.value < 0 {
        return Some(BadAmount);
      }
      if !AllFields(req) {
        return Some(MissingFields);
      }
      if req.feeCode == "0" || req.feeCode == "9999999999" {
        return Some(PlaceholderFee);
      }
      if req.lines == [] {
        return Some(NoLines);
      }
      var ok, total := CheckLines(req.lines);
      if !ok {
        return Some(BadLine);
      }
      if total != req.amount.value {
        return Some(TotalMismatch);
      }
      error := CheckStudentAndReferences(found, req);
      if error.Some? {
        return;
      }
      NewPaymentIsFound(Ledger(mains, details), found, req, nextMain, nextDetail);
      error := WriteAndVerify(req, fate);
    }

    /** Write a checked payment and read it back; a read that is lost undoes nothing. */
    method WriteAndVerify(req: AddRequest, fate: nat -> Fate) returns (error: Option<Error>)
      requires req.amount.Some?
      requires |Selected(Added(Ledger(mains, details), req, nextMain, nextDetail).mains, CheckRequest(req))| == 1
      modifies this
      ensures var n := |req.lines|;
              var f := FirstLost(fate, 0, n + 2);
              && nextMain == old(nextMain) + (if fate(0) == Lost(false) then 0 else 1)
              && nextDetail == old(nextDetail) +
                   (if f == 0 then 0 else if f <= n then f - 1 + (if fate(f).applied then 1 else 0) else n)
              && Outcome(Ledger(mains, details), error) ==
                   Written(old(Ledger(mains, details)), req, old(nextMain), old(nextDetail), fate)
    {
      var failed := WritePayment(req, fate);
      if !failed {
        failed := VerifyPayment(CheckRequest(req), fate, |req.lines| + 2);
      }
      error := FailedIf(failed);
    }

    method CheckStudentAndReferences(found: Lookups, req: AddRequest) returns (error: Option<Error>)
      ensures error == LookupProblem(Ledger(mains, details), found, req)
    {
      if found.studentLost {
        return Some(GatewayFailed);
      }
      if found.student.None? {
        return Some(NoStudent);
      }
      if found.student.value.prog != req.prog {
        return Some(WrongProgramme);
      }
      if found.student.value.category != req.category {
        return Some(WrongCategory);
      }
      if found.duplicatesLost {
        return Some(GatewayFailed);
      }
      if IsDuplicate(Ledger(mains, details), req) {
        return Some(Duplicate);
      }
      return None;
    }

    /** Whether a new amount may be written over the row, or which check failed or was lost. */
    method CheckAmount(r: EditRequest, link: Link, amount: int, fate: nat -> Fate) returns (error: Option<Error>)
      requires r.changes.amount.Some?
      ensures error == if exists k: nat :: 1 <= k <= CheckReads(r) && fate(k).Lost? then Some(GatewayFailed)
                       else if r.isMain then
                         if r.changes.amount.value != Total(details, link) then Some(AmountRefused) else None
                       else if Total(details, link) - amount + r.changes.amount.value !=
                               PaymentTotal(FirstPayment(mains, link.transId, link.rrr)) then Some(AmountRefused)
                       else None
    {
      if fate(1).Lost? {
        return Some(GatewayFailed);
      }
      if r.isMain {
        return if r.changes.amount.value != Total(details, link) then Some(AmountRefused) else None;
      }
      var payment := FirstPayment(mains, link.transId, link.rrr);
      if fate(2).Lost? {
        return Some(GatewayFailed);
      }
      var newTotal := Total(details, link) - amount + r.changes.amount.value;
      return if newTotal != PaymentTotal(payment) then Some(AmountRefused) else None;
    }

    /** The update, the read-back and the audit row; an update that is lost may or may not have been applied. */
    method UpdateRow(r: EditRequest, i: nat, fate: nat -> Fate) returns (error: Option<Error>)
      requires if r.isMain then i < |mains| else i < |details|
      modifies `mains, `details
      ensures var edited := if r.isMain then Ledger(old(mains)[i := EditMain(old(mains)[i], r.changes)], old(details))
                            else Ledger(old(mains), old(details)[i := EditDetail(old(details)[i], r.changes)]);
              && Ledger(mains, details) == (if fate(3) == Lost(false) then old(Ledger(mains, details)) else edited)
              && error == FailedIf(fate(3).Lost? || fate(4).Lost? || fate(5).Lost?)
    {
      if fate(3) != Lost(false) {
        if r.isMain {
          mains := mains[i := EditMain(mains[i], r.changes)];
        } else {
          details := details[i := EditDetail(details[i], r.changes)];
        }
      }
      error := FailedIf(fate(3).Lost? || fate(4).Lost? || fate(5).Lost?);
    }

    method PaymentUpdate(r: EditRequest, fate: nat -> Fate) returns (error: Option<Error>)
      modifies `mains, `details
      ensures View() == Step(old(View()), Edit(r, fate))
      ensures error == EditOutcome(old(View()).ledger, r, fate).error
    {
      error := EditProblem(r);
      if error.Some? {
        return;
      }
      if fate(0).Lost? {
        return Some(GatewayFailed);
      }
      var i;
      var link, amount;
      if r.isMain {
        var found := MainIndex(mains, r.id);
        if found.None? {
          return Some(NotFound);
        }
        i, link, amount := found.value, MainLink(mains[found.value]), mains[found.value].amount;
      } else {
        var found := DetailIndex(details, r.id);
        if found.None? {
          return Some(NotFound);
        }
        i, link, amount := found.value, DetailLink(details[found.value]), details[found.value].amount;
      }
      if r.changes.amount.Some? {
        error := CheckAmount(r, link, amount, fate);
        if error.Some? {
          return;
        }
      }
      error := UpdateRow(r, i, fate);
    }

    method PaymentReconcile(r: ReconcileRequest, fate: nat -> Fate) returns (error: Option<Error>)
      modifies `mains, `details
      ensures View() == Step(old(View()), Reconcile(r, fate))
      ensures error == ReconcileOutcome(old(View()).ledger, r, fate).error
    {
      if r.regno == "" || r.session == "" || !ValidSemester(r.semester) {
        return Some(BadIdentity);
      }
      if fate(0).Lost? {
        return Some(GatewayFailed);
      }
      var rows := Selected(mains, r);
      if |rows| != 1 {
        return Some(NotUnique);
      }
      if fate(1).Lost? {
        return Some(GatewayFailed);
      }
      var row := mains[rows[0]];
      if row.amount != Total(details, MainLink(row)) {
        return Some(AmountsDiffer);
      }
      if row.status != "Full" || row.response != "01" {
        return Some(NotApproved);
      }
      if r.modifier == "" || r.verification == "" {
        return Some(MissingReference);
      }
      error := SendUpdates(r, rows[0], fate);
    }

    /** The two updates, the audit row and the verification; nothing undoes the first when the second is lost. */
    method SendUpdates(r: ReconcileRequest, i: nat, fate: nat -> Fate) returns (error: Option<Error>)
      requires i < |mains| && |Selected(mains, r)| == 1
      modifies `mains, `details
      ensures var one := FeeCodeSet(old(Ledger(mains, details)), i);
              && Ledger(mains, details) ==
                   (if fate(2) == Lost(false) then old(Ledger(mains, details))
                    else if fate(2).Lost? || fate(3) == Lost(false) then one
                    else PayItemsSet(one, i))
              && error == FailedIf(exists k: nat :: 2 <= k <= 6 && fate(k).Lost?)
    {
      var row := mains[i];
      SelectedAgain(mains, r, i, row.payItem);
      if fate(2) != Lost(false) {
        mains := mains[i := row.(feeCode := row.payItem)];
      }
      if fate(2).Lost? {
        return Some(GatewayFailed);
      }
      if fate(3) != Lost(false) {
        details := WithPayItem(details, MainLink(row), row.payItem);
      }
      if fate(3).Lost? || fate(4).Lost? {
        return Some(GatewayFailed);
      }
      var lost := VerifyPayment(r, fate, 5);
      error := FailedIf(lost);
    }
  }
}
