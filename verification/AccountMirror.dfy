/**
 The three mirrored tables of the bank integration: accounts and loans by user, linked
 accounts by consent handle, each with its own conflict rule.
 */
module AccountMirror {
  import opened Options
  import opened Mirror

  // ---- accounts -----------------------------------------------------------------------

  /** A stored account; synced_at is left out. */
  datatype Account = Account(
    accountType: string, currency: string, cifId: string, custId: string, holderName: string, status: string,
    branchId: string, branchName: string, openedAt: Option<int>,
    ledger: real, available: real, effective: real, lien: real)

  /** An account as the bank reports it; openedAt is None when its text is no time. */
  datatype AccountFeed = AccountFeed(accountNumber: string, data: Account)

  const DEFAULT_CURRENCY := "INR"

  function AccountItem(a: AccountFeed): (string, Account) {
    (a.accountNumber, a.data.(currency := if a.data.currency == "" then DEFAULT_CURRENCY else a.data.currency))
  }

  function AccountItems(accs: seq<AccountFeed>): (items: seq<(string, Account)>)
    ensures |items| == |accs|
  {
    if accs == [] then [] else AccountItems(accs[..|accs| - 1]) + [AccountItem(accs[|accs| - 1])]
  }

  /** Identity fields keep an earlier value against a blank one; everything else is overwritten. */
  function MergeAccount(stored: Account, incoming: Account): Account {
    incoming.(cifId := Sticky(stored.cifId, incoming.cifId),
              custId := Sticky(stored.custId, incoming.custId),
              holderName := Sticky(stored.holderName, incoming.holderName),
              branchId := Sticky(stored.branchId, incoming.branchId),
              branchName := Sticky(stored.branchName, incoming.branchName),
              openedAt := Coalesce(stored.openedAt, incoming.openedAt))
  }

  // ---- loans -----------------------------------------------------------------------------

  datatype Loan = Loan(
    custId: string, holderName: string, sanctioned: real, disbursed: real, available: real, interestRate: real,
    tenureMonths: int, repaymentMethod: string, interestMethod: string, openedAt: Option<int>,
    outstanding: real, overdue: real, dpd: int, npaStatus: string, npaDate: Option<int>)

  /** The NPA date is overwritten even by an unknown one. */
  function MergeLoan(stored: Loan, incoming: Loan): Loan {
    incoming.(custId := Sticky(stored.custId, incoming.custId),
              holderName := Sticky(stored.holderName, incoming.holderName),
              openedAt := Coalesce(stored.openedAt, incoming.openedAt))
  }

  // ---- linked accounts ---------------------------------------------------------------------

  datatype Linked = Linked(fipId: string, fipName: string, accountType: string, fiType: string, masked: string,
                           linkedAt: int)

  datatype LinkedFeed = LinkedFeed(linkRef: string, data: Linked)

  /** Items without a link reference are skipped; a new row is stamped with the time of the insert. */
  function LinkedItems(accs: seq<LinkedFeed>, now: int): seq<(string, Linked)> {
    if accs == [] then []
    else
      var rest := LinkedItems(accs[..|accs| - 1], now);
      var a := accs[|accs| - 1];
      if a.linkRef == "" then rest else rest + [(a.linkRef, a.data.(linkedAt := now))]
  }

  /** An update leaves the time of the insert alone. */
  function MergeLinked(stored: Linked, incoming: Linked): Linked {
    incoming.(linkedAt := stored.linkedAt)
  }

  // ---- the rules absorb ------------------------------------------------------------------------

  lemma AccountRuleAbsorbs()
    ensures Absorbing(MergeAccount)
  {
    forall a, b, c ensures Associates(MergeAccount, a, b, c) {
      assert MergeAccount(MergeAccount(a, b), c) == MergeAccount(a, MergeAccount(b, c));
    }
  }

  lemma LoanRuleAbsorbs()
    ensures Absorbing(MergeLoan)
  {
    forall a, b, c ensures Associates(MergeLoan, a, b, c) {
      assert MergeLoan(MergeLoan(a, b), c) == MergeLoan(a, MergeLoan(b, c));
    }
  }

  lemma LinkedRuleAbsorbs()
    ensures Absorbing(MergeLinked)
  {
    forall a, b, c ensures Associates(MergeLinked, a, b, c) {
      assert MergeLinked(MergeLinked(a, b), c) == MergeLinked(a, MergeLinked(b, c));
    }
  }

  // ---- what a sync leaves --------------------------------------------------------------------------

  lemma {:induction false} AccountItemsAt(accs: seq<AccountFeed>)
    ensures forall i :: 0 <= i < |accs| ==> AccountItems(accs)[i] == AccountItem(accs[i])
    decreases |accs|
  {
    if accs != [] {
      AccountItemsAt(accs[..|accs| - 1]);
    }
  }

  /** The user has exactly the reported accounts afterwards, and nobody else's account changes. */
  lemma AccountKeys(t: Table<int, string, Account>, user: int, accs: seq<AccountFeed>, o: (int, string))
    ensures var t' := Replaced(t, user, AccountItems(accs), MergeAccount);
            && (o.0 == user ==> (o in t' <==> exists i :: 0 <= i < |accs| && accs[i].accountNumber == o.1))
            && (o.0 != user ==> (o in t' <==> o in t) && (o in t ==> t'[o] == t[o]))
  {
    var items := AccountItems(accs);
    AccountItemsAt(accs);
    KeysAt(items);
    NoneForKey(t, user, items, MergeAccount, o.1);
    ReplacedExactly(t, user, items, MergeAccount, o.0, o.1);
    if o.0 == user && exists i :: 0 <= i < |accs| && accs[i].accountNumber == o.1 {
      var i :| 0 <= i < |accs| && accs[i].accountNumber == o.1;
      assert items[i].0 == o.1 && Keys(items)[i] == o.1;
    }
  }

  /** Syncing the same account list twice is syncing it once. */
  lemma SyncAccountsTwice(t: Table<int, string, Account>, user: int, accs: seq<AccountFeed>)
    ensures var once := Replaced(t, user, AccountItems(accs), MergeAccount);
            Replaced(once, user, AccountItems(accs), MergeAccount) == once
  {
    AccountRuleAbsorbs();
    ReplaceTwice(t, user, AccountItems(accs), MergeAccount);
  }

  lemma SyncLoansTwice(t: Table<int, string, Loan>, user: int, loans: seq<(string, Loan)>)
    ensures var once := Replaced(t, user, loans, MergeLoan); Replaced(once, user, loans, MergeLoan) == once
  {
    LoanRuleAbsorbs();
    ReplaceTwice(t, user, loans, MergeLoan);
  }

  /** Report i is the last one of this account. */
  ghost predicate IsLastReport(accs: seq<AccountFeed>, number: string, i: nat) {
    i < |accs| && accs[i].accountNumber == number && forall j :: i < j < |accs| ==> accs[j].accountNumber != number
  }

  /** v is what the last report of the account with a value there says, or the value before when none has one. */
  ghost predicate IsLastReported<V(!new)>(
    v: V, blank: V, before: V, accs: seq<AccountFeed>, number: string, get: Account -> V)
  {
    || (v == before && forall i :: 0 <= i < |accs| && accs[i].accountNumber == number ==> get(accs[i].data) == blank)
    || (exists i: nat :: IsLastValued(accs, number, get, blank, i) && v == get(accs[i].data))
  }

  /** Report i is the last one of this account that gives the field a value. */
  ghost predicate IsLastValued<V(!new)>(
    accs: seq<AccountFeed>, number: string, get: Account -> V, blank: V, i: nat)
  {
    && i < |accs| && accs[i].accountNumber == number && get(accs[i].data) != blank
    && forall j :: i < j < |accs| && accs[j].accountNumber == number ==> get(accs[j].data) == blank
  }

  /** The same of the items that the loop makes of the reports. */
  lemma {:induction false} ReportsOfItems<V(!new)>(
    v: V, blank: V, before: V, accs: seq<AccountFeed>, number: string, get: Account -> V)
    requires forall a: AccountFeed :: get(AccountItem(a).1) == get(a.data)
    requires IsLastGiven(v, blank, before, AccountItems(accs), number, get)
    ensures IsLastReported(v, blank, before, accs, number, get)
  {
    var items := AccountItems(accs);
    AccountItemsAt(accs);
    forall i | 0 <= i < |accs| ensures items[i].0 == accs[i].accountNumber && get(items[i].1) == get(accs[i].data) {
      assert items[i] == AccountItem(accs[i]);
    }
    if !(v == before && forall i :: 0 <= i < |items| && items[i].0 == number ==> get(items[i].1) == blank) {
      var i: nat :| IsLastGiver(items, number, get, blank, i) && v == get(items[i].1);
      assert IsLastValued(accs, number, get, blank, i);
    }
  }

  /** One identity field of the stored row, from the reports. */
  lemma {:induction false} AccountFieldAfterSync<V(!new)>(
    t: Table<int, string, Account>, user: int, accs: seq<AccountFeed>, number: string, get: Account -> V, blank: V)
    requires KeepsGiven(MergeAccount, get, blank) && exists i :: 0 <= i < |accs| && accs[i].accountNumber == number
    requires forall a: AccountFeed :: get(AccountItem(a).1) == get(a.data)
    ensures (user, number) in Replaced(t, user, AccountItems(accs), MergeAccount)
    ensures IsLastReported(get(Replaced(t, user, AccountItems(accs), MergeAccount)[(user, number)]), blank,
                           Stored(t, (user, number), get, blank), accs, number, get)
  {
    var items := AccountItems(accs);
    AccountItemsAt(accs);
    var some :| 0 <= some < |accs| && accs[some].accountNumber == number;
    assert items[some].0 == number;
    FieldIsLastGiven(t, user, items, MergeAccount, number, get, blank);
    ReportsOfItems(get(Replaced(t, user, items, MergeAccount)[(user, number)]), blank,
                   Stored(t, (user, number), get, blank), accs, number, get);
  }

  /** What was stored in a field before, or blank for a new account. */
  function Stored<V>(t: Table<int, string, Account>, o: (int, string), get: Account -> V, blank: V): V {
    if o in t then get(t[o]) else blank
  }

  ghost predicate Reported(accs: seq<AccountFeed>, number: string) {
    exists i :: 0 <= i < |accs| && accs[i].accountNumber == number
  }

  /** Each field of the holder is the last one reported, in this sync or stored before. */
  lemma {:induction false} AccountHolderAfterSync(
    t: Table<int, string, Account>, user: int, accs: seq<AccountFeed>, number: string)
    requires Reported(accs, number)
    ensures var t', o := Replaced(t, user, AccountItems(accs), MergeAccount), (user, number);
            && o in t'
            && IsLastReported(t'[o].cifId, "", if o in t then t[o].cifId else "", accs, number,
                              (a: Account) => a.cifId)
            && IsLastReported(t'[o].custId, "", if o in t then t[o].custId else "", accs, number,
                              (a: Account) => a.custId)
            && IsLastReported(t'[o].holderName, "", if o in t then t[o].holderName else "", accs, number,
                              (a: Account) => a.holderName)
  {
    AccountFieldAfterSync(t, user, accs, number, (a: Account) => a.cifId, "");
    AccountFieldAfterSync(t, user, accs, number, (a: Account) => a.custId, "");
    AccountFieldAfterSync(t, user, accs, number, (a: Account) => a.holderName, "");
  }

  /** So are the branch and the opening date. */
  lemma {:induction false} AccountBranchAfterSync(
    t: Table<int, string, Account>, user: int, accs: seq<AccountFeed>, number: string)
    requires Reported(accs, number)
    ensures var t', o := Replaced(t, user, AccountItems(accs), MergeAccount), (user, number);
            && o in t'
            && IsLastReported(t'[o].branchId, "", if o in t then t[o].branchId else "", accs, number,
                              (a: Account) => a.branchId)
            && IsLastReported(t'[o].branchName, "", if o in t then t[o].branchName else "", accs, number,
                              (a: Account) => a.branchName)
            && IsLastReported(t'[o].openedAt, None, if o in t then t[o].openedAt else None, accs, number,
                              (a: Account) => a.openedAt)
  {
    AccountFieldAfterSync(t, user, accs, number, (a: Account) => a.branchId, "");
    AccountFieldAfterSync(t, user, accs, number, (a: Account) => a.branchName, "");
    AccountFieldAfterSync(t, user, accs, number, (a: Account) => a.openedAt, None);
  }

  /** Every other field is that of the last report; a blank currency is stored as rupees. */
  lemma AccountAfterSync(t: Table<int, string, Account>, user: int, accs: seq<AccountFeed>, number: string, last: nat)
    requires IsLastReport(accs, number, last)
    ensures var t', o, fed := Replaced(t, user, AccountItems(accs), MergeAccount), (user, number), accs[last].data;
            && o in t'
            && t'[o].accountType == fed.accountType && t'[o].status == fed.status
            && t'[o].currency == (if fed.currency == "" then "INR" else fed.currency)
            && t'[o].ledger == fed.ledger && t'[o].available == fed.available
            && t'[o].effective == fed.effective && t'[o].lien == fed.lien
  {
    var items := AccountItems(accs);
    AccountItemsAt(accs);
    assert IsLastOf(items, number, last);
    FieldIsLast(t, user, items, MergeAccount, number, Overwritten, last);
  }

  /** The part of an account that every sync overwrites. */
  function Overwritten(a: Account): (string, string, string, real, real, real, real) {
    (a.accountType, a.currency, a.status, a.ledger, a.available, a.effective, a.lien)
  }

  /** Customer, holder and opening date keep given values, all else is that of the last report, the NPA date too. */
  lemma LoanAfterSync(t: Table<int, string, Loan>, user: int, loans: seq<(string, Loan)>, id: string, last: nat)
    requires IsLastOf(loans, id, last)
    ensures var t', o, fed := Replaced(t, user, loans, MergeLoan), (user, id), loans[last].1;
            && o in t'
            && IsLastGiven(t'[o].custId, "", if o in t then t[o].custId else "", loans, id, (l: Loan) => l.custId)
            && IsLastGiven(t'[o].holderName, "", if o in t then t[o].holderName else "", loans, id,
                           (l: Loan) => l.holderName)
            && IsLastGiven(t'[o].openedAt, None, if o in t then t[o].openedAt else None, loans, id,
                           (l: Loan) => l.openedAt)
            && t'[o].(custId := "", holderName := "", openedAt := None)
               == fed.(custId := "", holderName := "", openedAt := None)
  {
    assert loans[last].0 == id;
    FieldIsLastGiven(t, user, loans, MergeLoan, id, (l: Loan) => l.custId, "");
    FieldIsLastGiven(t, user, loans, MergeLoan, id, (l: Loan) => l.holderName, "");
    FieldIsLastGiven(t, user, loans, MergeLoan, id, (l: Loan) => l.openedAt, None);
    assert IsLastOf(loans, id, last);
    FieldIsLast(t, user, loans, MergeLoan, id, (l: Loan) => l.(custId := "", holderName := "", openedAt := None), last);
  }

  /** The user has exactly the reported loans afterwards, and nobody else's loan changes. */
  lemma LoanKeys(t: Table<int, string, Loan>, user: int, loans: seq<(string, Loan)>, o: (int, string))
    ensures var t' := Replaced(t, user, loans, MergeLoan);
            && (o.0 == user ==> (o in t' <==> exists i :: 0 <= i < |loans| && loans[i].0 == o.1))
            && (o.0 != user ==> (o in t' <==> o in t) && (o in t ==> t'[o] == t[o]))
  {
    KeysAt(loans);
    NoneForKey(t, user, loans, MergeLoan, o.1);
    ReplacedExactly(t, user, loans, MergeLoan, o.0, o.1);
    if o.0 == user && exists i :: 0 <= i < |loans| && loans[i].0 == o.1 {
      var i :| 0 <= i < |loans| && loans[i].0 == o.1;
      assert Keys(loans)[i] == o.1;
    }
  }

  /** A linked account has what the last item with its reference says, and the time of its first link. */
  lemma {:induction false} LinkedUpserts(
    t: Table<string, string, Linked>, handle: string, accs: seq<LinkedFeed>, now: int, last: nat)
    requires last < |accs| && accs[last].linkRef != ""
    requires forall j :: last < j < |accs| ==> accs[j].linkRef != accs[last].linkRef
    ensures var t', o := UpsertAll(t, handle, LinkedItems(accs, now), MergeLinked), (handle, accs[last].linkRef);
            && o in t' && SameButStamp(t'[o], accs[last].data)
    decreases |accs|
  {
    var front, a := accs[..|accs| - 1], accs[|accs| - 1];
    var items := LinkedItems(accs, now);
    if a.linkRef != "" {
      assert items[..|items| - 1] == LinkedItems(front, now);
    }
    if last < |front| {
      assert accs[|accs| - 1].linkRef != accs[last].linkRef && front[last] == accs[last];
      LinkedUpserts(t, handle, front, now, last);
    }
  }

  predicate SameButStamp(a: Linked, b: Linked) {
    && a.fipId == b.fipId && a.fipName == b.fipName && a.accountType == b.accountType
    && a.fiType == b.fiType && a.masked == b.masked
  }

  lemma {:induction false} LinkedStamp(
    t: Table<string, string, Linked>, handle: string, accs: seq<LinkedFeed>, now: int, ref: string)
    ensures var t', o := UpsertAll(t, handle, LinkedItems(accs, now), MergeLinked), (handle, ref);
            o in t' ==> t'[o].linkedAt == if o in t then t[o].linkedAt else now
    decreases |accs|
  {
    if accs != [] {
      var front, a := accs[..|accs| - 1], accs[|accs| - 1];
      var items := LinkedItems(accs, now);
      LinkedStamp(t, handle, front, now, ref);
      if a.linkRef != "" {
        assert items[..|items| - 1] == LinkedItems(front, now);
        assert UpsertAll(t, handle, items, MergeLinked)
            == Upsert(UpsertAll(t, handle, LinkedItems(front, now), MergeLinked), handle, a.linkRef,
                      a.data.(linkedAt := now), MergeLinked);
      }
      NoneForKey(t, handle, LinkedItems(front, now), MergeLinked, ref);
    }
  }

  lemma LinkedAfterSync(
    t: Table<string, string, Linked>, handle: string, accs: seq<LinkedFeed>, now: int, last: nat)
    requires last < |accs| && accs[last].linkRef != ""
    requires forall j :: last < j < |accs| ==> accs[j].linkRef != accs[last].linkRef
    ensures var t', o := Replaced(t, handle, LinkedItems(accs, now), MergeLinked), (handle, accs[last].linkRef);
            && o in t' && SameButStamp(t'[o], accs[last].data)
            && t'[o].linkedAt == if o in t then t[o].linkedAt else now
  {
    LinkedUpserts(t, handle, accs, now, last);
    LinkedStamp(t, handle, accs, now, accs[last].linkRef);
    LinkedKeys(accs, now, accs[last].linkRef);
  }

  /** The stored link references are exactly the given ones that are not blank. */
  lemma {:induction false} LinkedKeys(accs: seq<LinkedFeed>, now: int, ref: string)
    ensures ref in Keys(LinkedItems(accs, now))
            <==> ref != "" && exists i :: 0 <= i < |accs| && accs[i].linkRef == ref
    decreases |accs|
  {
    if accs != [] {
      var front, a := accs[..|accs| - 1], accs[|accs| - 1];
      LinkedKeys(front, now, ref);
      var items := LinkedItems(accs, now);
      if a.linkRef != "" {
        assert items[..|items| - 1] == LinkedItems(front, now);
      }
      assert accs == front + [a];
      if exists i :: 0 <= i < |front| && front[i].linkRef == ref {
        var i :| 0 <= i < |front| && front[i].linkRef == ref;
        assert accs[i].linkRef == ref;
      }
    }
  }

  /** The rows given for a reference, with one more account at the end of the list. */
  lemma LinkedOneMore(front: seq<LinkedFeed>, a: LinkedFeed, ref: string, now: int)
    ensures ItemsFor(LinkedItems(front + [a], now), ref)
            == if a.linkRef == ref && ref != "" then ItemsFor(LinkedItems(front, now), ref) + [a.data.(linkedAt := now)]
               else ItemsFor(LinkedItems(front, now), ref)
  {
    assert (front + [a])[..|front|] == front;
    var items := LinkedItems(front, now);
    if a.linkRef != "" {
      var more := items + [(a.linkRef, a.data.(linkedAt := now))];
      assert LinkedItems(front + [a], now) == more && more[..|items|] == items;
    }
  }

  lemma FoldOneMore<R>(merge: (R, R) -> R, prior: R, xs: seq<R>, x: R)
    requires FoldRow(merge, Some(prior), xs) != None
    ensures FoldRow(merge, Some(prior), xs + [x]) == Some(merge(FoldRow(merge, Some(prior), xs).value, x))
  {
    assert (xs + [x])[..|xs|] == xs;
  }

  lemma {:induction false} StampsDoNotMatter(r: Linked, accs: seq<LinkedFeed>, ref: string, now: int, later: int)
    ensures FoldRow(MergeLinked, Some(r), ItemsFor(LinkedItems(accs, later), ref))
            == FoldRow(MergeLinked, Some(r), ItemsFor(LinkedItems(accs, now), ref))
    ensures ItemsFor(LinkedItems(accs, later), ref) == [] <==> ItemsFor(LinkedItems(accs, now), ref) == []
    ensures FoldRow(MergeLinked, Some(r), ItemsFor(LinkedItems(accs, now), ref)) != None
    ensures FoldRow(MergeLinked, Some(r), ItemsFor(LinkedItems(accs, now), ref)).value.linkedAt == r.linkedAt
    decreases |accs|
  {
    if accs != [] {
      var front, a := accs[..|accs| - 1], accs[|accs| - 1];
      assert accs == front + [a];
      StampsDoNotMatter(r, front, ref, now, later);
      LinkedOneMore(front, a, ref, now);
      LinkedOneMore(front, a, ref, later);
      FoldOneMore(MergeLinked, r, ItemsFor(LinkedItems(front, now), ref), a.data.(linkedAt := now));
      FoldOneMore(MergeLinked, r, ItemsFor(LinkedItems(front, later), ref), a.data.(linkedAt := later));
    }
  }

  /** A linked account that stays linked keeps the time it was first linked at. */
  lemma LinkedAtIsKept(t: Table<string, string, Linked>, handle: string, accs: seq<LinkedFeed>, now: int, ref: string)
    requires (handle, ref) in t && ref in Keys(LinkedItems(accs, now))
    ensures var t' := Replaced(t, handle, LinkedItems(accs, now), MergeLinked);
            (handle, ref) in t' && t'[(handle, ref)].linkedAt == t[(handle, ref)].linkedAt
  {
    ReplacedExactly(t, handle, LinkedItems(accs, now), MergeLinked, handle, ref);
    StampsDoNotMatter(t[(handle, ref)], accs, ref, now, now);
  }

  /** Replacing the linked accounts with the same list again, at any later time, changes nothing at all. */
  lemma SyncLinkedTwice(t: Table<string, string, Linked>, handle: string, accs: seq<LinkedFeed>, now: int, later: int)
    ensures var once := Replaced(t, handle, LinkedItems(accs, now), MergeLinked);
            Replaced(once, handle, LinkedItems(accs, later), MergeLinked) == once
  {
    var first, second := LinkedItems(accs, now), LinkedItems(accs, later);
    var once := Replaced(t, handle, first, MergeLinked);
    var twice := Replaced(once, handle, second, MergeLinked);
    LinkedRuleAbsorbs();
    forall o: (string, string) ensures At(twice, o) == At(once, o) {
      ReplacedExactly(t, handle, first, MergeLinked, o.0, o.1);
      ReplacedExactly(once, handle, second, MergeLinked, o.0, o.1);
      LinkedKeys(accs, now, o.1);
      LinkedKeys(accs, later, o.1);
      KeysAreItems(first, o.1);
      FoldTwice(MergeLinked, At(t, o), ItemsFor(first, o.1));
      if At(once, o) != None {
        StampsDoNotMatter(At(once, o).value, accs, o.1, now, later);
      }
    }
    SameTable(twice, once);
  }

  // ---- the repositories --------------------------------------------------------------------------------

  class MirrorRepository {
    var accounts: Table<int, string, Account>
    var loans: Table<int, string, Loan>
    var linked: Table<string, string, Linked>

    constructor ()
      ensures accounts == map[] && loans == map[] && linked == map[]
    {
      accounts, loans, linked := map[], map[], map[];
    }

    /** faultAt numbers the statement that fails; beyond the list and its commit none does. */
    method ReplaceAccounts(user: int, accs: seq<AccountFeed>, faultAt: nat) returns (ok: bool)
      modifies this`accounts
      ensures ok <==> faultAt > |accs|
      ensures accounts == if ok then Replaced(old(accounts), user, AccountItems(accs), MergeAccount) else old(accounts)
    {
      ok, accounts := Replace(accounts, user, AccountItems(accs), MergeAccount, faultAt);
    }

    method ReplaceLoans(user: int, items: seq<(string, Loan)>, faultAt: nat) returns (ok: bool)
      modifies this`loans
      ensures ok <==> faultAt > |items|
      ensures loans == if ok then Replaced(old(loans), user, items, MergeLoan) else old(loans)
    {
      ok, loans := Replace(loans, user, items, MergeLoan, faultAt);
    }

    method ReplaceLinkedAccounts(handle: string, accs: seq<LinkedFeed>, now: int, faultAt: nat) returns (ok: bool)
      modifies this`linked
      ensures ok <==> faultAt > |LinkedItems(accs, now)|
      ensures linked == if ok then Replaced(old(linked), handle, LinkedItems(accs, now), MergeLinked) else old(linked)
    {
      ok, linked := Replace(linked, handle, LinkedItems(accs, now), MergeLinked, faultAt);
    }
  }
}
