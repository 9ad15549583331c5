/**
 Which accounts a connect request adds: the detected candidates that were selected, then
 the next free slot of each further bank that was asked for.
 */
module SlotAllocator {
  import opened Options
  import opened Selections

  datatype Account = Account(id: string, bankName: string, accountType: string, number: string, balance: real)

  /** The deterministic account of one user by bank and slot, slots counted from 1. */
  type Generator = (string, int) -> Account

  datatype Request = Request(selected: seq<string>, banksToAdd: seq<string>)

  const ACCOUNTS_PER_BANK := 2

  const BANK_POOL := [
    "Axis Bank", "ICICI Bank", "HDFC Bank", "Kotak Mahindra Bank", "State Bank of India", "Punjab National Bank",
    "Bank of Baroda", "Canara Bank", "Union Bank of India", "Bank of India", "Indian Bank",
    "Indian Overseas Bank", "UCO Bank", "Bank of Maharashtra", "Punjab & Sind Bank", "IndusInd Bank", "Yes Bank"]

  function Key(a: Account): string {
    a.bankName + "|" + a.number
  }

  /** The first k slots of a bank. */
  function SlotsOf(gen: Generator, bank: string, k: nat): (s: seq<Account>)
    ensures |s| == k && forall i :: 0 <= i < k ==> s[i] == gen(bank, i + 1)
  {
    if k == 0 then [] else SlotsOf(gen, bank, k - 1) + [gen(bank, k)]
  }

  /** All candidates of the pool, bank by bank. */
  function Candidates(gen: Generator, banks: seq<string>): seq<Account> {
    if banks == [] then []
    else Candidates(gen, banks[..|banks| - 1]) + SlotsOf(gen, banks[|banks| - 1], ACCOUNTS_PER_BANK)
  }

  function KeysOf(accs: seq<Account>): set<string> {
    set i | 0 <= i < |accs| :: Key(accs[i])
  }

  function IdsOf(ids: seq<string>): set<string> {
    set i | 0 <= i < |ids| :: ids[i]
  }

  // ---- the selected candidates ---------------------------------------------------------------

  /** The wanted candidates that are not linked yet; each choice links its key. */
  function Chosen(cands: seq<Account>, wanted: set<string>, linked: set<string>): seq<Account> {
    if cands == [] then []
    else
      var rest := Chosen(cands[..|cands| - 1], wanted, linked);
      var c := cands[|cands| - 1];
      if c.id in wanted && Key(c) !in linked + KeysOf(rest) then rest + [c] else rest
  }

  // ---- the further banks -----------------------------------------------------------------------

  /** The lowest slot from slot s on whose key is free, or nothing. */
  function FirstFree(gen: Generator, bank: string, linked: set<string>, s: int): Option<Account>
    requires 1 <= s <= ACCOUNTS_PER_BANK + 1
    decreases ACCOUNTS_PER_BANK + 1 - s
  {
    if s > ACCOUNTS_PER_BANK then None
    else if Key(gen(bank, s)) in linked then FirstFree(gen, bank, linked, s + 1)
    else Some(gen(bank, s))
  }

  function AddBanks(gen: Generator, banks: seq<string>, linked: set<string>): seq<Account> {
    if banks == [] then []
    else
      var rest := AddBanks(gen, banks[..|banks| - 1], linked);
      match FirstFree(gen, banks[|banks| - 1], linked + KeysOf(rest), 1)
      case None => rest
      case Some(a) => rest + [a]
  }

  /** Everything that a request adds for a user with these linked keys. */
  function Selection(gen: Generator, pool: seq<string>, r: Request, linked: set<string>): seq<Account> {
    var wanted := IdsOf(r.selected);
    var chosen := Chosen(Candidates(gen, pool), wanted, linked);
    chosen + AddBanks(gen, r.banksToAdd, linked + KeysOf(chosen))
  }

  method SelectAccounts(gen: Generator, pool: seq<string>, r: Request, linkedKeys: set<string>)
    returns (toInsert: seq<Account>)
    ensures toInsert == Selection(gen, pool, r, linkedKeys)
  {
    var linked := linkedKeys;
    var wanted := IdsOf(r.selected);
    toInsert, linked := SelectExisting(gen, pool, wanted, linked);
    ghost var chosen := toInsert;
    for i := 0 to |r.banksToAdd|
      invariant toInsert == chosen + AddBanks(gen, r.banksToAdd[..i], linkedKeys + KeysOf(chosen))
      invariant linked == linkedKeys + KeysOf(chosen)
                          + KeysOf(AddBanks(gen, r.banksToAdd[..i], linkedKeys + KeysOf(chosen)))
    {
      assert r.banksToAdd[..i + 1][..i] == r.banksToAdd[..i];
      var bank := r.banksToAdd[i];
      ghost var before := AddBanks(gen, r.banksToAdd[..i], linkedKeys + KeysOf(chosen));
      var a := NextFree(gen, bank, linked);
      if a != None {
        KeysOfAppend(before, a.value);
        toInsert := toInsert + [a.value];
        linked := linked + {Key(a.value)};
      }
    }
    assert r.banksToAdd[..|r.banksToAdd|] == r.banksToAdd;
  }

  /** The handler's choice over the fixed pool; a request that asks for nothing is an error. */
  method ConnectAccounts(gen: Generator, r: Request, linkedKeys: set<string>) returns (toInsert: Option<seq<Account>>)
    ensures toInsert == None <==> r.selected == [] && r.banksToAdd == []
    ensures toInsert != None ==> toInsert.value == Selection(gen, BANK_POOL, r, linkedKeys)
  {
    if |r.selected| == 0 && |r.banksToAdd| == 0 {
      return None;
    }
    var accounts := SelectAccounts(gen, BANK_POOL, r, linkedKeys);
    toInsert := Some(accounts);
  }

  method SelectExisting(gen: Generator, pool: seq<string>, wanted: set<string>, linkedKeys: set<string>)
    returns (toInsert: seq<Account>, linked: set<string>)
    ensures toInsert == Chosen(Candidates(gen, pool), wanted, linkedKeys)
    ensures linked == linkedKeys + KeysOf(toInsert)
  {
    toInsert, linked := [], linkedKeys;
    for b := 0 to |pool|
      invariant toInsert == Chosen(Candidates(gen, pool[..b]), wanted, linkedKeys)
      invariant linked == linkedKeys + KeysOf(toInsert)
    {
      assert pool[..b + 1][..b] == pool[..b];
      ghost var before := Candidates(gen, pool[..b]);
      assert before + SlotsOf(gen, pool[b], 0) == before;
      for s := 0 to ACCOUNTS_PER_BANK
        invariant toInsert == Chosen(before + SlotsOf(gen, pool[b], s), wanted, linkedKeys)
        invariant linked == linkedKeys + KeysOf(toInsert)
      {
        var cand := gen(pool[b], s + 1);
        ghost var upTo := before + SlotsOf(gen, pool[b], s + 1);
        assert upTo[..|upTo| - 1] == before + SlotsOf(gen, pool[b], s);
        if cand.id in wanted && Key(cand) !in linked {
          KeysOfAppend(toInsert, cand);
          toInsert := toInsert + [cand];
          linked := linked + {Key(cand)};
        }
      }
    }
    assert pool[..|pool|] == pool;
  }

  method NextFree(gen: Generator, bank: string, linked: set<string>) returns (a: Option<Account>)
    ensures a == FirstFree(gen, bank, linked, 1)
  {
    var s := 1;
    while s <= ACCOUNTS_PER_BANK
      invariant 1 <= s <= ACCOUNTS_PER_BANK + 1
      invariant FirstFree(gen, bank, linked, 1) == FirstFree(gen, bank, linked, s)
    {
      var cand := gen(bank, s);
      if Key(cand) !in linked {
        return Some(cand);
      }
      s := s + 1;
    }
    a := None;
  }

  // ---- nothing twice --------------------------------------------------------------------------------

  lemma KeysOfAppend(accs: seq<Account>, a: Account)
    ensures KeysOf(accs + [a]) == KeysOf(accs) + {Key(a)}
  {
    var more := accs + [a];
    forall k | k in KeysOf(accs) ensures k in KeysOf(more) {
      var i :| 0 <= i < |accs| && Key(accs[i]) == k;
      assert more[i] == accs[i];
    }
    assert more[|accs|] == a;
  }

  lemma {:induction false} KeysOfConcat(a: seq<Account>, b: seq<Account>)
    ensures KeysOf(a + b) == KeysOf(a) + KeysOf(b)
    decreases |b|
  {
    if b == [] {
      assert a + b == a;
    } else {
      var front, x := b[..|b| - 1], b[|b| - 1];
      KeysOfConcat(a, front);
      KeysOfAppend(a + front, x);
      KeysOfAppend(front, x);
      assert a + b == a + front + [x];
      assert b == front + [x];
    }
  }

  /** No two accounts with the same key, and none whose key was already linked. */
  ghost predicate Fresh(accs: seq<Account>, linked: set<string>) {
    && (forall i, j :: 0 <= i < j < |accs| ==> Key(accs[i]) != Key(accs[j]))
    && (forall i :: 0 <= i < |accs| ==> Key(accs[i]) !in linked)
  }

  lemma FreshAppend(accs: seq<Account>, linked: set<string>, a: Account)
    requires Fresh(accs, linked) && Key(a) !in linked + KeysOf(accs)
    ensures Fresh(accs + [a], linked)
  {
    forall i | 0 <= i < |accs| ensures Key(accs[i]) != Key(a) {
      assert Key(accs[i]) in KeysOf(accs);
    }
  }

  lemma {:induction false} ChosenIsFresh(cands: seq<Account>, wanted: set<string>, linked: set<string>)
    ensures Fresh(Chosen(cands, wanted, linked), linked)
    decreases |cands|
  {
    if cands != [] {
      var front, c := cands[..|cands| - 1], cands[|cands| - 1];
      ChosenIsFresh(front, wanted, linked);
      if c.id in wanted && Key(c) !in linked + KeysOf(Chosen(front, wanted, linked)) {
        FreshAppend(Chosen(front, wanted, linked), linked, c);
      }
    }
  }

  /** The next free slot is the lowest one whose key is not linked; nothing means that all are linked. */
  lemma {:induction false} FirstFreeIsLowest(gen: Generator, bank: string, linked: set<string>, s: int)
    requires 1 <= s <= ACCOUNTS_PER_BANK + 1
    requires forall k :: 1 <= k < s ==> Key(gen(bank, k)) in linked
    ensures match FirstFree(gen, bank, linked, s)
            case None => forall k :: 1 <= k <= ACCOUNTS_PER_BANK ==> Key(gen(bank, k)) in linked
            case Some(a) => exists k :: IsLowestFree(gen, bank, linked, k) && a == gen(bank, k)
    decreases ACCOUNTS_PER_BANK + 1 - s
  {
    if s <= ACCOUNTS_PER_BANK {
      if Key(gen(bank, s)) in linked {
        FirstFreeIsLowest(gen, bank, linked, s + 1);
      } else {
        assert IsLowestFree(gen, bank, linked, s);
      }
    }
  }

  ghost predicate IsLowestFree(gen: Generator, bank: string, linked: set<string>, s: int) {
    && 1 <= s <= ACCOUNTS_PER_BANK
    && Key(gen(bank, s)) !in linked
    && forall k :: 1 <= k < s ==> Key(gen(bank, k)) in linked
  }

  lemma {:induction false} AddBanksIsFresh(gen: Generator, banks: seq<string>, linked: set<string>)
    ensures Fresh(AddBanks(gen, banks, linked), linked)
    decreases |banks|
  {
    if banks != [] {
      var front, bank := banks[..|banks| - 1], banks[|banks| - 1];
      AddBanksIsFresh(gen, front, linked);
      var rest := AddBanks(gen, front, linked);
      FirstFreeIsLowest(gen, bank, linked + KeysOf(rest), 1);
      match FirstFree(gen, bank, linked + KeysOf(rest), 1)
      case None =>
      case Some(a) => FreshAppend(rest, linked, a);
    }
  }

  lemma FreshConcat(a: seq<Account>, b: seq<Account>, linked: set<string>)
    requires Fresh(a, linked) && Fresh(b, linked + KeysOf(a))
    ensures Fresh(a + b, linked)
  {
    var ab := a + b;
    forall i, j | 0 <= i < j < |ab| ensures Key(ab[i]) != Key(ab[j]) {
      if i < |a| <= j {
        assert Key(a[i]) in KeysOf(a);
        assert Key(b[j - |a|]) !in linked + KeysOf(a);
      }
    }
  }

  /** A request never adds two accounts with the same key, nor one that is already linked. */
  lemma SelectionIsFresh(gen: Generator, pool: seq<string>, r: Request, linked: set<string>)
    ensures Fresh(Selection(gen, pool, r, linked), linked)
  {
    var wanted := IdsOf(r.selected);
    var chosen := Chosen(Candidates(gen, pool), wanted, linked);
    ChosenIsFresh(Candidates(gen, pool), wanted, linked);
    AddBanksIsFresh(gen, r.banksToAdd, linked + KeysOf(chosen));
    FreshConcat(chosen, AddBanks(gen, r.banksToAdd, linked + KeysOf(chosen)), linked);
  }

  // ---- every wish is met once ------------------------------------------------------------------------

  /** The candidates are the first two slots of every bank, in the order of the pool. */
  lemma {:induction false} CandidatesAre(gen: Generator, pool: seq<string>)
    ensures |Candidates(gen, pool)| == 2 * |pool|
    ensures forall b :: 0 <= b < |pool| ==>
              Candidates(gen, pool)[2 * b] == gen(pool[b], 1) && Candidates(gen, pool)[2 * b + 1] == gen(pool[b], 2)
    decreases |pool|
  {
    if pool != [] {
      CandidatesAre(gen, pool[..|pool| - 1]);
    }
  }

  ghost predicate KeysDiffer(cands: seq<Account>) {
    forall i, j :: 0 <= i < j < |cands| ==>
      cands[i].bankName + "|" + cands[i].number != cands[j].bankName + "|" + cands[j].number
  }

  /** While no two candidates have the same bank and number, the chosen are those selected and not linked, in order. */
  lemma {:induction false} ChosenIsFilter(cands: seq<Account>, wanted: set<string>, linked: set<string>)
    requires KeysDiffer(cands)
    ensures Chosen(cands, wanted, linked)
         == Filter(cands, (c: Account) => c.id in wanted && c.bankName + "|" + c.number !in linked)
    decreases |cands|
  {
    if cands != [] {
      var front, c := cands[..|cands| - 1], cands[|cands| - 1];
      ChosenIsFilter(front, wanted, linked);
      ChosenIsWanted(front, wanted, linked);
      var rest := Chosen(front, wanted, linked);
      assert Key(c) !in KeysOf(rest) by {
        forall i | 0 <= i < |rest| ensures Key(rest[i]) != Key(c) {
          assert rest[i] in front;
          var j :| 0 <= j < |front| && front[j] == rest[i];
          assert cands[j] == rest[i];
        }
      }
    }
  }

  /** Chosen are exactly wanted candidates, and every wanted candidate is linked afterwards. */
  lemma {:induction false} ChosenIsWanted(cands: seq<Account>, wanted: set<string>, linked: set<string>)
    ensures var chosen := Chosen(cands, wanted, linked);
            && (forall a :: a in chosen ==> a in cands && a.id in wanted)
            && (forall c :: c in cands && c.id in wanted ==> Key(c) in linked + KeysOf(chosen))
    decreases |cands|
  {
    if cands != [] {
      var front, c := cands[..|cands| - 1], cands[|cands| - 1];
      ChosenIsWanted(front, wanted, linked);
      assert cands == front + [c];
      KeysOfAppend(Chosen(front, wanted, linked), c);
    }
  }

  /** Each further bank gets the lowest slot that is free when its turn comes, or nothing when all are taken. */
  lemma AddOneBank(gen: Generator, banks: seq<string>, bank: string, linked: set<string>)
    ensures var rest := AddBanks(gen, banks, linked);
            var taken := linked + KeysOf(rest);
            AddBanks(gen, banks + [bank], linked)
            == if gen(bank, 1).bankName + "|" + gen(bank, 1).number !in taken then rest + [gen(bank, 1)]
               else if gen(bank, 2).bankName + "|" + gen(bank, 2).number !in taken then rest + [gen(bank, 2)]
               else rest
  {
    var more := banks + [bank];
    assert more[..|more| - 1] == banks;
    var taken := linked + KeysOf(AddBanks(gen, banks, linked));
    FirstFreeIsLowest(gen, bank, taken, 1);
  }

  // ---- sending a request again ---------------------------------------------------------------------------

  /**
   The accounts are inserted one by one, without a transaction. If that stops after n of
   them, sending the same selected ids again selects exactly the others, in order; after
   a complete insert it selects nothing.
   */
  lemma {:induction false} ResendSelectsTheRest(cands: seq<Account>, wanted: set<string>, linked: set<string>, n: nat)
    requires n <= |Chosen(cands, wanted, linked)|
    ensures var chosen := Chosen(cands, wanted, linked);
            Chosen(cands, wanted, linked + KeysOf(chosen[..n])) == chosen[n..]
    decreases |cands|
  {
    if cands != [] {
      var front, c := cands[..|cands| - 1], cands[|cands| - 1];
      var before, chosen := Chosen(front, wanted, linked), Chosen(cands, wanted, linked);
      if n <= |before| {
        ResendSelectsTheRest(front, wanted, linked, n);
        assert chosen[..n] == before[..n];
        assert before == before[..n] + before[n..];
        KeysOfConcat(before[..n], before[n..]);
        assert linked + KeysOf(before[..n]) + KeysOf(before[n..]) == linked + KeysOf(before);
      } else {
        ResendSelectsTheRest(front, wanted, linked, |before|);
        assert before[..|before|] == before && chosen[..n] == before + [c];
        KeysOfAppend(before, c);
        ChosenGrows(front, wanted, linked + KeysOf(before), Key(c));
        assert linked + KeysOf(before) + {Key(c)} == linked + KeysOf(chosen[..n]);
        assert before[|before|..] == [];
      }
    }
  }

  /** Where nothing is selected, linking one more key selects nothing either. */
  lemma {:induction false} ChosenGrows(cands: seq<Account>, wanted: set<string>, linked: set<string>, key: string)
    requires Chosen(cands, wanted, linked) == []
    ensures Chosen(cands, wanted, linked + {key}) == []
    decreases |cands|
  {
    if cands != [] {
      ChosenGrows(cands[..|cands| - 1], wanted, linked, key);
    }
  }

  lemma {:induction false} AddBanksEmpty(gen: Generator, banks: seq<string>, linked: set<string>)
    ensures AddBanks(gen, banks, linked) == []
            <==> forall i, k :: 0 <= i < |banks| && 1 <= k <= ACCOUNTS_PER_BANK ==> Key(gen(banks[i], k)) in linked
    decreases |banks|
  {
    if banks != [] {
      var front, bank := banks[..|banks| - 1], banks[|banks| - 1];
      AddBanksEmpty(gen, front, linked);
      assert linked + KeysOf([]) == linked;
      FirstFreeIsLowest(gen, bank, linked, 1);
    }
  }

  /**
   Sending a whole request again adds nothing exactly when every slot of every bank to add
   is linked by then; otherwise a retry connects further accounts.
   */
  lemma ResendAddsNothingExactly(gen: Generator, pool: seq<string>, r: Request, linked: set<string>)
    ensures var after := linked + KeysOf(Selection(gen, pool, r, linked));
            Selection(gen, pool, r, after) == []
            <==> forall i, k :: 0 <= i < |r.banksToAdd| && 1 <= k <= ACCOUNTS_PER_BANK
                                ==> Key(gen(r.banksToAdd[i], k)) in after
  {
    var wanted := IdsOf(r.selected);
    var cands := Candidates(gen, pool);
    var chosen := Chosen(cands, wanted, linked);
    var added := AddBanks(gen, r.banksToAdd, linked + KeysOf(chosen));
    var after := linked + KeysOf(chosen + added);
    KeysOfConcat(chosen, added);
    ResendSelectsTheRest(cands, wanted, linked, |chosen|);
    assert chosen[..|chosen|] == chosen && chosen[|chosen|..] == [];
    ChosenGrowsAll(cands, wanted, linked + KeysOf(chosen), KeysOf(added));
    assert linked + KeysOf(chosen) + KeysOf(added) == after;
    assert after + KeysOf([]) == after;
    AddBanksEmpty(gen, r.banksToAdd, after);
  }

  // ---- the same condition before the first request ----------------------------------------------------

  /** Different slots have different keys. */
  ghost predicate DistinctKeys(gen: Generator) {
    forall bank: string, s: int, bank': string, s': int :: SlotsDiffer(gen, bank, s, bank', s')
  }

  predicate SlotsDiffer(gen: Generator, bank: string, s: int, bank': string, s': int) {
    Key(gen(bank, s)) == Key(gen(bank', s')) ==> bank == bank' && s == s'
  }

  function One(b: bool): nat {
    if b then 1 else 0
  }

  function FreeSlots(gen: Generator, bank: string, linked: set<string>): nat {
    One(Key(gen(bank, 1)) !in linked) + One(Key(gen(bank, 2)) !in linked)
  }

  function Times(banks: seq<string>, bank: string): nat {
    if banks == [] then 0 else Times(banks[..|banks| - 1], bank) + One(banks[|banks| - 1] == bank)
  }

  /** Each occurrence of a bank takes one of its free slots, and nothing else does. */
  lemma {:induction false} AddBanksTakesSlots(gen: Generator, banks: seq<string>, linked: set<string>, bank: string)
    requires DistinctKeys(gen)
    ensures var free, n := FreeSlots(gen, bank, linked), Times(banks, bank);
            FreeSlots(gen, bank, linked + KeysOf(AddBanks(gen, banks, linked))) == if free <= n then 0 else free - n
    decreases |banks|
  {
    if banks == [] {
      assert linked + KeysOf([]) == linked;
    } else {
      var front, x := banks[..|banks| - 1], banks[|banks| - 1];
      var rest := AddBanks(gen, front, linked);
      var taken := linked + KeysOf(rest);
      AddBanksTakesSlots(gen, front, linked, bank);
      FirstFreeIsLowest(gen, x, taken, 1);
      match FirstFree(gen, x, taken, 1)
      case None =>
      case Some(a) =>
        KeysOfAppend(rest, a);
        var k :| IsLowestFree(gen, x, taken, k) && a == gen(x, k);
        assert SlotsDiffer(gen, bank, 1, x, k) && SlotsDiffer(gen, bank, 2, x, k);
        assert linked + KeysOf(rest + [a]) == taken + {Key(a)};
    }
  }

  /** The keys linked after the selected candidates: those linked before, and those of all selected ones. */
  ghost predicate LinkedBySelection(
    gen: Generator, pool: seq<string>, r: Request, linked: set<string>, now: set<string>)
  {
    forall key: string :: key in now <==>
      key in linked || exists c :: c in Candidates(gen, pool) && c.id in r.selected && Key(c) == key
  }

  lemma SelectionLinks(gen: Generator, pool: seq<string>, r: Request, linked: set<string>)
    ensures LinkedBySelection(gen, pool, r, linked,
              linked + KeysOf(Chosen(Candidates(gen, pool), IdsOf(r.selected), linked)))
  {
    var cands, wanted := Candidates(gen, pool), IdsOf(r.selected);
    forall key: string
      ensures key in linked + KeysOf(Chosen(cands, wanted, linked)) <==>
              key in linked || exists c :: c in cands && c.id in r.selected && Key(c) == key
    {
      ChosenKeys(cands, wanted, linked, key);
    }
  }

  /**
   In terms of the request alone: sending it again adds nothing exactly when it names each
   of its banks at least as often as that bank had free slots besides the selected ones.
   */
  lemma ResendAddsNothingForRequest(
    gen: Generator, pool: seq<string>, r: Request, linked: set<string>, now: set<string>)
    requires DistinctKeys(gen) && LinkedBySelection(gen, pool, r, linked, now)
    ensures Selection(gen, pool, r, linked + KeysOf(Selection(gen, pool, r, linked))) == []
            <==> forall bank :: bank in r.banksToAdd ==> FreeSlots(gen, bank, now) <= Times(r.banksToAdd, bank)
  {
    var chosen := Chosen(Candidates(gen, pool), IdsOf(r.selected), linked);
    var added := AddBanks(gen, r.banksToAdd, linked + KeysOf(chosen));
    SelectionLinks(gen, pool, r, linked);
    assert now == linked + KeysOf(chosen);
    KeysOfConcat(chosen, added);
    var after := linked + KeysOf(Selection(gen, pool, r, linked));
    assert after == now + KeysOf(added);
    ResendAddsNothingExactly(gen, pool, r, linked);
    forall bank ensures FreeSlots(gen, bank, after) == 0 <==> FreeSlots(gen, bank, now) <= Times(r.banksToAdd, bank) {
      AddBanksTakesSlots(gen, r.banksToAdd, now, bank);
    }
    AllSlotsLinked(gen, r.banksToAdd, after);
  }

  lemma AllSlotsLinked(gen: Generator, banks: seq<string>, after: set<string>)
    ensures (forall i, k :: 0 <= i < |banks| && 1 <= k <= ACCOUNTS_PER_BANK ==> Key(gen(banks[i], k)) in after)
            <==> forall bank :: bank in banks ==> FreeSlots(gen, bank, after) == 0
  {
    if forall i, k :: 0 <= i < |banks| && 1 <= k <= ACCOUNTS_PER_BANK ==> Key(gen(banks[i], k)) in after {
      forall bank | bank in banks ensures FreeSlots(gen, bank, after) == 0 {
        var i :| 0 <= i < |banks| && banks[i] == bank;
        assert Key(gen(banks[i], 1)) in after && Key(gen(banks[i], 2)) in after;
      }
    }
    if forall bank :: bank in banks ==> FreeSlots(gen, bank, after) == 0 {
      forall i, k | 0 <= i < |banks| && 1 <= k <= ACCOUNTS_PER_BANK ensures Key(gen(banks[i], k)) in after {
        assert FreeSlots(gen, banks[i], after) == 0;
      }
    }
  }

  lemma {:induction false} ChosenGrowsAll(
    cands: seq<Account>, wanted: set<string>, linked: set<string>, keys: set<string>)
    requires Chosen(cands, wanted, linked) == []
    ensures Chosen(cands, wanted, linked + keys) == []
    decreases |cands|
  {
    if cands != [] {
      ChosenGrowsAll(cands[..|cands| - 1], wanted, linked, keys);
    }
  }

  /** Asking for one new bank three times connects its first slot, then its second, then nothing. */
  lemma ThreeTries(gen: Generator, pool: seq<string>, bank: string, linked: set<string>)
    requires Key(gen(bank, 1)) !in linked && Key(gen(bank, 2)) !in linked && Key(gen(bank, 1)) != Key(gen(bank, 2))
    ensures var r := Request([], [bank]);
            var first := Selection(gen, pool, r, linked);
            var second := Selection(gen, pool, r, linked + KeysOf(first));
            var third := Selection(gen, pool, r, linked + KeysOf(first) + KeysOf(second));
            first == [gen(bank, 1)] && second == [gen(bank, 2)] && third == []
  {
    var one, two := gen(bank, 1), gen(bank, 2);
    OneBank(gen, pool, bank, linked);
    KeysOfAppend([], one);
    KeysOfAppend([], two);
    assert [] + [one] == [one] && [] + [two] == [two];
    OneBank(gen, pool, bank, linked + {Key(one)});
    OneBank(gen, pool, bank, linked + {Key(one)} + {Key(two)});
    FirstFreeIsLowest(gen, bank, linked, 1);
    assert KeysOf([one]) == {Key(one)} && KeysOf([two]) == {Key(two)};
  }

  lemma OneBank(gen: Generator, pool: seq<string>, bank: string, linked: set<string>)
    ensures Selection(gen, pool, Request([], [bank]), linked)
            == match FirstFree(gen, bank, linked, 1) case None => [] case Some(a) => [a]
  {
    var wanted := IdsOf([]);
    NothingWanted(Candidates(gen, pool), wanted, linked);
    assert linked + KeysOf([]) == linked && linked + KeysOf([]) + KeysOf([]) == linked;
    assert [bank][..0] == [];
    assert AddBanks(gen, [], linked) == [];
    assert AddBanks(gen, [bank], linked)
        == match FirstFree(gen, bank, linked, 1) case None => [] case Some(a) => [] + [a];
    assert Chosen(Candidates(gen, pool), wanted, linked) == [];
  }

  lemma {:induction false} NothingWanted(cands: seq<Account>, wanted: set<string>, linked: set<string>)
    requires wanted == {}
    ensures Chosen(cands, wanted, linked) == []
    decreases |cands|
  {
    if cands != [] {
      NothingWanted(cands[..|cands| - 1], wanted, linked);
    }
  }

  // ---- a run of requests -------------------------------------------------------------------------------------

  /** All accounts inserted by a series of requests; stops[i] is how many inserts of request i went through. */
  function Inserted(
    gen: Generator, pool: seq<string>, rs: seq<Request>, stops: seq<nat>, linked: set<string>): seq<Account>
    requires |stops| == |rs|
  {
    if rs == [] then []
    else
      var n := |rs| - 1;
      var before := Inserted(gen, pool, rs[..n], stops[..n], linked);
      var selection := Selection(gen, pool, rs[n], linked + KeysOf(before));
      before + selection[..if stops[n] < |selection| then stops[n] else |selection|]
  }

  /** While nothing is unlinked: over any series of requests, however each ends, no key is inserted twice. */
  lemma {:induction false} NoKeyIsInsertedTwice(
    gen: Generator, pool: seq<string>, rs: seq<Request>, stops: seq<nat>, linked: set<string>)
    requires |stops| == |rs|
    ensures Fresh(Inserted(gen, pool, rs, stops, linked), linked)
    decreases |rs|
  {
    if rs != [] {
      var n := |rs| - 1;
      NoKeyIsInsertedTwice(gen, pool, rs[..n], stops[..n], linked);
      var before := Inserted(gen, pool, rs[..n], stops[..n], linked);
      SelectionIsFresh(gen, pool, rs[n], linked + KeysOf(before));
      var selection := Selection(gen, pool, rs[n], linked + KeysOf(before));
      FreshConcat(before, selection[..if stops[n] < |selection| then stops[n] else |selection|], linked);
    }
  }

  // ---- linking and unlinking ---------------------------------------------------------------------------

  /** A row of the table; unlinking keeps the row. */
  datatype Row = Row(account: Account, live: bool)

  /** stop is how many inserts of the request went through; row is the position of the row to unlink. */
  datatype Step = Connect(r: Request, stop: nat) | Unlink(row: nat)

  function LiveKeys(rows: seq<Row>): set<string> {
    set i | 0 <= i < |rows| && rows[i].live :: Key(rows[i].account)
  }

  function AsRows(accs: seq<Account>): (rows: seq<Row>)
    ensures |rows| == |accs| && forall i :: 0 <= i < |accs| ==> rows[i] == Row(accs[i], true)
  {
    if accs == [] then [] else AsRows(accs[..|accs| - 1]) + [Row(accs[|accs| - 1], true)]
  }

  function Next(gen: Generator, pool: seq<string>, rows: seq<Row>, step: Step): seq<Row> {
    match step
    case Connect(r, stop) =>
      var selection := Selection(gen, pool, r, LiveKeys(rows));
      rows + AsRows(selection[..if stop < |selection| then stop else |selection|])
    case Unlink(k) => if k < |rows| then rows[k := rows[k].(live := false)] else rows
  }

  function Run(gen: Generator, pool: seq<string>, start: seq<Row>, steps: seq<Step>): seq<Row> {
    if steps == [] then start
    else Next(gen, pool, Run(gen, pool, start, steps[..|steps| - 1]), steps[|steps| - 1])
  }

  /** Row j was inserted by a request, and an earlier row with its key is no longer live. */
  ghost predicate SupersedesOnly(rows: seq<Row>, start: nat, i: nat, j: nat) {
    i < j < |rows| && start <= j && Key(rows[i].account) == Key(rows[j].account) ==> !rows[i].live
  }

  lemma ConnectSupersedes(gen: Generator, pool: seq<string>, rows: seq<Row>, r: Request, stop: nat, start: nat)
    requires start <= |rows| && forall i: nat, j: nat :: SupersedesOnly(rows, start, i, j)
    ensures forall i: nat, j: nat :: SupersedesOnly(Next(gen, pool, rows, Connect(r, stop)), start, i, j)
  {
    var selection := Selection(gen, pool, r, LiveKeys(rows));
    var rows' := Next(gen, pool, rows, Connect(r, stop));
    SelectionIsFresh(gen, pool, r, LiveKeys(rows));
    forall i: nat, j: nat ensures SupersedesOnly(rows', start, i, j) {
      assert SupersedesOnly(rows, start, i, j);
      if i < |rows| <= j < |rows'| && rows'[i].live {
        assert Key(rows[i].account) in LiveKeys(rows);
        assert Key(selection[j - |rows|]) !in LiveKeys(rows);
      }
    }
  }

  /**
   Over every run of connects and unlinks: a key that is inserted again had been unlinked
   in every earlier row with that key. So no two live rows share a key, but for rows that
   were there before the run.
   */
  lemma {:induction false} KeyAgainOnlyAfterUnlink(
    gen: Generator, pool: seq<string>, start: seq<Row>, steps: seq<Step>)
    ensures |start| <= |Run(gen, pool, start, steps)|
    ensures forall i: nat, j: nat :: SupersedesOnly(Run(gen, pool, start, steps), |start|, i, j)
    decreases |steps|
  {
    if steps != [] {
      var front, step := steps[..|steps| - 1], steps[|steps| - 1];
      KeyAgainOnlyAfterUnlink(gen, pool, start, front);
      var rows := Run(gen, pool, start, front);
      match step
      case Connect(r, stop) => ConnectSupersedes(gen, pool, rows, r, stop, |start|);
      case Unlink(k) =>
        forall i: nat, j: nat ensures SupersedesOnly(Next(gen, pool, rows, step), |start|, i, j) {
          assert SupersedesOnly(rows, |start|, i, j);
        }
    }
  }

  /** No two live rows share a key, over every run from a table without such rows. */
  lemma LiveKeysAreDistinct(gen: Generator, pool: seq<string>, start: seq<Row>, steps: seq<Step>, i: nat, j: nat)
    requires forall a, b :: 0 <= a < b < |start| && start[a].live && start[b].live
                            ==> Key(start[a].account) != Key(start[b].account)
    requires i < j < |Run(gen, pool, start, steps)|
    requires Run(gen, pool, start, steps)[i].live && Run(gen, pool, start, steps)[j].live
    ensures Key(Run(gen, pool, start, steps)[i].account) != Key(Run(gen, pool, start, steps)[j].account)
  {
    KeyAgainOnlyAfterUnlink(gen, pool, start, steps);
    assert SupersedesOnly(Run(gen, pool, start, steps), |start|, i, j);
    StartRowsStay(gen, pool, start, steps);
  }

  lemma {:induction false} StartRowsStay(gen: Generator, pool: seq<string>, start: seq<Row>, steps: seq<Step>)
    ensures var rows := Run(gen, pool, start, steps);
            |start| <= |rows|
            && forall i :: 0 <= i < |start| ==> rows[i].account == start[i].account && (rows[i].live ==> start[i].live)
    decreases |steps|
  {
    if steps != [] {
      StartRowsStay(gen, pool, start, steps[..|steps| - 1]);
    }
  }

  lemma {:induction false} ChosenKeys(cands: seq<Account>, wanted: set<string>, linked: set<string>, key: string)
    ensures key in KeysOf(Chosen(cands, wanted, linked))
            <==> key !in linked && exists c :: c in cands && c.id in wanted && Key(c) == key
    decreases |cands|
  {
    if cands != [] {
      var front, c := cands[..|cands| - 1], cands[|cands| - 1];
      ChosenKeys(front, wanted, linked, key);
      assert cands == front + [c];
      KeysOfAppend(Chosen(front, wanted, linked), c);
    }
  }

  /**
   A request for selected ids inserts a key exactly when some selected candidate has it and
   every row with it has been unlinked: what was unlinked can be connected again.
   */
  lemma SelectedAgainExactly(gen: Generator, pool: seq<string>, rows: seq<Row>, selected: seq<string>, key: string)
    ensures key in KeysOf(Selection(gen, pool, Request(selected, []), LiveKeys(rows)))
            <==> && (exists c :: c in Candidates(gen, pool) && c.id in selected && Key(c) == key)
                 && forall i :: 0 <= i < |rows| && Key(rows[i].account) == key ==> !rows[i].live
  {
    var wanted, linked := IdsOf(selected), LiveKeys(rows);
    var chosen := Chosen(Candidates(gen, pool), wanted, linked);
    ChosenKeys(Candidates(gen, pool), wanted, linked, key);
    assert Selection(gen, pool, Request(selected, []), linked) == chosen + [] == chosen;
  }
}
