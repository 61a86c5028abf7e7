/**
 * The external bank: two balances per account, a custody account and ACH transfers that
 * hold, post, settle or return. Amounts are real; each operation runs under the store's
 * lock and is one atomic step. Transfer identifiers are fresh (they come from a clock).
 */
module Banks {
  import opened MapSums
  import opened Wrappers

  const CUSTODY_ID: string := "acc_oci_custody_001"

  datatype Status = Pending | Posted | Settled | Failed | Returned | Cancelled
  datatype Direction = Debit | Credit | Other(name: string)
  datatype Error = InvalidAmount | AccountNotFound | CustodyNotFound | InsufficientFunds | TransferNotFound

  datatype BankAccount = BankAccount(current: real, available: real)

  datatype Transfer = Transfer(
    accountId: string, amount: real, direction: Direction, status: Status,
    returnCode: string, createdAt: int, settledAt: Option<int>, custodyId: string)

  datatype Bank = Bank(accounts: map<string, BankAccount>, transfers: map<string, Transfer>, custodyId: string)

  /** A transfer and an error are independent: a bounced debit returns both. */
  datatype Reply = Reply(transfer: Option<Transfer>, error: Option<Error>)

  predicate IsHeld(s: Status) {
    s == Pending || s == Posted
  }

  // ---- The operations on states ----

  function CreateStep(b: Bank, id: string, accountId: string, amount: real, direction: Direction, now: int): (r: (Bank, Reply))
  {
    if amount <= 0.0 then (b, Reply(None, Some(InvalidAmount)))
    else if accountId !in b.accounts then (b, Reply(None, Some(AccountNotFound)))
    else if b.custodyId !in b.accounts then (b, Reply(None, Some(CustodyNotFound)))
    else
      var acc := b.accounts[accountId];
      var t := Transfer(accountId, amount, direction, Pending, "", now, None, b.custodyId);
      if direction == Debit && acc.available < amount then
        var bounced := t.(status := Failed, returnCode := "R01");
        (b.(transfers := b.transfers[id := bounced]), Reply(Some(bounced), Some(InsufficientFunds)))
      else
        var accounts := if direction == Debit
                        then b.accounts[accountId := acc.(available := acc.available - amount)] else b.accounts;
        (b.(accounts := accounts, transfers := b.transfers[id := t]), Reply(Some(t), None))
  }

  function Adjust(accounts: map<string, BankAccount>, id: string, current: real, available: real): (r: map<string, BankAccount>)
    requires id in accounts
    ensures r.Keys == accounts.Keys
  {
    var a := accounts[id];
    accounts[id := BankAccount(a.current + current, a.available + available)]
  }

  /** The balance effect of moving transfer t to the target status. */
  function Clear(accounts: map<string, BankAccount>, custodyId: string, t: Transfer, target: Status): (r: map<string, BankAccount>)
    requires t.accountId in accounts && custodyId in accounts
    ensures r.Keys == accounts.Keys
  {
    match target
    case Settled =>
      if t.direction == Debit then
        Adjust(Adjust(accounts, t.accountId, -t.amount, 0.0), custodyId, t.amount, t.amount)
      else if t.direction == Credit then
        Adjust(Adjust(accounts, t.accountId, t.amount, t.amount), custodyId, -t.amount, -t.amount)
      else accounts
    case Returned | Failed | Cancelled =>
      if t.direction == Debit && IsHeld(t.status) then Adjust(accounts, t.accountId, 0.0, t.amount) else accounts
    case Pending | Posted => accounts
  }

  /** The transfer record after a status update; it ignores the old status. */
  function Restamp(t: Transfer, target: Status, returnCode: string, now: int): (r: Transfer) {
    match target
    case Settled => t.(status := target, settledAt := Some(now), returnCode := "")
    case Returned | Failed | Cancelled => t.(status := target, returnCode := returnCode)
    case Pending | Posted => t.(status := target)
  }

  function UpdateStep(b: Bank, id: string, target: Status, returnCode: string, now: int): (r: (Bank, Reply)) {
    if id !in b.transfers then (b, Reply(None, Some(TransferNotFound)))
    else if b.transfers[id].accountId !in b.accounts then (b, Reply(None, Some(AccountNotFound)))
    else if b.custodyId !in b.accounts then (b, Reply(None, Some(CustodyNotFound)))
    else
      var t := b.transfers[id];
      var t' := Restamp(t, target, returnCode, now);
      (Bank(Clear(b.accounts, b.custodyId, t, target), b.transfers[id := t'], b.custodyId), Reply(Some(t'), None))
  }

  /** A status update's effect on the record. */
  ghost predicate Recorded(t: Transfer, t': Transfer, target: Status, returnCode: string, now: int) {
    && t'.status == target
    && t'.accountId == t.accountId && t'.amount == t.amount && t'.direction == t.direction
    && t'.createdAt == t.createdAt && t'.custodyId == t.custodyId
    && t'.settledAt == (if target == Settled then Some(now) else t.settledAt)
    && t'.returnCode
    == (if target == Settled then "" else if target == Pending || target == Posted then t.returnCode else returnCode)
  }

  /** Its effect on one account: the customer's (own), custody, both or neither. */
  ghost predicate Cleared(t: Transfer, target: Status, a: BankAccount, a': BankAccount, own: bool, custody: bool) {
    var debit := if t.direction == Debit then t.amount else 0.0;
    var credit := if t.direction == Credit then t.amount else 0.0;
    if target == Settled then
      && a'.current == a.current + (if own then credit - debit else 0.0) + (if custody then debit - credit else 0.0)
      && a'.available == a.available + (if own then credit else 0.0) + (if custody then debit - credit else 0.0)
    else if (target == Returned || target == Failed || target == Cancelled) && (t.status == Pending || t.status == Posted) && own then
      a'.current == a.current && a'.available == a.available + debit
    else a' == a
  }

  /** All a status update does, case by case. */
  ghost predicate Updated(b: Bank, b': Bank, reply: Reply, id: string, target: Status, returnCode: string, now: int) {
    if id !in b.transfers then b' == b && reply == Reply(None, Some(TransferNotFound))
    else if b.transfers[id].accountId !in b.accounts then b' == b && reply == Reply(None, Some(AccountNotFound))
    else if b.custodyId !in b.accounts then b' == b && reply == Reply(None, Some(CustodyNotFound))
    else
      var t := b.transfers[id];
      && reply.error == None && reply.transfer.Some? && b'.transfers == b.transfers[id := reply.transfer.value]
      && Recorded(t, reply.transfer.value, target, returnCode, now)
      && b'.custodyId == b.custodyId && b'.accounts.Keys == b.accounts.Keys
      && forall a :: a in b.accounts ==> Cleared(t, target, b.accounts[a], b'.accounts[a], a == t.accountId, a == b.custodyId)
  }

  lemma {:induction false} UpdateMeans(b: Bank, id: string, target: Status, returnCode: string, now: int)
    ensures var (b', reply) := UpdateStep(b, id, target, returnCode, now);
            Updated(b, b', reply, id, target, returnCode, now)
  {
  }

  // ---- The store object ----

  class LedgerStore {
    var accounts: map<string, BankAccount>
    var transfers: map<string, Transfer>
    const custodyAccountId: string := CUSTODY_ID

    function View(): Bank
      reads this
    {
      Bank(accounts, transfers, custodyAccountId)
    }

    constructor (seed: map<string, BankAccount>)
      ensures View() == Bank(seed, map[], "acc_oci_custody_001")
    {
      accounts := seed;
      transfers := map[];
    }

    method CreateTransfer(id: string, accountId: string, amount: real, direction: Direction, now: int)
      returns (reply: Reply)
      modifies this
      ensures (View(), reply) == CreateStep(old(View()), id, accountId, amount, direction, now)
      ensures amount <= 0.0 || accountId !in old(accounts) || custodyAccountId !in old(accounts) ==>
                && accounts == old(accounts) && transfers == old(transfers) && reply.transfer == None
                && reply.error == Some(if amount <= 0.0 then InvalidAmount
                                       else if accountId !in old(accounts) then AccountNotFound else CustodyNotFound)
      ensures amount > 0.0 && accountId in old(accounts) && custodyAccountId in old(accounts) ==>
                && (reply.error == None <==> direction != Debit || old(accounts)[accountId].available >= amount)
                && (reply.error == None ==>
                      && reply.transfer == Some(Transfer(accountId, amount, direction, Pending, "", now, None, custodyAccountId))
                      && accounts.Keys == old(accounts).Keys
                      && forall a :: a in accounts ==>
                           && accounts[a].current == old(accounts)[a].current
                           && accounts[a].available
                           == old(accounts)[a].available - if a == accountId && direction == Debit then amount else 0.0)
                && (reply.error != None ==>
                      && reply.error == Some(InsufficientFunds) && accounts == old(accounts)
                      && reply.transfer == Some(Transfer(accountId, amount, direction, Failed, "R01", now, None, custodyAccountId)))
                && transfers == old(transfers)[id := reply.transfer.value]
    {
      if amount <= 0.0 {
        return Reply(None, Some(InvalidAmount));
      }
      if accountId !in accounts {
        return Reply(None, Some(AccountNotFound));
      }
      if custodyAccountId !in accounts {
        return Reply(None, Some(CustodyNotFound));
      }
      var t := Transfer(accountId, amount, direction, Pending, "", now, None, custodyAccountId);
      if direction == Debit {
        var acc := accounts[accountId];
        if acc.available < amount {
          t := t.(status := Failed, returnCode := "R01");
          transfers := transfers[id := t];
          return Reply(Some(t), Some(InsufficientFunds));
        }
        accounts := accounts[accountId := acc.(available := acc.available - amount)];
      }
      transfers := transfers[id := t];
      reply := Reply(Some(t), None);
    }

    method UpdateTransferStatus(id: string, target: Status, returnCode: string, now: int) returns (reply: Reply)
      modifies this
      ensures (View(), reply) == UpdateStep(old(View()), id, target, returnCode, now)
      ensures Updated(old(View()), View(), reply, id, target, returnCode, now)
    {
      UpdateMeans(View(), id, target, returnCode, now);
      hide Updated;
      if id !in transfers {
        return Reply(None, Some(TransferNotFound));
      }
      var t := transfers[id];
      if t.accountId !in accounts {
        return Reply(None, Some(AccountNotFound));
      }
      if custodyAccountId !in accounts {
        return Reply(None, Some(CustodyNotFound));
      }
      var oldStatus := t.status;
      t := t.(status := target);
      match target {
        case Settled =>
          t := t.(settledAt := Some(now), returnCode := "");
          if t.direction == Debit {
            Credit(t.accountId, -t.amount, 0.0);
            Credit(custodyAccountId, t.amount, t.amount);
          } else if t.direction == Direction.Credit {
            Credit(t.accountId, t.amount, t.amount);
            Credit(custodyAccountId, -t.amount, -t.amount);
          }
        case Returned | Failed | Cancelled =>
          t := t.(returnCode := returnCode);
          if t.direction == Debit && IsHeld(oldStatus) {
            Credit(t.accountId, 0.0, t.amount);
          }
        case Pending | Posted =>
      }
      transfers := transfers[id := t];
      reply := Reply(Some(t), None);
    }

    method Credit(id: string, current: real, available: real)
      requires id in accounts
      modifies this`accounts
      ensures accounts == Adjust(old(accounts), id, current, available)
    {
      var a := accounts[id];
      accounts := accounts[id := a.(current := a.current + current, available := a.available + available)];
    }

    /** The transfers still in flight, in whatever order the map yields them. */
    method GetPendingTransfers() returns (result: seq<(string, Transfer)>)
      ensures forall k :: 0 <= k < |result| ==>
                result[k].0 in transfers && result[k].1 == transfers[result[k].0] && result[k].1.status in {Pending, Posted}
      ensures forall id :: id in transfers && transfers[id].status in {Pending, Posted} ==> (id, transfers[id]) in result
      ensures forall j, k :: 0 <= j < k < |result| ==> result[j].0 != result[k].0
    {
      result := [];
      var todo := transfers.Keys;
      while todo != {}
        invariant todo <= transfers.Keys
        invariant forall k :: 0 <= k < |result| ==>
                    && result[k].0 in transfers && result[k].0 !in todo
                    && result[k].1 == transfers[result[k].0] && IsHeld(result[k].1.status)
        invariant forall id :: id in transfers && id !in todo && IsHeld(transfers[id].status) ==> (id, transfers[id]) in result
        invariant forall j, k :: 0 <= j < k < |result| ==> result[j].0 != result[k].0
        decreases todo
      {
        var id :| id in todo;
        todo := todo - {id};
        if IsHeld(transfers[id].status) {
          result := result + [(id, transfers[id])];
        }
      }
    }
  }

  // ---- Runs ----

  datatype Event =
    | Create(id: string, accountId: string, amount: real, direction: Direction, now: int)
    | Update(id: string, target: Status, returnCode: string, now: int)

  function Step(b: Bank, e: Event): (r: Bank) {
    match e
    case Create(id, accountId, amount, direction, now) => CreateStep(b, id, accountId, amount, direction, now).0
    case Update(id, target, returnCode, now) => UpdateStep(b, id, target, returnCode, now).0
  }

  function Run(b: Bank, es: seq<Event>): (r: Bank) {
    if es == [] then b else Step(Run(b, es[..|es| - 1]), es[|es| - 1])
  }

  // ---- Conservation ----

  ghost function Current(): (f: BankAccount -> real) {
    (a: BankAccount) => a.current
  }

  ghost function Total(b: Bank): (r: real) {
    Sum(b.accounts, Current())
  }

  lemma {:induction false} AdjustTotal(accounts: map<string, BankAccount>, id: string, current: real, available: real)
    requires id in accounts
    ensures Sum(Adjust(accounts, id, current, available), Current()) == Sum(accounts, Current()) + current
  {
    SumUpdate(accounts, Current(), id, Adjust(accounts, id, current, available)[id]);
  }

  lemma {:induction false} ClearConserves(accounts: map<string, BankAccount>, custodyId: string, t: Transfer, target: Status)
    requires t.accountId in accounts && custodyId in accounts
    ensures Sum(Clear(accounts, custodyId, t, target), Current()) == Sum(accounts, Current())
  {
    hide Sum, Adjust, Current;
    var a, x := t.accountId, t.amount;
    match target
    case Settled =>
      AdjustTotal(accounts, a, -x, 0.0);
      AdjustTotal(accounts, a, x, x);
      AdjustTotal(Adjust(accounts, a, -x, 0.0), custodyId, x, x);
      AdjustTotal(Adjust(accounts, a, x, x), custodyId, -x, -x);
    case _ =>
      AdjustTotal(accounts, a, 0.0, x);
  }

  lemma {:induction false} StepConserves(b: Bank, e: Event)
    ensures Total(Step(b, e)) == Total(b)
  {
    hide Sum, Clear;
    match e
    case Create(id, accountId, amount, direction, now) =>
      if accountId in b.accounts {
        var acc := b.accounts[accountId];
        SumUpdate(b.accounts, Current(), accountId, acc.(available := acc.available - amount));
      }
    case Update(id, target, returnCode, now) =>
      if id in b.transfers && b.transfers[id].accountId in b.accounts && b.custodyId in b.accounts {
        ClearConserves(b.accounts, b.custodyId, b.transfers[id], target);
      }
  }

  /** No run of transfers and arbitrary status updates creates or destroys money. */
  lemma {:induction false} RunConserves(b: Bank, es: seq<Event>)
    ensures Total(Run(b, es)) == Total(b)
    decreases |es|
  {
    if es != [] {
      RunConserves(b, es[..|es| - 1]);
      StepConserves(Run(b, es[..|es| - 1]), es[|es| - 1]);
    }
  }

  // ---- Hold accounting ----

  ghost function HeldDebit(account: string): (f: Transfer -> real) {
    (t: Transfer) => if t.accountId == account && t.direction == Debit && IsHeld(t.status) then t.amount else 0.0
  }

  /** The sum of an account's debits that are pending or posted. */
  ghost function Held(b: Bank, account: string): (r: real) {
    Sum(b.transfers, HeldDebit(account))
  }

  /** What the two balances differ by beyond the held debits: the account's own reserve. */
  ghost function Reserve(b: Bank, account: string): (r: real)
    requires account in b.accounts
  {
    Gap(b.accounts[account]) - Held(b, account)
  }

  ghost predicate WellFormed(b: Bank) {
    && b.custodyId in b.accounts
    && forall id :: id in b.transfers ==> b.transfers[id].accountId in b.accounts && b.transfers[id].amount > 0.0
  }

  /** Whether an event may be issued: creations use fresh identifiers. */
  predicate Fresh(b: Bank, e: Event) {
    e.Create? ==> e.id !in b.transfers
  }

  /**
   * Whether an update keeps the holds exact: anything but pushing a debit that is no longer
   * held back into settlement.
   */
  predicate KeepsHolds(b: Bank, e: Event) {
    e.Update? && e.id in b.transfers ==>
      var t := b.transfers[e.id];
      t.direction != Debit || IsHeld(t.status) || e.target in {Returned, Failed, Cancelled}
  }

  lemma {:induction false} StepWellFormed(b: Bank, e: Event)
    requires WellFormed(b)
    ensures WellFormed(Step(b, e))
    ensures Step(b, e).accounts.Keys == b.accounts.Keys && Step(b, e).custodyId == b.custodyId
  {
  }

  function Gap(a: BankAccount): (r: real) {
    a.current - a.available
  }

  /** How a status update moves the gap between an account's balances. */
  lemma {:induction false} ClearGap(accounts: map<string, BankAccount>, custodyId: string, t: Transfer, target: Status, account: string)
    requires t.accountId in accounts && custodyId in accounts && account in accounts
    ensures Gap(Clear(accounts, custodyId, t, target)[account]) - Gap(accounts[account])
         == if account == t.accountId && t.direction == Debit
               && (target == Settled || (target in {Returned, Failed, Cancelled} && IsHeld(t.status)))
            then -t.amount else 0.0
  {
  }

  lemma {:induction false} UpdateReserve(b: Bank, id: string, target: Status, code: string, now: int, account: string)
    requires WellFormed(b) && id in b.transfers && account in b.accounts
    ensures var b' := UpdateStep(b, id, target, code, now).0;
            && account in b'.accounts
            && Reserve(b', account) - Reserve(b, account)
            == if account != b.transfers[id].accountId || KeepsHolds(b, Update(id, target, code, now)) then 0.0
               else -b.transfers[id].amount
  {
    hide Sum, Clear;
    var t := b.transfers[id];
    ClearGap(b.accounts, b.custodyId, t, target, account);
    SumUpdate(b.transfers, HeldDebit(account), id, Restamp(t, target, code, now));
  }

  lemma {:induction false} CreateReserve(b: Bank, e: Event, account: string)
    requires e.Create? && WellFormed(b) && Fresh(b, e) && account in b.accounts
    ensures Reserve(Step(b, e), account) == Reserve(b, account)
  {
    hide Sum;
    var t := Transfer(e.accountId, e.amount, e.direction, Pending, "", e.now, None, b.custodyId);
    SumUpdate(b.transfers, HeldDebit(account), e.id, t);
    SumUpdate(b.transfers, HeldDebit(account), e.id, t.(status := Failed, returnCode := "R01"));
  }

  lemma {:induction false} StepReserve(b: Bank, e: Event, account: string)
    requires WellFormed(b) && Fresh(b, e) && account in b.accounts
    requires e.Create? || e.id in b.transfers
    ensures account in Step(b, e).accounts
    ensures Reserve(Step(b, e), account) - Reserve(b, account)
         == if e.Create? || account != b.transfers[e.id].accountId || KeepsHolds(b, e) then 0.0
            else -b.transfers[e.id].amount
  {
    StepWellFormed(b, e);
    match e
    case Create(_, _, _, _, _) => CreateReserve(b, e, account);
    case Update(id, target, code, now) => UpdateReserve(b, id, target, code, now, account);
  }

  /**
   * A step keeps every account's gap equal to its reserve plus its held debits exactly when
   * it does not push a debit that is no longer held back into settlement.
   */
  lemma {:induction false} HoldsExactlyWhen(b: Bank, e: Event)
    requires WellFormed(b) && Fresh(b, e)
    ensures Step(b, e).accounts.Keys == b.accounts.Keys
    ensures (forall a :: a in b.accounts ==> Reserve(Step(b, e), a) == Reserve(b, a)) <==> KeepsHolds(b, e)
  {
    StepWellFormed(b, e);
    hide Step, Reserve;
    forall a | a in b.accounts && (e.Create? || e.id in b.transfers)
      ensures Reserve(Step(b, e), a) - Reserve(b, a)
           == if e.Create? || a != b.transfers[e.id].accountId || KeepsHolds(b, e) then 0.0
              else -b.transfers[e.id].amount
    {
      StepReserve(b, e, a);
    }
  }

  /** Whether every event of a run is fresh and keeps the holds when its turn comes. */
  ghost predicate HoldSafe(b: Bank, es: seq<Event>) {
    es != [] ==>
      var before, e := Run(b, es[..|es| - 1]), es[|es| - 1];
      HoldSafe(b, es[..|es| - 1]) && Fresh(before, e) && KeepsHolds(before, e)
  }

  /** Over such a run each account's balances differ by its opening reserve plus its held debits. */
  lemma {:induction false} RunHolds(b: Bank, es: seq<Event>, account: string)
    requires WellFormed(b) && HoldSafe(b, es) && account in b.accounts
    ensures WellFormed(Run(b, es)) && account in Run(b, es).accounts
    ensures Run(b, es).custodyId == b.custodyId
    ensures Reserve(Run(b, es), account) == Reserve(b, account)
    decreases |es|
  {
    if es != [] {
      var before, e := Run(b, es[..|es| - 1]), es[|es| - 1];
      RunHolds(b, es[..|es| - 1], account);
      hide Reserve, Step, Fresh, KeepsHolds, WellFormed;
      StepWellFormed(before, e);
      HoldsExactlyWhen(before, e);
    }
  }

  /** Creations use fresh identifiers throughout; the updates may be any. */
  ghost predicate FreshRun(b: Bank, es: seq<Event>) {
    es != [] ==> FreshRun(b, es[..|es| - 1]) && Fresh(Run(b, es[..|es| - 1]), es[|es| - 1])
  }

  /** No step raises a reserve, and one that breaks the holds lowers one. */
  lemma {:induction false} ReservesFall(b: Bank, e: Event)
    requires WellFormed(b) && Fresh(b, e)
    ensures Step(b, e).accounts.Keys == b.accounts.Keys
    ensures forall a :: a in b.accounts ==> Reserve(Step(b, e), a) <= Reserve(b, a)
    ensures !KeepsHolds(b, e) ==> exists a :: a in b.accounts && Reserve(Step(b, e), a) < Reserve(b, a)
  {
    StepWellFormed(b, e);
    hide Step, Reserve;
    HoldsExactlyWhen(b, e);
    forall a | a in b.accounts ensures Reserve(Step(b, e), a) <= Reserve(b, a) {
      if e.Create? || e.id in b.transfers {
        StepReserve(b, e, a);
      } else {
        assert KeepsHolds(b, e);
      }
    }
  }

  lemma {:induction false} RunReservesFall(b: Bank, es: seq<Event>)
    requires WellFormed(b) && FreshRun(b, es)
    ensures WellFormed(Run(b, es)) && Run(b, es).accounts.Keys == b.accounts.Keys
    ensures forall a :: a in b.accounts ==> Reserve(Run(b, es), a) <= Reserve(b, a)
    ensures !HoldSafe(b, es) ==> exists a :: a in b.accounts && Reserve(Run(b, es), a) < Reserve(b, a)
    decreases |es|
  {
    if es != [] {
      var before, e := Run(b, es[..|es| - 1]), es[|es| - 1];
      RunReservesFall(b, es[..|es| - 1]);
      hide Reserve, Step, Fresh, KeepsHolds, WellFormed;
      StepWellFormed(before, e);
      ReservesFall(before, e);
      if !HoldSafe(b, es) {
        var a :| a in b.accounts && Reserve(Step(before, e), a) < Reserve(b, a);
      }
    }
  }

  /** A run leaves every reserve as it was exactly when every one of its steps keeps the holds. */
  lemma {:induction false} RunHoldsExactlyWhen(b: Bank, es: seq<Event>)
    requires WellFormed(b) && FreshRun(b, es)
    ensures Run(b, es).accounts.Keys == b.accounts.Keys
    ensures (forall a :: a in b.accounts ==> Reserve(Run(b, es), a) == Reserve(b, a)) <==> HoldSafe(b, es)
  {
    RunReservesFall(b, es);
    hide Reserve, Run, HoldSafe, FreshRun, WellFormed;
    if HoldSafe(b, es) {
      forall a | a in b.accounts ensures Reserve(Run(b, es), a) == Reserve(b, a) {
        RunHolds(b, es, a);
      }
    }
  }

  lemma {:induction false} StepAvailable(b: Bank, e: Event, account: string)
    requires WellFormed(b) && account in b.accounts && account != b.custodyId
    requires b.accounts[account].available >= 0.0
    ensures account in Step(b, e).accounts && Step(b, e).accounts[account].available >= 0.0
  {
  }

  lemma {:induction false} HeldNonNegative(b: Bank, account: string)
    requires WellFormed(b)
    ensures Held(b, account) >= 0.0
  {
    SumNonNegative(b.transfers, HeldDebit(account));
  }

  lemma {:induction false} RunAvailable(b: Bank, es: seq<Event>, account: string)
    requires WellFormed(b) && FreshRun(b, es) && account in b.accounts && account != b.custodyId
    requires b.accounts[account].available >= 0.0
    ensures account in Run(b, es).accounts && Run(b, es).accounts[account].available >= 0.0
    ensures Run(b, es).custodyId == b.custodyId && WellFormed(Run(b, es))
    decreases |es|
  {
    if es != [] {
      var before, e := Run(b, es[..|es| - 1]), es[|es| - 1];
      RunAvailable(b, es[..|es| - 1], account);
      hide FreshRun;
      StepWellFormed(before, e);
      StepAvailable(before, e, account);
    }
  }

  /** The debit of this account that an event pushes into pending, posted or settled when it is no longer held. */
  ghost function PushedOut(b: Bank, e: Event, account: string): (r: real)
    requires WellFormed(b)
    ensures r >= 0.0
  {
    if e.Update? && e.id in b.transfers && b.transfers[e.id].accountId == account && !KeepsHolds(b, e)
    then b.transfers[e.id].amount else 0.0
  }

  ghost function RunPushedOut(b: Bank, es: seq<Event>, account: string): (r: real)
    requires WellFormed(b) && FreshRun(b, es)
    ensures r >= 0.0
  {
    if es == [] then 0.0
    else
      RunReservesFall(b, es[..|es| - 1]);
      RunPushedOut(b, es[..|es| - 1], account) + PushedOut(Run(b, es[..|es| - 1]), es[|es| - 1], account)
  }

  /** Over every run, with any status updates, an account's reserve falls by exactly what was pushed out of hold. */
  lemma {:induction false} RunReserve(b: Bank, es: seq<Event>, account: string)
    requires WellFormed(b) && FreshRun(b, es) && account in b.accounts
    ensures account in Run(b, es).accounts
    ensures Reserve(Run(b, es), account) == Reserve(b, account) - RunPushedOut(b, es, account)
    decreases |es|
  {
    if es != [] {
      var before, e := Run(b, es[..|es| - 1]), es[|es| - 1];
      RunReserve(b, es[..|es| - 1], account);
      RunReservesFall(b, es[..|es| - 1]);
      hide Reserve, WellFormed, FreshRun;
      StepWellFormed(before, e);
      if e.Create? || e.id in before.transfers {
        StepReserve(before, e, account);
      } else {
        assert Step(before, e) == before;
      }
    }
  }

  /**
   * Over every run, with any status updates, a customer account's available balance never goes
   * negative, and its current balance is negative exactly when the debits pushed out of hold
   * exceed its opening reserve plus what is available and held.
   */
  lemma {:induction false} OverdrawnExactlyWhen(b: Bank, es: seq<Event>, account: string)
    requires WellFormed(b) && FreshRun(b, es) && account in b.accounts && account != b.custodyId
    requires b.accounts[account].available >= 0.0
    ensures account in Run(b, es).accounts && Run(b, es).accounts[account].available >= 0.0
    ensures Run(b, es).accounts[account].current < 0.0
       <==> RunPushedOut(b, es, account)
            > Reserve(b, account) + Run(b, es).accounts[account].available + Held(Run(b, es), account)
  {
    RunAvailable(b, es, account);
    RunReserve(b, es, account);
    hide Run, FreshRun, WellFormed, RunPushedOut, Held;
  }

  lemma {:induction false} HoldSafeIsFresh(b: Bank, es: seq<Event>)
    requires HoldSafe(b, es)
    ensures FreshRun(b, es)
    decreases |es|
  {
    if es != [] {
      HoldSafeIsFresh(b, es[..|es| - 1]);
    }
  }

  /** A customer account that opens with no overdraft and no negative reserve never shows one. */
  lemma {:induction false} NoOverdraft(b: Bank, es: seq<Event>, account: string)
    requires WellFormed(b) && HoldSafe(b, es) && account in b.accounts && account != b.custodyId
    requires b.accounts[account].available >= 0.0 && Reserve(b, account) >= 0.0
    ensures account in Run(b, es).accounts
    ensures Run(b, es).accounts[account].available >= 0.0 && Run(b, es).accounts[account].current >= 0.0
  {
    hide Sum, Run, HoldSafe;
    HoldSafeIsFresh(b, es);
    RunAvailable(b, es, account);
    RunHolds(b, es, account);
    HeldNonNegative(Run(b, es), account);
  }

  /** Settling a returned debit again: the return gave the hold back, the settlement still charges it. */
  lemma {:induction false} LateSettlementOverdraws(id: string, account: string)
    requires account != CUSTODY_ID
    ensures var opening := map[account := BankAccount(5.0, 5.0), CUSTODY_ID := BankAccount(0.0, 0.0)];
            var b := Bank(opening, map[], CUSTODY_ID);
            var es := [Create(id, account, 5.0, Debit, 0), Update(id, Returned, "R01", 1),
                       Update(id, Settled, "", 2), Update(id, Settled, "", 3)];
            account in Run(b, es).accounts && Run(b, es).accounts[account].current == -5.0
  {
    var opening := map[account := BankAccount(5.0, 5.0), CUSTODY_ID := BankAccount(0.0, 0.0)];
    var b0 := Bank(opening, map[], CUSTODY_ID);
    var e1, e2, e3, e4 := Create(id, account, 5.0, Debit, 0), Update(id, Returned, "R01", 1),
      Update(id, Settled, "", 2), Update(id, Settled, "", 3);
    var b1 := Step(b0, e1);
    var b2 := Step(b1, e2);
    var b3 := Step(b2, e3);
    assert [e1, e2, e3, e4][..3] == [e1, e2, e3] && [e1, e2, e3][..2] == [e1, e2] && [e1, e2][..1] == [e1];
    assert [e1][..0] == [];
    assert Run(b0, [e1]) == b1;
    assert Run(b0, [e1, e2]) == b2;
    assert Run(b0, [e1, e2, e3]) == b3;
  }

  // ---- The custody account ----

  ghost function SettledAmount(): (f: Transfer -> real) {
    (t: Transfer) =>
      if t.status != Settled then 0.0
      else if t.direction == Debit then t.amount
      else if t.direction == Credit then -t.amount else 0.0
  }

  /** The custody balance less the settled debits plus the settled credits. */
  ghost function CustodyOpening(b: Bank): (r: real)
    requires b.custodyId in b.accounts
  {
    b.accounts[b.custodyId].current - Sum(b.transfers, SettledAmount())
  }

  /**
   * Whether an update leaves custody explained by the settled transfers: it must not touch a
   * transfer already settled, and a transfer of the custody account itself must not settle.
   */
  predicate KeepsCustody(b: Bank, e: Event) {
    e.Update? && e.id in b.transfers ==>
      var t := b.transfers[e.id];
      || t.direction.Other?
      || (if t.accountId == b.custodyId then e.target == Settled <==> t.status == Settled
          else t.status != Settled)
  }

  /** The custody money a settlement of the transfer moves. */
  ghost function Signed(t: Transfer): (r: real) {
    SettledAmount()(t.(status := Settled))
  }

  /** What an event moves the custody opening by: a settled transfer touched again, or custody's own settled. */
  ghost function Unexplained(b: Bank, e: Event): (r: real) {
    if e.Update? && e.id in b.transfers then
      var t := b.transfers[e.id];
      (if t.status == Settled then Signed(t) else 0.0) - (if e.target == Settled && t.accountId == b.custodyId then Signed(t) else 0.0)
    else 0.0
  }

  lemma {:induction false} ClearCustody(accounts: map<string, BankAccount>, custodyId: string, t: Transfer, target: Status)
    requires t.accountId in accounts && custodyId in accounts
    ensures Clear(accounts, custodyId, t, target)[custodyId].current - accounts[custodyId].current
         == if target != Settled || t.accountId == custodyId then 0.0
            else SettledAmount()(t.(status := Settled))
  {
  }

  /** A step moves custody's opening by exactly what it leaves unexplained. */
  lemma {:induction false} StepCustody(b: Bank, e: Event)
    requires WellFormed(b) && Fresh(b, e)
    ensures Step(b, e).custodyId in Step(b, e).accounts
    ensures CustodyOpening(Step(b, e)) == CustodyOpening(b) + Unexplained(b, e)
  {
    hide Sum, Clear;
    StepWellFormed(b, e);
    match e
    case Create(id, accountId, amount, direction, now) =>
      var t := Transfer(accountId, amount, direction, Pending, "", now, None, b.custodyId);
      SumUpdate(b.transfers, SettledAmount(), id, t);
      SumUpdate(b.transfers, SettledAmount(), id, t.(status := Failed, returnCode := "R01"));
    case Update(id, target, code, now) =>
      if id in b.transfers {
        var t := b.transfers[id];
        ClearCustody(b.accounts, b.custodyId, t, target);
        SumUpdate(b.transfers, SettledAmount(), id, Restamp(t, target, code, now));
      }
  }

  /** A step keeps custody equal to its opening balance plus settled debits less settled credits exactly then. */
  lemma {:induction false} CustodyExactlyWhen(b: Bank, e: Event)
    requires WellFormed(b) && Fresh(b, e)
    ensures Step(b, e).custodyId in Step(b, e).accounts
    ensures CustodyOpening(Step(b, e)) == CustodyOpening(b) <==> KeepsCustody(b, e)
  {
    StepCustody(b, e);
    hide CustodyOpening, Step;
  }

  /** The sum over a run. */
  ghost function RunUnexplained(b: Bank, es: seq<Event>): (r: real) {
    if es == [] then 0.0
    else RunUnexplained(b, es[..|es| - 1]) + Unexplained(Run(b, es[..|es| - 1]), es[|es| - 1])
  }

  /**
   * Over every run, with any status updates, custody is its opening balance plus settled debits
   * less settled credits plus exactly the sum of the unexplained updates, which may cancel.
   */
  lemma {:induction false} RunCustodyMoves(b: Bank, es: seq<Event>)
    requires WellFormed(b) && FreshRun(b, es)
    ensures WellFormed(Run(b, es)) && CustodyOpening(Run(b, es)) == CustodyOpening(b) + RunUnexplained(b, es)
    decreases |es|
  {
    if es != [] {
      var before, e := Run(b, es[..|es| - 1]), es[|es| - 1];
      RunCustodyMoves(b, es[..|es| - 1]);
      hide CustodyOpening, Step, Fresh, Unexplained;
      StepWellFormed(before, e);
      StepCustody(before, e);
    }
  }

  ghost predicate CustodySafe(b: Bank, es: seq<Event>) {
    es != [] ==>
      var before, e := Run(b, es[..|es| - 1]), es[|es| - 1];
      CustodySafe(b, es[..|es| - 1]) && Fresh(before, e) && KeepsCustody(before, e)
  }

  lemma {:induction false} RunCustody(b: Bank, es: seq<Event>)
    requires WellFormed(b) && CustodySafe(b, es)
    ensures WellFormed(Run(b, es)) && CustodyOpening(Run(b, es)) == CustodyOpening(b)
    decreases |es|
  {
    if es != [] {
      var before, e := Run(b, es[..|es| - 1]), es[|es| - 1];
      RunCustody(b, es[..|es| - 1]);
      hide CustodyOpening, Step, Fresh, KeepsCustody;
      StepWellFormed(before, e);
      CustodyExactlyWhen(before, e);
    }
  }
}
