/** The settlement engine: net balances from the expenses of a session, then
    a greedy list of payments that settles them.  All amounts are integer
    minor currency units. */
module Settlement {
  import opened Models
  import opened Sorting

  // ---------------------------------------------------------------------
  // What the engine demands of its callers
  // ---------------------------------------------------------------------

  function Ids(ps: seq<Participant>): set<Id>
  {
    set p | p in ps :: p.id
  }

  /** Participant identifiers are unique within a session. */
  predicate DistinctIds(ps: seq<Participant>)
  {
    forall i, j :: 0 <= i < j < |ps| ==> ps[i].id != ps[j].id
  }

  /** An expense the calculator can process: at least one beneficiary entry,
      and the payer and every beneficiary known. */
  predicate WellFormed(e: Expense, ids: set<Id>)
  {
    |e.beneficiaryIds| > 0 && e.payerId in ids
    && forall b :: b in e.beneficiaryIds ==> b in ids
  }

  predicate ValidInput(ps: seq<Participant>, es: seq<Expense>)
  {
    DistinctIds(ps) && forall e :: e in es ==> WellFormed(e, Ids(ps))
  }

  // ---------------------------------------------------------------------
  // Splitting one expense into shares
  // ---------------------------------------------------------------------

  /** The share of the beneficiary entry at position `k` when `amount` is
      split over `n` entries: the floor quotient, plus one unit for each of
      the first `amount mod n` positions.  (For a positive divisor, Dafny's
      `/` and `%` are Python's `//` and `%`.) */
  function Share(amount: int, n: nat, k: nat): (r: int)
    requires n > 0
    ensures amount / n <= r <= amount / n + 1
  {
    amount / n + (if k < amount % n then 1 else 0)
  }

  /** The shares of positions `0 .. k - 1`. */
  function ShareSum(amount: int, n: nat, k: nat): int
    requires n > 0
  {
    if k == 0 then 0 else ShareSum(amount, n, k - 1) + Share(amount, n, k - 1)
  }

  lemma {:induction false} ShareSumClosed(amount: int, n: nat, k: nat)
    requires n > 0
    ensures ShareSum(amount, n, k) == k * (amount / n) + (if k < amount % n then k else amount % n)
  {
    if k > 0 {
      ShareSumClosed(amount, n, k - 1);
      assert (k - 1) * (amount / n) + amount / n == k * (amount / n);
    }
  }

  /** The shares of one expense add up to exactly its amount: no minor unit
      is lost or invented. */
  lemma {:induction false} SharesSumToAmount(amount: int, n: nat)
    requires n > 0
    ensures ShareSum(amount, n, n) == amount
  {
    ShareSumClosed(amount, n, n);
  }

  /** Shares never differ by more than one unit, and the larger ones come
      first in list order. */
  lemma SharesFair(amount: int, n: nat, i: nat, j: nat)
    requires n > 0 && i <= j < n
    ensures 0 <= Share(amount, n, i) - Share(amount, n, j) <= 1
    ensures Share(amount, n, i) == amount / n + 1 <==> i < amount % n
  {
  }

  /** 100 over three entries: 34, 33, 33. */
  lemma HundredOverThree()
    ensures Share(100, 3, 0) == 34 && Share(100, 3, 1) == 33 && Share(100, 3, 2) == 33
    ensures ShareSum(100, 3, 3) == 100
  {
  }

  // ---------------------------------------------------------------------
  // The balance map, as the calculator's loops build it
  // ---------------------------------------------------------------------

  /** Every participant at zero. */
  function ZeroMap(ps: seq<Participant>): (m: map<Id, int>)
    ensures m.Keys == Ids(ps)
    ensures forall id :: id in m ==> m[id] == 0
  {
    map id | id in Ids(ps) :: 0
  }

  /** `m` with `amount` added to the entry of `k`. */
  function Credit(m: map<Id, int>, k: Id, amount: int): (r: map<Id, int>)
    requires k in m
    ensures r.Keys == m.Keys
  {
    m[k := m[k] + amount]
  }

  /** `m` after debiting the shares of the first `k` beneficiary entries of `e`. */
  function Debit(m: map<Id, int>, e: Expense, k: nat): (r: map<Id, int>)
    requires |e.beneficiaryIds| > 0 && k <= |e.beneficiaryIds|
    requires forall b :: b in e.beneficiaryIds ==> b in m
    ensures r.Keys == m.Keys
  {
    if k == 0 then m
    else
      var r := Debit(m, e, k - 1);
      var b := e.beneficiaryIds[k - 1];
      Credit(r, b, -Share(e.amountMinor, |e.beneficiaryIds|, k - 1))
  }

  /** `m` after one expense: every share debited, the full amount credited
      to the payer. */
  function ApplyExpense(m: map<Id, int>, e: Expense): (r: map<Id, int>)
    requires WellFormed(e, m.Keys)
    ensures r.Keys == m.Keys
  {
    Credit(Debit(m, e, |e.beneficiaryIds|), e.payerId, e.amountMinor)
  }

  /** `m` after the expenses `es`, in order. */
  function ApplyAll(m: map<Id, int>, es: seq<Expense>): (r: map<Id, int>)
    requires forall e :: e in es ==> WellFormed(e, m.Keys)
    ensures r.Keys == m.Keys
  {
    if es == [] then m else ApplyExpense(ApplyAll(m, es[..|es| - 1]), es[|es| - 1])
  }

  /** One more expense of `es`, as the calculator's outer loop takes it. */
  lemma ApplyAllStep(m: map<Id, int>, es: seq<Expense>, k: nat)
    requires forall e :: e in es ==> WellFormed(e, m.Keys)
    requires k < |es|
    ensures WellFormed(es[k], ApplyAll(m, es[..k]).Keys)
    ensures ApplyAll(m, es[..k + 1]) == ApplyExpense(ApplyAll(m, es[..k]), es[k])
  {
    assert es[k] in es;
    assert es[..k + 1][..k] == es[..k];
  }

  // ---------------------------------------------------------------------
  // The closed form: what each participant paid minus what they owe
  // ---------------------------------------------------------------------

  /** What `p` owes for the first `k` beneficiary entries of `e`; every entry
      naming `p` counts, duplicates included. */
  function OwedIn(p: Id, e: Expense, k: nat): int
    requires |e.beneficiaryIds| > 0 && k <= |e.beneficiaryIds|
  {
    if k == 0 then 0
    else
      OwedIn(p, e, k - 1)
      + (if e.beneficiaryIds[k - 1] == p then Share(e.amountMinor, |e.beneficiaryIds|, k - 1) else 0)
  }

  /** Total `p` paid for the expenses `es`. */
  function Paid(p: Id, es: seq<Expense>): int
  {
    if es == [] then 0
    else Paid(p, es[..|es| - 1]) + (if es[|es| - 1].payerId == p then es[|es| - 1].amountMinor else 0)
  }

  /** Total of `p`'s shares of the expenses `es`. */
  function Owed(p: Id, es: seq<Expense>): int
    requires forall e :: e in es ==> |e.beneficiaryIds| > 0
  {
    if es == [] then 0
    else Owed(p, es[..|es| - 1]) + OwedIn(p, es[|es| - 1], |es[|es| - 1].beneficiaryIds|)
  }

  function NetBalance(p: Id, es: seq<Expense>): int
    requires forall e :: e in es ==> |e.beneficiaryIds| > 0
  {
    Paid(p, es) - Owed(p, es)
  }

  lemma {:induction false} DebitClosed(m: map<Id, int>, e: Expense, k: nat, p: Id)
    requires |e.beneficiaryIds| > 0 && k <= |e.beneficiaryIds|
    requires forall b :: b in e.beneficiaryIds ==> b in m
    requires p in m
    ensures Debit(m, e, k)[p] == m[p] - OwedIn(p, e, k)
  {
    if k > 0 {
      DebitClosed(m, e, k - 1, p);
    }
  }

  /** Each entry of the balance map is its starting value plus what that
      participant paid minus what they owe. */
  lemma {:induction false} ApplyAllClosed(m: map<Id, int>, es: seq<Expense>, p: Id)
    requires forall e :: e in es ==> WellFormed(e, m.Keys)
    requires p in m
    ensures ApplyAll(m, es)[p] == m[p] + NetBalance(p, es)
  {
    if es != [] {
      var init, e := es[..|es| - 1], es[|es| - 1];
      assert e in es;
      ApplyAllClosed(m, init, p);
      DebitClosed(ApplyAll(m, init), e, |e.beneficiaryIds|, p);
    }
  }

  // ---------------------------------------------------------------------
  // Zero sum
  // ---------------------------------------------------------------------

  /** The sum of the map entries of the participants `ps`; a participant
      missing from the map counts as zero. */
  function SumOver(ps: seq<Participant>, m: map<Id, int>): int
  {
    if ps == [] then 0 else (if ps[0].id in m then m[ps[0].id] else 0) + SumOver(ps[1..], m)
  }

  lemma {:induction false} SumOverUnchanged(ps: seq<Participant>, m: map<Id, int>, k: Id, v: int)
    requires forall i :: 0 <= i < |ps| ==> ps[i].id != k
    ensures SumOver(ps, m[k := v]) == SumOver(ps, m)
  {
    if ps != [] {
      SumOverUnchanged(ps[1..], m, k, v);
    }
  }

  /** Adding `d` to the entry of the participant at position `j` adds `d`
      to the sum. */
  lemma {:induction false} SumOverUpdateAt(ps: seq<Participant>, m: map<Id, int>, j: nat, d: int)
    requires DistinctIds(ps) && j < |ps| && ps[j].id in m
    ensures SumOver(ps, Credit(m, ps[j].id, d)) == SumOver(ps, m) + d
  {
    var k := ps[j].id;
    if j == 0 {
      SumOverUnchanged(ps[1..], m, k, m[k] + d);
    } else {
      SumOverUpdateAt(ps[1..], m, j - 1, d);
    }
  }

  /** Adding `d` to one participant's entry adds `d` to the sum. */
  lemma SumOverUpdate(ps: seq<Participant>, m: map<Id, int>, k: Id, d: int)
    requires DistinctIds(ps) && k in m && k in Ids(ps)
    ensures SumOver(ps, Credit(m, k, d)) == SumOver(ps, m) + d
  {
    var j :| 0 <= j < |ps| && ps[j].id == k;
    SumOverUpdateAt(ps, m, j, d);
  }

  lemma {:induction false} SumOverDebit(ps: seq<Participant>, m: map<Id, int>, e: Expense, k: nat)
    requires DistinctIds(ps)
    requires |e.beneficiaryIds| > 0 && k <= |e.beneficiaryIds|
    requires forall b :: b in e.beneficiaryIds ==> b in Ids(ps) && b in m
    ensures SumOver(ps, Debit(m, e, k)) == SumOver(ps, m) - ShareSum(e.amountMinor, |e.beneficiaryIds|, k)
  {
    if k > 0 {
      SumOverDebit(ps, m, e, k - 1);
      var r := Debit(m, e, k - 1);
      var s := Share(e.amountMinor, |e.beneficiaryIds|, k - 1);
      SumOverUpdate(ps, r, e.beneficiaryIds[k - 1], -s);
    }
  }

  /** Processing an expense leaves the sum over all participants unchanged. */
  lemma {:induction false} SumOverApplyAll(ps: seq<Participant>, m: map<Id, int>, es: seq<Expense>)
    requires DistinctIds(ps) && Ids(ps) == m.Keys
    requires forall e :: e in es ==> WellFormed(e, m.Keys)
    ensures SumOver(ps, ApplyAll(m, es)) == SumOver(ps, m)
  {
    if es != [] {
      var init, e := es[..|es| - 1], es[|es| - 1];
      assert e in es;
      assert forall x :: x in init ==> x in es;
      SumOverApplyAll(ps, m, init);
      SumOverApplyExpense(ps, ApplyAll(m, init), e);
    }
  }

  /** One expense debits exactly its amount in shares and credits it to
      the payer. */
  lemma SumOverApplyExpense(ps: seq<Participant>, m: map<Id, int>, e: Expense)
    requires DistinctIds(ps) && Ids(ps) == m.Keys && WellFormed(e, m.Keys)
    ensures SumOver(ps, ApplyExpense(m, e)) == SumOver(ps, m)
  {
    SumOverUpdate(ps, Debit(m, e, |e.beneficiaryIds|), e.payerId, e.amountMinor);
    SumOverAllShares(ps, m, e);
  }

  /** Debiting every share of an expense takes its whole amount off the sum. */
  lemma SumOverAllShares(ps: seq<Participant>, m: map<Id, int>, e: Expense)
    requires DistinctIds(ps) && Ids(ps) == m.Keys && WellFormed(e, m.Keys)
    ensures SumOver(ps, Debit(m, e, |e.beneficiaryIds|)) == SumOver(ps, m) - e.amountMinor
  {
    SumOverDebit(ps, m, e, |e.beneficiaryIds|);
    SharesSumToAmount(e.amountMinor, |e.beneficiaryIds|);
  }

  lemma {:induction false} SumOverZero(ps: seq<Participant>, m: map<Id, int>)
    requires forall id :: id in m ==> m[id] == 0
    ensures SumOver(ps, m) == 0
  {
    if ps != [] {
      SumOverZero(ps[1..], m);
    }
  }

  // ---------------------------------------------------------------------
  // The balance list
  // ---------------------------------------------------------------------

  function BalanceMinor(b: Balance): int
  {
    b.balanceMinor
  }

  /** Sum of all balances of a list. */
  function TotalBalance(bs: seq<Balance>): int
  {
    SumOf(bs, BalanceMinor)
  }

  /** One Balance per participant, in participant order, read from `m`. */
  function Emit(ps: seq<Participant>, m: map<Id, int>): (r: seq<Balance>)
    requires Ids(ps) <= m.Keys
    ensures |r| == |ps|
  {
    seq(|ps|, k requires 0 <= k < |ps| => Balance(ps[k].id, ps[k].name, m[ps[k].id]))
  }

  lemma {:induction false} EmitTotal(ps: seq<Participant>, m: map<Id, int>)
    requires Ids(ps) <= m.Keys
    ensures TotalBalance(Emit(ps, m)) == SumOver(ps, m)
  {
    if ps != [] {
      assert Ids(ps[1..]) <= Ids(ps);
      assert Emit(ps, m)[1..] == Emit(ps[1..], m);
      EmitTotal(ps[1..], m);
    }
  }

  /** The participants' net balances, in participant order, before sorting. */
  function NetBalances(ps: seq<Participant>, es: seq<Expense>): (r: seq<Balance>)
    requires forall e :: e in es ==> |e.beneficiaryIds| > 0
    ensures |r| == |ps|
  {
    seq(|ps|, k requires 0 <= k < |ps| => Balance(ps[k].id, ps[k].name, NetBalance(ps[k].id, es)))
  }

  /** The balance list the calculator returns: the net balances, stable-sorted
      by balance, largest first. */
  function BalancesOf(ps: seq<Participant>, es: seq<Expense>): (r: seq<Balance>)
    requires forall e :: e in es ==> |e.beneficiaryIds| > 0
    ensures |r| == |ps|
  {
    SortDesc(NetBalances(ps, es), BalanceMinor)
  }

  /** The map the calculator ends with, emitted in participant order, is the
      closed-form net balance list. */
  lemma {:induction false} EmitFinalMap(ps: seq<Participant>, es: seq<Expense>)
    requires ValidInput(ps, es)
    ensures Emit(ps, ApplyAll(ZeroMap(ps), es)) == NetBalances(ps, es)
  {
    var m := ApplyAll(ZeroMap(ps), es);
    forall k | 0 <= k < |ps|
      ensures Emit(ps, m)[k] == NetBalances(ps, es)[k]
    {
      ApplyAllClosed(ZeroMap(ps), es, ps[k].id);
    }
  }

  /** Zero-sum: the net balances of a valid session add up to zero. */
  lemma {:induction false} NetBalancesSumToZero(ps: seq<Participant>, es: seq<Expense>)
    requires ValidInput(ps, es)
    ensures TotalBalance(NetBalances(ps, es)) == 0
  {
    var z := ZeroMap(ps);
    EmitFinalMap(ps, es);
    EmitTotal(ps, ApplyAll(z, es));
    SumOverApplyAll(ps, z, es);
    SumOverZero(ps, z);
  }

  /** The calculator's output: exactly the participants' net balances (one
      per participant, zero balances included), sorted by balance, largest
      first, participants with equal balances in participant order, and
      summing to zero. */
  lemma {:induction false} BalancesOfCorrect(ps: seq<Participant>, es: seq<Expense>)
    requires ValidInput(ps, es)
    ensures |BalancesOf(ps, es)| == |ps|
    ensures multiset(BalancesOf(ps, es)) == multiset(NetBalances(ps, es))
    ensures SortedDesc(BalancesOf(ps, es), BalanceMinor)
    ensures forall v :: KeyFilter(BalancesOf(ps, es), BalanceMinor, v) == KeyFilter(NetBalances(ps, es), BalanceMinor, v)
    ensures TotalBalance(BalancesOf(ps, es)) == 0
  {
    var net := NetBalances(ps, es);
    SortDescCorrect(net, BalanceMinor);
    forall v ensures KeyFilter(BalancesOf(ps, es), BalanceMinor, v) == KeyFilter(net, BalanceMinor, v) {
      SortDescStable(net, BalanceMinor, v);
    }
    SortDescSum(net, BalanceMinor, BalanceMinor);
    NetBalancesSumToZero(ps, es);
  }

  /** The inner loop of `calculate_balances`: walk the beneficiary list of
      one expense and debit each entry its share. */
  method DebitShares(balanceMap: map<Id, int>, expense: Expense) returns (r: map<Id, int>)
    requires WellFormed(expense, balanceMap.Keys)
    ensures r == Debit(balanceMap, expense, |expense.beneficiaryIds|)
  {
    var n := |expense.beneficiaryIds|;
    var amountPerPerson := expense.amountMinor / n;
    var remainder := expense.amountMinor % n;
    r := balanceMap;
    for i := 0 to n
      invariant r == Debit(balanceMap, expense, i)
    {
      var share := amountPerPerson;
      if i < remainder {
        share := share + 1;
      }
      var beneficiaryId := expense.beneficiaryIds[i];
      r := r[beneficiaryId := r[beneficiaryId] - share];
    }
  }

  /** One pass of the outer loop of `calculate_balances`: debit every share
      of the expense, then credit the payer the full amount. */
  method ProcessExpense(balanceMap: map<Id, int>, expense: Expense) returns (r: map<Id, int>)
    requires WellFormed(expense, balanceMap.Keys)
    ensures r == ApplyExpense(balanceMap, expense)
  {
    r := DebitShares(balanceMap, expense);
    r := r[expense.payerId := r[expense.payerId] + expense.amountMinor];
  }

  /** The loops of `calculate_balances`: every participant starts at zero;
      for each expense, in order, each beneficiary entry is debited its share
      and the payer is credited the full amount. */
  method AccumulateBalances(ps: seq<Participant>, es: seq<Expense>) returns (balanceMap: map<Id, int>)
    requires ValidInput(ps, es)
    ensures balanceMap == ApplyAll(ZeroMap(ps), es)
  {
    balanceMap := ZeroMap(ps);
    for e := 0 to |es|
      invariant balanceMap == ApplyAll(ZeroMap(ps), es[..e])
    {
      ApplyAllStep(ZeroMap(ps), es, e);
      balanceMap := ProcessExpense(balanceMap, es[e]);
    }
    assert es[..|es|] == es;
  }

  /** `calculate_balances`: accumulate the balance map, emit one Balance per
      participant, sort the list in place by balance, largest first. */
  method CalculateBalances(session: Session) returns (balances: seq<Balance>)
    requires ValidInput(session.participants, session.expenses)
    ensures balances == BalancesOf(session.participants, session.expenses)
    ensures |balances| == |session.participants|
    ensures TotalBalance(balances) == 0
    ensures SortedDesc(balances, BalanceMinor)
  {
    var ps, es := session.participants, session.expenses;
    var balanceMap := AccumulateBalances(ps, es);
    // The map's keys were inserted in participant order, so its items come
    // out in that order; the ids are distinct, so each name is that
    // participant's own.
    var emitted := Emit(ps, balanceMap);
    EmitFinalMap(ps, es);
    var list := new Balance[|emitted|](k requires 0 <= k < |emitted| => emitted[k]);
    assert list[..] == emitted;
    SortInPlace(list, BalanceMinor);
    balances := list[..];
    BalancesOfCorrect(ps, es);
  }

  // ---------------------------------------------------------------------
  // Debtors, creditors and the greedy matching
  // ---------------------------------------------------------------------

  /** A participant and the magnitude of their debt or credit. */
  datatype Entry = Entry(id: Id, amount: int)

  function EntryAmount(e: Entry): int
  {
    e.amount
  }

  /** Per-entry amount of the participant `x`. */
  function AmountFor(x: Id): Entry -> int
  {
    (e: Entry) => if e.id == x then e.amount else 0
  }

  /** Per-payment amount sent by `x`. */
  function SentBy(x: Id): Payment -> int
  {
    (p: Payment) => if p.fromParticipantId == x then p.amountMinor else 0
  }

  /** Per-payment amount received by `x`. */
  function ReceivedBy(x: Id): Payment -> int
  {
    (p: Payment) => if p.toParticipantId == x then p.amountMinor else 0
  }

  /** Per-balance amount of `x`. */
  function BalanceFor(x: Id): Balance -> int
  {
    (b: Balance) => if b.participantId == x then b.balanceMinor else 0
  }

  predicate Positive(s: seq<Entry>)
  {
    forall e :: e in s ==> e.amount > 0
  }

  predicate NonNegative(s: seq<Entry>)
  {
    forall e :: e in s ==> e.amount >= 0
  }

  predicate IdsIn(s: seq<Entry>, names: map<Id, string>)
  {
    forall e :: e in s ==> e.id in names
  }

  function EntryIds(s: seq<Entry>): set<Id>
  {
    set e | e in s :: e.id
  }

  /** Those who owe, with the magnitude of what they owe, in list order. */
  function Debtors(bs: seq<Balance>): (r: seq<Entry>)
    ensures Positive(r)
  {
    if bs == [] then []
    else
      (if bs[0].balanceMinor < 0 then [Entry(bs[0].participantId, -bs[0].balanceMinor)] else [])
      + Debtors(bs[1..])
  }

  /** Those who are owed, with what they are owed, in list order. */
  function Creditors(bs: seq<Balance>): (r: seq<Entry>)
    ensures Positive(r)
  {
    if bs == [] then []
    else
      (if bs[0].balanceMinor > 0 then [Entry(bs[0].participantId, bs[0].balanceMinor)] else [])
      + Creditors(bs[1..])
  }

  /** The ids of the participants whose balance is negative. */
  function NegativeIds(bs: seq<Balance>): set<Id>
  {
    set b | b in bs && b.balanceMinor < 0 :: b.participantId
  }

  /** The ids of the participants whose balance is positive. */
  function PositiveIds(bs: seq<Balance>): set<Id>
  {
    set b | b in bs && b.balanceMinor > 0 :: b.participantId
  }

  /** Identifier to name; a later participant with the same id wins. */
  function NameMap(ps: seq<Participant>): (m: map<Id, string>)
    ensures m.Keys == Ids(ps)
    ensures forall k :: 0 <= k < |ps| && (forall j :: k < j < |ps| ==> ps[j].id != ps[k].id) ==>
      m[ps[k].id] == ps[k].name
  {
    if ps == [] then map[]
    else
      var init, last := ps[..|ps| - 1], ps[|ps| - 1];
      assert ps == init + [last];
      NameMap(init)[last.id := last.name]
  }

  function Min(a: int, b: int): int
  {
    if a <= b then a else b
  }

  /** The greedy matching over the remaining debtors `ds` and creditors `cs`
      (the current ones at the head): transfer the smaller of the two current
      amounts, record it when positive, and move past whichever side reaches
      zero. */
  function Greedy(ds: seq<Entry>, cs: seq<Entry>, names: map<Id, string>): (r: seq<Payment>)
    requires IdsIn(ds, names) && IdsIn(cs, names)
    ensures forall p :: p in r ==> p.amountMinor > 0
    decreases |ds| + |cs|
  {
    if ds == [] || cs == [] then []
    else
      var t := Min(ds[0].amount, cs[0].amount);
      ReduceKeeps(ds, t, names);
      ReduceKeeps(cs, t, names);
      Recorded(ds[0], cs[0], names) + Greedy(Reduce(ds, t), Reduce(cs, t), names)
  }

  /** The payment one step records: the transfer from the current debtor to
      the current creditor, when it is positive. */
  function Recorded(d: Entry, c: Entry, names: map<Id, string>): (r: seq<Payment>)
    requires d.id in names && c.id in names
    ensures |r| <= 1
    ensures forall p :: p in r ==>
      p.amountMinor > 0 && p.fromParticipantId == d.id && p.toParticipantId == c.id
  {
    var t := Min(d.amount, c.amount);
    if t > 0 then [Payment(d.id, names[d.id], c.id, names[c.id], t)] else []
  }

  /** One step of the greedy matching, as the loop takes it. */
  lemma GreedyStep(done: seq<Payment>, ds: seq<Entry>, cs: seq<Entry>, names: map<Id, string>)
    requires IdsIn(ds, names) && IdsIn(cs, names) && ds != [] && cs != []
    ensures IdsIn(Reduce(ds, Min(ds[0].amount, cs[0].amount)), names)
    ensures IdsIn(Reduce(cs, Min(ds[0].amount, cs[0].amount)), names)
    ensures done + Greedy(ds, cs, names)
         == (done + Recorded(ds[0], cs[0], names))
            + Greedy(Reduce(ds, Min(ds[0].amount, cs[0].amount)), Reduce(cs, Min(ds[0].amount, cs[0].amount)), names)
  {
    var t := Min(ds[0].amount, cs[0].amount);
    ReduceKeeps(ds, t, names);
    ReduceKeeps(cs, t, names);
  }

  /** The remaining list after `t` is taken from its current (first) entry:
      the entry is dropped when it reaches zero, kept with the rest otherwise. */
  function Reduce(s: seq<Entry>, t: int): (r: seq<Entry>)
    requires s != []
    ensures |r| <= |s| && (s[0].amount == t ==> |r| < |s|)
  {
    if s[0].amount - t == 0 then s[1..] else [Entry(s[0].id, s[0].amount - t)] + s[1..]
  }

  /** Taking `t` from the current entry takes `t` from the list's total and
      from its owner's part, and brings in no new participant. */
  lemma ReduceKeeps(s: seq<Entry>, t: int, names: map<Id, string>)
    requires s != []
    ensures IdsIn(s, names) ==> IdsIn(Reduce(s, t), names)
    ensures EntryIds(Reduce(s, t)) <= EntryIds(s)
    ensures NonNegative(s) && t <= s[0].amount ==> NonNegative(Reduce(s, t))
  {
    assert forall e :: e in s[1..] ==> e in s;
  }

  lemma ReduceSums(s: seq<Entry>, t: int, x: Id)
    requires s != []
    ensures SumOf(Reduce(s, t), EntryAmount) == SumOf(s, EntryAmount) - t
    ensures SumOf(Reduce(s, t), AmountFor(x)) == SumOf(s, AmountFor(x)) - (if s[0].id == x then t else 0)
  {
    if s[0].amount - t != 0 {
      SumOfCons(Entry(s[0].id, s[0].amount - t), s[1..], EntryAmount);
      SumOfCons(Entry(s[0].id, s[0].amount - t), s[1..], AmountFor(x));
    }
  }

  /** Sorting a list of entries keeps every entry, hence every property of
      its entries. */
  lemma SortedEntries(s: seq<Entry>)
    ensures forall e :: e in SortDesc(s, EntryAmount) <==> e in s
    ensures EntryIds(SortDesc(s, EntryAmount)) == EntryIds(s)
  {
    SortDescCorrect(s, EntryAmount);
    assert forall e :: e in SortDesc(s, EntryAmount) <==> e in multiset(s);
  }

  /** Every participant named in a balance list is a participant. */
  predicate KnownIds(bs: seq<Balance>, ps: seq<Participant>)
  {
    forall b :: b in bs ==> b.participantId in Ids(ps)
  }

  lemma {:induction false} DebtorsCreditorsKnown(bs: seq<Balance>)
    ensures EntryIds(Debtors(bs)) == NegativeIds(bs)
    ensures EntryIds(Creditors(bs)) == PositiveIds(bs)
  {
    DebtorsKnown(bs);
    CreditorsKnown(bs);
  }

  lemma {:induction false} DebtorsKnown(bs: seq<Balance>)
    ensures EntryIds(Debtors(bs)) == NegativeIds(bs)
  {
    if bs != [] {
      DebtorsKnown(bs[1..]);
      var h := if bs[0].balanceMinor < 0 then [Entry(bs[0].participantId, -bs[0].balanceMinor)] else [];
      EntryIdsAppend(h, Debtors(bs[1..]));
      assert NegativeIds(bs) == NegativeIds([bs[0]]) + NegativeIds(bs[1..]);
      assert EntryIds(h) == NegativeIds([bs[0]]);
    }
  }

  lemma {:induction false} CreditorsKnown(bs: seq<Balance>)
    ensures EntryIds(Creditors(bs)) == PositiveIds(bs)
  {
    if bs != [] {
      CreditorsKnown(bs[1..]);
      var g := if bs[0].balanceMinor > 0 then [Entry(bs[0].participantId, bs[0].balanceMinor)] else [];
      EntryIdsAppend(g, Creditors(bs[1..]));
      assert PositiveIds(bs) == PositiveIds([bs[0]]) + PositiveIds(bs[1..]);
      assert EntryIds(g) == PositiveIds([bs[0]]);
    }
  }

  lemma EntryIdsAppend(s: seq<Entry>, t: seq<Entry>)
    ensures EntryIds(s + t) == EntryIds(s) + EntryIds(t)
  {
    assert forall e :: e in s + t <==> e in s || e in t;
  }

  /** The sorted debtor and creditor lists hold known participants with
      non-negative amounts: the debtors are exactly the participants with a
      negative balance, the creditors those with a positive one. */
  lemma EntriesKnown(bs: seq<Balance>, ps: seq<Participant>)
    requires KnownIds(bs, ps)
    ensures IdsIn(SortDesc(Debtors(bs), EntryAmount), NameMap(ps))
    ensures IdsIn(SortDesc(Creditors(bs), EntryAmount), NameMap(ps))
    ensures NonNegative(SortDesc(Debtors(bs), EntryAmount))
    ensures NonNegative(SortDesc(Creditors(bs), EntryAmount))
    ensures EntryIds(SortDesc(Debtors(bs), EntryAmount)) == NegativeIds(bs)
    ensures EntryIds(SortDesc(Creditors(bs), EntryAmount)) == PositiveIds(bs)
  {
    var ds, cs := Debtors(bs), Creditors(bs);
    DebtorsCreditorsKnown(bs);
    SortedEntries(ds);
    SortedEntries(cs);
    forall e | e in SortDesc(ds, EntryAmount) ensures e.id in NameMap(ps) {
      assert e.id in EntryIds(ds);
      var b :| b in bs && b.balanceMinor < 0 && b.participantId == e.id;
    }
    forall e | e in SortDesc(cs, EntryAmount) ensures e.id in NameMap(ps) {
      assert e.id in EntryIds(cs);
      var b :| b in bs && b.balanceMinor > 0 && b.participantId == e.id;
    }
  }

  /** The list of payments `optimize_payments` returns. */
  function PaymentsOf(bs: seq<Balance>, ps: seq<Participant>): (r: seq<Payment>)
    requires KnownIds(bs, ps)
    ensures forall p :: p in r ==> p.amountMinor > 0
  {
    var ds, cs := Debtors(bs), Creditors(bs);
    EntriesKnown(bs, ps);
    Greedy(SortDesc(ds, EntryAmount), SortDesc(cs, EntryAmount), NameMap(ps))
  }

  lemma SumOfCons<T>(x: T, s: seq<T>, f: T -> int)
    ensures SumOf([x] + s, f) == f(x) + SumOf(s, f)
  {
    assert ([x] + s)[1..] == s;
  }

  /** In a list of non-negative entries, any one participant's part lies
      between zero and the total. */
  lemma {:induction false} PartWithinTotal(s: seq<Entry>, x: Id)
    requires NonNegative(s)
    ensures 0 <= SumOf(s, AmountFor(x)) <= SumOf(s, EntryAmount)
  {
    if s != [] {
      PartWithinTotal(s[1..], x);
    }
  }

  /** Settlement of the greedy matching: when total debt equals total
      credit, every debtor sends exactly what they owe and every creditor
      receives exactly what they are owed. */
  lemma {:induction false} GreedySettles(ds: seq<Entry>, cs: seq<Entry>, names: map<Id, string>, x: Id)
    requires IdsIn(ds, names) && IdsIn(cs, names)
    requires NonNegative(ds) && NonNegative(cs)
    requires SumOf(ds, EntryAmount) == SumOf(cs, EntryAmount)
    ensures SumOf(Greedy(ds, cs, names), SentBy(x)) == SumOf(ds, AmountFor(x))
    ensures SumOf(Greedy(ds, cs, names), ReceivedBy(x)) == SumOf(cs, AmountFor(x))
    decreases |ds| + |cs|
  {
    if ds == [] {
      PartWithinTotal(cs, x);
    } else if cs == [] {
      PartWithinTotal(ds, x);
    } else {
      var d, c := ds[0], cs[0];
      var t := Min(d.amount, c.amount);
      ReduceKeeps(ds, t, names);
      ReduceKeeps(cs, t, names);
      ReduceSums(ds, t, x);
      ReduceSums(cs, t, x);
      var rest := Greedy(Reduce(ds, t), Reduce(cs, t), names);
      GreedySettles(Reduce(ds, t), Reduce(cs, t), names, x);
      if t > 0 {
        var p := Payment(d.id, names[d.id], c.id, names[c.id], t);
        assert Greedy(ds, cs, names) == [p] + rest;
        SumOfCons(p, rest, SentBy(x));
        SumOfCons(p, rest, ReceivedBy(x));
      } else {
        assert Greedy(ds, cs, names) == rest;
      }
    }
  }

  /** Every recorded payment is positive, runs from a debtor to a creditor,
      and carries those participants' names. */
  lemma {:induction false} GreedyPayments(ds: seq<Entry>, cs: seq<Entry>, names: map<Id, string>)
    requires IdsIn(ds, names) && IdsIn(cs, names)
    ensures forall p :: p in Greedy(ds, cs, names) ==>
      && p.amountMinor > 0
      && p.fromParticipantId in EntryIds(ds) && p.toParticipantId in EntryIds(cs)
      && p.fromParticipantId in names && p.fromParticipantName == names[p.fromParticipantId]
      && p.toParticipantId in names && p.toParticipantName == names[p.toParticipantId]
    decreases |ds| + |cs|
  {
    if ds != [] && cs != [] {
      var d, c := ds[0], cs[0];
      var t := Min(d.amount, c.amount);
      ReduceKeeps(ds, t, names);
      ReduceKeeps(cs, t, names);
      GreedyPayments(Reduce(ds, t), Reduce(cs, t), names);
    }
  }

  /** Each step moves past at least one debtor or creditor, so there are
      fewer payments than debtors and creditors together. */
  lemma {:induction false} GreedyLength(ds: seq<Entry>, cs: seq<Entry>, names: map<Id, string>)
    requires IdsIn(ds, names) && IdsIn(cs, names)
    ensures |Greedy(ds, cs, names)| <= |ds| + |cs|
    ensures ds != [] && cs != [] ==> |Greedy(ds, cs, names)| < |ds| + |cs|
    decreases |ds| + |cs|
  {
    if ds != [] && cs != [] {
      var d, c := ds[0], cs[0];
      var t := Min(d.amount, c.amount);
      ReduceKeeps(ds, t, names);
      ReduceKeeps(cs, t, names);
      GreedyLength(Reduce(ds, t), Reduce(cs, t), names);
    }
  }

  /** Splitting the balances into debtors and creditors loses nothing: for
      each participant, debt minus credit is minus the balance. */
  lemma {:induction false} DebtorsCreditorsSplit(bs: seq<Balance>, x: Id)
    ensures SumOf(Debtors(bs), AmountFor(x)) - SumOf(Creditors(bs), AmountFor(x)) == -SumOf(bs, BalanceFor(x))
  {
    if bs != [] {
      DebtorsCreditorsSplit(bs[1..], x);
      SplitHead(bs, x);
    }
  }

  /** The first balance's contribution to the split. */
  lemma {:induction false} SplitHead(bs: seq<Balance>, x: Id)
    requires bs != []
    ensures SumOf(Debtors(bs), AmountFor(x)) - SumOf(Creditors(bs), AmountFor(x))
         == SumOf(Debtors(bs[1..]), AmountFor(x)) - SumOf(Creditors(bs[1..]), AmountFor(x)) - BalanceFor(x)(bs[0])
  {
    var b, rest := bs[0], bs[1..];
    if b.balanceMinor < 0 {
      DebtorHead(bs, x);
    } else if b.balanceMinor > 0 {
      CreditorHead(bs, x);
    } else {
      assert Debtors(bs) == [] + Debtors(rest) == Debtors(rest);
      assert Creditors(bs) == [] + Creditors(rest) == Creditors(rest);
    }
  }

  lemma {:induction false} DebtorHead(bs: seq<Balance>, x: Id)
    requires bs != [] && bs[0].balanceMinor < 0
    ensures SumOf(Debtors(bs), AmountFor(x)) == SumOf(Debtors(bs[1..]), AmountFor(x)) - BalanceFor(x)(bs[0])
    ensures Creditors(bs) == Creditors(bs[1..])
  {
    var e := Entry(bs[0].participantId, -bs[0].balanceMinor);
    assert Debtors(bs) == [e] + Debtors(bs[1..]);
    SumOfCons(e, Debtors(bs[1..]), AmountFor(x));
  }

  lemma {:induction false} CreditorHead(bs: seq<Balance>, x: Id)
    requires bs != [] && bs[0].balanceMinor > 0
    ensures SumOf(Creditors(bs), AmountFor(x)) == SumOf(Creditors(bs[1..]), AmountFor(x)) + BalanceFor(x)(bs[0])
    ensures Debtors(bs) == Debtors(bs[1..])
  {
    var e := Entry(bs[0].participantId, bs[0].balanceMinor);
    assert Creditors(bs) == [e] + Creditors(bs[1..]);
    SumOfCons(e, Creditors(bs[1..]), AmountFor(x));
  }

  /** The same in total: all debt minus all credit is minus the sum of the
      balances. */
  lemma {:induction false} DebtorsCreditorsTotal(bs: seq<Balance>)
    ensures SumOf(Debtors(bs), EntryAmount) - SumOf(Creditors(bs), EntryAmount) == -TotalBalance(bs)
  {
    if bs != [] {
      DebtorsCreditorsTotal(bs[1..]);
      var b := bs[0];
      if b.balanceMinor < 0 {
        var e := Entry(b.participantId, -b.balanceMinor);
        assert Debtors(bs) == [e] + Debtors(bs[1..]);
        assert Creditors(bs) == [] + Creditors(bs[1..]) == Creditors(bs[1..]);
        SumOfCons(e, Debtors(bs[1..]), EntryAmount);
      } else if b.balanceMinor > 0 {
        var e := Entry(b.participantId, b.balanceMinor);
        assert Creditors(bs) == [e] + Creditors(bs[1..]);
        assert Debtors(bs) == [] + Debtors(bs[1..]) == Debtors(bs[1..]);
        SumOfCons(e, Creditors(bs[1..]), EntryAmount);
      } else {
        assert Debtors(bs) == [] + Debtors(bs[1..]) == Debtors(bs[1..]);
        assert Creditors(bs) == [] + Creditors(bs[1..]) == Creditors(bs[1..]);
      }
    }
  }

  /** Settlement correctness: when the balances sum to zero, applying every
      payment (the sender's balance rises by the amount, the receiver's
      falls by it) leaves every participant at exactly zero. */
  lemma {:induction false} PaymentsSettle(bs: seq<Balance>, ps: seq<Participant>, x: Id)
    requires KnownIds(bs, ps)
    requires TotalBalance(bs) == 0
    ensures SumOf(bs, BalanceFor(x)) + SumOf(PaymentsOf(bs, ps), SentBy(x))
            - SumOf(PaymentsOf(bs, ps), ReceivedBy(x)) == 0
  {
    var ds, cs := Debtors(bs), Creditors(bs);
    var sd, sc := SortDesc(ds, EntryAmount), SortDesc(cs, EntryAmount);
    EntriesKnown(bs, ps);
    SortDescSum(ds, EntryAmount, EntryAmount);
    SortDescSum(cs, EntryAmount, EntryAmount);
    SortDescSum(ds, EntryAmount, AmountFor(x));
    SortDescSum(cs, EntryAmount, AmountFor(x));
    DebtorsCreditorsSplit(bs, x);
    DebtorsCreditorsTotal(bs);
    GreedySettles(sd, sc, NameMap(ps), x);
  }

  /** Every payment is positive, comes from a participant with a negative
      balance and goes to one with a positive balance, under their names;
      there are fewer payments than debtors and creditors together. */
  lemma {:induction false} PaymentsShape(bs: seq<Balance>, ps: seq<Participant>)
    requires KnownIds(bs, ps)
    ensures forall p :: p in PaymentsOf(bs, ps) ==>
      && p.amountMinor > 0
      && p.fromParticipantId in NegativeIds(bs) && p.toParticipantId in PositiveIds(bs)
      && p.fromParticipantName == NameMap(ps)[p.fromParticipantId]
      && p.toParticipantName == NameMap(ps)[p.toParticipantId]
    ensures |PaymentsOf(bs, ps)| <= |Debtors(bs)| + |Creditors(bs)|
  {
    var sd, sc := SortDesc(Debtors(bs), EntryAmount), SortDesc(Creditors(bs), EntryAmount);
    EntriesKnown(bs, ps);
    assert PaymentsOf(bs, ps) == Greedy(sd, sc, NameMap(ps));
    GreedyPayments(sd, sc, NameMap(ps));
    GreedyLength(sd, sc, NameMap(ps));
  }

  /** No participant has two different balances in the list. */
  predicate OneBalanceEach(bs: seq<Balance>)
  {
    forall b, c :: b in bs && c in bs && b.participantId == c.participantId ==> b == c
  }

  /** A participant whose balance is zero neither sends nor receives. */
  lemma {:induction false} ZeroBalanceUntouched(bs: seq<Balance>, ps: seq<Participant>, z: Balance)
    requires KnownIds(bs, ps) && OneBalanceEach(bs)
    requires z in bs && z.balanceMinor == 0
    ensures forall p :: p in PaymentsOf(bs, ps) ==>
      p.fromParticipantId != z.participantId && p.toParticipantId != z.participantId
  {
    PaymentsShape(bs, ps);
    forall p | p in PaymentsOf(bs, ps)
      ensures p.fromParticipantId != z.participantId && p.toParticipantId != z.participantId
    {
      var b :| b in bs && b.balanceMinor < 0 && b.participantId == p.fromParticipantId;
      var c :| c in bs && c.balanceMinor > 0 && c.participantId == p.toParticipantId;
    }
  }

  /** The `while` loop of `optimize_payments`: two cursors over the sorted
      debtors and creditors; each step transfers the smaller of the two
      current amounts, records it when positive, overwrites both entries with
      what is left, and advances each cursor whose entry reached zero. */
  method MatchGreedy(debtors: array<Entry>, creditors: array<Entry>, names: map<Id, string>)
    returns (payments: seq<Payment>)
    requires debtors != creditors
    requires IdsIn(debtors[..], names) && IdsIn(creditors[..], names)
    modifies debtors, creditors
    ensures payments == Greedy(old(debtors[..]), old(creditors[..]), names)
  {
    ghost var all := Greedy(debtors[..], creditors[..], names);
    assert debtors[0..] == debtors[..] && creditors[0..] == creditors[..];
    payments := [];
    var i, j := 0, 0;
    while i < debtors.Length && j < creditors.Length
      invariant 0 <= i <= debtors.Length && 0 <= j <= creditors.Length
      invariant IdsIn(debtors[i..], names) && IdsIn(creditors[j..], names)
      invariant payments + Greedy(debtors[i..], creditors[j..], names) == all
      decreases (debtors.Length - i) + (creditors.Length - j)
    {
      ghost var ds, cs, done := debtors[i..], creditors[j..], payments;
      GreedyStep(done, ds, cs, names);
      var Entry(debtorId, debt) := debtors[i];
      var Entry(creditorId, credit) := creditors[j];

      var transferAmount := Min(debt, credit);
      if transferAmount > 0 {
        payments := payments + [Payment(debtorId, names[debtorId], creditorId, names[creditorId], transferAmount)];
      }
      assert payments == done + Recorded(ds[0], cs[0], names);

      i := TakeFrom(debtors, i, transferAmount);
      j := TakeFrom(creditors, j, transferAmount);
    }
  }

  /** The write-back half of one matching step: takes `t` from the entry at
      cursor `i` and moves the cursor past it once it reaches zero.  What
      lies from the cursor on is then `Reduce` of what lay there before. */
  method TakeFrom(a: array<Entry>, i: nat, t: int) returns (next: nat)
    requires i < a.Length
    modifies a
    ensures next == (if old(a[i]).amount == t then i + 1 else i)
    ensures a[next..] == Reduce(old(a[i..]), t)
    ensures a[i] == Entry(old(a[i]).id, old(a[i]).amount - t)
    ensures forall k :: 0 <= k < a.Length && k != i ==> a[k] == old(a[k])
  {
    ghost var s := a[i..];
    var Entry(id, amount) := a[i];
    a[i] := Entry(id, amount - t);
    assert a[i + 1..] == s[1..];
    assert a[i..] == [a[i]] + s[1..];
    next := if a[i].amount == 0 then i + 1 else i;
  }

  /** `optimize_payments`: split the balances into debtors and creditors,
      sort both lists in place, then match them greedily. */
  method OptimizePayments(balances: seq<Balance>, participants: seq<Participant>)
    returns (payments: seq<Payment>)
    requires KnownIds(balances, participants)
    ensures payments == PaymentsOf(balances, participants)
    ensures forall p :: p in payments ==>
      p.amountMinor > 0
      && p.fromParticipantId in NegativeIds(balances) && p.toParticipantId in PositiveIds(balances)
    ensures TotalBalance(balances) == 0 ==> forall x ::
      SumOf(balances, BalanceFor(x)) + SumOf(payments, SentBy(x)) - SumOf(payments, ReceivedBy(x)) == 0
  {
    var names := NameMap(participants);
    var ds, cs := Debtors(balances), Creditors(balances);
    var debtors := new Entry[|ds|](k requires 0 <= k < |ds| => ds[k]);
    var creditors := new Entry[|cs|](k requires 0 <= k < |cs| => cs[k]);
    assert debtors[..] == ds && creditors[..] == cs;
    SortInPlace(debtors, EntryAmount);
    SortInPlace(creditors, EntryAmount);
    EntriesKnown(balances, participants);
    payments := MatchGreedy(debtors, creditors, names);

    PaymentsShape(balances, participants);
    forall x | TotalBalance(balances) == 0
      ensures SumOf(balances, BalanceFor(x)) + SumOf(payments, SentBy(x)) - SumOf(payments, ReceivedBy(x)) == 0
    {
      PaymentsSettle(balances, participants, x);
    }
  }

  // ---------------------------------------------------------------------
  // The whole engine
  // ---------------------------------------------------------------------

  /** The settlement of a session: its balance list and the payments that
      settle it. */
  function SettlementOf(session: Session): (r: Settlement)
    requires ValidInput(session.participants, session.expenses)
    ensures |r.balances| == |session.participants|
    ensures forall p :: p in r.payments ==> p.amountMinor > 0
  {
    var bs := BalancesOf(session.participants, session.expenses);
    BalancesKnown(session.participants, session.expenses);
    Settlement(bs, PaymentsOf(bs, session.participants))
  }

  /** Every balance the calculator returns belongs to a participant. */
  lemma BalancesKnown(ps: seq<Participant>, es: seq<Expense>)
    requires ValidInput(ps, es)
    ensures KnownIds(BalancesOf(ps, es), ps)
  {
    BalancesOfCorrect(ps, es);
    forall b | b in BalancesOf(ps, es) ensures b.participantId in Ids(ps) {
      assert b in multiset(NetBalances(ps, es));
      var k :| 0 <= k < |ps| && NetBalances(ps, es)[k] == b;
      assert ps[k] in ps;
    }
  }

  /** The calculator gives each participant one balance: the net balances
      carry the participants' distinct identifiers, and sorting only
      reorders them. */
  lemma BalancesOneEach(ps: seq<Participant>, es: seq<Expense>)
    requires ValidInput(ps, es)
    ensures OneBalanceEach(BalancesOf(ps, es))
  {
    var net := NetBalances(ps, es);
    BalancesOfCorrect(ps, es);
    NetOneEach(ps, es);
    forall b | b in BalancesOf(ps, es) ensures b in net {
      assert b in multiset(net);
    }
  }

  /** The net balances carry the participants' distinct identifiers. */
  lemma NetOneEach(ps: seq<Participant>, es: seq<Expense>)
    requires ValidInput(ps, es)
    ensures OneBalanceEach(NetBalances(ps, es))
  {
    var net := NetBalances(ps, es);
    forall b, c | b in net && c in net && b.participantId == c.participantId
      ensures b == c
    {
      var i :| 0 <= i < |ps| && net[i] == b;
      var j :| 0 <= j < |ps| && net[j] == c;
      assert ps[i].id == ps[j].id;
    }
  }

  /** In the settlement of a valid session, a participant whose balance is
      zero appears in no payment. */
  lemma SettledUntouched(session: Session)
    requires ValidInput(session.participants, session.expenses)
    ensures forall b, p ::
      b in SettlementOf(session).balances && b.balanceMinor == 0 && p in SettlementOf(session).payments ==>
      p.fromParticipantId != b.participantId && p.toParticipantId != b.participantId
  {
    var ps, es := session.participants, session.expenses;
    var bs := BalancesOf(ps, es);
    BalancesKnown(ps, es);
    BalancesOneEach(ps, es);
    forall b | b in bs && b.balanceMinor == 0
      ensures forall p :: p in PaymentsOf(bs, ps) ==>
        p.fromParticipantId != b.participantId && p.toParticipantId != b.participantId
    {
      ZeroBalanceUntouched(bs, ps, b);
    }
  }

  /** `calculate_settlement`: balances, then payments.  The result is a
      function of the session alone, so the same session always gives the
      same balances and payments in the same order; the balances sum to
      zero and the payments settle every one of them. */
  method CalculateSettlement(session: Session) returns (settlement: Settlement)
    requires ValidInput(session.participants, session.expenses)
    ensures settlement == SettlementOf(session)
    ensures |settlement.balances| == |session.participants|
    ensures TotalBalance(settlement.balances) == 0
    ensures forall x ::
      SumOf(settlement.balances, BalanceFor(x)) + SumOf(settlement.payments, SentBy(x))
      - SumOf(settlement.payments, ReceivedBy(x)) == 0
    ensures forall b, p :: b in settlement.balances && b.balanceMinor == 0 && p in settlement.payments ==>
      p.fromParticipantId != b.participantId && p.toParticipantId != b.participantId
  {
    var balances := CalculateBalances(session);
    BalancesKnown(session.participants, session.expenses);
    var payments := OptimizePayments(balances, session.participants);
    settlement := Settlement(balances, payments);
    SettledUntouched(session);
  }

  // ---------------------------------------------------------------------
  // A worked example
  // ---------------------------------------------------------------------

  /** 300 paid by A for A, B and C: A is owed 200, B and C owe 100 each,
      already in sorted order. */
  lemma ThreeWayBalances(date: Date)
    ensures var ps := [Participant("a", "A"), Participant("b", "B"), Participant("c", "C")];
      var es := [Expense("e", "Dinner", 300, date, "a", ["a", "b", "c"])];
      ValidInput(ps, es)
      && BalancesOf(ps, es) == [Balance("a", "A", 200), Balance("b", "B", -100), Balance("c", "C", -100)]
  {
    var ps := [Participant("a", "A"), Participant("b", "B"), Participant("c", "C")];
    var es := [Expense("e", "Dinner", 300, date, "a", ["a", "b", "c"])];
    ThreeWayValid(ps, es);
    ThreeWayNet(es);
    var net := [Balance("a", "A", 200), Balance("b", "B", -100), Balance("c", "C", -100)];
    assert NetBalances(ps, es) == net;
    SortedStaysPut3(net, BalanceMinor);
  }

  lemma ThreeWayValid(ps: seq<Participant>, es: seq<Expense>)
    requires ps == [Participant("a", "A"), Participant("b", "B"), Participant("c", "C")]
    requires |es| == 1 && es[0].payerId == "a" && es[0].beneficiaryIds == ["a", "b", "c"]
    ensures ValidInput(ps, es)
  {
    ThreeWayIds();
    assert Ids(ps) == {"a", "b", "c"};
  }

  /** A paid 300 and owes 100; B and C paid nothing and owe 100 each. */
  lemma ThreeWayNet(es: seq<Expense>)
    requires |es| == 1 && es[0].amountMinor == 300
    requires es[0].payerId == "a" && es[0].beneficiaryIds == ["a", "b", "c"]
    ensures NetBalance("a", es) == 200 && NetBalance("b", es) == -100 && NetBalance("c", es) == -100
  {
    var e := es[0];
    ThreeWayIds();
    ThreeWayShares(e);
    assert es[..0] == [] && |e.beneficiaryIds| == 3;
    forall p ensures Paid(p, es) == (if p == "a" then 300 else 0) {
      assert Paid(p, es) == Paid(p, es[..0]) + (if e.payerId == p then e.amountMinor else 0);
    }
    forall p ensures Owed(p, es) == OwedIn(p, e, 3) {
      assert Owed(p, es[..0]) == 0;
    }
  }

  lemma ThreeWayIds()
    ensures "a" != "b" && "a" != "c" && "b" != "c"
  {
    assert "a"[0] != "b"[0] && "a"[0] != "c"[0] && "b"[0] != "c"[0];
  }

  /** 300 over three entries is 100 each, and each of A, B and C is named
      by exactly one entry. */
  lemma ThreeWayShares(e: Expense)
    requires e.amountMinor == 300 && e.beneficiaryIds == ["a", "b", "c"]
    ensures OwedIn("a", e, 3) == 100 && OwedIn("b", e, 3) == 100 && OwedIn("c", e, 3) == 100
  {
    ThreeWayIds();
    assert Share(300, 3, 0) == 100 && Share(300, 3, 1) == 100 && Share(300, 3, 2) == 100;
    assert OwedIn("a", e, 1) == 100;
    assert OwedIn("b", e, 1) == 0;
    assert OwedIn("c", e, 1) == 0;
    assert OwedIn("a", e, 2) == 100;
    assert OwedIn("b", e, 2) == 100;
    assert OwedIn("c", e, 2) == 0;
  }

  /** A list of three already in non-increasing order sorts to itself. */
  lemma SortedStaysPut3<T>(s: seq<T>, key: T -> int)
    requires |s| == 3 && key(s[0]) >= key(s[1]) >= key(s[2])
    ensures SortDesc(s, key) == s
  {
    assert s[..1][..0] == [] && s[..2][..1] == s[..1] && s[..3] == s;
    assert SortDesc(s[..1], key) == [s[0]];
    assert InsertDesc([s[0]], s[1], key) == [s[0]] + InsertDesc([], s[1], key);
    assert SortDesc(s[..2], key) == [s[0], s[1]];
    assert InsertDesc([s[1]], s[2], key) == [s[1]] + InsertDesc([], s[2], key);
    assert InsertDesc([s[0], s[1]], s[2], key) == [s[0]] + InsertDesc([s[1]], s[2], key);
  }

  /** The payments for those balances: B pays A 100, then C pays A 100. */
  lemma ThreeWayPayments()
    ensures var ps := [Participant("a", "A"), Participant("b", "B"), Participant("c", "C")];
      var bs := [Balance("a", "A", 200), Balance("b", "B", -100), Balance("c", "C", -100)];
      KnownIds(bs, ps)
      && PaymentsOf(bs, ps) == [Payment("b", "B", "a", "A", 100), Payment("c", "C", "a", "A", 100)]
  {
    var ps := [Participant("a", "A"), Participant("b", "B"), Participant("c", "C")];
    var bs := [Balance("a", "A", 200), Balance("b", "B", -100), Balance("c", "C", -100)];
    ThreeWayKnown(bs, ps);
    var ds, cs := ThreeWayEntries(bs);
    ThreeWaySorted(ds, cs);
    var names := ThreeWayNames(ps);
    ThreeWayGreedy(ds, cs, names);
    assert PaymentsOf(bs, ps) == Greedy(ds, cs, names);
  }

  lemma ThreeWayKnown(bs: seq<Balance>, ps: seq<Participant>)
    requires ps == [Participant("a", "A"), Participant("b", "B"), Participant("c", "C")]
    requires bs == [Balance("a", "A", 200), Balance("b", "B", -100), Balance("c", "C", -100)]
    ensures KnownIds(bs, ps)
  {
    assert Ids(ps) == {"a", "b", "c"};
  }

  /** B and C owe 100 each; A is owed 200. */
  lemma ThreeWayEntries(bs: seq<Balance>) returns (ds: seq<Entry>, cs: seq<Entry>)
    requires bs == [Balance("a", "A", 200), Balance("b", "B", -100), Balance("c", "C", -100)]
    ensures ds == Debtors(bs) == [Entry("b", 100), Entry("c", 100)]
    ensures cs == Creditors(bs) == [Entry("a", 200)]
  {
    ds, cs := Debtors(bs), Creditors(bs);
    var last := bs[1..][1..];
    assert last == [bs[2]] && last[1..] == [];
    assert Debtors(last) == [Entry("c", 100)] && Creditors(last) == [];
    assert Creditors(bs[1..]) == [];
  }

  lemma ThreeWaySorted(ds: seq<Entry>, cs: seq<Entry>)
    requires ds == [Entry("b", 100), Entry("c", 100)] && cs == [Entry("a", 200)]
    ensures SortDesc(ds, EntryAmount) == ds && SortDesc(cs, EntryAmount) == cs
  {
    assert ds[..1][..0] == [] && ds[..2] == ds;
    assert SortDesc(ds[..1], EntryAmount) == ds[..1];
    assert InsertDesc(ds[..1], ds[1], EntryAmount) == [ds[0]] + InsertDesc([], ds[1], EntryAmount);
    assert cs[..0] == [];
  }

  lemma ThreeWayNames(ps: seq<Participant>) returns (names: map<Id, string>)
    requires ps == [Participant("a", "A"), Participant("b", "B"), Participant("c", "C")]
    ensures names == NameMap(ps) == map["a" := "A", "b" := "B", "c" := "C"]
  {
    names := NameMap(ps);
    ThreeWayIds();
    assert ps[..2][..1] == ps[..1] && ps[..1][..0] == [];
    assert NameMap(ps[..1]) == map["a" := "A"];
    assert NameMap(ps[..2]) == map["a" := "A", "b" := "B"];
  }

  lemma ThreeWayGreedy(ds: seq<Entry>, cs: seq<Entry>, names: map<Id, string>)
    requires ds == [Entry("b", 100), Entry("c", 100)] && cs == [Entry("a", 200)]
    requires names == map["a" := "A", "b" := "B", "c" := "C"]
    ensures IdsIn(ds, names) && IdsIn(cs, names)
    ensures Greedy(ds, cs, names) == [Payment("b", "B", "a", "A", 100), Payment("c", "C", "a", "A", 100)]
  {
    var cs1 := Reduce(cs, 100);
    assert cs1 == [Entry("a", 100)];
    assert Reduce(ds, 100) == [Entry("c", 100)];
    assert Reduce([Entry("c", 100)], 100) == [];
    assert Greedy([Entry("c", 100)], cs1, names) == [Payment("c", "C", "a", "A", 100)];
  }
}
