/** The storage service (services/db.ts): the portfolio summary computed
    from a list of holdings, and the two tables (funds and accounts) with
    the operations the screens perform on them, including the one-time
    seeding of the default accounts. */
module Db {

  import opened Types

  /** The three quantities `calculateSummary` accumulates per holding. */
  datatype Measure = Assets | Cost | DayGain

  /** What one holding adds to a running total. The day gain is the stored
      `dayChangeVal`, never recomputed from `dayChangePct`. */
  function Contribution(f: Fund, m: Measure): real {
    match m
    case Assets => f.holdingShares * f.currentNav
    case Cost => f.holdingShares * f.costPrice
    case DayGain => f.dayChangeVal
  }

  /** The total of one measure, accumulated front to back as the source's
      `forEach` does. */
  function Total(funds: seq<Fund>, m: Measure): real
    decreases |funds|
  {
    if funds == [] then 0.0
    else Total(funds[..|funds| - 1], m) + Contribution(funds[|funds| - 1], m)
  }

  /** The summary fields derived from the three totals, with the two
      division guards. */
  function FromTotals(totalAssets: real, totalDayGain: real, totalCost: real): AssetSummary {
    var holdingGain := totalAssets - totalCost;
    AssetSummary(
      totalAssets,
      totalDayGain,
      if totalAssets - totalDayGain > 0.0 then totalDayGain / (totalAssets - totalDayGain) * 100.0 else 0.0,
      holdingGain,
      if totalCost > 0.0 then holdingGain / totalCost * 100.0 else 0.0)
  }

  /** The summary of a list of holdings. */
  function Summary(funds: seq<Fund>): AssetSummary {
    FromTotals(Total(funds, Assets), Total(funds, DayGain), Total(funds, Cost))
  }

  /** `calculateSummary`: one pass over the list with three accumulators. */
  method CalculateSummary(funds: seq<Fund>) returns (s: AssetSummary)
    ensures s.totalAssets == Total(funds, Assets)
    ensures s.totalDayGain == Total(funds, DayGain)
    ensures s.holdingGain == Total(funds, Assets) - Total(funds, Cost)
    ensures s == Summary(funds)
  {
    var totalAssets, totalDayGain, totalCost := 0.0, 0.0, 0.0;
    for i := 0 to |funds|
      invariant totalAssets == Total(funds[..i], Assets)
      invariant totalDayGain == Total(funds[..i], DayGain)
      invariant totalCost == Total(funds[..i], Cost)
    {
      assert funds[..i + 1][..i] == funds[..i];
      var fund := funds[i];
      var assetValue := fund.holdingShares * fund.currentNav;
      var costValue := fund.holdingShares * fund.costPrice;
      var dayGain := fund.dayChangeVal;
      totalAssets := totalAssets + assetValue;
      totalDayGain := totalDayGain + dayGain;
      totalCost := totalCost + costValue;
    }
    assert funds[..|funds|] == funds;
    var holdingGain := totalAssets - totalCost;
    var holdingGainPct := if totalCost > 0.0 then holdingGain / totalCost * 100.0 else 0.0;
    var totalDayGainPct := if totalAssets - totalDayGain > 0.0
      then totalDayGain / (totalAssets - totalDayGain) * 100.0 else 0.0;
    s := AssetSummary(totalAssets, totalDayGain, totalDayGainPct, holdingGain, holdingGainPct);
  }

  /** No holdings: every field is zero, and neither division happens. */
  lemma EmptySummary()
    ensures Summary([]) == AssetSummary(0.0, 0.0, 0.0, 0.0, 0.0)
  {
  }

  /** The totals are additive over concatenation. */
  lemma {:induction false} TotalAppend(a: seq<Fund>, b: seq<Fund>, m: Measure)
    ensures Total(a + b, m) == Total(a, m) + Total(b, m)
    decreases |b|
  {
    if b != [] {
      var b' := b[..|b| - 1];
      assert (a + b)[..|a + b| - 1] == a + b';
      assert (a + b)[|a + b| - 1] == b[|b| - 1];
      TotalAppend(a, b', m);
    } else {
      assert a + b == a;
    }
  }

  lemma TotalSingle(f: Fund, m: Measure)
    ensures Total([f], m) == Contribution(f, m)
  {
    assert [f][..0] == [];
  }

  /** Taking the first element off `a` and its match at `k` off `b` keeps
      the two lists permutations of each other. */
  lemma MultisetRemove(a: seq<Fund>, b: seq<Fund>, k: int)
    requires multiset(a) == multiset(b) && a != [] && 0 <= k < |b| && b[k] == a[0]
    ensures multiset(a[1..]) == multiset(b[..k] + b[k + 1..])
  {
    var x, rest := a[0], b[..k] + b[k + 1..];
    assert a == [x] + a[1..];
    assert b == b[..k] + [x] + b[k + 1..];
    assert multiset(a) == multiset([x]) + multiset(a[1..]);
    assert multiset(b) == multiset(b[..k]) + multiset([x]) + multiset(b[k + 1..]);
    assert multiset(rest) == multiset(b[..k]) + multiset(b[k + 1..]);
    forall y ensures multiset(a[1..])[y] == multiset(rest)[y] {
      assert (multiset([x]) + multiset(a[1..]))[y] == (multiset([x]) + multiset(rest))[y];
    }
  }

  /** The totals do not depend on the order of the holdings. */
  lemma {:induction false} TotalPermutation(a: seq<Fund>, b: seq<Fund>, m: Measure)
    requires multiset(a) == multiset(b)
    ensures Total(a, m) == Total(b, m)
    decreases |a|
  {
    if a != [] {
      var x := a[0];
      assert a == [x] + a[1..];
      assert x in multiset(b);
      var k :| 0 <= k < |b| && b[k] == x;
      assert b == b[..k] + [x] + b[k + 1..];
      var rest := b[..k] + b[k + 1..];
      MultisetRemove(a, b, k);
      TotalPermutation(a[1..], rest, m);
      TotalAppend([x], a[1..], m);
      TotalAppend(b[..k] + [x], b[k + 1..], m);
      TotalAppend(b[..k], [x], m);
      TotalAppend(b[..k], b[k + 1..], m);
      TotalSingle(x, m);
    }
  }

  /** Reordering the holdings does not change the summary. */
  lemma SummaryOrderIndependent(a: seq<Fund>, b: seq<Fund>)
    requires multiset(a) == multiset(b)
    ensures Summary(a) == Summary(b)
  {
    TotalPermutation(a, b, Assets);
    TotalPermutation(a, b, DayGain);
    TotalPermutation(a, b, Cost);
  }

  /** Two lists that differ only in `dayChangePct` have the same summary:
      the day gain is taken from the stored `dayChangeVal`. */
  lemma {:induction false} SummaryIgnoresDayChangePct(a: seq<Fund>, b: seq<Fund>)
    requires |a| == |b|
    requires forall i :: 0 <= i < |a| ==> b[i] == a[i].(dayChangePct := b[i].dayChangePct)
    ensures Summary(a) == Summary(b)
  {
    TotalsIgnoreDayChangePct(a, b, Assets);
    TotalsIgnoreDayChangePct(a, b, DayGain);
    TotalsIgnoreDayChangePct(a, b, Cost);
  }

  lemma {:induction false} TotalsIgnoreDayChangePct(a: seq<Fund>, b: seq<Fund>, m: Measure)
    requires |a| == |b|
    requires forall i :: 0 <= i < |a| ==> b[i] == a[i].(dayChangePct := b[i].dayChangePct)
    ensures Total(a, m) == Total(b, m)
    decreases |a|
  {
    if a != [] {
      TotalsIgnoreDayChangePct(a[..|a| - 1], b[..|b| - 1], m);
    }
  }

  /** With a positive total cost, the holding-gain percentage has the sign
      of the holding gain. */
  lemma HoldingGainPctSign(funds: seq<Fund>)
    requires Total(funds, Cost) > 0.0
    ensures Summary(funds).holdingGainPct > 0.0 <==> Summary(funds).holdingGain > 0.0
    ensures Summary(funds).holdingGainPct < 0.0 <==> Summary(funds).holdingGain < 0.0
  {
    var c, g := Total(funds, Cost), Summary(funds).holdingGain;
    assert g / c * 100.0 > 0.0 <==> g > 0.0;
    assert g / c * 100.0 < 0.0 <==> g < 0.0;
  }

  /** The names of the accounts seeded on first run, in insertion order. */
  const DefaultNames: seq<string> := ["Default", "Alipay", "Tencent", "Bank", "Others"]

  /** The seeded accounts, keyed from `firstId` on. */
  function DefaultAccounts(firstId: int): (r: seq<Account>)
    ensures |r| == |DefaultNames|
    ensures forall i :: 0 <= i < |r| ==>
      r[i] == Account(Some(firstId + i), DefaultNames[i], true)
  {
    seq(|DefaultNames|, i requires 0 <= i < |DefaultNames| => Account(Some(firstId + i), DefaultNames[i], true))
  }

  /** Auto-increment keys: every record has a key, keys are below the next
      key to hand out, and the table lists them in increasing key order. */
  ghost predicate KeyedBelow(ids: seq<Id>, next: int) {
    (forall i :: 0 <= i < |ids| ==> ids[i].Some? && 1 <= ids[i].value < next) &&
    (forall i, j :: 0 <= i < j < |ids| ==> ids[i].value < ids[j].value)
  }

  function FundIds(funds: seq<Fund>): (r: seq<Id>)
    ensures |r| == |funds| && forall i :: 0 <= i < |funds| ==> r[i] == funds[i].id
  {
    seq(|funds|, i requires 0 <= i < |funds| => funds[i].id)
  }

  function AccountIds(accounts: seq<Account>): (r: seq<Id>)
    ensures |r| == |accounts| && forall i :: 0 <= i < |accounts| ==> r[i] == accounts[i].id
  {
    seq(|accounts|, i requires 0 <= i < |accounts| => accounts[i].id)
  }

  lemma FundIdsCons(f: Fund, funds: seq<Fund>)
    ensures FundIds([f] + funds) == [f.id] + FundIds(funds)
  {
  }

  lemma AccountIdsCons(a: Account, accounts: seq<Account>)
    ensures AccountIds([a] + accounts) == [a.id] + AccountIds(accounts)
  {
  }

  /** `table.update(id, { name })` on the accounts table. */
  function RenameAccountRecord(accounts: seq<Account>, id: int, name: string): (r: seq<Account>)
    ensures |r| == |accounts|
    ensures forall i :: 0 <= i < |r| ==>
      r[i] == if accounts[i].id == Some(id) then accounts[i].(name := name) else accounts[i]
  {
    seq(|accounts|, i requires 0 <= i < |accounts| =>
      if accounts[i].id == Some(id) then accounts[i].(name := name) else accounts[i])
  }

  /** `funds.where('platform').equals(oldName).modify({ platform: newName })`. */
  function RenamePlatform(funds: seq<Fund>, oldName: string, newName: string): (r: seq<Fund>)
    ensures |r| == |funds|
  {
    seq(|funds|, i requires 0 <= i < |funds| =>
      if funds[i].platform == oldName then funds[i].(platform := newName) else funds[i])
  }

  /** The cascade rewrites the platform of exactly the funds that named the
      old account, and no other field of any fund. */
  lemma RenamePlatformEffect(funds: seq<Fund>, oldName: string, newName: string)
    ensures forall i :: 0 <= i < |funds| ==>
      RenamePlatform(funds, oldName, newName)[i].(platform := funds[i].platform) == funds[i]
    ensures forall i :: 0 <= i < |funds| ==>
      RenamePlatform(funds, oldName, newName)[i].platform ==
        if funds[i].platform == oldName then newName else funds[i].platform
  {
  }

  /** Renaming back undoes a rename, provided no fund used the new name
      beforehand (the source makes no uniqueness check, so a rename onto an
      existing account's name merges the two groups for good). */
  lemma RenamePlatformBack(funds: seq<Fund>, oldName: string, newName: string)
    requires forall i :: 0 <= i < |funds| ==> funds[i].platform != newName
    ensures RenamePlatform(RenamePlatform(funds, oldName, newName), newName, oldName) == funds
  {
  }

  /** The merge: once two accounts' funds carry the same name, no later
      rename separates them. */
  lemma RenameOntoExistingMerges(funds: seq<Fund>, oldName: string, newName: string, i: int, j: int)
    requires 0 <= i < |funds| && 0 <= j < |funds|
    requires funds[i].platform == oldName && funds[j].platform == newName
    ensures RenamePlatform(funds, oldName, newName)[i].platform == RenamePlatform(funds, oldName, newName)[j].platform
  {
  }

  /** `table.update(id, { holdingShares, costPrice, platform })` on funds. */
  function UpdateHolding(funds: seq<Fund>, id: int, shares: real, cost: real, platform: string): (r: seq<Fund>)
    ensures |r| == |funds|
    ensures forall i :: 0 <= i < |r| ==>
      r[i] == if funds[i].id == Some(id)
        then funds[i].(holdingShares := shares, costPrice := cost, platform := platform)
        else funds[i]
  {
    seq(|funds|, i requires 0 <= i < |funds| =>
      if funds[i].id == Some(id)
      then funds[i].(holdingShares := shares, costPrice := cost, platform := platform)
      else funds[i])
  }

  /** `table.delete(id)` on either table: the records whose key is `id`. */
  function WithoutFund(funds: seq<Fund>, id: int): (r: seq<Fund>)
    ensures forall f :: f in r <==> f in funds && f.id != Some(id)
    ensures multiset(r) <= multiset(funds)
    decreases |funds|
  {
    if funds == [] then []
    else
      assert funds == [funds[0]] + funds[1..];
      (if funds[0].id == Some(id) then [] else [funds[0]]) + WithoutFund(funds[1..], id)
  }

  function WithoutAccount(accounts: seq<Account>, id: int): (r: seq<Account>)
    ensures forall a :: a in r <==> a in accounts && a.id != Some(id)
    ensures multiset(r) <= multiset(accounts)
    decreases |accounts|
  {
    if accounts == [] then []
    else
      assert accounts == [accounts[0]] + accounts[1..];
      (if accounts[0].id == Some(id) then [] else [accounts[0]]) + WithoutAccount(accounts[1..], id)
  }

  /** The browser database: two tables kept as sequences in key order, and
      the auto-increment counters that hand out their keys. */
  class Database {
    var funds: seq<Fund>
    var accounts: seq<Account>
    var nextFundId: int
    var nextAccountId: int

    ghost predicate Valid()
      reads this
    {
      nextFundId >= 1 && nextAccountId >= 1 &&
      KeyedBelow(FundIds(funds), nextFundId) && KeyedBelow(AccountIds(accounts), nextAccountId)
    }

    /** A fresh, empty database. */
    constructor ()
      ensures Valid()
      ensures funds == [] && accounts == []
    {
      funds := [];
      accounts := [];
      nextFundId := 1;
      nextAccountId := 1;
    }

    /** `initDB`: seeds the five default accounts when, and only when, the
        accounts table is empty; funds are never seeded. */
    method InitDB()
      requires Valid()
      modifies this
      ensures Valid()
      ensures funds == old(funds) && nextFundId == old(nextFundId)
      ensures (accounts, nextAccountId) == Seed(old(accounts), old(nextAccountId))
    {
      if |accounts| == 0 {
        accounts := DefaultAccounts(nextAccountId);
        nextAccountId := nextAccountId + |DefaultNames|;
      }
    }

    /** `accounts.add(account)`: the new record gets the next key. */
    method AddAccount(name: string, isDefault: bool) returns (id: int)
      requires Valid()
      modifies this
      ensures Valid()
      ensures id == old(nextAccountId) && nextAccountId == id + 1
      ensures accounts == old(accounts) + [Account(Some(id), name, isDefault)]
      ensures funds == old(funds) && nextFundId == old(nextFundId)
    {
      id := nextAccountId;
      accounts := accounts + [Account(Some(id), name, isDefault)];
      nextAccountId := nextAccountId + 1;
    }

    /** `accounts.delete(id)`: the funds table is not touched. */
    method DeleteAccount(id: int)
      requires Valid()
      modifies this`accounts
      ensures Valid()
      ensures accounts == WithoutAccount(old(accounts), id)
    {
      accounts := WithoutAccount(accounts, id);
      WithoutAccountKeyed(old(accounts), id, nextAccountId);
    }

    /** The rename transaction: the account record gets the new name and
        every fund on the old platform moves to it, in one atomic step. */
    method RenameAccount(id: int, oldName: string, newName: string)
      requires Valid()
      modifies this`accounts, this`funds
      ensures Valid()
      ensures accounts == RenameAccountRecord(old(accounts), id, newName)
      ensures funds == RenamePlatform(old(funds), oldName, newName)
    {
      accounts := RenameAccountRecord(accounts, id, newName);
      funds := RenamePlatform(funds, oldName, newName);
    }

    /** `funds.add(fund)`: the new record gets the next key. */
    method AddFund(f: Fund) returns (id: int)
      requires Valid()
      modifies this
      ensures Valid()
      ensures id == old(nextFundId) && nextFundId == id + 1
      ensures funds == old(funds) + [f.(id := Some(id))]
      ensures accounts == old(accounts) && nextAccountId == old(nextAccountId)
    {
      id := nextFundId;
      funds := funds + [f.(id := Some(id))];
      nextFundId := nextFundId + 1;
    }

    /** `funds.update(id, { holdingShares, costPrice, platform })`. */
    method UpdateFund(id: int, shares: real, cost: real, platform: string)
      requires Valid()
      modifies this`funds
      ensures Valid()
      ensures funds == UpdateHolding(old(funds), id, shares, cost, platform)
    {
      funds := UpdateHolding(funds, id, shares, cost, platform);
    }

    /** `funds.delete(id)`. */
    method DeleteFund(id: int)
      requires Valid()
      modifies this`funds
      ensures Valid()
      ensures funds == WithoutFund(old(funds), id)
    {
      funds := WithoutFund(funds, id);
      WithoutFundKeyed(old(funds), id, nextFundId);
    }
  }

  lemma KeyedTail(ids: seq<Id>, next: int)
    requires KeyedBelow(ids, next) && ids != []
    ensures KeyedBelow(ids[1..], next)
  {
    forall i, j | 0 <= i < j < |ids[1..]|
      ensures ids[1..][i].value < ids[1..][j].value
    {
      assert ids[1..][i] == ids[i + 1] && ids[1..][j] == ids[j + 1];
    }
  }

  /** Putting a smaller key in front keeps the keys ascending. */
  lemma KeyedCons(x: Id, ids: seq<Id>, next: int)
    requires KeyedBelow(ids, next) && x.Some? && 1 <= x.value < next
    requires forall i :: 0 <= i < |ids| ==> x.value < ids[i].value
    ensures KeyedBelow([x] + ids, next)
  {
    var r := [x] + ids;
    forall i, j | 0 <= i < j < |r|
      ensures r[i].value < r[j].value
    {
      assert r[j] == ids[j - 1];
      if i > 0 { assert r[i] == ids[i - 1]; }
    }
  }

  /** What survives the deletion in the tail keeps a larger key than the head. */
  lemma WithoutFundAbove(funds: seq<Fund>, id: int, next: int)
    requires KeyedBelow(FundIds(funds), next) && funds != []
    ensures forall i :: 0 <= i < |WithoutFund(funds[1..], id)| ==>
      funds[0].id.value < FundIds(WithoutFund(funds[1..], id))[i].value
  {
    var tail := WithoutFund(funds[1..], id);
    forall i | 0 <= i < |tail|
      ensures funds[0].id.value < FundIds(tail)[i].value
    {
      assert tail[i] in funds[1..];
      var k :| 0 <= k < |funds[1..]| && funds[1..][k] == tail[i];
      assert FundIds(funds)[k + 1] == tail[i].id;
    }
  }

  /** The step of the induction below where the first record survives. */
  lemma WithoutFundKeepsHead(funds: seq<Fund>, id: int, next: int)
    requires funds != [] && funds[0].id != Some(id)
    requires KeyedBelow(FundIds(funds), next)
    requires KeyedBelow(FundIds(WithoutFund(funds[1..], id)), next)
    ensures KeyedBelow(FundIds(WithoutFund(funds, id)), next)
  {
    var tail := WithoutFund(funds[1..], id);
    var x := funds[0].id;
    assert x.Some? && 1 <= x.value < next by {
      assert FundIds(funds)[0] == x;
    }
    assert KeyedBelow([x] + FundIds(tail), next) by {
      WithoutFundAbove(funds, id, next);
      KeyedCons(x, FundIds(tail), next);
    }
    assert WithoutFund(funds, id) == [funds[0]] + tail;
    FundIdsCons(funds[0], tail);
  }

  lemma {:induction false} WithoutFundKeyed(funds: seq<Fund>, id: int, next: int)
    requires KeyedBelow(FundIds(funds), next)
    ensures KeyedBelow(FundIds(WithoutFund(funds, id)), next)
    decreases |funds|
  {
    if funds != [] {
      var tail := WithoutFund(funds[1..], id);
      assert KeyedBelow(FundIds(funds[1..]), next) by {
        assert FundIds(funds[1..]) == FundIds(funds)[1..];
        KeyedTail(FundIds(funds), next);
      }
      WithoutFundKeyed(funds[1..], id, next);
      if funds[0].id != Some(id) {
        WithoutFundKeepsHead(funds, id, next);
      } else {
        assert WithoutFund(funds, id) == tail;
      }
    }
  }

  /** What survives the deletion in the tail keeps a larger key than the head. */
  lemma WithoutAccountAbove(accounts: seq<Account>, id: int, next: int)
    requires KeyedBelow(AccountIds(accounts), next) && accounts != []
    ensures forall i :: 0 <= i < |WithoutAccount(accounts[1..], id)| ==>
      accounts[0].id.value < AccountIds(WithoutAccount(accounts[1..], id))[i].value
  {
    var tail := WithoutAccount(accounts[1..], id);
    forall i | 0 <= i < |tail|
      ensures accounts[0].id.value < AccountIds(tail)[i].value
    {
      assert tail[i] in accounts[1..];
      var k :| 0 <= k < |accounts[1..]| && accounts[1..][k] == tail[i];
      assert AccountIds(accounts)[k + 1] == tail[i].id;
    }
  }

  /** The step of the induction below where the first record survives. */
  lemma WithoutAccountKeepsHead(accounts: seq<Account>, id: int, next: int)
    requires accounts != [] && accounts[0].id != Some(id)
    requires KeyedBelow(AccountIds(accounts), next)
    requires KeyedBelow(AccountIds(WithoutAccount(accounts[1..], id)), next)
    ensures KeyedBelow(AccountIds(WithoutAccount(accounts, id)), next)
  {
    var tail := WithoutAccount(accounts[1..], id);
    var x := accounts[0].id;
    assert x.Some? && 1 <= x.value < next by {
      assert AccountIds(accounts)[0] == x;
    }
    assert KeyedBelow([x] + AccountIds(tail), next) by {
      WithoutAccountAbove(accounts, id, next);
      KeyedCons(x, AccountIds(tail), next);
    }
    assert WithoutAccount(accounts, id) == [accounts[0]] + tail;
    AccountIdsCons(accounts[0], tail);
  }

  lemma {:induction false} WithoutAccountKeyed(accounts: seq<Account>, id: int, next: int)
    requires KeyedBelow(AccountIds(accounts), next)
    ensures KeyedBelow(AccountIds(WithoutAccount(accounts, id)), next)
    decreases |accounts|
  {
    if accounts != [] {
      var tail := WithoutAccount(accounts[1..], id);
      assert KeyedBelow(AccountIds(accounts[1..]), next) by {
        assert AccountIds(accounts[1..]) == AccountIds(accounts)[1..];
        KeyedTail(AccountIds(accounts), next);
      }
      WithoutAccountKeyed(accounts[1..], id, next);
      if accounts[0].id != Some(id) {
        WithoutAccountKeepsHead(accounts, id, next);
      } else {
        assert WithoutAccount(accounts, id) == tail;
      }
    }
  }

  /** What `initDB` makes of the accounts table and its key counter. */
  function Seed(accounts: seq<Account>, next: int): (r: (seq<Account>, int))
    ensures accounts != [] ==> r == (accounts, next)
    ensures accounts == [] ==> (r.1 == next + 5 && |r.0| == 5 &&
      forall i :: 0 <= i < 5 ==> r.0[i].name == DefaultNames[i] && r.0[i].isDefault && r.0[i].id == Some(next + i))
  {
    if accounts == [] then (DefaultAccounts(next), next + |DefaultNames|) else (accounts, next)
  }

  /** Seeding twice leaves the tables as seeding once does: the second run
      finds the accounts table non-empty. */
  lemma SeedingIdempotent(accounts: seq<Account>, next: int)
    ensures Seed(Seed(accounts, next).0, Seed(accounts, next).1) == Seed(accounts, next)
  {
  }
}
