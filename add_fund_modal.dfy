/** The add / edit holding form (components/AddFundModal.tsx): the form
    state, its initialisation when the form opens, the selection of a
    search hit, and the save that derives shares and unit cost from the two
    amounts the user types and then updates or adds a record. */
module AddFundModal {

  import opened Types
  import Db
  import Text
  import Calendar
  import FinanceUtils

  /** What the form is filled in for: a search hit, or the record being
      edited. */
  datatype Selection = Searched(hit: MorningstarFund) | Existing(fund: Fund)

  /** The name and code the form shows for its selection. */
  datatype Info = Info(name: string, code: string)

  /** `displayInfo`: a search hit shows `fundNameArr || fundName` and its
      symbol; a stored record shows its own name and code. */
  function DisplayInfo(selected: Option<Selection>): (r: Info)
    ensures selected.None? ==> r == Info("", "")
    ensures selected.Some? && selected.value.Existing? ==>
      r == Info(selected.value.fund.name, selected.value.fund.code)
    ensures selected.Some? && selected.value.Searched? ==>
      r.code == selected.value.hit.symbol &&
      (selected.value.hit.fundNameArr != "" ==> r.name == selected.value.hit.fundNameArr) &&
      (selected.value.hit.fundNameArr == "" ==> r.name == selected.value.hit.fundName)
  {
    match selected
    case None => Info("", "")
    case Some(Searched(hit)) =>
      Info(if hit.fundNameArr != "" then hit.fundNameArr else hit.fundName, hit.symbol)
    case Some(Existing(f)) => Info(f.name, f.code)
  }

  /** Shares and unit cost as the save derives them. */
  datatype Holding = Holding(shares: real, cost: real)

  /** `parseFloat(gain)` with NaN (an empty or unparsable gain) read as 0. */
  function EffectiveGain(parsed: Option<real>): real {
    if parsed.None? then 0.0 else parsed.value
  }

  /** shares = amount / nav; cost = (amount - gain) / shares, with the
      source's fallback of 0 when shares is not positive. */
  function DeriveHolding(amount: real, gain: real, nav: real): (h: Holding)
    requires nav > 0.0
    ensures amount > 0.0 ==> h.shares > 0.0 && h.shares * nav == amount
    ensures amount > 0.0 ==> h.shares * h.cost == amount - gain
  {
    var shares := amount / nav;
    var totalCost := amount - gain;
    var h := Holding(shares, if shares > 0.0 then totalCost / shares else 0.0);
    if amount > 0.0 then
      assert shares > 0.0 && shares * nav == amount;
      assert h.shares * h.cost == totalCost;
      h
    else h
  }

  /** Amount and gain the form shows when a record is opened for editing:
      amount = shares * nav, gain = amount - shares * cost. */
  function EditAmounts(shares: real, cost: real, nav: real): (r: (real, real))
    ensures r.0 == shares * nav
    ensures r.0 - r.1 == shares * cost
  {
    var amount := shares * nav;
    (amount, amount - shares * cost)
  }

  /** Saving an amount and a gain and opening the record again shows the
      same two numbers (before the two-decimal rendering). */
  lemma SaveThenReopen(amount: real, gain: real, nav: real)
    requires amount > 0.0 && nav > 0.0
    ensures EditAmounts(DeriveHolding(amount, gain, nav).shares, DeriveHolding(amount, gain, nav).cost, nav)
      == (amount, gain)
  {
    var h := DeriveHolding(amount, gain, nav);
    assert h.shares * nav == amount;
    assert h.shares * h.cost == amount - gain;
  }

  /** Opening a record with positive shares and saving the shown amounts
      unchanged writes back the same shares and unit cost. */
  lemma ReopenThenSave(shares: real, cost: real, nav: real)
    requires shares > 0.0 && nav > 0.0
    ensures DeriveHolding(EditAmounts(shares, cost, nav).0, EditAmounts(shares, cost, nav).1, nav)
      == Holding(shares, cost)
  {
    var (amount, gain) := EditAmounts(shares, cost, nav);
    assert amount == shares * nav;
    MulPositive(shares, nav);
    var h := DeriveHolding(amount, gain, nav);
    assert h.shares == shares by {
      assert h.shares * nav == shares * nav;
      CancelRight(h.shares, shares, nav);
    }
    assert h.cost == cost by {
      assert shares * h.cost == shares * cost;
      CancelLeft(shares, h.cost, cost);
    }
  }

  lemma MulPositive(a: real, b: real)
    requires a > 0.0 && b > 0.0
    ensures a * b > 0.0
  {
  }

  lemma CancelRight(a: real, b: real, c: real)
    requires c != 0.0 && a * c == b * c
    ensures a == b
  {
    assert (a - b) * c == 0.0;
  }

  lemma CancelLeft(c: real, a: real, b: real)
    requires c != 0.0 && c * a == c * b
    ensures a == b
  {
    assert c * (a - b) == 0.0;
  }

  /** The record the add path writes: the code is the hit's `symbol` (or
      the record's `code`), the name `fundNameArr || fundName` (or the
      record's name), and the day change is the per-unit figure
      `nav * pct / 100`. */
  function NewRecord(sel: Selection, platform: string, h: Holding, nav: real, today: string, pct: real): (f: Fund)
    ensures f.id == None
    ensures f.code == DisplayInfo(Some(sel)).code && f.name == DisplayInfo(Some(sel)).name
    ensures f.platform == platform && f.holdingShares == h.shares && f.costPrice == h.cost
    ensures f.currentNav == nav && f.lastUpdate == today
    ensures f.dayChangePct == pct && f.dayChangeVal * 100.0 == nav * pct
  {
    var code := if sel.Searched? then sel.hit.symbol else sel.fund.code;
    var name := if sel.Searched? then (if sel.hit.fundNameArr != "" then sel.hit.fundNameArr else sel.hit.fundName)
      else sel.fund.name;
    Fund(None, code, name, platform, h.shares, h.cost, nav, today, pct, nav * (pct / 100.0))
  }

  /** The record added carries the name and code the form displayed. */
  lemma SavedRecordMatchesDisplay(sel: Selection, platform: string, h: Holding, nav: real, today: string, pct: real)
    ensures DisplayInfo(Some(sel)) ==
      Info(NewRecord(sel, platform, h, nav, today, pct).name, NewRecord(sel, platform, h, nav, today, pct).code)
  {
  }

  /** The day gain the summary counts for an added holding is
      `nav * pct / 100` whatever amount was entered: the stored figure is
      per unit, but the summary adds it as an absolute gain. */
  lemma AddedDayGainIgnoresAmount(sel: Selection, platform: string, a1: real, a2: real, gain: real,
                                  nav: real, today: string, pct: real)
    requires nav > 0.0
    ensures Db.Contribution(NewRecord(sel, platform, DeriveHolding(a1, gain, nav), nav, today, pct), Db.DayGain)
      == Db.Contribution(NewRecord(sel, platform, DeriveHolding(a2, gain, nav), nav, today, pct), Db.DayGain)
      == nav * pct / 100.0
  {
  }

  /** The neutral colour of the gain input. */
  const Neutral := "text-gray-900"

  /** `getGainColor`: empty is neutral, a lone minus sign is already green,
      then red for a positive number, green for a negative one, neutral for
      zero and for text that does not parse. */
  function GainColor(val: string, parse: string -> Option<real>): (r: string)
    ensures r == FinanceUtils.Red <==> val != "" && val != "-" && parse(val).Some? && parse(val).value > 0.0
    ensures r == FinanceUtils.Green <==>
      val == "-" || (val != "" && parse(val).Some? && parse(val).value < 0.0)
    ensures r == Neutral <==>
      val == "" || (val != "-" && (parse(val).None? || parse(val).value == 0.0))
  {
    if val == "" then Neutral
    else if val == "-" then FinanceUtils.Green
    else match parse(val)
      case None => Neutral
      case Some(x) => if x > 0.0 then FinanceUtils.Red else if x < 0.0 then FinanceUtils.Green else Neutral
  }

  /** For a non-zero number the gain input takes the colour the rest of the
      app gives that sign; at zero it stays in the input's own dark grey
      rather than the app's lighter grey. */
  lemma GainColorAgreesWithSign(val: string, parse: string -> Option<real>, x: real)
    requires val != "" && val != "-" && parse(val) == Some(x)
    ensures x != 0.0 ==> GainColor(val, parse) == FinanceUtils.SignColor(x)
    ensures x == 0.0 ==> GainColor(val, parse) == Neutral && FinanceUtils.SignColor(x) == FinanceUtils.Gray
  {
  }

  /** Why a save was refused: no selection, a non-positive NAV ("Invalid
      NAV"), or an amount that is not a positive number. */
  datatype Rejection = NoSelection | InvalidNav | InvalidAmount

  datatype SaveOutcome = Rejected(reason: Rejection) | Updated(id: int) | Added(id: int)

  /** The checks `handleSave` makes before writing, in its order. */
  function Check(selected: Option<Selection>, nav: real, amount: Option<real>): (r: Option<Rejection>)
    ensures r.None? <==> selected.Some? && nav > 0.0 && amount.Some? && amount.value > 0.0
  {
    if selected.None? then Some(NoSelection)
    else if nav <= 0.0 then Some(InvalidNav)
    else if amount.None? || amount.value <= 0.0 then Some(InvalidAmount)
    else None
  }

  class AddFundForm {
    var query: string
    var results: seq<MorningstarFund>
    var selected: Option<Selection>
    var currentNav: real
    var amount: string
    var gain: string
    var selectedAccount: string
    var error: string

    /** The state of a closed form after `handleClose`; the account
        choice is kept. */
    predicate Cleared()
      reads this
    {
      query == "" && results == [] && selected.None? && currentNav == 0.0 &&
      amount == "" && gain == "" && error == ""
    }

    constructor()
      ensures Cleared() && selectedAccount == "Default"
    {
      query, results, selected, currentNav := "", [], None, 0.0;
      amount, gain, selectedAccount, error := "", "", "Default", "";
    }

    /** The open effect: editing fills the form from the record (amounts
        rendered by `fixed2`, the two-decimal `toFixed`); adding resets it.
        The error is cleared either way. */
    method Open(editFund: Option<Fund>, fixed2: real -> string)
      modifies this
      ensures error == ""
      ensures editFund.Some? ==>
        var f := editFund.value;
        var shown := EditAmounts(f.holdingShares, f.costPrice, f.currentNav);
        selected == Some(Existing(f)) && currentNav == f.currentNav &&
        amount == fixed2(shown.0) && gain == fixed2(shown.1) && selectedAccount == f.platform &&
        query == old(query) && results == old(results)
      ensures editFund.None? ==> Cleared() && selectedAccount == "Default"
    {
      if editFund.Some? {
        var f := editFund.value;
        selected := Some(Existing(f));
        currentNav := f.currentNav;
        var initialAmount := f.holdingShares * f.currentNav;
        var initialGain := initialAmount - f.holdingShares * f.costPrice;
        assert (initialAmount, initialGain) == EditAmounts(f.holdingShares, f.costPrice, f.currentNav);
        amount := fixed2(initialAmount);
        gain := fixed2(initialGain);
        selectedAccount := f.platform;
      } else {
        query, results, selected, currentNav := "", [], None, 0.0;
        amount, gain, selectedAccount := "", "", "Default";
      }
      error := "";
    }

    /** `handleSelect`: the hit becomes the selection and its NAV is the
        mock value drawn by the caller. */
    method HandleSelect(hit: MorningstarFund, mockNav: real)
      modifies this`selected, this`currentNav
      ensures selected == Some(Searched(hit)) && currentNav == mockNav
    {
      selected := Some(Searched(hit));
      currentNav := mockNav;
    }

    /** `handleClose`: every field but the account choice is cleared. */
    method HandleClose()
      modifies this
      ensures Cleared() && selectedAccount == old(selectedAccount)
    {
      query, results, selected, currentNav := "", [], None, 0.0;
      amount, gain, error := "", "", "";
    }

    /** `handleSave`. A rejected save writes nothing and leaves the form as
        it is. Otherwise the holding is derived from the amount and gain;
        a record being edited that has a key is updated (shares, cost and
        platform only), anything else is added as a new record dated
        `now`'s calendar day; then the form is closed. */
    method HandleSave(db: Db.Database, editFund: Option<Fund>, parse: string -> Option<real>,
                      mockChangePct: real, now: Calendar.CalDate) returns (outcome: SaveOutcome)
      requires db.Valid() && Calendar.Valid(now)
      modifies this, db
      ensures db.Valid()
      ensures var rejection := Check(old(selected), old(currentNav), parse(old(amount)));
        (rejection.Some? <==> outcome.Rejected?) &&
        (rejection.Some? ==> outcome.reason == rejection.value && unchanged(this) && unchanged(db))
      ensures !outcome.Rejected? ==>
        var h := DeriveHolding(parse(old(amount)).value, EffectiveGain(parse(old(gain))), old(currentNav));
        Cleared() && selectedAccount == old(selectedAccount) &&
        db.accounts == old(db.accounts) && db.nextAccountId == old(db.nextAccountId) &&
        (outcome.Updated? <==> editFund.Some? && HasId(editFund.value.id)) &&
        (outcome.Updated? ==>
          outcome.id == editFund.value.id.value &&
          db.funds == Db.UpdateHolding(old(db.funds), outcome.id, h.shares, h.cost, old(selectedAccount)) &&
          db.nextFundId == old(db.nextFundId)) &&
        (outcome.Added? ==>
          outcome.id == old(db.nextFundId) && db.nextFundId == outcome.id + 1 &&
          db.funds == old(db.funds) + [NewRecord(old(selected).value, old(selectedAccount), h, old(currentNav),
                                                 Calendar.IsoDate(now), mockChangePct).(id := Some(outcome.id))])
    {
      if selected.None? {
        return Rejected(NoSelection);
      }
      if currentNav <= 0.0 {
        return Rejected(InvalidNav);
      }
      var valAmount := parse(amount);
      var valGain := parse(gain);
      if valAmount.None? || valAmount.value <= 0.0 {
        return Rejected(InvalidAmount);
      }
      var h := DeriveHolding(valAmount.value, EffectiveGain(valGain), currentNav);
      if editFund.Some? && HasId(editFund.value.id) {
        db.UpdateFund(editFund.value.id.value, h.shares, h.cost, selectedAccount);
        outcome := Updated(editFund.value.id.value);
      } else {
        Calendar.IsoStringDatePart(now);
        var today := Text.Split(Calendar.IsoString(now), 'T')[0];
        var id := db.AddFund(NewRecord(selected.value, selectedAccount, h, currentNav, today, mockChangePct));
        outcome := Added(id);
      }
      HandleClose();
    }
  }
}
