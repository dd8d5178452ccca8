/** The holdings screen (components/Dashboard.tsx): the platform filter and
    the list of filters offered, the summary over the filtered holdings,
    the per-row metrics, the translated labels with their fallback, and
    the screen state changed by the row, menu and button handlers. */
module Dashboard {

  import opened Types
  import opened Db
  import I18n
  import Text

  const AllFilter := "All"

  // ---------------------------------------------------------------------
  // Filtering

  /** The holdings on platform `p`, in their original order. */
  function OnPlatform(funds: seq<Fund>, p: string): seq<Fund>
    decreases |funds|
  {
    if funds == [] then []
    else (if funds[0].platform == p then [funds[0]] else []) + OnPlatform(funds[1..], p)
  }

  /** The holdings shown under a filter: all of them under `'All'`, else
      those whose platform is the filter. */
  function FilterFunds(funds: seq<Fund>, activeFilter: string): seq<Fund> {
    if activeFilter == AllFilter then funds else OnPlatform(funds, activeFilter)
  }

  /** A holding is kept exactly when it is on the platform. */
  lemma {:induction false} OnPlatformMembers(funds: seq<Fund>, p: string)
    ensures forall f :: f in OnPlatform(funds, p) <==> f in funds && f.platform == p
    decreases |funds|
  {
    if funds != [] {
      OnPlatformMembers(funds[1..], p);
      assert funds == [funds[0]] + funds[1..];
    }
  }

  /** Filtering commutes with concatenation, so the kept holdings stay in
      their original order. */
  lemma {:induction false} OnPlatformAppend(a: seq<Fund>, b: seq<Fund>, p: string)
    ensures OnPlatform(a + b, p) == OnPlatform(a, p) + OnPlatform(b, p)
    decreases |a|
  {
    if a == [] {
      assert a + b == b;
    } else {
      var head := if a[0].platform == p then [a[0]] else [];
      assert (a + b)[0] == a[0];
      assert (a + b)[1..] == a[1..] + b;
      OnPlatformAppend(a[1..], b, p);
      calc {
        OnPlatform(a + b, p);
        head + OnPlatform(a[1..] + b, p);
        head + (OnPlatform(a[1..], p) + OnPlatform(b, p));
        (head + OnPlatform(a[1..], p)) + OnPlatform(b, p);
        OnPlatform(a, p) + OnPlatform(b, p);
      }
    }
  }

  /** `'All'` keeps every holding; any other filter keeps exactly the
      holdings on that platform. */
  lemma FilterFundsSpec(funds: seq<Fund>, activeFilter: string)
    ensures activeFilter == AllFilter ==> FilterFunds(funds, activeFilter) == funds
    ensures activeFilter != AllFilter ==>
      forall f :: f in FilterFunds(funds, activeFilter) <==> f in funds && f.platform == activeFilter
  {
    OnPlatformMembers(funds, activeFilter);
  }

  /** The summary the screen shows: computed over the filtered holdings
      only. */
  method ShownSummary(funds: seq<Fund>, activeFilter: string) returns (s: AssetSummary)
    ensures s == Summary(FilterFunds(funds, activeFilter))
  {
    var filteredFunds := if activeFilter == AllFilter then funds else OnPlatform(funds, activeFilter);
    s := CalculateSummary(filteredFunds);
  }

  function Names(accounts: seq<Account>): (r: seq<string>)
    ensures |r| == |accounts| && forall i :: 0 <= i < |r| ==> r[i] == accounts[i].name
  {
    seq(|accounts|, i requires 0 <= i < |accounts| => accounts[i].name)
  }

  /** `filterList`: `'All'` then the account names when there are two or
      more accounts, otherwise just the names. */
  function FilterList(accounts: seq<Account>): (r: seq<string>)
    ensures |accounts| > 1 ==> r == [AllFilter] + Names(accounts)
    ensures |accounts| <= 1 ==> r == Names(accounts)
  {
    if |accounts| > 1 then [AllFilter] + Names(accounts) else Names(accounts)
  }

  /** When every holding's platform is an account name, each holding is
      shown under some filter the screen offers. */
  lemma FilterListReachesEveryFund(funds: seq<Fund>, accounts: seq<Account>, f: Fund)
    requires f in funds
    requires exists j :: 0 <= j < |accounts| && accounts[j].name == f.platform
    ensures exists k :: k in FilterList(accounts) && f in FilterFunds(funds, k)
  {
    var j :| 0 <= j < |accounts| && accounts[j].name == f.platform;
    OnPlatformMembers(funds, f.platform);
    if |accounts| > 1 {
      assert AllFilter in FilterList(accounts) && f in FilterFunds(funds, AllFilter);
    } else {
      assert FilterList(accounts)[j] == f.platform;
      assert f in FilterFunds(funds, f.platform);
    }
  }

  // ---------------------------------------------------------------------
  // Row metrics

  datatype RowMetrics = RowMetrics(holdingValue: real, totalCost: real, totalReturn: real, totalReturnPct: real)

  /** The figures shown on one row. Unlike the summary, the percentage is
      guarded by `totalCost !== 0`. */
  function Row(f: Fund): (r: RowMetrics)
    ensures r.totalReturn == r.holdingValue - r.totalCost
    ensures r.totalReturnPct == 0.0 <==> r.totalCost == 0.0 || r.totalReturn == 0.0
    ensures r.totalCost != 0.0 ==> r.totalReturnPct * r.totalCost == r.totalReturn * 100.0
  {
    var holdingValue := f.holdingShares * f.currentNav;
    var totalCost := f.holdingShares * f.costPrice;
    var totalReturn := holdingValue - totalCost;
    var totalReturnPct := if totalCost != 0.0 then (totalReturn / totalCost) * 100.0 else 0.0;
    RowMetrics(holdingValue, totalCost, totalReturn, totalReturnPct)
  }

  /** A row shows the same value, return and (for a positive cost) the same
      percentage as the summary of that holding alone. */
  lemma RowAgreesWithSummary(f: Fund)
    ensures Row(f).holdingValue == Summary([f]).totalAssets
    ensures Row(f).totalReturn == Summary([f]).holdingGain
    ensures Row(f).totalCost > 0.0 ==> Row(f).totalReturnPct == Summary([f]).holdingGainPct
  {
    TotalSingle(f, Assets);
    TotalSingle(f, Cost);
    TotalSingle(f, DayGain);
  }

  /** The two guards differ on a negative cost: the row shows a percentage
      where the summary of the same holding shows 0. */
  lemma RowAndSummaryGuardsDiffer()
    ensures var f := Fund(Some(1), "000001", "F", "Default", 1.0, -1.0, 1.0, "", 0.0, 0.0);
      Row(f).totalReturnPct == -200.0 && Summary([f]).holdingGainPct == 0.0
  {
    var f := Fund(Some(1), "000001", "F", "Default", 1.0, -1.0, 1.0, "", 0.0, 0.0);
    TotalSingle(f, Assets);
    TotalSingle(f, Cost);
  }

  // ---------------------------------------------------------------------
  // Labels

  /** The built-in filter names of a language. */
  function FilterTexts(lang: I18n.Language): map<string, I18n.Tree> {
    if lang == I18n.En then I18n.EnFilters else I18n.ZhFilters
  }

  /** The label of a filter or platform name: its translation under
      `filters.`, or the name itself when `t` returns the path unchanged. */
  function DisplayLabel(lang: I18n.Language, key: string): string {
    var path := "filters." + key;
    match I18n.Translate(lang, path, None)
    case Leaf(s) => if s == path then key else s
    case Node(_) => key
  }

  lemma FilterTextsAreTexts(lang: I18n.Language)
    ensures I18n.AllTexts(FilterTexts(lang))
    ensures forall k :: k in FilterTexts(lang) ==> |FilterTexts(lang)[k].text| < 8
    ensures forall k :: k in FilterTexts(lang) ==> forall i :: 0 <= i < |k| ==> k[i] != '.'
  {
    I18n.EnFiltersTexts();
    I18n.ZhFiltersTexts();
  }

  lemma FilterPathSplit(key: string)
    ensures Text.Split("filters." + key, '.') == ["filters"] + Text.Split(key, '.')
  {
    assert "filters." + key == "filters" + ['.'] + key;
    Text.SplitCons("filters", '.', key);
  }

  /** In a dictionary whose `filters` section holds only strings under
      dot-free names, the walk for `filters.<key>` succeeds exactly for a
      name of that section. */
  lemma FilterPathIn(c: map<string, I18n.Tree>, f: map<string, I18n.Tree>, key: string)
    requires I18n.AllTexts(f)
    requires forall k :: k in f ==> forall i :: 0 <= i < |k| ==> k[i] != '.'
    ensures I18n.Resolve(I18n.Sections(c, f), Text.Split("filters." + key, '.')) ==
      if key in f then Some(f[key]) else None
  {
    FilterPathSplit(key);
    var keys := Text.Split(key, '.');
    I18n.FilterResolution(c, f, keys);
    if key in f {
      Text.SplitNone(key, '.');
    } else if |keys| == 1 {
      Text.SplitJoin(key, '.');
    }
  }

  /** The walk for `filters.<key>` succeeds exactly for a built-in name. */
  lemma FilterPathResolution(lang: I18n.Language, key: string)
    ensures I18n.Resolve(I18n.Dictionary(lang), Text.Split("filters." + key, '.')) ==
      if key in FilterTexts(lang) then Some(FilterTexts(lang)[key]) else None
  {
    if lang == I18n.En {
      FilterPathEn(key);
    } else {
      FilterPathZh(key);
    }
  }

  lemma FilterPathEn(key: string)
    ensures I18n.Resolve(I18n.Sections(I18n.EnCommon, I18n.EnFilters), Text.Split("filters." + key, '.')) ==
      if key in I18n.EnFilters then Some(I18n.EnFilters[key]) else None
  {
    FilterTextsAreTexts(I18n.En);
    FilterPathIn(I18n.EnCommon, I18n.EnFilters, key);
  }

  lemma FilterPathZh(key: string)
    ensures I18n.Resolve(I18n.Sections(I18n.ZhCommon, I18n.ZhFilters), Text.Split("filters." + key, '.')) ==
      if key in I18n.ZhFilters then Some(I18n.ZhFilters[key]) else None
  {
    FilterTextsAreTexts(I18n.Zh);
    FilterPathIn(I18n.ZhCommon, I18n.ZhFilters, key);
  }

  /** `t('filters.<key>')`: the built-in text, or the path itself. */
  lemma FilterTranslation(lang: I18n.Language, key: string)
    ensures I18n.Translate(lang, "filters." + key, None) ==
      if key in FilterTexts(lang) then FilterTexts(lang)[key] else I18n.Leaf("filters." + key)
  {
    FilterPathResolution(lang, key);
  }

  lemma ShortText(lang: I18n.Language, key: string)
    requires key in FilterTexts(lang)
    ensures FilterTexts(lang)[key].Leaf? && |FilterTexts(lang)[key].text| < 8
  {
    FilterTextsAreTexts(lang);
  }

  lemma LabelOfText(lang: I18n.Language, key: string, t: I18n.Tree)
    requires I18n.Translate(lang, "filters." + key, None) == t
    requires t.Leaf? && |t.text| < 8
    ensures DisplayLabel(lang, key) == t.text
  {
    assert |t.text| < |"filters." + key|;
  }

  /** A built-in name is shown translated. */
  lemma BuiltInLabel(lang: I18n.Language, key: string)
    requires key in FilterTexts(lang)
    ensures I18n.Leaf(DisplayLabel(lang, key)) == FilterTexts(lang)[key]
  {
    var t := FilterTexts(lang)[key];
    FilterTranslation(lang, key);
    ShortText(lang, key);
    LabelOfText(lang, key, t);
  }

  /** Any other name, a custom account name for one, is shown as it is. */
  lemma CustomLabel(lang: I18n.Language, key: string)
    requires key !in FilterTexts(lang)
    ensures DisplayLabel(lang, key) == key
  {
    FilterTranslation(lang, key);
  }

  // ---------------------------------------------------------------------
  // Screen state

  datatype ContextMenu = ContextMenu(x: int, y: int, fundId: int)

  /** The holding with the given key, the first one if several match. */
  function FindById(funds: seq<Fund>, id: int): (r: Option<Fund>)
    ensures r.Some? ==> r.value in funds && r.value.id == Some(id)
    ensures r.None? <==> forall f :: f in funds ==> f.id != Some(id)
    decreases |funds|
  {
    if funds == [] then None
    else if funds[0].id == Some(id) then Some(funds[0])
    else
      var r := FindById(funds[1..], id);
      assert forall f :: f in funds ==> f == funds[0] || f in funds[1..];
      r
  }

  class DashboardState {
    var activeFilter: string
    var selectedFund: Option<Fund>
    var isAccountManagerOpen: bool
    var isAddFundOpen: bool
    var editingFund: Option<Fund>
    var contextMenu: Option<ContextMenu>

    constructor()
      ensures activeFilter == AllFilter && selectedFund.None? && contextMenu.None?
      ensures !isAccountManagerOpen && !isAddFundOpen && editingFund.None?
    {
      activeFilter := AllFilter;
      selectedFund := None;
      isAccountManagerOpen := false;
      isAddFundOpen := false;
      editingFund := None;
      contextMenu := None;
    }

    /** A right click on a row opens the menu for it; the row is not
        selected. Rows without a key do nothing. */
    method HandleContextMenu(x: int, y: int, fund: Fund)
      modifies this`contextMenu
      ensures HasId(fund.id) ==> contextMenu == Some(ContextMenu(x, y, fund.id.value))
      ensures !HasId(fund.id) ==> contextMenu == old(contextMenu)
    {
      if HasId(fund.id) {
        contextMenu := Some(ContextMenu(x, y, fund.id.value));
      }
    }

    /** Any click elsewhere closes the menu. */
    method CloseContextMenu()
      modifies this`contextMenu
      ensures contextMenu.None?
    {
      contextMenu := None;
    }

    /** `handleEdit`: open the holding form on this holding. */
    method HandleEdit(fund: Fund)
      modifies this`editingFund, this`isAddFundOpen, this`contextMenu
      ensures editingFund == Some(fund) && isAddFundOpen && contextMenu.None?
    {
      editingFund := Some(fund);
      isAddFundOpen := true;
      contextMenu := None;
    }

    /** The menu's edit entry: edit the holding the menu was opened on, if
        it is still in the list. */
    method MenuEdit(funds: seq<Fund>)
      requires contextMenu.Some?
      modifies this`editingFund, this`isAddFundOpen, this`contextMenu
      ensures FindById(funds, old(contextMenu).value.fundId).Some? ==>
        editingFund == FindById(funds, old(contextMenu).value.fundId) && isAddFundOpen && contextMenu.None?
      ensures FindById(funds, old(contextMenu).value.fundId).None? ==>
        editingFund == old(editingFund) && isAddFundOpen == old(isAddFundOpen) && contextMenu == old(contextMenu)
    {
      var f := FindById(funds, contextMenu.value.fundId);
      if f.Some? {
        HandleEdit(f.value);
      }
    }

    /** `handleDelete`: delete the holding when the user confirms; the menu
        closes either way. */
    method HandleDelete(db: Database, fundId: int, confirmed: bool)
      requires db.Valid()
      modifies this`contextMenu, db`funds
      ensures db.Valid()
      ensures confirmed ==> db.funds == WithoutFund(old(db.funds), fundId)
      ensures !confirmed ==> db.funds == old(db.funds)
      ensures contextMenu.None?
    {
      if confirmed {
        db.DeleteFund(fundId);
      }
      contextMenu := None;
    }

    /** `handleRowClick`: ignored while the menu is open, otherwise the
        holding's detail page opens. */
    method HandleRowClick(fund: Fund)
      modifies this`selectedFund
      ensures old(contextMenu).Some? ==> selectedFund == old(selectedFund)
      ensures old(contextMenu).None? ==> selectedFund == Some(fund)
    {
      if contextMenu.Some? {
        return;
      }
      selectedFund := Some(fund);
    }

    /** Leaving the detail page. */
    method BackFromDetail()
      modifies this`selectedFund
      ensures selectedFund.None?
    {
      selectedFund := None;
    }

    method SetActiveFilter(filterKey: string)
      modifies this`activeFilter
      ensures activeFilter == filterKey
    {
      activeFilter := filterKey;
    }

    /** The add button opens the form in add mode. */
    method OpenAddFund()
      modifies this`editingFund, this`isAddFundOpen
      ensures editingFund.None? && isAddFundOpen
    {
      editingFund := None;
      isAddFundOpen := true;
    }

    /** Closing the form hides it and leaves `editingFund` as it was. */
    method CloseAddFund()
      modifies this`isAddFundOpen
      ensures !isAddFundOpen
    {
      isAddFundOpen := false;
    }

    method OpenAccountManager()
      modifies this`isAccountManagerOpen
      ensures isAccountManagerOpen
    {
      isAccountManagerOpen := true;
    }

    method CloseAccountManager()
      modifies this`isAccountManagerOpen
      ensures !isAccountManagerOpen
    {
      isAccountManagerOpen := false;
    }
  }
}
