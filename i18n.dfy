/** The translation lookup (services/i18n.tsx): a constant dictionary per
    language, the dotted-path walk of `t` with JavaScript truthiness, the
    substitution of `{key}` placeholders, and the provider that holds the
    current language. */
module I18n {

  import opened Types
  import Text

  /** A dictionary value: a string or an object of named values. */
  datatype Tree = Leaf(text: string) | Node(children: map<string, Tree>)

  datatype Language = En | Zh

  /** English `common` section, part 1 of 3. */
  const EnCommon1: map<string, Tree> := map[
    "loading" := Leaf("Loading assets..."),
    "ocrProcessing" := Leaf("Processing Image..."),
    "ocrComplete" := Leaf("OCR Processing Complete (Simulated)."),
    "ocrPrivacy" := Leaf("Powered by local Tesseract.js. No images are uploaded to the cloud. Privacy First."),
    "simulate" := Leaf("Simulate Scan"),
    "selectImage" := Leaf("Select Image"),
    "analyzing" := Leaf("Analyzing..."),
    "uploadTip" := Leaf("Upload a screenshot of your holdings"),
    "smartEntry" := Leaf("Smart Entry (OCR)"),
    "sync" := Leaf("Sync Holdings"),
    "addFund" := Leaf("Add Fund"),
    "batch" := Leaf("Batch Add/Reduce"),
    "dayChg" := Leaf("Day Chg"),
    "dayGain" := Leaf("Day Gain"),
    "totalGain" := Leaf("Total Gain"),
    "totalAssets" := Leaf("Total Assets (CNY)"),
    "holdings" := Leaf("Holdings"),
    "holdingAmount" := Leaf("Holding Amt"),
    "watchlist" := Leaf("Watchlist"),
    "market" := Leaf("Market")
  ]

  /** English `common` section, part 2 of 3. */
  const EnCommon2: map<string, Tree> := map[
    "news" := Leaf("News"),
    "member" := Leaf("Member"),
    "me" := Leaf("Me"),
    "account" := Leaf("Account"),
    "list" := Leaf("List"),
    "rank" := Leaf("Rank"),
    "underConstruction" := Leaf("Module \"{module}\" is under construction."),
    "return" := Leaf("Return to Holdings"),
    "switchLang" := Leaf("CN/EN"),
    "dayChgPct" := Leaf("Day Chg %"),
    "nav" := Leaf("NAV"),
    "cost" := Leaf("Unit Cost"),
    "shares" := Leaf("Shares"),
    "code" := Leaf("Code"),
    "platform" := Leaf("Platform"),
    "mktVal" := Leaf("Mkt Val"),
    "manageAccounts" := Leaf("Manage Accounts"),
    "addAccount" := Leaf("Add Account"),
    "accountName" := Leaf("Account Name"),
    "delete" := Leaf("Delete")
  ]

  /** English `common` section, part 3 of 3. */
  const EnCommon3: map<string, Tree> := map[
    "edit" := Leaf("Edit Holding"),
    "save" := Leaf("Save"),
    "cancel" := Leaf("Cancel"),
    "searchFund" := Leaf("Search Fund Name/Code"),
    "searching" := Leaf("Searching..."),
    "noResults" := Leaf("No results found"),
    "add" := Leaf("Add"),
    "fillDetails" := Leaf("Edit Holding Details"),
    "editDetails" := Leaf("Edit Holding Details"),
    "confirm" := Leaf("Confirm"),
    "success" := Leaf("Success"),
    "searchTip" := Leaf("Search via Morningstar API"),
    "fund" := Leaf("Fund"),
    "menu" := Leaf("Menu"),
    "autoCalcTip" := Leaf("Fields are auto-calculated."),
    "historyNav" := Leaf("History NAV"),
    "date" := Leaf("Date"),
    "unitNav" := Leaf("Unit NAV"),
    "accNav" := Leaf("Acc NAV"),
    "more" := Leaf("More")
  ]

  /** The whole English `common` section; the parts share no key. */
  const EnCommon: map<string, Tree> := EnCommon1 + EnCommon2 + EnCommon3

  /** English `filters` section. */
  const EnFilters: map<string, Tree> := map[
    "All" := Leaf("All"),
    "Default" := Leaf("Default"),
    "Alipay" := Leaf("Alipay"),
    "Tencent" := Leaf("Tencent"),
    "Bank" := Leaf("Bank"),
    "Others" := Leaf("Others")
  ]

  /** Chinese `common` section, part 1 of 3. */
  const ZhCommon1: map<string, Tree> := map[
    "loading" := Leaf("资产加载中..."),
    "ocrProcessing" := Leaf("图像处理中..."),
    "ocrComplete" := Leaf("OCR 处理完成 (模拟)。"),
    "ocrPrivacy" := Leaf("由本地 Tesseract.js 支持。图片不上传云端，隐私优先。"),
    "simulate" := Leaf("模拟扫描"),
    "selectImage" := Leaf("选择图片"),
    "analyzing" := Leaf("分析中..."),
    "uploadTip" := Leaf("上传持仓截图"),
    "smartEntry" := Leaf("智能录入 (OCR)"),
    "sync" := Leaf("同步持仓"),
    "addFund" := Leaf("添加基金"),
    "batch" := Leaf("批量增减"),
    "dayChg" := Leaf("日涨跌"),
    "dayGain" := Leaf("日收益"),
    "totalGain" := Leaf("持有收益"),
    "totalAssets" := Leaf("总资产 (CNY)"),
    "holdings" := Leaf("持有"),
    "holdingAmount" := Leaf("持有金额"),
    "watchlist" := Leaf("自选"),
    "market" := Leaf("市场")
  ]

  /** Chinese `common` section, part 2 of 3. */
  const ZhCommon2: map<string, Tree> := map[
    "news" := Leaf("资讯"),
    "member" := Leaf("会员"),
    "me" := Leaf("我的"),
    "account" := Leaf("账户"),
    "list" := Leaf("榜单"),
    "rank" := Leaf("排行"),
    "underConstruction" := Leaf("\"{module}\" 模块建设中。"),
    "return" := Leaf("返回持有"),
    "switchLang" := Leaf("中/英"),
    "dayChgPct" := Leaf("日涨幅"),
    "nav" := Leaf("净值"),
    "cost" := Leaf("持仓成本"),
    "shares" := Leaf("持有份额"),
    "code" := Leaf("代码"),
    "platform" := Leaf("渠道"),
    "mktVal" := Leaf("市值"),
    "manageAccounts" := Leaf("管理账户"),
    "addAccount" := Leaf("添加账户"),
    "accountName" := Leaf("账户名称"),
    "delete" := Leaf("删除")
  ]

  /** Chinese `common` section, part 3 of 3. */
  const ZhCommon3: map<string, Tree> := map[
    "edit" := Leaf("修改持仓"),
    "save" := Leaf("保存"),
    "cancel" := Leaf("取消"),
    "searchFund" := Leaf("搜索基金名称/代码"),
    "searching" := Leaf("搜索中..."),
    "noResults" := Leaf("未找到相关基金"),
    "add" := Leaf("添加"),
    "fillDetails" := Leaf("填写持仓信息"),
    "editDetails" := Leaf("修改持仓信息"),
    "confirm" := Leaf("确认"),
    "success" := Leaf("操作成功"),
    "searchTip" := Leaf("通过晨星接口搜索"),
    "fund" := Leaf("基金名称"),
    "menu" := Leaf("管理菜单"),
    "autoCalcTip" := Leaf("修改金额/收益会自动反算份额/成本"),
    "historyNav" := Leaf("历史净值"),
    "date" := Leaf("日期"),
    "unitNav" := Leaf("单位净值"),
    "accNav" := Leaf("累计净值"),
    "more" := Leaf("更多")
  ]

  /** The whole Chinese `common` section; the parts share no key. */
  const ZhCommon: map<string, Tree> := ZhCommon1 + ZhCommon2 + ZhCommon3

  /** Chinese `filters` section. */
  const ZhFilters: map<string, Tree> := map[
    "All" := Leaf("全部"),
    "Default" := Leaf("默认"),
    "Alipay" := Leaf("支付宝"),
    "Tencent" := Leaf("腾讯理财"),
    "Bank" := Leaf("银行系"),
    "Others" := Leaf("其他")
  ]

  /** A dictionary of one language: its two sections. */
  function Sections(common: map<string, Tree>, filters: map<string, Tree>): Tree {
    Node(map["common" := Node(common), "filters" := Node(filters)])
  }

  function Dictionary(lang: Language): (r: Tree)
    ensures r.Node?
  {
    match lang
    case En => Sections(EnCommon, EnFilters)
    case Zh => Sections(ZhCommon, ZhFilters)
  }

  /** JavaScript truthiness of a dictionary value: only the empty string is
      falsy. */
  predicate Truthy(t: Tree) {
    !(t.Leaf? && t.text == "")
  }

  /** One step of the walk, `value && value[key]`: the property when the
      current value is an object that has a truthy property `key`. */
  function Step(value: Tree, key: string): (r: Option<Tree>)
    ensures r.Some? <==> value.Node? && key in value.children && Truthy(value.children[key])
    ensures r.Some? ==> r.value == value.children[key]
  {
    if value.Node? && key in value.children && Truthy(value.children[key]) then Some(value.children[key])
    else None
  }

  /** The value a list of keys leads to, if every step succeeds. */
  function Resolve(t: Tree, keys: seq<string>): Option<Tree>
    decreases |keys|
  {
    if keys == [] then Some(t)
    else
      match Step(t, keys[0])
      case None => None
      case Some(v) => Resolve(v, keys[1..])
  }

  /** Each placeholder `{key}` replaced by its value, first occurrence
      only, the parameters taken in order. */
  function Substitute(s: string, params: seq<(string, string)>): string
    decreases |params|
  {
    if params == [] then s
    else Substitute(Text.ReplaceFirst(s, "{" + params[0].0 + "}", params[0].1), params[1..])
  }

  /** What `t(path, params)` returns in language `lang`: the path itself
      when the walk fails, otherwise the value found, with placeholders
      substituted when it is a string and parameters are given. */
  function Translate(lang: Language, path: string, params: Option<seq<(string, string)>>): (r: Tree)
    ensures Resolve(Dictionary(lang), Text.Split(path, '.')).None? ==> r == Leaf(path)
    ensures r.Node? ==> Resolve(Dictionary(lang), Text.Split(path, '.')) == Some(r)
  {
    match Resolve(Dictionary(lang), Text.Split(path, '.'))
    case None => Leaf(path)
    case Some(v) =>
      if v.Leaf? && params.Some? then Leaf(Substitute(v.text, params.value)) else v
  }

  /** The holder of the current language. */
  class LanguageProvider {
    var language: Language

    constructor()
      ensures language == Zh
    {
      language := Zh;
    }

    method SetLanguage(lang: Language)
      modifies this
      ensures language == lang
    {
      language := lang;
    }

    /** `t`: walk the path key by key, giving up with the path at the first
        failing step, then substitute the parameters one by one. */
    method T(path: string, params: Option<seq<(string, string)>>) returns (r: Tree)
      ensures r == Translate(language, path, params)
    {
      var keys := Text.Split(path, '.');
      var value := Dictionary(language);
      for i := 0 to |keys|
        invariant Resolve(Dictionary(language), keys) == Resolve(value, keys[i..])
      {
        assert keys[i..][1..] == keys[i + 1..];
        if value.Node? && keys[i] in value.children && Truthy(value.children[keys[i]]) {
          value := value.children[keys[i]];
        } else {
          return Leaf(path);
        }
      }
      assert keys[|keys|..] == [];
      if value.Leaf? && params.Some? {
        var result := value.text;
        var ps := params.value;
        for j := 0 to |ps|
          invariant Substitute(result, ps[j..]) == Substitute(value.text, ps)
        {
          assert ps[j..][1..] == ps[j + 1..];
          result := Text.ReplaceFirst(result, "{" + ps[j].0 + "}", ps[j].1);
        }
        assert ps[|ps|..] == [];
        return Leaf(result);
      }
      return value;
    }
  }

  /** Every value a successful walk reaches is truthy, so it is never
      undefined: the last-segment fallback after the walk cannot run. */
  lemma {:induction false} ResolvedIsTruthy(t: Tree, keys: seq<string>)
    requires Truthy(t)
    ensures Resolve(t, keys).Some? ==> Truthy(Resolve(t, keys).value)
    decreases |keys|
  {
    if keys != [] && Step(t, keys[0]).Some? {
      ResolvedIsTruthy(Step(t, keys[0]).value, keys[1..]);
    }
  }

  /** Two dictionaries with the same keys at every level, whose strings
      agree on being empty. */
  predicate SameShape(a: Tree, b: Tree) {
    match (a, b)
    case (Leaf(x), Leaf(y)) => (x == "") == (y == "")
    case (Node(ma), Node(mb)) => ma.Keys == mb.Keys && forall k :: k in ma ==> SameShape(ma[k], mb[k])
    case _ => false
  }

  /** Dictionaries of the same shape resolve exactly the same paths. */
  lemma {:induction false} ResolveSameShape(a: Tree, b: Tree, keys: seq<string>)
    requires SameShape(a, b)
    ensures Resolve(a, keys).Some? <==> Resolve(b, keys).Some?
    decreases |keys|
  {
    if keys != [] && Step(a, keys[0]).Some? {
      ResolveSameShape(Step(a, keys[0]).value, Step(b, keys[0]).value, keys[1..]);
    }
  }

  /** A section all of whose values are non-empty strings. */
  predicate AllTexts(m: map<string, Tree>) {
    forall k :: k in m ==> m[k].Leaf? && m[k].text != ""
  }

  lemma EnCommon1Texts()
    ensures AllTexts(EnCommon1)
  {
  }

  lemma ZhCommon1Texts()
    ensures AllTexts(ZhCommon1)
  {
  }

  lemma Common1SameKeys()
    ensures EnCommon1.Keys == ZhCommon1.Keys
  {
  }

  lemma EnCommon2Texts()
    ensures AllTexts(EnCommon2)
  {
  }

  lemma ZhCommon2Texts()
    ensures AllTexts(ZhCommon2)
  {
  }

  lemma Common2SameKeys()
    ensures EnCommon2.Keys == ZhCommon2.Keys
  {
  }

  lemma EnCommon3Texts()
    ensures AllTexts(EnCommon3)
  {
  }

  lemma ZhCommon3Texts()
    ensures AllTexts(ZhCommon3)
  {
  }

  lemma Common3SameKeys()
    ensures EnCommon3.Keys == ZhCommon3.Keys
  {
  }

  lemma EnFiltersTexts()
    ensures AllTexts(EnFilters)
  {
  }

  lemma ZhFiltersTexts()
    ensures AllTexts(ZhFilters)
  {
  }

  lemma FiltersSameKeys()
    ensures EnFilters.Keys == ZhFilters.Keys
  {
  }

  /** Two sections with the same keys and only non-empty strings have the
      same shape. */
  lemma SameShapeOfTexts(a: map<string, Tree>, b: map<string, Tree>)
    requires a.Keys == b.Keys && AllTexts(a) && AllTexts(b)
    ensures SameShape(Node(a), Node(b))
  {
  }

  lemma AllTextsUnion(a: map<string, Tree>, b: map<string, Tree>)
    requires AllTexts(a) && AllTexts(b)
    ensures AllTexts(a + b)
  {
  }

  lemma CommonSameShape()
    ensures SameShape(Node(EnCommon), Node(ZhCommon))
  {
    EnCommon1Texts();
    EnCommon2Texts();
    EnCommon3Texts();
    ZhCommon1Texts();
    ZhCommon2Texts();
    ZhCommon3Texts();
    AllTextsUnion(EnCommon1, EnCommon2);
    AllTextsUnion(EnCommon1 + EnCommon2, EnCommon3);
    AllTextsUnion(ZhCommon1, ZhCommon2);
    AllTextsUnion(ZhCommon1 + ZhCommon2, ZhCommon3);
    Common1SameKeys();
    Common2SameKeys();
    Common3SameKeys();
    SameShapeOfTexts(EnCommon, ZhCommon);
  }

  lemma FiltersSameShape()
    ensures SameShape(Node(EnFilters), Node(ZhFilters))
  {
    EnFiltersTexts();
    ZhFiltersTexts();
    FiltersSameKeys();
    SameShapeOfTexts(EnFilters, ZhFilters);
  }

  lemma SectionsSameShape(c1: map<string, Tree>, f1: map<string, Tree>, c2: map<string, Tree>, f2: map<string, Tree>)
    requires SameShape(Node(c1), Node(c2)) && SameShape(Node(f1), Node(f2))
    ensures SameShape(Sections(c1, f1), Sections(c2, f2))
  {
  }

  /** The two dictionaries have the same shape. */
  lemma DictionariesSameShape()
    ensures SameShape(Dictionary(En), Dictionary(Zh))
  {
    CommonSameShape();
    FiltersSameShape();
    SectionsSameShape(EnCommon, EnFilters, ZhCommon, ZhFilters);
  }

  /** Whether a path resolves does not depend on the language. */
  lemma LanguageIndependentResolution(keys: seq<string>)
    ensures Resolve(Dictionary(En), keys).Some? <==> Resolve(Dictionary(Zh), keys).Some?
  {
    DictionariesSameShape();
    ResolveSameShape(Dictionary(En), Dictionary(Zh), keys);
  }

  /** A single parameter is one `replace` of its placeholder. */
  lemma SubstituteSingle(s: string, key: string, value: string)
    ensures Substitute(s, [(key, value)]) == Text.ReplaceFirst(s, "{" + key + "}", value)
  {
    assert [(key, value)][1..] == [];
  }

  /** A parameter whose placeholder first occurs at `i` replaces that
      occurrence only. */
  lemma SubstituteOne(s: string, key: string, value: string, i: int)
    requires Text.OccursAt(s, "{" + key + "}", i)
    requires forall j :: 0 <= j < i ==> !Text.OccursAt(s, "{" + key + "}", j)
    ensures Substitute(s, [(key, value)]) == s[..i] + value + s[i + |key| + 2..]
  {
    SubstituteSingle(s, key, value);
    var pat := "{" + key + "}";
    assert |pat| == |key| + 2;
  }

  /** A two-key path without further dots splits into its two keys. */
  lemma SplitPath(a: string, b: string)
    requires forall i :: 0 <= i < |a| ==> a[i] != '.'
    requires forall i :: 0 <= i < |b| ==> b[i] != '.'
    ensures Text.Split(a + "." + b, '.') == [a, b]
  {
    Text.SplitCons(a, '.', b);
    Text.SplitNone(b, '.');
  }

  /** The header title `t('common.appTitle') || "XiaoHuYangJi"` for a
      string result. */
  function HeaderTitle(translated: string): string {
    if translated == "" then "XiaoHuYangJi" else translated
  }

  /** No part of the English `common` section has an `appTitle` key. */
  lemma NoAppTitleEn1()
    ensures "appTitle" !in EnCommon1
  {
  }

  lemma NoAppTitleEn2()
    ensures "appTitle" !in EnCommon2
  {
  }

  lemma NoAppTitleEn3()
    ensures "appTitle" !in EnCommon3
  {
  }

  /** No part of the Chinese `common` section has an `appTitle` key. */
  lemma NoAppTitleZh1()
    ensures "appTitle" !in ZhCommon1
  {
  }

  lemma NoAppTitleZh2()
    ensures "appTitle" !in ZhCommon2
  {
  }

  lemma NoAppTitleZh3()
    ensures "appTitle" !in ZhCommon3
  {
  }


  /** A key in none of the three parts of `common` does not resolve. */
  lemma MissingKeyFails(c1: map<string, Tree>, c2: map<string, Tree>, c3: map<string, Tree>,
                        f: map<string, Tree>, key: string)
    requires key !in c1 && key !in c2 && key !in c3
    ensures Resolve(Sections(c1 + c2 + c3, f), ["common", key]).None?
  {
    var keys := ["common", key];
    assert keys[1..] == [key];
    assert Step(Sections(c1 + c2 + c3, f), "common") == Some(Node(c1 + c2 + c3));
  }

  /** Under `filters` only a single key can resolve, and it resolves to
      that section's string. */
  lemma FilterResolution(c: map<string, Tree>, f: map<string, Tree>, keys: seq<string>)
    requires AllTexts(f) && |keys| >= 1
    ensures Resolve(Sections(c, f), ["filters"] + keys) ==
      if |keys| == 1 && keys[0] in f then Some(f[keys[0]]) else None
  {
    var all := ["filters"] + keys;
    assert all[1..] == keys;
    assert Step(Sections(c, f), "filters") == Some(Node(f));
    if keys[0] in f {
      if |keys| > 1 {
        var rest := keys[1..];
        assert Step(f[keys[0]], rest[0]).None?;
        assert Resolve(f[keys[0]], rest).None?;
        assert Resolve(Node(f), keys).None?;
      } else {
        assert keys[1..] == [];
        assert Step(Node(f), keys[0]) == Some(f[keys[0]]);
        assert Resolve(Node(f), keys) == Some(f[keys[0]]);
      }
    }
  }

  /** The header's path splits into `common` and `appTitle`. */
  lemma AppTitlePath()
    ensures Text.Split("common.appTitle", '.') == ["common", "appTitle"]
  {
    assert "common" + "." + "appTitle" == "common.appTitle";
    SplitPath("common", "appTitle");
  }

  /** `common.appTitle` does not resolve in the English dictionary. */
  lemma AppTitleUnresolvedEn()
    ensures Resolve(Dictionary(En), ["common", "appTitle"]).None?
  {
    NoAppTitleEn1();
    NoAppTitleEn2();
    NoAppTitleEn3();
    MissingKeyFails(EnCommon1, EnCommon2, EnCommon3, EnFilters, "appTitle");
  }

  /** `common.appTitle` does not resolve in the Chinese dictionary. */
  lemma AppTitleUnresolvedZh()
    ensures Resolve(Dictionary(Zh), ["common", "appTitle"]).None?
  {
    NoAppTitleZh1();
    NoAppTitleZh2();
    NoAppTitleZh3();
    MissingKeyFails(ZhCommon1, ZhCommon2, ZhCommon3, ZhFilters, "appTitle");
  }

  /** `common.appTitle` does not resolve in either dictionary. */
  lemma AppTitleUnresolved(lang: Language)
    ensures Resolve(Dictionary(lang), Text.Split("common.appTitle", '.')).None?
  {
    AppTitlePath();
    if lang == En {
      AppTitleUnresolvedEn();
    } else {
      AppTitleUnresolvedZh();
    }
  }

  /** `common.appTitle` is in neither dictionary: `t` returns the path
      itself and the built-in title is never shown. */
  lemma AppTitleMissing(lang: Language)
    ensures Translate(lang, "common.appTitle", None) == Leaf("common.appTitle")
    ensures HeaderTitle(Translate(lang, "common.appTitle", None).text) == "common.appTitle"
  {
    AppTitleUnresolved(lang);
  }
}
