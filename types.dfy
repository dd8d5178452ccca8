/** The records of the fund tracker (types.ts) and the small wrappers the
    rest of the model shares. */
module Types {

  datatype Option<+T> = None | Some(value: T)

  /** A storage key as a record carries it: `id?: number`. JavaScript code
      tests it for truthiness (`if (id)`), so a key of 0 counts as absent. */
  type Id = Option<int>

  predicate HasId(id: Id) {
    id.Some? && id.value != 0
  }

  /** One holding: a fund held on one platform (account). */
  datatype Fund = Fund(
    id: Id,
    code: string,
    name: string,
    platform: string,
    holdingShares: real,
    costPrice: real,
    currentNav: real,
    lastUpdate: string,
    dayChangePct: real,
    dayChangeVal: real)

  /** An account; funds refer to it by `name` through their `platform`. */
  datatype Account = Account(id: Id, name: string, isDefault: bool)

  datatype AssetSummary = AssetSummary(
    totalAssets: real,
    totalDayGain: real,
    totalDayGainPct: real,
    holdingGain: real,
    holdingGainPct: real)

  /** A search hit from the fund search service. */
  datatype MorningstarFund = MorningstarFund(
    fundClassId: string,
    fundName: string,
    symbol: string,
    fundType: string,
    fundNameArr: string)
}
