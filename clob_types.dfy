/**
 * The parameter records the query builders read. Every field a caller may
 * leave out is an `Option`; the list-valued fields are sequences.
 */
module ClobTypes {
  import opened Wrappers

  /** The asset kinds; each serialises as its own name. */
  datatype AssetType = COLLATERAL | CONDITIONAL

  function AssetTypeName(t: AssetType): (name: string)
    ensures ParseAssetType(name) == Some(t)
    ensures '&' !in name && '=' !in name && '?' !in name
  {
    match t
    case COLLATERAL => "COLLATERAL"
    case CONDITIONAL => "CONDITIONAL"
  }

  function ParseAssetType(name: string): Option<AssetType> {
    if name == "COLLATERAL" then Some(COLLATERAL)
    else if name == "CONDITIONAL" then Some(CONDITIONAL)
    else None
  }

  /** Filters of the trade history endpoint; `after` and `before` are timestamps. */
  datatype TradeParams = TradeParams(
    market: Option<string>,
    assetId: Option<string>,
    after: Option<int>,
    before: Option<int>,
    makerAddress: Option<string>,
    id: Option<string>)

  /** Filters of the open orders endpoint. */
  datatype OpenOrderParams = OpenOrderParams(
    market: Option<string>,
    assetId: Option<string>,
    id: Option<string>)

  /** The notifications to drop. */
  datatype DropNotificationParams = DropNotificationParams(ids: seq<string>)

  /** A balance/allowance lookup. */
  datatype BalanceAllowanceParams = BalanceAllowanceParams(
    assetType: Option<AssetType>,
    tokenId: Option<string>,
    signatureType: Option<int>)

  /** Scoring lookup of one order. */
  datatype OrderScoringParams = OrderScoringParams(orderId: string)

  /** Scoring lookup of several orders. */
  datatype OrdersScoringParams = OrdersScoringParams(orderIds: seq<string>)
}
