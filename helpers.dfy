/**
 * The endpoint query builders. Each one writes `base?` and then, through
 * `BuildQueryParams`, one `key=value` pair per field that is present, in the
 * field order fixed for its endpoint; the paged endpoints end with the
 * `next_cursor` pair.
 *
 * Every builder is written as its chain of appends. Beside it, its pairs
 * (`TradePairs`, ...) say which fields are present and in what order, and a
 * lemma (`TradeUrlIsFold`, ...) shows that the chain is the fold of the
 * primitive over those pairs, so that the general facts about `BuildUrl`
 * (the encoded form, the round trip through `ParseUrl`) apply to it.
 */
module Helpers {
  import opened Wrappers
  import opened Text
  import opened Query
  import opened ClobTypes

  const CursorKey: string := "next_cursor"

  /** The open orders endpoint's cursor when none is given: base64 of "0". */
  const DefaultCursor: string := "MA=="

  /** An optional integer field as its decimal text. */
  function IntText(o: Option<int>): Option<string> {
    match o
    case None => None
    case Some(n) => Some(IntToString(n))
  }

  function ReadInt(o: Option<string>): Option<int> {
    match o
    case None => None
    case Some(s) => ParseInt(s)
  }

  lemma ReadIntText(o: Option<int>)
    ensures ReadInt(IntText(o)) == o
  {
    if o.Some? {
      IntToStringRoundTrip(o.value);
    }
  }

  /** An optional string field that can be written literally. */
  predicate PlainField(o: Option<string>) {
    o.Some? ==> PlainValue(o.value)
  }

  lemma IntTextPlain(o: Option<int>)
    ensures PlainField(IntText(o))
  {
  }

  /**
   * The pairs of a paged endpoint: the declared keys in order, each present
   * exactly when its value is, then the cursor, when given, last.
   */
  lemma PagedPairsContract(keys: seq<string>, vals: seq<Option<string>>, cursor: Option<string>)
    requires |keys| == |vals| && Distinct(keys) && CursorKey !in keys
    ensures var ps := Present(keys, vals) + Field(CursorKey, cursor);
      && IsSubsequence(Keys(ps), keys + [CursorKey])
      && (forall i :: 0 <= i < |keys| ==> Lookup(ps, keys[i]) == vals[i])
      && Lookup(ps, CursorKey) == cursor
      && (cursor.Some? ==> ps[|ps| - 1] == Pair(CursorKey, cursor.value))
  {
    var fields := Present(keys, vals);
    PresentContract(keys, vals);
    if cursor.Some? {
      AppendLastContract(fields, keys, Pair(CursorKey, cursor.value));
    } else {
      assert fields + Field(CursorKey, cursor) == fields;
      SubsequenceExtend(Keys(fields), keys, [CursorKey]);
    }
  }

  /**
   * The URL of a paged endpoint reads back as its base and its pairs, and its
   * query has no empty piece, when its keys and values can be written literally.
   */
  lemma PagedUrlRoundTrip(base: string, keys: seq<string>, vals: seq<Option<string>>, cursor: Option<string>)
    requires '?' !in base
    requires |keys| == |vals| && PlainKeys(keys) && PlainValues(vals) && PlainField(cursor)
    ensures var ps := Present(keys, vals) + Field(CursorKey, cursor);
      var url := BuildUrl(base, ps);
      && ParseUrl(url) == Some((base, ps))
      && (ps != [] ==> NoEmptyPiece('&', url[|base| + 1..]))
  {
    var fields := Present(keys, vals);
    var last := Field(CursorKey, cursor);
    PresentPlain(keys, vals);
    assert '=' !in CursorKey && '&' !in CursorKey;
    assert PlainPairs(last);
    var ps := fields + last;
    forall i | 0 <= i < |ps|
      ensures PlainPair(ps[i])
    {
      if i < |fields| {
        assert ps[i] == fields[i];
      } else {
        assert ps[i] == last[i - |fields|];
      }
    }
    BuildUrlRoundTrip(base, ps);
  }

  // ---------------------------------------------------------------- trades

  const TradeKeys: seq<string> := ["market", "asset_id", "after", "before", "maker_address", "id"]

  function TradeValues(p: TradeParams): seq<Option<string>> {
    [p.market, p.assetId, IntText(p.after), IntText(p.before), p.makerAddress, p.id]
  }

  const NoTradeParams := TradeParams(None, None, None, None, None, None)

  /** The trade fields present, in declared order; none when there is no record. */
  function TradeFields(params: Option<TradeParams>): seq<Pair> {
    match params
    case None => []
    case Some(p) => Present(TradeKeys, TradeValues(p))
  }

  function TradePairs(params: Option<TradeParams>, cursor: Option<string>): seq<Pair> {
    TradeFields(params) + Field(CursorKey, cursor)
  }

  /**
   * `add_query_trade_params(base, params, next_cursor)`: `base?`, then each
   * trade field that is set, then the cursor when one is given.
   */
  function AddQueryTradeParams(base: string, params: Option<TradeParams>, cursor: Option<string>): (url: string)
    ensures params.None? && cursor.None? ==> url == base + "?"
    ensures params.None? && cursor.Some? ==> url == base + "?" + CursorKey + "=" + cursor.value
    ensures cursor.Some? ==> EndsWithPair(url, CursorKey, cursor.value)
  {
    var url := base + "?";
    var url :=
      if params.None? then url
      else
        var p := params.value;
        var url := AppendIf(url, "market", p.market);
        var url := AppendIf(url, "asset_id", p.assetId);
        var url := AppendIf(url, "after", IntText(p.after));
        var url := AppendIf(url, "before", IntText(p.before));
        var url := AppendIf(url, "maker_address", p.makerAddress);
        AppendIf(url, "id", p.id);
    if cursor.Some? then
      BuildQueryParamsEndsWithPair(url, CursorKey, cursor.value);
      AppendIf(url, CursorKey, cursor)
    else url
  }

  /** The trade fields one by one, in declared order. */
  lemma TradeFieldsUnrolled(vals: seq<Option<string>>)
    requires |vals| == 6
    ensures Present(TradeKeys, vals) ==
      Field("market", vals[0]) + (Field("asset_id", vals[1]) + (Field("after", vals[2]) +
      (Field("before", vals[3]) + (Field("maker_address", vals[4]) + (Field("id", vals[5]) + [])))))
  {
    var k := TradeKeys;
    assert k[1..] == ["asset_id", "after", "before", "maker_address", "id"];
    assert k[2..] == ["after", "before", "maker_address", "id"];
    assert k[3..] == ["before", "maker_address", "id"];
    assert k[4..] == ["maker_address", "id"];
    assert k[5..] == ["id"];
    assert Present(k[5..], vals[5..]) == Field("id", vals[5]) + [];
    assert Present(k[4..], vals[4..]) == Field("maker_address", vals[4]) + Present(k[5..], vals[5..]);
    assert Present(k[3..], vals[3..]) == Field("before", vals[3]) + Present(k[4..], vals[4..]);
    assert Present(k[2..], vals[2..]) == Field("after", vals[2]) + Present(k[3..], vals[3..]);
    assert Present(k[1..], vals[1..]) == Field("asset_id", vals[1]) + Present(k[2..], vals[2..]);
  }

  /** The trade URL is the primitive folded over the trade pairs. */
  lemma TradeUrlIsFold(base: string, params: Option<TradeParams>, cursor: Option<string>)
    ensures AddQueryTradeParams(base, params, cursor) == BuildUrl(base, TradePairs(params, cursor))
  {
    var u := base + "?";
    var fields := TradeFields(params);
    AppendPairsConcat(u, fields, Field(CursorKey, cursor));
    AppendIfIsFold(AppendPairs(u, fields), CursorKey, cursor);
    if params.Some? {
      var p := params.value;
      var v := TradeValues(p);
      TradeFieldsUnrolled(v);
      var u1 := AppendIf(u, "market", v[0]);
      var u2 := AppendIf(u1, "asset_id", v[1]);
      var u3 := AppendIf(u2, "after", v[2]);
      var u4 := AppendIf(u3, "before", v[3]);
      var u5 := AppendIf(u4, "maker_address", v[4]);
      var f5 := Field("id", v[5]) + [];
      var f4 := Field("maker_address", v[4]) + f5;
      var f3 := Field("before", v[3]) + f4;
      var f2 := Field("after", v[2]) + f3;
      var f1 := Field("asset_id", v[1]) + f2;
      AppendIfThenFold(u5, "id", v[5], []);
      AppendIfThenFold(u4, "maker_address", v[4], f5);
      AppendIfThenFold(u3, "before", v[3], f4);
      AppendIfThenFold(u2, "after", v[2], f3);
      AppendIfThenFold(u1, "asset_id", v[1], f2);
      AppendIfThenFold(u, "market", v[0], f1);
    }
  }

  lemma TradeKeysDistinct()
    ensures Distinct(TradeKeys) && CursorKey !in TradeKeys && PlainKeys(TradeKeys)
  {
  }

  /**
   * The trade pairs: keys in the order market, asset_id, after, before,
   * maker_address, id, next_cursor; each field present exactly when supplied,
   * with its value (integers as decimal text); the cursor, when given, last.
   */
  lemma TradePairsContract(params: Option<TradeParams>, cursor: Option<string>)
    ensures var ps := TradePairs(params, cursor);
      var p := params.UnwrapOr(NoTradeParams);
      && IsSubsequence(Keys(ps), TradeKeys + [CursorKey])
      && Lookup(ps, "market") == p.market
      && Lookup(ps, "asset_id") == p.assetId
      && Lookup(ps, "after") == IntText(p.after)
      && Lookup(ps, "before") == IntText(p.before)
      && Lookup(ps, "maker_address") == p.makerAddress
      && Lookup(ps, "id") == p.id
      && Lookup(ps, CursorKey) == cursor
      && (cursor.Some? ==> ps[|ps| - 1] == Pair(CursorKey, cursor.value))
  {
    var p := params.UnwrapOr(NoTradeParams);
    var vals := TradeValues(p);
    TradeKeysDistinct();
    if params.None? {
      PresentAllAbsent(TradeKeys, vals);
    }
    assert TradeFields(params) == Present(TradeKeys, vals);
    PagedPairsContract(TradeKeys, vals, cursor);
    var ps := TradePairs(params, cursor);
    assert Lookup(ps, TradeKeys[0]) == vals[0];
    assert Lookup(ps, TradeKeys[1]) == vals[1];
    assert Lookup(ps, TradeKeys[2]) == vals[2];
    assert Lookup(ps, TradeKeys[3]) == vals[3];
    assert Lookup(ps, TradeKeys[4]) == vals[4];
    assert Lookup(ps, TradeKeys[5]) == vals[5];
  }

  /** Reads a trade filter record back from query pairs. */
  function ReadTradeParams(ps: seq<Pair>): TradeParams {
    TradeParams(
      Lookup(ps, "market"), Lookup(ps, "asset_id"),
      ReadInt(Lookup(ps, "after")), ReadInt(Lookup(ps, "before")),
      Lookup(ps, "maker_address"), Lookup(ps, "id"))
  }

  /** The trade pairs read back as the record given (an absent record as one with no field). */
  lemma TradePairsReadBack(params: Option<TradeParams>, cursor: Option<string>)
    ensures ReadTradeParams(TradePairs(params, cursor)) == params.UnwrapOr(NoTradeParams)
  {
    var p := params.UnwrapOr(NoTradeParams);
    TradePairsContract(params, cursor);
    ReadIntText(p.after);
    ReadIntText(p.before);
  }

  predicate TradeParamsPlain(p: TradeParams) {
    PlainField(p.market) && PlainField(p.assetId) && PlainField(p.makerAddress) && PlainField(p.id)
  }

  /**
   * The trade URL reads back as the base and the trade pairs, and its query
   * has no `?&` or `&&`.
   */
  lemma TradeUrlRoundTrip(base: string, params: Option<TradeParams>, cursor: Option<string>)
    requires '?' !in base
    requires params.Some? ==> TradeParamsPlain(params.value)
    requires PlainField(cursor)
    ensures var url := AddQueryTradeParams(base, params, cursor);
      && ParseUrl(url) == Some((base, TradePairs(params, cursor)))
      && (TradePairs(params, cursor) != [] ==> NoEmptyPiece('&', url[|base| + 1..]))
  {
    var p := params.UnwrapOr(NoTradeParams);
    var vals := TradeValues(p);
    IntTextPlain(p.after);
    IntTextPlain(p.before);
    assert PlainValues(vals);
    if params.None? {
      PresentAllAbsent(TradeKeys, vals);
    }
    assert TradeFields(params) == Present(TradeKeys, vals);
    TradeKeysDistinct();
    PagedUrlRoundTrip(base, TradeKeys, vals, cursor);
    TradeUrlIsFold(base, params, cursor);
  }

  /** The fully populated trade filter of the test suite (given in its own argument order). */
  const TradeVectorParams := TradeParams(
    market := Some("10000"),
    after := Some(1450000),
    before := Some(1460000),
    assetId := Some("100"),
    makerAddress := Some("0x0"),
    id := Some("aa-bb"))

  /** The test suite's `after` timestamp in decimal. */
  lemma AfterTimestampText()
    ensures IntToString(1450000) == "1450000"
  {
    assert NatToString(1) == "1";
    assert NatToString(14) == "14";
    assert NatToString(145) == "145";
    assert NatToString(1450) == "1450";
    assert NatToString(14500) == "14500";
    assert NatToString(145000) == "145000";
  }

  /** The test suite's `before` timestamp in decimal. */
  lemma BeforeTimestampText()
    ensures IntToString(1460000) == "1460000"
  {
    assert NatToString(1) == "1";
    assert NatToString(14) == "14";
    assert NatToString(146) == "146";
    assert NatToString(1460) == "1460";
    assert NatToString(14600) == "14600";
    assert NatToString(146000) == "146000";
  }

  /** The fully populated trade filter alone: its six pairs in declared order. */
  lemma TradeVectorFields()
    ensures AddQueryTradeParams("http://tracker", Some(TradeVectorParams), None) ==
      "http://tracker" + "?" + "market" + "=" + "10000" + "&" + "asset_id" + "=" + "100"
      + "&" + "after" + "=" + "1450000" + "&" + "before" + "=" + "1460000"
      + "&" + "maker_address" + "=" + "0x0" + "&" + "id" + "=" + "aa-bb"
  {
    AfterTimestampText();
    BeforeTimestampText();
  }

  /**
   * The fully populated trade filter with cursor `AA==`: the asserted URL,
   * written as the pieces the builder appends.
   */
  lemma TradeTestVector()
    ensures AddQueryTradeParams("http://tracker", Some(TradeVectorParams), Some("AA==")) ==
      "http://tracker" + "?" + "market" + "=" + "10000" + "&" + "asset_id" + "=" + "100"
      + "&" + "after" + "=" + "1450000" + "&" + "before" + "=" + "1460000"
      + "&" + "maker_address" + "=" + "0x0" + "&" + "id" + "=" + "aa-bb"
      + "&" + "next_cursor" + "=" + "AA=="
  {
    TradeVectorFields();
  }

  /** No trade filter, cursor `AA==`: only the cursor pair. */
  lemma TradeNoParamsTestVector()
    ensures AddQueryTradeParams("http://tracker", None, Some("AA==")) == "http://tracker?next_cursor=AA=="
  {
  }

  // ----------------------------------------------------------- open orders

  const OpenOrderKeys: seq<string> := ["market", "asset_id", "id"]

  function OpenOrderValues(p: OpenOrderParams): seq<Option<string>> {
    [p.market, p.assetId, p.id]
  }

  const NoOpenOrderParams := OpenOrderParams(None, None, None)

  /** The open orders fields present, in declared order; none when there is no record. */
  function OpenOrderFields(params: Option<OpenOrderParams>): seq<Pair> {
    match params
    case None => []
    case Some(p) => Present(OpenOrderKeys, OpenOrderValues(p))
  }

  /** The fields, then the cursor: the one given, or `MA==` when none is. */
  function OpenOrdersPairs(params: Option<OpenOrderParams>, cursor: Option<string>): seq<Pair> {
    OpenOrderFields(params) + Field(CursorKey, Some(cursor.UnwrapOr(DefaultCursor)))
  }

  /**
   * `add_query_open_orders_params(base, params, next_cursor)`: `base?`, then
   * each filter that is set, then the cursor, which defaults to `MA==`.
   */
  function AddQueryOpenOrdersParams(base: string, params: Option<OpenOrderParams>, cursor: Option<string>): (url: string)
    ensures |url| > |base| && url[..|base| + 1] == base + "?"
    ensures params.None? ==> url == base + "?" + CursorKey + "=" + cursor.UnwrapOr(DefaultCursor)
    ensures EndsWithPair(url, CursorKey, cursor.UnwrapOr(DefaultCursor))
  {
    var url := base + "?";
    var url :=
      if params.None? then url
      else
        var p := params.value;
        var url := AppendIf(url, "market", p.market);
        var url := AppendIf(url, "asset_id", p.assetId);
        AppendIf(url, "id", p.id);
    BuildQueryParamsEndsWithPair(url, CursorKey, cursor.UnwrapOr(DefaultCursor));
    BuildQueryParams(url, CursorKey, cursor.UnwrapOr(DefaultCursor))
  }

  /** The open orders fields one by one, in declared order. */
  lemma OpenOrderFieldsUnrolled(vals: seq<Option<string>>)
    requires |vals| == 3
    ensures Present(OpenOrderKeys, vals) ==
      Field("market", vals[0]) + (Field("asset_id", vals[1]) + (Field("id", vals[2]) + []))
  {
    var k := OpenOrderKeys;
    assert k[1..] == ["asset_id", "id"];
    assert k[2..] == ["id"];
    assert Present(k[2..], vals[2..]) == Field("id", vals[2]) + [];
    assert Present(k[1..], vals[1..]) == Field("asset_id", vals[1]) + Present(k[2..], vals[2..]);
  }

  /** The open orders URL is the primitive folded over the open orders pairs. */
  lemma OpenOrdersUrlIsFold(base: string, params: Option<OpenOrderParams>, cursor: Option<string>)
    ensures AddQueryOpenOrdersParams(base, params, cursor) == BuildUrl(base, OpenOrdersPairs(params, cursor))
  {
    var u := base + "?";
    var fields := OpenOrderFields(params);
    var last := Some(cursor.UnwrapOr(DefaultCursor));
    AppendPairsConcat(u, fields, Field(CursorKey, last));
    AppendIfIsFold(AppendPairs(u, fields), CursorKey, last);
    if params.Some? {
      var v := OpenOrderValues(params.value);
      OpenOrderFieldsUnrolled(v);
      var u1 := AppendIf(u, "market", v[0]);
      var u2 := AppendIf(u1, "asset_id", v[1]);
      var f2 := Field("id", v[2]) + [];
      var f1 := Field("asset_id", v[1]) + f2;
      AppendIfThenFold(u2, "id", v[2], []);
      AppendIfThenFold(u1, "asset_id", v[1], f2);
      AppendIfThenFold(u, "market", v[0], f1);
    }
  }

  lemma OpenOrderKeysDistinct()
    ensures Distinct(OpenOrderKeys) && CursorKey !in OpenOrderKeys && PlainKeys(OpenOrderKeys)
  {
  }

  /**
   * The open orders pairs: keys in the order market, asset_id, id,
   * next_cursor; each filter present exactly when supplied; the cursor always
   * present and last, `MA==` when none was given.
   */
  lemma OpenOrdersPairsContract(params: Option<OpenOrderParams>, cursor: Option<string>)
    ensures var ps := OpenOrdersPairs(params, cursor);
      var p := params.UnwrapOr(NoOpenOrderParams);
      && IsSubsequence(Keys(ps), OpenOrderKeys + [CursorKey])
      && Lookup(ps, "market") == p.market
      && Lookup(ps, "asset_id") == p.assetId
      && Lookup(ps, "id") == p.id
      && ps != [] && ps[|ps| - 1] == Pair(CursorKey, cursor.UnwrapOr(DefaultCursor))
      && (cursor.None? ==> Lookup(ps, CursorKey) == Some(DefaultCursor))
      && (cursor.Some? ==> Lookup(ps, CursorKey) == cursor)
  {
    var p := params.UnwrapOr(NoOpenOrderParams);
    var vals := OpenOrderValues(p);
    OpenOrderKeysDistinct();
    if params.None? {
      PresentAllAbsent(OpenOrderKeys, vals);
    }
    assert OpenOrderFields(params) == Present(OpenOrderKeys, vals);
    PagedPairsContract(OpenOrderKeys, vals, Some(cursor.UnwrapOr(DefaultCursor)));
    var ps := OpenOrdersPairs(params, cursor);
    assert Lookup(ps, OpenOrderKeys[0]) == vals[0];
    assert Lookup(ps, OpenOrderKeys[1]) == vals[1];
    assert Lookup(ps, OpenOrderKeys[2]) == vals[2];
  }

  /** Reads an open orders filter record back from query pairs. */
  function ReadOpenOrderParams(ps: seq<Pair>): OpenOrderParams {
    OpenOrderParams(Lookup(ps, "market"), Lookup(ps, "asset_id"), Lookup(ps, "id"))
  }

  /** The open orders pairs read back as the record given (an absent record as one with no field). */
  lemma OpenOrdersPairsReadBack(params: Option<OpenOrderParams>, cursor: Option<string>)
    ensures ReadOpenOrderParams(OpenOrdersPairs(params, cursor)) == params.UnwrapOr(NoOpenOrderParams)
  {
    OpenOrdersPairsContract(params, cursor);
  }

  predicate OpenOrderParamsPlain(p: OpenOrderParams) {
    PlainField(p.market) && PlainField(p.assetId) && PlainField(p.id)
  }

  /**
   * The open orders URL reads back as the base and the open orders pairs, and
   * its query has no `?&` or `&&`.
   */
  lemma OpenOrdersUrlRoundTrip(base: string, params: Option<OpenOrderParams>, cursor: Option<string>)
    requires '?' !in base
    requires params.Some? ==> OpenOrderParamsPlain(params.value)
    requires PlainField(cursor)
    ensures var url := AddQueryOpenOrdersParams(base, params, cursor);
      && ParseUrl(url) == Some((base, OpenOrdersPairs(params, cursor)))
      && NoEmptyPiece('&', url[|base| + 1..])
  {
    var p := params.UnwrapOr(NoOpenOrderParams);
    var vals := OpenOrderValues(p);
    assert PlainValues(vals);
    if params.None? {
      PresentAllAbsent(OpenOrderKeys, vals);
    }
    assert OpenOrderFields(params) == Present(OpenOrderKeys, vals);
    OpenOrderKeysDistinct();
    PagedUrlRoundTrip(base, OpenOrderKeys, vals, Some(cursor.UnwrapOr(DefaultCursor)));
    OpenOrdersUrlIsFold(base, params, cursor);
  }

  /** All three filters and no cursor: the default cursor closes the query. */
  lemma OpenOrdersTestVector()
    ensures AddQueryOpenOrdersParams("http://tracker",
        Some(OpenOrderParams(market := Some("10000"), assetId := Some("100"), id := Some("aa-bb"))), None) ==
      "http://tracker" + "?" + "market" + "=" + "10000" + "&" + "asset_id" + "=" + "100"
      + "&" + "id" + "=" + "aa-bb" + "&" + "next_cursor" + "=" + "MA=="
  {
  }

  /** No filter, cursor `AA==`: only the cursor pair. */
  lemma OpenOrdersNoParamsTestVector()
    ensures AddQueryOpenOrdersParams("http://tracker", None, Some("AA==")) == "http://tracker?next_cursor=AA=="
  {
  }

  // ---------------------------------------------------------- single pairs

  /**
   * A builder that writes one pair right after `base?`: the pair follows the
   * `?` with no `&`, and the URL reads back as the base and that pair.
   */
  lemma SinglePairUrl(base: string, key: string, value: string)
    requires '?' !in base && '=' !in key && '&' !in key && PlainValue(value)
    ensures var url := BuildQueryParams(base + "?", key, value);
      && url == base + "?" + key + "=" + value
      && ParseUrl(url) == Some((base, [Pair(key, value)]))
  {
    assert PlainPairs([Pair(key, value)]);
    BuildUrlRoundTrip(base, [Pair(key, value)]);
  }

  /**
   * A list written as one comma-joined value reads back as the list, when no
   * item holds a comma; a plain list gives a plain value.
   */
  lemma CommaListRoundTrip(items: seq<string>)
    requires forall i :: 0 <= i < |items| ==> PlainValue(items[i]) && ',' !in items[i]
    ensures PlainValue(Join(",", items))
    ensures items != [] ==> Split(',', Join(",", items)) == items
  {
    CommaJoinPlain(items);
    if items != [] {
      SplitJoin(',', items);
    }
  }

  /** The items of a list field can be written literally. */
  predicate PlainItems(items: seq<string>) {
    forall i :: 0 <= i < |items| ==> PlainValue(items[i]) && ',' !in items[i]
  }

  // --------------------------------------------------- drop notifications

  /** `drop_notifications_query_params(base, params)`: `base?ids=` and the ids, comma-joined. */
  function DropNotificationsQueryParams(base: string, params: DropNotificationParams): (url: string)
    ensures url == base + "?" + "ids" + "=" + Join(",", params.ids)
  {
    BuildQueryParams(base + "?", "ids", Join(",", params.ids))
  }

  /**
   * The drop URL holds the one pair `ids`, right after the `?`; it reads back
   * as the base and that pair, and the value splits back into the ids.
   */
  lemma DropNotificationsUrlRoundTrip(base: string, params: DropNotificationParams)
    requires '?' !in base && PlainItems(params.ids)
    ensures var url := DropNotificationsQueryParams(base, params);
      var v := Join(",", params.ids);
      && url == base + "?" + "ids" + "=" + v
      && ParseUrl(url) == Some((base, [Pair("ids", v)]))
      && (params.ids != [] ==> Split(',', v) == params.ids)
  {
    var v := Join(",", params.ids);
    CommaListRoundTrip(params.ids);
    assert '=' !in "ids" && '&' !in "ids";
    SinglePairUrl(base, "ids", v);
  }

  lemma DropNotificationsTestVector()
    ensures DropNotificationsQueryParams("http://tracker", DropNotificationParams(["1", "2", "3"])) ==
      "http://tracker" + "?" + "ids" + "=" + "1" + "," + "2" + "," + "3"
  {
  }

  // ------------------------------------------------------ balance/allowance

  const BalanceKeys: seq<string> := ["asset_type", "token_id", "signature_type"]

  /** An optional asset type as its name. */
  function AssetTypeText(o: Option<AssetType>): Option<string> {
    match o
    case None => None
    case Some(t) => Some(AssetTypeName(t))
  }

  function ReadAssetType(o: Option<string>): Option<AssetType> {
    match o
    case None => None
    case Some(s) => ParseAssetType(s)
  }

  lemma ReadAssetTypeText(o: Option<AssetType>)
    ensures ReadAssetType(AssetTypeText(o)) == o
  {
  }

  function BalanceValues(p: BalanceAllowanceParams): seq<Option<string>> {
    [AssetTypeText(p.assetType), p.tokenId, IntText(p.signatureType)]
  }

  function BalanceAllowancePairs(p: BalanceAllowanceParams): seq<Pair> {
    Present(BalanceKeys, BalanceValues(p))
  }

  /**
   * `add_balance_allowance_params_to_url(base, params)`: `base?`, then the
   * asset type by name, the token id and the signature type, each when set.
   */
  function AddBalanceAllowanceParamsToUrl(base: string, params: BalanceAllowanceParams): (url: string)
    ensures params.assetType.None? && params.tokenId.None? && params.signatureType.None? <==> url == base + "?"
  {
    var url := base + "?";
    var url := AppendIf(url, "asset_type", AssetTypeText(params.assetType));
    var url := AppendIf(url, "token_id", params.tokenId);
    AppendIf(url, "signature_type", IntText(params.signatureType))
  }

  /** The balance/allowance fields one by one, in declared order. */
  lemma BalanceFieldsUnrolled(vals: seq<Option<string>>)
    requires |vals| == 3
    ensures Present(BalanceKeys, vals) ==
      Field("asset_type", vals[0]) + (Field("token_id", vals[1]) + (Field("signature_type", vals[2]) + []))
  {
    var k := BalanceKeys;
    assert k[1..] == ["token_id", "signature_type"];
    assert k[2..] == ["signature_type"];
    assert Present(k[2..], vals[2..]) == Field("signature_type", vals[2]) + [];
    assert Present(k[1..], vals[1..]) == Field("token_id", vals[1]) + Present(k[2..], vals[2..]);
  }

  /** The balance/allowance URL is the primitive folded over its pairs. */
  lemma BalanceAllowanceUrlIsFold(base: string, params: BalanceAllowanceParams)
    ensures AddBalanceAllowanceParamsToUrl(base, params) == BuildUrl(base, BalanceAllowancePairs(params))
  {
    var u := base + "?";
    var v := BalanceValues(params);
    BalanceFieldsUnrolled(v);
    var u1 := AppendIf(u, "asset_type", v[0]);
    var u2 := AppendIf(u1, "token_id", v[1]);
    var f2 := Field("signature_type", v[2]) + [];
    var f1 := Field("token_id", v[1]) + f2;
    AppendIfThenFold(u2, "signature_type", v[2], []);
    AppendIfThenFold(u1, "token_id", v[1], f2);
    AppendIfThenFold(u, "asset_type", v[0], f1);
  }

  lemma BalanceKeysDistinct()
    ensures Distinct(BalanceKeys) && PlainKeys(BalanceKeys)
  {
  }

  /**
   * The balance/allowance pairs: keys in the order asset_type, token_id,
   * signature_type, each present exactly when supplied; the asset type by
   * name and the signature type in decimal (so a signature type of 0 is
   * written).
   */
  lemma BalanceAllowancePairsContract(params: BalanceAllowanceParams)
    ensures var ps := BalanceAllowancePairs(params);
      && IsSubsequence(Keys(ps), BalanceKeys)
      && Lookup(ps, "asset_type") == AssetTypeText(params.assetType)
      && Lookup(ps, "token_id") == params.tokenId
      && Lookup(ps, "signature_type") == IntText(params.signatureType)
      && (params.assetType.None? && params.tokenId.None? && params.signatureType.None? <==> ps == [])
  {
    var vals := BalanceValues(params);
    BalanceKeysDistinct();
    PresentContract(BalanceKeys, vals);
    var ps := BalanceAllowancePairs(params);
    assert Lookup(ps, BalanceKeys[0]) == vals[0];
    assert Lookup(ps, BalanceKeys[1]) == vals[1];
    assert Lookup(ps, BalanceKeys[2]) == vals[2];
    if params.assetType.None? && params.tokenId.None? && params.signatureType.None? {
      PresentAllAbsent(BalanceKeys, vals);
    }
  }

  /** Reads a balance/allowance record back from query pairs. */
  function ReadBalanceAllowanceParams(ps: seq<Pair>): BalanceAllowanceParams {
    BalanceAllowanceParams(
      ReadAssetType(Lookup(ps, "asset_type")),
      Lookup(ps, "token_id"),
      ReadInt(Lookup(ps, "signature_type")))
  }

  lemma BalanceAllowancePairsReadBack(params: BalanceAllowanceParams)
    ensures ReadBalanceAllowanceParams(BalanceAllowancePairs(params)) == params
  {
    BalanceAllowancePairsContract(params);
    ReadAssetTypeText(params.assetType);
    ReadIntText(params.signatureType);
  }

  /**
   * The balance/allowance URL reads back as the base and its pairs, and its
   * query has no `?&` or `&&`.
   */
  lemma BalanceAllowanceUrlRoundTrip(base: string, params: BalanceAllowanceParams)
    requires '?' !in base && PlainField(params.tokenId)
    ensures var url := AddBalanceAllowanceParamsToUrl(base, params);
      && ParseUrl(url) == Some((base, BalanceAllowancePairs(params)))
      && (BalanceAllowancePairs(params) != [] ==> NoEmptyPiece('&', url[|base| + 1..]))
  {
    var vals := BalanceValues(params);
    IntTextPlain(params.signatureType);
    assert PlainValues(vals);
    BalanceKeysDistinct();
    PresentPlain(BalanceKeys, vals);
    BuildUrlRoundTrip(base, BalanceAllowancePairs(params));
    BalanceAllowanceUrlIsFold(base, params);
  }

  /** Collateral with signature type 0: no token id, and the 0 is written. */
  lemma BalanceAllowanceCollateralTestVector()
    ensures AddBalanceAllowanceParamsToUrl("http://tracker",
        BalanceAllowanceParams(assetType := Some(COLLATERAL), tokenId := None, signatureType := Some(0))) ==
      "http://tracker" + "?" + "asset_type" + "=" + "COLLATERAL" + "&" + "signature_type" + "=" + "0"
  {
  }

  /** Conditional with token id 222 and signature type 1: all three pairs. */
  lemma BalanceAllowanceConditionalTestVector()
    ensures AddBalanceAllowanceParamsToUrl("http://tracker",
        BalanceAllowanceParams(assetType := Some(CONDITIONAL), tokenId := Some("222"), signatureType := Some(1))) ==
      "http://tracker" + "?" + "asset_type" + "=" + "CONDITIONAL" + "&" + "token_id" + "=" + "222"
      + "&" + "signature_type" + "=" + "1"
  {
  }

  // ---------------------------------------------------------- order scoring

  /** `add_order_scoring_params_to_url(base, params)`: `base?order_id=` and the id. */
  function AddOrderScoringParamsToUrl(base: string, params: OrderScoringParams): (url: string)
    ensures url == base + "?" + "order_id" + "=" + params.orderId
  {
    BuildQueryParams(base + "?", "order_id", params.orderId)
  }

  /** The scoring URL holds the one pair `order_id` and reads back as it. */
  lemma OrderScoringUrlRoundTrip(base: string, params: OrderScoringParams)
    requires '?' !in base && PlainValue(params.orderId)
    ensures var url := AddOrderScoringParamsToUrl(base, params);
      && url == base + "?" + "order_id" + "=" + params.orderId
      && ParseUrl(url) == Some((base, [Pair("order_id", params.orderId)]))
  {
    assert '=' !in "order_id" && '&' !in "order_id";
    SinglePairUrl(base, "order_id", params.orderId);
  }

  lemma OrderScoringTestVector()
    ensures AddOrderScoringParamsToUrl("http://tracker", OrderScoringParams("0x0123abc")) ==
      "http://tracker" + "?" + "order_id" + "=" + "0x0123abc"
  {
  }

  /** `add_orders_scoring_params_to_url(base, params)`: `base?order_ids=` and the ids, comma-joined. */
  function AddOrdersScoringParamsToUrl(base: string, params: OrdersScoringParams): (url: string)
    ensures url == base + "?" + "order_ids" + "=" + Join(",", params.orderIds)
  {
    BuildQueryParams(base + "?", "order_ids", Join(",", params.orderIds))
  }

  /**
   * The bulk scoring URL holds the one pair `order_ids`; it reads back as the
   * base and that pair, and the value splits back into the order ids.
   */
  lemma OrdersScoringUrlRoundTrip(base: string, params: OrdersScoringParams)
    requires '?' !in base && PlainItems(params.orderIds)
    ensures var url := AddOrdersScoringParamsToUrl(base, params);
      var v := Join(",", params.orderIds);
      && url == base + "?" + "order_ids" + "=" + v
      && ParseUrl(url) == Some((base, [Pair("order_ids", v)]))
      && (params.orderIds != [] ==> Split(',', v) == params.orderIds)
  {
    var v := Join(",", params.orderIds);
    CommaListRoundTrip(params.orderIds);
    assert '=' !in "order_ids" && '&' !in "order_ids";
    SinglePairUrl(base, "order_ids", v);
  }

  lemma OrdersScoringTestVector()
    ensures AddOrdersScoringParamsToUrl("http://tracker", OrdersScoringParams(["0x0", "0x1", "0x2"])) ==
      "http://tracker" + "?" + "order_ids" + "=" + "0x0" + "," + "0x1" + "," + "0x2"
  {
  }
}
