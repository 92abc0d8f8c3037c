# http_helpers of py-clob-client-fast, in Dafny

This project models the HTTP helper layer of the CLOB client: the query
builders that turn a base URL and an endpoint's parameter record into a
request URL, and the shared client handle that callers can inject.

**Query builders** (`query.dfy`, `helpers.dfy`).
- The primitive `build_query_params(url, key, value)` looks at the URL's last
  character. After a `?` it appends `key=value`; otherwise it appends
  `&key=value`.
- Each endpoint builder writes `base?` and then calls the primitive once for
  every field that is present. Fields go in the endpoint's declared order:
  - trade history: `market, asset_id, after, before, maker_address, id`, then
    `next_cursor` when a cursor is given;
  - open orders: `market, asset_id, id`, then `next_cursor`, which is always
    written and is `MA==` when no cursor is given;
  - drop notifications: `ids`, the ids joined with commas;
  - balance/allowance: `asset_type` (the enum's name), `token_id`,
    `signature_type` (decimal);
  - order scoring: `order_id`;
  - bulk order scoring: `order_ids`, the ids joined with commas.
- Each builder is written as its chain of appends. Beside it:
  - a function lists the pairs it writes;
  - a lemma (`...UrlIsFold`) shows that the chain is the primitive folded over
    those pairs.
- The general facts about that fold then apply to every builder:
  - When no value ends in `?`, the URL is `base?` followed by the pairs
    rendered as `key=value` and joined with `&`.
  - The URL reads back (`ParseUrl`) as its base and its pairs, and its query
    has no `?&` and no `&&`.
- A pair contract per endpoint states:
  - which keys appear, and in what order;
  - each key's value;
  - where the cursor goes.
- A read-back lemma recovers the parameter record from the pairs.
- The test suite's asserted URLs are proved as concrete lemmas. Each expected
  URL is written as the sequence of pieces the builder appends (`"http://tracker" + "?" + "market" + "=" + ...`).

**Shared client** (`client.dfy`).
- `SharedClient<H>` holds the current handle, `client: Option<H>`. It starts
  as `None`.
- `SetClient` overwrites the handle unconditionally: the last writer wins, and
  `None` clears it.
- The three scenario methods replay the test suite's set, replace and clear
  sequences on a fresh holder.

The implementation module `py_clob_client/http_helpers/helpers.py` and the
parameter types in `py_clob_client/clob_types.py` are not part of this model.
Their behaviour is taken from the asserted outputs of
`tests/http_helpers/test_helpers.py`:
- the joiner rule (lines 29-38);
- field order and how values are written (lines 40-57, 64-73, 88-121);
- the cursor pair and its default `MA==` (lines 59-78).

Behaviour that no test shows is a choice of this model; each such choice is
listed under "## Left out".

## Model

| member | source | states |
|---|---|---|
| `Query.BuildQueryParams` | tests/http_helpers/test_helpers.py:29-38 | the URL is kept as a prefix; after a URL ending in `?` exactly `key=value` follows, otherwise `&key=value` |
| `Query.AppendIf` | tests/http_helpers/test_helpers.py:40-57 | an optional field keeps the URL as a prefix and leaves it unchanged exactly when the field is absent |
| `Query.AppendPairs` | tests/http_helpers/test_helpers.py:40-57 | appending pairs keeps the URL as a prefix and lengthens it when there is any pair |
| `Query.AppendPairsEncodes` | tests/http_helpers/test_helpers.py:40-57 | when no value ends in `?`, folding the primitive over pairs from `base?` gives `base?` followed by the `key=value` pieces joined with `&` |
| `Query.BuildUrl` | tests/http_helpers/test_helpers.py:40-62 | a builder's URL starts with `base?`; it is `base?` plus the `&`-joined pairs when no value ends in `?`; a single pair directly follows the `?` |
| `Query.BuildQueryParamsTestVector` | tests/http_helpers/test_helpers.py:29-38 | `http://tracker?` with `q1=a` gives `http://tracker?q1=a`, and `http://tracker?q1=a` with `q2=b` gives `http://tracker?q1=a&q2=b` |
| `Query.BuildQueryParamsEndsWithPair` | tests/http_helpers/test_helpers.py:29-38 | the primitive's URL ends with the pair it wrote, preceded by `?` or `&` |
| `Query.ValueEndingInQuestionMarkLosesJoiner` | tests/http_helpers/test_helpers.py:29-38 | for every base, keys and values: when the first value ends in `?`, the second pair is written with no `&` before it, and the URL differs from the `&`-joined pairs |
| `Query.AppendPairsSnoc` | tests/http_helpers/test_helpers.py:40-57 | the last pair of the fold is the last primitive call |
| `Query.AppendPairsSplit` | tests/http_helpers/test_helpers.py:40-57 | the fold can be cut at any pair: appending in two runs is appending once |
| `Query.AppendIfIsFold` | tests/http_helpers/test_helpers.py:40-57 | one optional append is the fold over that field's pairs (one or none) |
| `Query.AppendPairsConcat` | tests/http_helpers/test_helpers.py:40-57 | appending `ps + qs` is appending `ps` and then `qs` |
| `Query.SplitOnce` | tests/http_helpers/test_helpers.py:29-38 | reference parser used by the round-trip lemmas, not a function of the source: the first occurrence of a character splits a text into the part before it, which does not contain it, and the part after it; `None` exactly when it does not occur |
| `Query.DecodeEncode` | tests/http_helpers/test_helpers.py:40-57 | reference parser used by the round-trip lemmas, not a function of the source: the `&`-joined `key=value` text of plain pairs decodes back to the same pairs |
| `Query.BuildUrlRoundTrip` | tests/http_helpers/test_helpers.py:40-57 | a builder's URL over plain pairs parses back to its base and its pairs, and its query has no empty piece (no `?&`, no `&&`, no trailing `&`) |
| `Query.PresentContract` | tests/http_helpers/test_helpers.py:40-57 | the written keys are the declared keys in declared order, with gaps; each declared key looks up its own value, present exactly when given; undeclared keys are absent |
| `Query.PresentAllAbsent` | tests/http_helpers/test_helpers.py:59-62 | a record with no field set writes no pair |
| `Query.AppendLastContract` | tests/http_helpers/test_helpers.py:40-57 | a pair appended after the fields comes last in key order, and it does not change any other key's value |
| `Query.CommaJoinPlain` | tests/http_helpers/test_helpers.py:80-86 | comma-joining plain items gives a plain value |
| `Text.Join` | tests/http_helpers/test_helpers.py:80-86 | `sep.join(parts)`: no parts give the empty text; otherwise the text is as long as the parts plus one separator between each two (its inverse is `Text.SplitJoin`) |
| `Text.SplitJoin` | tests/http_helpers/test_helpers.py:80-86 | splitting a comma-joined list at the commas gives the list back when no item holds a comma |
| `Text.JoinNoEmptyPiece` | tests/http_helpers/test_helpers.py:36-38 | joining non-empty pieces gives no leading, trailing or doubled separator |
| `Text.NatToString` | tests/http_helpers/test_helpers.py:40-57 | the decimal text of a natural number is non-empty, all digits, with no leading zero |
| `Text.IntToString` | tests/http_helpers/test_helpers.py:88-105 | an integer's decimal text is non-empty and holds no `&`, `=`, `?` or `,` |
| `Text.IntToStringRoundTrip` | tests/http_helpers/test_helpers.py:40-57 | the decimal text of an integer parses back to that integer |
| `ClobTypes.AssetTypeName` | tests/http_helpers/test_helpers.py:88-105 | an asset type is written as its name (`COLLATERAL`, `CONDITIONAL`), which parses back to it and needs no escaping |
| `Helpers.ReadIntText` | tests/http_helpers/test_helpers.py:88-94 | an optional integer written in decimal reads back as itself, including 0 |
| `Helpers.PagedPairsContract` | tests/http_helpers/test_helpers.py:40-78 | a paged endpoint writes its declared keys in order, each exactly when present, and then the cursor, which is the last pair when given |
| `Helpers.PagedUrlRoundTrip` | tests/http_helpers/test_helpers.py:40-78 | a paged endpoint's URL parses back to its base and pairs, with no empty query piece |
| `Helpers.AddQueryTradeParams` | tests/http_helpers/test_helpers.py:40-62 | with no record and no cursor the URL is `base?`; with no record and a cursor it is exactly `base?next_cursor=<cursor>`; whenever a cursor is given the URL ends with the pair `next_cursor=<cursor>`; for all inputs it equals `BuildUrl(base, TradePairs(..))` by `TradeUrlIsFold`, and `TradePairsContract` says which keys appear |
| `Helpers.TradeFieldsUnrolled` | tests/http_helpers/test_helpers.py:40-57 | the trade fields are, in order, market, asset_id, after, before, maker_address, id, each written exactly when set |
| `Helpers.TradeUrlIsFold` | tests/http_helpers/test_helpers.py:40-62 | the trade builder's chain of appends is the primitive folded over the trade pairs |
| `Helpers.TradePairsContract` | tests/http_helpers/test_helpers.py:40-62 | the trade keys come in the order market, asset_id, after, before, maker_address, id, next_cursor; each field is written exactly when set, timestamps in decimal; the cursor, when given, is last; an absent record writes no field |
| `Helpers.TradePairsReadBack` | tests/http_helpers/test_helpers.py:40-57 | the trade pairs read back as the record given |
| `Helpers.TradeUrlRoundTrip` | tests/http_helpers/test_helpers.py:40-62 | the trade URL parses back to the base and the trade pairs, with no `?&` or `&&` |
| `Helpers.AfterTimestampText` | tests/http_helpers/test_helpers.py:40-57 | the timestamp 1450000 is written as `1450000` |
| `Helpers.BeforeTimestampText` | tests/http_helpers/test_helpers.py:40-57 | the timestamp 1460000 is written as `1460000` |
| `Helpers.TradeVectorFields` | tests/http_helpers/test_helpers.py:40-57 | the fully populated trade record with no cursor gives `http://tracker?market=10000&asset_id=100&after=1450000&before=1460000&maker_address=0x0&id=aa-bb` |
| `Helpers.TradeTestVector` | tests/http_helpers/test_helpers.py:40-57 | the fully populated trade record with cursor `AA==` gives `http://tracker?market=10000&asset_id=100&after=1450000&before=1460000&maker_address=0x0&id=aa-bb&next_cursor=AA==` |
| `Helpers.TradeNoParamsTestVector` | tests/http_helpers/test_helpers.py:59-62 | no trade record with cursor `AA==` gives `http://tracker?next_cursor=AA==` |
| `Helpers.AddQueryOpenOrdersParams` | tests/http_helpers/test_helpers.py:64-78 | with no record the URL is exactly `base?next_cursor=<cursor>`, `MA==` when none is given; the URL always ends with that cursor pair; for all inputs it equals `BuildUrl(base, OpenOrdersPairs(..))` by `OpenOrdersUrlIsFold`, and `OpenOrdersPairsContract` says which keys appear |
| `Helpers.OpenOrderFieldsUnrolled` | tests/http_helpers/test_helpers.py:64-73 | the open orders fields are, in order, market, asset_id, id, each written exactly when set |
| `Helpers.OpenOrdersUrlIsFold` | tests/http_helpers/test_helpers.py:64-78 | the open orders builder's chain of appends is the primitive folded over the open orders pairs |
| `Helpers.OpenOrdersPairsContract` | tests/http_helpers/test_helpers.py:64-78 | the open orders keys come in the order market, asset_id, id, next_cursor; each filter is written exactly when set; the cursor is always the last pair, and it is `MA==` when none is given |
| `Helpers.OpenOrdersPairsReadBack` | tests/http_helpers/test_helpers.py:64-73 | the open orders pairs read back as the record given |
| `Helpers.OpenOrdersUrlRoundTrip` | tests/http_helpers/test_helpers.py:64-78 | the open orders URL parses back to the base and its pairs, with no `?&` or `&&` |
| `Helpers.OpenOrdersTestVector` | tests/http_helpers/test_helpers.py:64-73 | market 10000, asset 100, id aa-bb and no cursor give `http://tracker?market=10000&asset_id=100&id=aa-bb&next_cursor=MA==` |
| `Helpers.OpenOrdersNoParamsTestVector` | tests/http_helpers/test_helpers.py:75-78 | no open orders record with cursor `AA==` gives `http://tracker?next_cursor=AA==` |
| `Helpers.SinglePairUrl` | tests/http_helpers/test_helpers.py:29-33 | one pair written after `base?` follows the `?` directly, with no `&`, and parses back to the base and the pair |
| `Helpers.CommaListRoundTrip` | tests/http_helpers/test_helpers.py:80-86 | a comma-joined list of plain, comma-free items is a plain value and splits back into the list |
| `Helpers.DropNotificationsQueryParams` | tests/http_helpers/test_helpers.py:80-86 | the URL is `base?ids=` followed by the ids joined with commas, with no `&` after the `?`; `DropNotificationsUrlRoundTrip` reads it back |
| `Helpers.DropNotificationsUrlRoundTrip` | tests/http_helpers/test_helpers.py:80-86 | the drop URL is `base?ids=` and the comma-joined ids; it parses back to the base and the one pair `ids`, whose value splits back into the ids |
| `Helpers.DropNotificationsTestVector` | tests/http_helpers/test_helpers.py:80-86 | ids 1, 2, 3 give `http://tracker?ids=1,2,3` |
| `Helpers.ReadAssetTypeText` | tests/http_helpers/test_helpers.py:88-105 | an optional asset type written by name reads back as itself |
| `Helpers.AddBalanceAllowanceParamsToUrl` | tests/http_helpers/test_helpers.py:88-105 | the URL is `base?` alone exactly when no field is set; for all inputs it equals `BuildUrl(base, BalanceAllowancePairs(..))` by `BalanceAllowanceUrlIsFold`, and `BalanceAllowancePairsContract` says which keys appear |
| `Helpers.BalanceFieldsUnrolled` | tests/http_helpers/test_helpers.py:88-105 | the balance/allowance fields are, in order, asset_type, token_id, signature_type, each written exactly when set |
| `Helpers.BalanceAllowanceUrlIsFold` | tests/http_helpers/test_helpers.py:88-105 | the balance/allowance builder's chain of appends is the primitive folded over its pairs |
| `Helpers.BalanceAllowancePairsContract` | tests/http_helpers/test_helpers.py:88-105 | the keys come in the order asset_type, token_id, signature_type; the asset type is written by name, the token id only when given, and the signature type in decimal, so 0 is written; no pair is written exactly when no field is set |
| `Helpers.BalanceAllowancePairsReadBack` | tests/http_helpers/test_helpers.py:88-105 | the balance/allowance pairs read back as the record given |
| `Helpers.BalanceAllowanceUrlRoundTrip` | tests/http_helpers/test_helpers.py:88-105 | the balance/allowance URL parses back to the base and its pairs, with no `?&` or `&&` |
| `Helpers.BalanceAllowanceCollateralTestVector` | tests/http_helpers/test_helpers.py:88-94 | collateral with signature type 0 and no token id gives `http://tracker?asset_type=COLLATERAL&signature_type=0` |
| `Helpers.BalanceAllowanceConditionalTestVector` | tests/http_helpers/test_helpers.py:96-105 | conditional with token id 222 and signature type 1 gives `http://tracker?asset_type=CONDITIONAL&token_id=222&signature_type=1` |
| `Helpers.AddOrderScoringParamsToUrl` | tests/http_helpers/test_helpers.py:107-113 | the URL is `base?order_id=` followed by the order id, with no `&` after the `?`; `OrderScoringUrlRoundTrip` reads it back |
| `Helpers.OrderScoringUrlRoundTrip` | tests/http_helpers/test_helpers.py:107-113 | the scoring URL is `base?order_id=` and the id, and it parses back to the base and that one pair |
| `Helpers.OrderScoringTestVector` | tests/http_helpers/test_helpers.py:107-113 | order id 0x0123abc gives `http://tracker?order_id=0x0123abc` |
| `Helpers.AddOrdersScoringParamsToUrl` | tests/http_helpers/test_helpers.py:115-121 | the URL is `base?order_ids=` followed by the order ids joined with commas, with no `&` after the `?`; `OrdersScoringUrlRoundTrip` reads it back |
| `Helpers.OrdersScoringUrlRoundTrip` | tests/http_helpers/test_helpers.py:115-121 | the bulk scoring URL is `base?order_ids=` and the comma-joined ids; it parses back to the base and that pair, whose value splits back into the ids |
| `Helpers.OrdersScoringTestVector` | tests/http_helpers/test_helpers.py:115-121 | order ids 0x0, 0x1, 0x2 give `http://tracker?order_ids=0x0,0x1,0x2` |
| `Client.SharedClient.constructor` | tests/http_helpers/test_helpers.py:129-131 | at start no client is set |
| `Client.SharedClient.SetClient` | tests/http_helpers/test_helpers.py:129-161 | the handle given becomes the current one, whatever was there; `None` clears it |
| `Client.SetsClient` | tests/http_helpers/test_helpers.py:129-137 | a fresh holder has no client; after setting `c` the current client is `c` |
| `Client.ReplacesClient` | tests/http_helpers/test_helpers.py:139-151 | setting `c1` then `c2` makes `c1` current and then `c2` |
| `Client.ClearsClient` | tests/http_helpers/test_helpers.py:153-161 | setting `c` and then `None` makes `c` current and then no client |

## Left out

- The package alias in `py_clob_client_fast/__init__.py` re-exports the upstream modules under a second name. It is import plumbing with no behaviour of its own.
- `get_active_client` builds a default HTTP client when none is set. Client construction (timeouts, pooling) belongs to the HTTP library, so the model only stores and returns handles.
- `warm_connection` sends network probes (HEAD, then GET on `/time`) and swallows their errors. It is network I/O with no observable result.
- Closing clients is not modelled. The handle type is a parameter and is never used.
- URL-encoding is not modelled. The builders concatenate text and escape nothing. The round-trip lemmas therefore require a base URL without `?`, values without `&` and without a trailing `?`, and keys without `=` or `&`.
- Presence of a field means `Some`. Python's truthiness, which would also skip an empty string and the integer 0, is not modelled. So the model writes `after=0`, `before=0` and an empty string value. Only the signature type has a test showing that 0 is written (lines 88-94); for the trade timestamps this is a choice of the model.
- When no field is set and no cursor is given, the trade builder gives `base?` with nothing after the `?`, and so does the balance/allowance builder for a record with no field set. No test shows this output.
- `Helpers.DropNotificationsUrlRoundTrip`: an empty list is written as an empty value (`ids=`), and only a non-empty list splits back into itself. The test suite does not exercise empty lists; the same holds for `Helpers.OrdersScoringUrlRoundTrip` and `order_ids=`.
- The trade builder takes the cursor as an `Option`, and `None` writes no cursor pair. The test suite always passes a cursor.
- The open orders builder takes the cursor as an `Option`, and `None` stands for the argument's default, `MA==`.
- Whether `token_id` is meaningful for a given asset type is not checked. It is written whenever it is given.
- An empty base URL has no last character. The primitive then joins with `&`, whereas Python's `url[-1]` would raise. Every builder starts from `base + "?"`, so it never reaches this case.
- The trade and open orders builders take an optional record. The other builders take a record, as the tests always pass one.
