/**
 * The query-string primitive and the machinery every endpoint builder shares.
 *
 * A builder starts from `base + "?"` and calls the primitive
 * `BuildQueryParams` once per field that is present, in the field's declared
 * order (`AppendPairs`). The reference meaning of such a string is
 * `base + "?" + Encode(pairs)`, where `Encode` is `"&".join("k=v", ...)`;
 * `ParseUrl` reads a URL back into its base and its pairs.
 */
module Query {
  import opened Wrappers
  import opened Text

  datatype Pair = Pair(key: string, value: string)

  function Render(p: Pair): string {
    p.key + "=" + p.value
  }

  function RenderAll(ps: seq<Pair>): seq<string> {
    seq(|ps|, i requires 0 <= i < |ps| => Render(ps[i]))
  }

  /** The query text of `ps`: each pair as `key=value`, joined with `&`. */
  function Encode(ps: seq<Pair>): string {
    Join("&", RenderAll(ps))
  }

  predicate EndsWithQuestionMark(s: string) {
    |s| > 0 && s[|s| - 1] == '?'
  }

  /** `url` ends with the pair `key=value`, right after a `?` or an `&`. */
  predicate EndsWithPair(url: string, key: string, value: string) {
    var t := key + "=" + value;
    |t| < |url| && url[|url| - |t|..] == t && url[|url| - |t| - 1] in "?&"
  }

  /**
   * `build_query_params(url, key, value)`: the joiner is chosen by the URL's
   * last character; after a `?` the pair follows directly, otherwise an `&`
   * comes first.
   */
  function BuildQueryParams(url: string, key: string, value: string): (r: string)
    ensures |url| <= |r| && r[..|url|] == url
    ensures EndsWithQuestionMark(url) ==> r[|url|..] == key + "=" + value
    ensures !EndsWithQuestionMark(url) ==> r[|url|..] == "&" + key + "=" + value
  {
    if EndsWithQuestionMark(url) then url + key + "=" + value
    else url + "&" + key + "=" + value
  }

  /** The primitive's result ends with the pair it wrote, after a `?` or an `&`. */
  lemma BuildQueryParamsEndsWithPair(url: string, key: string, value: string)
    ensures EndsWithPair(BuildQueryParams(url, key, value), key, value)
  {
    var t := key + "=" + value;
    var r := BuildQueryParams(url, key, value);
    if EndsWithQuestionMark(url) {
      assert r == url + t;
      assert r[|r| - |t| - 1] == url[|url| - 1];
    } else {
      assert r == url + "&" + t;
    }
  }

  /** After `?` the pair follows directly; after a value it is joined with `&`. */
  lemma BuildQueryParamsTestVector()
    ensures BuildQueryParams("http://tracker?", "q1", "a") == "http://tracker?q1=a"
    ensures BuildQueryParams("http://tracker?q1=a", "q2", "b") == "http://tracker?q1=a&q2=b"
  {
  }

  /** The builders' pattern: one `BuildQueryParams` call per pair, in order. */
  function AppendPairs(url: string, ps: seq<Pair>): (r: string)
    ensures |url| <= |r| && r[..|url|] == url
    ensures ps != [] ==> |r| > |url|
    decreases |ps|
  {
    if ps == [] then url
    else AppendPairs(BuildQueryParams(url, ps[0].key, ps[0].value), ps[1..])
  }

  /** No value ends in `?`, so the trailing-character rule always picks the right joiner. */
  predicate JoinSafe(ps: seq<Pair>) {
    forall i :: 0 <= i < |ps| ==> !EndsWithQuestionMark(ps[i].value)
  }

  lemma RenderAllTail(ps: seq<Pair>)
    requires ps != []
    ensures RenderAll(ps) == [Render(ps[0])] + RenderAll(ps[1..])
  {
  }

  /** `Encode` one pair at a time. */
  lemma EncodeCons(ps: seq<Pair>)
    requires |ps| > 1
    ensures Encode(ps) == Render(ps[0]) + "&" + Encode(ps[1..])
  {
    RenderAllTail(ps);
  }

  /** `Encode` of one pair. */
  lemma EncodeOne(ps: seq<Pair>)
    requires |ps| == 1
    ensures Encode(ps) == Render(ps[0])
  {
    assert RenderAll(ps) == [Render(ps[0])];
  }

  /** The fold, one step in. */
  lemma AppendPairsCons(url: string, ps: seq<Pair>)
    requires ps != []
    ensures AppendPairs(url, ps) == AppendPairs(BuildQueryParams(url, ps[0].key, ps[0].value), ps[1..])
  {
  }

  /** After a pair whose value does not end in `?`, the next pair is joined with `&`. */
  lemma AfterPairStep(url: string, p: Pair)
    requires !EndsWithQuestionMark(url) && !EndsWithQuestionMark(p.value)
    ensures BuildQueryParams(url, p.key, p.value) == url + "&" + Render(p)
    ensures !EndsWithQuestionMark(BuildQueryParams(url, p.key, p.value))
  {
  }

  lemma {:induction false} AppendAfterPair(url: string, ps: seq<Pair>)
    requires !EndsWithQuestionMark(url)
    requires ps != [] && JoinSafe(ps)
    ensures AppendPairs(url, ps) == url + "&" + Encode(ps)
    decreases |ps|
  {
    var next := BuildQueryParams(url, ps[0].key, ps[0].value);
    assert !EndsWithQuestionMark(ps[0].value);
    AfterPairStep(url, ps[0]);
    AppendPairsCons(url, ps);
    if |ps| == 1 {
      EncodeOne(ps);
      assert ps[1..] == [];
    } else {
      assert JoinSafe(ps[1..]) by {
        forall i | 0 <= i < |ps| - 1 ensures !EndsWithQuestionMark(ps[1..][i].value) {
          assert ps[1..][i] == ps[i + 1];
        }
      }
      AppendAfterPair(next, ps[1..]);
      EncodeCons(ps);
      JoinStep(url + "&", Render(ps[0]), Encode(ps[1..]));
    }
  }

  /** Regrouping one more `&`-joined piece. */
  lemma JoinStep(prefix: string, piece: string, rest: string)
    ensures prefix + piece + "&" + rest == prefix + (piece + "&" + rest)
  {
  }

  /**
   * Appending the pairs one by one to `base?` writes exactly
   * `base?` followed by the `&`-joined pairs, provided no value ends in `?`.
   */
  lemma {:induction false} AppendPairsEncodes(base: string, ps: seq<Pair>)
    ensures JoinSafe(ps) ==> AppendPairs(base + "?", ps) == base + "?" + Encode(ps)
  {
    if ps != [] && JoinSafe(ps) {
      var next := BuildQueryParams(base + "?", ps[0].key, ps[0].value);
      assert next == base + "?" + Render(ps[0]);
      assert !EndsWithQuestionMark(ps[0].value);
      assert AppendPairs(base + "?", ps) == AppendPairs(next, ps[1..]);
      RenderAllTail(ps);
      if |ps| == 1 {
        assert Encode(ps) == Render(ps[0]);
      } else {
        AppendAfterPair(next, ps[1..]);
        EncodeCons(ps);
        JoinStep(base + "?", Render(ps[0]), Encode(ps[1..]));
      }
    }
  }

  /**
   * The URL a builder writes for the pairs `ps`: `base?`, then the pairs
   * appended one by one.
   */
  function BuildUrl(base: string, ps: seq<Pair>): (url: string)
    ensures |url| > |base| && url[..|base| + 1] == base + "?"
    ensures JoinSafe(ps) ==> url == base + "?" + Encode(ps)
    ensures |ps| == 1 ==> url == base + "?" + ps[0].key + "=" + ps[0].value
  {
    AppendPairsEncodes(base, ps);
    AppendPairsSnoc(base + "?", [], if |ps| == 1 then ps[0] else Pair("", ""));
    assert |ps| == 1 ==> [] + [ps[0]] == ps;
    AppendPairs(base + "?", ps)
  }

  /**
   * The trailing-character rule misfires when a value ends in `?`: the next
   * pair is then written with no `&` before it.
   */
  lemma ValueEndingInQuestionMarkLosesJoiner(url: string, k1: string, v: string, k2: string, w: string)
    requires EndsWithQuestionMark(v)
    ensures var ps := [Pair(k1, v), Pair(k2, w)];
      && AppendPairs(url + "?", ps) == url + "?" + k1 + "=" + v + k2 + "=" + w
      && AppendPairs(url + "?", ps) != url + "?" + Encode(ps)
  {
    var ps := [Pair(k1, v), Pair(k2, w)];
    var u0 := url + "?";
    assert EndsWithQuestionMark(u0);
    var u1 := BuildQueryParams(u0, k1, v);
    assert u1 == u0 + k1 + "=" + v;
    assert EndsWithQuestionMark(u1);
    var u2 := BuildQueryParams(u1, k2, w);
    assert u2 == u1 + k2 + "=" + w;
    AppendPairsCons(u0, ps);
    AppendPairsCons(u1, ps[1..]);
    assert ps[1..][1..] == [];
    EncodeCons(ps);
    EncodeOne(ps[1..]);
    assert |AppendPairs(u0, ps)| + 1 == |u0 + Encode(ps)|;
  }

  /** The last pair is the last one appended. */
  lemma {:induction false} AppendPairsSnoc(url: string, ps: seq<Pair>, p: Pair)
    ensures AppendPairs(url, ps + [p]) == BuildQueryParams(AppendPairs(url, ps), p.key, p.value)
    decreases |ps|
  {
    if ps == [] {
      assert [] + [p] == [p];
    } else {
      assert (ps + [p])[1..] == ps[1..] + [p];
      AppendPairsSnoc(BuildQueryParams(url, ps[0].key, ps[0].value), ps[1..], p);
    }
  }

  /** Appending in two runs is appending once: the fold can be cut anywhere. */
  lemma {:induction false} AppendPairsSplit(url: string, ps: seq<Pair>, k: nat)
    requires k <= |ps|
    ensures AppendPairs(url, ps) == AppendPairs(AppendPairs(url, ps[..k]), ps[k..])
    decreases k
  {
    if k > 0 {
      var next := BuildQueryParams(url, ps[0].key, ps[0].value);
      assert ps[..k][0] == ps[0] && ps[..k][1..] == ps[1..][..k - 1];
      assert ps[k..] == ps[1..][k - 1..];
      AppendPairsCons(url, ps);
      AppendPairsCons(url, ps[..k]);
      AppendPairsSplit(next, ps[1..], k - 1);
    } else {
      assert ps[..0] == [] && ps[0..] == ps;
    }
  }

  /** The pairs of one optional field: one pair when it is present, none otherwise. */
  function Field(key: string, o: Option<string>): seq<Pair> {
    if o.Some? then [Pair(key, o.value)] else []
  }

  /** `if value: url = build_query_params(url, key, value)`: one optional field. */
  function AppendIf(url: string, key: string, o: Option<string>): (r: string)
    ensures |url| <= |r| && r[..|url|] == url
    ensures o.None? <==> r == url
  {
    if o.Some? then BuildQueryParams(url, key, o.value) else url
  }

  /** An optional append is the fold over that field's pairs. */
  lemma AppendIfIsFold(url: string, key: string, o: Option<string>)
    ensures AppendIf(url, key, o) == AppendPairs(url, Field(key, o))
  {
    if o.Some? {
      assert Field(key, o)[1..] == [];
    }
  }

  /** Appending `ps + qs` is appending `ps`, then `qs`. */
  lemma AppendPairsConcat(url: string, ps: seq<Pair>, qs: seq<Pair>)
    ensures AppendPairs(url, ps + qs) == AppendPairs(AppendPairs(url, ps), qs)
  {
    AppendPairsSplit(url, ps + qs, |ps|);
    assert (ps + qs)[..|ps|] == ps && (ps + qs)[|ps|..] == qs;
  }

  /** Appending one optional field before the fold over the rest. */
  lemma AppendIfThenFold(url: string, key: string, o: Option<string>, rest: seq<Pair>)
    ensures AppendPairs(AppendIf(url, key, o), rest) == AppendPairs(url, Field(key, o) + rest)
  {
    AppendIfIsFold(url, key, o);
    AppendPairsConcat(url, Field(key, o), rest);
  }

  /** The first `c` in `s`, if any: the text before it and the text after it. */
  function SplitOnce(c: char, s: string): (r: Option<(string, string)>)
    ensures r.None? <==> c !in s
    ensures r.Some? ==> s == r.value.0 + [c] + r.value.1 && c !in r.value.0
  {
    if s == [] then None
    else if s[0] == c then Some(([], s[1..]))
    else match SplitOnce(c, s[1..])
      case None => None
      case Some((before, after)) => Some(([s[0]] + before, after))
  }

  lemma {:induction false} SplitOnceAt(c: char, x: string, y: string)
    requires c !in x
    ensures SplitOnce(c, x + [c] + y) == Some((x, y))
    decreases |x|
  {
    var s := x + [c] + y;
    if x == [] {
      assert s[1..] == y;
    } else {
      assert s[0] == x[0];
      assert s[1..] == x[1..] + [c] + y;
      SplitOnceAt(c, x[1..], y);
      assert [x[0]] + x[1..] == x;
    }
  }

  /** One `key=value` piece; a piece without `=` is a key with an empty value. */
  function DecodePair(s: string): Pair {
    match SplitOnce('=', s)
    case None => Pair(s, "")
    case Some((k, v)) => Pair(k, v)
  }

  /** The pairs of a query text: `&`-separated pieces, each split at its first `=`. */
  function Decode(q: string): seq<Pair> {
    if q == "" then []
    else
      var pieces := Split('&', q);
      seq(|pieces|, i requires 0 <= i < |pieces| => DecodePair(pieces[i]))
  }

  /** A URL's base (before its first `?`) and its query pairs; `None` when it has no `?`. */
  function ParseUrl(url: string): Option<(string, seq<Pair>)> {
    match SplitOnce('?', url)
    case None => None
    case Some((base, q)) => Some((base, Decode(q)))
  }

  /** A pair that survives the round trip through the query text. */
  predicate PlainPair(p: Pair) {
    && '=' !in p.key && '&' !in p.key
    && '&' !in p.value && !EndsWithQuestionMark(p.value)
  }

  predicate PlainPairs(ps: seq<Pair>) {
    forall i :: 0 <= i < |ps| ==> PlainPair(ps[i])
  }

  /** A field value that can be written literally: no `&`, and no trailing `?`. */
  predicate PlainValue(v: string) {
    '&' !in v && !EndsWithQuestionMark(v)
  }

  predicate PlainValues(vals: seq<Option<string>>) {
    forall i :: 0 <= i < |vals| ==> vals[i].Some? ==> PlainValue(vals[i].value)
  }

  predicate PlainKeys(keys: seq<string>) {
    forall i :: 0 <= i < |keys| ==> '=' !in keys[i] && '&' !in keys[i]
  }

  /**
   * A comma-joined list of plain items is itself a plain value.
   */
  lemma {:induction false} CommaJoinPlain(items: seq<string>)
    requires forall i :: 0 <= i < |items| ==> PlainValue(items[i])
    ensures PlainValue(Join(",", items))
    decreases |items|
  {
    if |items| > 1 {
      CommaJoinPlain(items[1..]);
      var tail := Join(",", items[1..]);
      assert Join(",", items) == items[0] + "," + tail;
      if tail == [] {
        assert Join(",", items)[|Join(",", items)| - 1] == ',';
      } else {
        assert Join(",", items)[|Join(",", items)| - 1] == tail[|tail| - 1];
      }
    }
  }

  /** Decoding the encoded pairs gives them back. */
  lemma DecodeEncode(ps: seq<Pair>)
    requires PlainPairs(ps)
    ensures Decode(Encode(ps)) == ps
  {
    if ps != [] {
      var parts := RenderAll(ps);
      forall i | 0 <= i < |parts|
        ensures '&' !in parts[i]
      {
        assert parts[i] == ps[i].key + "=" + ps[i].value;
      }
      SplitJoin('&', parts);
      assert Join("&", parts) != "" by {
        JoinNoEmptyPiece('&', parts);
      }
      var d := Decode(Encode(ps));
      assert |d| == |ps|;
      forall i | 0 <= i < |ps|
        ensures d[i] == ps[i]
      {
        SplitOnceAt('=', ps[i].key, ps[i].value);
        assert Render(ps[i]) == ps[i].key + ['='] + ps[i].value;
      }
    }
  }

  /** Every pair is non-empty (it holds an `=`) and holds no `&`. */
  lemma RenderedPiecesNonEmpty(ps: seq<Pair>)
    requires PlainPairs(ps)
    ensures forall i :: 0 <= i < |ps| ==> RenderAll(ps)[i] != [] && '&' !in RenderAll(ps)[i]
  {
    forall i | 0 <= i < |ps|
      ensures RenderAll(ps)[i] != [] && '&' !in RenderAll(ps)[i]
    {
      assert RenderAll(ps)[i] == ps[i].key + "=" + ps[i].value;
      assert RenderAll(ps)[i][|ps[i].key|] == '=';
    }
  }

  /**
   * A URL built from `base?` reads back as that base and the very pairs that
   * were appended, when the base holds no `?` and the pairs are plain.
   */
  lemma BuiltUrlParses(base: string, ps: seq<Pair>)
    requires '?' !in base
    requires PlainPairs(ps)
    ensures ParseUrl(AppendPairs(base + "?", ps)) == Some((base, ps))
  {
    AppendPairsEncodes(base, ps);
    SplitOnceAt('?', base, Encode(ps));
    DecodeEncode(ps);
  }

  /**
   * After `base?` the query never starts or ends with `&` and never holds `&&`:
   * no `?&` and no `&&` are written.
   */
  lemma BuiltQueryShape(base: string, ps: seq<Pair>)
    requires ps != [] && PlainPairs(ps)
    ensures var url := AppendPairs(base + "?", ps);
      && url[..|base| + 1] == base + "?"
      && NoEmptyPiece('&', url[|base| + 1..])
  {
    AppendPairsEncodes(base, ps);
    RenderedPiecesNonEmpty(ps);
    JoinNoEmptyPiece('&', RenderAll(ps));
    var url := AppendPairs(base + "?", ps);
    assert url[|base| + 1..] == Encode(ps);
  }

  /**
   * A built URL reads back as its base and its pairs, and its query part has
   * no empty piece (no `?&`, no `&&`, no trailing `&`).
   */
  lemma BuildUrlRoundTrip(base: string, ps: seq<Pair>)
    requires '?' !in base && PlainPairs(ps)
    ensures var url := BuildUrl(base, ps);
      && ParseUrl(url) == Some((base, ps))
      && (ps != [] ==> NoEmptyPiece('&', url[|base| + 1..]))
  {
    BuiltUrlParses(base, ps);
    if ps != [] {
      BuiltQueryShape(base, ps);
    }
  }

  // ---- Fields: which pairs a parameter record contributes, and in what order.

  function Keys(ps: seq<Pair>): seq<string> {
    if ps == [] then [] else [ps[0].key] + Keys(ps[1..])
  }

  /** The value of the first pair with key `k`. */
  function Lookup(ps: seq<Pair>, k: string): Option<string> {
    if ps == [] then None
    else if ps[0].key == k then Some(ps[0].value)
    else Lookup(ps[1..], k)
  }

  predicate Distinct(keys: seq<string>) {
    forall i, j :: 0 <= i < j < |keys| ==> keys[i] != keys[j]
  }

  /** `xs` occurs in `ys` in the same order, possibly with gaps. */
  predicate IsSubsequence(xs: seq<string>, ys: seq<string>)
    decreases |ys|
  {
    xs == [] || (ys != [] &&
      if xs[0] == ys[0] then IsSubsequence(xs[1..], ys[1..]) else IsSubsequence(xs, ys[1..]))
  }

  /**
   * The pairs a record contributes: `keys[i]=v` for every `vals[i] == Some(v)`,
   * in the declared order of `keys`; absent fields contribute nothing.
   */
  function Present(keys: seq<string>, vals: seq<Option<string>>): seq<Pair>
    requires |keys| == |vals|
  {
    if keys == [] then [] else Field(keys[0], vals[0]) + Present(keys[1..], vals[1..])
  }

  lemma {:induction false} SubsequenceMembers(xs: seq<string>, ys: seq<string>)
    requires IsSubsequence(xs, ys)
    ensures forall x :: x in xs ==> x in ys
    decreases |ys|
  {
    if xs != [] {
      if xs[0] == ys[0] {
        SubsequenceMembers(xs[1..], ys[1..]);
        forall x | x in xs ensures x in ys {
          if x != xs[0] {
            assert x in xs[1..];
          }
        }
      } else {
        SubsequenceMembers(xs, ys[1..]);
      }
    }
  }

  lemma {:induction false} KeysAppend(ps: seq<Pair>, qs: seq<Pair>)
    ensures Keys(ps + qs) == Keys(ps) + Keys(qs)
    decreases |ps|
  {
    if ps != [] {
      assert (ps + qs)[1..] == ps[1..] + qs;
      KeysAppend(ps[1..], qs);
    } else {
      assert ps + qs == qs;
    }
  }

  lemma {:induction false} LookupAppend(ps: seq<Pair>, qs: seq<Pair>, k: string)
    ensures Lookup(ps + qs, k) == if Lookup(ps, k).Some? then Lookup(ps, k) else Lookup(qs, k)
    decreases |ps|
  {
    if ps != [] {
      assert (ps + qs)[0] == ps[0];
      assert (ps + qs)[1..] == ps[1..] + qs;
      LookupAppend(ps[1..], qs, k);
    } else {
      assert ps + qs == qs;
    }
  }

  lemma {:induction false} LookupAbsent(ps: seq<Pair>, k: string)
    requires k !in Keys(ps)
    ensures Lookup(ps, k) == None
    decreases |ps|
  {
    if ps != [] {
      assert Keys(ps)[0] == ps[0].key;
      assert Keys(ps)[1..] == Keys(ps[1..]);
      LookupAbsent(ps[1..], k);
    }
  }

  /**
   * With distinct keys, the present pairs follow the declared order, each
   * declared key maps to exactly its field's value (absent stays absent),
   * and no other key appears.
   */
  lemma {:induction false} PresentContract(keys: seq<string>, vals: seq<Option<string>>)
    requires |keys| == |vals| && Distinct(keys)
    ensures IsSubsequence(Keys(Present(keys, vals)), keys)
    ensures forall i :: 0 <= i < |keys| ==> Lookup(Present(keys, vals), keys[i]) == vals[i]
    ensures forall k :: k !in keys ==> Lookup(Present(keys, vals), k) == None
    decreases |keys|
  {
    if keys != [] {
      var head := if vals[0].Some? then [Pair(keys[0], vals[0].value)] else [];
      var rest := Present(keys[1..], vals[1..]);
      assert Distinct(keys[1..]);
      PresentContract(keys[1..], vals[1..]);
      assert Present(keys, vals) == head + rest;
      SubsequenceMembers(Keys(rest), keys[1..]);
      KeysAppend(head, rest);
      assert keys[0] !in keys[1..];
      // order
      if vals[0].None? {
        assert Keys(Present(keys, vals)) == Keys(rest);
        if Keys(rest) != [] {
          assert Keys(rest)[0] in keys[1..];
        }
      } else {
        assert Keys(head) == [keys[0]];
        assert (Keys(head) + Keys(rest))[1..] == Keys(rest);
      }
      // lookup
      forall k ensures Lookup(Present(keys, vals), k) ==
        if Lookup(head, k).Some? then Lookup(head, k) else Lookup(rest, k)
      {
        LookupAppend(head, rest, k);
      }
      assert Lookup(rest, keys[0]) == None;
      forall i | 0 <= i < |keys|
        ensures Lookup(Present(keys, vals), keys[i]) == vals[i]
      {
        if i > 0 {
          assert keys[i] == keys[1..][i - 1];
        }
      }
      forall k | k !in keys
        ensures Lookup(Present(keys, vals), k) == None
      {
        assert k !in keys[1..];
      }
    }
  }

  lemma {:induction false} PresentAllAbsent(keys: seq<string>, vals: seq<Option<string>>)
    requires |keys| == |vals|
    requires forall i :: 0 <= i < |vals| ==> vals[i].None?
    ensures Present(keys, vals) == []
    decreases |keys|
  {
    if keys != [] {
      PresentAllAbsent(keys[1..], vals[1..]);
    }
  }

  lemma {:induction false} PresentPlain(keys: seq<string>, vals: seq<Option<string>>)
    requires |keys| == |vals| && PlainKeys(keys) && PlainValues(vals)
    ensures PlainPairs(Present(keys, vals))
    decreases |keys|
  {
    if keys != [] {
      assert PlainKeys(keys[1..]) && PlainValues(vals[1..]);
      PresentPlain(keys[1..], vals[1..]);
    }
  }

  lemma {:induction false} SubsequenceExtend(xs: seq<string>, ys: seq<string>, zs: seq<string>)
    requires IsSubsequence(xs, ys)
    ensures IsSubsequence(xs, ys + zs)
    decreases |ys|
  {
    if xs != [] {
      assert (ys + zs)[0] == ys[0];
      assert (ys + zs)[1..] == ys[1..] + zs;
      if xs[0] == ys[0] {
        SubsequenceExtend(xs[1..], ys[1..], zs);
      } else {
        SubsequenceExtend(xs, ys[1..], zs);
      }
    }
  }

  lemma {:induction false} SubsequenceSnoc(xs: seq<string>, ys: seq<string>, z: string)
    requires IsSubsequence(xs, ys)
    ensures IsSubsequence(xs + [z], ys + [z])
    decreases |ys|
  {
    if xs == [] {
      assert xs + [z] == [z];
      if ys != [] && ys[0] != z {
        assert IsSubsequence([], ys[1..]);
        SubsequenceSnoc([], ys[1..], z);
        assert (ys + [z])[1..] == ys[1..] + [z];
      }
    } else {
      assert (xs + [z])[0] == xs[0];
      assert (ys + [z])[0] == ys[0];
      assert (ys + [z])[1..] == ys[1..] + [z];
      if xs[0] == ys[0] {
        assert (xs + [z])[1..] == xs[1..] + [z];
        SubsequenceSnoc(xs[1..], ys[1..], z);
      } else {
        SubsequenceSnoc(xs, ys[1..], z);
      }
    }
  }

  /**
   * A pair put after fields whose keys follow `keys` comes last in the order,
   * is found under its own key, and leaves every other key's value alone.
   */
  lemma AppendLastContract(ps: seq<Pair>, keys: seq<string>, p: Pair)
    requires IsSubsequence(Keys(ps), keys) && p.key !in keys
    ensures IsSubsequence(Keys(ps + [p]), keys + [p.key])
    ensures Lookup(ps + [p], p.key) == Some(p.value)
    ensures forall k :: k != p.key ==> Lookup(ps + [p], k) == Lookup(ps, k)
  {
    KeysAppend(ps, [p]);
    assert Keys([p]) == [p.key];
    SubsequenceSnoc(Keys(ps), keys, p.key);
    SubsequenceMembers(Keys(ps), keys);
    LookupAbsent(ps, p.key);
    LookupAppend(ps, [p], p.key);
    forall k | k != p.key ensures Lookup(ps + [p], k) == Lookup(ps, k) {
      LookupAppend(ps, [p], k);
    }
  }
}
