/** Exchange-rate quotes: the allow-list rebuild of untrusted JSON, and the looser shape check. */
module Quotes {
  import opened Prelude
  import opened Amounts
  import AccountId

  datatype Json =
    | Undefined
    | Null
    | Bool(b: bool)
    | Num(n: real)
    | NotFinite
    | Str(s: string)
    | Arr(items: seq<Json>)
    | Obj(fields: map<string, Json>)

  /**
   * The two built-in conversions the sanitizer relies on: upper-casing a code,
   * and Number() (None for NaN and the infinities).
   */
  datatype Env = Env(upper: string -> string, number: Json -> Option<real>)

  const MAX_PATH_HOPS: nat := 6
  const MAX_SLIPPAGE: real := 0.5
  const NATIVE_CODE: string := "XLM"

  function Field(data: Json, name: string): Json
  {
    if data.Obj? && name in data.fields then data.fields[name] else Undefined
  }

  // ---- assets ---------------------------------------------------------------------

  datatype Asset = Asset(code: string, issuer: Option<string>)

  predicate AssetCode(s: string)
  {
    1 <= |s| <= 12 && forall k :: 0 <= k < |s| ==> 'A' <= s[k] <= 'Z' || Digit(s[k])
  }

  function SanitizeQuoteAsset(env: Env, code: Json, issuer: Json): Option<Asset>
  {
    if !code.Str? || !AssetCode(env.upper(code.s)) then None
    else if issuer.Null? || issuer.Undefined? || issuer == Str("") then
      if env.upper(code.s) == NATIVE_CODE then Some(Asset(code.s, None)) else None
    else if issuer.Str? && AccountId.Accepted(issuer.s) then Some(Asset(code.s, Some(issuer.s)))
    else None
  }

  function IssuerJson(issuer: Option<string>): Json
  {
    if issuer.Some? then Str(issuer.value) else Null
  }

  /** One to twelve capital letters and digits. */
  predicate CodeText(s: string) { 1 <= |s| <= 12 && forall c :: c in s ==> 'A' <= c <= 'Z' || '0' <= c <= '9' }

  lemma CodeTextIsPattern(s: string)
    ensures CodeText(s) <==> AssetCode(s)
  {
    if CodeText(s) {
      forall k | 0 <= k < |s| ensures 'A' <= s[k] <= 'Z' || Digit(s[k]) {
        assert s[k] in s;
      }
    }
  }

  /** The assets the rebuild lets through. */
  predicate GoodAsset(env: Env, a: Asset)
  {
    && CodeText(env.upper(a.code))
    && (a.issuer.None? ==> env.upper(a.code) == "XLM")
    && (a.issuer.Some? ==> AccountId.Accepted(a.issuer.value))
  }

  /** An asset comes through exactly when it is good, and unchanged. */
  lemma SanitizeAssetExact(env: Env, a: Asset)
    ensures GoodAsset(env, a) <==> SanitizeQuoteAsset(env, Str(a.code), IssuerJson(a.issuer)) == Some(a)
  {
    CodeTextIsPattern(env.upper(a.code));
    if a.issuer == Some("") {
      assert !AccountId.Accepted("");
    }
  }

  lemma SanitizedAssetIsGood(env: Env, code: Json, issuer: Json)
    requires SanitizeQuoteAsset(env, code, issuer).Some?
    ensures GoodAsset(env, SanitizeQuoteAsset(env, code, issuer).value)
  {
    CodeTextIsPattern(env.upper(code.s));
  }

  // ---- the path -------------------------------------------------------------------

  function SanitizePath(env: Env, hops: seq<Json>): Option<seq<Asset>>
  {
    if hops == [] then Some([])
    else
      var init := SanitizePath(env, hops[..|hops| - 1]);
      var last := SanitizeHop(env, hops[|hops| - 1]);
      if init.Some? && last.Some? then Some(init.value + [last.value]) else None
  }

  function SanitizeHop(env: Env, hop: Json): Option<Asset>
  {
    if !hop.Obj? then None
    else SanitizeQuoteAsset(env, Field(hop, "asset_code"), Field(hop, "asset_issuer"))
  }

  function HopJson(a: Asset): Json
  {
    Obj(map["asset_code" := Str(a.code), "asset_issuer" := IssuerJson(a.issuer)])
  }

  function PathJson(path: seq<Asset>): (hops: seq<Json>)
    ensures |hops| == |path|
  {
    seq(|path|, k requires 0 <= k < |path| => HopJson(path[k]))
  }

  /** The loop over the hops, with its early returns. */
  method RebuildPath(env: Env, hops: seq<Json>) returns (path: Option<seq<Asset>>)
    ensures path == SanitizePath(env, hops)
  {
    var done: seq<Asset> := [];
    for i := 0 to |hops|
      invariant SanitizePath(env, hops[..i]) == Some(done)
    {
      assert hops[..i + 1][..i] == hops[..i];
      var asset := SanitizeHop(env, hops[i]);
      if asset.None? {
        FailedPrefix(env, hops, i + 1);
        return None;
      }
      done := done + [asset.value];
    }
    assert hops[..|hops|] == hops;
    return Some(done);
  }

  lemma {:induction false} FailedPrefix(env: Env, hops: seq<Json>, n: nat)
    requires n <= |hops| && SanitizePath(env, hops[..n]).None?
    ensures SanitizePath(env, hops).None?
  {
    if n == |hops| {
      assert hops[..n] == hops;
    } else {
      assert hops[..|hops| - 1][..n] == hops[..n];
      FailedPrefix(env, hops[..|hops| - 1], n);
    }
  }

  lemma {:induction false} SanitizedPathIsGood(env: Env, hops: seq<Json>)
    requires SanitizePath(env, hops).Some?
    ensures |SanitizePath(env, hops).value| == |hops|
    ensures forall k :: 0 <= k < |hops| ==> GoodAsset(env, SanitizePath(env, hops).value[k])
  {
    if hops == [] {
    } else {
      SanitizedPathIsGood(env, hops[..|hops| - 1]);
      var hop := hops[|hops| - 1];
      SanitizedAssetIsGood(env, Field(hop, "asset_code"), Field(hop, "asset_issuer"));
    }
  }

  lemma HopComesBack(env: Env, a: Asset)
    requires GoodAsset(env, a)
    ensures SanitizeHop(env, HopJson(a)) == Some(a)
  {
    SanitizeAssetExact(env, a);
    HopFields(a);
  }

  lemma PathJsonAppend(path: seq<Asset>, a: Asset)
    ensures PathJson(path + [a]) == PathJson(path) + [HopJson(a)]
  {
  }

  lemma SanitizePathAppend(env: Env, hops: seq<Json>, hop: Json)
    requires SanitizePath(env, hops).Some? && SanitizeHop(env, hop).Some?
    ensures SanitizePath(env, hops + [hop]) == Some(SanitizePath(env, hops).value + [SanitizeHop(env, hop).value])
  {
    assert (hops + [hop])[..|hops|] == hops;
  }

  lemma {:induction false} GoodPathComesBack(env: Env, path: seq<Asset>)
    requires forall k :: 0 <= k < |path| ==> GoodAsset(env, path[k])
    ensures SanitizePath(env, PathJson(path)) == Some(path)
  {
    if path == [] {
    } else {
      var init, last := path[..|path| - 1], path[|path| - 1];
      assert path == init + [last];
      GoodPathComesBack(env, init);
      HopComesBack(env, last);
      PathJsonAppend(init, last);
      SanitizePathAppend(env, PathJson(init), HopJson(last));
    }
  }

  // ---- the quote ------------------------------------------------------------------

  datatype Quote = Quote(
    source: Asset, dest: Asset,
    sourceAmount: string, sendMax: string, destinationAmount: string,
    path: seq<Asset>, slippage: real, cached: bool)

  predicate Amount(text: string) { NormalizeAmount(text, false) == Some(text) }

  /** What a quote that passed the rebuild is guaranteed to be. */
  predicate GoodQuote(env: Env, q: Quote)
  {
    && GoodAsset(env, q.source) && GoodAsset(env, q.dest)
    && Amount(q.sourceAmount) && Amount(q.sendMax) && Amount(q.destinationAmount)
    && ToStroopsOf(q.sourceAmount) <= ToStroopsOf(q.sendMax)
    && 0.0 <= q.slippage <= 0.5
    && |q.path| <= 6
    && forall k :: 0 <= k < |q.path| ==> GoodAsset(env, q.path[k])
  }

  function AmountField(v: Json): Option<string>
  {
    if v.Str? then NormalizeAmount(v.s, false) else None
  }

  function SanitizeQuote(env: Env, data: Json): Option<Quote>
  {
    if !data.Obj? then None
    else Rebuild(env,
                 SanitizeQuoteAsset(env, Field(data, "sourceAsset"), Field(data, "sourceAssetIssuer")),
                 SanitizeQuoteAsset(env, Field(data, "destinationAsset"), Field(data, "destinationAssetIssuer")),
                 AmountField(Field(data, "sourceAmount")),
                 AmountField(Field(data, "sendMax")),
                 AmountField(Field(data, "destinationAmount")),
                 env.number(Field(data, "slippage")),
                 Field(data, "path"),
                 Field(data, "cached") == Bool(true))
  }

  function Rebuild(env: Env, source: Option<Asset>, dest: Option<Asset>,
                   sourceAmount: Option<string>, sendMax: Option<string>, destinationAmount: Option<string>,
                   slippage: Option<real>, hops: Json, cached: bool): Option<Quote>
  {
    if source.None? || dest.None? then None
    else if sourceAmount.None? || sendMax.None? || destinationAmount.None? then None
    else if ToStroopsOf(sendMax.value) < ToStroopsOf(sourceAmount.value) then None
    else if slippage.None? || slippage.value < 0.0 || slippage.value > MAX_SLIPPAGE then None
    else if !hops.Arr? || |hops.items| > MAX_PATH_HOPS then None
    else
      var path := SanitizePath(env, hops.items);
      if path.None? then None
      else Some(Quote(source.value, dest.value, sourceAmount.value, sendMax.value, destinationAmount.value,
                      path.value, slippage.value, cached))
  }

  function QuoteJson(q: Quote): Json
  {
    Obj(map[
      "sourceAsset" := Str(q.source.code), "sourceAssetIssuer" := IssuerJson(q.source.issuer),
      "sourceAmount" := Str(q.sourceAmount), "sendMax" := Str(q.sendMax),
      "destinationAsset" := Str(q.dest.code), "destinationAssetIssuer" := IssuerJson(q.dest.issuer),
      "destinationAmount" := Str(q.destinationAmount),
      "path" := Arr(PathJson(q.path)), "slippage" := Num(q.slippage), "cached" := Bool(q.cached)])
  }

  /** Reading the fields of a quote object back. */
  lemma QuoteFields(q: Quote)
    ensures var d := QuoteJson(q);
      && Field(d, "sourceAsset") == Str(q.source.code) && Field(d, "sourceAssetIssuer") == IssuerJson(q.source.issuer)
      && Field(d, "sourceAmount") == Str(q.sourceAmount) && Field(d, "sendMax") == Str(q.sendMax)
      && Field(d, "destinationAsset") == Str(q.dest.code) && Field(d, "destinationAssetIssuer") == IssuerJson(q.dest.issuer)
      && Field(d, "destinationAmount") == Str(q.destinationAmount)
      && Field(d, "path") == Arr(PathJson(q.path)) && Field(d, "slippage") == Num(q.slippage)
      && Field(d, "cached") == Bool(q.cached)
  {
  }

  lemma HopFields(a: Asset)
    ensures Field(HopJson(a), "asset_code") == Str(a.code) && Field(HopJson(a), "asset_issuer") == IssuerJson(a.issuer)
  {
    assert "asset_code" != "asset_issuer";
  }

  lemma AmountFieldIsAmount(v: Json)
    requires AmountField(v).Some?
    ensures Amount(AmountField(v).value)
  {
    NormalizeIsIdempotent(v.s, false);
  }

  /** Whatever the input, a rebuilt quote is a good one. */
  lemma SanitizedQuoteIsGood(env: Env, data: Json)
    requires SanitizeQuote(env, data).Some?
    ensures GoodQuote(env, SanitizeQuote(env, data).value)
  {
    SanitizedAssetIsGood(env, Field(data, "sourceAsset"), Field(data, "sourceAssetIssuer"));
    SanitizedAssetIsGood(env, Field(data, "destinationAsset"), Field(data, "destinationAssetIssuer"));
    AmountFieldIsAmount(Field(data, "sourceAmount"));
    AmountFieldIsAmount(Field(data, "sendMax"));
    AmountFieldIsAmount(Field(data, "destinationAmount"));
    SanitizedPathIsGood(env, Field(data, "path").items);
  }

  lemma GoodPartsRebuild(env: Env, q: Quote)
    requires ToStroopsOf(q.sourceAmount) <= ToStroopsOf(q.sendMax) && 0.0 <= q.slippage <= MAX_SLIPPAGE
    requires |q.path| <= MAX_PATH_HOPS && SanitizePath(env, PathJson(q.path)) == Some(q.path)
    ensures Rebuild(env, Some(q.source), Some(q.dest), Some(q.sourceAmount), Some(q.sendMax), Some(q.destinationAmount),
                    Some(q.slippage), Arr(PathJson(q.path)), q.cached) == Some(q)
  {
  }

  lemma GoodQuoteFields(env: Env, q: Quote)
    requires GoodQuote(env, q) && env.number(Num(q.slippage)) == Some(q.slippage)
    ensures SanitizeQuote(env, QuoteJson(q)) == Some(q)
  {
    QuoteFields(q);
    SanitizeAssetExact(env, q.source);
    SanitizeAssetExact(env, q.dest);
    GoodPathComesBack(env, q.path);
    GoodPartsRebuild(env, q);
  }

  /** The rebuild lets a quote object through unchanged exactly when it is good. */
  lemma GoodQuoteComesBack(env: Env, q: Quote)
    requires env.number(Num(q.slippage)) == Some(q.slippage)
    ensures GoodQuote(env, q) <==> SanitizeQuote(env, QuoteJson(q)) == Some(q)
  {
    if GoodQuote(env, q) {
      GoodQuoteFields(env, q);
    } else if SanitizeQuote(env, QuoteJson(q)) == Some(q) {
      SanitizedQuoteIsGood(env, QuoteJson(q));
    }
  }

  /** The asset that a code and an issuer name: no issuer, null or the empty text stand for none. */
  predicate Names(code: Json, issuer: Json, a: Asset)
  {
    code == Str(a.code) && if a.issuer.None? then issuer in {Undefined, Null, Str("")} else issuer == Str(a.issuer.value)
  }

  lemma SanitizedAssetIs(env: Env, code: Json, issuer: Json, a: Asset)
    ensures SanitizeQuoteAsset(env, code, issuer) == Some(a) <==> Names(code, issuer, a) && GoodAsset(env, a)
  {
    CodeTextIsPattern(env.upper(a.code));
    if a.issuer == Some("") {
      assert !AccountId.Accepted("");
    }
  }

  /** The hops are the assets of the path, in order. */
  predicate PathNames(hops: seq<Json>, path: seq<Asset>)
  {
    && |hops| == |path|
    && forall k :: 0 <= k < |hops| ==> hops[k].Obj? && Names(Field(hops[k], "asset_code"), Field(hops[k], "asset_issuer"), path[k])
  }

  lemma {:induction false} SanitizedPathIs(env: Env, hops: seq<Json>, path: seq<Asset>)
    ensures SanitizePath(env, hops) == Some(path) <==>
      PathNames(hops, path) && forall k :: 0 <= k < |path| ==> GoodAsset(env, path[k])
  {
    if |hops| != |path| {
      if SanitizePath(env, hops).Some? {
        SanitizedPathIsGood(env, hops);
      }
    } else if hops != [] {
      var n := |hops| - 1;
      LastHop(env, hops, path[..n], path[n]);
      assert path == path[..n] + [path[n]];
      SanitizedPathIs(env, hops[..n], path[..n]);
      SanitizedAssetIs(env, Field(hops[n], "asset_code"), Field(hops[n], "asset_issuer"), path[n]);
    }
  }

  lemma LastHop(env: Env, hops: seq<Json>, init: seq<Asset>, last: Asset)
    requires hops != []
    ensures SanitizePath(env, hops) == Some(init + [last]) <==>
      SanitizePath(env, hops[..|hops| - 1]) == Some(init) && SanitizeHop(env, hops[|hops| - 1]) == Some(last)
  {
    if SanitizePath(env, hops) == Some(init + [last]) {
      var i, l := SanitizePath(env, hops[..|hops| - 1]).value, SanitizeHop(env, hops[|hops| - 1]).value;
      assert i + [l] == init + [last];
      assert i == (i + [l])[..|i|] && init == (init + [last])[..|init|] && |i| == |init|;
      assert l == (i + [l])[|i|];
    }
  }

  /** The JSON says this quote, up to white space and padding of amounts. */
  predicate Says(env: Env, data: Json, q: Quote)
  {
    && data.Obj?
    && Names(Field(data, "sourceAsset"), Field(data, "sourceAssetIssuer"), q.source)
    && Names(Field(data, "destinationAsset"), Field(data, "destinationAssetIssuer"), q.dest)
    && SaysAmount(Field(data, "sourceAmount"), q.sourceAmount) && SaysAmount(Field(data, "sendMax"), q.sendMax)
    && SaysAmount(Field(data, "destinationAmount"), q.destinationAmount)
    && env.number(Field(data, "slippage")) == Some(q.slippage)
    && Field(data, "path").Arr? && PathNames(Field(data, "path").items, q.path)
    && (q.cached <==> Field(data, "cached") == Bool(true))
  }

  predicate SaysAmount(v: Json, text: string) { v.Str? && NormalizeAmount(v.s, false) == Some(text) }

  /** The rebuild of the parts succeeds exactly if they are there and in range. */
  lemma RebuiltParts(env: Env, a: Option<Asset>, b: Option<Asset>, x: Option<string>, y: Option<string>, z: Option<string>,
                     slippage: Option<real>, hops: Json, cached: bool, q: Quote)
    ensures Rebuild(env, a, b, x, y, z, slippage, hops, cached) == Some(q) <==>
      && a == Some(q.source) && b == Some(q.dest)
      && x == Some(q.sourceAmount) && y == Some(q.sendMax) && z == Some(q.destinationAmount)
      && ToStroopsOf(q.sourceAmount) <= ToStroopsOf(q.sendMax)
      && slippage == Some(q.slippage) && 0.0 <= q.slippage <= 0.5
      && hops.Arr? && |hops.items| <= 6 && SanitizePath(env, hops.items) == Some(q.path) && cached == q.cached
  {
  }

  /** The rebuild gives exactly the good quote that the JSON says, if it says one. */
  lemma RebuildIsExact(env: Env, data: Json, q: Quote)
    ensures SanitizeQuote(env, data) == Some(q) <==> Says(env, data, q) && GoodQuote(env, q)
  {
    PartsOf(env, data, q);
    PartsAre(env, data, q);
  }

  /** Each part is what the rebuild makes of its fields. */
  lemma PartsAre(env: Env, data: Json, q: Quote)
    ensures Parts(env, data, q) <==> Says(env, data, q) && GoodQuote(env, q)
  {
    if Parts(env, data, q) {
      PartsSay(env, data, q);
    } else if Says(env, data, q) && GoodQuote(env, q) {
      SaidIsParts(env, data, q);
    }
  }

  lemma PartsSay(env: Env, data: Json, q: Quote)
    requires Parts(env, data, q)
    ensures Says(env, data, q) && GoodQuote(env, q)
  {
    SanitizedAssetIs(env, Field(data, "sourceAsset"), Field(data, "sourceAssetIssuer"), q.source);
    SanitizedAssetIs(env, Field(data, "destinationAsset"), Field(data, "destinationAssetIssuer"), q.dest);
    SanitizedAmountIs(Field(data, "sourceAmount"), q.sourceAmount);
    SanitizedAmountIs(Field(data, "sendMax"), q.sendMax);
    SanitizedAmountIs(Field(data, "destinationAmount"), q.destinationAmount);
    SanitizedPathIs(env, Field(data, "path").items, q.path);
  }

  lemma SaidIsParts(env: Env, data: Json, q: Quote)
    requires Says(env, data, q) && GoodQuote(env, q)
    ensures Parts(env, data, q)
  {
    SanitizedAssetIs(env, Field(data, "sourceAsset"), Field(data, "sourceAssetIssuer"), q.source);
    SanitizedAssetIs(env, Field(data, "destinationAsset"), Field(data, "destinationAssetIssuer"), q.dest);
    SanitizedAmountIs(Field(data, "sourceAmount"), q.sourceAmount);
    SanitizedAmountIs(Field(data, "sendMax"), q.sendMax);
    SanitizedAmountIs(Field(data, "destinationAmount"), q.destinationAmount);
    SanitizedPathIs(env, Field(data, "path").items, q.path);
  }

  predicate Parts(env: Env, data: Json, q: Quote)
  {
    && data.Obj?
    && SanitizeQuoteAsset(env, Field(data, "sourceAsset"), Field(data, "sourceAssetIssuer")) == Some(q.source)
    && SanitizeQuoteAsset(env, Field(data, "destinationAsset"), Field(data, "destinationAssetIssuer")) == Some(q.dest)
    && AmountField(Field(data, "sourceAmount")) == Some(q.sourceAmount) && AmountField(Field(data, "sendMax")) == Some(q.sendMax)
    && AmountField(Field(data, "destinationAmount")) == Some(q.destinationAmount)
    && ToStroopsOf(q.sourceAmount) <= ToStroopsOf(q.sendMax)
    && env.number(Field(data, "slippage")) == Some(q.slippage) && 0.0 <= q.slippage <= 0.5
    && Field(data, "path").Arr? && |Field(data, "path").items| <= 6
    && SanitizePath(env, Field(data, "path").items) == Some(q.path)
    && (q.cached <==> Field(data, "cached") == Bool(true))
  }

  lemma SanitizedAmountIs(v: Json, text: string)
    ensures AmountField(v) == Some(text) <==> SaysAmount(v, text)
    ensures SaysAmount(v, text) ==> Amount(text)
  {
    if v.Str? && NormalizeAmount(v.s, false) == Some(text) {
      NormalizeIsIdempotent(v.s, false);
    }
  }

  lemma PartsOf(env: Env, data: Json, q: Quote)
    ensures SanitizeQuote(env, data) == Some(q) <==> Parts(env, data, q)
  {
    RebuiltParts(env,
      SanitizeQuoteAsset(env, Field(data, "sourceAsset"), Field(data, "sourceAssetIssuer")),
      SanitizeQuoteAsset(env, Field(data, "destinationAsset"), Field(data, "destinationAssetIssuer")),
      AmountField(Field(data, "sourceAmount")), AmountField(Field(data, "sendMax")), AmountField(Field(data, "destinationAmount")),
      env.number(Field(data, "slippage")), Field(data, "path"), Field(data, "cached") == Bool(true), q);
  }

  /** sanitizeQuote is idempotent. */
  lemma SanitizeQuoteIsIdempotent(env: Env, data: Json)
    requires SanitizeQuote(env, data).Some?
    requires forall x :: env.number(Num(x)) == Some(x)
    ensures SanitizeQuote(env, QuoteJson(SanitizeQuote(env, data).value)) == SanitizeQuote(env, data)
  {
    SanitizedQuoteIsGood(env, data);
    GoodQuoteComesBack(env, SanitizeQuote(env, data).value);
  }

  /** Only the named fields matter: whatever else the input carries, the rebuilt quote is the same. */
  lemma ExtraFieldsVanish(env: Env, fields: map<string, Json>, name: string, value: Json)
    requires name !in QuoteJson(Quote(Asset("", None), Asset("", None), "", "", "", [], 0.0, false)).fields
    ensures SanitizeQuote(env, Obj(fields[name := value])) == SanitizeQuote(env, Obj(fields))
  {
  }

  /**
   * A rebuilt quote never asks the payer for less than the
   * source amount, and names at most six valid hops.
   */
  lemma SendMaxCoversSource(env: Env, data: Json)
    requires SanitizeQuote(env, data).Some?
    ensures var q := SanitizeQuote(env, data).value;
      && 1 <= ToStroopsOf(q.sourceAmount) <= ToStroopsOf(q.sendMax) <= 9_223_372_036_854_775_807
      && |q.path| <= 6 && |q.path| == |Field(data, "path").items|
  {
    SanitizedQuoteIsGood(env, data);
    var q := SanitizeQuote(env, data).value;
    NormalizeIsIdempotent(q.sourceAmount, false);
    NormalizeIsIdempotent(q.sendMax, false);
    SanitizedPathIsGood(env, Field(data, "path").items);
  }

  // ---- the coordinator's own shape check -------------------------------------------

  /** isValidQuote of the coordinator. */
  predicate IsValidQuote(data: Json)
  {
    && data.Obj? && Field(data, "sourceAsset").Str?
    && Field(data, "sourceAmount").Str? && Matches(Field(data, "sourceAmount").s, 7)
    && Field(data, "sendMax").Str? && Matches(Field(data, "sendMax").s, 7)
    && Field(data, "path").Arr?
  }

  /** Quotes the rebuild produces pass the shape check. */
  lemma GoodQuotePassesShapeCheck(env: Env, q: Quote)
    requires GoodQuote(env, q)
    ensures IsValidQuote(QuoteJson(q))
  {
    QuoteFields(q);
    DropPaddingMatches(Trim(q.sourceAmount));
    DropPaddingMatches(Trim(q.sendMax));
  }
}
