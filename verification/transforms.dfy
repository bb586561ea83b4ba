/**
 * The value transforms of the product mapping: each takes the value found
 * at a field's access path and returns what is written to the product.
 */
module FieldTransforms {
  import opened Common
  import opened Plenty
  import opened Shopware
  import opened NumericStrings

  newtype Byte = x: int | 0 <= x < 256

  /** The longest meta description Shopware accepts, in bytes. */
  const MetaDescriptionMaxBytes: nat := 255

  /** metaDescription: cut to its first 255 bytes (`strlen`/`substr` count bytes). */
  function TruncateMetaDescription(value: seq<Byte>): (r: seq<Byte>)
    ensures |r| <= MetaDescriptionMaxBytes
    ensures r <= value
    ensures |value| <= MetaDescriptionMaxBytes <==> r == value
  {
    if |value| > MetaDescriptionMaxBytes then value[..MetaDescriptionMaxBytes] else value
  }

  /** Truncating twice is truncating once. */
  lemma TruncateMetaDescriptionIdempotent(value: seq<Byte>)
    ensures TruncateMetaDescription(TruncateMetaDescription(value)) == TruncateMetaDescription(value)
  {
  }

  /** keywords, releaseDate: an empty string becomes null (`$value === ''`). */
  function EmptyStringToNull(value: Value): (r: Value)
    ensures r != Str("")
    ensures value != Str("") ==> r == value
  {
    if value == Str("") then Null else value
  }

  /** minPurchase: anything below 1 becomes 1. */
  function ClampMinPurchase(value: int): (r: int)
    ensures r >= 1
    ensures value >= 1 <==> r == value
  {
    if value < 1 then 1 else value
  }

  /** maxPurchase: anything below 1 becomes 100. */
  function ClampMaxPurchase(value: int): (r: int)
    ensures r >= 1
    ensures value >= 1 ==> r == value
    ensures value < 1 ==> r == 100
  {
    if value < 1 then 100 else value
  }

  /** The barcode type whose code is the EAN. */
  const EanBarcodeId: int := 1

  /** ean: the code of the first barcode of type 1, else null. */
  method Ean(barcodes: seq<Barcode>) returns (r: Option<string>)
    ensures r.None? <==> forall i | 0 <= i < |barcodes| :: barcodes[i].barcodeId != EanBarcodeId
    ensures r.Some? ==> exists i | 0 <= i < |barcodes| ::
      && barcodes[i].barcodeId == EanBarcodeId
      && r.value == barcodes[i].code
      && forall j | 0 <= j < i :: barcodes[j].barcodeId != EanBarcodeId
  {
    var i := 0;
    while i < |barcodes|
      invariant 0 <= i <= |barcodes|
      invariant forall j | 0 <= j < i :: barcodes[j].barcodeId != EanBarcodeId
    {
      if barcodes[i].barcodeId == EanBarcodeId {
        return Some(barcodes[i].code);
      }
      i := i + 1;
    }
    return None;
  }

  /** manufacturerNumber: the first supplier item number that is not empty, else null. */
  method ManufacturerNumber(suppliers: seq<Supplier>) returns (r: Option<Value>)
    ensures r.None? <==> forall i | 0 <= i < |suppliers| :: IsEmptyValue(suppliers[i].itemNumber)
    ensures r.Some? ==> exists i | 0 <= i < |suppliers| ::
      && !IsEmptyValue(suppliers[i].itemNumber)
      && r.value == suppliers[i].itemNumber
      && forall j | 0 <= j < i :: IsEmptyValue(suppliers[j].itemNumber)
  {
    var i := 0;
    while i < |suppliers|
      invariant 0 <= i <= |suppliers|
      invariant forall j | 0 <= j < i :: IsEmptyValue(suppliers[j].itemNumber)
    {
      if !IsEmptyValue(suppliers[i].itemNumber) {
        return Some(suppliers[i].itemNumber);
      }
      i := i + 1;
    }
    return None;
  }

  /** manufacturerId: a manufacturer other than 0 is looked up; 0, null and unlinked give null. */
  function ManufacturerId(value: Option<int>, manufacturerLinks: map<int, SwId>): (r: Option<SwId>)
    ensures r.Some? <==> value.Some? && value.value != 0 && value.value in manufacturerLinks
    ensures r.Some? ==> r.value == manufacturerLinks[value.value]
  {
    if value.Some? && value.value != 0 && value.value in manufacturerLinks then Some(manufacturerLinks[value.value])
    else None
  }

  /** deliveryTimeId, unitId: the link of the value, or null when it has none. */
  function LinkOrNull(value: Option<int>, links: map<int, SwId>): (r: Option<SwId>)
    ensures r.Some? <==> value.Some? && value.value in links
    ensures r.Some? ==> r.value == links[value.value]
  {
    if value.Some? && value.value in links then Some(links[value.value]) else None
  }

  /** A tax link: the Shopware tax and its rate in percent. */
  datatype TaxLink = TaxLink(id: SwId, taxRate: real)

  /** taxId: the Shopware tax linked to the variation's VAT id. */
  function TaxId(vatId: Option<int>, taxLinks: map<int, TaxLink>): (r: Option<SwId>)
    ensures r.Some? <==> vatId.Some? && vatId.value in taxLinks
    ensures r.Some? ==> r.value == taxLinks[vatId.value].id
  {
    if vatId.Some? && vatId.value in taxLinks then Some(taxLinks[vatId.value].id) else None
  }

  /** PHP's intval on a payload value. */
  function IntVal(v: Value): int
  {
    match v
    case Null => 0
    case Bool(b) => if b then 1 else 0
    case Int(i) => i
    case Str(s) => StringToInt(s)
  }

  /**
   * isCloseout from stockLimitation: the integer 1 and true give true,
   * null and every other integer give false; strings are read as `intval`
   * reads them (see IsCloseoutDecimal).
   */
  function IsCloseout(stockLimitation: Value): (r: bool)
    ensures stockLimitation.Int? ==> (r <==> stockLimitation.i == 1)
    ensures stockLimitation.Bool? ==> r == stockLimitation.b
    ensures stockLimitation.Null? ==> !r
  {
    IntVal(stockLimitation) == 1
  }

  /**
   * A string holding a decimal integer, after any whitespace and before
   * anything that cannot continue a numeral, is a closeout exactly when
   * that integer is 1.
   */
  lemma IsCloseoutDecimal(spaces: string, i: int, tail: string)
    requires forall k | 0 <= k < |spaces| :: IsNumericSpace(spaces[k])
    requires PhpIntMin <= i <= PhpIntMax
    requires |tail| == 0 || !(IsDigit(tail[0]) || tail[0] == '.' || tail[0] == 'e' || tail[0] == 'E')
    ensures IsCloseout(Str(spaces + DecimalString(i) + tail)) <==> i == 1
  {
    DecimalStringToInt(spaces, i, tail);
  }

  /** Values the stock limitation takes, as integers, booleans and decimal strings. */
  lemma IsCloseoutExamples()
    ensures IsCloseout(Int(1)) && IsCloseout(Bool(true)) && IsCloseout(Str("1")) && IsCloseout(Str(" 1"))
    ensures !IsCloseout(Int(0)) && !IsCloseout(Int(2)) && !IsCloseout(Null) && !IsCloseout(Str("12"))
  {
    assert DecimalString(1) == "1";
    IsCloseoutDecimal(" ", 1, "");
    assert " " + "1" + "" == " 1";
    IsCloseoutDecimal("", 1, "");
    assert "" + "1" + "" == "1";
    IsCloseoutTwelve();
  }

  lemma IsCloseoutTwelve()
    ensures !IsCloseout(Str("12"))
  {
    assert DigitString(12) == DigitString(1) + [DigitChar(2)];
    assert DecimalString(12) == "12";
    IsCloseoutDecimal("", 12, "");
    assert "" + "12" + "" == "12";
  }

  /** A string that does not start with a numeral reads as 0. */
  lemma IsCloseoutNonNumeric()
    ensures !IsCloseout(Str("abc")) && !IsCloseout(Str("")) && !IsCloseout(Str("."))
  {
    assert SkipSpace("abc") == "abc" && DigitRun("abc") == 0 && FractionDigits("abc") == "";
    assert SkipSpace(".") == "." && DigitRun(".") == 0 && FractionDigits(".") == "";
  }

  /** A fraction is cut toward zero: "1.9" is a closeout and "0.5" is not. */
  lemma IsCloseoutFractions()
    ensures IsCloseout(Str("1.9")) && !IsCloseout(Str("0.5"))
  {
    ParseFraction('1', '9');
    assert DigitsValue("19") == 19 by { assert "19"[..1] == "1"; }
    ParseFraction('0', '5');
    assert DigitsValue("05") == 5 by { assert "05"[..1] == "0"; }
  }

  lemma ParseFraction(a: char, b: char)
    requires IsDigit(a) && IsDigit(b)
    ensures ParseNumeral([a, '.', b]) == Some(Numeral(false, [a, b], 1, 0))
  {
    var s := [a, '.', b];
    assert SkipSpace(s) == s;
    assert DigitRun(s) == 1 by {
      assert s[1..] == ['.', b];
      assert DigitRun(['.', b]) == 0;
    }
    assert s[1..] == ['.', b] && s[..1] == [a];
    assert ['.', b][1..] == [b] && DigitRun([b]) == 1 && [b][..1] == [b] && [b][1..] == [];
    assert FractionDigits(['.', b]) == [b] && AfterFraction(['.', b]) == [];
    assert [a] + [b] == [a, b];
  }

  /** The exponent counts: "10e-1" is a closeout and "1e1" (ten) is not. */
  lemma IsCloseoutExponents()
    ensures IsCloseout(Str("10e-1")) && !IsCloseout(Str("1e1"))
  {
    var s := "10e-1";
    assert SkipSpace(s) == s;
    assert DigitRun(s) == 2 by {
      assert s[1..] == "0e-1" && s[1..][1..] == "e-1" && DigitRun("e-1") == 0;
    }
    assert s[..2] == "10" && s[2..] == "e-1";
    assert DigitsValue("10") == 10 by { assert "10"[..1] == "1"; }
    assert FractionDigits("e-1") == "" && AfterFraction("e-1") == "e-1";
    assert ExponentOf("e-1") == -1 by {
      assert "e-1"[1..] == "-1" && "-1"[1..] == "1" && DigitRun("1") == 1 && "1"[..1] == "1";
      assert DigitsValue("1") == 1;
    }
    assert "10" + "" == "10";
    assert ParseNumeral(s) == Some(Numeral(false, "10", 0, -1));
    var t := "1e1";
    assert SkipSpace(t) == t;
    assert DigitRun(t) == 1 by {
      assert t[1..] == "e1" && DigitRun("e1") == 0;
    }
    assert t[..1] == "1" && t[1..] == "e1";
    assert FractionDigits("e1") == "" && AfterFraction("e1") == "e1";
    assert ExponentOf("e1") == 1 by {
      assert "e1"[1..] == "1" && DigitRun("1") == 1 && "1"[..1] == "1";
      assert DigitsValue("1") == 1;
    }
    assert "1" + "" == "1";
    assert DigitsValue("1") == 1;
    assert ParseNumeral(t) == Some(Numeral(false, "1", 0, 1));
    assert Pow10(1) == 10;
  }

  /** The access paths of the product name, chosen by the productMappingProductName setting. */
  function NameAccessPaths(setting: Option<string>): (r: seq<string>)
    ensures |r| == 1
    ensures setting == Some("variation.name") <==> r == ["variation.base.name"]
    ensures setting == Some("item.name2") <==> r == ["variation.base.texts.0.name2"]
    ensures setting == Some("item.name3") <==> r == ["variation.base.texts.0.name3"]
    ensures r == ["variation.base.texts.0.name"] <==>
      setting != Some("variation.name") && setting != Some("item.name2") && setting != Some("item.name3")
  {
    if setting == Some("variation.name") then ["variation.base.name"]
    else if setting == Some("item.name2") then ["variation.base.texts.0.name2"]
    else if setting == Some("item.name3") then ["variation.base.texts.0.name3"]
    else ["variation.base.texts.0.name"]
  }

  /** The result of the name transform: a name, or the signal to try the next access path. */
  datatype NameResult = NextPath | Name(value: Value)

  /** name: an empty base name asks for the next path; any other empty value becomes '-'. */
  function ProductName(accessPath: string, value: Value): (r: NameResult)
    ensures r.NextPath? <==> accessPath == "variation.base.name" && IsEmptyValue(value)
    ensures r.Name? ==> !IsEmptyValue(r.value)
    ensures r.Name? && !IsEmptyValue(value) ==> r.value == value
  {
    if accessPath == "variation.base.name" && IsEmptyValue(value) then NextPath
    else if IsEmptyValue(value) then Name(Str("-"))
    else Name(value)
  }

  /** The Shopware custom field type for a Plenty property cast. */
  function CustomFieldType(cast: string): (r: string)
    ensures cast == "float" <==> r == "float"
    ensures cast == "int" <==> r == "int"
    ensures cast == "file" <==> r == "media"
    ensures r == "html" <==> cast != "float" && cast != "int" && cast != "file"
  {
    if cast == "float" then "float"
    else if cast == "int" then "int"
    else if cast == "file" then "media"
    else "html"
  }

  // ---------------------------------------------------------------- stock

  /** `empty()` on the warehouse-ids setting: '' and '0' count as empty. */
  predicate EmptySetting(s: string)
  {
    s == "" || s == "0"
  }

  /** str_replace(' ', '', s) */
  function RemoveSpaces(s: string): (r: string)
    ensures ' ' !in r
    ensures |r| <= |s|
    decreases |s|
  {
    if s == [] then [] else (if s[0] == ' ' then [] else [s[0]]) + RemoveSpaces(s[1..])
  }

  /**
   * Whether a warehouse counts: listed in the warehouse-ids setting
   * (compared as decimal text), or, when that setting is empty, listed in
   * the sales-warehouse fallback.
   */
  predicate WarehouseAllowed(warehouseId: int, setting: string, fallback: seq<int>)
  {
    var s := RemoveSpaces(setting);
    (EmptySetting(s) && warehouseId in fallback) || DecimalString(warehouseId) in Explode(",", s)
  }

  /** What a stock entry adds: physical stock less both reservations. */
  function NetStock(e: StockEntry): int
  {
    e.stockPhysical - e.reservedStock - e.reservedBundle
  }

  predicate Counted(e: StockEntry, variationId: PlentyId, setting: string, fallback: seq<int>)
  {
    e.variationId == variationId && WarehouseAllowed(e.warehouseId, setting, fallback)
  }

  /** The sum the stock loop computes over a variation's stock entries. */
  function StockSum(entries: seq<StockEntry>, variationId: PlentyId, setting: string, fallback: seq<int>): int
    decreases |entries|
  {
    if entries == [] then 0
    else
      var e := entries[|entries| - 1];
      StockSum(entries[..|entries| - 1], variationId, setting, fallback)
        + (if Counted(e, variationId, setting, fallback) then NetStock(e) else 0)
  }

  /** The sum splits over concatenation. */
  lemma {:induction false} StockSumConcat(a: seq<StockEntry>, b: seq<StockEntry>, variationId: PlentyId,
                                          setting: string, fallback: seq<int>)
    ensures StockSum(a + b, variationId, setting, fallback)
         == StockSum(a, variationId, setting, fallback) + StockSum(b, variationId, setting, fallback)
    decreases |b|
  {
    if b == [] {
      assert a + b == a;
    } else {
      StockSumConcat(a, b[..|b| - 1], variationId, setting, fallback);
      assert (a + b)[..|a + b| - 1] == a + b[..|b| - 1];
    }
  }

  /** Only entries of the variation itself, in an allowed warehouse, contribute. */
  lemma {:induction false} StockSumIgnores(entries: seq<StockEntry>, variationId: PlentyId, setting: string,
                                           fallback: seq<int>)
    requires forall i | 0 <= i < |entries| :: !Counted(entries[i], variationId, setting, fallback)
    ensures StockSum(entries, variationId, setting, fallback) == 0
    decreases |entries|
  {
    if entries != [] {
      StockSumIgnores(entries[..|entries| - 1], variationId, setting, fallback);
    }
  }

  /**
   * stock: an existing product keeps its stock (stock is set on creation
   * only); a new one gets the net stock of its own entries in the allowed
   * warehouses.
   */
  method Stock(variationId: PlentyId, entries: seq<StockEntry>, existing: Option<ExistingProduct>,
               setting: string, fallback: seq<int>) returns (stock: int)
    ensures existing.Some? ==> stock == existing.value.stock
    ensures existing.None? ==> stock == StockSum(entries, variationId, setting, fallback)
  {
    if existing.Some? {
      return existing.value.stock;
    }
    stock := 0;
    var i := 0;
    while i < |entries|
      invariant 0 <= i <= |entries|
      invariant stock == StockSum(entries[..i], variationId, setting, fallback)
    {
      var e := entries[i];
      assert entries[..i + 1] == entries[..i] + [e];
      if e.variationId == variationId && WarehouseAllowed(e.warehouseId, setting, fallback) {
        stock := stock + NetStock(e);
      }
      i := i + 1;
    }
    assert entries[..i] == entries;
  }

  // ---------------------------------------------------------------- price

  /** A price in one currency. */
  datatype PriceValue = PriceValue(currencyId: SwId, net: real, gross: real, linked: bool)

  /** A product price with its optional list price (UVP). */
  datatype Price = Price(value: PriceValue, listPrice: Option<PriceValue>)

  /** The sales-price ids configured for a currency. */
  datatype PriceIds = PriceIds(priceId: int, listPriceId: int)

  /**
   * Net from gross and a tax rate in percent. A rate of -100 makes the
   * divisor 0, where PHP throws; the model gives 0 there.
   */
  function Net(gross: real, taxRate: real): real
  {
    if taxRate == -100.0 then 0.0 else gross / (taxRate / 100.0 + 1.0)
  }

  /** Adding the tax back to the net price gives the gross price; with no tax they are equal. */
  lemma NetAddsBackToGross(gross: real, taxRate: real)
    requires taxRate != -100.0
    ensures Net(gross, taxRate) * (1.0 + taxRate / 100.0) == gross
    ensures taxRate == 0.0 ==> Net(gross, taxRate) == gross
  {
  }

  /**
   * The tax rate of the variation's VAT id: the rate of its linked tax.
   * An unlinked or missing VAT id reads as null in PHP, which divides as 0.
   */
  function TaxRateOf(vatId: Option<int>, taxLinks: map<int, TaxLink>): (r: real)
    ensures vatId.Some? && vatId.value in taxLinks ==> r == taxLinks[vatId.value].taxRate
    ensures !(vatId.Some? && vatId.value in taxLinks) ==> r == 0.0
  {
    if vatId.Some? && vatId.value in taxLinks then taxLinks[vatId.value].taxRate else 0.0
  }

  function PriceOf(currencyId: SwId, sp: SalesPrice, taxRate: real): PriceValue
  {
    PriceValue(currencyId, Net(sp.price, taxRate), sp.price, true)
  }

  /** The last sales price with the given id. */
  function LastWithId(prices: seq<SalesPrice>, id: int): (r: Option<SalesPrice>)
    decreases |prices|
  {
    if prices == [] then None
    else if prices[|prices| - 1].salesPriceId == id then Some(prices[|prices| - 1])
    else LastWithId(prices[..|prices| - 1], id)
  }

  /** The last sales price with the list-price id, skipping those that carry the price id. */
  function LastListPrice(prices: seq<SalesPrice>, priceId: int, listPriceId: int): (r: Option<SalesPrice>)
    decreases |prices|
  {
    if prices == [] then None
    else
      var p := prices[|prices| - 1];
      if p.salesPriceId != priceId && p.salesPriceId == listPriceId then Some(p)
      else LastListPrice(prices[..|prices| - 1], priceId, listPriceId)
  }

  lemma LastWithIdSpec(prices: seq<SalesPrice>, id: int)
    ensures LastWithId(prices, id).None? <==> forall i | 0 <= i < |prices| :: prices[i].salesPriceId != id
    ensures LastWithId(prices, id).Some? ==> exists i | 0 <= i < |prices| ::
      && prices[i] == LastWithId(prices, id).value
      && prices[i].salesPriceId == id
      && forall j | i < j < |prices| :: prices[j].salesPriceId != id
  {
    LastWithIdNone(prices, id);
    LastWithIdSome(prices, id);
  }

  lemma {:induction false} LastWithIdNone(prices: seq<SalesPrice>, id: int)
    ensures LastWithId(prices, id).None? <==> forall i | 0 <= i < |prices| :: prices[i].salesPriceId != id
    decreases |prices|
  {
    if prices != [] && prices[|prices| - 1].salesPriceId != id {
      var init := prices[..|prices| - 1];
      LastWithIdNone(init, id);
      assert forall i | 0 <= i < |init| :: init[i] == prices[i];
    }
  }

  lemma {:induction false} LastWithIdSome(prices: seq<SalesPrice>, id: int)
    ensures LastWithId(prices, id).Some? ==> exists i | 0 <= i < |prices| ::
      && prices[i] == LastWithId(prices, id).value
      && prices[i].salesPriceId == id
      && forall j | i < j < |prices| :: prices[j].salesPriceId != id
    decreases |prices|
  {
    if prices != [] {
      var n := |prices| - 1;
      if prices[n].salesPriceId == id {
        assert prices[n] == LastWithId(prices, id).value;
      } else {
        var init := prices[..n];
        LastWithIdSome(init, id);
        if LastWithId(init, id).Some? {
          var i :| 0 <= i < |init| && init[i] == LastWithId(init, id).value && init[i].salesPriceId == id
            && forall j | i < j < |init| :: init[j].salesPriceId != id;
          assert prices[i] == init[i];
          forall j | i < j < |prices| ensures prices[j].salesPriceId != id {
            if j < n {
              assert prices[j] == init[j];
            }
          }
        }
      }
    }
  }

  /** The price the loop and the fallback produce (the specification of GetPriceByPriceId). */
  function SelectPrice(ids: PriceIds, salesPrices: Option<seq<SalesPrice>>, currencyId: SwId, taxRate: real): Option<Price>
  {
    if salesPrices.None? then None
    else
      var price := LastWithId(salesPrices.value, ids.priceId);
      var list := LastListPrice(salesPrices.value, ids.priceId, ids.listPriceId);
      if price.Some? then
        Some(Price(PriceOf(currencyId, price.value, taxRate),
                   if list.Some? then Some(PriceOf(currencyId, list.value, taxRate)) else None))
      else if currencyId == DefaultCurrency then Some(Price(PriceValue(currencyId, 0.0, 0.0, true), None))
      else None
  }

  /**
   * getPriceByPriceId: the loop keeps the last price with the price id and
   * the last other price with the list-price id.
   */
  method GetPriceByPriceId(ids: PriceIds, salesPrices: Option<seq<SalesPrice>>, currencyId: SwId,
                           vatId: Option<int>, taxLinks: map<int, TaxLink>)
    returns (r: Option<Price>)
    ensures r == SelectPrice(ids, salesPrices, currencyId, TaxRateOf(vatId, taxLinks))
  {
    if salesPrices.None? {
      return None;
    }
    var taxRate := TaxRateOf(vatId, taxLinks);
    var prices := salesPrices.value;
    var price: Option<PriceValue> := None;
    var listPrice: Option<PriceValue> := None;
    var i := 0;
    while i < |prices|
      invariant 0 <= i <= |prices|
      invariant price == (if LastWithId(prices[..i], ids.priceId).Some?
                          then Some(PriceOf(currencyId, LastWithId(prices[..i], ids.priceId).value, taxRate)) else None)
      invariant listPrice == (if LastListPrice(prices[..i], ids.priceId, ids.listPriceId).Some?
                              then Some(PriceOf(currencyId, LastListPrice(prices[..i], ids.priceId, ids.listPriceId).value, taxRate))
                              else None)
    {
      var sp := prices[i];
      assert prices[..i + 1][..i] == prices[..i];
      if sp.salesPriceId == ids.priceId {
        price := Some(PriceOf(currencyId, sp, taxRate));
      } else if sp.salesPriceId == ids.listPriceId {
        listPrice := Some(PriceOf(currencyId, sp, taxRate));
      }
      i := i + 1;
    }
    assert prices[..i] == prices;
    if price.Some? {
      return Some(Price(price.value, listPrice));
    }
    if currencyId == DefaultCurrency {
      return Some(Price(PriceValue(currencyId, 0.0, 0.0, true), None));
    }
    return None;
  }

  /**
   * Without a salesPrices key there is no price. Otherwise a price with
   * the price id gives its gross (and net from the tax rate), with the list
   * price attached exactly when another entry carries the list-price id;
   * without one the default currency falls back to a zero price and any
   * other currency has none.
   */
  lemma SelectPriceSpec(ids: PriceIds, salesPrices: Option<seq<SalesPrice>>, currencyId: SwId, taxRate: real)
    ensures salesPrices.None? ==> SelectPrice(ids, salesPrices, currencyId, taxRate).None?
    ensures salesPrices.Some? && (exists i | 0 <= i < |salesPrices.value| :: salesPrices.value[i].salesPriceId == ids.priceId) ==>
      var r := SelectPrice(ids, salesPrices, currencyId, taxRate);
      && r.Some?
      && LastWithId(salesPrices.value, ids.priceId).Some?
      && r.value.value.gross == LastWithId(salesPrices.value, ids.priceId).value.price
      && r.value.value.net == Net(r.value.value.gross, taxRate)
      && r.value.value.currencyId == currencyId
      && (r.value.listPrice.Some? <==> LastListPrice(salesPrices.value, ids.priceId, ids.listPriceId).Some?)
    ensures salesPrices.Some? && (forall i | 0 <= i < |salesPrices.value| :: salesPrices.value[i].salesPriceId != ids.priceId) ==>
      SelectPrice(ids, salesPrices, currencyId, taxRate)
        == if currencyId == DefaultCurrency then Some(Price(PriceValue(currencyId, 0.0, 0.0, true), None)) else None
  {
    if salesPrices.Some? {
      LastWithIdSpec(salesPrices.value, ids.priceId);
    }
  }

  /** A list price is never taken from an entry carrying the price id, even when both ids are equal. */
  lemma {:induction false} LastListPriceSpec(prices: seq<SalesPrice>, priceId: int, listPriceId: int)
    ensures LastListPrice(prices, priceId, listPriceId).Some? ==>
      LastListPrice(prices, priceId, listPriceId).value.salesPriceId == listPriceId
      && LastListPrice(prices, priceId, listPriceId).value.salesPriceId != priceId
    ensures priceId == listPriceId ==> LastListPrice(prices, priceId, listPriceId).None?
    decreases |prices|
  {
    if prices != [] {
      LastListPriceSpec(prices[..|prices| - 1], priceId, listPriceId);
    }
  }

  /** The price list: one price per configured currency that yields one, in currency order. */
  function PriceList(currencies: seq<Entry<SwId, PriceIds>>, salesPrices: Option<seq<SalesPrice>>, taxRate: real): seq<Price>
    decreases |currencies|
  {
    if currencies == [] then []
    else
      var c := currencies[|currencies| - 1];
      var p := SelectPrice(c.value, salesPrices, c.key, taxRate);
      PriceList(currencies[..|currencies| - 1], salesPrices, taxRate) + (if p.Some? then [p.value] else [])
  }

  /** price: getPriceByPriceId for every configured currency, keeping the non-null results. */
  method Prices(currencies: seq<Entry<SwId, PriceIds>>, salesPrices: Option<seq<SalesPrice>>,
                vatId: Option<int>, taxLinks: map<int, TaxLink>)
    returns (prices: seq<Price>)
    ensures prices == PriceList(currencies, salesPrices, TaxRateOf(vatId, taxLinks))
  {
    ghost var taxRate := TaxRateOf(vatId, taxLinks);
    prices := [];
    var i := 0;
    while i < |currencies|
      invariant 0 <= i <= |currencies|
      invariant prices == PriceList(currencies[..i], salesPrices, taxRate)
    {
      assert currencies[..i + 1][..i] == currencies[..i];
      var p := GetPriceByPriceId(currencies[i].value, salesPrices, currencies[i].key, vatId, taxLinks);
      if p.Some? {
        prices := prices + [p.value];
      }
      i := i + 1;
    }
    assert currencies[..i] == currencies;
  }

  /**
   * When the variation has sales prices, every configured currency that
   * is the default currency contributes a price in it, so a product is
   * never written without a default-currency price.
   */
  lemma {:induction false} PriceListHasDefault(currencies: seq<Entry<SwId, PriceIds>>, salesPrices: Option<seq<SalesPrice>>,
                                               taxRate: real, j: int)
    requires salesPrices.Some?
    requires 0 <= j < |currencies| && currencies[j].key == DefaultCurrency
    ensures exists k | 0 <= k < |PriceList(currencies, salesPrices, taxRate)| ::
      PriceList(currencies, salesPrices, taxRate)[k].value.currencyId == DefaultCurrency
    decreases |currencies|
  {
    var init := currencies[..|currencies| - 1];
    var c := currencies[|currencies| - 1];
    var prev := PriceList(init, salesPrices, taxRate);
    if j < |init| {
      assert init[j] == currencies[j];
      PriceListHasDefault(init, salesPrices, taxRate, j);
      var k :| 0 <= k < |prev| && prev[k].value.currencyId == DefaultCurrency;
      assert PriceList(currencies, salesPrices, taxRate)[k] == prev[k];
    } else {
      var p := SelectPrice(c.value, salesPrices, c.key, taxRate);
      assert p.Some? && p.value.value.currencyId == DefaultCurrency;
      assert PriceList(currencies, salesPrices, taxRate)[|prev|] == p.value;
    }
  }
}
