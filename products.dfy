/** The catalog rules of the product service: creating a product with its
    stock row, the partial-update merge, and the read pipelines that filter
    the product table and keep one product per name.

    The database tables are the fields of the class `Catalog` (for the two
    operations that write) or sequences passed to pure functions (for the
    queries, which only read). */
module Products {
  import opened Wrappers
  import opened SeqOps

  /** Product status; `Available` is the only member the service names.
      Every other member is represented by its numeric value. */
  datatype StatusProduct = Available | OtherStatus(code: int)

  /** A row of the product table. Prices are exact decimals, `create` is the
      creation timestamp, and `size` may be null. */
  datatype Product = Product(
    id: int,
    productName: string,
    image: string,
    price: real,
    priceHasDecreased: real,
    description: string,
    quantity: int,
    create: int,
    typeId: int,
    typeName: string,
    brandId: int,
    brandName: string,
    colors: string,
    status: StatusProduct,
    size: Option<string>)

  /** A row of the stock table. */
  datatype Stock = Stock(productId: int, quantity: int)

  /** A row of the product-type table and of the brand table. */
  datatype TypeRow = TypeRow(name: string)
  datatype Brand = Brand(brandName: string)

  /** An uploaded image: its file name and its length in bytes. */
  datatype UploadedFile = UploadedFile(fileName: string, length: int)

  /** The request of `Create`. */
  datatype ProductDto = ProductDto(
    productName: string,
    price: real,
    priceHasDecreased: real,
    description: string,
    quantity: int,
    typeId: int,
    brandId: int,
    colors: string,
    size: Option<string>,
    image: Option<UploadedFile>)

  /** The request of `Update`; every text field may be null. */
  datatype UpdateProductDto = UpdateProductDto(
    productName: Option<string>,
    price: real,
    size: Option<string>,
    priceHasDecreased: real,
    description: Option<string>,
    quantity: int,
    image: Option<UploadedFile>,
    create: Option<int>,
    status: StatusProduct)

  datatype CatalogError = TypeNotFound | BrandNotFound | ImageRequired | ProductNotFound

  /** `string.IsNullOrEmpty`. */
  predicate IsNullOrEmpty(s: Option<string>) {
    s.None? || s.value == ""
  }

  /** A text field of an update that replaces the stored one: present,
      non-empty and not the literal text "null". */
  predicate IsGivenText(s: Option<string>) {
    !IsNullOrEmpty(s) && s.value != "null"
  }

  // ---------------------------------------------------------------------------
  // Update: the merge of a partial update into a product

  /** The product after `Update` has applied `d`; `savedImage` is the path
      under which the image store saved `d.image`, when there is one. */
  function ApplyUpdate(p: Product, d: UpdateProductDto, savedImage: string): (r: Product)
    // the id, the type, the brand and the colours never change
    ensures r.id == p.id && r.typeId == p.typeId && r.typeName == p.typeName
    ensures r.brandId == p.brandId && r.brandName == p.brandName && r.colors == p.colors
    ensures r.status == d.status
  {
    Product(
      p.id,
      if IsGivenText(d.productName) then d.productName.value else p.productName,
      if d.image.Some? then savedImage else p.image,
      if d.price > 0.0 then d.price else p.price,
      if d.priceHasDecreased > 0.0 then d.priceHasDecreased else p.priceHasDecreased,
      if IsGivenText(d.description) then d.description.value else p.description,
      if d.quantity >= 0 then d.quantity else p.quantity,
      if d.create.Some? then d.create.value else p.create,
      p.typeId, p.typeName, p.brandId, p.brandName, p.colors,
      d.status,
      if d.size.Some? then d.size else p.size)
  }

  /** Every field that the request supplies is taken from the request. */
  lemma ApplyUpdateTakesGivenFields(p: Product, d: UpdateProductDto, savedImage: string)
    ensures var r := ApplyUpdate(p, d, savedImage);
      && (IsGivenText(d.productName) ==> r.productName == d.productName.value)
      && (IsGivenText(d.description) ==> r.description == d.description.value)
      && (d.price > 0.0 ==> r.price == d.price)
      && (d.priceHasDecreased > 0.0 ==> r.priceHasDecreased == d.priceHasDecreased)
      && (d.quantity >= 0 ==> r.quantity == d.quantity)
      && (d.size.Some? ==> r.size == d.size)
      && (d.create.Some? ==> r.create == d.create.value)
      && (d.image.Some? ==> r.image == savedImage)
  {
  }

  /** A field that changes takes the value the request supplies for it. */
  lemma ApplyUpdateChangesOnlyGiven(p: Product, d: UpdateProductDto, savedImage: string)
    ensures var r := ApplyUpdate(p, d, savedImage);
      && (r.productName != p.productName ==> IsGivenText(d.productName) && r.productName == d.productName.value)
      && (r.description != p.description ==> IsGivenText(d.description) && r.description == d.description.value)
      && (r.price != p.price ==> d.price > 0.0 && r.price == d.price)
      && (r.priceHasDecreased != p.priceHasDecreased ==> d.priceHasDecreased > 0.0 && r.priceHasDecreased == d.priceHasDecreased)
      && (r.quantity != p.quantity ==> d.quantity >= 0 && r.quantity == d.quantity)
      && (r.size != p.size ==> d.size.Some? && r.size == d.size)
      && (r.create != p.create ==> d.create.Some? && r.create == d.create.value)
      && (r.image != p.image ==> d.image.Some? && r.image == savedImage)
  {
  }

  /** A repeated update has the effect of the last one. Each application
      saves the uploaded image under a fresh path, so the two paths may differ. */
  lemma ApplyUpdateLastWins(p: Product, d: UpdateProductDto, first: string, second: string)
    ensures ApplyUpdate(ApplyUpdate(p, d, first), d, second) == ApplyUpdate(p, d, second)
  {
  }

  /** An update that supplies nothing and repeats the current status leaves
      the product as it is. */
  lemma ApplyEmptyUpdate(p: Product, name: Option<string>, description: Option<string>, savedImage: string)
    requires !IsGivenText(name) && !IsGivenText(description)
    ensures ApplyUpdate(p, UpdateProductDto(name, 0.0, None, 0.0, description, -1, None, None, p.status), savedImage) == p
  {
  }

  /** The field-by-field assignments `Update` makes to the tracked product
      entity; the result is the merge `ApplyUpdate` describes. */
  method AssignGivenFields(p: Product, d: UpdateProductDto, savedImage: string) returns (product: Product)
    ensures product == ApplyUpdate(p, d, savedImage)
  {
    ghost var want := ApplyUpdate(p, d, savedImage);
    product := p;
    if IsGivenText(d.productName) {
      product := product.(productName := d.productName.value);
    }
    if d.price > 0.0 {
      product := product.(price := d.price);
    }
    assert product == p.(productName := want.productName, price := want.price);
    if d.size.Some? {
      product := product.(size := d.size);
    }
    if d.priceHasDecreased > 0.0 {
      product := product.(priceHasDecreased := d.priceHasDecreased);
    }
    assert product == p.(productName := want.productName, price := want.price, size := want.size,
                         priceHasDecreased := want.priceHasDecreased);
    if IsGivenText(d.description) {
      product := product.(description := d.description.value);
    }
    if d.quantity >= 0 {
      product := product.(quantity := d.quantity);
    }
    assert product == p.(productName := want.productName, price := want.price, size := want.size,
                         priceHasDecreased := want.priceHasDecreased, description := want.description,
                         quantity := want.quantity);
    if d.image.Some? {
      product := product.(image := savedImage);
    }
    if d.create.Some? {
      product := product.(create := d.create.value);
    }
    product := product.(status := d.status);
  }

  /** The index of the first product with a given id (`FirstOrDefault(x => x.Id == id)`). */
  function ProductIndex(ps: seq<Product>, id: int): (r: Option<nat>)
    ensures r.Some? ==> r.value < |ps| && ps[r.value].id == id
    ensures r.Some? ==> forall j :: 0 <= j < r.value ==> ps[j].id != id
    ensures r.None? <==> forall j :: 0 <= j < |ps| ==> ps[j].id != id
  {
    FirstIndex(ps, (p: Product) => p.id == id)
  }

  // ---------------------------------------------------------------------------
  // The tables that Create and Update write

  class Catalog {
    var products: seq<Product>
    var stocks: seq<Stock>
    var types: map<int, TypeRow>
    var brands: map<int, Brand>
    /** The id the database gives the next product it inserts. */
    var nextProductId: int

    /** Product ids are unique and below the next id. */
    ghost predicate Valid()
      reads this
    {
      && (forall i :: 0 <= i < |products| ==> products[i].id < nextProductId)
      && (forall i, j :: 0 <= i < j < |products| ==> products[i].id != products[j].id)
    }

    constructor (products: seq<Product>, stocks: seq<Stock>, types: map<int, TypeRow>, brands: map<int, Brand>, nextProductId: int)
      requires forall i :: 0 <= i < |products| ==> products[i].id < nextProductId
      requires forall i, j :: 0 <= i < j < |products| ==> products[i].id != products[j].id
      ensures Valid()
      ensures this.products == products && this.stocks == stocks && this.types == types
      ensures this.brands == brands && this.nextProductId == nextProductId
    {
      this.products, this.stocks, this.types, this.brands := products, stocks, types, brands;
      this.nextProductId := nextProductId;
    }

    /** Create a product from a request, with a stock row of quantity 0.
        `savedImage` is the path the image store returns for the request's
        image and `now` the current time. */
    method Create(dto: ProductDto, savedImage: string, now: int) returns (r: Result<Product, CatalogError>)
      requires Valid()
      modifies this
      ensures Valid()
      ensures types == old(types) && brands == old(brands)
      ensures dto.typeId !in types ==> r == Err(TypeNotFound)
      ensures dto.typeId in types && dto.brandId !in brands ==> r == Err(BrandNotFound)
      ensures dto.typeId in types && dto.brandId in brands && (dto.image.None? || dto.image.value.length == 0)
        ==> r == Err(ImageRequired)
      ensures r.Err? ==> products == old(products) && stocks == old(stocks) && nextProductId == old(nextProductId)
      ensures r.Ok? <==> dto.typeId in types && dto.brandId in brands && dto.image.Some? && dto.image.value.length != 0
      ensures r.Ok? ==>
        && r.value == Product(old(nextProductId), dto.productName, savedImage, dto.price, dto.priceHasDecreased,
                              dto.description, dto.quantity, now, dto.typeId, types[dto.typeId].name,
                              dto.brandId, brands[dto.brandId].brandName, dto.colors, Available, dto.size)
        && (forall i :: 0 <= i < |old(products)| ==> old(products)[i].id != r.value.id)
        && products == old(products) + [r.value]
        && stocks == old(stocks) + [Stock(r.value.id, 0)]
        && nextProductId == old(nextProductId) + 1
    {
      if dto.typeId !in types {
        return Err(TypeNotFound);
      }
      var t := types[dto.typeId];
      if dto.brandId !in brands {
        return Err(BrandNotFound);
      }
      var brand := brands[dto.brandId];
      if dto.image.None? || dto.image.value.length == 0 {
        return Err(ImageRequired);
      }
      var product := Product(nextProductId, dto.productName, savedImage, dto.price, dto.priceHasDecreased,
                             dto.description, dto.quantity, now, dto.typeId, t.name,
                             dto.brandId, brand.brandName, dto.colors, Available, dto.size);
      products := products + [product];
      nextProductId := nextProductId + 1;
      stocks := stocks + [Stock(product.id, 0)];
      r := Ok(product);
    }

    /** Merge a partial update into the product with the given id, field by
        field; the request itself is returned. */
    method Update(id: int, d: UpdateProductDto, savedImage: string) returns (r: Result<UpdateProductDto, CatalogError>)
      requires Valid()
      modifies this
      ensures Valid()
      ensures stocks == old(stocks) && types == old(types) && brands == old(brands)
      ensures nextProductId == old(nextProductId)
      ensures ProductIndex(old(products), id).None? ==> r == Err(ProductNotFound) && products == old(products)
      ensures ProductIndex(old(products), id).Some? ==>
        var i := ProductIndex(old(products), id).value;
        r == Ok(d) && products == old(products)[i := ApplyUpdate(old(products)[i], d, savedImage)]
    {
      var found := ProductIndex(products, id);
      if found.None? {
        return Err(ProductNotFound);
      }
      var i := found.value;
      var product := AssignGivenFields(products[i], d, savedImage);
      products := products[i := product];
      r := Ok(d);
    }
  }

  // ---------------------------------------------------------------------------
  // GetTypeName: the first `limit` items of the type-name query

  /** An item of the type-name query. */
  datatype ProductTypeInf = ProductTypeInf(
    id: int, productName: string, price: real, priceHasDecreased: real,
    description: string, image: string, typeName: string, colors: string)

  function Min(a: int, b: int): int {
    if a < b then a else b
  }

  /** Copy the first `Math.Min(limit, found.Count)` items of the repository's
      answer `found`; none when the limit is not positive. */
  method GetTypeName(found: seq<ProductTypeInf>, limit: int) returns (result: seq<ProductTypeInf>)
    ensures |result| == if limit <= 0 then 0 else Min(limit, |found|)
    ensures result == found[..|result|]
  {
    result := [];
    var i := 0;
    while i < Min(limit, |found|)
      invariant 0 <= i <= |found|
      invariant i <= Min(limit, |found|) || i == 0
      invariant result == found[..i]
    {
      var item := found[i];
      result := result + [ProductTypeInf(item.id, item.productName, item.price, item.priceHasDecreased,
                                         item.description, item.image, item.typeName, item.colors)];
      i := i + 1;
    }
  }

  // ---------------------------------------------------------------------------
  // Case-insensitive comparison (ordinal, on ASCII letters)

  function LowerChar(c: char): char {
    if 'A' <= c <= 'Z' then (c as int + 32) as char else c
  }

  function Lower(s: string): (r: string)
    ensures |r| == |s| && forall i :: 0 <= i < |s| ==> r[i] == LowerChar(s[i])
  {
    if s == [] then [] else [LowerChar(s[0])] + Lower(s[1..])
  }

  /** `string.Equals(a, b, StringComparison.OrdinalIgnoreCase)`, folding ASCII letters only. */
  predicate EqualsIgnoreCase(a: string, b: string) {
    Lower(a) == Lower(b)
  }

  // ---------------------------------------------------------------------------
  // GetProductsWithinPriceRangeAndBrand

  /** An item of the price-range query. */
  datatype PriceInf = PriceInf(id: int, productName: string, price: real, priceHasDecreased: real, image: string, brandName: string)

  function ToPriceInf(p: Product): PriceInf {
    PriceInf(p.id, p.productName, p.price, p.priceHasDecreased, p.image, p.brandName)
  }

  function PriceInfName(x: PriceInf): string {
    x.productName
  }

  /** The product's type row exists and has the requested name (the join on `TypeId`). */
  predicate HasTypeNamed(p: Product, types: map<int, TypeRow>, productType: string) {
    p.typeId in types && types[p.typeId].name == productType
  }

  /** The price bounds, and the brand when the caller gives one. */
  predicate InRangeAndBrand(x: PriceInf, minPrice: real, maxPrice: real, brandsName: Option<string>) {
    && minPrice <= x.price <= maxPrice
    && (IsNullOrEmpty(brandsName) || EqualsIgnoreCase(x.brandName, brandsName.value))
  }

  /** The products whose type has the requested name, in table order. */
  function ProductsOfType(products: seq<Product>, types: map<int, TypeRow>, productType: string): (r: seq<Product>)
    ensures forall i :: 0 <= i < |r| ==> r[i] in products && HasTypeNamed(r[i], types, productType)
    ensures forall j :: 0 <= j < |products| && HasTypeNamed(products[j], types, productType) ==> products[j] in r
  {
    Filter(products, (p: Product) => HasTypeNamed(p, types, productType))
  }

  /** The items of the requested type that pass the price and brand filter, in table order. */
  function PriceRangeCandidates(products: seq<Product>, types: map<int, TypeRow>, productType: string,
                                minPrice: real, maxPrice: real, brandsName: Option<string>): (r: seq<PriceInf>)
    ensures forall i :: 0 <= i < |r| ==> InRangeAndBrand(r[i], minPrice, maxPrice, brandsName)
  {
    Filter(Map(ProductsOfType(products, types, productType), ToPriceInf),
           (x: PriceInf) => InRangeAndBrand(x, minPrice, maxPrice, brandsName))
  }

  /** The candidates are the items of exactly those products of the type
      that pass the price and brand filter. */
  lemma CandidatesOfType(products: seq<Product>, types: map<int, TypeRow>, productType: string,
                         minPrice: real, maxPrice: real, brandsName: Option<string>)
    ensures var r := PriceRangeCandidates(products, types, productType, minPrice, maxPrice, brandsName);
      && (forall i :: 0 <= i < |r| ==>
            exists j :: 0 <= j < |products| && HasTypeNamed(products[j], types, productType) && r[i] == ToPriceInf(products[j]))
      && (forall j :: (0 <= j < |products| && HasTypeNamed(products[j], types, productType)
            && InRangeAndBrand(ToPriceInf(products[j]), minPrice, maxPrice, brandsName)) ==> ToPriceInf(products[j]) in r)
  {
    var ofType := ProductsOfType(products, types, productType);
    var items := Map(ofType, ToPriceInf);
    var r := PriceRangeCandidates(products, types, productType, minPrice, maxPrice, brandsName);
    forall i | 0 <= i < |r|
      ensures exists j :: 0 <= j < |products| && HasTypeNamed(products[j], types, productType) && r[i] == ToPriceInf(products[j])
    {
      var k :| 0 <= k < |items| && r[i] == items[k];
      var j :| 0 <= j < |products| && products[j] == ofType[k];
    }
    forall j | 0 <= j < |products| && HasTypeNamed(products[j], types, productType)
      && InRangeAndBrand(ToPriceInf(products[j]), minPrice, maxPrice, brandsName)
      ensures ToPriceInf(products[j]) in r
    {
      var k :| 0 <= k < |ofType| && products[j] == ofType[k];
      assert items[k] == ToPriceInf(products[j]);
    }
  }

  /** Products of one type within a price range (and of one brand, when
      given), one per product name. */
  function GetProductsWithinPriceRangeAndBrand(products: seq<Product>, types: map<int, TypeRow>, productType: string,
                                               minPrice: real, maxPrice: real, brandsName: Option<string>): (r: seq<PriceInf>)
    ensures |r| <= |products|
  {
    KeepFirstBy(PriceRangeCandidates(products, types, productType, minPrice, maxPrice, brandsName), PriceInfName)
  }

  /** Every result is the first candidate of its name, so every result is
      within the price range and of the requested brand. */
  lemma PriceRangeFirstOfName(products: seq<Product>, types: map<int, TypeRow>, productType: string,
                              minPrice: real, maxPrice: real, brandsName: Option<string>)
    ensures var r := GetProductsWithinPriceRangeAndBrand(products, types, productType, minPrice, maxPrice, brandsName);
      var c := PriceRangeCandidates(products, types, productType, minPrice, maxPrice, brandsName);
      && (forall i :: 0 <= i < |r| ==> minPrice <= r[i].price <= maxPrice)
      && (!IsNullOrEmpty(brandsName) ==> forall i :: 0 <= i < |r| ==> EqualsIgnoreCase(r[i].brandName, brandsName.value))
      && (forall i :: 0 <= i < |r| ==> FirstWithKey(c, PriceInfName, r[i].productName) == Some(r[i]))
  {
    var r := GetProductsWithinPriceRangeAndBrand(products, types, productType, minPrice, maxPrice, brandsName);
    var c := PriceRangeCandidates(products, types, productType, minPrice, maxPrice, brandsName);
    KeepFirstByCorrect(c, PriceInfName);
    forall i | 0 <= i < |r| ensures InRangeAndBrand(r[i], minPrice, maxPrice, brandsName) {
      assert FirstWithKey(c, PriceInfName, PriceInfName(r[i])) == Some(r[i]);
      var k :| 0 <= k < |c| && c[k] == r[i];
    }
  }

  /** No two results share a name, and every candidate's name is among the results. */
  lemma PriceRangeOnePerName(products: seq<Product>, types: map<int, TypeRow>, productType: string,
                             minPrice: real, maxPrice: real, brandsName: Option<string>)
    ensures var r := GetProductsWithinPriceRangeAndBrand(products, types, productType, minPrice, maxPrice, brandsName);
      var c := PriceRangeCandidates(products, types, productType, minPrice, maxPrice, brandsName);
      && (forall i, j :: 0 <= i < j < |r| ==> r[i].productName != r[j].productName)
      && (forall k :: 0 <= k < |c| ==> exists i :: 0 <= i < |r| && r[i].productName == c[k].productName)
  {
    var r := GetProductsWithinPriceRangeAndBrand(products, types, productType, minPrice, maxPrice, brandsName);
    var c := PriceRangeCandidates(products, types, productType, minPrice, maxPrice, brandsName);
    KeepFirstByCorrect(c, PriceInfName);
    forall i, j | 0 <= i < j < |r| ensures r[i].productName != r[j].productName {
      assert PriceInfName(r[i]) != PriceInfName(r[j]);
    }
    forall k | 0 <= k < |c| ensures exists i :: 0 <= i < |r| && r[i].productName == c[k].productName {
      assert HasKey(c, PriceInfName, PriceInfName(c[k]));
      assert HasKey(r, PriceInfName, PriceInfName(c[k]));
      var i :| 0 <= i < |r| && PriceInfName(r[i]) == PriceInfName(c[k]);
    }
  }

  // ---------------------------------------------------------------------------
  // GetProductsByNameAndColor

  /** The detail view of a product. */
  datatype ProductDetail = ProductDetail(
    id: int, productName: string, price: real, priceHasDecreased: real, description: string,
    image: string, brandName: string, typeName: string, colors: string, size: Option<string>,
    status: StatusProduct)

  /** The answer of `GetProductsByNameAndColor`: either one detail (the
      product matching the requested colour and size) or the details of every
      product of the name, plus the colours and sizes on offer. */
  datatype ProductDetailWithColors = ProductDetailWithColors(
    productDetail: Option<ProductDetail>,
    productDetails: Option<seq<ProductDetail>>,
    availableColors: seq<string>,
    availableSize: seq<Option<string>>)

  /** The detail view of a product (`MapToProductDetail`). */
  function ToDetail(p: Product): ProductDetail {
    ProductDetail(p.id, p.productName, p.price, p.priceHasDecreased, p.description, p.image,
                  p.brandName, p.typeName, p.colors, p.size, p.status)
  }

  function ColorsOf(p: Product): string {
    p.colors
  }

  function SizeOf(p: Product): Option<string> {
    p.size
  }

  /** The optional colour and size filters: a null or empty filter admits every product. */
  predicate MatchesAttributes(p: Product, color: Option<string>, size: Option<string>) {
    && (IsNullOrEmpty(color) || p.colors == color.value)
    && (IsNullOrEmpty(size) || p.size == size)
  }

  /** A product of the requested name that passes both filters. */
  predicate IsSpecific(p: Product, productName: string, color: Option<string>, size: Option<string>) {
    p.productName == productName && MatchesAttributes(p, color, size)
  }

  /** The products of one name, in table order. */
  function ProductsNamed(products: seq<Product>, productName: string): (r: seq<Product>)
    ensures forall i :: 0 <= i < |r| ==> r[i] in products && r[i].productName == productName
    ensures forall i :: 0 <= i < |products| && products[i].productName == productName ==> products[i] in r
  {
    Filter(products, (p: Product) => p.productName == productName)
  }

  /** The first product of the name that passes both filters. */
  function SpecificIndex(products: seq<Product>, productName: string, color: Option<string>, size: Option<string>)
    : (r: Option<nat>)
    ensures r.Some? ==> r.value < |products| && IsSpecific(products[r.value], productName, color, size)
    ensures r.Some? ==> forall j :: 0 <= j < r.value ==> !IsSpecific(products[j], productName, color, size)
    ensures r.None? <==> forall j :: 0 <= j < |products| ==> !IsSpecific(products[j], productName, color, size)
  {
    FirstIndex(products, (p: Product) => IsSpecific(p, productName, color, size))
  }

  /** `ds` holds the details of the products named `productName`, and of no other product. */
  predicate DetailsOfName(ds: seq<ProductDetail>, products: seq<Product>, productName: string) {
    && (forall k :: 0 <= k < |ds| ==>
          exists i :: 0 <= i < |products| && products[i].productName == productName && ds[k] == ToDetail(products[i]))
    && (forall i :: 0 <= i < |products| && products[i].productName == productName ==> ToDetail(products[i]) in ds)
  }

  /** `vs` lists, once each, the values that `field` takes on the products
      named `productName`, and no other value. */
  predicate ValuesOfName<U(==)>(vs: seq<U>, products: seq<Product>, productName: string, field: Product -> U) {
    && NoDuplicates(vs)
    && (forall i :: 0 <= i < |products| && products[i].productName == productName ==> field(products[i]) in vs)
    && (forall k :: 0 <= k < |vs| ==>
          exists i :: 0 <= i < |products| && products[i].productName == productName && field(products[i]) == vs[k])
  }

  /** The details of the products of one name, in table order, meet `DetailsOfName`. */
  lemma NamedDetails(products: seq<Product>, productName: string)
    ensures DetailsOfName(Map(ProductsNamed(products, productName), ToDetail), products, productName)
  {
    var named := ProductsNamed(products, productName);
    var ds := Map(named, ToDetail);
    forall k | 0 <= k < |ds|
      ensures exists i :: 0 <= i < |products| && products[i].productName == productName && ds[k] == ToDetail(products[i])
    {
      var i :| 0 <= i < |products| && products[i] == named[k];
    }
    forall i | 0 <= i < |products| && products[i].productName == productName
      ensures ToDetail(products[i]) in ds
    {
      var k :| 0 <= k < |named| && named[k] == products[i];
      assert ds[k] == ToDetail(products[i]);
    }
  }

  /** The distinct values of a field over the products of one name meet `ValuesOfName`. */
  lemma {:induction false} NamedValues<U>(products: seq<Product>, productName: string, field: Product -> U)
    ensures ValuesOfName(Distinct(Map(ProductsNamed(products, productName), field)), products, productName, field)
  {
    var named := ProductsNamed(products, productName);
    var values := Map(named, field);
    var vs := Distinct(values);
    forall i | 0 <= i < |products| && products[i].productName == productName
      ensures field(products[i]) in vs
    {
      var k :| 0 <= k < |named| && named[k] == products[i];
      assert values[k] == field(products[i]);
    }
    forall k | 0 <= k < |vs|
      ensures exists i :: 0 <= i < |products| && products[i].productName == productName && field(products[i]) == vs[k]
    {
      var m :| 0 <= m < |values| && values[m] == vs[k];
      var i :| 0 <= i < |products| && products[i] == named[m];
    }
  }

  /** The product of a name in the requested colour and size, or else every
      product of the name, with the colours and sizes the name comes in. */
  function GetProductsByNameAndColor(products: seq<Product>, productName: string, color: Option<string>, size: Option<string>)
    : (r: Result<ProductDetailWithColors, CatalogError>)
    ensures r.Err? ==> r.error == ProductNotFound
    ensures r.Ok? ==> (r.value.productDetail.Some? <==> r.value.productDetails.None?)
  {
    var named := ProductsNamed(products, productName);
    if named == [] then Err(ProductNotFound)
    else
      var specific := SpecificIndex(products, productName, color, size);
      Ok(ProductDetailWithColors(
        if specific.Some? then Some(ToDetail(products[specific.value])) else None,
        if specific.Some? then None else Some(Map(named, ToDetail)),
        Distinct(Map(named, ColorsOf)),
        Distinct(Map(named, SizeOf))))
  }

  /** The query fails, with ProductNotFound, exactly when no product has the name. */
  lemma ByNameFailsIffUnknown(products: seq<Product>, productName: string, color: Option<string>, size: Option<string>)
    ensures var r := GetProductsByNameAndColor(products, productName, color, size);
      && (r.Err? <==> forall i :: 0 <= i < |products| ==> products[i].productName != productName)
      && (r.Err? ==> r.error == ProductNotFound)
  {
    var named := ProductsNamed(products, productName);
    if named != [] {
      assert named[0] in products;
    }
  }

  /** When some product of the name passes the colour and size filters, the
      answer holds the first such product alone, and no list. */
  lemma ByNameSpecific(products: seq<Product>, productName: string, color: Option<string>, size: Option<string>)
    requires exists i :: 0 <= i < |products| && IsSpecific(products[i], productName, color, size)
    ensures var r := GetProductsByNameAndColor(products, productName, color, size);
      && r.Ok? && r.value.productDetail.Some? && r.value.productDetails.None?
      && exists i :: 0 <= i < |products| && IsSpecific(products[i], productName, color, size)
           && r.value.productDetail.value == ToDetail(products[i])
           && forall j :: 0 <= j < i ==> !IsSpecific(products[j], productName, color, size)
  {
    var i := SpecificIndex(products, productName, color, size).value;
    assert products[i] in ProductsNamed(products, productName);
  }

  /** When products of the name exist but none passes the colour and size
      filters, the answer lists the details of every product of the name. */
  lemma ByNameFallback(products: seq<Product>, productName: string, color: Option<string>, size: Option<string>)
    requires exists i :: 0 <= i < |products| && products[i].productName == productName
    requires forall i :: 0 <= i < |products| ==> !IsSpecific(products[i], productName, color, size)
    ensures var r := GetProductsByNameAndColor(products, productName, color, size);
      && r.Ok? && r.value.productDetail.None? && r.value.productDetails.Some?
      && DetailsOfName(r.value.productDetails.value, products, productName)
  {
    var named := ProductsNamed(products, productName);
    assert named != [] by {
      var i :| 0 <= i < |products| && products[i].productName == productName;
      assert products[i] in named;
    }
    assert SpecificIndex(products, productName, color, size).None?;
    var ds := Map(named, ToDetail);
    assert GetProductsByNameAndColor(products, productName, color, size).value.productDetails == Some(ds);
    NamedDetails(products, productName);
  }

  /** Whichever answer is given, the colours and the sizes on offer are
      those of the products of the name, each listed once. */
  lemma ByNameOffers(products: seq<Product>, productName: string, color: Option<string>, size: Option<string>)
    requires exists i :: 0 <= i < |products| && products[i].productName == productName
    ensures var r := GetProductsByNameAndColor(products, productName, color, size);
      && r.Ok?
      && ValuesOfName(r.value.availableColors, products, productName, ColorsOf)
      && ValuesOfName(r.value.availableSize, products, productName, SizeOf)
  {
    assert ProductsNamed(products, productName) != [] by {
      var i :| 0 <= i < |products| && products[i].productName == productName;
      assert products[i] in ProductsNamed(products, productName);
    }
    NamedValues(products, productName, ColorsOf);
    NamedValues(products, productName, SizeOf);
  }

  // ---------------------------------------------------------------------------
  // SearchKey

  /** An item of the keyword search. */
  datatype SearchKeyDto = SearchKeyDto(
    id: int, productName: string, price: real, priceHasDecreased: real, description: string,
    image: string, brandName: string, typeName: string, colors: string, size: Option<string>,
    status: StatusProduct)

  function ToSearchKey(p: Product): SearchKeyDto {
    SearchKeyDto(p.id, p.productName, p.price, p.priceHasDecreased, p.description, p.image,
                 p.brandName, p.typeName, p.colors, p.size, p.status)
  }

  function ProductNameOf(p: Product): string {
    p.productName
  }

  /** The keyword occurs in the product's name, brand name or type name. */
  predicate MatchesKeyword(p: Product, keyWord: string) {
    Contains(p.productName, keyWord) || Contains(p.brandName, keyWord) || Contains(p.typeName, keyWord)
  }

  /** The products that match the keyword, in table order. */
  function SearchMatches(products: seq<Product>, keyWord: string): (r: seq<Product>)
    ensures forall i :: 0 <= i < |r| ==> r[i] in products && MatchesKeyword(r[i], keyWord)
    ensures forall i :: 0 <= i < |products| && MatchesKeyword(products[i], keyWord) ==> products[i] in r
  {
    Filter(products, (p: Product) => MatchesKeyword(p, keyWord))
  }

  /** The products that match the keyword, one per product name. */
  function SearchKey(products: seq<Product>, keyWord: string): (r: seq<SearchKeyDto>)
    ensures |r| <= |products|
  {
    Map(KeepFirstBy(SearchMatches(products, keyWord), ProductNameOf), ToSearchKey)
  }

  /** Every result is built from the first product of its name that matches
      the keyword, so every result matches the keyword. */
  lemma SearchKeyFirstOfName(products: seq<Product>, keyWord: string)
    ensures var r := SearchKey(products, keyWord);
      && (forall i :: 0 <= i < |r| ==>
            Contains(r[i].productName, keyWord) || Contains(r[i].brandName, keyWord) || Contains(r[i].typeName, keyWord))
      && (forall i :: 0 <= i < |r| ==>
            var first := FirstWithKey(SearchMatches(products, keyWord), ProductNameOf, r[i].productName);
            first.Some? && r[i] == ToSearchKey(first.value))
  {
    var m := SearchMatches(products, keyWord);
    KeepFirstByCorrect(m, ProductNameOf);
    var kept := KeepFirstBy(m, ProductNameOf);
    var r := SearchKey(products, keyWord);
    forall i | 0 <= i < |r|
      ensures FirstWithKey(m, ProductNameOf, r[i].productName) == Some(kept[i])
      ensures r[i] == ToSearchKey(kept[i]) && MatchesKeyword(kept[i], keyWord)
    {
      assert ProductNameOf(kept[i]) == r[i].productName;
      var f := FirstWithKey(m, ProductNameOf, ProductNameOf(kept[i]));
      assert f == Some(kept[i]) && f.value in m;
    }
  }

  /** No two results share a name, and every matching product's name is
      among the results. */
  lemma SearchKeyOnePerName(products: seq<Product>, keyWord: string)
    ensures var r := SearchKey(products, keyWord);
      && (forall i, j :: 0 <= i < j < |r| ==> r[i].productName != r[j].productName)
      && (forall j :: 0 <= j < |products| && MatchesKeyword(products[j], keyWord) ==>
            exists i :: 0 <= i < |r| && r[i].productName == products[j].productName)
  {
    var m := SearchMatches(products, keyWord);
    KeepFirstByCorrect(m, ProductNameOf);
    var kept := KeepFirstBy(m, ProductNameOf);
    var r := SearchKey(products, keyWord);
    forall i, j | 0 <= i < j < |r| ensures r[i].productName != r[j].productName {
      assert ProductNameOf(kept[i]) != ProductNameOf(kept[j]);
    }
    forall j | 0 <= j < |products| && MatchesKeyword(products[j], keyWord)
      ensures exists i :: 0 <= i < |r| && r[i].productName == products[j].productName
    {
      var k :| 0 <= k < |m| && m[k] == products[j];
      assert HasKey(m, ProductNameOf, ProductNameOf(m[k]));
      assert HasKey(kept, ProductNameOf, ProductNameOf(m[k]));
      var i :| 0 <= i < |kept| && ProductNameOf(kept[i]) == ProductNameOf(m[k]);
      assert r[i].productName == products[j].productName;
    }
  }
}
