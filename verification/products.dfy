/** The product endpoints of the catalogue. Every read and write is scoped to the authenticated
    company: a product is addressed by its (`productId`, `companyId`) key. */
module Products {
  import opened Common
  import Seqs
  import opened PosRecords

  // ---------------------------------------------------------------- add and get

  /** An add request's body. Omitted optional fields take the schema's defaults; a company given in
      the body is ignored, so it has no field here. */
  datatype ProductDraft = ProductDraft(
    productId: string,
    sectionId: string,
    name: string,
    imageUrl: Option<string>,
    itemNumber: Option<int>,
    price: Option<int>,
    bonusPercentage: Option<int>,
    isInBonus: Option<bool>,
    isSelling: Option<bool>,
    info: Option<string>,
    extraNote: Option<string>)

  /** The document Mongoose builds from the body, with the caller's company and the schema defaults
      (stock 0, price 0, bonus 0 %, not in bonus, selling, empty info and note, both dates now). */
  function FromDraft(d: ProductDraft, companyId: string, now: int): Product {
    Product(d.productId, companyId, d.sectionId, d.name, d.imageUrl, now, now,
            d.itemNumber.GetOr(0), d.price.GetOr(0), d.bonusPercentage.GetOr(0),
            d.isInBonus.GetOr(false), d.isSelling.GetOr(true), d.info.GetOr(""), d.extraNote.GetOr(""))
  }

  /** `addProduct`: 201 when the document passes the schema and its key is new, otherwise 400 and
      nothing stored. */
  function AddProduct(ps: seq<Product>, callerCompany: string, body: ProductDraft, now: int): (r: (int, seq<Product>))
    ensures r.0 == 201 || r.0 == 400
    ensures r.0 == 400 ==> r.1 == ps
    ensures r.0 == 201 <==>
      (ValidProduct(FromDraft(body, callerCompany, now)) && FindProduct(ps, body.productId, callerCompany).None?)
    ensures r.0 == 201 ==> |r.1| == |ps| + 1 && r.1[..|ps|] == ps && r.1[|ps|].companyId == callerCompany
    ensures ValidProducts(ps) ==> ValidProducts(r.1)
  {
    var p := FromDraft(body, callerCompany, now);
    if ValidProduct(p) && FindProduct(ps, p.productId, p.companyId).None? then (201, ps + [p])
    else (400, ps)
  }

  /** `getProduct`: the caller's product with this id, or 404. */
  function GetProduct(ps: seq<Product>, companyId: string, productId: string): (r: (int, Option<Product>))
    ensures r.0 == 200 || r.0 == 404
    ensures r.0 == 404 <==> (forall j :: 0 <= j < |ps| ==> !HasKey(ps[j], productId, companyId))
    ensures r.0 == 200 ==> r.1.Some? && r.1.value in ps && HasKey(r.1.value, productId, companyId)
    ensures r.0 == 404 ==> r.1.None?
  {
    match FindProduct(ps, productId, companyId)
    case None => (404, None)
    case Some(i) => (200, Some(ps[i]))
  }

  /** A product added by a company is read back by that company as stored, with the schema's
      defaults in every omitted field; the company of the body never matters. */
  lemma AddThenGet(ps: seq<Product>, callerCompany: string, body: ProductDraft, now: int)
    requires AddProduct(ps, callerCompany, body, now).0 == 201
    ensures var stored := GetProduct(AddProduct(ps, callerCompany, body, now).1, callerCompany, body.productId);
            && stored.0 == 200
            && stored.1.value == FromDraft(body, callerCompany, now)
            && (body.itemNumber.None? ==> stored.1.value.itemNumber == 0)
            && (body.price.None? ==> stored.1.value.price == 0)
            && (body.bonusPercentage.None? ==> stored.1.value.bonusPercentage == 0)
            && (body.isInBonus.None? ==> !stored.1.value.isInBonus)
            && (body.isSelling.None? ==> stored.1.value.isSelling)
  {
    var p := FromDraft(body, callerCompany, now);
    var after := ps + [p];
    assert forall j :: 0 <= j < |ps| ==> after[j] == ps[j] && !HasKey(after[j], body.productId, callerCompany);
    assert HasKey(after[|ps|], body.productId, callerCompany);
  }

  // ---------------------------------------------------------------- listing by section

  /** Both the section and the company match. */
  predicate InSection(p: Product, companyId: string, sectionId: string) {
    p.companyId == companyId && p.sectionId == sectionId
  }

  function SectionFilter(companyId: string, sectionId: string): Product -> bool {
    (p: Product) => InSection(p, companyId, sectionId)
  }

  /** `Math.ceil(totalCount / limit)`: a limit of 0 gives `Infinity` (None); a negative limit gives
      the ceiling of a negative quotient. */
  function TotalPages(count: nat, limit: int): (r: Option<int>)
    ensures limit == 0 <==> r.None?
    ensures limit > 0 ==> (r.value - 1) * limit < count <= r.value * limit
  {
    if limit == 0 then None
    else if limit > 0 then Some(Seqs.CeilDiv(count, limit))
    else Some(Seqs.CeilDiv(-(count as int), -limit))
  }

  /** A page of a section's products and the totals reported with it. */
  datatype SectionPage = SectionPage(products: seq<Product>, currentPage: int, totalPages: Option<int>, totalCount: nat)

  /** `getProductsBySection` with `page` and `limit` already numeric (defaults 1 and 15 are applied
      by the caller of this function). A negative skip is refused by the database (500). An empty
      page reports zero pages and zero products in all, whatever the section holds. */
  function GetProductsBySection(ps: seq<Product>, companyId: string, sectionId: string, page: int, limit: int): (r: (int, Option<SectionPage>))
    ensures Seqs.PageSkip(page, limit) < 0 ==> r == (500, None)
    ensures Seqs.PageSkip(page, limit) >= 0 ==> r.0 == 200
    ensures r.0 == 200 || r.0 == 500
    ensures r.0 == 200 ==> r.1.Some? && r.1.value.currentPage == page
    ensures r.0 == 200 ==> forall i :: 0 <= i < |r.1.value.products| ==>
      r.1.value.products[i] in ps && InSection(r.1.value.products[i], companyId, sectionId)
    ensures r.0 == 200 ==>
      r.1.value.products == Seqs.Page(Seqs.Filter(ps, SectionFilter(companyId, sectionId)), Seqs.PageSkip(page, limit), Abs(limit))
    ensures r.0 == 200 && |r.1.value.products| > 0 ==>
      var total := |Seqs.Filter(ps, SectionFilter(companyId, sectionId))|;
      r.1.value.totalCount == total && r.1.value.totalPages == TotalPages(total, limit)
    ensures r.0 == 200 && |r.1.value.products| == 0 ==> r.1.value.totalCount == 0 && r.1.value.totalPages == Some(0)
  {
    var skip := Seqs.PageSkip(page, limit);
    if skip < 0 then (500, None)
    else
      var members := Seqs.Filter(ps, SectionFilter(companyId, sectionId));
      var shown := Seqs.Page(members, skip, Abs(limit));
      assert forall i :: 0 <= i < |shown| ==> shown[i] in members;
      if |shown| == 0 then (200, Some(SectionPage([], page, Some(0), 0)))
      else (200, Some(SectionPage(shown, page, TotalPages(|members|, limit), |members|)))
  }

  /** With a positive limit, a page that shows products is within the reported page count. */
  lemma ShownPageWithinTotal(ps: seq<Product>, companyId: string, sectionId: string, page: int, limit: int)
    requires page >= 1 && limit > 0
    ensures var r := GetProductsBySection(ps, companyId, sectionId, page, limit);
            r.0 == 200 && |r.1.value.products| > 0 ==> 1 <= page <= r.1.value.totalPages.value
  {
    var members := Seqs.Filter(ps, SectionFilter(companyId, sectionId));
    var r := GetProductsBySection(ps, companyId, sectionId, page, limit);
    if r.0 == 200 && |r.1.value.products| > 0 {
      assert Seqs.PageSkip(page, limit) < |members|;
      PageWithinCeiling(|members|, page, limit);
    }
  }

  lemma PageWithinCeiling(count: nat, page: int, limit: int)
    requires page >= 1 && limit > 0 && Seqs.PageSkip(page, limit) < count
    ensures page <= TotalPages(count, limit).value
  {
    var t := Seqs.CeilDiv(count, limit);
    assert (page - 1) * limit < t * limit;
    PageBelowCeiling(page - 1, t, limit);
  }

  lemma PageBelowCeiling(a: int, t: int, limit: int)
    requires limit > 0 && a * limit < t * limit
    ensures a < t
  {
  }

  /** A page past the end reports no products in all, even when the section has some. */
  lemma PastTheEndHidesTotal(ps: seq<Product>, companyId: string, sectionId: string, page: int, limit: int, i: nat)
    requires limit > 0
    requires Seqs.PageSkip(page, limit) >= |Seqs.Filter(ps, SectionFilter(companyId, sectionId))|
    requires i < |ps| && InSection(ps[i], companyId, sectionId)
    ensures var r := GetProductsBySection(ps, companyId, sectionId, page, limit);
            && r == (200, Some(SectionPage([], page, Some(0), 0)))
            && |Seqs.Filter(ps, SectionFilter(companyId, sectionId))| > 0
  {
    assert ps[i] in Seqs.Filter(ps, SectionFilter(companyId, sectionId));
  }

  // ---------------------------------------------------------------- search

  /** `searchProducts`: a missing or empty query is refused with 400; otherwise the caller's products
      whose name the query matches. `matches(query, name)` stands for the case-insensitive regular
      expression test the database applies. */
  function SearchProducts(ps: seq<Product>, companyId: string, query: Option<string>, matches: (string, string) -> bool): (r: (int, seq<Product>))
    ensures query.None? || query.value == "" ==> r == (400, [])
    ensures query.Some? && query.value != "" ==> r.0 == 200
    ensures r.0 == 200 ==> forall i :: 0 <= i < |r.1| ==> r.1[i] in ps && r.1[i].companyId == companyId && matches(query.value, r.1[i].name)
    ensures r.0 == 200 ==> forall p :: p in ps && p.companyId == companyId && matches(query.value, p.name) ==> p in r.1
  {
    if query.None? || query.value == "" then (400, [])
    else (200, Seqs.Filter(ps, (p: Product) => p.companyId == companyId && matches(query.value, p.name)))
  }

  /** A product just added is found by any query that matches its name, and only by the company
      that added it. */
  lemma AddThenSearch(ps: seq<Product>, callerCompany: string, body: ProductDraft, now: int, query: string,
                      other: string, matches: (string, string) -> bool)
    requires AddProduct(ps, callerCompany, body, now).0 == 201
    requires query != "" && other != callerCompany
    ensures var after := AddProduct(ps, callerCompany, body, now).1;
            && (matches(query, body.name) <==> FromDraft(body, callerCompany, now) in SearchProducts(after, callerCompany, Some(query), matches).1)
            && FromDraft(body, callerCompany, now) !in SearchProducts(after, other, Some(query), matches).1
  {
    var after := AddProduct(ps, callerCompany, body, now).1;
    assert after[|ps|] == FromDraft(body, callerCompany, now);
  }

  // ---------------------------------------------------------------- field update

  /** The eight columns of the product table that `updateProductField` accepts. */
  datatype Column = Image | ProductName | CurrentStock | Price | BonusPercentage | IsSelling | IsInBonus | Info

  /** The columnName the client sends for a column. */
  function Label(c: Column): string {
    match c
    case Image => "Image"
    case ProductName => "Product Name"
    case CurrentStock => "Current Stock"
    case Price => "Price"
    case BonusPercentage => "Bonus Price Percentage"
    case IsSelling => "Is Selling"
    case IsInBonus => "Is In Bonus"
    case Info => "Info"
  }

  /** The column a columnName names; any other columnName is refused. */
  function ParseColumn(columnName: string): (r: Option<Column>)
    ensures r.Some? ==> Label(r.value) == columnName
    ensures forall c: Column :: Label(c) == columnName ==> r == Some(c)
  {
    if columnName == "Image" then Some(Image)
    else if columnName == "Product Name" then Some(ProductName)
    else if columnName == "Current Stock" then Some(CurrentStock)
    else if columnName == "Price" then Some(Price)
    else if columnName == "Bonus Price Percentage" then Some(BonusPercentage)
    else if columnName == "Is Selling" then Some(IsSelling)
    else if columnName == "Is In Bonus" then Some(IsInBonus)
    else if columnName == "Info" then Some(Info)
    else None
  }

  /** The request's `newValue` under the three conversions an update can apply to it: its string
      form, `Number(newValue)` (None for NaN) and the schema's boolean cast (None when it refuses). */
  datatype NewValue = NewValue(text: string, number: Option<int>, flag: Option<bool>)

  /** What a column of a product holds. */
  datatype FieldContent = TextContent(text: Option<string>) | NumberContent(number: int) | FlagContent(flag: bool)

  function ColumnValue(p: Product, c: Column): FieldContent {
    match c
    case Image => TextContent(p.imageUrl)
    case ProductName => TextContent(Some(p.name))
    case CurrentStock => NumberContent(p.itemNumber)
    case Price => NumberContent(p.price)
    case BonusPercentage => NumberContent(p.bonusPercentage)
    case IsSelling => FlagContent(p.isSelling)
    case IsInBonus => FlagContent(p.isInBonus)
    case Info => TextContent(Some(p.info))
  }

  /** What the column will hold after the update, or None when the value fails the cast (NaN, a
      non-boolean) or the validator (an empty name). */
  function Cast(c: Column, v: NewValue): Option<FieldContent> {
    match c
    case Image => Some(TextContent(Some(v.text)))
    case ProductName => if v.text == "" then None else Some(TextContent(Some(v.text)))
    case CurrentStock | Price | BonusPercentage => if v.number.None? then None else Some(NumberContent(v.number.value))
    case IsSelling | IsInBonus => if v.flag.None? then None else Some(FlagContent(v.flag.value))
    case Info => Some(TextContent(Some(v.text)))
  }

  /** The `$set` of one column plus `date_modified`. */
  function SetColumn(p: Product, c: Column, v: NewValue, now: int): (r: Option<Product>)
    ensures r.Some? <==> Cast(c, v).Some?
    ensures r.Some? ==> ColumnValue(r.value, c) == Cast(c, v).value
    ensures r.Some? ==> forall c': Column :: c' != c ==> ColumnValue(r.value, c') == ColumnValue(p, c')
    ensures r.Some? ==> && r.value.productId == p.productId && r.value.companyId == p.companyId
                        && r.value.sectionId == p.sectionId && r.value.dateAdded == p.dateAdded
                        && r.value.extraNote == p.extraNote && r.value.dateModified == now
  {
    match c
    case Image => Some(p.(imageUrl := Some(v.text), dateModified := now))
    case ProductName => if v.text == "" then None else Some(p.(name := v.text, dateModified := now))
    case CurrentStock => if v.number.None? then None else Some(p.(itemNumber := v.number.value, dateModified := now))
    case Price => if v.number.None? then None else Some(p.(price := v.number.value, dateModified := now))
    case BonusPercentage => if v.number.None? then None else Some(p.(bonusPercentage := v.number.value, dateModified := now))
    case IsSelling => if v.flag.None? then None else Some(p.(isSelling := v.flag.value, dateModified := now))
    case IsInBonus => if v.flag.None? then None else Some(p.(isInBonus := v.flag.value, dateModified := now))
    case Info => Some(p.(info := v.text, dateModified := now))
  }

  /** `updateProductField`: an unknown columnName is refused (400) before anything is read; a value that
      fails its cast or validator is refused (400) before the lookup; a missing product is 404;
      otherwise the caller's product gets the column and the modification date, and nothing else
      changes. */
  function UpdateProductField(ps: seq<Product>, companyId: string, productId: string, columnName: string, v: NewValue, now: int): (r: (int, seq<Product>))
    ensures r.0 in {200, 400, 404}
    ensures r.0 != 200 ==> r.1 == ps
    ensures ParseColumn(columnName).None? ==> r.0 == 400
    ensures r.0 == 400 <==> (ParseColumn(columnName).None? || Cast(ParseColumn(columnName).value, v).None?)
    ensures r.0 == 404 <==> (ParseColumn(columnName).Some? && Cast(ParseColumn(columnName).value, v).Some? &&
                             forall j :: 0 <= j < |ps| ==> !HasKey(ps[j], productId, companyId))
    ensures r.0 == 200 ==>
      var i := FindProduct(ps, productId, companyId).value;
      && |r.1| == |ps|
      && r.1[i] == SetColumn(ps[i], ParseColumn(columnName).value, v, now).value
      && forall j :: 0 <= j < |ps| && j != i ==> r.1[j] == ps[j]
    ensures ValidProducts(ps) ==> ValidProducts(r.1)
  {
    match ParseColumn(columnName)
    case None => (400, ps)
    case Some(c) =>
      if Cast(c, v).None? then (400, ps)
      else
        match FindProduct(ps, productId, companyId)
        case None => (404, ps)
        case Some(i) =>
          var q := SetColumn(ps[i], c, v, now).value;
          assert ValidProducts(ps) ==> ValidProduct(q);
          (200, ps[i := q])
  }

  // ---------------------------------------------------------------- delete

  /** `deleteProduct`: removes the caller's product with this id, or 404 when there is none. With
      the unique key, the product is then gone. */
  function DeleteProduct(ps: seq<Product>, companyId: string, productId: string): (r: (int, seq<Product>))
    ensures r.0 == 200 || r.0 == 404
    ensures r.0 == 404 <==> (forall j :: 0 <= j < |ps| ==> !HasKey(ps[j], productId, companyId))
    ensures r.0 == 404 ==> r.1 == ps
    ensures r.0 == 200 ==> |r.1| == |ps| - 1
    ensures r.0 == 200 ==> forall j :: 0 <= j < |ps| && !HasKey(ps[j], productId, companyId) ==> ps[j] in r.1
    ensures ValidProducts(ps) ==> ValidProducts(r.1)
    ensures ValidProducts(ps) ==> forall j :: 0 <= j < |r.1| ==> !HasKey(r.1[j], productId, companyId)
  {
    match FindProduct(ps, productId, companyId)
    case None => (404, ps)
    case Some(i) =>
      var rest := Seqs.RemoveAt(ps, i);
      (200, rest)
  }

  /** The products `deleteProducts` removes: the caller's, with one of the listed ids. */
  predicate Listed(p: Product, companyId: string, productIds: seq<string>) {
    p.companyId == companyId && p.productId in productIds
  }

  function KeepFilter(companyId: string, productIds: seq<string>): Product -> bool {
    (p: Product) => !Listed(p, companyId, productIds)
  }

  /** `deleteProducts`: removes the listed ids within the caller's company and reports how many
      went. */
  function DeleteProducts(ps: seq<Product>, companyId: string, productIds: seq<string>): (r: (nat, seq<Product>))
    ensures forall p :: p in r.1 <==> p in ps && !Listed(p, companyId, productIds)
    ensures r.0 + |r.1| == |ps|
  {
    var kept := Seqs.Filter(ps, KeepFilter(companyId, productIds));
    (|ps| - |kept|, kept)
  }

  function OfCompany(companyId: string): Product -> bool {
    (p: Product) => p.companyId == companyId
  }

  /** Another company's products, in order, are exactly what they were. */
  lemma {:induction false} DeleteProductsSparesOthers(ps: seq<Product>, companyId: string, productIds: seq<string>, other: string)
    requires other != companyId
    ensures Seqs.Filter(DeleteProducts(ps, companyId, productIds).1, OfCompany(other)) == Seqs.Filter(ps, OfCompany(other))
  {
    if |ps| > 0 {
      DeleteProductsSparesOthers(ps[1..], companyId, productIds, other);
    }
  }

  /** The reported count is the number of the caller's products with a listed id. */
  lemma {:induction false} DeletedCount(ps: seq<Product>, companyId: string, productIds: seq<string>)
    ensures DeleteProducts(ps, companyId, productIds).0 ==
      |Seqs.Filter(ps, (p: Product) => Listed(p, companyId, productIds))|
  {
    if |ps| > 0 {
      DeletedCount(ps[1..], companyId, productIds);
    }
  }
}
