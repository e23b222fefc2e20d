/**
 * The collection handlers of the admin products API
 * (app/api/admin/products/route.ts): POST validates the body, maps the
 * category to a SKU prefix, scans counters 1, 2, 3, ... for the first SKU no
 * stored product holds, and creates the product with that SKU; GET lists
 * every product.
 */
module ProductsRoute {
  import opened Wrappers
  import opened Strings
  import opened JsValues
  import opened ProductModel

  /** The fields POST destructures from the request body. */
  datatype Submission = Submission(
    name: JsValue,
    description: JsValue,
    category: JsValue,
    price: JsValue,
    stock: JsValue,
    cloudinaryPublicIds: JsValue,
    attributes: JsValue)

  function Destructure(body: JsValue): Submission
  {
    Submission(Get(body, "name"), Get(body, "description"), Get(body, "category"),
               Get(body, "price"), Get(body, "stock"), Get(body, "cloudinaryPublicIds"),
               Get(body, "attributes"))
  }

  datatype Response =
    | Created(product: Product)
    | ValidationFailed(errors: seq<string>)
    | InvalidCategory
    | ServerError(message: string)
    | Listed(products: seq<Product>)

  function Status(r: Response): int
  {
    match r
    case Created(_) => 201
    case ValidationFailed(_) => 400
    case InvalidCategory => 400
    case ServerError(_) => 500
    case Listed(_) => 200
  }

  /** The checks POST runs on a submission, in the order it runs them. */
  datatype Check =
    | NameRequired | DescriptionRequired | CategoryRequired | PriceRequired | StockRequired
    | IdsRequired | AttributesRequired | IdsNotStrings | PriceNotNumber | StockNotNumber

  function Message(c: Check): string
  {
    match c
    case NameRequired => "name is required"
    case DescriptionRequired => "description is required"
    case CategoryRequired => "category is required"
    case PriceRequired => "price is required"
    case StockRequired => "stock is required"
    case IdsRequired => "cloudinaryPublicIds are required"
    case AttributesRequired => "attributes are required"
    case IdsNotStrings => "cloudinaryPublicIds must be an array of strings"
    case PriceNotNumber => "price must be a number"
    case StockNotNumber => "stock must be a number"
  }

  /** The position of a check in the handler. */
  function Order(c: Check): nat
  {
    match c
    case NameRequired => 0
    case DescriptionRequired => 1
    case CategoryRequired => 2
    case PriceRequired => 3
    case StockRequired => 4
    case IdsRequired => 5
    case AttributesRequired => 6
    case IdsNotStrings => 7
    case PriceNotNumber => 8
    case StockNotNumber => 9
  }

  /** The check the handler runs at position `k`. */
  function CheckAt(k: nat): (c: Check)
    requires k < 10
    ensures Order(c) == k
  {
    match k
    case 0 => NameRequired
    case 1 => DescriptionRequired
    case 2 => CategoryRequired
    case 3 => PriceRequired
    case 4 => StockRequired
    case 5 => IdsRequired
    case 6 => AttributesRequired
    case 7 => IdsNotStrings
    case 8 => PriceNotNumber
    case _ => StockNotNumber
  }

  /** Every check runs at exactly one position. */
  lemma CheckAtOrder(c: Check)
    ensures Order(c) < 10 && CheckAt(Order(c)) == c
  {
  }

  /** Whether a check complains about the submission. */
  predicate Fails(s: Submission, c: Check)
  {
    match c
    case NameRequired => !Truthy(s.name)
    case DescriptionRequired => !Truthy(s.description)
    case CategoryRequired => !Truthy(s.category)
    case PriceRequired => s.price.Undefined?
    case StockRequired => s.stock.Undefined?
    case IdsRequired => !Truthy(s.cloudinaryPublicIds)
    case AttributesRequired => !Truthy(s.attributes)
    case IdsNotStrings => Truthy(s.cloudinaryPublicIds) && !IsStringArray(s.cloudinaryPublicIds)
    case PriceNotNumber => !s.price.Undefined? && !s.price.Num?
    case StockNotNumber => !s.stock.Undefined? && !s.stock.Num?
  }

  /** The failing checks at positions `lo` up to (not including) `hi`, in position order. */
  function FailedIn(s: Submission, lo: nat, hi: nat): seq<Check>
    requires hi <= 10
  {
    if hi <= lo then []
    else FailedIn(s, lo, hi - 1) + (if Fails(s, CheckAt(hi - 1)) then [CheckAt(hi - 1)] else [])
  }

  /** Every check in `r` lies in positions `lo` to `hi` (exclusive) and fails. */
  predicate AllFailIn(s: Submission, r: seq<Check>, lo: nat, hi: nat)
  {
    forall i :: 0 <= i < |r| ==> lo <= Order(r[i]) < hi && Fails(s, r[i])
  }

  /** The checks in `r` are in strictly increasing position order. */
  predicate InHandlerOrder(r: seq<Check>)
  {
    forall i, j :: 0 <= i < j < |r| ==> Order(r[i]) < Order(r[j])
  }

  /** Every check at positions `lo` to `hi` (exclusive) that fails is in `r`. */
  predicate HoldsEveryFailureIn(s: Submission, r: seq<Check>, lo: nat, hi: nat)
  {
    forall c :: lo <= Order(c) < hi && Fails(s, c) ==> c in r
  }

  /** The checks at positions `lo` to `hi` (exclusive) are those up to `hi - 1`, then the one at `hi - 1` if it fails. */
  lemma FailedInSnoc(s: Submission, lo: nat, hi: nat)
    requires lo < hi <= 10
    ensures var top := CheckAt(hi - 1);
      FailedIn(s, lo, hi) == FailedIn(s, lo, hi - 1) + (if Fails(s, top) then [top] else [])
      && Order(top) == hi - 1
  {
  }

  /** Every check FailedIn reports lies in its range and fails. */
  lemma {:induction false} FailedInSound(s: Submission, lo: nat, hi: nat)
    requires hi <= 10
    ensures AllFailIn(s, FailedIn(s, lo, hi), lo, hi)
  {
    if lo < hi {
      var prev := FailedIn(s, lo, hi - 1);
      var top := CheckAt(hi - 1);
      var last := if Fails(s, top) then [top] else [];
      var r := prev + last;
      FailedInSnoc(s, lo, hi);
      FailedInSound(s, lo, hi - 1);
      assert AllFailIn(s, last, hi - 1, hi);
      forall i | 0 <= i < |r|
        ensures lo <= Order(r[i]) < hi && Fails(s, r[i])
      {
        if i < |prev| { assert r[i] == prev[i]; } else { assert r[i] == last[i - |prev|]; }
      }
    }
  }

  /** FailedIn reports its checks in handler order. */
  lemma {:induction false} FailedInOrdered(s: Submission, lo: nat, hi: nat)
    requires hi <= 10
    ensures InHandlerOrder(FailedIn(s, lo, hi))
  {
    if lo < hi {
      var prev := FailedIn(s, lo, hi - 1);
      var top := CheckAt(hi - 1);
      var last := if Fails(s, top) then [top] else [];
      var r := prev + last;
      FailedInSnoc(s, lo, hi);
      FailedInOrdered(s, lo, hi - 1);
      FailedInSound(s, lo, hi - 1);
      assert forall k :: 0 <= k < |last| ==> last[k] == top;
      forall i, j | 0 <= i < j < |r|
        ensures Order(r[i]) < Order(r[j])
      {
        assert r[i] == prev[i];
        if j < |prev| { assert r[j] == prev[j]; } else { assert r[j] == last[j - |prev|]; }
      }
    }
  }

  /** FailedIn reports every failing check of its range. */
  lemma {:induction false} FailedInComplete(s: Submission, lo: nat, hi: nat)
    requires hi <= 10
    ensures HoldsEveryFailureIn(s, FailedIn(s, lo, hi), lo, hi)
  {
    if lo < hi {
      var prev := FailedIn(s, lo, hi - 1);
      var top := CheckAt(hi - 1);
      FailedInSnoc(s, lo, hi);
      FailedInComplete(s, lo, hi - 1);
      forall c | lo <= Order(c) < hi && Fails(s, c)
        ensures c in FailedIn(s, lo, hi)
      {
        CheckAtOrder(c);
        if Order(c) < hi - 1 {
          assert c in prev;
        } else {
          assert c == top;
        }
      }
    }
  }

  /**
   * FailedIn holds exactly the failing checks of its range, each once and in
   * position order.
   */
  lemma FailedInExactly(s: Submission, lo: nat, hi: nat)
    requires hi <= 10
    ensures AllFailIn(s, FailedIn(s, lo, hi), lo, hi)
    ensures InHandlerOrder(FailedIn(s, lo, hi))
    ensures HoldsEveryFailureIn(s, FailedIn(s, lo, hi), lo, hi)
  {
    FailedInSound(s, lo, hi);
    FailedInOrdered(s, lo, hi);
    FailedInComplete(s, lo, hi);
  }

  /** Running the checks of two adjacent ranges one after the other runs the checks of their union. */
  lemma {:induction false} FailedInSplit(s: Submission, lo: nat, mid: nat, hi: nat)
    requires lo <= mid <= hi <= 10
    ensures FailedIn(s, lo, hi) == FailedIn(s, lo, mid) + FailedIn(s, mid, hi)
  {
    if mid < hi {
      FailedInSplit(s, lo, mid, hi - 1);
    }
  }

  /** The submissions that pass validation. */
  predicate Acceptable(s: Submission)
  {
    && Truthy(s.name)
    && Truthy(s.description)
    && Truthy(s.category)
    && s.price.Num?
    && s.stock.Num?
    && IsStringArray(s.cloudinaryPublicIds)
    && Truthy(s.attributes)
  }

  /** The failing checks of a submission, in the order the handler runs them. */
  function FailedChecks(s: Submission): seq<Check>
  {
    FailedIn(s, 0, 10)
  }

  /** A submission is acceptable exactly when no check fails on it. */
  lemma AcceptableNoFailure(s: Submission)
    ensures Acceptable(s) <==> forall c :: !Fails(s, c)
  {
    if !Acceptable(s) {
      var c :=
        if !Truthy(s.name) then NameRequired
        else if !Truthy(s.description) then DescriptionRequired
        else if !Truthy(s.category) then CategoryRequired
        else if s.price.Undefined? then PriceRequired
        else if !s.price.Num? then PriceNotNumber
        else if s.stock.Undefined? then StockRequired
        else if !s.stock.Num? then StockNotNumber
        else if !Truthy(s.cloudinaryPublicIds) then IdsRequired
        else if !IsStringArray(s.cloudinaryPublicIds) then IdsNotStrings
        else AttributesRequired;
      assert Fails(s, c);
    } else {
      assert Truthy(s.cloudinaryPublicIds);
    }
  }

  /**
   * Each failing check is reported exactly once, in handler order, and a
   * submission is reported clean exactly when it is acceptable. An empty array
   * of ids is truthy and passes.
   */
  lemma FailedChecksExactly(s: Submission)
    ensures forall c :: c in FailedChecks(s) <==> Fails(s, c)
    ensures forall i, j :: 0 <= i < j < |FailedChecks(s)| ==> Order(FailedChecks(s)[i]) < Order(FailedChecks(s)[j])
    ensures FailedChecks(s) == [] <==> Acceptable(s)
  {
    FailedInExactly(s, 0, 10);
    forall c ensures Order(c) < 10 {
      CheckAtOrder(c);
    }
    AcceptableNoFailure(s);
    var r := FailedIn(s, 0, 10);
    assert FailedChecks(s) == r;
    assert AllFailIn(s, r, 0, 10) && InHandlerOrder(r) && HoldsEveryFailureIn(s, r, 0, 10);
    if r != [] {
      assert Fails(s, r[0]);
    }
  }

  /** The `errors` array of a 400 response: the failing checks' messages, in order. */
  function MessagesOf(checks: seq<Check>): (errors: seq<string>)
    ensures |errors| == |checks|
    ensures forall i :: 0 <= i < |checks| ==> errors[i] == Message(checks[i])
  {
    seq(|checks|, i requires 0 <= i < |checks| => Message(checks[i]))
  }

  /** `const errors = []` and the presence checks (`if (!name) errors.push(...)` ... `if (!attributes) ...`). */
  method PresenceErrors(s: Submission) returns (errors: seq<Check>)
    ensures errors == FailedIn(s, 0, 7)
  {
    errors := [];
    if !Truthy(s.name) { errors := errors + [NameRequired]; }
    assert errors == FailedIn(s, 0, 1);
    if !Truthy(s.description) { errors := errors + [DescriptionRequired]; }
    assert errors == FailedIn(s, 0, 2);
    if !Truthy(s.category) { errors := errors + [CategoryRequired]; }
    assert errors == FailedIn(s, 0, 3);
    if s.price.Undefined? { errors := errors + [PriceRequired]; }
    assert errors == FailedIn(s, 0, 4);
    if s.stock.Undefined? { errors := errors + [StockRequired]; }
    assert errors == FailedIn(s, 0, 5);
    if !Truthy(s.cloudinaryPublicIds) { errors := errors + [IdsRequired]; }
    assert errors == FailedIn(s, 0, 6);
    if !Truthy(s.attributes) { errors := errors + [AttributesRequired]; }
  }

  /** The type checks on the ids, the price and the stock. */
  method PushTypeErrors(s: Submission, errors: seq<Check>) returns (r: seq<Check>)
    ensures r == errors + FailedIn(s, 7, 10)
  {
    r := errors;
    if Truthy(s.cloudinaryPublicIds) && !IsStringArray(s.cloudinaryPublicIds) { r := r + [IdsNotStrings]; }
    assert r == errors + FailedIn(s, 7, 8);
    if !s.price.Undefined? && !s.price.Num? { r := r + [PriceNotNumber]; }
    assert r == errors + FailedIn(s, 7, 9);
    if !s.stock.Undefined? && !s.stock.Num? { r := r + [StockNotNumber]; }
  }

  /** The handler's validation: every check, in order, collecting the failing ones. */
  method CollectErrors(s: Submission) returns (errors: seq<Check>)
    ensures errors == FailedChecks(s)
  {
    errors := PresenceErrors(s);
    errors := PushTypeErrors(s, errors);
    FailedInSplit(s, 0, 7, 10);
  }

  /** The category slug's SKU prefix; only the two configured categories have one. */
  function CategoryPrefix(category: JsValue): (prefix: Option<string>)
    ensures category == Str("vinyl-cd") ==> prefix == Some("VC")
    ensures category == Str("audio-equipment") ==> prefix == Some("AE")
    ensures prefix.Some? <==> category == Str("vinyl-cd") || category == Str("audio-equipment")
    ensures prefix.Some? ==> |prefix.value| == 2
  {
    if category == Str("vinyl-cd") then Some("VC")
    else if category == Str("audio-equipment") then Some("AE")
    else None
  }

  /** `${prefix}${String(counter).padStart(3, '0')}`. */
  function FormatSku(prefix: string, counter: nat): string
  {
    prefix + PadStart(NatToString(counter), 3, '0')
  }

  /** The counter a SKU of the given prefix was formatted from (0 for anything else). */
  function CounterOf(prefix: string, sku: string): nat
  {
    if StartsWith(sku, prefix) && AllDigits(sku[|prefix|..]) then ParseDecimal(sku[|prefix|..]) else 0
  }

  /** The counter can be read back from the SKU: the zero padding never loses digits. */
  lemma SkuCounterRoundTrip(prefix: string, counter: nat)
    ensures CounterOf(prefix, FormatSku(prefix, counter)) == counter
  {
    var digits := NatToString(counter);
    var sku := FormatSku(prefix, counter);
    assert sku[..|prefix|] == prefix;
    var padded := PadStart(digits, 3, '0');
    assert sku[|prefix|..] == padded;
    ParseNatToString(counter);
    if |digits| < 3 {
      assert padded == Repeat('0', 3 - |digits|) + digits;
      ParseLeadingZeros(3 - |digits|, digits);
    }
  }

  /** Different counters give different SKUs, however large the counter grows. */
  lemma FormatSkuInjective(prefix: string, a: nat, b: nat)
    requires FormatSku(prefix, a) == FormatSku(prefix, b)
    ensures a == b
  {
    SkuCounterRoundTrip(prefix, a);
    SkuCounterRoundTrip(prefix, b);
  }

  /** The two prefixes never produce the same SKU, so the categories never compete for one. */
  lemma CategoriesNeverShareSku(c1: JsValue, c2: JsValue, a: nat, b: nat)
    requires CategoryPrefix(c1).Some? && CategoryPrefix(c2).Some? && c1 != c2
    ensures FormatSku(CategoryPrefix(c1).value, a) != FormatSku(CategoryPrefix(c2).value, b)
  {
    assert FormatSku(CategoryPrefix(c1).value, a)[0] == CategoryPrefix(c1).value[0];
    assert FormatSku(CategoryPrefix(c2).value, b)[0] == CategoryPrefix(c2).value[0];
  }

  lemma {:induction false} DecimalWidth(n: nat)
    ensures n < 1000 <==> |NatToString(n)| <= 3
  {
    if n >= 10 {
      DecimalWidth(n / 10);
      assert |NatToString(n)| == |NatToString(n / 10)| + 1;
      if n < 1000 {
        if n / 10 >= 10 {
          assert n / 100 < 10;
          assert |NatToString(n / 10)| == |NatToString(n / 100)| + 1;
        }
      } else {
        assert n / 100 >= 10;
        assert |NatToString(n / 10)| == |NatToString(n / 100)| + 1;
        assert |NatToString(n / 100)| == |NatToString(n / 1000)| + 1;
      }
    }
  }

  /** Counters below 1000 give prefix-plus-three-digit SKUs; larger ones keep every digit. */
  lemma FormatSkuLength(prefix: string, counter: nat)
    ensures counter < 1000 ==> |FormatSku(prefix, counter)| == |prefix| + 3
    ensures counter >= 1000 ==> FormatSku(prefix, counter) == prefix + NatToString(counter)
  {
    DecimalWidth(counter);
  }

  /** The SKUs of counters 1 to `n` are all held. */
  predicate CountersHeld(prefix: string, held: set<string>, n: nat)
  {
    forall d :: 1 <= d <= n ==> FormatSku(prefix, d) in held
  }

  /** `counter` is the first counter, from 1, whose SKU no stored product holds. */
  predicate IsLeastFreeCounter(prefix: string, held: set<string>, counter: nat)
  {
    && counter >= 1
    && FormatSku(prefix, counter) !in held
    && CountersHeld(prefix, held, counter - 1)
  }

  /** The least free counter is unique, so the scan's answer is determined by the store. */
  lemma LeastFreeCounterUnique(prefix: string, held: set<string>, a: nat, b: nat)
    requires IsLeastFreeCounter(prefix, held, a) && IsLeastFreeCounter(prefix, held, b)
    ensures a == b
  {
  }

  /** With VC001 and VC002 stored, the next vinyl SKU is VC003. */
  lemma ThirdVinylSku(held: set<string>)
    requires held == {"VC001", "VC002"}
    ensures var prefix := CategoryPrefix(Str("vinyl-cd")).value;
      IsLeastFreeCounter(prefix, held, 3) && FormatSku(prefix, 3) == "VC003"
  {
    assert CategoryPrefix(Str("vinyl-cd")).value == "VC";
    assert NatToString(1) == "1" && NatToString(2) == "2" && NatToString(3) == "3";
    assert FormatSku("VC", 1) == "VC001";
    assert FormatSku("VC", 2) == "VC002";
    assert FormatSku("VC", 3) == "VC003";
  }

  /** If the SKUs of counters 1 to `n` are all held, at least `n` SKUs are held. */
  lemma {:induction false} HeldCounters(prefix: string, held: set<string>, n: nat)
    requires CountersHeld(prefix, held, n)
    ensures n <= |held|
  {
    if n > 0 {
      var top := FormatSku(prefix, n);
      var rest := held - {top};
      forall d | 1 <= d <= n - 1
        ensures FormatSku(prefix, d) in rest
      {
        if FormatSku(prefix, d) == top {
          FormatSkuInjective(prefix, d, n);
        }
      }
      HeldCounters(prefix, rest, n - 1);
    }
  }

  /**
   * The SKU scan: counters 1, 2, 3, ... until one whose SKU `findOne` does not
   * find. It stops at the least free counter, which is at most one more than
   * the number of stored products.
   */
  method AllocateSku(store: ProductCollection, prefix: string) returns (sku: string, counter: nat)
    ensures IsLeastFreeCounter(prefix, store.Skus(), counter)
    ensures sku == FormatSku(prefix, counter) && sku !in store.Skus()
    ensures counter <= |store.products| + 1
  {
    counter := 0;
    sku := "";
    var isUnique := false;
    ghost var held := store.Skus();
    while !isUnique
      invariant counter <= |held| + 1
      invariant !isUnique ==> CountersHeld(prefix, held, counter)
      invariant isUnique ==> IsLeastFreeCounter(prefix, held, counter) && sku == FormatSku(prefix, counter)
      decreases if isUnique then 0 else 1, |held| + 1 - counter
    {
      HeldCounters(prefix, held, counter);
      counter := counter + 1;
      sku := FormatSku(prefix, counter);
      var existing := store.FindOneBySku(sku);
      if existing.None? {
        isUnique := true;
      } else {
        assert CountersHeld(prefix, held, counter);
      }
    }
  }

  /** The document POST hands to `Product.create`: `{ ...body, sku, cloudinaryPublicIds }`. */
  function NewDocument(body: JsValue, sku: string): JsValue
    requires body.Obj?
  {
    Obj(Assign(Assign(body.props, "sku", Str(sku)), "cloudinaryPublicIds", Get(body, "cloudinaryPublicIds")))
  }

  /** The new document reads as the body except that `sku` is the allocated one. */
  lemma NewDocumentGet(body: JsValue, sku: string, key: string)
    requires body.Obj?
    ensures Get(NewDocument(body, sku), key) == if key == "sku" then Str(sku) else Get(body, key)
  {
    var inner := Assign(body.props, "sku", Str(sku));
    if key == "sku" {
      assert key != "cloudinaryPublicIds";
      assert Lookup(inner, key) == Str(sku);
    }
  }

  /** The stored record takes the allocated SKU whatever `sku` the body carried, and every other field from the body. */
  lemma NewDocumentFields(body: JsValue, sku: string, id: string)
    requires body.Obj? && Cast(NewDocument(body, sku), id).Success?
    ensures var p := Cast(NewDocument(body, sku), id).value;
      && p.sku == sku && p.id == id
      && Get(body, "name") == Str(p.name)
      && Get(body, "description") == Str(p.description)
      && Get(body, "category") == Str(p.category)
      && Get(body, "price") == Num(p.price)
      && Get(body, "cloudinaryPublicIds") == StringArray(p.cloudinaryPublicIds)
      && Get(body, "attributes") == p.attributes
      && (Get(body, "stock").Num? ==> p.stock == Get(body, "stock").n)
      && (Get(body, "stock").Undefined? ==> p.stock == 0)
      && (Get(body, "featured").Bool? ==> p.featured == Get(body, "featured").b)
      && (Get(body, "featured").Undefined? ==> !p.featured)
  {
    NewDocumentGet(body, sku, "sku");
    NewDocumentGet(body, sku, "name");
    NewDocumentGet(body, sku, "description");
    NewDocumentGet(body, sku, "category");
    NewDocumentGet(body, sku, "price");
    NewDocumentGet(body, sku, "stock");
    NewDocumentGet(body, sku, "featured");
    NewDocumentGet(body, sku, "cloudinaryPublicIds");
    NewDocumentGet(body, sku, "attributes");
  }

  /**
   * A body that passes validation, whose text fields are strings and whose
   * `featured` is absent or a boolean, is accepted by the schema once it
   * carries a SKU.
   */
  lemma NewDocumentAccepted(body: JsValue, sku: string, id: string)
    requires body.Obj? && Acceptable(Destructure(body)) && sku != ""
    requires Get(body, "name").Str? && Get(body, "description").Str? && Get(body, "category").Str?
    requires Get(body, "featured").Undefined? || Get(body, "featured").Bool?
    ensures Cast(NewDocument(body, sku), id).Success?
  {
    NewDocumentGet(body, sku, "sku");
    NewDocumentGet(body, sku, "name");
    NewDocumentGet(body, sku, "description");
    NewDocumentGet(body, sku, "category");
    NewDocumentGet(body, sku, "price");
    NewDocumentGet(body, sku, "stock");
    NewDocumentGet(body, sku, "cloudinaryPublicIds");
    NewDocumentGet(body, sku, "attributes");
    NewDocumentGet(body, sku, "featured");
  }

  /** The message of the TypeError that destructuring a `null` or `undefined` body throws in V8. */
  function DestructureFailure(body: JsValue): string
  {
    "Cannot destructure property 'name' of 'body' as it is " + (if body.Null? then "null" else "undefined") + "."
  }

  /**
   * The second half of POST, once the body is valid and the category has a
   * prefix: allocate the least free SKU and create the record with it.
   */
  method AllocateAndCreate(store: ProductCollection, body: JsValue, prefix: string, newId: string) returns (resp: Response)
    requires store.Valid() && body.Obj?
    modifies store
    ensures store.Valid()
    ensures resp.Created? || resp.ServerError?
    ensures !resp.Created? ==> store.products == old(store.products)
    ensures resp.Created? ==>
              && (exists c :: IsLeastFreeCounter(prefix, old(store.Skus()), c) && resp.product.sku == FormatSku(prefix, c))
              && Cast(NewDocument(body, resp.product.sku), newId) == Success(resp.product)
              && store.products == old(store.products) + [resp.product]
    ensures resp.ServerError? ==>
              exists c :: IsLeastFreeCounter(prefix, old(store.Skus()), c)
                          && (Cast(NewDocument(body, FormatSku(prefix, c)), newId).Failure?
                              || newId in IdSet(old(store.products)))
    ensures && Acceptable(Destructure(body))
            && Get(body, "name").Str? && Get(body, "description").Str? && Get(body, "category").Str?
            && (Get(body, "featured").Undefined? || Get(body, "featured").Bool?)
            && newId !in IdSet(old(store.products))
            ==> resp.Created?
  {
    var sku, counter := AllocateSku(store, prefix);
    assert IsLeastFreeCounter(prefix, old(store.Skus()), counter);
    var doc := NewDocument(body, sku);
    assert |sku| >= 3;
    if && Acceptable(Destructure(body))
       && Get(body, "name").Str? && Get(body, "description").Str? && Get(body, "category").Str?
       && (Get(body, "featured").Undefined? || Get(body, "featured").Bool?) {
      NewDocumentAccepted(body, sku, newId);
    }
    var created := store.Create(doc, newId);
    match created
    case Success(p) =>
      NewDocumentGet(body, sku, "sku");
      assert p.sku == sku;
      resp := Created(p);
    case Failure(e) =>
      resp := ServerError(ErrorMessage(e));
  }

  /** POST /api/admin/products. `newId` is the identifier the driver gives the new document. */
  method Post(store: ProductCollection, body: JsValue, newId: string) returns (resp: Response)
    requires store.Valid()
    modifies store
    ensures store.Valid()
    ensures !resp.Created? ==> store.products == old(store.products)
    ensures IsNullish(body) ==> resp == ServerError(DestructureFailure(body))
    ensures !IsNullish(body) && FailedChecks(Destructure(body)) != [] ==>
              resp == ValidationFailed(MessagesOf(FailedChecks(Destructure(body))))
    ensures !IsNullish(body) && FailedChecks(Destructure(body)) == [] && CategoryPrefix(Get(body, "category")).None? ==>
              resp == InvalidCategory
    // once the category has a prefix, the answer is the record or the catch's 500
    ensures !IsNullish(body) && FailedChecks(Destructure(body)) == [] && CategoryPrefix(Get(body, "category")).Some? ==>
              resp.Created? || resp.ServerError?
    ensures resp.Created? ==>
              && body.Obj? && Acceptable(Destructure(body))
              && var prefix := CategoryPrefix(Get(body, "category"));
              && prefix.Some?
              && (exists c :: IsLeastFreeCounter(prefix.value, old(store.Skus()), c)
                               && resp.product.sku == FormatSku(prefix.value, c))
              && Cast(NewDocument(body, resp.product.sku), newId) == Success(resp.product)
              && store.products == old(store.products) + [resp.product]
    ensures resp.ServerError? && !IsNullish(body) ==>
              && body.Obj? && Acceptable(Destructure(body))
              && var prefix := CategoryPrefix(Get(body, "category"));
              && prefix.Some?
              && exists c :: IsLeastFreeCounter(prefix.value, old(store.Skus()), c)
                             && (Cast(NewDocument(body, FormatSku(prefix.value, c)), newId).Failure?
                                 || newId in IdSet(old(store.products)))
    ensures && body.Obj? && Acceptable(Destructure(body))
            && CategoryPrefix(Get(body, "category")).Some?
            && Get(body, "name").Str? && Get(body, "description").Str?
            && (Get(body, "featured").Undefined? || Get(body, "featured").Bool?)
            && newId !in IdSet(old(store.products))
            ==> resp.Created?
  {
    if IsNullish(body) {
      return ServerError(DestructureFailure(body));
    }
    var submission := Destructure(body);
    FailedChecksExactly(submission);
    var errors := CollectErrors(submission);
    if |errors| > 0 {
      return ValidationFailed(MessagesOf(errors));
    }
    var prefix := CategoryPrefix(submission.category);
    if prefix.None? {
      return InvalidCategory;
    }
    assert body.Obj? && Get(body, "category").Str?;
    resp := AllocateAndCreate(store, body, prefix.value, newId);
  }

  /** GET /api/admin/products: every stored product. */
  method GetAll(store: ProductCollection) returns (resp: Response)
    ensures resp == Listed(store.products) && Status(resp) == 200
  {
    var all := store.FindAll();
    resp := Listed(all);
  }
}
