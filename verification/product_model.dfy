/**
 * The stored product record (`ProductSchema`, `PriceSchema`,
 * `InstallmentSchema`): its field types, the validation a document must pass
 * before it is stored, and the uniqueness of product codes across the
 * collection.
 */
module ProductModel {
  import opened Wrappers

  /** The energy-efficiency rating; the schema admits exactly the letters A to G. */
  datatype EnergyClass = A | B | C | D | E | F | G

  /** The stored form of an energy class: its one-letter name. */
  function Letter(e: EnergyClass): string
  {
    match e
    case A => "A" case B => "B" case C => "C" case D => "D"
    case E => "E" case F => "F" case G => "G"
  }

  /** The schema's `enum` check: accepts exactly the seven one-letter names. */
  function ParseEnergyClass(s: string): (r: Option<EnergyClass>)
    ensures r.Some? ==> Letter(r.value) == s
  {
    if s == "A" then Some(A) else if s == "B" then Some(B)
    else if s == "C" then Some(C) else if s == "D" then Some(D)
    else if s == "E" then Some(E) else if s == "F" then Some(F)
    else if s == "G" then Some(G) else None
  }

  /** Every energy class survives the enum check, so the check rejects only strings that are no letter A-G. */
  lemma EnergyClassRoundTrip(e: EnergyClass)
    ensures ParseEnergyClass(Letter(e)) == Some(e)
  {
  }

  /** `InstallmentSchema`: the amount of each instalment and the number of periods. */
  datatype Installment = Installment(value: real, period: real)

  /** `PriceSchema`; dates are instants (milliseconds since the epoch), with no order imposed between them. */
  datatype Price = Price(value: real, currency: string, installment: Installment, validFrom: int, validTo: int)

  /** `ProductSchema`. `capacity` is a JavaScript number; `features` keeps its order. */
  datatype Product = Product(
    image: string,
    code: string,
    name: string,
    color: string,
    capacity: real,
    dimensions: string,
    features: seq<string>,
    energyClass: EnergyClass,
    price: Price)

  /**
   * A document as submitted for storage: every scalar field may be missing.
   * The energy class is still an arbitrary string here; the array of
   * features is always present because the document layer gives arrays an
   * empty default.
   */
  datatype RawInstallment = RawInstallment(value: Option<real>, period: Option<real>)
  datatype RawPrice = RawPrice(
    value: Option<real>, currency: Option<string>, installment: Option<RawInstallment>,
    validFrom: Option<int>, validTo: Option<int>)
  datatype RawProduct = RawProduct(
    image: Option<string>, code: Option<string>, name: Option<string>, color: Option<string>,
    capacity: Option<real>, dimensions: Option<string>, features: seq<string>,
    energyClass: Option<string>, price: Option<RawPrice>)

  /** Why a document was refused: a required field is missing, or a value is outside the enum. */
  datatype FieldError = Required(path: string) | NotInEnum(path: string, value: string)

  /** A required string must be present and non-empty (an empty string fails `required`). */
  predicate HasString(v: Option<string>) {
    v.Some? && |v.value| > 0
  }

  /** The required-field checks of every schema, with their paths; nested paths start with `price.`. */
  function InstallmentErrors(i: RawInstallment): seq<FieldError>
  {
    (if i.value.Some? then [] else [Required("price.installment.value")])
    + (if i.period.Some? then [] else [Required("price.installment.period")])
  }

  function PriceErrors(p: RawPrice): seq<FieldError>
  {
    (if p.value.Some? then [] else [Required("price.value")])
    + (if HasString(p.currency) then [] else [Required("price.currency")])
    + (if p.installment.Some? then InstallmentErrors(p.installment.value) else [Required("price.installment")])
    + (if p.validFrom.Some? then [] else [Required("price.validFrom")])
    + (if p.validTo.Some? then [] else [Required("price.validTo")])
  }

  function EnergyClassErrors(v: Option<string>): seq<FieldError>
  {
    if HasString(v) then
      (if ParseEnergyClass(v.value).Some? then [] else [NotInEnum("energyClass", v.value)])
    else [Required("energyClass")]
  }

  function ProductErrors(raw: RawProduct): seq<FieldError>
  {
    (if HasString(raw.image) then [] else [Required("image")])
    + (if HasString(raw.code) then [] else [Required("code")])
    + (if HasString(raw.name) then [] else [Required("name")])
    + (if HasString(raw.color) then [] else [Required("color")])
    + (if raw.capacity.Some? then [] else [Required("capacity")])
    + (if HasString(raw.dimensions) then [] else [Required("dimensions")])
    + EnergyClassErrors(raw.energyClass)
    + (if raw.price.Some? then PriceErrors(raw.price.value) else [Required("price")])
  }

  /** A stored product: every required string is non-empty, at the top level and inside the price. */
  predicate Valid(p: Product) {
    && |p.image| > 0 && |p.code| > 0 && |p.name| > 0 && |p.color| > 0
    && |p.dimensions| > 0 && |p.price.currency| > 0
  }

  /** Every field of `raw` is present and well formed. */
  predicate Complete(raw: RawProduct) {
    && HasString(raw.image) && HasString(raw.code) && HasString(raw.name)
    && HasString(raw.color) && raw.capacity.Some? && HasString(raw.dimensions)
    && HasString(raw.energyClass) && ParseEnergyClass(raw.energyClass.value).Some?
    && raw.price.Some?
    && var p := raw.price.value;
       p.value.Some? && HasString(p.currency) && p.installment.Some?
       && p.installment.value.value.Some? && p.installment.value.period.Some?
       && p.validFrom.Some? && p.validTo.Some?
  }

  /**
   * Schema validation: a document is stored exactly when every required field
   * is present and the energy class is in the enum; the stored product then
   * carries the submitted values, and otherwise at least one error is
   * reported (`ValidateReportsFields` says which).
   */
  function Validate(raw: RawProduct): (r: Result<Product, seq<FieldError>>)
    ensures r.Success? <==> Complete(raw)
    ensures r.Success? ==> Valid(r.value) && ToRaw(r.value) == raw
    ensures r.Failure? ==> |r.error| > 0
  {
    var errors := ProductErrors(raw);
    if |errors| > 0 then Failure(errors)
    else
      var p := raw.price.value;
      var i := p.installment.value;
      Success(Product(
        raw.image.value, raw.code.value, raw.name.value, raw.color.value,
        raw.capacity.value, raw.dimensions.value, raw.features,
        ParseEnergyClass(raw.energyClass.value).value,
        Price(p.value.value, p.currency.value, Installment(i.value.value, i.period.value),
              p.validFrom.value, p.validTo.value)))
  }

  /**
   * A refused document names each missing top-level field, and only those,
   * and reports an energy class outside the enum together with its value.
   */
  lemma ValidateReportsFields(raw: RawProduct)
    ensures var r := Validate(raw);
      r.Failure? ==>
        && (Required("image") in r.error <==> !HasString(raw.image))
        && (Required("code") in r.error <==> !HasString(raw.code))
        && (Required("name") in r.error <==> !HasString(raw.name))
        && (Required("color") in r.error <==> !HasString(raw.color))
        && (Required("capacity") in r.error <==> raw.capacity.None?)
        && (Required("dimensions") in r.error <==> !HasString(raw.dimensions))
        && (Required("energyClass") in r.error <==> !HasString(raw.energyClass))
        && (Required("price") in r.error <==> raw.price.None?)
        && (HasString(raw.energyClass) && ParseEnergyClass(raw.energyClass.value).None?
            ==> NotInEnum("energyClass", raw.energyClass.value) in r.error)
  {
    ReportsImage(raw);
    ReportsCode(raw);
    ReportsName(raw);
    ReportsColor(raw);
    ReportsCapacity(raw);
    ReportsDimensions(raw);
    ReportsEnergyClass(raw);
    ReportsPrice(raw);
    assert Validate(raw).Failure? ==> Validate(raw).error == ProductErrors(raw);
  }

  /** Where an error in the report comes from: one field's check each. */
  lemma ErrorSource(raw: RawProduct, x: FieldError)
    ensures x in ProductErrors(raw) <==>
      || (x == Required("image") && !HasString(raw.image))
      || (x == Required("code") && !HasString(raw.code))
      || (x == Required("name") && !HasString(raw.name))
      || (x == Required("color") && !HasString(raw.color))
      || (x == Required("capacity") && raw.capacity.None?)
      || (x == Required("dimensions") && !HasString(raw.dimensions))
      || x in EnergyClassErrors(raw.energyClass)
      || (x == Required("price") && raw.price.None?)
      || (raw.price.Some? && x in PriceErrors(raw.price.value))
  {
  }

  /**
   * The top-level names differ from each other, and none has the dot of a
   * `price.` path. Spelling out the characters that tell them apart lets the
   * solver separate the string literals without searching through them.
   */
  lemma TopNames()
    ensures "image"[0] == 'i' && "code"[0] == 'c' && "name"[0] == 'n' && "color"[0] == 'c'
    ensures "capacity"[0] == 'c' && "dimensions"[0] == 'd' && "energyClass"[0] == 'e' && "price"[0] == 'p'
    ensures "code"[1] == 'o' && "color"[1] == 'o' && "capacity"[1] == 'a' && "code"[2] == 'd' && "color"[2] == 'l'
    ensures |"price"| == 5 && "capacity"[5] != '.' && "dimensions"[5] != '.' && "energyClass"[5] != '.'
  {
  }

  lemma ReportsImage(raw: RawProduct)
    ensures Required("image") in ProductErrors(raw) <==> !HasString(raw.image)
  {
    ErrorSource(raw, Required("image"));
    OtherPaths(raw);
    TopNames();
  }

  lemma ReportsCode(raw: RawProduct)
    ensures Required("code") in ProductErrors(raw) <==> !HasString(raw.code)
  {
    ErrorSource(raw, Required("code"));
    OtherPaths(raw);
    TopNames();
  }

  lemma ReportsName(raw: RawProduct)
    ensures Required("name") in ProductErrors(raw) <==> !HasString(raw.name)
  {
    ErrorSource(raw, Required("name"));
    OtherPaths(raw);
    TopNames();
  }

  lemma ReportsColor(raw: RawProduct)
    ensures Required("color") in ProductErrors(raw) <==> !HasString(raw.color)
  {
    ErrorSource(raw, Required("color"));
    OtherPaths(raw);
    TopNames();
  }

  lemma ReportsCapacity(raw: RawProduct)
    ensures Required("capacity") in ProductErrors(raw) <==> raw.capacity.None?
  {
    ErrorSource(raw, Required("capacity"));
    OtherPaths(raw);
    TopNames();
  }

  lemma ReportsDimensions(raw: RawProduct)
    ensures Required("dimensions") in ProductErrors(raw) <==> !HasString(raw.dimensions)
  {
    ErrorSource(raw, Required("dimensions"));
    OtherPaths(raw);
    TopNames();
  }

  lemma ReportsEnergyClass(raw: RawProduct)
    ensures Required("energyClass") in ProductErrors(raw) <==> !HasString(raw.energyClass)
  {
    ErrorSource(raw, Required("energyClass"));
    OtherPaths(raw);
    TopNames();
  }

  lemma ReportsPrice(raw: RawProduct)
    ensures Required("price") in ProductErrors(raw) <==> raw.price.None?
  {
    ErrorSource(raw, Required("price"));
    OtherPaths(raw);
    TopNames();
  }

  /** The energy-class check reports only its own path, and the price checks only paths under `price.`. */
  lemma OtherPaths(raw: RawProduct)
    ensures forall e :: e in EnergyClassErrors(raw.energyClass) ==> e.path == "energyClass"
    ensures raw.price.Some? ==> forall e :: e in PriceErrors(raw.price.value) ==> |e.path| > 5 && e.path[5] == '.'
  {
    if raw.price.Some? {
      PricePaths(raw.price.value);
    }
  }

  /** Every path a price reports starts with `price.`, so it has a dot where no top-level name does. */
  lemma PricePaths(p: RawPrice)
    ensures forall e :: e in PriceErrors(p) ==> |e.path| > 5 && e.path[5] == '.'
  {
    var dotted := ["price.value", "price.currency", "price.installment", "price.installment.value",
      "price.installment.period", "price.validFrom", "price.validTo"];
    assert forall k :: 0 <= k < |dotted| ==> |dotted[k]| > 5 && dotted[k][5] == '.';
    forall e | e in PriceErrors(p) ensures e.Required? && e.path in dotted {
    }
  }

  /** The document a product is stored as. */
  function ToRaw(p: Product): RawProduct
  {
    RawProduct(
      Some(p.image), Some(p.code), Some(p.name), Some(p.color), Some(p.capacity),
      Some(p.dimensions), p.features, Some(Letter(p.energyClass)),
      Some(RawPrice(Some(p.price.value), Some(p.price.currency),
        Some(RawInstallment(Some(p.price.installment.value), Some(p.price.installment.period))),
        Some(p.price.validFrom), Some(p.price.validTo))))
  }

  /** Every valid product passes validation unchanged. */
  lemma ValidateToRaw(p: Product)
    requires Valid(p)
    ensures Validate(ToRaw(p)) == Success(p)
  {
    EnergyClassRoundTrip(p.energyClass);
  }

  /** The unique index on `code`: no two stored products share a code. */
  predicate UniqueCodes(coll: seq<Product>) {
    forall i, j :: 0 <= i < j < |coll| ==> coll[i].code != coll[j].code
  }

  predicate HasCode(coll: seq<Product>, code: string) {
    exists i :: 0 <= i < |coll| && coll[i].code == code
  }

  /** The error the unique index raises, naming the field and the clashing value. */
  datatype DuplicateKey = DuplicateKey(field: string, value: string)

  /**
   * Storing one product: refused with a duplicate-key error when its code is
   * already taken, appended otherwise; the collection keeps unique codes.
   */
  function Insert(coll: seq<Product>, p: Product): (r: Result<seq<Product>, DuplicateKey>)
    requires UniqueCodes(coll)
    ensures r.Failure? <==> HasCode(coll, p.code)
    ensures r.Success? ==> UniqueCodes(r.value) && r.value == coll + [p]
    ensures r.Failure? ==> r.error == DuplicateKey("code", p.code)
  {
    if exists i :: 0 <= i < |coll| && coll[i].code == p.code then Failure(DuplicateKey("code", p.code))
    else Success(coll + [p])
  }
}
