/** Freight containers: the abstract `FreightContainer` class and its three
    concrete variants, modelled as one closed datatype. Construction validates
    the gross weight for every variant (4..30 tonnes inclusive) and, for the
    dangerous-goods variant, the goods category (1..9 inclusive). */
module Containers {
  import opened Wrappers

  /** A container's identifier. Parsing and check-digit validation of the
      11-character code are not part of this model; the manifest only ever
      compares codes for equality, which a datatype gives structurally. */
  datatype ContainerCode = ContainerCode(text: string)

  /** The runtime class of a container. The manifest compares classes to keep
      its stacks homogeneous. */
  datatype ContainerKind = GeneralGoods | DangerousGoods | Refrigerated

  /** The tare weight of a standard 20-foot container, in tonnes. */
  const MinGrossWeight: int := 4
  /** The largest gross weight a standard 20-foot container may carry, in tonnes. */
  const MaxGrossWeight: int := 30
  /** Dangerous-goods categories are numbered 1 to 9. */
  const MinCategory: int := 1
  const MaxCategory: int := 9

  /** The one failure of container construction (InvalidContainerException). */
  datatype ContainerError = InvalidContainer

  datatype FreightContainer =
    | GeneralGoodsContainer(code: ContainerCode, grossWeight: int)
    | DangerousGoodsContainer(code: ContainerCode, grossWeight: int, category: int)
    | RefrigeratedContainer(code: ContainerCode, grossWeight: int, temperature: int)
  {
    /** The variant tag; equal tags play the role of `getClass() ==`. */
    function Kind(): ContainerKind {
      match this
      case GeneralGoodsContainer(_, _) => GeneralGoods
      case DangerousGoodsContainer(_, _, _) => DangerousGoods
      case RefrigeratedContainer(_, _, _) => Refrigerated
    }

    /** What every constructor establishes and nothing afterwards breaks. */
    predicate WellFormed() {
      && WeightInRange(grossWeight)
      && (DangerousGoodsContainer? ==> CategoryInRange(category))
    }
  }

  predicate WeightInRange(w: int) {
    MinGrossWeight <= w <= MaxGrossWeight
  }

  predicate CategoryInRange(category: int) {
    MinCategory <= category <= MaxCategory
  }

  /** A container as client code can hold one: every value of the Java class
      hierarchy went through a validating constructor. */
  type Container = c: FreightContainer | c.WellFormed()
    witness GeneralGoodsContainer(ContainerCode([]), MinGrossWeight)

  /** The weight check of the `FreightContainer` constructor, shared by all
      variants. A `None` weight is a Java `null`. */
  function CheckGrossWeight(grossWeight: Option<int>): (r: Result<int, ContainerError>)
    ensures r.Success? <==> grossWeight.Some? && WeightInRange(grossWeight.value)
    ensures r.Success? ==> r.value == grossWeight.value
  {
    if grossWeight.None? || grossWeight.value < MinGrossWeight || grossWeight.value > MaxGrossWeight then
      Failure(InvalidContainer)
    else
      Success(grossWeight.value)
  }

  /** `new GeneralGoodsContainer(code, grossWeight)`. */
  function NewGeneralGoods(code: ContainerCode, grossWeight: Option<int>): (r: Result<Container, ContainerError>)
    ensures r.Success? <==> grossWeight.Some? && WeightInRange(grossWeight.value)
    ensures r.Success? ==>
      && r.value.Kind() == GeneralGoods
      && r.value.code == code
      && r.value.grossWeight == grossWeight.value
  {
    match CheckGrossWeight(grossWeight)
    case Failure(e) => Failure(e)
    case Success(w) => Success(GeneralGoodsContainer(code, w))
  }

  /** `new DangerousGoodsContainer(code, grossWeight, category)`: the weight is
      checked first (by the superclass constructor), then the category. */
  function NewDangerousGoods(code: ContainerCode, grossWeight: Option<int>, category: int): (r: Result<Container, ContainerError>)
    ensures r.Success? <==> grossWeight.Some? && WeightInRange(grossWeight.value) && CategoryInRange(category)
    ensures r.Success? ==>
      && r.value.Kind() == DangerousGoods
      && r.value.code == code
      && r.value.grossWeight == grossWeight.value
      && r.value.category == category
  {
    match CheckGrossWeight(grossWeight)
    case Failure(e) => Failure(e)
    case Success(w) =>
      if category < MinCategory || category > MaxCategory then Failure(InvalidContainer)
      else Success(DangerousGoodsContainer(code, w, category))
  }

  /** `new RefrigeratedContainer(code, grossWeight, temperature)`: any
      temperature is accepted. */
  function NewRefrigerated(code: ContainerCode, grossWeight: Option<int>, temperature: int): (r: Result<Container, ContainerError>)
    ensures r.Success? <==> grossWeight.Some? && WeightInRange(grossWeight.value)
    ensures r.Success? ==>
      && r.value.Kind() == Refrigerated
      && r.value.code == code
      && r.value.grossWeight == grossWeight.value
      && r.value.temperature == temperature
  {
    match CheckGrossWeight(grossWeight)
    case Failure(e) => Failure(e)
    case Success(w) => Success(RefrigeratedContainer(code, w, temperature))
  }

  /** `RefrigeratedContainer.setTemperature`: overwrites the temperature
      without any check; the container stays well-formed and keeps its
      identity and weight. */
  function SetTemperature(c: Container, temperature: int): (r: Container)
    requires c.Kind() == Refrigerated
    ensures r.Kind() == Refrigerated && r.temperature == temperature
    ensures r.code == c.code && r.grossWeight == c.grossWeight
  {
    c.(temperature := temperature)
  }

  /** Setting a refrigerated container's temperature changes nothing but the
      temperature: writing back the old value gives back the same container,
      and a second write hides the first. */
  lemma SetTemperatureOnlyChangesTemperature(c: Container, t1: int, t2: int)
    requires c.Kind() == Refrigerated
    ensures SetTemperature(c, c.temperature) == c
    ensures SetTemperature(SetTemperature(c, t1), t2) == SetTemperature(c, t2)
    ensures SetTemperature(SetTemperature(c, t1), c.temperature) == c
  {
  }

  /** The weight rule is the same for every variant: given a valid category,
      all three constructors accept exactly the same gross weights. */
  lemma WeightRuleSharedByAllVariants(code: ContainerCode, grossWeight: Option<int>, category: int, temperature: int)
    ensures NewRefrigerated(code, grossWeight, temperature).Success? == NewGeneralGoods(code, grossWeight).Success?
    ensures CategoryInRange(category) ==>
      NewDangerousGoods(code, grossWeight, category).Success? == NewGeneralGoods(code, grossWeight).Success?
    ensures !NewGeneralGoods(code, grossWeight).Success? ==> !NewDangerousGoods(code, grossWeight, category).Success?
  {
  }

  /** The boundary cases exercised for each variant: 3 and 31 tonnes and a
      missing weight are rejected, 4, 15 and 30 tonnes accepted; categories 0 and
      10 are rejected, 1, 5 and 9 accepted. */
  lemma ConstructionBoundaries(code: ContainerCode, temperature: int)
    ensures NewGeneralGoods(code, Some(4)).Success? && NewGeneralGoods(code, Some(30)).Success?
    ensures NewGeneralGoods(code, Some(3)).Failure? && NewGeneralGoods(code, Some(31)).Failure?
    ensures NewGeneralGoods(code, None).Failure? && NewGeneralGoods(code, Some(15)).Success?
    ensures NewDangerousGoods(code, None, 1).Failure?
    ensures NewRefrigerated(code, None, temperature).Failure? && NewRefrigerated(code, Some(15), temperature).Success?
    ensures NewDangerousGoods(code, Some(4), 1).Success? && NewDangerousGoods(code, Some(15), 5).Success?
    ensures NewDangerousGoods(code, Some(30), 9).Success?
    ensures NewDangerousGoods(code, Some(3), 1).Failure? && NewDangerousGoods(code, Some(31), 1).Failure?
    ensures NewDangerousGoods(code, Some(10), 0).Failure? && NewDangerousGoods(code, Some(10), 10).Failure?
    ensures NewRefrigerated(code, Some(4), temperature).Success? && NewRefrigerated(code, Some(30), temperature).Success?
    ensures NewRefrigerated(code, Some(3), temperature).Failure? && NewRefrigerated(code, Some(31), temperature).Failure?
  {
  }
}
