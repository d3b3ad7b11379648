/** The ship's cargo manifest (class `CargoManifest`): a fixed row of stacks,
    each ordered bottom (index 0) to top, a height limit per stack, a limit on
    the total weight on board, and the cached current total weight.

    The Java class mutates its fields in place and throws `ManifestException`
    on failure. Here a manifest is a value: `Load` and `Unload` return a `Step`
    holding the state after the call and whether the call returned or threw. */
module Manifests {
  import opened Wrappers
  import opened Containers

  /** The reasons a `ManifestException` is thrown. */
  datatype ManifestError =
    | BadParams       // constructor given a non-positive parameter
    | WeightExceeded  // load would exceed the ship's weight limit
    | Duplicate       // load of a code already on board
    | NoSpace         // load found no suitable stack
    | NotFound        // unload of a code not on board
    | NotAccessible   // unload of a container below the top of its stack
    | BadIndex        // toArray of a stack that does not exist

  /** One stack of containers, bottom first. */
  type Stack = seq<Container>

  datatype CargoManifest = CargoManifest(
    stacks: seq<Stack>,
    maxHeight: int,
    maxWeight: int,
    currentWeight: int)

  /** The state after a mutating call, and whether that call returned or threw. */
  datatype Step = Step(after: CargoManifest, outcome: Outcome<ManifestError>)

  // ---------------------------------------------------------------------
  // Vocabulary
  // ---------------------------------------------------------------------

  /** Some container in `stack` has `code`. */
  predicate Holds(stack: Stack, code: ContainerCode) {
    exists j | 0 <= j < |stack| :: stack[j].code == code
  }

  /** Some container on board has `code`. */
  predicate OnBoard(stacks: seq<Stack>, code: ContainerCode) {
    exists i | 0 <= i < |stacks| :: Holds(stacks[i], code)
  }

  /** The placement rule for one stack: a stack takes a new container of
      `kind` when it is empty, or when it is below the height limit and its
      top container has the same kind. */
  predicate Accepts(stack: Stack, maxHeight: int, kind: ContainerKind) {
    || |stack| == 0
    || (|stack| < maxHeight && stack[|stack| - 1].Kind() == kind)
  }

  /** Total gross weight of one stack. */
  function StackWeight(stack: Stack): int {
    if |stack| == 0 then 0 else StackWeight(stack[..|stack| - 1]) + stack[|stack| - 1].grossWeight
  }

  /** Total gross weight of every container on board. */
  function TotalWeight(stacks: seq<Stack>): int {
    if |stacks| == 0 then 0 else TotalWeight(stacks[..|stacks| - 1]) + StackWeight(stacks[|stacks| - 1])
  }

  /** No two positions on board hold the same code. */
  ghost predicate UniqueCodes(stacks: seq<Stack>) {
    forall i, j, i', j' |
      && 0 <= i < |stacks| && 0 <= j < |stacks[i]|
      && 0 <= i' < |stacks| && 0 <= j' < |stacks[i']|
      && stacks[i][j].code == stacks[i'][j'].code
      :: i == i' && j == j'
  }

  /** Every container of the stack has the kind of its bottom container. */
  ghost predicate Homogeneous(stack: Stack) {
    forall j | 0 <= j < |stack| :: stack[j].Kind() == stack[0].Kind()
  }

  /** Every stack is homogeneous and within the height limit. */
  ghost predicate StacksInShape(stacks: seq<Stack>, maxHeight: int) {
    forall i | 0 <= i < |stacks| :: Homogeneous(stacks[i]) && |stacks[i]| <= maxHeight
  }

  /** The cached weight is the true total and within the weight limit. */
  ghost predicate WeightConsistent(m: CargoManifest) {
    m.currentWeight == TotalWeight(m.stacks) <= m.maxWeight
  }

  /** The class invariant: the construction parameters were positive, codes
      are unique, stacks are homogeneous and within the height limit, and the
      cached weight is the true total and within the weight limit. */
  ghost predicate Valid(m: CargoManifest) {
    && |m.stacks| > 0
    && m.maxHeight > 0
    && m.maxWeight > 0
    && UniqueCodes(m.stacks)
    && StacksInShape(m.stacks, m.maxHeight)
    && WeightConsistent(m)
  }

  // ---------------------------------------------------------------------
  // Searches
  // ---------------------------------------------------------------------

  /** The lowest position at or above `j` in `stack` holding `code`: the inner
      loop of `whichStack` and the loop of `howHigh`. */
  function Position(stack: Stack, code: ContainerCode, j: nat): (r: Option<nat>)
    requires j <= |stack|
    ensures r.None? <==> forall k | j <= k < |stack| :: stack[k].code != code
    ensures r.Some? ==>
      && j <= r.value < |stack|
      && stack[r.value].code == code
      && forall k | j <= k < r.value :: stack[k].code != code
    decreases |stack| - j
  {
    if j == |stack| then None
    else if stack[j].code == code then Some(j)
    else Position(stack, code, j + 1)
  }

  /** The lowest stack at or after `i` holding `code`: the outer loop of
      `whichStack`. */
  function StackOf(stacks: seq<Stack>, code: ContainerCode, i: nat): (r: Option<nat>)
    requires i <= |stacks|
    ensures r.None? <==> forall k | i <= k < |stacks| :: !Holds(stacks[k], code)
    ensures r.Some? ==>
      && i <= r.value < |stacks|
      && Holds(stacks[r.value], code)
      && forall k | i <= k < r.value :: !Holds(stacks[k], code)
    decreases |stacks| - i
  {
    if i == |stacks| then None
    else if Position(stacks[i], code, 0).Some? then Some(i)
    else StackOf(stacks, code, i + 1)
  }

  /** The lowest stack at or after `i` that accepts a container of `kind`:
      the placement loop of `loadContainer`, which never backtracks. */
  function FirstFit(stacks: seq<Stack>, maxHeight: int, kind: ContainerKind, i: nat): (r: Option<nat>)
    requires i <= |stacks|
    ensures r.None? <==> forall k | i <= k < |stacks| :: !Accepts(stacks[k], maxHeight, kind)
    ensures r.Some? ==>
      && i <= r.value < |stacks|
      && Accepts(stacks[r.value], maxHeight, kind)
      && forall k | i <= k < r.value :: !Accepts(stacks[k], maxHeight, kind)
    decreases |stacks| - i
  {
    if i == |stacks| then None
    else if |stacks[i]| == 0 then Some(i)
    else if |stacks[i]| < maxHeight && stacks[i][|stacks[i]| - 1].Kind() == kind then Some(i)
    else FirstFit(stacks, maxHeight, kind, i + 1)
  }

  // ---------------------------------------------------------------------
  // Operations
  // ---------------------------------------------------------------------

  /** The constructor: every parameter must be positive; the new manifest has
      `numStacks` empty stacks and nothing on board. */
  function New(numStacks: int, maxHeight: int, maxWeight: int): (r: Result<CargoManifest, ManifestError>)
    ensures r.Success? <==> numStacks > 0 && maxHeight > 0 && maxWeight > 0
    ensures r.Failure? ==> r.error == BadParams
    ensures r.Success? ==>
      && |r.value.stacks| == numStacks
      && (forall i | 0 <= i < numStacks :: |r.value.stacks[i]| == 0)
      && r.value.maxHeight == maxHeight
      && r.value.maxWeight == maxWeight
      && r.value.currentWeight == 0
  {
    if numStacks <= 0 || maxHeight <= 0 || maxWeight <= 0 then Failure(BadParams)
    else Success(CargoManifest(seq(numStacks, _ => []), maxHeight, maxWeight, 0))
  }

  /** `whichStack`: the lowest stack holding `code`, or `None` when it is not
      on board. */
  function WhichStack(m: CargoManifest, code: ContainerCode): (r: Option<nat>)
    ensures r.None? <==> !OnBoard(m.stacks, code)
    ensures r.Some? ==>
      && r.value < |m.stacks|
      && Holds(m.stacks[r.value], code)
      && forall k | 0 <= k < r.value :: !Holds(m.stacks[k], code)
  {
    StackOf(m.stacks, code, 0)
  }

  /** `howHigh`: the zero-based position of `code` within the stack
      `whichStack` reports, or `None` when it is not on board. */
  function HowHigh(m: CargoManifest, code: ContainerCode): (r: Option<nat>)
    ensures r.None? <==> !OnBoard(m.stacks, code)
    ensures r.Some? ==>
      var s := WhichStack(m, code).value;
      && r.value < |m.stacks[s]|
      && m.stacks[s][r.value].code == code
      && forall k | 0 <= k < r.value :: m.stacks[s][k].code != code
  {
    match WhichStack(m, code)
    case None => None
    case Some(s) => Position(m.stacks[s], code, 0)
  }

  /** `loadContainer`: checks the weight limit, then that the code is not on
      board, then places the container on the first stack that accepts it.
      A failed load leaves the manifest as it was; a successful one changes
      exactly one stack and the cached weight. */
  function Load(m: CargoManifest, c: Container): (r: Step)
    ensures r.outcome.Fail? ==> r.after == m
    ensures r.outcome == Fail(WeightExceeded) <==> m.currentWeight + c.grossWeight > m.maxWeight
    ensures r.outcome == Fail(Duplicate) <==>
      m.currentWeight + c.grossWeight <= m.maxWeight && OnBoard(m.stacks, c.code)
    ensures r.outcome == Fail(NoSpace) <==>
      && m.currentWeight + c.grossWeight <= m.maxWeight
      && !OnBoard(m.stacks, c.code)
      && forall k | 0 <= k < |m.stacks| :: !Accepts(m.stacks[k], m.maxHeight, c.Kind())
    ensures r.outcome.Fail? ==> r.outcome.error in {WeightExceeded, Duplicate, NoSpace}
    ensures r.outcome.Pass? ==>
      && FirstFit(m.stacks, m.maxHeight, c.Kind(), 0).Some?
      && var i := FirstFit(m.stacks, m.maxHeight, c.Kind(), 0).value;
      && |r.after.stacks| == |m.stacks|
      && r.after.stacks[i] == m.stacks[i] + [c]
      && (forall k | 0 <= k < |m.stacks| && k != i :: r.after.stacks[k] == m.stacks[k])
      && r.after.currentWeight == m.currentWeight + c.grossWeight
      && r.after.maxHeight == m.maxHeight
      && r.after.maxWeight == m.maxWeight
  {
    if m.currentWeight + c.grossWeight > m.maxWeight then
      Step(m, Fail(WeightExceeded))
    else if WhichStack(m, c.code).Some? then
      Step(m, Fail(Duplicate))
    else
      match FirstFit(m.stacks, m.maxHeight, c.Kind(), 0)
      case None => Step(m, Fail(NoSpace))
      case Some(i) =>
        var placed := m.(stacks := m.stacks[i := m.stacks[i] + [c]],
                         currentWeight := m.currentWeight + c.grossWeight);
        Step(placed, Pass)
  }

  /** `unloadContainer`: fails when the code is not on board or when its
      container is below the top of its stack; otherwise removes exactly that
      top container and subtracts its weight. A failed unload leaves the
      manifest as it was. */
  function Unload(m: CargoManifest, code: ContainerCode): (r: Step)
    ensures r.outcome.Fail? ==> r.after == m
    ensures r.outcome == Fail(NotFound) <==> !OnBoard(m.stacks, code)
    ensures r.outcome == Fail(NotAccessible) <==>
      && OnBoard(m.stacks, code)
      && HowHigh(m, code).value < |m.stacks[WhichStack(m, code).value]| - 1
    ensures r.outcome.Fail? ==> r.outcome.error in {NotFound, NotAccessible}
    ensures r.outcome.Pass? ==>
      && WhichStack(m, code).Some?
      && var s := WhichStack(m, code).value;
      && |m.stacks[s]| > 0
      && var top := m.stacks[s][|m.stacks[s]| - 1];
      && top.code == code
      && |r.after.stacks| == |m.stacks|
      && r.after.stacks[s] + [top] == m.stacks[s]
      && (forall k | 0 <= k < |m.stacks| && k != s :: r.after.stacks[k] == m.stacks[k])
      && r.after.currentWeight == m.currentWeight - top.grossWeight
      && r.after.maxHeight == m.maxHeight
      && r.after.maxWeight == m.maxWeight
  {
    match WhichStack(m, code)
    case None => Step(m, Fail(NotFound))
    case Some(s) =>
      var height := HowHigh(m, code).value;
      if height < |m.stacks[s]| - 1 then
        Step(m, Fail(NotAccessible))
      else
        var removed := m.stacks[s][height];
        var stack := m.stacks[s][..height] + m.stacks[s][height + 1..];
        assert stack + [removed] == m.stacks[s];
        Step(m.(stacks := m.stacks[s := stack],
                currentWeight := m.currentWeight - removed.grossWeight), Pass)
  }

  /** `toArray`: a copy of one stack, bottom first; a missing (`null`),
      negative or too large index fails. */
  function ToArray(m: CargoManifest, stackNo: Option<int>): (r: Result<Stack, ManifestError>)
    ensures r.Success? <==> stackNo.Some? && 0 <= stackNo.value < |m.stacks|
    ensures r.Failure? ==> r.error == BadIndex
    ensures r.Success? ==> r.value == m.stacks[stackNo.value]
  {
    if stackNo.None? || stackNo.value < 0 || stackNo.value >= |m.stacks| then Failure(BadIndex)
    else Success(m.stacks[stackNo.value])
  }

  /** `getNumStacks`. */
  function NumStacks(m: CargoManifest): nat {
    |m.stacks|
  }
}
