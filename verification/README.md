# Cargo manifest and freight containers, in Dafny

This project models the core of a container-ship cargo manifest written in
Java. The model has two parts, and it proves properties of both.

- **Freight containers** (`FreightContainer` and its three variants: general
  goods, dangerous goods, refrigerated). A container is an immutable value
  made of a code and a gross weight. Construction rejects a missing weight and
  any weight outside 4..30 tonnes, for every variant. A dangerous-goods
  container must also have a category in 1..9. A refrigerated container
  accepts any temperature, and `setTemperature` overwrites it without a check.
  The open Java class hierarchy becomes one closed datatype with a constructor
  per variant. The runtime-class comparison `getClass() ==` becomes equality
  of a variant tag (`Kind()`). `Container` is the subset of values that a
  validating constructor can produce.
- **The cargo manifest** (`CargoManifest`). It holds a fixed row of stacks,
  each ordered bottom to top, a height limit, a weight limit and a cached
  current weight. `Load` checks three things, in this order:
  1. the weight limit;
  2. that the code is not already on board;
  3. a first-fit placement rule. The lowest-indexed stack that is empty, or
     below the height limit with a top container of the same variant, takes
     the container. The search never backtracks.

  `Unload` removes a container only when it is on top of its stack.
  `WhichStack` and `HowHigh` are linear searches that return `None` for "not
  on board". `ToArray` returns one stack, after a bounds check.

The Java class mutates itself and throws `ManifestException` on failure. The
model treats a manifest as a value instead. `Load` and `Unload` return a
`Step`: the state after the call, plus `Pass` or `Fail(error)`. "A failed call
changes nothing" therefore becomes the provable statement `after == m`.
Java's `null` becomes `Option.None`. Exceptions become a `Result` or an
`Outcome`, carrying an error enumeration.

The class invariant is `Manifests.Valid`:
- the construction parameters were positive;
- codes are unique across all stacks;
- each stack holds a single variant;
- each stack is at most `maxHeight` high;
- the cached weight equals the total gross weight on board and is within the
  limit.

`ManifestProofs` shows that construction establishes this invariant and that
every load and unload keeps it. It also proves three more facts:
- the queries report exactly where a code sits;
- a code can be unloaded exactly when it is on top of a stack;
- unloading what was just loaded gives back the earlier manifest.

`ManifestScenarios` replays the fixture of the manifest unit tests as lemmas.
The fixture is 3 stacks of height 2 with a 120-tonne limit, loaded with G10,
G10, D20, R30, D20 and R30. The lemmas cover that loading, then the queries,
the rejected loads and the unloads the tests apply to it. A second scenario
loads the same six containers onto a five-stack, height-four, 150-tonne ship,
where every load succeeds.

Files:
- `wrappers.dfy`: `Option`, `Result`, `Outcome`.
- `containers.dfy`: container codes, variants and validating constructors.
- `manifest.dfy`: the manifest, its invariant, its searches and its operations.
- `manifest_proofs.dfy`: invariant preservation, query and round-trip lemmas.
- `manifest_scenarios.dfy`: the unit-test scenarios.
- `weight_overflow.dfy`: the 32-bit weight check as written (see Findings).

In two places the code and its documentation disagree, and the model follows
the code:
- The constructor's Javadoc says it rejects *negative* parameters. The code
  rejects zero too (`<= 0`).
- The unload Javadoc describes a single "not accessible" failure that also
  covers "not on board". The code throws at two separate places, with two
  different messages. The model uses two errors, `NotFound` and
  `NotAccessible`.

Some comments in the manifest load test say a load fails because the code
"already exists" or because there is "no space". The fixture is already at its
120-tonne limit, so every one of those loads actually fails the weight check,
which comes first. `ManifestScenarios.RejectedLoadsFailOnWeight` states this.

## Model

| member | source | states |
|---|---|---|
| `Containers.CheckGrossWeight` | asgn2Containers/FreightContainer.java:34-39 | The weight check succeeds exactly when a weight is given and it lies in 4..30 inclusive; on success it yields that weight |
| `Containers.NewGeneralGoods` | asgn2Containers/FreightContainer.java:34-58 | Construction succeeds iff the weight is present and in 4..30; the result is a general-goods container whose `getCode` and `getGrossWeight` return the arguments |
| `Containers.NewDangerousGoods` | asgn2Tests/ContainerTests.java:159-182 | Succeeds iff the weight is in 4..30 and the category in 1..9; the result keeps code, weight and category and has the dangerous-goods variant |
| `Containers.NewRefrigerated` | asgn2Tests/ContainerTests.java:135-141 | Succeeds iff the weight is in 4..30, with any temperature; the result keeps code, weight and temperature |
| `Containers.SetTemperature` | asgn2Tests/ContainerTests.java:222-227 | After the call the temperature reads back as the new value; variant, code and weight are unchanged and the container stays well-formed |
| `Containers.SetTemperatureOnlyChangesTemperature` | asgn2Tests/ContainerTests.java:217-227 | Writing back the old temperature restores the container; a second write hides the first |
| `Containers.WeightRuleSharedByAllVariants` | asgn2Containers/FreightContainer.java:34-39 | All three variants accept exactly the same gross weights (given a valid category); a weight that fails one variant fails dangerous goods too |
| `Containers.ConstructionBoundaries` | asgn2Tests/ContainerTests.java:114-196 | Weights 3 and 31 and a missing weight fail, 4, 15 and 30 succeed, for every variant; categories 0 and 10 fail, 1, 5, 9 succeed |
| `Manifests.Position` | asgn2Tests/CargoFrameTests.java:190-195 | The search returns `None` iff no position from `j` on holds the code; otherwise the lowest such position |
| `Manifests.StackOf` | asgn2Tests/CargoFrameTests.java:161-167 | The search returns `None` iff no stack from `i` on holds the code; otherwise the lowest stack that does |
| `Manifests.FirstFit` | asgn2Tests/CargoFrameTests.java:104-119 | Returns `None` iff no stack from `i` on is empty or below the height limit with a same-variant top; otherwise the lowest stack that is |
| `Manifests.New` | asgn2Tests/CargoFrameTests.java:71-82 | Fails with `BadParams` iff some parameter is <= 0; otherwise `numStacks` empty stacks, the given limits and weight 0 |
| `Manifests.WhichStack` | asgn2Tests/CargoFrameTests.java:160-168 | `None` iff no container on board has the code; otherwise the lowest stack index holding it |
| `Manifests.HowHigh` | asgn2Tests/CargoFrameTests.java:183-197 | `None` iff the code is not on board; otherwise the zero-based position of the code in the stack `WhichStack` reports |
| `Manifests.Load` | asgn2Tests/CargoFrameTests.java:94-123 | Fails with `WeightExceeded` iff the new total would exceed the limit. Otherwise fails with `Duplicate` iff the code is on board. Otherwise fails with `NoSpace` iff no stack accepts the container. Every failure leaves the manifest unchanged. On success the container is pushed onto the first accepting stack, the weight grows by its gross weight, and every other stack and both limits stay the same |
| `Manifests.Unload` | asgn2Tests/CargoFrameTests.java:134-147 | Fails with `NotFound` iff the code is not on board. Fails with `NotAccessible` iff its position is below the top of its stack. Every failure leaves the manifest unchanged. On success the top container of that stack, which has the code, is removed and its weight subtracted; every other stack stays the same |
| `Manifests.ToArray` | asgn2Tests/CargoFrameTests.java:208-216 | Fails with `BadIndex` for a missing, negative or too large index; otherwise returns that stack bottom-to-top |
| `ManifestProofs.NewIsValid` | asgn2Tests/CargoFrameTests.java:71-82 | A freshly constructed manifest satisfies the class invariant and `getNumStacks` equals the requested number of stacks |
| `ManifestProofs.LoadPreservesValid` | asgn2Tests/CargoFrameTests.java:94-123 | A successful load keeps all of the invariant: unique codes, homogeneous stacks, heights within the limit, cached weight equal to the true total and within the limit. Every load keeps the number of stacks |
| `ManifestProofs.LoadKeepsCodesUnique` | asgn2Tests/CargoFrameTests.java:99-101 | Given unique codes before, codes are still unique after a successful load, because the duplicate check rules out the new code everywhere on board |
| `ManifestProofs.LoadKeepsStacksInShape` | asgn2Tests/CargoFrameTests.java:104-119 | Given homogeneous stacks within the height limit before, they stay so after a successful load: the container only goes on an empty stack, or on a stack below the limit whose top has its variant |
| `ManifestProofs.LoadKeepsWeightConsistent` | asgn2Tests/CargoFrameTests.java:95-115 | Given a cached weight equal to the true total and within the limit, both still hold after a successful load |
| `ManifestProofs.LoadPlacesOnTop` | asgn2Tests/CargoFrameTests.java:104-119 | After a successful load, `whichStack` reports the first-fit stack and `howHigh` reports the old height of that stack, so the new container is on top |
| `ManifestProofs.Locate` | asgn2Tests/CargoFrameTests.java:160-197 | With unique codes, `whichStack` and `howHigh` return exactly the stack and position where the code sits |
| `ManifestProofs.UnloadPreservesValid` | asgn2Tests/CargoFrameTests.java:134-147 | A successful unload keeps all of the invariant, including weight within the limit, since a container weighs at least 4 tonnes. Every unload keeps the number of stacks |
| `ManifestProofs.UnloadKeepsCodesUnique` | asgn2Tests/CargoFrameTests.java:144-146 | Codes stay unique after a successful unload, because every remaining container keeps its position |
| `ManifestProofs.UnloadKeepsStacksInShape` | asgn2Tests/CargoFrameTests.java:139-146 | Stacks stay homogeneous and within the height limit after a successful unload |
| `ManifestProofs.UnloadKeepsWeightConsistent` | asgn2Tests/CargoFrameTests.java:144-146 | After a successful unload the cached weight still equals the true total and stays within the limit, since the removed weight is not negative |
| `ManifestProofs.UnloadSucceedsIffOnTop` | asgn2Tests/CargoFrameTests.java:125-147 | With unique codes, an unload succeeds iff the code is on top of some stack: only the accessible container can be craned off |
| `ManifestProofs.LoadThenUnloadRestores` | asgn2Tests/CargoFrameTests.java:94-147 | On a valid manifest, unloading the container that was just loaded succeeds and gives back exactly the manifest before the load |
| `ManifestScenarios.FixtureContainersAreConstructible` | ManifestTests.java:58-68 | The six fixture containers are what the validating constructors build from the fixture's arguments |
| `ManifestScenarios.SetUpLoadsAsExpected` | ManifestTests.java:70-76 | Constructing 3 stacks, height 2, limit 120 succeeds. Loading G10, G10, D20, R30, D20, R30 succeeds at each step. Each step's state is given explicitly |
| `ManifestScenarios.LoadedIsValid` | ManifestTests.java:52-77 | The loaded fixture satisfies the class invariant |
| `ManifestScenarios.QueriesOnLoadedFixture` | ManifestTests.java:231-257 | On the fixture `whichStack` gives 0,0,1,1,2,2 and `howHigh` gives 0,1,0,1,0,1 for the six containers |
| `ManifestScenarios.QueriesForAbsentCode` | ManifestTests.java:240-266 | Both queries report absence for a code never loaded |
| `ManifestScenarios.LargerShipTakesAll` | ManifestTests.java:137-149 | On a five-stack, height-four, 150-tonne ship construction and the same six loads all succeed, placing each container where first fit puts it and leaving stacks 3 and 4 empty at 120 tonnes |
| `ManifestScenarios.RejectedLoadsFailOnWeight` | ManifestTests.java:151-183 | On the full fixture the three rejected loads all fail on the weight check, including the one with a duplicate code |
| `ManifestScenarios.UnloadTops` | ManifestTests.java:186-205 | Unloading the tops G1, then G0, then D1 succeeds, with the stated resulting states |
| `ManifestScenarios.UnloadRejections` | ManifestTests.java:208-228 | Afterwards, unloading an unknown code fails with `NotFound` and unloading R0 (under R1) fails with `NotAccessible` |
| `ManifestScenarios.FirstFitTakesFirstEmptyStack` | asgn2Tests/CargoFrameTests.java:104-122 | First fit does not backtrack: a dangerous-goods container goes to an empty stack 1 rather than to the open dangerous-goods stack 2. When no stack accepts, the load fails with `NoSpace` |
| `ManifestScenarios.ConstructorCases` | ManifestTests.java:88-134 | (1,2,30) and (4,3,50) construct; each of the six non-positive parameter cases fails with `BadParams` |
| `WeightOverflow.LoadAsWritten` | asgn2Tests/CargoFrameTests.java:96-97 | The load with 32-bit `int` weight arithmetic: fails on weight iff the wrapped sum exceeds the limit, and leaves the state unchanged on failure |
| `WeightOverflow.AsWrittenAgreesWithoutOverflow` | asgn2Tests/CargoFrameTests.java:94-123 | Whenever current weight plus gross weight fits in 32 bits, the code as written and the model agree on outcome and resulting state |
| `WeightOverflow.OverflowAdmitsOverweightLoad` | asgn2Tests/CargoFrameTests.java:96-108 | A valid ship holds 2147483640 tonnes against a limit of 2147483647. The model rejects one more 30-tonne container; the code as written accepts it and its cached weight becomes negative |

## Left out

- Container codes are opaque values compared by equality. The code's
  11-character format, owner and category letters, serial number and check
  digit are not modelled. `ContainerCode.java` is not part of this model.
- The Swing windows and dialogs, the text front end and the `main` entry
  point are left out. They only call the operations above and display the
  results.
- Exception messages are left out. Each `throw` becomes one value of
  `ManifestError` or `ContainerError`.
- `null` is modelled only where the source tests for it: the gross weight
  (`Option<int>`) and the `toArray` index (`Option<int>`). A `null` container,
  code, category or temperature would raise a `NullPointerException` or
  compare unequal. So would a `null` for any of the manifest constructor's
  boxed `Integer` parameters (`numStacks`, `maxHeight`, `maxWeight`), which
  are unboxed by the comparison with zero. The model has no such values.
- The constructors of the three container variants are not in the source
  files shown. Their behaviour is taken from the container unit tests. The
  weight check comes before the category check, because the superclass
  constructor runs first.
- `getCategory`, `getTemperature` and `getNumStacks` are plain field reads.
  They are the datatype fields and `Manifests.NumStacks`. What they return is
  stated by the constructor contracts and by `ManifestProofs.NewIsValid`.
- Java aliasing is not modelled. In the Java code `toArray` hands back a
  fresh array, but its elements are the very container objects on board. A
  caller that holds a loaded `RefrigeratedContainer`, or reads one back
  through `toArray`, can still call `setTemperature` on it and so change a
  container while it is on board. In the model every value is immutable, so
  a loaded container's temperature never changes. This affects only what
  `toArray` shows; no manifest rule reads the temperature.
- Integer width: all arithmetic is on unbounded integers, except the 32-bit
  weight check below. The other sums cannot leave the 32-bit range on a
  valid manifest: stack indices, heights, and the subtraction in unload.

## Findings

| source | as written | input that shows it | evidently intended | confidence | as-written member | corrected member |
|---|---|---|---|---|---|---|
| asgn2Tests/CargoFrameTests.java:96 | `currentWeight + newContainer.getGrossWeight() > maxWeight` is evaluated in 32-bit `int`, so the sum can wrap to a negative number | maxWeight = 2147483647 with 71582788 containers of 30 t on board (2147483640 t), then load one more 30 t container: the sum wraps to -2147483626, the check passes, the load succeeds and `currentWeight` becomes negative | a load that takes the total above the weight limit is rejected | low, not executed (needs about 72 million containers on board) | `WeightOverflow.LoadAsWritten` | `Manifests.Load` |

`WeightOverflow.OverflowAdmitsOverweightLoad` exhibits the input: it proves
the ship is valid, that `Manifests.Load` rejects the container with
`WeightExceeded`, and that `LoadAsWritten` accepts it and leaves a negative
weight. The corrected check compares mathematical integers. It is the one
the rest of the model uses. `ManifestProofs.LoadPreservesValid` proves the
intended property for it: after every successful load the cached weight
equals the true total and stays within the limit.
