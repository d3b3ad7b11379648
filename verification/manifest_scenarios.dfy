/** Worked scenarios of the manifest's unit tests (ManifestTests.java),
    stated as lemmas over the model: a three-stack, height-two, 120-tonne
    ship loaded with two general, two dangerous-goods and two refrigerated
    containers, and the loads, unloads and queries the tests apply to it;
    and the same six loads on a larger ship, where all of them succeed. */
module ManifestScenarios {
  import opened Wrappers
  import opened Containers
  import opened Manifests
  import ManifestProofs

  const G0: Container := GeneralGoodsContainer(ContainerCode("INKU2633836"), 10)
  const G1: Container := GeneralGoodsContainer(ContainerCode("KOCU8090115"), 10)
  const D0: Container := DangerousGoodsContainer(ContainerCode("MSCU6639871"), 20, 1)
  const D1: Container := DangerousGoodsContainer(ContainerCode("CSQU3054389"), 20, 2)
  const R0: Container := RefrigeratedContainer(ContainerCode("QUTU7200318"), 30, 25)
  const R1: Container := RefrigeratedContainer(ContainerCode("IBMU4882351"), 30, 35)
  /** A valid code that is never loaded. */
  const Absent: ContainerCode := ContainerCode("HBMU4882350")

  /** The fixture's containers are what the validating constructors build
      from the fixture's arguments. */
  lemma FixtureContainersAreConstructible()
    ensures NewGeneralGoods(G0.code, Some(10)) == Success(G0)
    ensures NewGeneralGoods(G1.code, Some(10)) == Success(G1)
    ensures NewDangerousGoods(D0.code, Some(20), 1) == Success(D0)
    ensures NewDangerousGoods(D1.code, Some(20), 2) == Success(D1)
    ensures NewRefrigerated(R0.code, Some(30), 25) == Success(R0)
    ensures NewRefrigerated(R1.code, Some(30), 35) == Success(R1)
  {
  }

  /** A load that passes both checks and whose first-fit stack is `i`
      produces `expected` when `expected` differs from `m` only by the new
      container on top of stack `i` and its weight. */
  lemma LoadGoesTo(m: CargoManifest, c: Container, i: nat, expected: CargoManifest)
    requires m.currentWeight + c.grossWeight <= m.maxWeight
    requires !OnBoard(m.stacks, c.code)
    requires FirstFit(m.stacks, m.maxHeight, c.Kind(), 0) == Some(i)
    requires |expected.stacks| == |m.stacks|
    requires expected.stacks[i] == m.stacks[i] + [c]
    requires forall k | 0 <= k < |m.stacks| && k != i :: expected.stacks[k] == m.stacks[k]
    requires expected.maxHeight == m.maxHeight && expected.maxWeight == m.maxWeight
    requires expected.currentWeight == m.currentWeight + c.grossWeight
    ensures Load(m, c) == Step(expected, Pass)
  {
    assert Load(m, c).after.stacks == expected.stacks;
  }

  /** Unloading the top container of stack `s` of a manifest with unique
      codes produces `expected` when `expected` differs from `m` only by that
      container and its weight. */
  lemma UnloadGives(m: CargoManifest, code: ContainerCode, s: nat, expected: CargoManifest)
    requires UniqueCodes(m.stacks)
    requires s < |m.stacks| && |m.stacks[s]| > 0 && m.stacks[s][|m.stacks[s]| - 1].code == code
    requires |expected.stacks| == |m.stacks|
    requires expected.stacks[s] + [m.stacks[s][|m.stacks[s]| - 1]] == m.stacks[s]
    requires forall k | 0 <= k < |m.stacks| && k != s :: expected.stacks[k] == m.stacks[k]
    requires expected.maxHeight == m.maxHeight && expected.maxWeight == m.maxWeight
    requires expected.currentWeight == m.currentWeight - m.stacks[s][|m.stacks[s]| - 1].grossWeight
    ensures Unload(m, code) == Step(expected, Pass)
  {
    ManifestProofs.Locate(m, code, s, |m.stacks[s]| - 1);
    var r := Unload(m, code);
    assert r.after.stacks[s] == expected.stacks[s];
    assert r.after.stacks == expected.stacks;
  }

  /** The fixture after each of its loads: general goods on stack 0,
      dangerous goods on stack 1, refrigerated on stack 2. */
  const S0 := CargoManifest([[], [], []], 2, 120, 0)
  const S1 := CargoManifest([[G0], [], []], 2, 120, 10)
  const S2 := CargoManifest([[G0, G1], [], []], 2, 120, 20)
  const S3 := CargoManifest([[G0, G1], [D0], []], 2, 120, 40)
  const S4 := CargoManifest([[G0, G1], [D0], [R0]], 2, 120, 70)
  const S5 := CargoManifest([[G0, G1], [D0, D1], [R0]], 2, 120, 90)

  /** The fixture after all six loads, full to its weight limit. */
  const S6 := CargoManifest([[G0, G1], [D0, D1], [R0, R1]], 2, 120, 120)

  lemma SetUpStep1()
    ensures New(3, 2, 120) == Success(S0)
    ensures Load(S0, G0) == Step(S1, Pass)
  {
    assert New(3, 2, 120).value.stacks == S0.stacks;
    LoadGoesTo(S0, G0, 0, S1);
  }

  lemma SetUpStep2()
    ensures Load(S1, G1) == Step(S2, Pass)
  {
    LoadGoesTo(S1, G1, 0, S2);
  }

  lemma SetUpStep3()
    ensures Load(S2, D0) == Step(S3, Pass)
  {
    assert !Holds([G0, G1], D0.code);
    assert FirstFit(S2.stacks, 2, DangerousGoods, 1) == Some(1);
    LoadGoesTo(S2, D0, 1, S3);
  }

  lemma SetUpStep4()
    ensures Load(S3, R0) == Step(S4, Pass)
  {
    assert !Holds([G0, G1], R0.code) && !Holds([D0], R0.code);
    assert FirstFit(S3.stacks, 2, Refrigerated, 2) == Some(2);
    assert FirstFit(S3.stacks, 2, Refrigerated, 1) == Some(2);
    LoadGoesTo(S3, R0, 2, S4);
  }

  lemma SetUpStep5()
    ensures Load(S4, D1) == Step(S5, Pass)
  {
    assert !Holds([G0, G1], D1.code) && !Holds([D0], D1.code) && !Holds([R0], D1.code);
    assert FirstFit(S4.stacks, 2, DangerousGoods, 1) == Some(1);
    LoadGoesTo(S4, D1, 1, S5);
  }

  lemma SetUpStep6()
    ensures Load(S5, R1) == Step(S6, Pass)
  {
    assert !Holds([G0, G1], R1.code) && !Holds([D0, D1], R1.code) && !Holds([R0], R1.code);
    assert FirstFit(S5.stacks, 2, Refrigerated, 2) == Some(2);
    assert FirstFit(S5.stacks, 2, Refrigerated, 1) == Some(2);
    LoadGoesTo(S5, R1, 2, S6);
  }

  /** The set-up of the manifest tests: construction succeeds and each of
      the six loads succeeds and lands where the first-fit rule puts it. */
  lemma SetUpLoadsAsExpected()
    ensures New(3, 2, 120) == Success(S0)
    ensures Load(S0, G0) == Step(S1, Pass)
    ensures Load(S1, G1) == Step(S2, Pass)
    ensures Load(S2, D0) == Step(S3, Pass)
    ensures Load(S3, R0) == Step(S4, Pass)
    ensures Load(S4, D1) == Step(S5, Pass)
    ensures Load(S5, R1) == Step(S6, Pass)
  {
    SetUpStep1(); SetUpStep2(); SetUpStep3(); SetUpStep4(); SetUpStep5(); SetUpStep6();
  }

  /** The loaded fixture satisfies the class invariant, by construction and
      six invariant-preserving loads. */
  lemma LoadedIsValid()
    ensures Valid(S6)
  {
    SetUpLoadsAsExpected();
    ManifestProofs.NewIsValid(3, 2, 120);
    ManifestProofs.LoadPreservesValid(S0, G0);
    ManifestProofs.LoadPreservesValid(S1, G1);
    ManifestProofs.LoadPreservesValid(S2, D0);
    ManifestProofs.LoadPreservesValid(S3, R0);
    ManifestProofs.LoadPreservesValid(S4, D1);
    ManifestProofs.LoadPreservesValid(S5, R1);
  }

  /** The valid half of the load test: a five-stack, height-four,
      150-tonne ship after each of the same six loads. The first-fit rule
      puts them where it did on the fixture and leaves stacks 3 and 4 empty. */
  const L0 := CargoManifest([[], [], [], [], []], 4, 150, 0)
  const L1 := CargoManifest([[G0], [], [], [], []], 4, 150, 10)
  const L2 := CargoManifest([[G0, G1], [], [], [], []], 4, 150, 20)
  const L3 := CargoManifest([[G0, G1], [D0], [], [], []], 4, 150, 40)
  const L4 := CargoManifest([[G0, G1], [D0], [R0], [], []], 4, 150, 70)
  const L5 := CargoManifest([[G0, G1], [D0, D1], [R0], [], []], 4, 150, 90)
  const L6 := CargoManifest([[G0, G1], [D0, D1], [R0, R1], [], []], 4, 150, 120)

  lemma LargerShipStep1()
    ensures New(5, 4, 150) == Success(L0)
    ensures Load(L0, G0) == Step(L1, Pass)
  {
    assert New(5, 4, 150).value.stacks == L0.stacks;
    LoadGoesTo(L0, G0, 0, L1);
  }

  lemma LargerShipStep2()
    ensures Load(L1, G1) == Step(L2, Pass)
  {
    LoadGoesTo(L1, G1, 0, L2);
  }

  lemma LargerShipStep3()
    ensures Load(L2, D0) == Step(L3, Pass)
  {
    assert !Holds([G0, G1], D0.code);
    assert FirstFit(L2.stacks, 4, DangerousGoods, 1) == Some(1);
    LoadGoesTo(L2, D0, 1, L3);
  }

  lemma LargerShipStep4()
    ensures Load(L3, R0) == Step(L4, Pass)
  {
    assert !Holds([G0, G1], R0.code) && !Holds([D0], R0.code);
    assert FirstFit(L3.stacks, 4, Refrigerated, 2) == Some(2);
    assert FirstFit(L3.stacks, 4, Refrigerated, 1) == Some(2);
    LoadGoesTo(L3, R0, 2, L4);
  }

  lemma LargerShipStep5()
    ensures Load(L4, D1) == Step(L5, Pass)
  {
    assert !Holds([G0, G1], D1.code) && !Holds([D0], D1.code) && !Holds([R0], D1.code);
    assert FirstFit(L4.stacks, 4, DangerousGoods, 1) == Some(1);
    LoadGoesTo(L4, D1, 1, L5);
  }

  lemma LargerShipStep6()
    ensures Load(L5, R1) == Step(L6, Pass)
  {
    assert !Holds([G0, G1], R1.code) && !Holds([D0, D1], R1.code) && !Holds([R0], R1.code);
    assert FirstFit(L5.stacks, 4, Refrigerated, 2) == Some(2);
    assert FirstFit(L5.stacks, 4, Refrigerated, 1) == Some(2);
    LoadGoesTo(L5, R1, 2, L6);
  }

  /** On the larger ship construction and all six loads succeed, ending with
      120 of 150 tonnes on board and the last two stacks empty. */
  lemma LargerShipTakesAll()
    ensures New(5, 4, 150) == Success(L0)
    ensures Load(L0, G0) == Step(L1, Pass)
    ensures Load(L1, G1) == Step(L2, Pass)
    ensures Load(L2, D0) == Step(L3, Pass)
    ensures Load(L3, R0) == Step(L4, Pass)
    ensures Load(L4, D1) == Step(L5, Pass)
    ensures Load(L5, R1) == Step(L6, Pass)
  {
    LargerShipStep1(); LargerShipStep2(); LargerShipStep3();
    LargerShipStep4(); LargerShipStep5(); LargerShipStep6();
  }

  /** `whichStack` reports stacks 0, 0, 1, 1, 2, 2 and `howHigh` heights
      0, 1, 0, 1, 0, 1 for the six containers. */
  lemma QueriesOnLoadedFixture()
    ensures WhichStack(S6, G0.code) == Some(0) && HowHigh(S6, G0.code) == Some(0)
    ensures WhichStack(S6, G1.code) == Some(0) && HowHigh(S6, G1.code) == Some(1)
    ensures WhichStack(S6, D0.code) == Some(1) && HowHigh(S6, D0.code) == Some(0)
    ensures WhichStack(S6, D1.code) == Some(1) && HowHigh(S6, D1.code) == Some(1)
    ensures WhichStack(S6, R0.code) == Some(2) && HowHigh(S6, R0.code) == Some(0)
    ensures WhichStack(S6, R1.code) == Some(2) && HowHigh(S6, R1.code) == Some(1)
  {
    LoadedIsValid();
    ManifestProofs.Locate(S6, G0.code, 0, 0);
    ManifestProofs.Locate(S6, G1.code, 0, 1);
    ManifestProofs.Locate(S6, D0.code, 1, 0);
    ManifestProofs.Locate(S6, D1.code, 1, 1);
    ManifestProofs.Locate(S6, R0.code, 2, 0);
    ManifestProofs.Locate(S6, R1.code, 2, 1);
  }

  /** Both queries report absence, not failure, for a code never loaded. */
  lemma QueriesForAbsentCode()
    ensures WhichStack(S6, Absent) == None && HowHigh(S6, Absent) == None
  {
    assert !Holds([G0, G1], Absent) && !Holds([D0, D1], Absent) && !Holds([R0, R1], Absent);
  }

  /** On the loaded fixture, already at its 120-tonne limit, all three
      rejected loads fail on the weight check, which comes first, even the
      one whose code is already on board. */
  lemma RejectedLoadsFailOnWeight()
    ensures Load(S6, GeneralGoodsContainer(G0.code, 30)).outcome == Fail(WeightExceeded)
    ensures Load(S6, GeneralGoodsContainer(G0.code, 5)).outcome == Fail(WeightExceeded)
    ensures Load(S6, GeneralGoodsContainer(Absent, 5)).outcome == Fail(WeightExceeded)
  {
  }

  /** The fixture after each successful unload of the unload test. */
  const U1 := CargoManifest([[G0], [D0, D1], [R0, R1]], 2, 120, 110)
  const U2 := CargoManifest([[], [D0, D1], [R0, R1]], 2, 120, 100)
  const U3 := CargoManifest([[], [D0], [R0, R1]], 2, 120, 80)

  lemma UnloadStep1()
    ensures Unload(S6, G1.code) == Step(U1, Pass) && Valid(U1)
  {
    LoadedIsValid();
    UnloadGives(S6, G1.code, 0, U1);
    ManifestProofs.UnloadPreservesValid(S6, G1.code);
  }

  lemma UnloadStep2()
    ensures Unload(U1, G0.code) == Step(U2, Pass) && Valid(U2)
  {
    UnloadStep1();
    UnloadGives(U1, G0.code, 0, U2);
    ManifestProofs.UnloadPreservesValid(U1, G0.code);
  }

  lemma UnloadStep3()
    ensures Unload(U2, D1.code) == Step(U3, Pass) && Valid(U3)
  {
    UnloadStep2();
    UnloadGives(U2, D1.code, 1, U3);
    ManifestProofs.UnloadPreservesValid(U2, D1.code);
  }

  /** The unload test: the tops G1, then G0, then D1 come off. */
  lemma UnloadTops()
    ensures Unload(S6, G1.code) == Step(U1, Pass)
    ensures Unload(U1, G0.code) == Step(U2, Pass)
    ensures Unload(U2, D1.code) == Step(U3, Pass)
  {
    UnloadStep1(); UnloadStep2(); UnloadStep3();
  }

  /** The unload test, continued: a code never loaded is not found, and R0,
      under R1, is not accessible. */
  lemma UnloadRejections()
    ensures Unload(U3, Absent).outcome == Fail(NotFound)
    ensures Unload(U3, R0.code).outcome == Fail(NotAccessible)
  {
    assert !Holds([], Absent) && !Holds([D0], Absent) && !Holds([R0, R1], Absent);
    UnloadStep3();
    ManifestProofs.Locate(U3, R0.code, 2, 0);
  }

  /** First fit does not backtrack: a dangerous-goods container goes to the
      empty stack 1 even though stack 2 already holds dangerous goods and has
      room. When no stack accepts, the load fails with `NoSpace`. */
  lemma FirstFitTakesFirstEmptyStack()
    ensures Load(CargoManifest([[G0], [], [D0]], 2, 120, 30), D1)
         == Step(CargoManifest([[G0], [D1], [D0]], 2, 120, 50), Pass)
    ensures Load(CargoManifest([[G0, G1], [D0]], 2, 120, 40), R0).outcome == Fail(NoSpace)
  {
    assert !Holds([G0], D1.code) && !Holds([D0], D1.code);
    LoadGoesTo(CargoManifest([[G0], [], [D0]], 2, 120, 30), D1, 1, CargoManifest([[G0], [D1], [D0]], 2, 120, 50));
    assert !Holds([G0, G1], R0.code) && !Holds([D0], R0.code);
  }

  /** Construction rejects each non-positive parameter and accepts the
      positive combinations of the constructor test. */
  lemma ConstructorCases()
    ensures New(1, 2, 30).Success? && New(4, 3, 50).Success?
    ensures New(-1, 2, 30) == Failure(BadParams) && New(0, 2, 30) == Failure(BadParams)
    ensures New(1, -1, 30) == Failure(BadParams) && New(1, 0, 30) == Failure(BadParams)
    ensures New(1, 2, -1) == Failure(BadParams) && New(1, 2, 0) == Failure(BadParams)
  {
  }
}
